/** The character profile (`VIVICharacter` in vivi_character.py): a value built once from a
    loaded configuration, with a fixed default for every key the configuration lacks. */
module CharacterProfile {
  import opened Wrappers
  import opened Strings

  datatype Trait = Trait(name: string, description: string)

  /** The loaded configuration: each of the eight keys the constructor reads, present
      (`Some`) or absent (`None`). */
  datatype CharacterData = CharacterData(
    name: Option<string>,
    description: Option<string>,
    personalityTraits: Option<seq<Trait>>,
    greeting: Option<string>,
    farewell: Option<string>,
    defaultResponse: Option<string>,
    knowledgeDomain: Option<seq<string>>,
    agileReminders: Option<seq<string>>)

  /** The empty configuration `{}` the character loader falls back to. */
  const NoData := CharacterData(None, None, None, None, None, None, None, None)

  const DefaultName := "VIVI"
  const DefaultDescription := ""
  const DefaultGreeting := "Hello! I'm VIVI."
  const DefaultFarewell := "Bye for now!"
  const DefaultResponse := "Hmm, interesting question..."

  datatype Character = Character(
    name: string,
    description: string,
    personalityTraits: seq<Trait>,
    greeting: string,
    farewell: string,
    defaultResponse: string,
    knowledgeDomain: seq<string>,
    agileReminders: seq<string>)

  /** `VIVICharacter(data)`: every field is `data.get(key, default)`. */
  function FromData(d: CharacterData): Character {
    Character(
      d.name.GetOr(DefaultName),
      d.description.GetOr(DefaultDescription),
      d.personalityTraits.GetOr([]),
      d.greeting.GetOr(DefaultGreeting),
      d.farewell.GetOr(DefaultFarewell),
      d.defaultResponse.GetOr(DefaultResponse),
      d.knowledgeDomain.GetOr([]),
      d.agileReminders.GetOr([]))
  }

  /** The configuration that lists every field of `c`. */
  function ToData(c: Character): CharacterData {
    CharacterData(Some(c.name), Some(c.description), Some(c.personalityTraits), Some(c.greeting),
                  Some(c.farewell), Some(c.defaultResponse), Some(c.knowledgeDomain),
                  Some(c.agileReminders))
  }

  /** Each absent key takes its fixed default. */
  lemma AbsentKeysTakeDefaults(d: CharacterData)
    ensures d.name.None? ==> FromData(d).name == "VIVI"
    ensures d.description.None? ==> FromData(d).description == ""
    ensures d.personalityTraits.None? ==> FromData(d).personalityTraits == []
    ensures d.greeting.None? ==> FromData(d).greeting == "Hello! I'm VIVI."
    ensures d.farewell.None? ==> FromData(d).farewell == "Bye for now!"
    ensures d.defaultResponse.None? ==> FromData(d).defaultResponse == "Hmm, interesting question..."
    ensures d.knowledgeDomain.None? ==> FromData(d).knowledgeDomain == []
    ensures d.agileReminders.None? ==> FromData(d).agileReminders == []
  {
  }

  /** Each present key's value is stored unchanged. */
  lemma PresentKeysStoredUnchanged(d: CharacterData)
    ensures d.name.Some? ==> FromData(d).name == d.name.value
    ensures d.description.Some? ==> FromData(d).description == d.description.value
    ensures d.personalityTraits.Some? ==> FromData(d).personalityTraits == d.personalityTraits.value
    ensures d.greeting.Some? ==> FromData(d).greeting == d.greeting.value
    ensures d.farewell.Some? ==> FromData(d).farewell == d.farewell.value
    ensures d.defaultResponse.Some? ==> FromData(d).defaultResponse == d.defaultResponse.value
    ensures d.knowledgeDomain.Some? ==> FromData(d).knowledgeDomain == d.knowledgeDomain.value
    ensures d.agileReminders.Some? ==> FromData(d).agileReminders == d.agileReminders.value
  {
  }

  /** Construction loses nothing: a full configuration gives back the character it lists. */
  lemma FromDataRoundTrip(c: Character)
    ensures FromData(ToData(c)) == c
  {
  }

  /** `"{trait}: {description}"`, the rendering of one entry of `personality_traits`. */
  function RenderTrait(t: Trait): string {
    t.name + ": " + t.description
  }

  function RenderTraits(ts: seq<Trait>): (r: seq<string>)
    ensures |r| == |ts|
  {
    seq(|ts|, i requires 0 <= i < |ts| => RenderTrait(ts[i]))
  }

  /** `personality_summary()`: the trait renderings joined by "; ", in list order. */
  function PersonalitySummary(c: Character): (r: string)
    ensures c.personalityTraits == [] ==> r == ""
    ensures |c.personalityTraits| == 1 ==> r == RenderTrait(c.personalityTraits[0])
  {
    Join("; ", RenderTraits(c.personalityTraits))
  }

  /** One more trait extends the summary by "; " and that trait's rendering: the summary
      keeps list order and repeats or drops nothing. */
  lemma SummarySnoc(c: Character, t: Trait)
    requires c.personalityTraits != []
    ensures PersonalitySummary(c.(personalityTraits := c.personalityTraits + [t]))
         == PersonalitySummary(c) + "; " + RenderTrait(t)
  {
    var ts := c.personalityTraits;
    assert RenderTraits(ts + [t]) == RenderTraits(ts) + [RenderTrait(t)];
    JoinSnoc("; ", RenderTraits(ts), RenderTrait(t));
  }

  predicate NoSeparatorInside(t: Trait) {
    Separators(t.name) == 0 && Separators(t.description) == 0
  }

  /** A trait's rendering holds "; " exactly as often as its two texts do. */
  lemma {:induction false} RenderTraitSeparators(t: Trait)
    ensures Separators(RenderTrait(t)) == Separators(t.name) + Separators(t.description)
  {
    SeparatorsAppend(t.name, ": ");
    SeparatorsAppend(t.name + ": ", t.description);
    assert Separators(": ") == 0;
  }

  /** With n >= 1 traits none of whose texts contains "; ", the summary contains exactly
      n - 1 separators. */
  lemma {:induction false} SummarySeparatorCount(ts: seq<Trait>)
    requires ts != []
    requires forall i :: 0 <= i < |ts| ==> NoSeparatorInside(ts[i])
    ensures Separators(Join("; ", RenderTraits(ts))) == |ts| - 1
  {
    RenderTraitSeparators(ts[0]);
    if |ts| > 1 {
      var parts := RenderTraits(ts);
      assert parts[1..] == RenderTraits(ts[1..]);
      var rest := Join("; ", parts[1..]);
      SummarySeparatorCount(ts[1..]);
      SeparatorsAppend("; ", rest);
      SeparatorsAppend(parts[0], "; " + rest);
      assert parts[0] + "; " + rest == parts[0] + ("; " + rest);
      assert Separators("; ") == 1;
    }
  }

  /** `intro()`. */
  function Intro(c: Character): string {
    c.greeting
  }

  /** `outro()`. */
  function Outro(c: Character): string {
    c.farewell
  }

  /** The greeting and farewell shown are the configured ones, or the defaults. */
  lemma IntroOutroOfData(d: CharacterData)
    ensures Intro(FromData(d)) == d.greeting.GetOr("Hello! I'm VIVI.")
    ensures Outro(FromData(d)) == d.farewell.GetOr("Bye for now!")
  {
  }

  /** `random_reminder()`; `pick` stands for the random generator's choice. */
  function RandomReminder(c: Character, pick: nat): (r: string)
    ensures c.agileReminders == [] ==> r == ""
    ensures c.agileReminders != [] ==> r in c.agileReminders
  {
    if c.agileReminders == [] then "" else c.agileReminders[pick % |c.agileReminders|]
  }

  /** Every reminder can be the one chosen. */
  lemma EveryReminderCanBeChosen(c: Character, i: nat)
    requires i < |c.agileReminders|
    ensures RandomReminder(c, i) == c.agileReminders[i]
  {
  }
}
