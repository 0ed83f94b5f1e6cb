/** What vivi.py and vivi_riva.py share: the memory log and its entries, the memory-context
    lambda of the prompt chain, the two loaders (the same code, though vivi.py reads from a
    path relative to the working directory and vivi_riva.py from one relative to the script),
    the placeholder reply for a failed reasoning call, the exit test and the entry format. */
module Conversation {
  import opened Wrappers
  import opened Strings
  import opened CharacterProfile

  /** One persisted turn: `{"timestamp": ..., "content": ...}`. */
  datatype MemoryEntry = MemoryEntry(timestamp: string, content: string)

  /** How many recent entries the prompt sees (`memory[-5:]`). */
  const ContextSize: nat := 5

  /** The input map of the prompt chain, once each lambda has been applied. */
  datatype ContextBundle = ContextBundle(name: string, personality: string, memory: string, userInput: string)

  /** The language model behind the chain is not modelled: its answer to a turn is any total
      function of the turn's index and the filled-in prompt variables, succeeding with text or
      failing with the text of the exception it raised. */
  type Model = (nat, ContextBundle) -> Result<string, string>

  /** What the loops call: `chain.invoke({"character", "memory", "user_input"})`, as a function
      of the turn's index and of exactly those three inputs. */
  type Chain = (nat, Character, seq<MemoryEntry>, string) -> Result<string, string>

  /** How a conversation loop ended: an exit keyword, the end of the modelled input stream, or
      an exception that escaped the loop. */
  datatype Outcome = Exited | InputEnded | Crashed(cause: string)

  /** One pass of a loop body: the loop goes on with the new state, or leaves it. */
  datatype Step<S> = Continue(state: S) | Stop(state: S, outcome: Outcome)

  /** `while True` around a loop body, from input `k` on, until the body leaves the loop or
      the modelled input stream ends. The body sees the state, the input's index and the
      input itself. */
  function Loop<S, I>(body: (S, nat, I) -> Step<S>, st: S, inputs: seq<I>, k: nat): (S, Outcome)
    requires k <= |inputs|
    decreases |inputs| - k
  {
    if k == |inputs| then (st, InputEnded)
    else
      match body(st, k, inputs[k])
      case Stop(s, o) => (s, o)
      case Continue(s) => Loop(body, s, inputs, k + 1)
  }

  /** A property of the state that every pass of the body preserves holds when the loop
      ends, however it ends. */
  lemma {:induction false} LoopPreserves<S, I>(body: (S, nat, I) -> Step<S>, inv: S -> bool, st: S, inputs: seq<I>, k: nat)
    requires k <= |inputs| && inv(st)
    requires forall s, j, input :: inv(s) ==> inv(body(s, j, input).state)
    ensures inv(Loop(body, st, inputs, k).0)
    decreases |inputs| - k
  {
    if k < |inputs| {
      var step := body(st, k, inputs[k]);
      if step.Continue? {
        LoopPreserves(body, inv, step.state, inputs, k + 1);
      }
    }
  }

  /** The indices of the inputs whose pass grew the log `mem` of the state, in the order the
      run met them. */
  function Appended<S, I>(body: (S, nat, I) -> Step<S>, mem: S -> seq<MemoryEntry>, st: S, inputs: seq<I>, k: nat): seq<nat>
    requires k <= |inputs|
    decreases |inputs| - k
  {
    if k == |inputs| then []
    else
      var step := body(st, k, inputs[k]);
      var here := if |mem(step.state)| != |mem(st)| then [k] else [];
      if step.Stop? then here else here + Appended(body, mem, step.state, inputs, k + 1)
  }

  /** A pass on input `x` at index `j` took the log from `before` to `after`: it left the log
      alone, or appended one entry of which `record` holds. */
  predicate PassRecorded<I>(before: seq<MemoryEntry>, after: seq<MemoryEntry>, j: nat, x: I,
                            record: (seq<MemoryEntry>, nat, I, MemoryEntry) -> bool) {
    || after == before
    || (|after| == |before| + 1 && after[..|before|] == before && record(before, j, x, after[|before|]))
  }

  /** The log `m` extends `m0` by one entry per index of `idx`, the indices are strictly
      increasing inputs from `k` on, and the j-th new entry is the record of input `idx[j]`
      on the log just before it. */
  predicate RecordsFrom<I>(record: (seq<MemoryEntry>, nat, I, MemoryEntry) -> bool,
                           m0: seq<MemoryEntry>, m: seq<MemoryEntry>, idx: seq<nat>, inputs: seq<I>, k: nat) {
    && |m| == |m0| + |idx| && m[..|m0|] == m0
    && (forall j :: 0 <= j < |idx| ==>
          k <= idx[j] < |inputs| && record(m[..|m0| + j], idx[j], inputs[idx[j]], m[|m0| + j]))
    && (forall i, j :: 0 <= i < j < |idx| ==> idx[i] < idx[j])
  }

  /** One pass from `m0` to `mt` on input `k`, followed by a run from `mt` that `RecordsFrom`
      describes, is described by `RecordsFrom` from `m0`. */
  lemma RecordsFromCons<I>(record: (seq<MemoryEntry>, nat, I, MemoryEntry) -> bool,
                           m0: seq<MemoryEntry>, mt: seq<MemoryEntry>, m: seq<MemoryEntry>,
                           rest: seq<nat>, inputs: seq<I>, k: nat)
    requires k < |inputs| && PassRecorded(m0, mt, k, inputs[k], record)
    requires RecordsFrom(record, mt, m, rest, inputs, k + 1)
    ensures RecordsFrom(record, m0, m, (if |mt| != |m0| then [k] else []) + rest, inputs, k)
  {
    var here: seq<nat> := if |mt| != |m0| then [k] else [];
    var idx := here + rest;
    assert mt[..|m0|] == m0 by {
      if mt == m0 { assert m0[..|m0|] == m0; }
    }
    assert m[..|m0|] == m0 by {
      assert m[..|m0|] == m[..|mt|][..|m0|];
    }
    forall j | 0 <= j < |idx|
      ensures k <= idx[j] < |inputs| && record(m[..|m0| + j], idx[j], inputs[idx[j]], m[|m0| + j])
    {
      if j < |here| {
        assert m[|m0|] == m[..|mt|][|m0|] == mt[|m0|];
      } else {
        assert idx[j] == rest[j - |here|];
      }
    }
  }

  /** When every pass leaves the log alone or appends one entry `record` accepts, the whole
      run appends one entry per input listed by `Appended`, those inputs come in increasing
      order, and the j-th new entry is the record of the j-th of them, on the log as it stood
      just before that entry. */
  lemma {:induction false} LoopRecordsAt<S, I>(body: (S, nat, I) -> Step<S>, mem: S -> seq<MemoryEntry>,
                                             record: (seq<MemoryEntry>, nat, I, MemoryEntry) -> bool,
                                             st: S, inputs: seq<I>, k: nat)
    requires k <= |inputs|
    requires forall s, j, x :: PassRecorded(mem(s), mem(body(s, j, x).state), j, x, record)
    ensures RecordsFrom(record, mem(st), mem(Loop(body, st, inputs, k).0), Appended(body, mem, st, inputs, k), inputs, k)
    decreases |inputs| - k
  {
    var m0 := mem(st);
    if k == |inputs| {
      assert m0[..|m0|] == m0;
    } else {
      var step := body(st, k, inputs[k]);
      var t := step.state;
      var here: seq<nat> := if |mem(t)| != |m0| then [k] else [];
      assert PassRecorded(m0, mem(t), k, inputs[k], record);
      if step.Continue? {
        var rest := Appended(body, mem, t, inputs, k + 1);
        var m := mem(Loop(body, t, inputs, k + 1).0);
        assert Loop(body, st, inputs, k) == Loop(body, t, inputs, k + 1);
        assert Appended(body, mem, st, inputs, k) == here + rest;
        LoopRecordsAt(body, mem, record, t, inputs, k + 1);
        RecordsFromCons(record, m0, mem(t), m, rest, inputs, k);
      } else {
        var rest: seq<nat> := [];
        assert Loop(body, st, inputs, k).0 == t;
        assert Appended(body, mem, st, inputs, k) == here + rest;
        assert mem(t)[..|mem(t)|] == mem(t);
        assert RecordsFrom(record, mem(t), mem(t), rest, inputs, k + 1);
        RecordsFromCons(record, m0, mem(t), mem(t), rest, inputs, k);
      }
    }
  }

  /** When every pass that leaves the loop does so with an outcome `allowed` accepts, the
      loop ends with such an outcome or because the inputs are spent. */
  lemma {:induction false} LoopOutcome<S, I>(body: (S, nat, I) -> Step<S>, allowed: Outcome -> bool, st: S, inputs: seq<I>, k: nat)
    requires k <= |inputs|
    requires forall s, j, x :: body(s, j, x).Stop? ==> allowed(body(s, j, x).outcome)
    ensures Loop(body, st, inputs, k).1 == InputEnded || allowed(Loop(body, st, inputs, k).1)
    decreases |inputs| - k
  {
    if k < |inputs| {
      var step := body(st, k, inputs[k]);
      if step.Continue? {
        LoopOutcome(body, allowed, step.state, inputs, k + 1);
      }
    }
  }

  function Min(a: nat, b: nat): nat {
    if a <= b then a else b
  }

  /** `memory[-5:]`: the most recent entries, at most five, oldest first. */
  function RecentMemory(memory: seq<MemoryEntry>): (w: seq<MemoryEntry>)
    ensures |w| == Min(ContextSize, |memory|)
    ensures forall i :: 0 <= i < |w| ==> w[i] == memory[|memory| - |w| + i]
  {
    if |memory| <= ContextSize then memory else memory[|memory| - ContextSize..]
  }

  /** `"{timestamp}: {content}"`. */
  function RenderEntry(e: MemoryEntry): string {
    e.timestamp + ": " + e.content
  }

  function RenderEntries(es: seq<MemoryEntry>): (r: seq<string>)
    ensures |r| == |es|
  {
    seq(|es|, i requires 0 <= i < |es| => RenderEntry(es[i]))
  }

  /** The "memory" lambda: the recent entries rendered and joined by newlines. */
  function MemoryContext(memory: seq<MemoryEntry>): (r: string)
    ensures memory == [] ==> r == ""
  {
    Join("\n", RenderEntries(RecentMemory(memory)))
  }

  /** A log of at most five entries is rendered whole: nothing dropped, nothing repeated, in
      chronological order. */
  lemma ShortMemoryRenderedWhole(memory: seq<MemoryEntry>)
    requires |memory| <= ContextSize
    ensures MemoryContext(memory) == Join("\n", RenderEntries(memory))
  {
  }

  /** Appending an entry slides the window: the new entry comes last and, once five entries
      are in view, the oldest of them leaves. */
  lemma RecentMemoryAfterAppend(memory: seq<MemoryEntry>, e: MemoryEntry)
    ensures RecentMemory(memory + [e]) ==
      (if |memory| < ContextSize then memory else RecentMemory(memory)[1..]) + [e]
  {
    var m := memory + [e];
    if |memory| >= ContextSize {
      assert m[|m| - ContextSize..] == memory[|memory| - ContextSize..][1..] + [e];
    }
  }

  /** While the log is short, a new entry adds exactly one line at the end of the context. */
  lemma MemoryContextAfterAppend(memory: seq<MemoryEntry>, e: MemoryEntry)
    requires 0 < |memory| < ContextSize
    ensures MemoryContext(memory + [e]) == MemoryContext(memory) + "\n" + RenderEntry(e)
  {
    RecentMemoryAfterAppend(memory, e);
    assert RenderEntries(memory + [e]) == RenderEntries(memory) + [RenderEntry(e)];
    JoinSnoc("\n", RenderEntries(memory), RenderEntry(e));
  }

  /** The chain's input map for one turn, built from the memory as it stands. */
  function BuildContext(c: Character, memory: seq<MemoryEntry>, userInput: string): (b: ContextBundle)
    ensures b.memory == MemoryContext(memory) && b.userInput == userInput
    ensures b.name == c.name && b.personality == PersonalitySummary(c)
  {
    ContextBundle(c.name, PersonalitySummary(c), MemoryContext(memory), userInput)
  }

  /** The chain both loops build: the `RunnableMap` of four lambdas, then the prompt template
      and the model. */
  function PromptChain(model: Model): (chain: Chain)
    ensures forall k, c, memory, userInput ::
      chain(k, c, memory, userInput) == model(k, BuildContext(c, memory, userInput))
  {
    (k: nat, c: Character, memory: seq<MemoryEntry>, userInput: string) => model(k, BuildContext(c, memory, userInput))
  }

  /** What the model sees of the memory through the chain: the five most recent entries
      rendered oldest first, and for a short log a context that grows by exactly the new line
      when an entry is appended. */
  lemma ChainSeesRecentMemory(model: Model, k: nat, c: Character, memory: seq<MemoryEntry>, userInput: string, e: MemoryEntry)
    requires 0 < |memory| < ContextSize
    ensures PromptChain(model)(k, c, memory + [e], userInput) ==
      model(k, ContextBundle(c.name, PersonalitySummary(c), MemoryContext(memory) + "\n" + RenderEntry(e), userInput))
  {
    MemoryContextAfterAppend(memory, e);
  }

  /** What the model sees depends on the log only through its five most recent entries. */
  lemma ChainSeesOnlyRecent(model: Model, k: nat, c: Character, m1: seq<MemoryEntry>, m2: seq<MemoryEntry>, userInput: string)
    requires RecentMemory(m1) == RecentMemory(m2)
    ensures PromptChain(model)(k, c, m1, userInput) == PromptChain(model)(k, c, m2, userInput)
  {
  }

  /** An entry with at least five newer ones never reaches the model. */
  lemma OldEntryUnseen(model: Model, k: nat, c: Character, e: MemoryEntry, memory: seq<MemoryEntry>, userInput: string)
    requires |memory| >= ContextSize
    ensures PromptChain(model)(k, c, [e] + memory, userInput) == PromptChain(model)(k, c, memory, userInput)
  {
    var m := [e] + memory;
    assert m[|m| - ContextSize..] == memory[|memory| - ContextSize..];
    ChainSeesOnlyRecent(model, k, c, m, memory, userInput);
  }

  /** `f"(Oops, something went wrong: {e})"`. */
  function Placeholder(cause: string): string {
    "(Oops, something went wrong: " + cause + ")"
  }

  /** The reply after the `try`/`except` around `chain.invoke`. */
  function ReplyText(r: Result<string, string>): string {
    match r
    case Success(s) => s
    case Failure(e) => Placeholder(e)
  }

  /** A placeholder is never blank, whatever the cause (it starts with "("). */
  lemma PlaceholderNotBlank(cause: string)
    ensures !IsBlank(Placeholder(cause))
  {
    assert Placeholder(cause)[0] == '(';
    assert !IsSpace('(');
  }

  /** `user_input.lower() in ("exit", "!stop")`. */
  predicate IsExitCommand(s: string) {
    Lower(s) == "exit" || Lower(s) == "!stop"
  }

  /** The exit test ignores letter case: any capitalisation of the keywords exits. */
  lemma ExitCommandExamples()
    ensures IsExitCommand("exit") && IsExitCommand("EXIT") && IsExitCommand("Exit")
    ensures IsExitCommand("!stop") && IsExitCommand("!STOP")
  {
    assert Lower("EXIT") == "exit";
    assert Lower("Exit") == "exit";
    assert Lower("!STOP") == "!stop";
  }

  /** Only the whole keyword exits: text around it, or a keyword without its "!", does not. */
  lemma NotExitCommandExamples()
    ensures !IsExitCommand("exit now") && !IsExitCommand("stop")
  {
    assert |Lower("exit now")| == 8;
    assert Lower("stop")[0] == 's';
  }

  /** Two inputs that lower to the same text are both exit commands or neither is. */
  lemma ExitCommandIgnoresCase(s: string, t: string)
    requires |s| == |t|
    requires forall i :: 0 <= i < |s| ==> LowerChar(s[i]) == LowerChar(t[i])
    ensures IsExitCommand(s) <==> IsExitCommand(t)
  {
    assert Lower(s) == Lower(t);
  }

  /** `f"User: {user_input}\n{character.name}: {response}"`. */
  function TurnContent(name: string, userInput: string, reply: string): string {
    "User: " + userInput + "\n" + name + ": " + reply
  }

  /** The format is unambiguous about the user's text: two contents for the same character
      name whose user text contains no newline determine both the user text and the reply. */
  lemma {:induction false} TurnContentInjective(name: string, u1: string, r1: string, u2: string, r2: string)
    requires '\n' !in u1 && '\n' !in u2
    requires TurnContent(name, u1, r1) == TurnContent(name, u2, r2)
    ensures u1 == u2 && r1 == r2
  {
    var s := TurnContent(name, u1, r1);
    assert s[6 + |u1|] == '\n';
    assert s[6 + |u2|] == '\n';
    assert |u1| == |u2|;
    assert u1 == s[6..6 + |u1|] == u2;
    var k := 6 + |u1| + 1 + |name| + 2;
    assert r1 == s[k..] == r2;
  }

  /** What reading a JSON file gives: its parsed value, `FileNotFoundError`,
      `json.JSONDecodeError`, or any other exception (which the loaders do not catch). */
  datatype FileRead<T> = Parsed(value: T) | NotFound | Malformed | Unreadable(cause: string)

  /** A loader's value together with the notice it printed. */
  datatype Loaded<T> = Loaded(value: T, notice: seq<string>)

  const EmptyMemoryNotice := "Starting with empty memory."
  const DefaultCharacterNotice := "Starting with default character."

  /** The shape shared by `load_memory` and `load_character`. */
  function LoadOrDefault<T>(f: FileRead<T>, fallback: T, notice: string): (r: Result<Loaded<T>, string>)
    ensures f.Parsed? ==> r == Success(Loaded(f.value, []))
    ensures (f.NotFound? || f.Malformed?) ==> r == Success(Loaded(fallback, [notice]))
    ensures f.Unreadable? ==> r == Failure(f.cause)
  {
    match f
    case Parsed(v) => Success(Loaded(v, []))
    case NotFound => Success(Loaded(fallback, [notice]))
    case Malformed => Success(Loaded(fallback, [notice]))
    case Unreadable(e) => Failure(e)
  }

  /** `load_memory()`: the parsed log, or `[]` when the file is missing or malformed. */
  function LoadMemory(f: FileRead<seq<MemoryEntry>>): (r: Result<Loaded<seq<MemoryEntry>>, string>)
    ensures f.Parsed? ==> r == Success(Loaded(f.value, []))
    ensures (f.NotFound? || f.Malformed?) ==> r == Success(Loaded([], ["Starting with empty memory."]))
    ensures f.Unreadable? ==> r.Failure?
  {
    LoadOrDefault(f, [], EmptyMemoryNotice)
  }

  /** `load_character()`: the parsed configuration, or `{}` when the file is missing or
      malformed. */
  function LoadCharacter(f: FileRead<CharacterData>): (r: Result<Loaded<CharacterData>, string>)
    ensures f.Parsed? ==> r == Success(Loaded(f.value, []))
    ensures (f.NotFound? || f.Malformed?) ==> r == Success(Loaded(NoData, ["Starting with default character."]))
    ensures f.Unreadable? ==> r.Failure?
  {
    LoadOrDefault(f, NoData, DefaultCharacterNotice)
  }

  /** A missing or corrupt character file yields the all-defaults character. */
  lemma DefaultCharacterOnError(f: FileRead<CharacterData>)
    requires f.NotFound? || f.Malformed?
    ensures LoadCharacter(f).Success?
    ensures FromData(LoadCharacter(f).value.value) ==
      Character("VIVI", "", [], "Hello! I'm VIVI.", "Bye for now!", "Hmm, interesting question...", [], [])
  {
  }
}
