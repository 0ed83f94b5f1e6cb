/** The typed-console variant, vivi.py: `run_live_character` and the program's start-up. */
module TextChat {
  import opened Wrappers
  import opened Strings
  import opened CharacterProfile
  import opened Conversation

  /** One line typed at the `You: ` prompt, and the timestamp `datetime.now()` gives if the
      turn is recorded. */
  datatype TextInput = TextInput(line: string, stamp: string)

  /** The loop's state: the in-memory log, the lines printed so far, and every full log
      written to the memory file, oldest first. */
  datatype TextState = TextState(memory: seq<MemoryEntry>, console: seq<string>, writes: seq<seq<MemoryEntry>>)

  /** The reply vivi.py uses: the placeholder on failure, then `default_response` in place
      of a blank reply. */
  function TextReply(c: Character, r: Result<string, string>): (reply: string)
    ensures reply == ReplyText(r) || reply == c.defaultResponse
    ensures !IsBlank(c.defaultResponse) ==> !IsBlank(reply)
  {
    var reply := ReplyText(r);
    if IsBlank(reply) then c.defaultResponse else reply
  }

  /** A failed reasoning call shows and records exactly the placeholder: the blank-reply
      fallback never replaces it. */
  lemma FailureGivesPlaceholder(c: Character, cause: string)
    ensures TextReply(c, Failure(cause)) == "(Oops, something went wrong: " + cause + ")"
  {
    PlaceholderNotBlank(cause);
  }

  /** The blank-reply fallback: a reply that strips to nothing becomes `default_response`,
      any other reply is kept as returned. */
  lemma BlankReplyGivesDefault(c: Character, s: string)
    ensures AllSpace(s) ==> TextReply(c, Success(s)) == c.defaultResponse
    ensures !AllSpace(s) ==> TextReply(c, Success(s)) == s
  {
    BlankIffAllSpace(s);
  }

  /** One pass of the `while True` body of `run_live_character`. */
  function TextTurn(c: Character, st: TextState, k: nat, input: TextInput, chain: Chain): Step<TextState> {
    var userInput := Strip(input.line);
    if IsExitCommand(userInput) then
      Stop(st.(console := st.console + [Outro(c)]), Exited)
    else
      var reply := TextReply(c, chain(k, c, st.memory, userInput));
      var memory := st.memory + [MemoryEntry(input.stamp, TurnContent(c.name, userInput, reply))];
      Continue(TextState(memory, st.console + [c.name + ": " + reply], st.writes + [memory]))
  }

  /** The body of the loop as a value, so that facts about whole runs can be proved once
      from facts about a single pass. */
  type TurnBody = (TextState, nat, TextInput) -> Step<TextState>

  /** The loop of `run_live_character` from input `k` on is `Loop(TextBody(c, chain), st,
      inputs, k)`. */
  function TextBody(c: Character, chain: Chain): (body: TurnBody)
    ensures forall st, k, input :: body(st, k, input) == TextTurn(c, st, k, input, chain)
  {
    (st: TextState, k: nat, input: TextInput) => TextTurn(c, st, k, input, chain)
  }

  /** `s` extends `st`: every earlier entry, write and console line is kept. */
  predicate Extends(st: TextState, s: TextState) {
    && |st.memory| <= |s.memory| && s.memory[..|st.memory|] == st.memory
    && |st.writes| <= |s.writes| && s.writes[..|st.writes|] == st.writes
    && |st.console| <= |s.console| && s.console[..|st.console|] == st.console
  }

  /** What one pass of a body may do: stop the loop with `Exited`, keeping the log and the
      writes, after printing at least one line; or go on after appending exactly one entry
      and writing the whole new log. */
  ghost predicate AppendOnly(body: TurnBody) {
    forall st, k, input :: PassAppends(st, body(st, k, input))
  }

  /** One pass from `st` that gives `step` is append-only. */
  predicate PassAppends(st: TextState, step: Step<TextState>) {
    var s := step.state;
    && Extends(st, s) && (step.Stop? ==> step.outcome == Exited && s.memory == st.memory && s.writes == st.writes)
    && (step.Continue? ==> |s.memory| == |st.memory| + 1 && s.writes == st.writes + [s.memory])
  }

  lemma ExtendsTrans(a: TextState, b: TextState, c: TextState)
    requires Extends(a, b) && Extends(b, c)
    ensures Extends(a, c)
  {
    assert c.memory[..|a.memory|] == c.memory[..|b.memory|][..|a.memory|];
    assert c.writes[..|a.writes|] == c.writes[..|b.writes|][..|a.writes|];
    assert c.console[..|a.console|] == c.console[..|b.console|][..|a.console|];
  }

  /** A run of an append-only body only appends, at most one entry per input, and writes the
      memory file once per appended entry, each time with the log up to that entry. */
  lemma {:induction false} LoopAppends(body: TurnBody, st: TextState, inputs: seq<TextInput>, k: nat)
    requires k <= |inputs| && AppendOnly(body)
    ensures var s := Loop(body, st, inputs, k).0;
      && Extends(st, s)
      && |s.memory| <= |st.memory| + (|inputs| - k)
      && |s.writes| - |st.writes| == |s.memory| - |st.memory|
      && forall j :: |st.writes| <= j < |s.writes| ==> s.writes[j] == s.memory[..|st.memory| + (j - |st.writes|) + 1]
    decreases |inputs| - k
  {
    if k < |inputs| {
      var step := body(st, k, inputs[k]);
      if step.Continue? {
        var mid := step.state;
        LoopAppends(body, mid, inputs, k + 1);
        var s := Loop(body, mid, inputs, k + 1).0;
        ExtendsTrans(st, mid, s);
        forall j | |st.writes| <= j < |s.writes|
          ensures s.writes[j] == s.memory[..|st.memory| + (j - |st.writes|) + 1]
        {
          if j == |st.writes| {
            assert s.writes[j] == s.writes[..|mid.writes|][j] == mid.writes[j];
            assert mid.memory == s.memory[..|mid.memory|];
          } else {
            assert s.writes[j] == s.memory[..|mid.memory| + (j - |mid.writes|) + 1];
          }
        }
      } else {
        assert Extends(st, step.state);
      }
    }
  }

  /** A fact `record(before, k, input, e)` that every appending pass establishes about the
      entry `e` it appends holds of every entry a run appends, with the log as it stood
      just before that entry and the input it came from. */
  lemma {:induction false} LoopRecords(body: TurnBody, record: (seq<MemoryEntry>, nat, TextInput, MemoryEntry) -> bool,
                                       st: TextState, inputs: seq<TextInput>, k: nat)
    requires k <= |inputs| && AppendOnly(body)
    requires forall st, k, input :: body(st, k, input).Continue? ==>
      |body(st, k, input).state.memory| > |st.memory| &&
      record(st.memory, k, input, body(st, k, input).state.memory[|st.memory|])
    ensures var s := Loop(body, st, inputs, k).0;
      && |st.memory| <= |s.memory| <= |st.memory| + (|inputs| - k)
      && forall j :: |st.memory| <= j < |s.memory| ==>
           record(s.memory[..j], k + (j - |st.memory|), inputs[k + (j - |st.memory|)], s.memory[j])
    decreases |inputs| - k
  {
    LoopAppends(body, st, inputs, k);
    if k < |inputs| && body(st, k, inputs[k]).Continue? {
      var mid := body(st, k, inputs[k]).state;
      LoopAppends(body, mid, inputs, k + 1);
      LoopRecords(body, record, mid, inputs, k + 1);
      var s := Loop(body, mid, inputs, k + 1).0;
      var base := |st.memory|;
      assert s.memory[..base] == st.memory by {
        assert s.memory[..base] == s.memory[..base + 1][..base];
      }
      assert s.memory[base] == mid.memory[base];
    }
  }

  /** A run of an append-only body whose passes stop exactly on the inputs `isExit` accepts,
      printing `farewell` last, passes only inputs `isExit` rejects, one per appended entry,
      and ends with `Exited` or because the inputs are spent ... */
  lemma {:induction false} LoopStops(body: TurnBody, isExit: TextInput -> bool, farewell: string,
                                     st: TextState, inputs: seq<TextInput>, k: nat)
    requires k <= |inputs| && AppendOnly(body)
    requires forall st, k, input :: StopsOn(isExit, farewell, input, body(st, k, input))
    ensures var (s, o) := Loop(body, st, inputs, k);
      var n := |s.memory| - |st.memory|;
      && |st.memory| <= |s.memory| && k + n <= |inputs|
      && (o == Exited || o == InputEnded)
      && (forall i :: k <= i < k + n ==> !isExit(inputs[i]))
      && (o == InputEnded ==> k + n == |inputs|)
    decreases |inputs| - k
  {
    if k < |inputs| {
      var step := body(st, k, inputs[k]);
      if step.Continue? {
        var mid := step.state;
        LoopStops(body, isExit, farewell, mid, inputs, k + 1);
        var (s, o) := Loop(body, mid, inputs, k + 1);
        assert Loop(body, st, inputs, k) == (s, o);
        assert k + 1 + (|s.memory| - |mid.memory|) == k + (|s.memory| - |st.memory|);
      }
    }
  }

  /** ... and when it stops by an exit it is at input k + n, with `farewell` printed last. */
  lemma {:induction false} LoopExits(body: TurnBody, isExit: TextInput -> bool, farewell: string,
                                     st: TextState, inputs: seq<TextInput>, k: nat)
    requires k <= |inputs| && AppendOnly(body)
    requires forall st, k, input :: StopsOn(isExit, farewell, input, body(st, k, input))
    ensures var (s, o) := Loop(body, st, inputs, k);
      var n := |s.memory| - |st.memory|;
      && |st.memory| <= |s.memory|
      && (o == Exited ==> k + n < |inputs| && isExit(inputs[k + n])
                          && s.console != [] && s.console[|s.console| - 1] == farewell)
    decreases |inputs| - k
  {
    if k < |inputs| {
      var step := body(st, k, inputs[k]);
      if step.Continue? {
        var mid := step.state;
        LoopExits(body, isExit, farewell, mid, inputs, k + 1);
        var (s, o) := Loop(body, mid, inputs, k + 1);
        assert Loop(body, st, inputs, k) == (s, o);
        assert k + 1 + (|s.memory| - |mid.memory|) == k + (|s.memory| - |st.memory|);
      }
    }
  }

  /** The typed line, once stripped, is an exit keyword. */
  predicate IsExitInput(input: TextInput) {
    IsExitCommand(Strip(input.line))
  }

  /** A pass on `input` that gives `step` stops exactly when `isExit` accepts the input, and
      then has printed `farewell` last. */
  predicate StopsOn(isExit: TextInput -> bool, farewell: string, input: TextInput, step: Step<TextState>) {
    && (step.Stop? <==> isExit(input))
    && (step.Stop? ==> step.state.console != [] && step.state.console[|step.state.console| - 1] == farewell)
  }

  /** Entry `e` is the one a non-exit turn on `input` records when the memory before the turn
      was `before`: the stripped input, the character's name, and the reply computed from a
      context built on `before` (not on the log with this turn already in it). */
  predicate RecordedTurn(c: Character, before: seq<MemoryEntry>, k: nat, input: TextInput, chain: Chain, e: MemoryEntry) {
    var userInput := Strip(input.line);
    && !IsExitCommand(userInput)
    && e == MemoryEntry(input.stamp,
                        TurnContent(c.name, userInput, TextReply(c, chain(k, c, before, userInput))))
  }

  /** An exit input ends the loop, prints the farewell once and records nothing. */
  lemma ExitTurn(c: Character, st: TextState, k: nat, input: TextInput, chain: Chain)
    requires IsExitCommand(Strip(input.line))
    ensures TextTurn(c, st, k, input, chain) ==
      Stop(TextState(st.memory, st.console + [c.farewell], st.writes), Exited)
  {
  }

  /** Any other input appends exactly one entry, in the exact format, leaves every earlier
      entry as it was, and writes the whole new log. */
  lemma ChatTurn(c: Character, st: TextState, k: nat, input: TextInput, chain: Chain)
    requires !IsExitCommand(Strip(input.line))
    ensures TextTurn(c, st, k, input, chain).Continue?
    ensures var s := TextTurn(c, st, k, input, chain).state;
      && |s.memory| == |st.memory| + 1
      && s.memory[..|st.memory|] == st.memory
      && RecordedTurn(c, st.memory, k, input, chain, s.memory[|st.memory|])
      && s.writes == st.writes + [s.memory]
      && s.console == st.console + [c.name + ": " + TextReply(c, chain(k, c, st.memory, Strip(input.line)))]
  {
    var s := TextTurn(c, st, k, input, chain).state;
    assert s.memory[..|st.memory|] == st.memory;
  }

  /** A blank reply is both shown and recorded as the character's `default_response`. */
  lemma BlankReplyShownAsDefault(c: Character, st: TextState, k: nat, input: TextInput, chain: Chain, s: string)
    requires !IsExitCommand(Strip(input.line))
    requires chain(k, c, st.memory, Strip(input.line)) == Success(s) && AllSpace(s)
    ensures var after := TextTurn(c, st, k, input, chain).state;
      && after.console == st.console + [c.name + ": " + c.defaultResponse]
      && after.memory == st.memory + [MemoryEntry(input.stamp, TurnContent(c.name, Strip(input.line), c.defaultResponse))]
  {
    ChatTurn(c, st, k, input, chain);
    BlankReplyGivesDefault(c, s);
  }

  /** One pass of `run_live_character` is append-only, stops exactly on the exit keywords
      after printing the farewell, and records its turn as `RecordedTurn` says. */
  lemma TurnShape(c: Character, chain: Chain, st: TextState, k: nat, input: TextInput)
    ensures PassAppends(st, TextTurn(c, st, k, input, chain))
    ensures StopsOn(IsExitInput, c.farewell, input, TextTurn(c, st, k, input, chain))
    ensures var step := TextTurn(c, st, k, input, chain);
      step.Continue? ==>
        |step.state.memory| > |st.memory| && RecordedTurn(c, st.memory, k, input, chain, step.state.memory[|st.memory|])
  {
    var s := TextTurn(c, st, k, input, chain).state;
    if IsExitCommand(Strip(input.line)) {
      ExitTurn(c, st, k, input, chain);
      assert s.console[..|st.console|] == st.console;
    } else {
      ChatTurn(c, st, k, input, chain);
      assert s.console[..|st.console|] == st.console;
      assert s.writes[..|st.writes|] == st.writes;
    }
  }

  lemma BodyAppendOnly(c: Character, chain: Chain)
    ensures AppendOnly(TextBody(c, chain))
  {
    forall st, k, input
      ensures PassAppends(st, TextBody(c, chain)(st, k, input))
    {
      TurnShape(c, chain, st, k, input);
    }
  }

  lemma BodyStopsOnExit(c: Character, chain: Chain)
    ensures forall st, k, input :: StopsOn(IsExitInput, c.farewell, input, TextBody(c, chain)(st, k, input))
  {
    forall st, k, input
      ensures StopsOn(IsExitInput, c.farewell, input, TextBody(c, chain)(st, k, input))
    {
      TurnShape(c, chain, st, k, input);
    }
  }

  lemma BodyRecords(c: Character, chain: Chain)
    ensures forall st, k, input :: TextBody(c, chain)(st, k, input).Continue? ==>
      |TextBody(c, chain)(st, k, input).state.memory| > |st.memory| &&
      RecordedTurn(c, st.memory, k, input, chain, TextBody(c, chain)(st, k, input).state.memory[|st.memory|])
  {
    forall st, k, input
      ensures TextBody(c, chain)(st, k, input).Continue? ==>
        |TextBody(c, chain)(st, k, input).state.memory| > |st.memory| &&
        RecordedTurn(c, st.memory, k, input, chain, TextBody(c, chain)(st, k, input).state.memory[|st.memory|])
    {
      TurnShape(c, chain, st, k, input);
    }
  }

  /** A whole run of `run_live_character` only appends: the earlier log, writes and console
      lines stay as they were; it appends at most one entry per input; and it writes the
      memory file once per appended entry, each time with the log up to and including that
      entry, so the file always holds a prefix of completed turns. */
  lemma TextRunAppends(c: Character, st: TextState, inputs: seq<TextInput>, k: nat, chain: Chain)
    requires k <= |inputs|
    ensures var s := Loop(TextBody(c, chain), st, inputs, k).0;
      && Extends(st, s)
      && |s.memory| <= |st.memory| + (|inputs| - k)
      && |s.writes| - |st.writes| == |s.memory| - |st.memory|
      && forall j :: |st.writes| <= j < |s.writes| ==> s.writes[j] == s.memory[..|st.memory| + (j - |st.writes|) + 1]
  {
    BodyAppendOnly(c, chain);
    LoopAppends(TextBody(c, chain), st, inputs, k);
  }

  /** Entry j of the new part of the log is the one input k + (j - |st.memory|) records on
      the log as it stood just before that turn: every appended entry comes from a non-exit
      input, in input order, with its context built from the earlier entries only. */
  lemma TextRunRecords(c: Character, st: TextState, inputs: seq<TextInput>, k: nat, chain: Chain)
    requires k <= |inputs|
    ensures var s := Loop(TextBody(c, chain), st, inputs, k).0;
      && |st.memory| <= |s.memory| <= |st.memory| + (|inputs| - k)
      && forall j :: |st.memory| <= j < |s.memory| ==>
           RecordedTurn(c, s.memory[..j], k + (j - |st.memory|), inputs[k + (j - |st.memory|)], chain, s.memory[j])
  {
    BodyAppendOnly(c, chain);
    BodyRecords(c, chain);
    LoopRecords(TextBody(c, chain), (before: seq<MemoryEntry>, k: nat, input: TextInput, e: MemoryEntry) => RecordedTurn(c, before, k, input, chain, e), st, inputs, k);
  }

  /** How a run stops. With n the number of entries it appended: the inputs k to k + n - 1
      were all chat turns, and the run ended either at input k + n, by an exit keyword, or
      because all inputs were spent; never by an exception, since every reasoning failure is
      turned into a reply. */
  lemma TextRunStops(c: Character, st: TextState, inputs: seq<TextInput>, k: nat, chain: Chain)
    requires k <= |inputs|
    ensures var (s, o) := Loop(TextBody(c, chain), st, inputs, k);
      var n := |s.memory| - |st.memory|;
      && |st.memory| <= |s.memory| && k + n <= |inputs|
      && (o == Exited || o == InputEnded)
      && (forall i :: k <= i < k + n ==> !IsExitInput(inputs[i]))
      && (o == InputEnded ==> k + n == |inputs|)
  {
    BodyAppendOnly(c, chain);
    BodyStopsOnExit(c, chain);
    LoopStops(TextBody(c, chain), IsExitInput, c.farewell, st, inputs, k);
  }

  /** A run that ends by an exit keyword ends at input k + n, which is one, and its last
      printed line is the farewell. */
  lemma TextRunExits(c: Character, st: TextState, inputs: seq<TextInput>, k: nat, chain: Chain)
    requires k <= |inputs|
    ensures var (s, o) := Loop(TextBody(c, chain), st, inputs, k);
      var n := |s.memory| - |st.memory|;
      o == Exited ==>
        && 0 <= n && k + n < |inputs| && IsExitInput(inputs[k + n])
        && s.console != [] && s.console[|s.console| - 1] == c.farewell
  {
    BodyAppendOnly(c, chain);
    BodyStopsOnExit(c, chain);
    LoopExits(TextBody(c, chain), IsExitInput, c.farewell, st, inputs, k);
  }

  /** `run_live_character(memory, character_data)`: greets, then handles one typed line per
      iteration until an exit keyword. When the input stream runs out the model stops (the
      source's `input()` would raise `EOFError`). */
  method RunLiveCharacter(memory: seq<MemoryEntry>, characterData: CharacterData, inputs: seq<TextInput>, chain: Chain)
    returns (final: TextState, outcome: Outcome)
    ensures (final, outcome) ==
      Loop(TextBody(FromData(characterData), chain), TextState(memory, [Intro(FromData(characterData))], []), inputs, 0)
  {
    var character := FromData(characterData);
    var console := [Intro(character)];
    var log := memory;
    var writes: seq<seq<MemoryEntry>> := [];
    ghost var start := TextState(memory, console, writes);
    var k := 0;
    while k < |inputs|
      invariant k <= |inputs|
      invariant Loop(TextBody(character, chain), start, inputs, 0) == Loop(TextBody(character, chain), TextState(log, console, writes), inputs, k)
    {
      var userInput := Strip(inputs[k].line);
      if IsExitCommand(userInput) {
        console := console + [Outro(character)];
        return TextState(log, console, writes), Exited;
      }
      var response: string;
      match chain(k, character, log, userInput) {
        case Success(s) => response := s;
        case Failure(e) => response := Placeholder(e);
      }
      if IsBlank(response) {
        response := character.defaultResponse;
      }
      console := console + [character.name + ": " + response];
      log := log + [MemoryEntry(inputs[k].stamp, TurnContent(character.name, userInput, response))];
      writes := writes + [log];
      k := k + 1;
    }
    return TextState(log, console, writes), InputEnded;
  }

  /** The `__main__` block: load the memory, then the character configuration, then run. An
      exception a loader does not catch ends the program before the loop starts. */
  function TextProgram(memoryFile: FileRead<seq<MemoryEntry>>, characterFile: FileRead<CharacterData>,
                       inputs: seq<TextInput>, chain: Chain): (TextState, Outcome)
  {
    var banner := ["Importing vivi..."];
    match LoadMemory(memoryFile)
    case Failure(e) => (TextState([], banner, []), Crashed(e))
    case Success(m) =>
      match LoadCharacter(characterFile)
      case Failure(e) => (TextState(m.value, banner + m.notice, []), Crashed(e))
      case Success(d) =>
        var c := FromData(d.value);
        var (s, o) := Loop(TextBody(c, chain), TextState(m.value, [Intro(c)], []), inputs, 0);
        (s.(console := banner + m.notice + d.notice + s.console), o)
  }

  /** The program's start-up order: the banner comes first; it ends with an exception exactly
      when a loader raises, and then nothing was written; otherwise the console opens with
      the banner, the loaders' notices and the greeting, and the log grows from the loaded
      one. */
  lemma StartUpOrder(memoryFile: FileRead<seq<MemoryEntry>>, characterFile: FileRead<CharacterData>,
                     inputs: seq<TextInput>, chain: Chain)
    ensures var (s, o) := TextProgram(memoryFile, characterFile, inputs, chain);
      && s.console != [] && s.console[0] == "Importing vivi..."
      && (o.Crashed? <==> LoadMemory(memoryFile).Failure? || LoadCharacter(characterFile).Failure?)
      && (o.Crashed? ==> s.writes == [])
    ensures LoadMemory(memoryFile).Success? && LoadCharacter(characterFile).Success? ==>
      var m := LoadMemory(memoryFile).value;
      var d := LoadCharacter(characterFile).value;
      var s := TextProgram(memoryFile, characterFile, inputs, chain).0;
      var opening := ["Importing vivi..."] + m.notice + d.notice + [Intro(FromData(d.value))];
      && |opening| <= |s.console| && s.console[..|opening|] == opening
      && |m.value| <= |s.memory| && s.memory[..|m.value|] == m.value
  {
    if LoadMemory(memoryFile).Success? && LoadCharacter(characterFile).Success? {
      var m := LoadMemory(memoryFile).value;
      var d := LoadCharacter(characterFile).value;
      var c := FromData(d.value);
      var st0 := TextState(m.value, [Intro(c)], []);
      TextRunAppends(c, st0, inputs, 0, chain);
      TextRunStops(c, st0, inputs, 0, chain);
      var run := Loop(TextBody(c, chain), st0, inputs, 0).0;
      var pre := ["Importing vivi..."] + m.notice + d.notice;
      assert run.console[..1] == [Intro(c)];
      assert (pre + run.console)[..|pre| + 1] == pre + run.console[..1];
    }
  }

  /** Runs the program: the loaders, then `run_live_character`. */
  method StartLiveCharacter(memoryFile: FileRead<seq<MemoryEntry>>, characterFile: FileRead<CharacterData>,
                            inputs: seq<TextInput>, chain: Chain)
    returns (final: TextState, outcome: Outcome)
    ensures (final, outcome) == TextProgram(memoryFile, characterFile, inputs, chain)
  {
    var banner := ["Importing vivi..."];
    var loadedMemory := LoadMemory(memoryFile);
    if loadedMemory.Failure? {
      return TextState([], banner, []), Crashed(loadedMemory.error);
    }
    var loadedCharacter := LoadCharacter(characterFile);
    if loadedCharacter.Failure? {
      return TextState(loadedMemory.value.value, banner + loadedMemory.value.notice, []), Crashed(loadedCharacter.error);
    }
    final, outcome := RunLiveCharacter(loadedMemory.value.value, loadedCharacter.value.value, inputs, chain);
    final := final.(console := banner + loadedMemory.value.notice + loadedCharacter.value.notice + final.console);
  }

  /** A run that completes turns leaves in the memory file exactly the log it ends with; a
      run without turns writes nothing. */
  lemma LastWriteIsFinalLog(c: Character, st: TextState, inputs: seq<TextInput>, chain: Chain)
    requires st.writes == []
    ensures var (s, o) := Loop(TextBody(c, chain), st, inputs, 0);
      (|s.memory| > |st.memory| ==> s.writes != [] && s.writes[|s.writes| - 1] == s.memory)
      && (|s.memory| == |st.memory| ==> s.writes == [])
  {
    TextRunAppends(c, st, inputs, 0, chain);
    LastWriteOfGrowth(st, Loop(TextBody(c, chain), st, inputs, 0).0);
  }

  lemma LastWriteOfGrowth(st: TextState, s: TextState)
    requires st.writes == [] && |st.memory| <= |s.memory|
    requires |s.writes| - |st.writes| == |s.memory| - |st.memory|
    requires forall j :: |st.writes| <= j < |s.writes| ==> s.writes[j] == s.memory[..|st.memory| + (j - |st.writes|) + 1]
    ensures |s.memory| > |st.memory| ==> s.writes != [] && s.writes[|s.writes| - 1] == s.memory
    ensures |s.memory| == |st.memory| ==> s.writes == []
  {
    if |s.memory| > |st.memory| {
      assert s.writes[|s.writes| - 1] == s.memory[..|s.memory|];
    }
  }

  /** An exit keyword as the first input leaves the log and the memory file untouched. */
  lemma ImmediateExit(c: Character, memory: seq<MemoryEntry>, inputs: seq<TextInput>, chain: Chain)
    requires inputs != [] && IsExitCommand(Strip(inputs[0].line))
    ensures Loop(TextBody(c, chain), TextState(memory, [Intro(c)], []), inputs, 0) ==
      (TextState(memory, [c.greeting, c.farewell], []), Exited)
  {
    ExitTurn(c, TextState(memory, [Intro(c)], []), 0, inputs[0], chain);
    assert [Intro(c)] + [Outro(c)] == [c.greeting, c.farewell];
  }

  /** A single input `input` that strips to the non-exit text `u`, answered with the
      non-blank reply `r`, prints `name: r`, and records and writes `User: u` / `name: r`. */
  lemma SingleChatRun(c: Character, st: TextState, input: TextInput, chain: Chain, u: string, r: string)
    requires Strip(input.line) == u && !IsExitCommand(u)
    requires chain(0, c, st.memory, u) == Success(r) && !AllSpace(r)
    ensures var memory := st.memory + [MemoryEntry(input.stamp, TurnContent(c.name, u, r))];
      Loop(TextBody(c, chain), st, [input], 0) ==
        (TextState(memory, st.console + [c.name + ": " + r], st.writes + [memory]), InputEnded)
  {
    BlankReplyGivesDefault(c, r);
    ChatTurn(c, st, 0, input, chain);
    var s := TextTurn(c, st, 0, input, chain).state;
    assert Loop(TextBody(c, chain), st, [input], 0) == Loop(TextBody(c, chain), s, [input], 1);
  }

  /** "hello" is neither padded nor an exit keyword, and "Hi there!" is not blank. */
  lemma HelloIsChat()
    ensures Strip("hello") == "hello" && !IsExitCommand("hello") && !AllSpace("Hi there!")
  {
    StripPadded([], "hello", []);
    assert [] + "hello" + [] == "hello";
    assert Lower("hello")[0] == 'h';
    assert !IsSpace("Hi there!"[0]);
  }

  /** How the "hello" turn is printed and recorded. */
  lemma HelloRendering()
    ensures TurnContent("VIVI", "hello", "Hi there!") == "User: hello\nVIVI: Hi there!"
    ensures "VIVI" + ": " + "Hi there!" == "VIVI: Hi there!"
  {
  }

  /** An empty memory file, the character {"name": "VIVI", "greeting": "Hi", "farewell": "Bye",
      "default_response": "Hmm"}, the input "hello", and a model that answers "Hi there!":
      the console shows `VIVI: Hi there!` and the file holds that single turn. */
  lemma HelloScenario(stamp: string, model: Model)
    requires forall k, b :: model(k, b) == Success("Hi there!")
    ensures var data := CharacterData(Some("VIVI"), None, None, Some("Hi"), Some("Bye"), Some("Hmm"), None, None);
      var (s, o) := TextProgram(NotFound, Parsed(data), [TextInput("hello", stamp)], PromptChain(model));
      && "VIVI: Hi there!" in s.console
      && s.memory == [MemoryEntry(stamp, "User: hello\nVIVI: Hi there!")]
      && s.writes == [s.memory]
      && o == InputEnded
  {
    var data := CharacterData(Some("VIVI"), None, None, Some("Hi"), Some("Bye"), Some("Hmm"), None, None);
    var c := FromData(data);
    var chain := PromptChain(model);
    HelloIsChat();
    HelloRendering();
    assert chain(0, c, [], "hello") == Success("Hi there!");
    SingleChatRun(c, TextState([], [Intro(c)], []), TextInput("hello", stamp), chain, "hello", "Hi there!");
  }
}
