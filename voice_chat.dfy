/** The spoken variant, vivi_riva.py: transcription of a recognition response, the mouth
    animation during playback, the avatar's geometry, and `run_chat`. */
module VoiceChat {
  import opened Wrappers
  import opened Strings
  import opened CharacterProfile
  import opened Conversation

  /** One result of an offline recognition response: its alternatives' transcripts, best
      first. */
  datatype RecognitionResult = RecognitionResult(alternatives: seq<string>)

  /** The `IndexError` text for `alternatives[0]` of an empty list. Its exact wording comes
      from the protobuf runtime behind the recognition response and differs between its
      backends; this text stands for it. */
  const IndexErrorMessage := "list index out of range"

  /** `transcribe_audio`: the best transcript of the first result, stripped, or "" when the
      response has no results; a first result without alternatives raises `IndexError`. */
  function TranscribeAudio(results: seq<RecognitionResult>): Result<string, string> {
    if results == [] then Success("")
    else if results[0].alternatives == [] then Failure(IndexErrorMessage)
    else Success(Strip(results[0].alternatives[0]))
  }

  /** A transcript never starts or ends with white space, and it is empty exactly when the
      response has no results or its best transcript is blank. */
  lemma TranscriptTrimmed(results: seq<RecognitionResult>)
    requires TranscribeAudio(results).Success?
    ensures var t := TranscribeAudio(results).value;
      && Strip(t) == t
      && (t == [] <==> results == [] || AllSpace(results[0].alternatives[0]))
  {
    if results != [] {
      StripIdempotent(results[0].alternatives[0]);
      StripShape(results[0].alternatives[0]);
    }
  }

  /** The mouth after `t` passes of the animation loop, starting closed. */
  function MouthAfter(t: nat): bool {
    if t == 0 then false else !MouthAfter(t - 1)
  }

  /** The mouth is open after an odd number of toggles. */
  lemma {:induction false} MouthAfterParity(t: nat)
    ensures MouthAfter(t) == (t % 2 == 1)
  {
    if t > 0 {
      MouthAfterParity(t - 1);
    }
  }

  /** The frames drawn by the first `n` passes: the mouth state after each toggle. */
  function Toggles(n: nat): (frames: seq<bool>)
    ensures |frames| == n
  {
    seq(n, i requires 0 <= i < n => MouthAfter(i + 1))
  }

  /** What `play_audio_with_animation` drew, and whether it shut the display down. */
  datatype Playback = Playback(frames: seq<bool>, closed: bool)

  /** The playback of a clip that keeps the audio thread alive for `ticks` passes of the
      animation loop (one per `clock.tick(6)`), with a window-close event, if any, first seen
      by the event poll of pass `quitAt`: a close during playback stops the sound and quits
      pygame without the final frame; otherwise the last frame shows the mouth closed. */
  function Animate(ticks: nat, quitAt: Option<nat>): Playback {
    if quitAt.Some? && quitAt.value < ticks then Playback(Toggles(quitAt.value), true)
    else Playback(Toggles(ticks) + [false], false)
  }

  /** The animation alternates: the mouth opens on the first frame, consecutive toggled
      frames differ, and a playback that runs to the end shows the mouth closed last. */
  lemma AnimationAlternates(ticks: nat, quitAt: Option<nat>)
    ensures var p := Animate(ticks, quitAt);
      var toggled := if p.closed then |p.frames| else |p.frames| - 1;
      && (forall i :: 0 <= i < toggled ==> p.frames[i] == (i % 2 == 0))
      && (forall i :: 0 <= i < toggled - 1 ==> p.frames[i + 1] != p.frames[i])
      && (!p.closed ==> p.frames[|p.frames| - 1] == false && |p.frames| == ticks + 1)
      && (p.closed ==> |p.frames| < ticks)
  {
    var p := Animate(ticks, quitAt);
    var toggled := if p.closed then |p.frames| else |p.frames| - 1;
    forall i | 0 <= i < toggled
      ensures p.frames[i] == (i % 2 == 0)
    {
      MouthAfterParity(i + 1);
    }
  }

  /** `play_audio_with_animation`: toggles the mouth once per pass while the audio plays,
      polling for a window-close event before each toggle. */
  method PlayAudioWithAnimation(ticks: nat, quitAt: Option<nat>) returns (p: Playback)
    ensures p == Animate(ticks, quitAt)
  {
    var mouthOpen := false;
    var frames: seq<bool> := [];
    var t := 0;
    while t < ticks
      invariant t <= ticks
      invariant quitAt.Some? ==> t <= quitAt.value
      invariant mouthOpen == MouthAfter(t)
      invariant frames == Toggles(t)
    {
      if quitAt == Some(t) {
        return Playback(frames, true);
      }
      mouthOpen := !mouthOpen;
      frames := frames + [mouthOpen];
      t := t + 1;
    }
    return Playback(frames + [false], false);
  }

  /** An axis-aligned rectangle: left, top, width and height, in pixels. */
  datatype Rect = Rect(left: int, top: int, width: nat, height: nat)

  /** The face: a circle of radius 100 centred at (200, 200) on the 400 by 400 window. */
  const FaceCentreX := 200
  const FaceCentreY := 200
  const FaceRadius := 100

  /** The mouth `draw_avatar` draws: 80 by 30 from (160, 240) when open, 80 by 10 from
      (160, 250) when closed. */
  function MouthRect(mouthOpen: bool): Rect {
    Rect(160, if mouthOpen then 240 else 250, 80, if mouthOpen then 30 else 10)
  }

  predicate InsideRect(x: int, y: int, r: Rect) {
    r.left <= x <= r.left + r.width && r.top <= y <= r.top + r.height
  }

  predicate InsideFace(x: int, y: int) {
    (x - FaceCentreX) * (x - FaceCentreX) + (y - FaceCentreY) * (y - FaceCentreY) <= FaceRadius * FaceRadius
  }

  /** Opening the mouth keeps it in place: both shapes share the same horizontal extent and
      vertical centre, the closed mouth lies inside the open one, and every point of either
      lies on the face. */
  lemma MouthGeometry()
    ensures MouthRect(true).left == MouthRect(false).left && MouthRect(true).width == MouthRect(false).width
    ensures 2 * MouthRect(true).top + MouthRect(true).height == 2 * MouthRect(false).top + MouthRect(false).height
    ensures forall x, y :: InsideRect(x, y, MouthRect(false)) ==> InsideRect(x, y, MouthRect(true))
    ensures forall x, y :: InsideRect(x, y, MouthRect(true)) ==> InsideFace(x, y)
  {
    forall x, y | InsideRect(x, y, MouthRect(true))
      ensures InsideFace(x, y)
    {
      assert (x - 200) * (x - 200) <= 1600 by {
        assert -40 <= x - 200 <= 40;
        SquareBound(x - 200, 40);
      }
      assert (y - 200) * (y - 200) <= 4900 by {
        assert 40 <= y - 200 <= 70;
        SquareBound(y - 200, 70);
      }
    }
  }

  lemma SquareBound(d: int, m: int)
    requires 0 <= m && -m <= d <= m
    ensures d * d <= m * m
  {
    var a := if d < 0 then -d else d;
    assert d * d == a * a;
    assert a * a <= a * m by {
      MulMonotone(a, a, m);
    }
    assert a * m <= m * m by {
      MulMonotone(m, a, m);
    }
  }

  lemma MulMonotone(x: int, a: int, b: int)
    requires 0 <= x && a <= b
    ensures x * a <= x * b
  {
    assert x * b - x * a == x * (b - a);
  }

  /** One recording: what recognition returned for it, how the reply's playback goes, and
      the timestamp `datetime.now()` gives if the turn is recorded. */
  datatype VoiceInput = VoiceInput(results: seq<RecognitionResult>, ticks: nat, quitAt: Option<nat>, stamp: string)

  /** The loop's state: the in-memory log, the lines printed, every full log written to the
      memory file, whether the pygame display is still up, and every mouth frame drawn. */
  datatype VoiceState = VoiceState(memory: seq<MemoryEntry>, console: seq<string>, writes: seq<seq<MemoryEntry>>,
                                   windowOpen: bool, frames: seq<bool>)

  /** pygame's errors once `pygame.quit()` has run: the event poll of the next playback
      raises the first; with no pass of the animation loop the final `screen.fill` raises
      the second. */
  const VideoSystemError := "video system not initialized"
  const SurfaceQuitError := "display Surface quit"

  function ClosedWindowError(ticks: nat): string {
    if ticks == 0 then SurfaceQuitError else VideoSystemError
  }

  /** One pass of the `while True` body of `run_chat`. */
  function VoiceTurn(c: Character, st: VoiceState, k: nat, input: VoiceInput, chain: Chain): Step<VoiceState> {
    var listening := st.console + ["Listening..."];
    match TranscribeAudio(input.results)
    case Failure(e) => Stop(st.(console := listening), Crashed(e))
    case Success(userInput) =>
      if userInput == [] then Continue(st.(console := listening))
      else
        var heard := listening + ["You: " + userInput];
        if IsExitCommand(userInput) then Stop(st.(console := heard + [Outro(c)]), Exited)
        else
          var reply := ReplyText(chain(k, c, st.memory, userInput));
          var console := heard + [c.name + ": " + reply];
          if !st.windowOpen then Stop(st.(console := console), Crashed(ClosedWindowError(input.ticks)))
          else
            var p := Animate(input.ticks, input.quitAt);
            var memory := st.memory + [MemoryEntry(input.stamp, TurnContent(c.name, userInput, reply))];
            Continue(VoiceState(memory, console, st.writes + [memory], !p.closed, st.frames + p.frames))
  }

  /** The loop of `run_chat` from recording `k` on is `Loop(VoiceBody(c, chain), st, inputs,
      k)`. */
  function VoiceBody(c: Character, chain: Chain): (body: (VoiceState, nat, VoiceInput) -> Step<VoiceState>)
    ensures forall st, k, input :: body(st, k, input) == VoiceTurn(c, st, k, input, chain)
  {
    (st: VoiceState, k: nat, input: VoiceInput) => VoiceTurn(c, st, k, input, chain)
  }

  /** `e` is an entry a turn records on the log `before`: a non-empty, non-exit transcript,
      with no surrounding white space, and the reply to it as returned, or the placeholder,
      with no blank-reply fallback. */
  ghost predicate Answered(c: Character, chain: Chain, before: seq<MemoryEntry>, e: MemoryEntry) {
    exists k: nat, u: string :: u != [] && Strip(u) == u && !IsExitCommand(u) &&
      e.content == TurnContent(c.name, u, ReplyText(chain(k, c, before, u)))
  }

  /** A silent recording (nothing recognised, or only white space) only prints
      "Listening..." and goes on to the next recording. */
  lemma SilenceSkipped(c: Character, st: VoiceState, k: nat, input: VoiceInput, chain: Chain)
    requires input.results == [] || (input.results[0].alternatives != [] && AllSpace(input.results[0].alternatives[0]))
    ensures VoiceTurn(c, st, k, input, chain) == Continue(st.(console := st.console + ["Listening..."]))
  {
    TranscriptTrimmed(input.results);
  }

  /** A first result without alternatives ends the program with `IndexError`, recording
      nothing. */
  lemma MissingAlternativeCrashes(c: Character, st: VoiceState, k: nat, input: VoiceInput, chain: Chain)
    requires input.results != [] && input.results[0].alternatives == []
    ensures VoiceTurn(c, st, k, input, chain) ==
      Stop(st.(console := st.console + ["Listening..."]), Crashed("list index out of range"))
  {
  }

  /** A spoken exit keyword echoes the transcript, says the farewell and leaves the loop
      without a reasoning call and without recording anything. */
  lemma VoiceExitTurn(c: Character, st: VoiceState, k: nat, input: VoiceInput, chain: Chain)
    requires TranscribeAudio(input.results).Success?
    requires var t := TranscribeAudio(input.results).value; t != [] && IsExitCommand(t)
    ensures var t := TranscribeAudio(input.results).value;
      VoiceTurn(c, st, k, input, chain) ==
        Stop(st.(console := st.console + ["Listening...", "You: " + t, c.farewell]), Exited)
  {
    var t := TranscribeAudio(input.results).value;
    assert st.console + ["Listening..."] + ["You: " + t] + [Outro(c)] == st.console + ["Listening...", "You: " + t, c.farewell];
  }

  /** A spoken turn with the window up is recorded exactly as heard and answered, even when
      the reply is blank (vivi_riva.py has no fallback to `default_response`) and even when
      the user closes the window during playback (the loop goes on with the display shut). */
  lemma AnsweredTurn(c: Character, st: VoiceState, k: nat, input: VoiceInput, chain: Chain)
    requires st.windowOpen && TranscribeAudio(input.results).Success?
    requires var t := TranscribeAudio(input.results).value; t != [] && !IsExitCommand(t)
    ensures var t := TranscribeAudio(input.results).value;
      var reply := ReplyText(chain(k, c, st.memory, t));
      var p := Animate(input.ticks, input.quitAt);
      VoiceTurn(c, st, k, input, chain).Continue? &&
      var s := VoiceTurn(c, st, k, input, chain).state;
      && s.memory == st.memory + [MemoryEntry(input.stamp, TurnContent(c.name, t, reply))]
      && s.writes == st.writes + [s.memory]
      && s.console == st.console + ["Listening...", "You: " + t, c.name + ": " + reply]
      && s.windowOpen == !(input.quitAt.Some? && input.quitAt.value < input.ticks)
      && s.frames == st.frames + p.frames
  {
    var t := TranscribeAudio(input.results).value;
    var reply := ReplyText(chain(k, c, st.memory, t));
    assert st.console + ["Listening..."] + ["You: " + t] + [c.name + ": " + reply] ==
      st.console + ["Listening...", "You: " + t, c.name + ": " + reply];
  }

  /** Once the window has been closed, the next turn that gets a reply prints it and then
      ends the program with a pygame error, before recording it. */
  lemma ClosedWindowCrashes(c: Character, st: VoiceState, k: nat, input: VoiceInput, chain: Chain)
    requires !st.windowOpen && TranscribeAudio(input.results).Success?
    requires var t := TranscribeAudio(input.results).value; t != [] && !IsExitCommand(t)
    ensures var step := VoiceTurn(c, st, k, input, chain);
      && step.Stop? && step.outcome.Crashed?
      && step.outcome.cause in {"video system not initialized", "display Surface quit"}
      && step.state.memory == st.memory && step.state.writes == st.writes
  {
  }

  /** `s` extends `st`: every earlier entry, write, console line and frame is kept. */
  predicate Extends(st: VoiceState, s: VoiceState) {
    && |st.memory| <= |s.memory| && s.memory[..|st.memory|] == st.memory
    && |st.writes| <= |s.writes| && s.writes[..|st.writes|] == st.writes
    && |st.console| <= |s.console| && s.console[..|st.console|] == st.console
    && |st.frames| <= |s.frames| && s.frames[..|st.frames|] == st.frames
  }

  /** What a run from `st0` keeps true of the state `s` it reaches: earlier output is kept,
      each appended entry was written once with the log up to it, and each appended entry
      answers a turn on the log as it stood before it. */
  ghost predicate GrownFrom(c: Character, chain: Chain, st0: VoiceState, s: VoiceState) {
    Extends(st0, s) && WritesTrack(st0, s) && AnswersTrack(c, chain, st0, s)
  }

  /** Write j after `st0` holds the log up to and including the j-th entry appended since. */
  predicate WritesTrack(st0: VoiceState, s: VoiceState)
    requires |st0.memory| <= |s.memory|
  {
    && |s.writes| - |st0.writes| == |s.memory| - |st0.memory|
    && (forall j :: |st0.writes| <= j < |s.writes| ==> s.writes[j] == s.memory[..|st0.memory| + (j - |st0.writes|) + 1])
  }

  /** Every entry appended since `st0` answers a turn on the log before it. */
  ghost predicate AnswersTrack(c: Character, chain: Chain, st0: VoiceState, s: VoiceState) {
    forall j :: |st0.memory| <= j < |s.memory| ==> Answered(c, chain, s.memory[..j], s.memory[j])
  }

  lemma ExtendsTrans(a: VoiceState, b: VoiceState, c: VoiceState)
    requires Extends(a, b) && Extends(b, c)
    ensures Extends(a, c)
  {
    assert c.memory[..|a.memory|] == c.memory[..|b.memory|][..|a.memory|];
    assert c.writes[..|a.writes|] == c.writes[..|b.writes|][..|a.writes|];
    assert c.console[..|a.console|] == c.console[..|b.console|][..|a.console|];
    assert c.frames[..|a.frames|] == c.frames[..|b.frames|][..|a.frames|];
  }

  /** A pass from `st` to `s` either leaves the log and the writes as they were, or appends
      one answered entry and writes the new log; either way it keeps earlier output. */
  ghost predicate PassGrows(c: Character, chain: Chain, st: VoiceState, s: VoiceState) {
    && Extends(st, s)
    && ((s.memory == st.memory && s.writes == st.writes) ||
        (|s.memory| == |st.memory| + 1 && s.writes == st.writes + [s.memory]
         && Answered(c, chain, st.memory, s.memory[|st.memory|])))
  }

  /** One pass either changes neither the log nor the writes, or appends one answered entry
      and writes the new log; it never takes back printed lines or drawn frames. */
  lemma TurnGrows(c: Character, chain: Chain, st: VoiceState, k: nat, input: VoiceInput)
    ensures PassGrows(c, chain, st, VoiceTurn(c, st, k, input, chain).state)
  {
    var s := VoiceTurn(c, st, k, input, chain).state;
    var r := TranscribeAudio(input.results);
    if r.Success? && r.value != [] && !IsExitCommand(r.value) && st.windowOpen {
      var t := r.value;
      TranscriptTrimmed(input.results);
      assert s.memory[..|st.memory|] == st.memory;
      assert s.writes[..|st.writes|] == st.writes;
      assert s.frames[..|st.frames|] == st.frames;
      assert Answered(c, chain, st.memory, s.memory[|st.memory|]) by {
        assert t != [] && Strip(t) == t && !IsExitCommand(t) &&
          s.memory[|st.memory|].content == TurnContent(c.name, t, ReplyText(chain(k, c, st.memory, t)));
      }
    }
    assert s.console[..|st.console|] == st.console;
  }

  /** `GrownFrom(st0, _)` survives one more pass. */
  lemma GrownFromStep(c: Character, chain: Chain, st0: VoiceState, s: VoiceState, t: VoiceState)
    requires GrownFrom(c, chain, st0, s) && PassGrows(c, chain, s, t)
    ensures GrownFrom(c, chain, st0, t)
  {
    ExtendsTrans(st0, s, t);
    if t.memory != s.memory {
      WritesTrackStep(st0, s, t);
      AnswersTrackStep(c, chain, st0, s, t);
    }
  }

  lemma WritesTrackStep(st0: VoiceState, s: VoiceState, t: VoiceState)
    requires Extends(st0, s) && Extends(s, t) && WritesTrack(st0, s)
    requires |t.memory| == |s.memory| + 1 && t.writes == s.writes + [t.memory]
    ensures WritesTrack(st0, t)
  {
    var base := |st0.memory|;
    forall j | |st0.writes| <= j < |t.writes|
      ensures t.writes[j] == t.memory[..base + (j - |st0.writes|) + 1]
    {
      if j < |s.writes| {
        assert t.writes[j] == s.writes[j];
        assert s.memory[..base + (j - |st0.writes|) + 1] == t.memory[..base + (j - |st0.writes|) + 1];
      } else {
        assert t.memory[..base + (j - |st0.writes|) + 1] == t.memory;
      }
    }
  }

  lemma AnswersTrackStep(c: Character, chain: Chain, st0: VoiceState, s: VoiceState, t: VoiceState)
    requires |st0.memory| <= |s.memory| && AnswersTrack(c, chain, st0, s)
    requires |t.memory| == |s.memory| + 1 && t.memory[..|s.memory|] == s.memory
    requires Answered(c, chain, s.memory, t.memory[|s.memory|])
    ensures AnswersTrack(c, chain, st0, t)
  {
    forall j | |st0.memory| <= j < |t.memory|
      ensures Answered(c, chain, t.memory[..j], t.memory[j])
    {
      if j < |s.memory| {
        assert t.memory[..j] == s.memory[..j];
        assert t.memory[j] == s.memory[j];
      } else {
        assert t.memory[..j] == s.memory;
      }
    }
  }

  /** A whole run of `run_chat` only appends: earlier entries, writes, printed lines and
      frames stay as they were; the memory file is written once per appended entry, each
      time with the log up to and including it; and every appended entry answers a spoken
      turn on the log as it stood just before it. */
  lemma VoiceRunGrows(c: Character, st: VoiceState, inputs: seq<VoiceInput>, k: nat, chain: Chain)
    requires k <= |inputs|
    ensures GrownFrom(c, chain, st, Loop(VoiceBody(c, chain), st, inputs, k).0)
  {
    var body := VoiceBody(c, chain);
    var inv := (s: VoiceState) => GrownFrom(c, chain, st, s);
    forall s, j, input | inv(s)
      ensures inv(body(s, j, input).state)
    {
      TurnGrows(c, chain, s, j, input);
      GrownFromStep(c, chain, st, s, body(s, j, input).state);
    }
    assert inv(st) by {
      assert st.memory[..|st.memory|] == st.memory;
      assert st.writes[..|st.writes|] == st.writes;
      assert st.console[..|st.console|] == st.console;
      assert st.frames[..|st.frames|] == st.frames;
    }
    LoopPreserves(body, inv, st, inputs, k);
  }

  /** After the window has been closed nothing more is ever recorded or written, and the
      window stays closed, whatever is said afterwards. */
  lemma NothingRecordedAfterClose(c: Character, st: VoiceState, inputs: seq<VoiceInput>, k: nat, chain: Chain)
    requires k <= |inputs| && !st.windowOpen
    ensures var s := Loop(VoiceBody(c, chain), st, inputs, k).0;
      s.memory == st.memory && s.writes == st.writes && !s.windowOpen
  {
    var body := VoiceBody(c, chain);
    var inv := (s: VoiceState) => s.memory == st.memory && s.writes == st.writes && !s.windowOpen;
    forall s, j, input | inv(s)
      ensures inv(body(s, j, input).state)
    {
    }
    LoopPreserves(body, inv, st, inputs, k);
  }

  function VoiceMemory(s: VoiceState): seq<MemoryEntry> {
    s.memory
  }

  /** `e` is the entry that recording `input`, the `k`-th, is recorded as on the log
      `before`: its transcript is non-empty and not an exit keyword, and `e` carries the
      recording's timestamp, that transcript and the reply to it computed on `before`. */
  predicate HeardAndAnswered(c: Character, chain: Chain, before: seq<MemoryEntry>, k: nat, input: VoiceInput, e: MemoryEntry) {
    var r := TranscribeAudio(input.results);
    && r.Success? && r.value != [] && !IsExitCommand(r.value)
    && e == MemoryEntry(input.stamp, TurnContent(c.name, r.value, ReplyText(chain(k, c, before, r.value))))
  }

  /** One pass leaves the log alone or appends the entry of the recording it handled. */
  lemma TurnRecords(c: Character, chain: Chain, st: VoiceState, k: nat, input: VoiceInput)
    ensures var s := VoiceTurn(c, st, k, input, chain).state;
      || s.memory == st.memory
      || (&& |s.memory| == |st.memory| + 1 && s.memory[..|st.memory|] == st.memory
          && HeardAndAnswered(c, chain, st.memory, k, input, s.memory[|st.memory|]))
  {
    var s := VoiceTurn(c, st, k, input, chain).state;
    if s.memory != st.memory {
      assert s.memory[..|st.memory|] == st.memory;
    }
  }

  /** Which recordings a run of `run_chat` records, and how: `Appended` lists the indices of
      the recorded inputs, strictly increasing, one per new entry, and the j-th new entry
      is exactly that recording's timestamp, transcript and reply, the reply computed on the
      log as it stood just before the entry. */
  lemma VoiceRunRecords(c: Character, st: VoiceState, inputs: seq<VoiceInput>, k: nat, chain: Chain)
    requires k <= |inputs|
    ensures var s := Loop(VoiceBody(c, chain), st, inputs, k).0;
      var idx := Appended(VoiceBody(c, chain), VoiceMemory, st, inputs, k);
      && |s.memory| == |st.memory| + |idx| && s.memory[..|st.memory|] == st.memory
      && (forall j :: 0 <= j < |idx| ==>
            && k <= idx[j] < |inputs|
            && HeardAndAnswered(c, chain, s.memory[..|st.memory| + j], idx[j], inputs[idx[j]], s.memory[|st.memory| + j]))
      && (forall i, j :: 0 <= i < j < |idx| ==> idx[i] < idx[j])
  {
    var s := Loop(VoiceBody(c, chain), st, inputs, k).0;
    var idx := Appended(VoiceBody(c, chain), VoiceMemory, st, inputs, k);
    var record := VoiceRecord(c, chain);
    EveryTurnRecords(c, chain);
    LoopRecordsAt(VoiceBody(c, chain), VoiceMemory, record, st, inputs, k);
    assert RecordsFrom(record, st.memory, s.memory, idx, inputs, k);
    forall j | 0 <= j < |idx|
      ensures HeardAndAnswered(c, chain, s.memory[..|st.memory| + j], idx[j], inputs[idx[j]], s.memory[|st.memory| + j])
    {
      assert record(s.memory[..|st.memory| + j], idx[j], inputs[idx[j]], s.memory[|st.memory| + j]);
    }
  }

  /** `HeardAndAnswered` for a fixed character and chain, as a value `LoopRecordsAt` takes. */
  function VoiceRecord(c: Character, chain: Chain): (seq<MemoryEntry>, nat, VoiceInput, MemoryEntry) -> bool {
    (before: seq<MemoryEntry>, j: nat, x: VoiceInput, e: MemoryEntry) => HeardAndAnswered(c, chain, before, j, x, e)
  }

  /** Every pass of `run_chat`, from any state, on any recording, leaves the log alone or
      appends the entry of that recording. */
  lemma EveryTurnRecords(c: Character, chain: Chain)
    ensures forall s, j, x :: PassRecorded(VoiceMemory(s), VoiceMemory(VoiceBody(c, chain)(s, j, x).state), j, x, VoiceRecord(c, chain))
  {
    forall s, j, x
      ensures PassRecorded(VoiceMemory(s), VoiceMemory(VoiceBody(c, chain)(s, j, x).state), j, x, VoiceRecord(c, chain))
    {
      TurnRecords(c, chain, s, j, x);
    }
  }

  /** How a pass of `run_chat` may leave the loop: by an exit keyword, by the `IndexError` of
      a first result without alternatives, or by the pygame error of a playback after the
      window was closed; a reasoning failure is never among them. */
  predicate VoiceStopOutcome(o: Outcome) {
    || o == Exited
    || o == Crashed(IndexErrorMessage)
    || o == Crashed(VideoSystemError)
    || o == Crashed(SurfaceQuitError)
  }

  lemma TurnStopOutcome(c: Character, chain: Chain, st: VoiceState, k: nat, input: VoiceInput)
    ensures VoiceTurn(c, st, k, input, chain).Stop? ==> VoiceStopOutcome(VoiceTurn(c, st, k, input, chain).outcome)
  {
  }

  /** A run of `run_chat` ends by an exit keyword, by one of the crashes above, or
      because the modelled recordings are spent; never by a reasoning failure. */
  lemma VoiceRunStops(c: Character, st: VoiceState, inputs: seq<VoiceInput>, k: nat, chain: Chain)
    requires k <= |inputs|
    ensures var o := Loop(VoiceBody(c, chain), st, inputs, k).1;
      o == InputEnded || VoiceStopOutcome(o)
  {
    var body := VoiceBody(c, chain);
    forall s, j, x | body(s, j, x).Stop?
      ensures VoiceStopOutcome(body(s, j, x).outcome)
    {
      TurnStopOutcome(c, chain, s, j, x);
    }
    LoopOutcome(body, VoiceStopOutcome, st, inputs, k);
  }

  /** `run_chat`: load the memory and the character, introduce the character, open the
      400 by 400 window and draw the closed mouth, then loop. An exception a loader does
      not catch ends the program before the window opens. */
  function ChatProgram(memoryFile: FileRead<seq<MemoryEntry>>, characterFile: FileRead<CharacterData>,
                       inputs: seq<VoiceInput>, chain: Chain): (VoiceState, Outcome)
  {
    match LoadMemory(memoryFile)
    case Failure(e) => (VoiceState([], [], [], false, []), Crashed(e))
    case Success(m) =>
      match LoadCharacter(characterFile)
      case Failure(e) => (VoiceState(m.value, m.notice, [], false, []), Crashed(e))
      case Success(d) =>
        var c := FromData(d.value);
        Loop(VoiceBody(c, chain), VoiceState(m.value, m.notice + d.notice + [Intro(c)], [], true, [false]), inputs, 0)
  }

  /** The start-up order of `run_chat`: an exception from a loader ends the program before
      the window opens and before anything is drawn or written; otherwise the console opens
      with the loaders' notices and the greeting, the first frame drawn is the closed mouth,
      and the log grows from the loaded one. */
  lemma ChatStartUp(memoryFile: FileRead<seq<MemoryEntry>>, characterFile: FileRead<CharacterData>,
                    inputs: seq<VoiceInput>, chain: Chain)
    ensures var (s, o) := ChatProgram(memoryFile, characterFile, inputs, chain);
      (LoadMemory(memoryFile).Failure? || LoadCharacter(characterFile).Failure?) ==>
        o.Crashed? && s.writes == [] && s.frames == [] && !s.windowOpen
    ensures LoadMemory(memoryFile).Success? && LoadCharacter(characterFile).Success? ==>
      var m := LoadMemory(memoryFile).value;
      var d := LoadCharacter(characterFile).value;
      var s := ChatProgram(memoryFile, characterFile, inputs, chain).0;
      var opening := m.notice + d.notice + [Intro(FromData(d.value))];
      && |opening| <= |s.console| && s.console[..|opening|] == opening
      && s.frames != [] && s.frames[0] == false
      && |m.value| <= |s.memory| && s.memory[..|m.value|] == m.value
  {
    if LoadMemory(memoryFile).Success? && LoadCharacter(characterFile).Success? {
      var m := LoadMemory(memoryFile).value;
      var d := LoadCharacter(characterFile).value;
      var c := FromData(d.value);
      var st0 := VoiceState(m.value, m.notice + d.notice + [Intro(c)], [], true, [false]);
      RunExtends(c, st0, inputs, chain);
    }
  }

  /** A run keeps the opening lines, the first frame and the loaded log. */
  lemma RunExtends(c: Character, st0: VoiceState, inputs: seq<VoiceInput>, chain: Chain)
    requires st0.frames == [false]
    ensures var s := Loop(VoiceBody(c, chain), st0, inputs, 0).0;
      && |st0.console| <= |s.console| && s.console[..|st0.console|] == st0.console
      && s.frames != [] && s.frames[0] == false
      && |st0.memory| <= |s.memory| && s.memory[..|st0.memory|] == st0.memory
  {
    VoiceRunGrows(c, st0, inputs, 0, chain);
    var s := Loop(VoiceBody(c, chain), st0, inputs, 0).0;
    assert s.frames[..1] == [false];
  }

  /** Runs `run_chat`: the loaders, the window, then one recording per iteration. */
  method RunChat(memoryFile: FileRead<seq<MemoryEntry>>, characterFile: FileRead<CharacterData>,
                 inputs: seq<VoiceInput>, chain: Chain)
    returns (final: VoiceState, outcome: Outcome)
    ensures (final, outcome) == ChatProgram(memoryFile, characterFile, inputs, chain)
  {
    var loadedMemory := LoadMemory(memoryFile);
    if loadedMemory.Failure? {
      return VoiceState([], [], [], false, []), Crashed(loadedMemory.error);
    }
    var loadedCharacter := LoadCharacter(characterFile);
    if loadedCharacter.Failure? {
      return VoiceState(loadedMemory.value.value, loadedMemory.value.notice, [], false, []), Crashed(loadedCharacter.error);
    }
    var character := FromData(loadedCharacter.value.value);
    var memory := loadedMemory.value.value;
    var console := loadedMemory.value.notice + loadedCharacter.value.notice + [Intro(character)];
    var writes: seq<seq<MemoryEntry>> := [];
    var windowOpen := true;
    var frames := [false];
    ghost var start := VoiceState(memory, console, writes, windowOpen, frames);
    var k := 0;
    while k < |inputs|
      invariant k <= |inputs|
      invariant Loop(VoiceBody(character, chain), start, inputs, 0) ==
        Loop(VoiceBody(character, chain), VoiceState(memory, console, writes, windowOpen, frames), inputs, k)
    {
      var input := inputs[k];
      console := console + ["Listening..."];
      var transcript := TranscribeAudio(input.results);
      if transcript.Failure? {
        return VoiceState(memory, console, writes, windowOpen, frames), Crashed(transcript.error);
      }
      var userInput := transcript.value;
      if userInput == [] {
        k := k + 1;
        continue;
      }
      console := console + ["You: " + userInput];
      if IsExitCommand(userInput) {
        console := console + [Outro(character)];
        return VoiceState(memory, console, writes, windowOpen, frames), Exited;
      }
      var response: string;
      match chain(k, character, memory, userInput) {
        case Success(s) => response := s;
        case Failure(e) => response := Placeholder(e);
      }
      console := console + [character.name + ": " + response];
      if !windowOpen {
        return VoiceState(memory, console, writes, windowOpen, frames), Crashed(ClosedWindowError(input.ticks));
      }
      var playback := PlayAudioWithAnimation(input.ticks, input.quitAt);
      frames := frames + playback.frames;
      windowOpen := !playback.closed;
      memory := memory + [MemoryEntry(input.stamp, TurnContent(character.name, userInput, response))];
      writes := writes + [memory];
      k := k + 1;
    }
    return VoiceState(memory, console, writes, windowOpen, frames), InputEnded;
  }
}
