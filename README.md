# VIVI chat agent — a Dafny model of its turn logic

VIVI is a small chat agent with a configurable character. A JSON file gives the character's
name, personality traits, greeting and farewell. A second JSON file holds a memory log of
earlier turns. Each turn asks a language model for a reply, using a prompt built from the
character and the five most recent memory entries. The turn is then appended to the log,
and the whole log is written back to disk.

There are two front ends:

- `vivi.py` runs in the console. It reads typed lines, turns a reasoning failure into a
  placeholder reply, and replaces a blank reply with the character's `default_response`.
- `vivi_riva.py` is spoken. It records audio and gets a transcript from a speech recogniser.
  It speaks the reply while a pygame window animates the avatar's mouth.

The project models the shared parts and both loops:

- the character profile (`vivi_character.py`);
- the memory context, the loaders, the placeholder, the exit test and the entry format;
- the typed loop and the program start-up of `vivi.py`;
- transcript selection, the mouth animation and its geometry, and the spoken loop of
  `vivi_riva.py`.

Modules:

- `Wrappers`: `Option` and `Result`.
- `Strings`: Python's `str.strip` (with `str.isspace`'s white-space set), `str.lower`
  for ASCII letters, and `str.join`.
- `CharacterProfile`: `VIVICharacter`. The loaded JSON object is a record with one
  `Option` per key the constructor reads.
- `Conversation`: what both scripts write out the same way. That covers memory entries,
  the `memory[-5:]` context lambda and the prompt chain, the two loaders, the apology
  placeholder, the exit test and the `User: …\n<name>: …` entry format. It also holds a
  generic `Loop` that models `while True` over a finite stream of inputs, and a lemma
  showing that an invariant preserved by one pass holds when the loop ends.
- `TextChat`: `run_live_character` and the `__main__` block of `vivi.py`.
- `VoiceChat`: `transcribe_audio`, `play_audio_with_animation`, `draw_avatar`'s mouth and
  `run_chat` of `vivi_riva.py`.

How external services are modelled:

- The language model is a parameter. It is any total function from the turn's index and the
  filled-in prompt variables to success with text, or failure with the exception's text.
- The recogniser's response for each recording is an input: a list of results, each with
  its alternatives.
- Audio playback is two numbers per recording: the number of animation passes while the
  audio thread is alive, and the pass, if any, whose event poll sees a window-close event.
- A file read is an input: parsed value, not found, malformed, or another exception.
- Each write of the memory file appears in the state's `writes` list as the full log written.
- Printed lines appear in `console`.
- The two chat loops are imperative methods, each proved equal to `Loop` over its pass
  function. The animation loop is an imperative method proved equal to the closed form
  `Animate`.
- The run-level properties are proved once, for any pass function with the right
  one-pass property, and then applied to the real passes.

The two variants differ, and the model keeps both behaviours:

- `vivi_riva.py` has no blank-reply fallback. A blank reply is printed and stored as
  returned.
- In `vivi_riva.py`, closing the window during playback only makes
  `play_audio_with_animation` call `pygame.quit()` and return. The turn is still recorded
  and written, and the loop goes on. The next turn that gets a reply prints it. Its playback
  then raises a pygame error before anything is recorded. The error is "video system not
  initialized" from the event poll, or "display Surface quit" from the final redraw when
  the clip gives the animation loop no pass.

## Model

| member | source | states |
|---|---|---|
| CharacterProfile.FromData | vivi_character.py:2-10 | `VIVICharacter(data)`: each field is the key's value or its default; its properties are the three lemmas below |
| CharacterProfile.AbsentKeysTakeDefaults | vivi_character.py:3-10 | every absent key takes its fixed default: "VIVI", "", [], "Hello! I'm VIVI.", "Bye for now!", "Hmm, interesting question...", [], [] |
| CharacterProfile.PresentKeysStoredUnchanged | vivi_character.py:2-10 | every present key's value is stored in its field unchanged; construction is total |
| CharacterProfile.FromDataRoundTrip | vivi_character.py:2-10 | a configuration listing all eight keys of a character rebuilds exactly that character |
| CharacterProfile.PersonalitySummary | vivi_character.py:12-15 | no traits give ""; a single trait gives exactly its `trait: description` rendering |
| CharacterProfile.SummarySnoc | vivi_character.py:12-15 | adding a trait at the end extends the summary by "; " and that trait's rendering, so the summary keeps list order |
| CharacterProfile.RenderTraitSeparators | vivi_character.py:14 | a trait's rendering contains "; " exactly as often as its name and description together |
| CharacterProfile.SummarySeparatorCount | vivi_character.py:13-15 | when no trait text contains "; ", n >= 1 traits give a summary with exactly n - 1 separators |
| CharacterProfile.Intro | vivi_character.py:17-18 | `intro()` returns the greeting; see IntroOutroOfData |
| CharacterProfile.Outro | vivi_character.py:20-21 | `outro()` returns the farewell; see IntroOutroOfData |
| CharacterProfile.IntroOutroOfData | vivi_character.py:17-21 | intro is the configured greeting or its default; outro is the configured farewell or its default |
| CharacterProfile.RandomReminder | vivi_character.py:23-25 | no reminders give ""; otherwise the result is one of the reminders |
| CharacterProfile.EveryReminderCanBeChosen | vivi_character.py:23-25 | every reminder is the result for some choice of the random generator |
| Strings.Join | vivi_character.py:13 | joining no parts gives ""; joining one part gives that part |
| Strings.JoinSnoc | vivi_character.py:13 | joining one more part appends the separator and that part |
| Strings.SeparatorsAppend | vivi_character.py:13 | counting "; " in a concatenation: the two counts, plus one if the seam itself forms "; " |
| Strings.Strip | vivi.py:95 | `str.strip()`: never longer than its input; what it removes is pinned down by StripShape and StripPadded |
| Strings.Lower | vivi.py:96 | `str.lower()` on ASCII letters, keeping the length; the exit test built on it is checked by the three exit-command lemmas |
| Strings.LeadingSpaceSpec | vivi.py:95 | the leading count covers exactly the longest white-space prefix |
| Strings.TrailingSpaceSpec | vivi.py:95 | the trailing count covers exactly the longest white-space suffix |
| Strings.StripShape | vivi.py:95 | strip gives "" exactly for all-white-space text; otherwise its result neither starts nor ends with white space |
| Strings.StripPadded | vivi.py:95 | stripping white-space padding around a trimmed core gives exactly the core |
| Strings.StripIdempotent | vivi_riva.py:67 | stripping twice gives the same result as stripping once |
| Strings.BlankIffAllSpace | vivi.py:109 | `not s.strip()` holds exactly when every character is white space |
| Conversation.Loop | vivi.py:94-120 | `while True` over the loop body and a finite input stream: it stops when a pass stops, or ends with InputEnded when the inputs are spent; its properties are LoopPreserves, LoopRecordsAt and the run lemmas of each variant |
| Conversation.LoopPreserves | vivi.py:94-120 | a state property that one pass of the loop body preserves holds when the loop ends, however it ends |
| Conversation.LoopOutcome | vivi_riva.py:144-152 | if every pass that leaves the loop does so with an accepted outcome, the loop ends with an accepted outcome or because its inputs are spent |
| Conversation.LoopRecordsAt | vivi_riva.py:176-181 | if every pass appends at most one entry that satisfies a record property, then the run appends one entry per listed input, with strictly increasing indices; the j-th new entry is that input's record on the log just before it |
| Conversation.RecentMemory | vivi.py:84 | `memory[-5:]`: the last min(5, len) entries, in their positions at the end of the log |
| Conversation.MemoryContext | vivi.py:83-85 | an empty memory gives an empty context |
| Conversation.ShortMemoryRenderedWhole | vivi.py:83-85 | a log of at most five entries is rendered whole, oldest first |
| Conversation.RecentMemoryAfterAppend | vivi.py:84 | an append slides the window: the new entry comes last, and the oldest visible entry leaves once five are visible |
| Conversation.MemoryContextAfterAppend | vivi.py:83-85 | for a short, non-empty log, an appended entry adds exactly one `timestamp: content` line at the end of the context |
| Conversation.BuildContext | vivi.py:80-87 | the `RunnableMap` of four lambdas: name, personality summary, memory context and user input; what it passes on is stated by ChainSeesOnlyRecent, OldEntryUnseen and ChainSeesRecentMemory |
| Conversation.PromptChain | vivi.py:79-91 | the chain: the map, the prompt template and the model, applied to the memory as the loop passes it; see ChainSeesOnlyRecent, OldEntryUnseen and ChainSeesRecentMemory |
| Conversation.ChainSeesOnlyRecent | vivi.py:79-91 | two logs with the same five most recent entries get the same answer from the chain |
| Conversation.OldEntryUnseen | vivi.py:83-84 | an entry with at least five newer entries never reaches the model: dropping it leaves the chain's answer unchanged |
| Conversation.ChainSeesRecentMemory | vivi_riva.py:123-137 | for a log of 1 to 4 entries, the context the model sees after an append is the earlier context plus the new entry's line |
| Conversation.Placeholder | vivi.py:107 | the apology text "(Oops, something went wrong: e)"; see PlaceholderNotBlank and FailureGivesPlaceholder |
| Conversation.ReplyText | vivi_riva.py:154-163 | the reply after the `try`/`except`: the chain's text, or the placeholder for its exception; see AnsweredTurn |
| Conversation.PlaceholderNotBlank | vivi.py:106-110 | the apology placeholder is never blank, whatever the cause |
| Conversation.IsExitCommand | vivi.py:96 | `text.lower() in ("exit", "!stop")`; checked by the three lemmas below |
| Conversation.ExitCommandExamples | vivi.py:96 | "exit", "EXIT", "Exit", "!stop" and "!STOP" are exit commands |
| Conversation.NotExitCommandExamples | vivi_riva.py:150 | "exit now" and "stop" are not exit commands |
| Conversation.ExitCommandIgnoresCase | vivi.py:96 | two texts equal up to letter case are both exit commands or neither is |
| Conversation.TurnContent | vivi.py:116 | the entry content "User: {input}\n{name}: {reply}"; see TurnContentInjective |
| Conversation.TurnContentInjective | vivi.py:116 | for user text without a newline, the entry content determines both the user text and the reply |
| Conversation.LoadMemory | vivi.py:43-49 | the parsed log; or [] and "Starting with empty memory." when the file is missing or malformed; otherwise an uncaught failure |
| Conversation.LoadCharacter | vivi.py:51-57 | the parsed configuration; or {} and "Starting with default character." when the file is missing or malformed; otherwise an uncaught failure |
| Conversation.DefaultCharacterOnError | vivi.py:55-57 | a missing or corrupt character file yields the character with every default |
| TextChat.TextReply | vivi.py:100-110 | the reply vivi.py uses is the chain's reply, the placeholder, or `default_response`; it is never blank unless `default_response` is |
| TextChat.FailureGivesPlaceholder | vivi.py:100-110 | a failed reasoning call gives exactly "(Oops, something went wrong: e)"; the blank fallback never replaces it |
| TextChat.BlankReplyGivesDefault | vivi.py:109-110 | an all-white-space reply becomes `default_response`; any other reply is kept unchanged |
| TextChat.TextTurn | vivi.py:95-120 | one pass of the loop body: strip, exit test, reply, print, append and write; its properties are ExitTurn, ChatTurn and TurnShape |
| TextChat.ExitTurn | vivi.py:95-98 | an input that strips to an exit keyword stops with Exited; the farewell is printed once; log and writes are unchanged |
| TextChat.ChatTurn | vivi.py:100-120 | any other input appends exactly one entry in the exact format, from the stripped input and a reply computed on the earlier log; earlier entries are unchanged; the new log is written; the one line printed is `name: reply`, with the same reply as the entry after the fallbacks |
| TextChat.BlankReplyShownAsDefault | vivi.py:109-117 | a blank reply is both printed and recorded as `default_response` |
| TextChat.TurnShape | vivi.py:94-120 | one pass only appends, stops exactly on exit keywords with the farewell last, and records its turn as above |
| TextChat.LoopAppends | vivi.py:94-120 | a run of an append-only loop body keeps earlier state, adds at most one entry per input, and writes once per entry with the log up to and including it |
| TextChat.LoopRecords | vivi.py:114-117 | a fact every appending pass establishes about its entry holds of every entry the run appends, with the log before it and the input it came from |
| TextChat.LoopStops | vivi.py:94-98 | a run of a body that stops exactly on exit inputs passes only non-exit inputs and ends with Exited or by spending the inputs |
| TextChat.LoopExits | vivi.py:94-98 | such a run that ends by Exited stopped on an exit input right after its chat turns, with the farewell last |
| TextChat.TextRunAppends | vivi.py:114-120 | a run of `run_live_character` only appends and writes the file once per turn with the log up to that turn, so the file always holds completed turns |
| TextChat.TextRunRecords | vivi.py:94-117 | entry j of a run is the turn of input k + j, answered on the log as it stood before that entry, in input order |
| TextChat.TextRunStops | vivi.py:94-107 | the n chat turns come from the first n inputs, none of them an exit; the run ends by an exit keyword or by spending the inputs; a reasoning failure never ends it |
| TextChat.TextRunExits | vivi.py:95-98 | a run that exits does so at the input right after its chat turns, which is an exit keyword, and the farewell is printed last |
| TextChat.RunLiveCharacter | vivi.py:59-120 | the imperative loop prints the greeting, then gives exactly the state and outcome of the modelled loop |
| TextChat.TextProgram | vivi.py:124-133 | the `__main__` block as a function: banner, the two loaders, then the loop; see StartUpOrder |
| TextChat.StartUpOrder | vivi.py:124-133 | the console starts with "Importing vivi..."; the program crashes exactly when a loader raises, and then nothing is written; otherwise the console opens with banner, notices and greeting, and the log extends the loaded one |
| TextChat.StartLiveCharacter | vivi.py:124-133 | banner, loaders and run, as the program model says, including a loader exception ending the program |
| TextChat.LastWriteIsFinalLog | vivi.py:114-120 | after a run that completes turns, the last write is the final log; a run without turns writes nothing |
| TextChat.ImmediateExit | vivi.py:94-98 | an exit keyword as the first input prints greeting then farewell and records and writes nothing |
| TextChat.SingleChatRun | vivi.py:94-120 | a single chat input with a non-blank reply prints `name: reply` and records and writes exactly that turn |
| TextChat.HelloScenario | vivi.py:124-133 | with no memory file, a configured VIVI, the input "hello" and a model answering "Hi there!", the console shows `VIVI: Hi there!` and the file holds that single turn |
| VoiceChat.TranscribeAudio | vivi_riva.py:66-68 | the first alternative of the first result, stripped; "" for no results; IndexError for a first result without alternatives; see TranscriptTrimmed |
| VoiceChat.TranscriptTrimmed | vivi_riva.py:57-68 | a transcript is already stripped; it is empty exactly when there are no results or the best alternative is blank |
| VoiceChat.MouthAfterParity | vivi_riva.py:78-86 | the mouth is open after an odd number of toggles |
| VoiceChat.Animate | vivi_riva.py:78-88 | the closed form of the playback: with a close poll before the last pass, the toggles before it; otherwise every toggle and a final closed frame; see AnimationAlternates |
| VoiceChat.AnimationAlternates | vivi_riva.py:78-88 | frames alternate, starting open; a full playback ends with one closed frame, ticks + 1 frames in all; a closed window cuts playback short without it |
| VoiceChat.PlayAudioWithAnimation | vivi_riva.py:70-88 | the imperative toggle loop with its early return on a close event draws exactly the modelled playback |
| VoiceChat.MouthRect | vivi_riva.py:95 | the mouth rectangle (160, 240, 80, 30) open and (160, 250, 80, 10) closed; see MouthGeometry |
| VoiceChat.MouthGeometry | vivi_riva.py:92-97 | open and closed mouths share horizontal extent and vertical centre; the closed mouth lies inside the open one; both lie on the face |
| VoiceChat.VoiceTurn | vivi_riva.py:145-183 | one pass of the loop body: record, transcribe, skip silence, exit test, reply, play, append and write; its properties are the five turn lemmas below and TurnGrows |
| VoiceChat.SilenceSkipped | vivi_riva.py:145-148 | a silent recording only prints "Listening..." and continues: no echo, no exit test, no change to the log |
| VoiceChat.MissingAlternativeCrashes | vivi_riva.py:66-67 | a first result without alternatives ends the program with IndexError (its message text stands for the runtime's) and records nothing |
| VoiceChat.VoiceExitTurn | vivi_riva.py:149-152 | a non-empty spoken exit keyword echoes the transcript, says the farewell and stops without recording |
| VoiceChat.AnsweredTurn | vivi_riva.py:154-183 | with the window open, a spoken turn is recorded and written exactly as heard and answered, with no blank fallback, even if the window is closed during playback |
| VoiceChat.ClosedWindowCrashes | vivi_riva.py:79-84 | once the window is closed, the next answered turn ends the program with a pygame error, without recording the turn |
| VoiceChat.TurnGrows | vivi_riva.py:144-183 | one pass either leaves log and writes alone, or appends one answered entry and writes the log; it never takes back printed lines or frames |
| VoiceChat.VoiceRunGrows | vivi_riva.py:144-183 | a whole run only appends, writes once per entry with the log up to it, and every entry answers some trimmed, non-empty, non-exit transcript on the earlier log (which recording and stamp: VoiceRunRecords) |
| VoiceChat.TurnRecords | vivi_riva.py:145-183 | one pass leaves the log alone or appends the entry of the recording it handled, with its stamp, transcript and reply |
| VoiceChat.TurnStopOutcome | vivi_riva.py:145-183 | a pass that leaves the loop does so by an exit keyword, the IndexError, or a pygame error after the window was closed |
| VoiceChat.VoiceRunStops | vivi_riva.py:144-183 | a run ends by an exit keyword, one of those crashes, or the end of the modelled recordings; never by a reasoning failure |
| VoiceChat.VoiceRunRecords | vivi_riva.py:144-183 | the recorded recordings are listed by strictly increasing index, one per new entry; the j-th new entry has exactly that recording's stamp, transcript and reply, the reply computed on the log before the entry |
| VoiceChat.NothingRecordedAfterClose | vivi_riva.py:174-183 | after the window is closed, nothing more is recorded or written and it stays closed |
| VoiceChat.ChatProgram | vivi_riva.py:101-185 | `run_chat` as a function: loaders, greeting, window with the closed mouth, then the loop; see ChatStartUp |
| VoiceChat.ChatStartUp | vivi_riva.py:101-142 | a loader exception ends the program before the window opens, with nothing drawn or written; otherwise the console opens with notices and greeting, the first frame is the closed mouth, and the log extends the loaded one |
| VoiceChat.RunChat | vivi_riva.py:101-185 | the imperative loop, with its continue, break and crash exits, gives exactly the state and outcome of the program model |

## Left out

- The LangChain chain, the prompt template and the Ollama model are a function parameter,
  not modelled text. `create_prompt` in `vivi.py` is unused and is not modelled.
- Riva authentication, recognition and speech synthesis are not modelled. The recognition
  response is an input, and the reply's audio is reduced to its playback length. An exception
  from `asr.offline_recognize`, from `tts.synthesize` or from `np.frombuffer` is not modelled.
- Recording with `sounddevice`, and the float sizing `int(duration * sample_rate)`, are not
  modelled: each recording is an input.
- The playback thread and `thread.is_alive()` are concurrency. They are replaced by a tick
  count and an optional close tick.
- Pygame drawing, colours, `display.flip`, `clock.tick` and all events other than window
  close are UI. Only the mouth rectangle, the face circle and the frame sequence are kept.
- After an exit, `run_chat` calls `pygame.quit()`. This is not modelled: the program ends
  there.
- JSON parsing and `json.dump(..., indent=4)` are I/O. A read is a `FileRead` input; a write
  is the full log added to `writes`. A write that fails (for instance when the memory
  directory is missing) would raise out of either loop after the reply was printed. This is
  not modelled: every write succeeds.
- vivi.py reads "memory/VIVI-memory.json" relative to the working directory
  (vivi.py:43,127). It writes to the same name under the script's directory (vivi.py:119).
  Started elsewhere, it starts from an empty or different log, and its first write replaces
  the log stored beside the script. The model has one memory file: it is exact only when
  the program is started from its own directory. vivi_riva.py uses the script's directory
  for both.
- `datetime.now().isoformat()` is an opaque timestamp given with each input. The start-up
  time measurement in `vivi.py`'s `__main__` only feeds a commented-out print, and is not
  modelled.
- `random.choice` is a `pick` parameter. Only membership of the result is stated.
- The `input("You: ")` prompt text is not modelled. The input stream is finite: when it
  runs out, the model ends with `InputEnded`, where Python's `input()` would raise `EOFError`.
  `run_chat` has no end of input of its own: it records for as long as it runs. For it,
  `InputEnded` only marks the end of the recordings the model was given.
- Strings.Lower: folds only ASCII letters. Python's `str.lower` also folds other scripts.
  This does not change the exit test, because no non-ASCII character lowers to a single
  letter of "exit" or "!stop".
- The character configuration is a typed record: strings, and lists of traits or strings.
  JSON values of other types (`null`, numbers) are not modelled. Python stores them as
  given and mostly prints them through f-strings.
- Memory entries are typed records. A trait entry without a `trait` or `description` key,
  or a memory entry without `timestamp` or `content`, makes a prompt lambda raise
  `KeyError` inside `chain.invoke`. The `except` turns that into the placeholder on every
  turn, and the loop goes on. `PromptChain` cannot fail this way. The loops themselves
  handle any chain failure, whatever its cause, in the same way. A memory file whose JSON
  is not a list makes the first `memory.append` raise; this is not modelled.
- VoiceChat.MissingAlternativeCrashes: the text "list index out of range" stands for the
  `IndexError` message, which comes from the protobuf runtime and varies with its backend.
- `knowledge_domain` and `description` are stored but never used by the loops, and the
  model stores them the same way.
