# Sensor bridge and session launcher, modelled in Dafny

This project models three scripts of a hobby sensor-logging setup:

- **The telemetry bridge** (`temp_to_thing_speak.py`) polls a sensor board over a serial line.
  - It identifies the board from a banner the board prints, and picks its configuration by that identity.
  - It splits each reply on `"\r\n"` and echoes every non-empty line.
  - It treats a line starting with `{` as a record. Each record is appended to a log file named `<root>.<date>.log`, one file per day.
  - Each record is also forwarded to a numbered-channel metrics service as channels 1 to 8 plus a status text.
- **The session controller** (`talkToScreen.py`) works on detached `screen` sessions through a `TalkToScreen` object.
  - It tests whether a named session runs by searching `screen -ls` for `<digits>.<name>`.
  - It starts a session only when none of that name runs.
  - It types a command, ending in a newline added only when missing, only into a running session.
  - Its `main` checks the flag rules, then starts, runs every `-r` command in order, and exits.
- **The launcher** (`startPICommunications.py`) takes a serial port and a session name.
  - It stops if the session already runs.
  - Otherwise it starts the session and types in a 7-line shell loop that runs the bridge, sleeps 300 seconds, and repeats.
  - With `-n` it only prints that script.

Everything outside the process is an input or an output value:

- What `screen -ls` prints at each check is an input string.
- The argument vectors handed to `call`, `check_call` and `check_output` are returned in order.
- The device's replies, the date stamp, the time of day and the literal parser (`ast.literal_eval`) are parameters.
- The bridge's log-file effects (open, write, close), its echo of each non-empty piece (`print line`) and each payload sent to the metrics service are appended to a ghost trace. Its other console messages are not traced (see "## Left out").

Modules:

- `Wrappers` holds `Option` and `Result`.
- `PyStr` holds the Python string built-ins the scripts rely on: `split('\r\n')`, `strip()`, `splitlines()`, `split()`, `in`, `cmd[-1:]` and `"%s" % n`.
- `Telemetry` holds the bridge's pure rules and the laws of its log trace.
- `TelemetryLoop` holds the identification loop, the configuration lookup and the polling loop as the class `Bridge`.
- `ScreenControl` holds the session controller.
- `Launcher` holds the launcher.

Some behaviours of the code that the model keeps as they are:

- **Parse failures.** A record line that fails to parse is not skipped: the previous record is logged and forwarded again (temp_to_thing_speak.py:223-233). If no record has ever parsed, `outputDict` is unbound and the loop dies at line 231.
- **When the date is checked.** The date is checked, and the log rolled over, before the record is parsed (lines 216-224). So even a record line that fails to parse opens the day's file.
- **Blank pieces.** A piece of a reply holding only whitespace passes `if line:`, strips to the empty string and is echoed; then `line[0]` raises IndexError outside every `try`, and the loop dies (lines 211-214).
- **Identity source.** The board is identified only by the banner it prints.
- **Session names.** `startScreen` formats the start command into one string and splits it on whitespace, so a name holding a space becomes several arguments (talkToScreen.py:51-54).

Nothing here executes the scripts. `talkToScreen.py` uses Python 3 `print(..., file=...)` while `startPICommunications.py`, which imports it, is Python 2, so under one interpreter the import cannot succeed. The model gives each file its own semantics; "## Left out" records the mismatch.

## Model

| member | source | states |
|---|---|---|
| Telemetry.ModeMapIsPositional | temp_to_thing_speak.py:14 | 'O','B','E','N','P','M','D' map to 0..6 in that order, the map has no other keys, and no two letters share a code |
| Telemetry.ModeOf | temp_to_thing_speak.py:242 | `modeMap[m]` succeeds exactly for a one-letter string among the seven mode letters, and the code is that letter's position |
| Telemetry.Index0 | temp_to_thing_speak.py:236-239 | `v[0]` succeeds exactly on a non-empty list or string and gives its first element or character |
| Telemetry.MakeOutputFileName | temp_to_thing_speak.py:81-88 | the name is the root, '.', the current date stamp, then ".log"; the `dateStamp` argument has no influence |
| Telemetry.LogFileNameInjective | temp_to_thing_speak.py:87-88 | under one root, two days with the same log file name are the same day |
| Telemetry.ClassifyLineAsWritten | temp_to_thing_speak.py:211-214 | as written: an empty piece is skipped; a non-empty all-whitespace piece raises IndexError at `line[0]`; any other is echoed as the stripped piece, which is non-empty |
| Telemetry.RecordLineAsWritten | temp_to_thing_speak.py:211-214 | as written, a piece is handled as a record exactly when its first non-whitespace character is '{' |
| Telemetry.ClassifyLine | temp_to_thing_speak.py:209-214 | a line is skipped exactly when it is all whitespace; it is a record exactly when its first non-whitespace character is '{'; echoed text is the stripped line; it never crashes |
| Telemetry.ClassifyAgreesExceptBlank | temp_to_thing_speak.py:211-214 | the code as written and the corrected selection agree on every line except a non-empty all-whitespace one, where the code as written raises IndexError |
| Telemetry.BlankLineCrashes | temp_to_thing_speak.py:211-214 | the line " " makes the code as written raise IndexError, while the corrected selection skips it |
| Telemetry.Channels | temp_to_thing_speak.py:236-243 | the channel map has exactly the keys 1..8, holding the eight values in order |
| Telemetry.BuildPayload | temp_to_thing_speak.py:234-244 | the payload exists exactly when every lookup succeeds, and then it `Carries` the record: channels 1-4 are the first elements of the four configured fields, 5 is v, 6 is p, 7 is the mode code of m, 8 is lN; status is the time, a space and the line |
| Telemetry.PayloadExample | temp_to_thing_speak.py:235-244 | the record {a:[1], b:[2], c:[3], d:[4], v:1, p:1, m:'O', lN:1} with keys a-d gives channels 1,2,3,4,1,1,0,1 |
| Telemetry.PayloadNeedsKnownMode | temp_to_thing_speak.py:240-244 | a missing v, p, lN or m, or an unknown mode letter, means no payload and hence no update |
| Telemetry.MatchBanner | temp_to_thing_speak.py:122-125 | a line yields a key exactly when some banner occurs in it, and the key belongs to a banner that occurs in it |
| Telemetry.ScanLines | temp_to_thing_speak.py:119-125 | the key after scanning a reply's lines is the key held before or the key of some banner of the map |
| Telemetry.IdentifyAfter | temp_to_thing_speak.py:113-125 | the identity after some attempts is empty (none found) or the key of some banner of the map |
| Telemetry.QueriesAfter | temp_to_thing_speak.py:113-117 | at least one attempt means at least one query |
| Telemetry.IdentityStable | temp_to_thing_speak.py:113-114 | once a key is found, later attempts change neither the key nor the number of queries |
| Telemetry.IdentifiedStep | temp_to_thing_speak.py:113-114 | one attempt made after a key is found keeps the key and sends no query |
| Telemetry.QueriesBound | temp_to_thing_speak.py:113-117 | no more queries than attempts, and every attempt queries while no key is known |
| Telemetry.ScanFindsIffSeen | temp_to_thing_speak.py:118-125 | with non-empty keys, scanning a reply finds a key exactly when a non-empty line holds a banner |
| Telemetry.NoIdentityIffNoBanner | temp_to_thing_speak.py:113-129 | with non-empty keys, identification fails exactly when no banner occurs in any non-empty line of any reply |
| Telemetry.IdentityComesFromBanner | temp_to_thing_speak.py:119-125 | a found key is the key of a banner that occurs in a non-empty line of some reply |
| Telemetry.ScanKeyFromLine | temp_to_thing_speak.py:119-125 | a key found in one reply comes from a banner occurring in one of its non-empty lines |
| Telemetry.TraceAppend | temp_to_thing_speak.py:216-233 | opening sets the open file, closing clears it, other effects keep it; one more effect keeps a trace disciplined exactly when it is allowed at that point |
| Telemetry.DisciplinedAt | temp_to_thing_speak.py:216-233 | in a disciplined trace every effect was allowed where it happened |
| Telemetry.OpenAfterFrom | temp_to_thing_speak.py:220-222 | after a file is opened it stays the open file until it is closed |
| Telemetry.ClosedBeforeReopen | temp_to_thing_speak.py:220-222 | between two openings the first file is closed |
| Telemetry.DifferentDaysDifferentFiles | temp_to_thing_speak.py:216-233 | records of two different days are never written to the same file |
| TelemetryLoop.GetIdKey | temp_to_thing_speak.py:109-132 | five attempts; the key is the one identification defines, None exactly when none is found; the number of queries is the one defined |
| TelemetryLoop.ScanLinesNext | temp_to_thing_speak.py:119-125 | one more line keeps the key when it is empty or holds no banner, and otherwise gives the key of its first banner |
| TelemetryLoop.ScanOneLine | temp_to_thing_speak.py:122-125 | the first banner in map order that occurs in the line sets the key; with none the key is unchanged |
| TelemetryLoop.ReadConfigData | temp_to_thing_speak.py:90-104 | fails without a banner map, fails without an identity, fails when the identity has no record, and otherwise returns the identity's record |
| TelemetryLoop.RollEffects | temp_to_thing_speak.py:216-222 | the date check does nothing exactly when the date is unchanged; its last effect opens today's file; each of its effects opens today's file or closes the stream that was open |
| TelemetryLoop.ReportEffects | temp_to_thing_speak.py:231-250 | the record is written to the file first; an update is sent exactly when the payload can be built, and it `Carries` the record: channels 1-8 as at lines 236-243 and the status (the time, a space and the line) |
| TelemetryLoop.RolloverOrder | temp_to_thing_speak.py:216-222 | the date check opens a file exactly when the date changed, opens the new day's file, and closes a stream that was open first |
| TelemetryLoop.DatesKeptBy | temp_to_thing_speak.py:213-250 | an effect that writes no record keeps every record in the file of its own day |
| TelemetryLoop.OpenKeeps | temp_to_thing_speak.py:222 | opening a file when none is open is allowed, leaves it the open file, and keeps records in their days' files |
| TelemetryLoop.CloseKeeps | temp_to_thing_speak.py:220-221 | closing the open file is allowed, leaves no file open, and keeps records in their days' files |
| TelemetryLoop.WriteKeeps | temp_to_thing_speak.py:232-233 | writing a record of a day to that day's open file is allowed, keeps the open file, and keeps records in their days' files |
| TelemetryLoop.QuietKeeps | temp_to_thing_speak.py:213-248 | an echo or an update is allowed anywhere, keeps the open file, and keeps records in their days' files |
| TelemetryLoop.RollKeeps | temp_to_thing_speak.py:216-222 | the date check keeps the log discipline and leaves the current day's file open |
| TelemetryLoop.EchoKeeps | temp_to_thing_speak.py:213 | echoing a line keeps the log discipline |
| TelemetryLoop.ReportKeeps | temp_to_thing_speak.py:231-250 | writing a record to the open day's file and sending its payload keep the log discipline |
| TelemetryLoop.RecordEffectsToday | temp_to_thing_speak.py:216-250 | a record's effects open only that day's file and log only that day's records |
| TelemetryLoop.OnlyTodayJoin | temp_to_thing_speak.py:210-266 | two consecutive stretches that touch only today's file make one |
| TelemetryLoop.TodayAppend | temp_to_thing_speak.py:210-266 | appending effects that touch only today's file keeps a stretch that touches only today's file |
| TelemetryLoop.RecordStep | temp_to_thing_speak.py:214-266 | a record line sets the pause to the configured frequency, today's stamp and today's open log; keeps the parsed record, or the previous one when parsing fails; dies exactly when parsing fails with none before; only extends the trace |
| TelemetryLoop.RecordStepKeeps | temp_to_thing_speak.py:214-266 | a record line keeps the log discipline and touches only today's file |
| TelemetryLoop.Classify | temp_to_thing_speak.py:209-214 | each piece of a reply classified as written, in order |
| TelemetryLoop.LineStep | temp_to_thing_speak.py:210-266 | one piece: nothing happens exactly for an empty piece; it dies exactly for a blank piece or a record that fails to parse with none before; anything but a record changes only the trace |
| TelemetryLoop.LinesStep | temp_to_thing_speak.py:210-266 | the pieces of a reply in order, stopping at the first that kills the loop; it only extends the trace |
| TelemetryLoop.EchoKept | temp_to_thing_speak.py:213 | echoing a piece keeps the log discipline and touches no file |
| TelemetryLoop.LineStepKeeps | temp_to_thing_speak.py:210-266 | one piece keeps the log discipline and touches only today's file |
| TelemetryLoop.LinesStepNext | temp_to_thing_speak.py:210 | handling one more piece after a surviving prefix is that piece's step |
| TelemetryLoop.LinesKeep | temp_to_thing_speak.py:210-266 | a whole reply keeps the log discipline and touches only today's file |
| TelemetryLoop.CrashIsFinal | temp_to_thing_speak.py:210-214 | once a piece kills the loop, later pieces change nothing |
| TelemetryLoop.FatalPieceKills | temp_to_thing_speak.py:210-214 | a piece that fails on `line[0]` kills the loop whatever came before it |
| TelemetryLoop.BlankPieceKills | temp_to_thing_speak.py:211-214 | a reply with a non-empty all-whitespace piece kills the loop |
| TelemetryLoop.QuietReplyKeepsState | temp_to_thing_speak.py:210-214 | a reply with no record line and no blank piece does not kill the loop, changes no loop variable and only echoes |
| TelemetryLoop.RecordSetsPause | temp_to_thing_speak.py:214-222 | after a reply holding a record line the loop is dead, or the pause is the configured one and today's log is open |
| TelemetryLoop.DictKeptWithoutRecord | temp_to_thing_speak.py:223-231 | when no piece parses, a surviving loop keeps the old `outputDict` |
| TelemetryLoop.DictIsLastParsed | temp_to_thing_speak.py:223-231 | a surviving loop holds the record of the last piece that parsed |
| TelemetryLoop.LastParsed | temp_to_thing_speak.py:223-231 | the old record or the record of some piece that parses |
| TelemetryLoop.LinesDict | temp_to_thing_speak.py:223-231 | a surviving loop's `outputDict` is the last record parsed, else the old one |
| TelemetryLoop.BoundDictSurvives | temp_to_thing_speak.py:223-231 | once a record has been parsed, only a blank piece can kill the loop |
| TelemetryLoop.Bridge.constructor | temp_to_thing_speak.py:182-201 | no date, no open stream, no parsed record, a pause of 5 seconds, the configured frequency and channel keys, an empty trace |
| TelemetryLoop.Bridge.RollOver | temp_to_thing_speak.py:216-222 | afterwards the date is today and today's log is open; the trace gains exactly the rollover effects; the log discipline is kept |
| TelemetryLoop.Bridge.HandleLine | temp_to_thing_speak.py:210-266 | the new loop variables, trace and death are those of one piece classified as written: empty pieces change nothing, blank ones are echoed and kill the loop, other non-records are only echoed, records are echoed and then handled; the log discipline holds and only today's file is touched |
| TelemetryLoop.Bridge.HandleRecord | temp_to_thing_speak.py:214-266 | the new state is RecordStep's: sets the pause to the configured frequency and rolls the log over; keeps the new record, or the previous one when parsing fails; dies exactly when parsing fails with none before; otherwise logs the record and sends its payload |
| TelemetryLoop.Bridge.PollCycle | temp_to_thing_speak.py:206-268 | the new loop variables, trace and death are the fold of the reply's pieces in order, stopping at the first fatal one; a surviving loop's `outputDict` is the last record parsed, else the old one; keeps the log discipline; touches only today's file; the wait is the pause |
| TelemetryLoop.RunBridge | temp_to_thing_speak.py:205-268 | the final loop variables, trace and death are `RunPolls` over the polls reached, up to and including the one in which the loop died; the run ends early exactly when the loop dies; the log discipline holds throughout |
| TelemetryLoop.RunPolls | temp_to_thing_speak.py:205-268 | the polls fold in order, each continuing from the state the previous one left, and nothing after a fatal poll has effect; the trace only grows |
| TelemetryLoop.RunPollsNext | temp_to_thing_speak.py:205-268 | one more poll after a surviving prefix is that poll's pieces folded from the prefix's state |
| TelemetryLoop.RunPollsKeep | temp_to_thing_speak.py:205-268 | any run of polls keeps the log discipline |
| ScreenControl.TalkToScreen.constructor | talkToScreen.py:11-16 | no name, history length 5000, not verbose |
| ScreenControl.TalkToScreen.CreateWithName | talkToScreen.py:18-23 | a fresh object with the given name, history 5000, not verbose |
| ScreenControl.TalkToScreen.VerboseModeOn | talkToScreen.py:25-26 | verbose on, name and history unchanged |
| ScreenControl.TalkToScreen.VerboseModeOff | talkToScreen.py:28-29 | verbose off, name and history unchanged |
| ScreenControl.CmdPrefix | talkToScreen.py:34 | exactly `screen -S <name> -X stuff` |
| ScreenControl.TalkToScreen.GetCmdPrefix | talkToScreen.py:31-35 | needs a name; the five words `screen -S <name> -X stuff` for the object's own name |
| ScreenControl.SearchSessionIsRegexSearch | talkToScreen.py:117 | the left-to-right scan finds a line exactly when `\d+\.<name>` matches somewhere in it |
| ScreenControl.ListedIffTextMatches | talkToScreen.py:116-118 | for a name without line breaks, some listing line matches exactly when the pattern occurs in the whole listing |
| ScreenControl.SessionListedIsLineMatch | talkToScreen.py:115-125 | a session is listed exactly when `\d+\.<name>` occurs in some line of the listing |
| ScreenControl.TalkToScreen.ScreenAlreadyRunning | talkToScreen.py:110-125 | true exactly when some line of the listing matches `\d+\.<name>`; the scan stops at the first match |
| ScreenControl.WithNewline | talkToScreen.py:71-72 | the command extended by at most one character and ending in a newline; unchanged exactly when it already ended in one |
| ScreenControl.WithNewlineIdempotent | talkToScreen.py:71-72 | normalising twice is normalising once |
| ScreenControl.StartVectorAsWritten | talkToScreen.py:51-54 | as written: "screen", "-h", the history length in decimal, "-dmS", then the name split on whitespace |
| ScreenControl.StartVector | talkToScreen.py:51-56 | the corrected vector: exactly "screen", "-h", the history length in decimal, "-dmS" and the name as one argument |
| ScreenControl.StartVectorAgrees | talkToScreen.py:51-54 | the split command line is the five-argument vector exactly when the name is one non-empty whitespace-free token; an empty name or one holding whitespace always gives a different vector |
| ScreenControl.DefaultHistoryText | talkToScreen.py:11 | the default history length prints as "5000" |
| ScreenControl.TwoWordStart | talkToScreen.py:51-54 | a name that splits into two words gives six arguments, unlike the corrected vector |
| ScreenControl.WhitespaceNameSplitsStart | talkToScreen.py:51-54 | the name "my session" becomes the two arguments "my" and "session" |
| ScreenControl.StartIssued | talkToScreen.py:37-56 | a listing check; then a listing of that name exactly when it runs, otherwise the start vector as written |
| ScreenControl.InjectIssued | talkToScreen.py:58-78 | a listing check; then the prefix and the normalised command exactly when the session runs, otherwise a listing dump |
| ScreenControl.TalkToScreen.StartScreen | talkToScreen.py:37-56 | issues what StartIssued says for the session's listed state |
| ScreenControl.TalkToScreen.ExecuteCmdInScreen | talkToScreen.py:58-78 | issues what InjectIssued says for the session's listed state |
| ScreenControl.TalkToScreen.ExitScreen | talkToScreen.py:80-83 | injecting "exit", so a running session is sent "exit\n" |
| ScreenControl.SetupCmdLineArgs | talkToScreen.py:190-203 | each error happens exactly under its rule; success exactly with at most one argument, given exactly when -s/-r/-e is used; listing forced on without -s/-r/-e |
| ScreenControl.Injects | talkToScreen.py:221-223 | one injection per -r command, in the order given |
| ScreenControl.Plan | talkToScreen.py:218-226 | the plan has one step per requested action and is empty exactly without -s/-r/-e |
| ScreenControl.PlanShape | talkToScreen.py:218-226 | start first, then every -r command in the order given, then exit last |
| ScreenControl.PlanAt | talkToScreen.py:218-226 | the action at each position of the plan |
| ScreenControl.PlanIssued | talkToScreen.py:218-226 | two vectors per action |
| ScreenControl.PlanIssuedStep | talkToScreen.py:218-226 | one more action appends that action's vectors |
| ScreenControl.IssueNext | talkToScreen.py:218-226 | issuing action k's vectors extends the vectors of the actions before it |
| ScreenControl.PerformActions | talkToScreen.py:218-226 | issues exactly the vectors of the plan, action by action |
| ScreenControl.StartFirst | talkToScreen.py:218-219 | the start step is the first step of the plan |
| ScreenControl.RunNext | talkToScreen.py:221-223 | each -r command is the next step of the plan |
| ScreenControl.ExitLast | talkToScreen.py:225-226 | the exit step completes the plan |
| ScreenControl.RunCommandLine | talkToScreen.py:207-229 | usage errors exactly as the flag rules say; an empty name stops at the assertion; otherwise the plan's vectors, followed by a listing when -l is set or implied |
| ScreenControl.InjectedTextsAppend | talkToScreen.py:218-226 | the texts typed by two runs of vectors are those of the first followed by those of the second |
| ScreenControl.PlanTextsStep | talkToScreen.py:218-226 | one more action appends that action's text |
| ScreenControl.ActionTypes | talkToScreen.py:58-83 | one action types its command with a newline into a listed session, and types nothing otherwise |
| ScreenControl.PlanTypesInOrder | talkToScreen.py:218-226 | while the session is listed at the check of every action other than the start (whatever the start's own check finds), it receives exactly the plan's commands, each ending in a newline added only when missing, in plan order |
| ScreenControl.PlanTypesNothingWhenAbsent | talkToScreen.py:59-67 | a session that is never listed receives nothing |
| Launcher.SetupCmdLineArgs | startPICommunications.py:51-55 | succeeds exactly with two arguments: the serial port and the session name |
| Launcher.BuildCmdList | startPICommunications.py:85-93 | the seven appends build exactly `LoopScript` |
| Launcher.LoopScript | startPICommunications.py:86-93 | the seven lines, each stated: cd into the directory, loop head, date, the bridge on the port, the sleep notice, the sleep, done |
| Launcher.SleepText | startPICommunications.py:85 | the pause prints as "300" |
| Launcher.LoopScriptSleeps | startPICommunications.py:91-92 | the notice and the sleep both use 300 seconds |
| Launcher.LaunchPlan | startPICommunications.py:83-103 | start first, then one injection per script line in list order |
| Launcher.RunLauncher | startPICommunications.py:57-103 | usage error exactly without two arguments; with -n nothing is issued and the script is only printed; otherwise as LaunchOnScreen |
| Launcher.LaunchOnScreen | startPICommunications.py:71-103 | an empty name stops at the assertion; a running session stops after the check; otherwise the check, then the start and the injections in order |
| Launcher.StartAndType | startPICommunications.py:83-103 | start, then every script line injected in order |
| Launcher.InjectAll | startPICommunications.py:95-103 | one injection per command, in list order |
| Launcher.LaunchIssued | startPICommunications.py:83-103 | starting then injecting issues exactly the launch plan's vectors |
| Launcher.PlanPrefix | startPICommunications.py:95-103 | the first n injections issue the first n injection steps of the plan |
| Launcher.PlanStart | startPICommunications.py:83 | the start issues the plan's first step |
| Launcher.PlanNext | startPICommunications.py:95-103 | injection n extends the plan's vectors by step n |
| Launcher.InjectStep | startPICommunications.py:95-103 | the n-th step of the plan issues what the n-th injection issues |
| Launcher.TypedScript | startPICommunications.py:95-103 | the first n script lines, each with its newline |
| Launcher.PlanTextsOfScript | startPICommunications.py:95-103 | the plan's first n injections type the first n script lines |
| Launcher.TypesLoopScript | startPICommunications.py:95-103 | whatever the start's own check finds (in a normal launch, nothing), while the session is listed at each later check it receives the seven script lines, each ending in a newline added only when missing, in order |
| PyStr.SplitCrlf | temp_to_thing_speak.py:209 | `split('\r\n')`: the pieces joined with "\r\n" give back the buffer, and no piece contains "\r\n" |
| PyStr.Strip | temp_to_thing_speak.py:212 | the result is a slice `s[k..e]` with only whitespace before `k` and after `e`, and it neither starts nor ends with whitespace; empty exactly for an all-whitespace line; otherwise it starts with the line's first non-whitespace character |
| PyStr.SplitLines | talkToScreen.py:116 | no lines exactly for empty text, and no line holds a line break |
| PyStr.SplitLinesJoin | talkToScreen.py:116 | the lines joined by newlines give back the text with each line break of `str.splitlines` (`\r\n` counted once; also `\r`, `\n`, `\v`, `\f`, `\x1c`-`\x1e`, `\x85`, `\u2028`, `\u2029`) written as a newline and a final one dropped |
| PyStr.SplitWs | talkToScreen.py:54 | `split()` gives non-empty tokens free of whitespace, the first starting with the text's first character when that is not whitespace |
| PyStr.SplitWsSkipsSpace | talkToScreen.py:54 | a leading whitespace character contributes nothing to `split()` |
| PyStr.SplitWsCollapses | talkToScreen.py:54 | for every text, the tokens joined by single spaces are the text trimmed with each whitespace run collapsed to one space (`CollapseWs`); `SplitWsUnique` shows no other token list has that join |
| PyStr.SplitWsUnique | talkToScreen.py:54 | any list of whitespace-free tokens whose single-space join is the collapsed text is exactly `split()`'s result |
| PyStr.SplitPadded | talkToScreen.py:54 | two tokens with whitespace before, twice between and after split into exactly the two |
| PyStr.SplitWsExample | talkToScreen.py:54 | `" my  session ".split()` is `["my", "session"]` |
| PyStr.SplitJoinThen | talkToScreen.py:54 | whitespace-free words joined by spaces ahead of a last text split back into those words followed by that text's own words |
| PyStr.SplitWsJoin | talkToScreen.py:54 | splitting words joined by single spaces gives back the words, when none holds whitespace |
| PyStr.NatToString | talkToScreen.py:51 | `"%s" % n` is a non-empty run of decimal digits whose decimal value is n, starting with 0 only for zero |
| PyStr.Contains | temp_to_thing_speak.py:123 | `p in s` holds exactly when p occurs at some position of s |
| PyStr.LastSlice | talkToScreen.py:71 | `cmd[-1:]` is empty for an empty command and otherwise its last character |

## Left out

- Serial I/O is not modelled: opening the port, writing `i` and `?`, `inWaiting` and `read`. Each reply is an input string.
- The pauses are not modelled: `time.sleep(5)` at start-up, `time.sleep(3)` after each identification attempt, and the wait between polls. `PollCycle` returns the wait it would take.
- `processTerminalInput` and `readInputFromTerminal` are terminal I/O. The `continue` and `quit` commands and the forwarding of typed text to the device are not modelled.
- `channel.update`, its response, its failure and the 120-second SIGALRM guard are network and signal handling. A sent payload is a `Sent` effect whatever the outcome.
- The alarm is left pending when `update` raises an ordinary exception. Such an alarm can fire later, outside the `try`, and end the loop. This is not modelled.
- `ast.literal_eval` is a parameter, both for record lines and for the configuration file. Values hold numbers, strings and lists; nested dictionaries, tuples and booleans are not modelled.
- The clock is read once per poll: `today` and `asctime` are inputs. For a record that opens a new file the source calls `createDateStamp()` four times: to compare (temp_to_thing_speak.py:216), to store (217), as the unused argument of `makeOutputFileName` (218), and inside it (88), whose reading names the file. A record arriving at midnight could store one date and open another day's file; this is not modelled.
- `strftime` and `asctime` formats are not modelled; dates and times are opaque strings.
- The bridge's option parsing (`-v`, `-n`, `-l`, `-c`, exactly one serial port), its verbose and `noOp` printing, and its exit after reading the configuration under `-n` are optparse and console I/O.
- The configuration record is assumed to hold `channel_id`, `write_key`, `update_frequency` and `channel_keys`; the KeyError a missing field raises is not modelled.
- An identity equal to the string "bannerToKeyMap" would select the banner map itself as the configuration. This is not modelled: records exclude that key.
- The iteration order of `bannerToKeyMap.keys()` is unspecified in Python 2, so the model takes the map as a sequence in some order.
- Python's `True` and `False` are not modelled. Only the empty key counts as "not found".
- `TelemetryLoop.RunBridge`: covers a finite run of polls, not the unbounded `while True` loop. The final `outputStream.close()` after that loop is unreachable and not modelled.
- `subprocess` is not modelled. `call`, `check_call` and `check_output` are issued vectors. Their failures (a non-zero exit raising `CalledProcessError`) and the bytes decoding of the listing are not modelled.
- The console messages of the session controller and of `printScreenList` are not modelled.
- The bridge's console messages other than the echo of each piece are not traced: the new file name (temp_to_thing_speak.py:219), the parse error (226-230), `print outputDict` (231, though its failure on an unbound `outputDict` is modelled as the loop's death), `channelDict =` (245), the service's response (250) and the failure messages (252-266).
- startPICommunications.py is written for Python 2 (print statements) and imports talkToScreen.py, whose `print(..., file=...)` calls (talkToScreen.py:41-44, 59-65) are a syntax error under Python 2 without `from __future__ import print_function`. Each file is modelled with its own semantics, as if the import worked; this mismatch is not executed and not modelled.
- Screen names are taken literally: regular-expression metacharacters in a name are not modelled. `\d` matches ASCII digits only, although Python 3 also matches other Unicode digits.
- `temp_hello_world.py` relies on a hardware driver and floating point, `yagmail_hello_world.py` sends e-mail, and `test_code/` holds experiments; none of them is part of this model.

## Findings

The bridge's loop and the session object follow the code as written. Each corrected member states the evidently intended behaviour, and a lemma pins down exactly the inputs where the two differ: for the blank piece both directions are stated by `Telemetry.ClassifyAgreesExceptBlank`, and for the start vector by `ScreenControl.StartVectorAgrees`.

| source | as written | input that shows it | evidently intended | confidence | as-written member | corrected member |
|---|---|---|---|---|---|---|
| temp_to_thing_speak.py:211-214 | the emptiness check on a piece of the reply comes before `strip()`, then `line[0]` is read after it | a reply containing a line of spaces, e.g. "\r\n \r\n" | blank lines are skipped like empty ones | medium, not executed | Telemetry.ClassifyLineAsWritten, Telemetry.BlankLineCrashes, TelemetryLoop.BlankPieceKills | Telemetry.ClassifyLine, Telemetry.ClassifyAgreesExceptBlank |
| talkToScreen.py:51-54 | the start command is formatted into one string and split on whitespace | session name "my session" | the name is passed to `screen -dmS` as one argument, as `getCmdPrefix` does | low, not executed | ScreenControl.StartVectorAsWritten, ScreenControl.WhitespaceNameSplitsStart | ScreenControl.StartVector, ScreenControl.StartVectorAgrees |
