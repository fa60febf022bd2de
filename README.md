# CYCM — a verified model of the command-queue mod

CYCM is a Fabric client mod for Minecraft. An external program, such as a YouTube-chat bridge,
writes records of the form `nick:/command` into `commands_list.txt` and records `nick:message`
into `chat.txt`. Every two seconds the mod takes the first line of each file and acts on it:

- it splits a command record at its last colon;
- it runs every `&&`-separated sub-command;
- it reads an optional repeat modifier `+N [D]` ("N runs, D seconds apart") within the bounds
  kept in `repeating_settings.txt`;
- it refuses commands whose first word is in the block set, which lives in
  `blocked_commands.txt`;
- it schedules one timer per run;
- it shows each chat record as `<nick> message`.

The mod also bridges to Gemini. It keeps a conversation history, builds a request body from it,
and decides what to show, send and record for each reply. A 30-second timeout slot guards the
request under way. An older reader in the client source set reads both files whole. It acts on
the lines past a cursor and splits each line at its first colon.

The model has these modules:

- `Common`: the optional value, the result, and the `Event`s the mod shows or sends. Effects are
  appended to an `out` log.
- `JavaText`: the parts of `java.lang.String` and `Integer` the mod relies on. These are `trim`,
  `indexOf` / `lastIndexOf`, `split` with its dropped trailing empties, ASCII `toLowerCase`,
  `parseInt` in the 32-bit range and `String.valueOf`.
- `Modifier`: the regular expression `^(.*?)\s*\+(\d+)(?:\s+(\d+))?$` as a function. It has
  soundness, laziness and uniqueness lemmas. The bound checks come after it.
- `Records`: the effect of one record as an `Outcome` (messages plus timers), and the chain of
  sub-commands.
- `BlockList`: the default and protected entries, the block test, and the load and save format.
  `Settings`: the settings line.
- `Colours`: the colour rule of `sendLocalizedMessage`.
- `Mod`: class `Client`, the static state of the main `CYCMClient`. It holds the set, the
  bounds, the files as line sequences, the scheduler flag, the pending timers and the output.
  Its methods are proved against the functions above.
- `Json`: `escapeJson`, and the string unescaping of section 7 of RFC 8259 that undoes it.
- `Ai`: the history, the request body, the reply decision tree, and class `AiBridge` for
  `AIClient`'s static state.
- `Legacy`: class `LegacyClient` for the older reader, with its two cursors.

The main reader splits a command record at its last colon, so a colon inside the command's
arguments cuts the record there. A record such as `Alice:/summon minecraft:chicken +2 1` gives
the nickname `Alice:/summon minecraft` and the payload `chicken +2 1`. That payload does not start
with `/`, so the whole line is refused with `cmd_must_start_with_slash`.
`Records.LastColonExample` and `Records.LastColonCutsArguments` state this.

## Model

| member | source | states |
|---|---|---|
| Mod.Client.constructor | src/main/java/org/craftllc/minecraft/mod/cycm/CYCMClient.java:44-49 | The static start: no scheduler, an empty block set, maxRepeats 20 and maxDelaySeconds 5, no timers and no output. |
| Mod.Client.OnInitialize | src/main/java/org/craftllc/minecraft/mod/cycm/CYCMClient.java:60-71 | After loading the block file and then the settings file, the set is the initialised set of the file's entries. The block file is rewritten from the set exactly when initialisation added something. The bounds are what the settings lines give. The settings file is rewritten with the old bounds exactly when its first kept line does not split into two pieces. The protected entries are in the set and both bounds are Java ints. |
| Mod.Client.Say | src/main/java/org/craftllc/minecraft/mod/cycm/CYCMClient.java:664-684 | A message is shown, as one more output event, exactly when there is a player. |
| Colours.KeyColour | src/main/java/org/craftllc/minecraft/mod/cycm/CYCMClient.java:671-681 | Exactly the keys of the red test are red, whatever later test they would also pass. A key is green, aqua or yellow only when every earlier test fails, so the order of the tests decides. Gold is the rest. |
| Colours.AiMessagesRed | src/main/java/org/craftllc/minecraft/mod/cycm/CYCMClient.java:671 | Every `ai_` key is red, whatever its suffix. |
| Colours.AiNoticesRed | src/main/java/org/craftllc/minecraft/mod/cycm/CYCMClient.java:671 | The AI bridge's ordinary reply `ai_response` and its progress notices `ai_generating_response` and `ai_executing_command` are red, like its errors. |
| Colours.BlockRepliesColours | src/main/java/org/craftllc/minecraft/mod/cycm/CYCMClient.java:671-673 | The refusal `cmd_blocked` is red. Its confirmation `cmd_blocked_success` is green, as are `cmd_unblocked_success` and `all_cmds_unblocked`. |
| Colours.AlreadyNoticesYellow | src/main/java/org/craftllc/minecraft/mod/cycm/CYCMClient.java:671-677 | `cmd_already_blocked`, `cmd_not_blocked` and `mod_already_state` fail the red, green and aqua tests and are yellow. |
| Colours.ProtectedRefusalsRed | src/main/java/org/craftllc/minecraft/mod/cycm/CYCMClient.java:671 | The refusals to block or unblock one of the mod's own commands, and `no_player`, are red. |
| Colours.MalformedRefusalsRed | src/main/java/org/craftllc/minecraft/mod/cycm/CYCMClient.java:671 | The refusals of a malformed number, command or chat line (`bad_` keys) and the non-positive warnings are red. |
| Colours.LimitRefusalsGold | src/main/java/org/craftllc/minecraft/mod/cycm/CYCMClient.java:671-681 | Not every refusal is red: `repeats_exceed_max`, `delay_exceed_max` and `cmd_must_start_with_slash` pass no test and are gold. |
| Colours.SettingsRepliesColours | src/main/java/org/craftllc/minecraft/mod/cycm/CYCMClient.java:671-681 | `repeats_set_success` and `delay_set_success` are green. The on/off confirmation `mod_state` passes no test and is gold. |
| Mod.Client.SaveBlocked | src/main/java/org/craftllc/minecraft/mod/cycm/CYCMClient.java:347-353 | The file holds one line `/` + entry per entry and nothing else. |
| Mod.Client.LoadBlocked | src/main/java/org/craftllc/minecraft/mod/cycm/CYCMClient.java:330-345 | The set becomes the initialised set of the entries of the file's kept lines. The file is rewritten from the set exactly when initialisation added something, and is left alone otherwise. |
| Mod.Client.AddEach | src/main/java/org/craftllc/minecraft/mod/cycm/CYCMClient.java:368-382 | The set gains exactly the given entries. The flag is set exactly when one of them was missing. |
| Mod.Client.InitBlocked | src/main/java/org/craftllc/minecraft/mod/cycm/CYCMClient.java:360-385 | The set becomes the old set plus the ten default and three protected entries. It is saved exactly when that changed it. |
| Mod.Client.Block | src/main/java/org/craftllc/minecraft/mod/cycm/CYCMClient.java:387-399 | A protected name is refused and nothing changes. A new name is added and the file is saved. A name already present gives `cmd_already_blocked` and changes nothing. Each case shows its message and the protected entries stay. |
| Mod.Client.Unblock | src/main/java/org/craftllc/minecraft/mod/cycm/CYCMClient.java:401-420 | A protected name is refused. `all` resets the set to exactly the default and protected entries. A present name is removed and saved. An absent one is reported as not blocked and nothing changes. |
| Mod.AllIgnoringCase | src/main/java/org/craftllc/minecraft/mod/cycm/CYCMClient.java:402-407 | For the lower-cased name unblockCommand works with, the case-insensitive comparison with `all` is plain equality. |
| Mod.Client.LoadRepeatingSettings | src/main/java/org/craftllc/minecraft/mod/cycm/CYCMClient.java:422-439 | The bounds become what the first kept settings line gives. The file is rewritten with the current bounds exactly when there is no such line or it does not split into two pieces. |
| Mod.Client.SetBounds | src/main/java/org/craftllc/minecraft/mod/cycm/CYCMClient.java:426-432 | maxRepeats is taken as soon as the first piece parses. maxDelaySeconds is taken only if the second piece parses too. A failed parse leaves what it would have set. |
| Mod.Client.SaveRepeatingSettings | src/main/java/org/craftllc/minecraft/mod/cycm/CYCMClient.java:462-468 | The file becomes the single line `maxRepeats:maxDelaySeconds`. |
| Mod.Client.SetMaxRepeats | src/main/java/org/craftllc/minecraft/mod/cycm/CYCMClient.java:442-450 | A value of at most 0 is refused with a warning and nothing else changes. Otherwise the bound becomes exactly that value and is saved. Reading the saved file back gives the current bounds. The delay bound never changes. |
| Mod.Client.SetMaxDelaySeconds | src/main/java/org/craftllc/minecraft/mod/cycm/CYCMClient.java:452-460 | A negative value is refused with a warning. Otherwise the bound becomes exactly that value and is saved, and the file reads back to the current bounds. The repeat bound never changes. |
| Mod.Client.Schedule | src/main/java/org/craftllc/minecraft/mod/cycm/CYCMClient.java:232-242 | Exactly the executions of the job are appended to the pending timers, in order: run r+1 of reps, at offset r times delay. |
| Mod.Client.RunJob | src/main/java/org/craftllc/minecraft/mod/cycm/CYCMClient.java:223-242 | The output and the timers grow by what the block test on the job's first word gives. Without a live scheduler, any run to schedule becomes a NullPointerException. |
| Mod.Launch | src/main/java/org/craftllc/minecraft/mod/cycm/CYCMClient.java:287-297 | With a live scheduler, or with nothing to schedule, the outcome stands. Otherwise the only effect is the NullPointerException of the first schedule call. |
| Mod.Client.Exec | src/main/java/org/craftllc/minecraft/mod/cycm/CYCMClient.java:196-242 | The output and the timers grow by exactly the outcome of the sub-command: the modifier refusal, or the block test and the runs. |
| Mod.Client.ExecSingleCmd | src/main/java/org/craftllc/minecraft/mod/cycm/CYCMClient.java:193-243 | On the live scheduler, a sub-command from a record adds exactly its outcome, with no exemption from the block test. |
| Mod.Client.ExecCmdInGame | src/main/java/org/craftllc/minecraft/mod/cycm/CYCMClient.java:245-298 | Without a player nothing changes. Otherwise the player's command adds its outcome with the mod's commands exempt from the block test, and a missing scheduler makes any run throw. |
| Mod.Client.ProcCmdLine | src/main/java/org/craftllc/minecraft/mod/cycm/CYCMClient.java:170-191 | The output and the timers grow by exactly the outcome of the record. |
| Mod.Client.RunSubCommands | src/main/java/org/craftllc/minecraft/mod/cycm/CYCMClient.java:188-190 | The pieces between `&&`, trimmed, are run in order, and their outcomes are concatenated. |
| Mod.Client.RunEach | src/main/java/org/craftllc/minecraft/mod/cycm/CYCMClient.java:188-190 | Running each command of a list from one nickname adds the chain of their outcomes. |
| Mod.Client.RunSubCommand | src/main/java/org/craftllc/minecraft/mod/cycm/CYCMClient.java:189 | One more piece extends the chain built so far by its own outcome. |
| Mod.Client.ProcChatLine | src/main/java/org/craftllc/minecraft/mod/cycm/CYCMClient.java:305-316 | With a player, exactly one event is shown: the `<nick> message` line, or the format error. Without a player nothing is shown. |
| Mod.Client.ProcClearFirstCmds | src/main/java/org/craftllc/minecraft/mod/cycm/CYCMClient.java:146-168 | An empty file is left alone. Otherwise the log gains the stamped first line, the first line is processed as a record, and the file becomes the rest. |
| Mod.Client.ProcClearFirstChat | src/main/java/org/craftllc/minecraft/mod/cycm/CYCMClient.java:146-168 | The same pop on chat.txt, with the first line shown as chat. |
| Mod.Client.ProcessFiles | src/main/java/org/craftllc/minecraft/mod/cycm/CYCMClient.java:137-144 | With the mod off or no player, the scheduler stops, the timers are dropped, and no file, log or output changes. Otherwise the head of commands_list.txt is handled before the head of chat.txt. |
| Mod.Client.ProcessQueues | src/main/java/org/craftllc/minecraft/mod/cycm/CYCMClient.java:142-143 | Both queues lose their first line and both logs record it. The command outcome comes before the chat event. |
| Mod.Client.Fire | src/main/java/org/craftllc/minecraft/mod/cycm/CYCMClient.java:234-240 | A fired timer leaves the pending list. With a player it announces its run and then sends exactly its command. Without a player it does nothing else. |
| Mod.Client.StartFileProcessing | src/main/java/org/craftllc/minecraft/mod/cycm/CYCMClient.java:109-115 | Afterwards the scheduler is live. A live one is kept. |
| Mod.Client.StopFileProcessing | src/main/java/org/craftllc/minecraft/mod/cycm/CYCMClient.java:117-123 | Afterwards there is no scheduler. A live one loses its pending timers. A second stop changes nothing. |
| Mod.Client.Tick | src/main/java/org/craftllc/minecraft/mod/cycm/CYCMClient.java:74-83 | With a player and the mod on, processing runs. With a player and the mod off, nothing changes. Without a player, processing stops. |
| Mod.Client.SetModEnabled | src/main/java/org/craftllc/minecraft/mod/cycm/CYCMClient.java:125-135 | Setting the current state only reports it. A change is reported, and processing starts or stops with it. |
| BlockList.IsModCmdIsProtected | src/main/java/org/craftllc/minecraft/mod/cycm/CYCMClient.java:301-303 | The mod's commands are exactly the protected entries. |
| BlockList.IsCmdBlocked | src/main/java/org/craftllc/minecraft/mod/cycm/CYCMClient.java:355-357 | Java throws exactly for a non-empty command of spaces only. Otherwise the command is blocked exactly when some entry is the whole first token of its lower-cased form. |
| BlockList.IsCmdBlockedOfToken | src/main/java/org/craftllc/minecraft/mod/cycm/CYCMClient.java:355-357 | A command without spaces is blocked exactly when its lower-cased form is an entry. |
| BlockList.PrefixUnique | src/main/java/org/craftllc/minecraft/mod/cycm/CYCMClient.java:356 | A string has only one first token. |
| BlockList.CleanCmd | src/main/java/org/craftllc/minecraft/mod/cycm/CYCMClient.java:388 | The name is the lower-cased command with one leading `/` removed when there is one. It is lower-case, and one character shorter exactly when the command started with `/`. |
| BlockList.CollectMembers | src/main/java/org/craftllc/minecraft/mod/cycm/CYCMClient.java:335-339 | An entry is loaded exactly when some line of the file gives it. |
| BlockList.Init | src/main/java/org/craftllc/minecraft/mod/cycm/CYCMClient.java:360-385 | The initialised set keeps every old entry. It holds every default and protected entry, and nothing else. |
| BlockList.InitChangesIff | src/main/java/org/craftllc/minecraft/mod/cycm/CYCMClient.java:361-384 | Initialisation saves exactly when it changes the set. |
| BlockList.InitIdempotent | src/main/java/org/craftllc/minecraft/mod/cycm/CYCMClient.java:360-385 | A second initialisation changes nothing and does not save. |
| BlockList.PersistedMembers | src/main/java/org/craftllc/minecraft/mod/cycm/CYCMClient.java:349 | Every entry has its `/` line. Every saved line is an entry behind a `/`. |
| BlockList.LoadPersisted | src/main/java/org/craftllc/minecraft/mod/cycm/CYCMClient.java:335-349 | Loading a saved file gives the set back when every entry is storable. |
| BlockList.EntryOfPersisted | src/main/java/org/craftllc/minecraft/mod/cycm/CYCMClient.java:336-338 | The saved line of a storable entry is kept and loads to that entry. |
| BlockList.EntryStorable | src/main/java/org/craftllc/minecraft/mod/cycm/CYCMClient.java:336-338 | Every entry read from a kept line is lower-case and has no trailing character that trim removes. |
| BlockList.LoadedStorable | src/main/java/org/craftllc/minecraft/mod/cycm/CYCMClient.java:335-339 | Every loaded entry is storable, so load, save and load again gives the same set. |
| BlockList.UnblockSuggestions | src/main/java/org/craftllc/minecraft/mod/cycm/CYCMClient.java:558-564 | Every suggestion other than `all` is a blocked entry that is not one of the mod's own commands. Every suggestion starts with the lower-cased typed text. |
| BlockList.SuggestsEveryPrefix | src/main/java/org/craftllc/minecraft/mod/cycm/CYCMClient.java:560-561 | Every prefix of a lower-case unprotected entry, the empty one included, suggests that entry. |
| BlockList.NeverSuggestsProtected | src/main/java/org/craftllc/minecraft/mod/cycm/CYCMClient.java:561 | `cycm`, `ai` and `stopai` are never suggested. |
| BlockList.SuggestionUnblocks | src/main/java/org/craftllc/minecraft/mod/cycm/CYCMClient.java:558-564 | A lower-case suggestion other than `all` and without a leading `/` is cleaned by unblockCommand to itself. It is a blocked, unprotected entry, so unblocking it removes exactly that entry. |
| Records.ExecutionsShape | src/main/java/org/craftllc/minecraft/mod/cycm/CYCMClient.java:232-241 | Exactly reps runs of the same command from the same requester. Run k is labelled k+1 of reps and fires at offset k times delay. With a positive delay the offsets strictly increase. |
| Records.AdmitShape | src/main/java/org/craftllc/minecraft/mod/cycm/CYCMClient.java:223-242 | The block test either gives one message and no timer, or schedules all runs of the job. Every timer it schedules is safe. |
| Records.SubCommandShape | src/main/java/org/craftllc/minecraft/mod/cycm/CYCMClient.java:193-243 | A sub-command gives one message, or the runs its modifiers describe, never both. Every scheduled timer is safe. |
| Records.BlockedNeverScheduled | src/main/java/org/craftllc/minecraft/mod/cycm/CYCMClient.java:223-227 | A sub-command whose lower-cased first token is blocked schedules nothing and gives `cmd_blocked` with that token. The exception is one of the mod's own commands run by the player. |
| Records.JobCmdTrimmed | src/main/java/org/craftllc/minecraft/mod/cycm/CYCMClient.java:189-198 | The command of a job parsed from a trimmed sub-command is trimmed and has a first token. |
| Records.AdmitNoCrash | src/main/java/org/craftllc/minecraft/mod/cycm/CYCMClient.java:223-227 | A command with a first token never makes the block test throw. |
| Records.TrimmedNeverCrashes | src/main/java/org/craftllc/minecraft/mod/cycm/CYCMClient.java:189-227 | A trimmed sub-command never makes the pipeline throw. |
| Records.RefusalNoCrash | src/main/java/org/craftllc/minecraft/mod/cycm/CYCMClient.java:199-219 | A refused modifier is a message, not an exception. |
| Records.ChainStep | src/main/java/org/craftllc/minecraft/mod/cycm/CYCMClient.java:188-190 | A chain grows by one sub-command at a time, so a refused piece does not stop the ones after it. |
| Records.ChainAppend | src/main/java/org/craftllc/minecraft/mod/cycm/CYCMClient.java:188-190 | The chain of two lists of pieces is the chain of the first followed by the chain of the second. |
| Records.ChainSafe | src/main/java/org/craftllc/minecraft/mod/cycm/CYCMClient.java:188-190 | Every timer a chain schedules is safe. |
| Records.ChainNeverCrashes | src/main/java/org/craftllc/minecraft/mod/cycm/CYCMClient.java:188-190 | A chain of trimmed sub-commands never throws. |
| Records.SplitRecordNone | src/main/java/org/craftllc/minecraft/mod/cycm/CYCMClient.java:171-176 | A record is refused exactly when it has no colon or ends in one. |
| Records.SplitRecordParts | src/main/java/org/craftllc/minecraft/mod/cycm/CYCMClient.java:177-178 | Both sides of an accepted split are trimmed, and the payload holds no colon. |
| Records.RecordRoundTrip | src/main/java/org/craftllc/minecraft/mod/cycm/CYCMClient.java:171-178 | Any nickname, even one with colons, joined by a colon to a non-empty colon-free payload, splits back into both, trimmed. |
| Records.CmdLineIsChain | src/main/java/org/craftllc/minecraft/mod/cycm/CYCMClient.java:183-190 | A payload starting with `/` runs its pieces in order, as the record's nickname. |
| Records.CmdLineSafe | src/main/java/org/craftllc/minecraft/mod/cycm/CYCMClient.java:170-191 | No record ever makes the pipeline throw. Every timer it schedules runs a command whose first token is not blocked. |
| Records.CmdLineRejects | src/main/java/org/craftllc/minecraft/mod/cycm/CYCMClient.java:173-186 | A malformed record, or one whose payload lacks the slash, gives one message naming the whole line and schedules nothing. |
| Records.NoSlashRefused | src/main/java/org/craftllc/minecraft/mod/cycm/CYCMClient.java:183-186 | An accepted record whose payload does not start with `/` gives exactly `cmd_must_start_with_slash` with the line, and schedules nothing. |
| Records.LastColonCutsArguments | src/main/java/org/craftllc/minecraft/mod/cycm/CYCMClient.java:171-186 | A command argument with a colon cuts the record there. The line is refused unless the rest starts with `/`. |
| Records.LastColonExample | src/main/java/org/craftllc/minecraft/mod/cycm/CYCMClient.java:171-178 | `Alice:/summon minecraft:chicken +2 1` splits into `Alice:/summon minecraft` and `chicken +2 1`. |
| Records.ChatEffect | src/main/java/org/craftllc/minecraft/mod/cycm/CYCMClient.java:305-316 | A chat record gives the format error, naming the whole line, exactly when the split refuses it. Every record the split accepts is shown as a chat line. Its nickname is the trimmed text before a colon, and its message the trimmed text after it. No colon follows that one in the line. |
| Settings.FirstKeptFrom | src/main/java/org/craftllc/minecraft/mod/cycm/CYCMClient.java:425 | The result is the first line that is neither blank nor a `#` comment, or the end when there is none. |
| Settings.ReadSettings | src/main/java/org/craftllc/minecraft/mod/cycm/CYCMClient.java:425-434 | A file that gets rewritten leaves the bounds as they were. The delay can change only when the repeat piece parses. |
| Settings.SettingsRoundTrip | src/main/java/org/craftllc/minecraft/mod/cycm/CYCMClient.java:422-468 | Reading back the saved line gives any pair of 32-bit bounds exactly, whatever they replace, and does not rewrite the file. |
| Modifier.SuffixMatchSound | src/main/java/org/craftllc/minecraft/mod/cycm/CYCMClient.java:196 | A suffix match is a well-formed reading that spells the text. |
| Modifier.SuffixMatchComplete | src/main/java/org/craftllc/minecraft/mod/cycm/CYCMClient.java:196 | Every well-formed reading with an empty group 1 is the one the suffix matcher finds. |
| Modifier.MatchSound | src/main/java/org/craftllc/minecraft/mod/cycm/CYCMClient.java:196-197 | A match is a well-formed reading of the whole sub-command: group 1 without line terminators, whitespace, `+`, digits and an optional whitespace-and-digits delay. |
| Modifier.MatchShortest | src/main/java/org/craftllc/minecraft/mod/cycm/CYCMClient.java:196-197 | The lazy group: whenever some reading exists, the match exists and its group 1 is no longer than that reading's. |
| Modifier.MatchUnique | src/main/java/org/craftllc/minecraft/mod/cycm/CYCMClient.java:196 | Two readings of the same text with group 1 of the same length are the same. |
| Modifier.MatchIs | src/main/java/org/craftllc/minecraft/mod/cycm/CYCMClient.java:196-197 | A reading whose group 1 has no whitespace and no `+` is the match. |
| Modifier.ParseModifiersUnmatched | src/main/java/org/craftllc/minecraft/mod/cycm/CYCMClient.java:194-197 | Without a modifier the command runs once with no delay, unchanged. |
| Modifier.ParseModifiersMatched | src/main/java/org/craftllc/minecraft/mod/cycm/CYCMClient.java:197-220 | An accepted modifier runs the trimmed group 1. It has the repeat count, which is within the bound. The delay is that of group 3, within its bound, or 0 when group 3 is absent. |
| Modifier.ParseModifiersRefusals | src/main/java/org/craftllc/minecraft/mod/cycm/CYCMClient.java:199-219 | Every refusal is one of the four range messages. |
| Modifier.ExampleRepeatAndDelay | src/main/java/org/craftllc/minecraft/mod/cycm/CYCMClient.java:196-221 | `foo +3 1` is three runs of `foo`, one second apart. |
| Modifier.ExampleNoGap | src/main/java/org/craftllc/minecraft/mod/cycm/CYCMClient.java:196 | `foo+3` matches too, since the space before `+` is optional. |
| Modifier.ExampleTooManyRepeats | src/main/java/org/craftllc/minecraft/mod/cycm/CYCMClient.java:200-204 | `foo +999` under the bound 20 is refused with `repeats_exceed_max` naming 999 and 20. |
| Modifier.ExampleDelayTooLong | src/main/java/org/craftllc/minecraft/mod/cycm/CYCMClient.java:211-215 | `foo +2 9` under the delay bound 5 is refused with `delay_exceed_max` naming 9 and 5. |
| JavaText.Trim | src/main/java/org/craftllc/minecraft/mod/cycm/CYCMClient.java:177-178 | The result is empty exactly when every character is at most U+0020. Otherwise it starts and ends with a character above U+0020 and holds only characters of the input. |
| JavaText.TrimIdempotent | src/main/java/org/craftllc/minecraft/mod/cycm/CYCMClient.java:189 | Trimming twice changes nothing more. |
| JavaText.LastIndexOf | src/main/java/org/craftllc/minecraft/mod/cycm/CYCMClient.java:171 | The result is the last position of the character, or -1 when it is absent. |
| JavaText.HeadToken | src/main/java/org/craftllc/minecraft/mod/cycm/CYCMClient.java:223 | `split(" ")[0]` throws exactly for a non-empty string of spaces. Otherwise it is the whole first space-free token. |
| JavaText.Lower | src/main/java/org/craftllc/minecraft/mod/cycm/CYCMClient.java:223 | Lower-casing keeps the length and maps each character on its own. |
| JavaText.SplitOfTwo | src/main/java/org/craftllc/minecraft/mod/cycm/CYCMClient.java:426 | Two separator-free texts around one separator split back into both. A trailing empty piece is dropped. |
| JavaText.SplitPieces | src/main/java/org/craftllc/minecraft/mod/cycm/CYCMClient.java:426 | `split` gives the leading pieces between separators, dropping only empty trailing ones. Joining all the pieces with the separator gives the string back. |
| JavaText.ParseInt | src/main/java/org/craftllc/minecraft/mod/cycm/CYCMClient.java:428-429 | A parsed value is a 32-bit int. A digit string parses exactly when its value fits. |
| JavaText.ParseIntOfIntToString | src/main/java/org/craftllc/minecraft/mod/cycm/CYCMClient.java:464 | Parsing what String.valueOf wrote gives the int back. |
| JavaText.IndexOf | src/client/java/org/craftllc/minecraft/mod/cycm/client/CYCMClient.java:117 | The result is the first position of the pattern, or -1 when there is none. |
| Json.EscapeJsonIsEscaped | src/main/java/org/craftllc/minecraft/mod/cycm/ai/AIClient.java:152-158 | Replacing the backslash first makes the chain of replacements the same as escaping each character on its own, with nothing escaped twice. |
| Json.UnescapeEscapeJson | src/main/java/org/craftllc/minecraft/mod/cycm/ai/AIClient.java:152-158 | Reading the escaped text as a JSON string body gives the text back. |
| Json.EscapeJsonNoRawBreaks | src/main/java/org/craftllc/minecraft/mod/cycm/ai/AIClient.java:152-158 | The escaped text holds no raw newline, carriage return or tab. |
| Json.EscapeJsonKeepsOtherControls | src/main/java/org/craftllc/minecraft/mod/cycm/ai/AIClient.java:152-158 | Other control characters, such as U+0008 and U+0000, pass through raw. |
| Ai.ContentsSomeIff | src/main/java/org/craftllc/minecraft/mod/cycm/ai/AIClient.java:145-147 | The history can be written exactly when no entry has a null text. |
| Ai.ContentsNonePrefix | src/main/java/org/craftllc/minecraft/mod/cycm/ai/AIClient.java:145-147 | A null text stops the build whatever entries follow it. |
| Ai.EntryJsonReadsBack | src/main/java/org/craftllc/minecraft/mod/cycm/ai/AIClient.java:146 | Each entry's object carries its text escaped, so that reading the string gives it back with no raw line break. |
| Ai.CommandBaseOfSlash | src/main/java/org/craftllc/minecraft/mod/cycm/ai/AIClient.java:39 | For a command starting with `/`, the pattern finds a name exactly when a word character follows. The name is the longest run of word characters and holds no space. |
| Ai.RunCommandSends | src/main/java/org/craftllc/minecraft/mod/cycm/ai/AIClient.java:192-204 | A command with a slash and a name that is absent or not blocked is sent without its slash and recorded as `Executed command: `. Any other command sends and records nothing. |
| Ai.StructuredSends | src/main/java/org/craftllc/minecraft/mod/cycm/ai/AIClient.java:185-204 | A structured reply asking for an approved command sends exactly that command without its slash, and records exactly `Executed command: ` and the command. An unapproved one sends nothing. |
| Ai.DecideSends | src/main/java/org/craftllc/minecraft/mod/cycm/ai/AIClient.java:160-227 | A command reaches the game exactly when the reply asks for an approved one. It goes without its slash, and it is recorded. No other reply sends anything. |
| Ai.DecideEntries | src/main/java/org/craftllc/minecraft/mod/cycm/ai/AIClient.java:166-211 | An error, malformed or unparsable envelope adds no history. Text that is not structured is shown and recorded verbatim. A structured reply without a command records its message. A command is recorded only when approved. |
| Ai.DecideNullEntry | src/main/java/org/craftllc/minecraft/mod/cycm/ai/AIClient.java:184-206 | A null text enters the history exactly from a structured reply with neither a message nor a command. |
| Ai.AsWrittenRefusesNamedCommands | src/main/java/org/craftllc/minecraft/mod/cycm/ai/AIClient.java:193 | As written, a command with a name after its slash is never sent and never recorded. The player sees the request error `No match found`. |
| Ai.AsWrittenAgrees | src/main/java/org/craftllc/minecraft/mod/cycm/ai/AIClient.java:160-227 | Everywhere else the handler as written and the corrected one agree. |
| Ai.AsWrittenCounterexample | src/main/java/org/craftllc/minecraft/mod/cycm/ai/AIClient.java:193 | `/time set day` with nothing blocked is sent by the corrected handler and refused as written. |
| Ai.LoadedKey | src/main/java/org/craftllc/minecraft/mod/cycm/ai/AIClient.java:73-77 | The key read, the first kept line, is missing only when there is no such line. |
| Ai.SpaceRefused | src/main/java/org/craftllc/minecraft/mod/cycm/ai/AIClient.java:110 | A key holding a space, such as a key line with a trailing blank that loadApiKey keeps untrimmed, makes URI.create refuse the request URI. |
| Ai.KeyCharsAccepted | src/main/java/org/craftllc/minecraft/mod/cycm/ai/AIClient.java:110 | A key made only of ASCII letters, digits, `-` and `_` always gives a valid request URI. |
| Ai.UricTextRefuses | src/main/java/org/craftllc/minecraft/mod/cycm/ai/AIClient.java:110 | The query and fragment check of java.net.URI lets no space and no `#` through. |
| Ai.AskedShape | src/main/java/org/craftllc/minecraft/mod/cycm/ai/AIClient.java:99-104 | One user entry is added, or two when the output is not blank, with the `Output of last command: ` entry first. Every added entry has a text. |
| Ai.AskedKeepsBody | src/main/java/org/craftllc/minecraft/mod/cycm/ai/AIClient.java:99-107 | What sendMessageToAI adds never stops the body from being built. Only an entry already in the history can. |
| Ai.AiBridge.constructor | src/main/java/org/craftllc/minecraft/mod/cycm/ai/AIClient.java:32-36 | No key, an empty history, no timeout, no request and no output. |
| Ai.AiBridge.Say | src/main/java/org/craftllc/minecraft/mod/cycm/CYCMClient.java:664-667 | A message is shown exactly when there is a player. |
| Ai.AiBridge.LoadApiKey | src/main/java/org/craftllc/minecraft/mod/cycm/ai/AIClient.java:44-85 | Before the configuration is ready, only the warning is shown. Otherwise the key becomes the first kept line, with a warning exactly when there is none. |
| Ai.AiBridge.Stop | src/main/java/org/craftllc/minecraft/mod/cycm/ai/AIClient.java:229-235 | Afterwards the timeout slot is empty, whatever it held. |
| Ai.AiBridge.BuildRequestBody | src/main/java/org/craftllc/minecraft/mod/cycm/ai/AIClient.java:138-150 | The body is the opening, the fixed preamble, every history entry in order with its text escaped, then the closing. It is None where a null text makes Java throw. |
| Ai.AiBridge.SendMessageToAI | src/main/java/org/craftllc/minecraft/mod/cycm/ai/AIClient.java:87-136 | With the mod off or the key missing, only a message is shown. Otherwise the timeout is cleared and the history grows as asked. A body that cannot be built throws a NullPointerException. A key that URI.create refuses throws an IllegalArgumentException, with nothing sent and no timeout armed. Otherwise the timeout is armed and the body is sent. |
| Ai.AiBridge.Request | src/main/java/org/craftllc/minecraft/mod/cycm/ai/AIClient.java:97-125 | The history grows by the asked entries. A body that cannot be built, or a key that is illegal in the request URI, becomes its exception: nothing is sent and the slot stays empty. Otherwise the new timeout holds the body that is sent. |
| Ai.AiBridge.Ask | src/main/java/org/craftllc/minecraft/mod/cycm/ai/AIClient.java:99-104 | The history grows by exactly the asked entries. |
| Ai.AiBridge.Send | src/main/java/org/craftllc/minecraft/mod/cycm/ai/AIClient.java:107-125 | A body that cannot be built throws a NullPointerException. A key illegal in the URI the request is made for throws an IllegalArgumentException before anything is shown. Neither touches the slot or the requests. Otherwise the body is reported and sent, and it fills the slot. |
| Ai.AiBridge.HandleResponse | src/main/java/org/craftllc/minecraft/mod/cycm/ai/AIClient.java:160-227 | The timeout is cleared first. Output and history then grow by what the corrected decision tree gives. |
| Ai.AiBridge.RequestFailed | src/main/java/org/craftllc/minecraft/mod/cycm/ai/AIClient.java:130-135 | A failed request clears the timeout and reports the error. |
| Ai.AiBridge.Timeout | src/main/java/org/craftllc/minecraft/mod/cycm/ai/AIClient.java:119-125 | A live timeout clears itself and reports it. A cleared one does nothing. |
| Legacy.CommandLineIsChatLine | src/client/java/org/craftllc/minecraft/mod/cycm/client/CYCMClient.java:116 | Every line the command pattern accepts, the chat pattern accepts too. |
| Legacy.FirstColon | src/client/java/org/craftllc/minecraft/mod/cycm/client/CYCMClient.java:117 | In an accepted line the first colon ends the nickname. |
| Legacy.CommandLineEvents | src/client/java/org/craftllc/minecraft/mod/cycm/client/CYCMClient.java:116-126 | A command line announces what follows its first `:/`, from the non-empty colon-free nickname before it, and sends exactly that, with its slash, as chat. |
| Legacy.EffectsAppend | src/client/java/org/craftllc/minecraft/mod/cycm/client/CYCMClient.java:114-128 | Lines are acted on one after the other, in file order. |
| Legacy.ReadNewCursor | src/client/java/org/craftllc/minecraft/mod/cycm/client/CYCMClient.java:103-134 | The cursor never moves back, and moves only to the end of the file. Afterwards the file exists, and an existing file is left as it was. |
| Legacy.ReadNewTwice | src/client/java/org/craftllc/minecraft/mod/cycm/client/CYCMClient.java:113-130 | Reading again straight after a read, with the file unchanged, acts on nothing and keeps the cursor. |
| Legacy.ReadNewAppended | src/client/java/org/craftllc/minecraft/mod/cycm/client/CYCMClient.java:113-129 | Lines appended after a read are what the next read acts on, and only they. |
| Legacy.ReadNewShrunk | src/client/java/org/craftllc/minecraft/mod/cycm/client/CYCMClient.java:113 | A file with no more lines than the cursor is not looked at, whatever it now holds. |
| Legacy.SendsColonCommand | src/client/java/org/craftllc/minecraft/mod/cycm/client/CYCMClient.java:116-126 | `bob:/say a:b` announces and sends `/say a:b` whole. |
| Legacy.MainReaderSplitsAtLast | src/main/java/org/craftllc/minecraft/mod/cycm/CYCMClient.java:171-186 | The main reader splits that same line into `bob:/say a` and `b`, so it is refused there. |
| Legacy.LegacyClient.constructor | src/client/java/org/craftllc/minecraft/mod/cycm/client/CYCMClient.java:29-32 | Both cursors are 0 and there is no scheduler. |
| Legacy.LegacyClient.StartFileProcessing | src/client/java/org/craftllc/minecraft/mod/cycm/client/CYCMClient.java:58-65 | Afterwards the scheduler is live. A live one is kept. |
| Legacy.LegacyClient.StopFileProcessing | src/client/java/org/craftllc/minecraft/mod/cycm/client/CYCMClient.java:67-72 | Afterwards there is no scheduler. A second call changes nothing. |
| Legacy.LegacyClient.Tick | src/client/java/org/craftllc/minecraft/mod/cycm/client/CYCMClient.java:39-55 | After both tick handlers, processing runs exactly when there is a player and the mod is on. |
| Legacy.LegacyClient.SetModEnabled | src/client/java/org/craftllc/minecraft/mod/cycm/client/CYCMClient.java:74-86 | The flag is set. Processing follows it only when there is a player. |
| Legacy.LegacyClient.ProcessCommandsFile | src/client/java/org/craftllc/minecraft/mod/cycm/client/CYCMClient.java:103-134 | The file, cursor and output become what a read of commands_list.txt from the cursor gives. |
| Legacy.LegacyClient.ProcessChatFile | src/client/java/org/craftllc/minecraft/mod/cycm/client/CYCMClient.java:136-166 | The same read for chat.txt, whose lines are shown as chat. |
| Legacy.LegacyClient.ActOn | src/client/java/org/craftllc/minecraft/mod/cycm/client/CYCMClient.java:114-128 | The output grows by the effects of exactly the lines from the cursor on, in order. |
| Legacy.LegacyClient.ProcessFiles | src/client/java/org/craftllc/minecraft/mod/cycm/client/CYCMClient.java:88-101 | With the mod off or no player, processing stops and neither file, neither cursor and no output changes. Otherwise commands are read, then chat. |

## Left out

- The file system and its errors are not modelled.
  - Each file is a sequence of lines held in a field.
  - `ensureFile`, directory creation and every `IOException` branch are left out. This includes the `ai_api_key_load_error` branch of loadApiKey and the failed `readAllLines` of the older reader.
  - The log time stamp is a parameter.
- Time and threads are not modelled.
  - Each scheduler is a flag. A timer is a record of its run and offset, and `Fire` fires any pending one.
  - Real delays, the two-second period, the thread handoff and the synchronized wrappers are left out.
- The game is not modelled.
  - Messages are `Event`s appended to `out`, and a missing player is a flag.
  - The translation of keys and the `fReps > 1` condition for showing "rep of reps" are left out. The event carries both numbers.
  - A null network handler is not modelled.
- The mod's configuration file is a `bool`. Config loading, config watching and saving are left out.
- Brigadier command registration is left out, as are the operations only it reaches:
  - `restartMod`, `resetConfig`, `dispBlockList`;
  - `execKillAura`, `execKillEntities`, whose particle placement is floating-point trigonometry;
  - the `sugBlock` / `sugReset` suggestion providers.
- The shutdown hook (CYCMClient.java lines 86-91) and the two handlers with empty bodies (lines 94-106) are left out. The hook is `StopFileProcessing` followed by `Stop`.
- `getLastExecutedCommandOutput` and `setLastExecutedCommandOutput` are plain field accessors. The output they hold is the `output` parameter of `SendMessageToAI`.
- The HTTP call and Gson are left out.
  - The parsed envelope is the `Response` datatype and the parsed reply text is `Reply`.
  - `\u` escapes are not unescaped, and Gson's lenient reading of the reply is not modelled.
- JavaText.Lower: lower-cases the ASCII letters only, not Java's full Unicode, locale-dependent `toLowerCase`.
- JavaText.ParseInt: accepts ASCII digits only, where `Integer.parseInt` also takes other Unicode digits.
- Json.EscapeJsonKeepsOtherControls: states that escapeJson leaves control characters other than newline, carriage return and tab raw. The RFC 8259 reader here accepts them raw. A strict reader would refuse such a body.
- Settings.ReadSettings: its contract states only that a rewritten file leaves the bounds and how the delay depends on the repeats. `Mod.Client.SetBounds` and `Settings.SettingsRoundTrip` state the rest.
- Mod.Client.ExecCmdInGame: the `no_player` message it asks for is never visible. `sendLocalizedMessage` itself shows nothing without a player, so without a player the model changes nothing.
- Mod.Client.RunSubCommands: the pieces are trimmed before they are run, as `procCmdLine` passes `cmd.trim()`.
- procClearFirst is one Java method taking a line processor. It is modelled as `ProcClearFirstCmds` and `ProcClearFirstChat`, one per file.
- Ai.AiBridge.BuildRequestBody: gathers the entries first and puts the opening and the preamble before them at the end. This builds the same string as the Java `StringBuilder`.
- Ai.AiBridge.HandleResponse: handles a reply that arrives after its timeout like any other. The source has no check for late replies.
- Ai.AiBridge.Send: of the request builder, only the syntax check URI.create makes on the key is modelled. `Ai.UriAccepts` follows java.net.URI's character rules for a query and a fragment. An exception that leaves a method becomes a `Crash` event naming its class, and the method stops there.
- Ai.AiBridge.SendMessageToAI: a null message entry already in the history makes every later request throw. `Ai.DecideNullEntry` and `Ai.AskedKeepsBody` state when such an entry arises.
- Legacy.LegacyClient.Tick: the second tick handler only stops a live scheduler when there is no player. The first handler has already done that, so both are one method.
- Both legacy files are snapshots of their lines. A file that disappears during processing is not modelled.

## Findings

| source | as written | input that shows it | evidently intended | confidence | as-written member | corrected member |
|---|---|---|---|---|---|---|
| src/main/java/org/craftllc/minecraft/mod/cycm/ai/AIClient.java:193 | `group(1)` is read from a second, fresh Matcher that has never matched. That throws IllegalStateException whenever the first `find()` succeeded. So every command with a name after its slash ends in the request error and is never sent. | a reply whose `runCommand` is `/time set day`, with nothing blocked | Read group 1 from the matcher that found the pattern. The name then goes through the block test, and an unblocked command is sent and recorded. | not executed | Ai.DecideAsWritten, Ai.AsWrittenCounterexample, Ai.AsWrittenRefusesNamedCommands | Ai.Decide, Ai.DecideSends |
