# A verified model of snap-gs

snap-gs runs a game server as a child process. It reads the child's log, keeps the state of the
lobby from it, publishes that state as files, decides when the lobby must end, hands finished
matches to two writers, and starts the next process under a budget of failures. A preload
library next to it rewrites addresses in the packets that the child sends.

This project models that behaviour in Dafny and proves what it promises, over every input,
every run and every interleaving of its goroutines.

`dafny verify dfyconfig.toml` checks everything.

## How it is built

A part of the source that works in place is a class or a method here (`Lobby`, `Players`,
`StatDir`, `Canceller`, `Watcher`, `Hook`, `DirWatch`, `SpecWatch`, `Writer`, and the loops of
`Supervisor`, `Events`, `Log`). Each is proved against a specification function on values, and the
promises are proved about those functions.

| files | part of snap-gs |
|---|---|
| `Rewrite`, `Preload` | the preload library: frames and the in-place rewriting of packets |
| `Decimal`, `GoTime` | ParseInt and AppendInt, instants, Duration.Round |
| `Players`, `Stat`, `Cancel`, `Spec` | registry, status directory, the reason a lobby ends for, the desired status |
| `Names`, `Lines` | file names with a meaning; how a line of output is known and what is logged of it |
| `Scan`, `Lobby` | what a line of output does, as a function and in place, up to the scanner's loop |
| `Watcher` | the decision of one tick, and the loop around it |
| `Runs` | any interleaving of lines, ticks, collectors and reports on one lobby |
| `Mirror`, `Notices`, `Grouping`, `Dates` | what holds over such runs: published files, changes, handed-over matches and their dates |
| `Causes`, `Calls`, `Admin`, `Deadline`, `Demands` | why and when a lobby ends over such runs: the first cause, both timeouts, the files that ask for it |
| `Shutdown`, `ShutdownProofs`, `Reports`, `Signals` | the goroutines step by step: invariants, that every fair run ends with the right answer, who reports what, and whether the child is told to end |
| `Effects`, `Whole` | the two models joined: from the lines that the child prints to the matches that are written |
| `Supervisor` | the restart loop |
| `Events`, `Batches`, `SpecFiles` | file events, batches, and the status that the files ask for |
| `Log`, `LogWriter` | the time in front of a log line, and the line's writes |
| `Figures` | the numbers and texts, entered a second time |
| `Witnesses` | one input for each thing the code does that one might not expect |

The specification of a lobby is `Scan.Step`. The class `Lobby.Lobby` carries it out, from the bytes
of a line on, and a whole life of the object is a run of `Runs` (`Lobby.LinesAreRun`). `Runs`
interleaves the lines with ticks and with what the other goroutines report. `Effects.LineIsEffect`
shows that each line is one atomic step of the goroutines in `Shutdown`, and
`Whole.EveryGroupIsWritten` puts everything together: whatever the child prints and however the
goroutines interleave, each match in it ends up with exactly one collector or was dropped while ten
others waited.

## What the code does that one might not expect

Each of these is proved, with the exact condition where it is a condition and with an input.

- The end of a frame is compared without regard to the end of the buffer, so a frame that is cut
  off by it is rewritten into the memory behind (`Rewrite.BehindTheBuffer`,
  `Witnesses.CutFrameIsRewritten`).
- The filler's `:` is written over the second frame's header when the third address is too long
  for the first two, and only then (`Preload.Hook.Init`, `Witnesses.HeaderIsOverwritten`).
- A player whose id is smaller than the admin's does not take over when joining
  (`Players.AdminLeastIff`, `Players.SmallerIdDoesNotLead`).
- An update without a match id publishes a match that is not there, and so it stays until an update
  has an id again (`Mirror.RunFaithful`, `Witnesses.NamelessIsPublished`).
- `runc` returns "lobby done", which is no error anywhere else, exactly when the child ended
  cleanly after somebody had reported Done and nobody a cause (`Cancel.RuncReturnsTheCause`); Done
  comes that early only from a scanner that gave up on its pipe (`ShutdownProofs.ReturnedIsDone`,
  `Witnesses.DoneIsReturned`).
- A cause that is stored before the child was started swallows every later one, so that the child
  is never told to stop (`Signals.ToldUnlessCausedBefore`, `Witnesses.NeverTold`).
- When a scanner gives up on its pipe, its Done ends the watcher too: until somebody calls a cause
  the child lives on, and no timeout counts (`Signals.UnwatchedWithoutCause`,
  `Witnesses.UnwatchedChild`).
- Cutting a JSON line makes it longer when fewer than fourteen bytes go, which is at 66 to 79 bytes
  (`Lines.JsonIsCut`, `Witnesses.CutIsLonger`).
- A bot that leaves a lobby which no human ever joined ends it, if restarts are on
  (`Causes.NobodyLeft`, `Witnesses.BotEndsLobby`).
- The fixed-width time has sixteen characters, of which the log line keeps fifteen, when seconds
  just below ten round up behind an hour or ten minutes (`Log.OverflowsWhen`, `Log.SixteenOnce`,
  `LogWriter.StampIsText`). The log's own comment calls that field fixed-width without exception;
  the code is followed.
- The repository's README.md:8 lets a lobby restart when the last human leaves; the code does so
  exactly if something was changed in the lobby and restarts are on, and leaves it idle otherwise
  (`Causes.LastHumanLeaves`, `Witnesses.LastHumanLeavesIdle`).
- Its README.md:9 dates a match by its id; an id that cannot be read as a time leaves the match with
  the clock of its first update, so that only such results are dated by arrival
  (`Causes.RunDated`, `Grouping.GroupsShape`, `Witnesses.UnreadableIdHasTwoDates`).

## Model

| member | source | states |
|---|---|---|
| Preload.FramesDecode | hack/preload.c:69-81 | the two frames `_init` builds are equally long and each decodes, as a receiver would read it: to the two configured addresses, and to a filler address and the third one |
| Preload.FramesAreHeadOnly | hack/preload.c:20-81 | the tag byte 7 stands only at a frame's start if and only if no address holds it; the length byte never is 7 |
| Preload.PacketRewritten | hack/preload.c:86-119 | one packet on a configured host: every local frame becomes the public one, no local frame is left, no other byte changes, sending again changes nothing |
| Preload.Hook.Init | hack/preload.c:30-83 | exit codes of `_init` in the order of its tests; a store that C does not define if and only if the third address is longer than the first two together; otherwise the exact bytes of both frames, and the second one's header survives if and only if the third address leaves two bytes of room |
| Preload.Hook.Send | hack/preload.c:86-119 | a buffer under 46 bytes is untouched; any other becomes the left-to-right rewriting of its memory |
| Preload.FillLocal | hack/preload.c:74-80 | the stores of `_init` leave tag, length, first address, `\|`, second address |
| Preload.FillPublic | hack/preload.c:75-81 | the stores of `_init` leave tag, length, a filler address that fits, `\|`, third address; the header is intact if and only if there is room; they are inside the array if and only if the third address is no longer than the first two together |
| Preload.ReplaceInPlace | hack/preload.c:91-115 | the memchr/memcmp/memcpy loop, in place, equals the left-to-right rewriting |
| Preload.ReplaceAt | hack/preload.c:96-111 | compares one frame's length and overwrites exactly that much if it is the frame |
| Preload.MemChr | hack/preload.c:94 | finds the first such byte below the end, or that there is none |
| Preload.ExitCodeIs | hack/preload.c:37-67 | the exit status names the first address that is missing, or that is of no address's length |
| Preload.LengthsAreThoseOfAddresses | hack/preload.c:20-35 | the lengths are those of the shortest and the longest address; the buffer holds the longest frame and a zero |
| Rewrite.Simultaneous | hack/preload.c:94-115 | the left-to-right scan replaces all occurrences at once and nothing else, when the tag opens the frame and is nowhere else in it |
| Rewrite.OccurrencesApart | hack/preload.c:20-24 | two frames with such a tag cannot begin less than a frame apart |
| Rewrite.LeavesNone | hack/preload.c:94-115 | no occurrence of the first frame is left, also none across the edge of a replaced region |
| Rewrite.Idempotent | hack/preload.c:94-115 | rewriting twice is rewriting once |
| Rewrite.BehindTheBuffer | hack/preload.c:96-111 | what is behind the buffer stays as it is if and only if every frame cut by its end agrees with the replacement there |
| Rewrite.ProgressStep | hack/preload.c:94-115 | one turn of the loop, replacing or passing over, keeps the part done right and the rest untouched |
| Decimal.ParseInt | internal/lobby/players.go:35 | ParseInt with its error dropped always lies in the int64 range |
| Decimal.ParseIntItoa | internal/lobby/players.go:35 | parsing inverts printing, negative numbers included, and saturates at both ends of int64 |
| Decimal.ParseIntDigits | internal/lobby/players.go:35 | digits are what they spell, signed or not, and saturate |
| Decimal.ParseIntGarbage | internal/lobby/players.go:35 | a foreign character, or no digit at all, gives 0, unless the number was too large before it |
| Decimal.ItoaLength | internal/log/log.go:50 | a number has as many digits as the powers of ten say |
| Players.Players.constructor | internal/lobby/lobby.go:223 | a lobby starts with an empty, consistent registry |
| Players.Players.Migrate | internal/lobby/players.go:21-32 | in whatever order the map is walked, the object with the smallest id takes over; without humans nobody does; it happens only if the admin left |
| Players.Players.Set | internal/lobby/players.go:34-64 | the three ranges of ids, names kept unless given, first human leads: the new registry and the answer are the specification's |
| Players.Players.Join | internal/lobby/players.go:46-63 | the human branch of `set`, old or new player |
| Players.Players.Add | internal/lobby/players.go:66-70 | `set` without names |
| Players.Players.Update | internal/lobby/players.go:72-76 | `set` with names |
| Players.Players.Remove | internal/lobby/players.go:78-91 | bots first, then humans with the admin's succession, else the rejected answer and no change |
| Players.Players.Leave | internal/lobby/players.go:86-89 | a human goes and the admin's place passes on |
| Players.Players.Lookup | internal/lobby/players.go:93-101 | answers as an `Add` of a present id would, and rejects all others |
| Players.Players.Count | internal/lobby/players.go:103-107 | the numbers of humans and bots |
| Players.AppliedAllConsistent | internal/lobby/players.go:21-91 | after any operations on any strings: bots in 1..999, humans from 1000, an admin if and only if there are humans, and then one of them |
| Players.HumansMoveByOne | internal/lobby/players.go:34-91 | no line moves the human count by more than one; a rejected one changes nothing |
| Players.ThereUnlessRemoved | internal/lobby/players.go:34-91 | over any operations: an id is there if and only if its last operation was no removal, below 1000 as a bot, from there on as a human |
| Players.NamesAreLastGiven | internal/lobby/players.go:46-55 | over any operations: a human's names are the last ones given |
| Players.AdminPassesOn | internal/lobby/players.go:21-63 | the first human leads until leaving, and then the least id |
| Players.SetAnswers | internal/lobby/players.go:34-64 | what an update answers for a rejected id, a bot and a human |
| Players.RemoveAnswers | internal/lobby/players.go:78-91 | what a removal answers for an unknown id, a bot and a human |
| Players.AdminLeastIff | internal/lobby/players.go:21-63 | the admin stays the least id across an operation if and only if it is not a join below the admin's id |
| Players.AscendingAdmin | internal/lobby/players.go:21-101 | if each new human's id exceeds those present, the admin is always the least id |
| Players.SmallerIdDoesNotLead | internal/lobby/players.go:56-63 | a concrete run in which the admin is not the least id |
| Stat.StatDir.SetStat | internal/lobby/stat.go:45-89 | ignored names, no directory, removal into the `last` file, writing through the `.lock` file: the new directory |
| Stat.StatDir.RemStat | internal/lobby/stat.go:41-43 | removal into the `last` file |
| Stat.StatDir.RemStats | internal/lobby/stat.go:21-39 | the loop, in any order of names, clears the directory |
| Stat.MovedOne | internal/lobby/stat.go:33-37 | removing one name more keeps what was removed before under its `last` name |
| Stat.ClearedKeepsContents | internal/lobby/stat.go:21-74 | after clearing only ignored names are left and every file's content is in its own `last` file |
| Stat.PlainNames | internal/lobby/stat.go:67-88 | writing or removing one of the lobby's names leaves each other one alone, `.lock` and `last` names included |
| Stat.WritesAndRemovals | internal/lobby/stat.go:45-89 | writing leaves no lock behind; a removed file is kept under its `last` name; removing nothing changes nothing; ignored names change nothing |
| Cancel.Canceller.Alloc | internal/lobby/lobby.go:221-229 | the committed state: no reason, `done` open |
| Cancel.Canceller.Cancel | internal/lobby/lobby.go:104-143 | the new reason, the closing of `done`, the signal to the child and the answer; `done` is closed if and only if there is a reason, and never twice |
| Cancel.CallsKeepFirstCause | internal/lobby/lobby.go:104-143 | after any calls the stored reason is the first one that is not Done, Done if all were, none if there were none; `done` was closed if and only if there was a call |
| Cancel.SignalsUpToFirstCause | internal/lobby/lobby.go:113-141 | a running child is signalled by each call up to and with the first cause, and by none after it; one that does not run, or whose lobby has a cause already, by none at all |
| Cancel.RuncReturnsTheCause | internal/lobby/lobby.go:274-282 | an exit error never masks an earlier cause; it is returned if there was none; Done is returned if and only if the exit was clean after Done calls alone |
| Cancel.FirstCauseLast | internal/lobby/lobby.go:111-124 | one call more changes the first cause only if there was none |
| Cancel.CallsAreTold | internal/lobby/lobby.go:111-129 | each call is told the first cause of all calls up to itself, and no error if there is none |
| Spec.HighestAsked | internal/lobby/spec.go:44-148 | the verdict is the highest of everything that the desired status asks for, by force before without and down before stop before restart |
| Spec.ReasonAfterMonotone | internal/lobby/spec.go:44-148 | later times, a peer's time, a longer idle time, a shorter grace or an earlier start never lower the verdict |
| Scan.Index | internal/lobby/scan.go:143 | the first place of the session's name in a match id, or that there is none |
| Scan.CollectedQueued | internal/lobby/collect.go:16-34 | a collection keeps at most ten matches waiting, in the order sent, tries none without an id and leaves no id |
| Scan.StepQueued | internal/lobby/scan.go:44-251 | no line hands over more than one match, and the queue stays in order and within ten |
| Lobby.Lobby.constructor | internal/lobby/lobby.go:221-263 | the lobby as `alloc` and the first `remstats` leave it |
| Lobby.Lobby.Collect | internal/lobby/collect.go:16-34 | match, queue and published match after a collection, full queue included |
| Lobby.Lobby.FilterUpdate | internal/lobby/scan.go:134-155 | collection on a new id, the carried or parsed time, and the published match |
| Lobby.Lobby.FilterRegister | internal/lobby/scan.go:178-202 | a register line, rejected and bot ids included |
| Lobby.Lobby.FilterUnregister | internal/lobby/scan.go:203-238 | an unregister line, rejected and bot ids included |
| Lobby.Lobby.Empty | internal/lobby/scan.go:222-234 | what happens when nobody is left: idle, or the verdict of the desired status, or the idle timeout |
| Lobby.Lobby.Arrive | internal/lobby/scan.go:181-202 | counts, `full`, `idle`, the flush for the first human and the deferred report |
| Lobby.Lobby.Depart | internal/lobby/scan.go:206-238 | counts, `full`, the admin's new time, the empty lobby and the deferred report |
| Lobby.Lobby.FilterJson | internal/lobby/scan.go:103-156 | a JSON line, by its length, what stands near its start and whether it decodes, does what its kill or update does, and nothing without a log directory; a cut line is kept |
| Lobby.Lobby.FilterBolt | internal/lobby/scan.go:158-251 | the engine's lines, known by their bytes, each as the specification's step says |
| Lobby.Lobby.Filter | internal/lobby/scan.go:44-101 | any bytes on any descriptor change the object as the step of the line they are, and what is left of them for the log |
| Lobby.Lobby.Ignores | internal/lobby/scan.go:54-65 | the two loops drop exactly blank lines, those with a useless start and those with a useless part |
| Lobby.Lobby.FilterOut | internal/lobby/scan.go:77-101 | the switch on a line that is not dropped |
| Lobby.Lobby.NoteChange | internal/lobby/scan.go:239-248 | a changed setting counts only while humans are there |
| Lobby.Lobby.Populated | internal/lobby/scan.go:86-89 | a filled pool makes an empty lobby idle |
| Lobby.Lobby.ReadLines | internal/lobby/scan.go:271-283 | the loop does all lines' steps in order and logs what is left of each |
| Lobby.Lobby.Scanner | internal/lobby/scan.go:253-287 | the whole scanner: standard output's lines, the last collection, the closing and Done; standard error's only Done |
| Lobby.LinesAreRun | internal/lobby/scan.go:253-287 | the lines of a scanner are a run, so that what holds over runs holds of the object |
| Lobby.OnlyOutputMatters | internal/lobby/scan.go:66-68 | lines of another descriptor change nothing |
| Lines.BoltPrefixesApart | internal/lobby/scan.go:159-167 | no text starts with two of the engine's prefixes |
| Lines.OutPrefixesApart | internal/lobby/scan.go:69-76 | no text starts with two of the other prefixes, and none of them starts JSON |
| Lines.BoltAlone | internal/lobby/scan.go:168-248 | the order of the engine's cases does not matter: a line has one prefix, and reaches that switch |
| Lines.RegisterIff | internal/lobby/scan.go:178-179 | a line registers an id if and only if it is spelled so |
| Lines.UnregisterIff | internal/lobby/scan.go:203-204 | a line unregisters an id if and only if it is spelled so |
| Lines.KillIff | internal/lobby/scan.go:108-133 | a JSON line is a kill if and only if it has 66 bytes or more, is marked as one within the first 66, and decodes as one |
| Lines.UpdateIff | internal/lobby/scan.go:108-133 | it is an update if and only if it has 66 bytes or more, is marked as one within the first 66 and not as a kill, and decodes as one |
| Lines.AssignedIff | internal/lobby/scan.go:175-177 | an assignment, if and only if it starts with one of two texts |
| Lines.SettingIff | internal/lobby/scan.go:239-244 | a changed setting, if and only if it starts with one of two texts |
| Lines.UploadIff | internal/lobby/scan.go:83-85 | a finished upload, if and only if it starts with its text |
| Lines.PoolIff | internal/lobby/scan.go:86 | a filled pool, if and only if it starts with its text |
| Lines.DisconnectIff | internal/lobby/scan.go:96 | a lost session, if and only if it starts with one of two texts |
| Lines.ArenaIff | internal/lobby/scan.go:90-91 | a named arena, if and only if the engine or a request names it |
| Lines.SpelledIsKnown | internal/lobby/scan.go:77-99 | each event, spelled as the engine does, is known as that event |
| Lines.TruncatedTells | internal/lobby/scan.go:35-42 | a cut line keeps its start, and its length can be read from it |
| Lines.JsonIsCut | internal/lobby/scan.go:35-42 | JSON is logged as it is if and only if it is shorter than the limit of 66 bytes, and gets longer if and only if it has 66 to 79 |
| Lobby.Lobby.RenameArena | internal/lobby/scan.go:90-95 | the arena and its file |
| Lobby.Lobby.Finish | internal/lobby/scan.go:256-263 | the last collection, the closing of the channel and Done, in that order |
| Lobby.Lobby.Take | internal/lobby/collect.go:44 | a collector receives the oldest match |
| Runs.RunSound | internal/lobby/scan.go:44-287 | over every interleaving of lines, ticks, collectors and reports: consistent registry, ordered queue of at most ten, reason and `done` in step; and the registry depends on register and unregister lines alone |
| Runs.NextSound | internal/lobby/scan.go:44-287 | each single step keeps that |
| Mirror.RegisterFaithful | internal/lobby/scan.go:178-202 | a register line keeps the files true, although the code compares the count with ten alone |
| Mirror.UnregisterFaithful | internal/lobby/scan.go:203-238 | an unregister line keeps the files true, although the code compares the count with nine alone |
| Mirror.UpdateFaithful | internal/lobby/scan.go:134-155 | an update publishes its match with that match's own time; what is published is in progress if and only if it has an id |
| Mirror.StepFaithful | internal/lobby/scan.go:44-287 | each step keeps the files true; an update makes the published match one in progress if and only if it has an id, and no other step touches that |
| Mirror.RunFaithful | internal/lobby/stat.go:45-88 | over every run, from any old directory: `players` there if and only if humans are, with their number; `full` if and only if ten or more; `idle` only without humans; a match in progress with its time; and a published match is in progress if and only if there was no update or the last one had an id |
| Notices.RunChanges | internal/lobby/scan.go:182-184 | over every run a lobby counts as changed if and only if a bot came or went, or a setting changed while humans were there |
| Notices.RunShowsIdleAndFull | internal/lobby/scan.go:86-89 | over every run `idle` and `full` say exactly what the pool, assignment, register and unregister lines have made of them, with the time |
| Notices.RunShowsArena | internal/lobby/scan.go:90-95 | over every run the lobby's arena and the published one are the last that was named |
| Notices.NewMatchKeepsLast | internal/lobby/scan.go:134-141 | a new match keeps what was published of the one before as `lastmatch`, news of the same match does not |
| Grouping.RunCollectsGroups | internal/lobby/scan.go:130-140 | the matches that the lobby tried to hand over are exactly the groups of the output: one for each unbroken run of updates with one id, from its last update and the kills after it, in order, with their times |
| Grouping.RunFolds | internal/lobby/collect.go:16-34 | at every moment what was handed over and what the rest of the output will give make up the whole |
| Grouping.FoldIsGroups | internal/lobby/scan.go:130-140 | following one current match, line by line, gives the same as cutting the output into runs |
| Grouping.NextFollows | internal/lobby/scan.go:192-225 | each step moves the followed match as its mark says, and hands over only at the end of a run |
| Grouping.GroupsShape | internal/lobby/scan.go:143-154 | no group is nameless or without kills, and groups of one readable id carry that id's time whenever they were read |
| Dates.StampIsParsed | internal/lobby/scan.go:143-154 | what stands behind the first place of the session's name is parsed; nothing there, nothing parsed |
| Dates.NoStampIff | internal/lobby/scan.go:143-152 | an id has no time if and only if the name is not in it, or nothing stands behind its first place, or that cannot be read |
| Dates.MatchCarriesSpelled | internal/lobby/scan.go:134-155 | at every moment the match carries the time its id spells, or else the latest flush's |
| Dates.CollectedCarrySpelled | internal/lobby/scan.go:134-155 | every match handed over with a readable id carries the time it spells, however often it is collected |
| Causes.RunDated | internal/lobby/scan.go:134-155 | at every moment the match's time is the one its id spells, or else the clock of the latest flush |
| Causes.NamelessIsDatedByFlush | internal/lobby/lobby.go:225-227 | without an id the time is the latest flush's |
| Causes.FlushForward | internal/lobby/collect.go:16-34 | with a clock that goes forward that time never goes back |
| Causes.VerdictAllowed | internal/lobby/watch.go:55-80 | what a tick or the last unregister line decides is allowed by who is there |
| Causes.NewReasonIsVerdict | internal/lobby/scan.go:221-234 | a deliberate reason is stored only by the step that decided it |
| Causes.EveryEndWasAllowed | internal/lobby/watch.go:46-80 | whenever a run ends on purpose, the step that raised the reason met nobody it must not send away: unforced ends and timeouts met no human and no match, an admin timeout no match, in a match only a forced down |
| Calls.RunKeepsFirstCause | internal/lobby/lobby.go:104-143 | over every run the lobby's reason is the first cause of all calls that were made, Done if all were Done, none if there were none |
| Calls.MoveCalls | internal/lobby/scan.go:44-287 | each step does to the reason what its calls do |
| Calls.LinesCall | internal/lobby/scan.go:96-98 | which reason each line calls: a lost session, an id nobody can have, a lobby that is left and must not go on |
| Calls.WatchingIff | internal/lobby/watch.go:18-48 | there is a watcher if either timeout is on, and it stays until it raises something or finds `done` closed |
| Demands.FilesThatAskDown | internal/lobby/spec.go:166-175 | which files set the five times that ask for a down |
| Demands.FilesThatAskStop | internal/lobby/spec.go:178-187 | which files set the five times that ask for a stop |
| Demands.FilesThatAskRestart | internal/lobby/spec.go:170-177 | which files set the four times that ask for a restart |
| Demands.FilesThatKeepUp | internal/lobby/spec.go:155-160 | which files set the times that keep a lobby up |
| Demands.VerdictIsAsked | internal/lobby/spec.go:44-148 | the verdict for every status, by the times it holds |
| Demands.LastLeftIsAsked | internal/lobby/scan.go:228-233 | the last to leave leaves the lobby to what is asked of one that has rested, or to the idle timeout |
| Demands.TickHeeds | internal/lobby/watch.go:55-80 | a tick raises what is asked, if who is there does not mind: a forced down heeds nobody, another force a match, the rest humans too; an unforced stop waits for the time of grace, to 50 µs |
| Demands.ForceEnds | internal/lobby/watch.go:55-80 | over every run the first tick of a watched lobby that finds a force it must heed ends the lobby for that reason, unless a cause is stored |
| Demands.AskedEnds | internal/lobby/watch.go:63-80 | over every run the first tick of an empty watched lobby that finds anything asked for ends it for that reason, unless a cause is stored |
| Causes.NobodyLeft | internal/lobby/scan.go:203-234 | an unregister line after which nobody is left, of a human, a bot or nobody: which reason it stores, if any, and when the lobby is published as idle |
| Causes.LastHumanLeaves | internal/lobby/scan.go:221-234 | when the last human leaves, the lobby ends if and only if something was changed in it and restarts are on, as the desired status asks or else as idle; otherwise it publishes that it is idle |
| Causes.TimeoutMeansIdle | internal/lobby/watch.go:46-74 | a timeout means that more than its length, less 50 µs, had passed since the last flush and the last tick that wanted the lobby up |
| Causes.IdleMeansTimeout | internal/lobby/watch.go:46-80 | an empty, quiet lobby is ended by the first tick more than 50 µs beyond the timeout |
| Admin.LedSinceFlush | internal/lobby/scan.go:192-219 | at every moment without a match there was none since the latest flush, and the same admin led: a new admin's time starts anew |
| Admin.FlushAtClock | internal/lobby/collect.go:16-19 | the time of an idle lobby is the clock of that flush |
| Admin.AdminTimeoutMeansLed | internal/lobby/watch.go:64-71 | an admin timeout means that the admin had led, without a match, for more than its length, less 50 µs |
| Admin.LedMeansAdminTimeout | internal/lobby/watch.go:64-80 | humans in an idle lobby that nothing forces to end are sent away by the first tick more than 50 µs beyond it |
| Deadline.CancelledInTime | internal/lobby/watch.go:22-80 | with ticks no more than a period apart a watched lobby without a match that nothing disturbs is cancelled within its limit, 50 µs and one period of its last activity: the admin's timeout with humans, the timeout without; with a cause, unless the watcher left at a closed `done` before |
| Deadline.StaysIdle | internal/lobby/scan.go:192-225 | without a flush no match begins, the first human does not come, the last does not go, and the last activity stays |
| Deadline.RunLeaves | internal/lobby/watch.go:38-48 | the watcher is gone only when a reason is stored |
| Deadline.CauseStays | internal/lobby/lobby.go:113-123 | no step replaces a stored cause |
| Watcher.AdminTimeoutBounds | internal/lobby/watch.go:54-74 | both sides of the admin's timeout, rounding included |
| Watcher.Period | internal/lobby/watch.go:22-32 | the tick's period lies between 200 ms and 1 s and is no longer than a timeout above that floor |
| Watcher.PeriodIsLongest | internal/lobby/watch.go:22-32 | and is the longest that a second and both timeouts allow |
| Watcher.OutcomeIsFirst | internal/lobby/watch.go:36-81 | the loop returns with what the first tick raises that raises anything, or with nothing if `done` is found closed before |
| Watcher.RaisesOnlyWhenAllowed | internal/lobby/watch.go:55-80 | which reasons a tick can raise in a match, with humans, and in an empty lobby |
| Watcher.TimeoutBounds | internal/lobby/watch.go:54-74 | both sides of the timeout, rounding included |
| Watcher.Watcher.Tick | internal/lobby/watch.go:46-80 | the body of the loop: activity, and what it raises |
| Watcher.Watcher.Watch | internal/lobby/watch.go:33-81 | the loop ends with the first tick that raises something, or when `done` is closed |
| GoTime.Sub | internal/lobby/watch.go:54 | the difference of two instants stays in the range of a duration |
| GoTime.RoundNearest | internal/lobby/watch.go:54 | rounding moves a duration by half a unit at most, to a multiple, and saturates |
| GoTime.RoundHalfAway | internal/lobby/watch.go:54 | an exact half is rounded away from zero |
| ShutdownProofs.InitInv | internal/lobby/lobby.go:262-270 | what holds between any two steps holds when the goroutines are started |
| ShutdownProofs.StepInv | internal/lobby/lobby.go:257-283 | every step of every goroutine keeps the count of the wait group, the order and bound of the queue, the conservation of matches, the closing order and the first cause |
| ShutdownProofs.NoSendAfterClose | internal/lobby/scan.go:259-273 | nothing is sent on the closed match channel, and it is closed once |
| ShutdownProofs.ColConserves | internal/lobby/collect.go:36-78 | each received match is with exactly one collector, being written or finished |
| ShutdownProofs.OfferKeeps | internal/lobby/collect.go:26-32 | offered is sent plus dropped, and at most ten wait |
| ShutdownProofs.StepsDecrease | internal/lobby/lobby.go:271-282 | once the child is gone every step taken brings the end nearer |
| ShutdownProofs.DueMay | internal/lobby/lobby.go:262-282 | a goroutine that waits for nobody has a step |
| ShutdownProofs.DueActor | internal/lobby/lobby.go:262-282 | until `runc` returns, somebody waits for nobody: there is no deadlock |
| ShutdownProofs.RunInv | internal/lobby/lobby.go:257-283 | the invariant holds at every moment of every interleaving |
| ShutdownProofs.RunReturns | internal/lobby/lobby.go:257-283 | from any such moment after the child ended, every fair interleaving reaches the return |
| ShutdownProofs.ReturnedIsDone | internal/lobby/lobby.go:271-282 | at the return all five goroutines are gone, each match sent was finished by exactly one collector, offered is finished plus dropped, Done is told only if a scanner gave up, and the answer is the first cause of all calls before the exit's report, or else the exit's error, or else Done or nothing |
| ShutdownProofs.EveryFairRunEnds | internal/lobby/lobby.go:257-283 | every fair interleaving in which the child ends comes to such a return, with such an answer |
| ShutdownProofs.RunAnswers | internal/lobby/lobby.go:277-282 | over every interleaving, from the report on, `runc` returns the first cause of all calls before the report, or else the exit's error, or else Done if there were calls, or nothing |
| Reports.StepCalls | internal/lobby/lobby.go:257-283 | every goroutine reports what it is to report: a line's reason, a file not written, a raised verdict, the exit, and Done |
| Reports.EverybodyReportsDone | internal/lobby/lobby.go:265-274 | at the return everybody has reported Done once: the caller, two scanners, the collectors if matches are logged, the watcher if there is one |
| Reports.PipesAreClosed | internal/lobby/lobby.go:271-273 | at the return both ends of both pipes are closed |
| Reports.GaveUpIff | internal/lobby/scan.go:271-286 | a scanner counts as having given up if and only if one did |
| Reports.ScanningGoesOn | internal/lobby/scan.go:273-283 | a scanner goes on after each line, and stops at the end of its pipe or by giving up |
| Reports.EnvironmentIsFree | internal/lobby/lobby.go:257-283 | nothing that the child, a line or the exit can do is forbidden |
| Signals.ToldUnlessCausedBefore | internal/lobby/lobby.go:113-141 | over every interleaving a living child of a lobby with a reason to end has been signalled if and only if no cause was stored before its start |
| Signals.StepFits | internal/lobby/lobby.go:128-142 | each step keeps that, and signals go to a running child alone |
| Signals.UnwatchedWithoutCause | internal/lobby/watch.go:38-48 | over every interleaving, while the child lives a started watcher is gone without a cause if and only if a scanner gave up and nobody called a cause |
| Whole.EveryGroupIsWritten | internal/lobby/lobby.go:257-283 | in every fair interleaving fed with a lobby's output, each group of the lines read is finished by exactly one collector or was dropped, and all lines are read unless a scanner gave up |
| Whole.RunTracks | internal/lobby/scan.go:253-287 | at every moment what was offered is what the lobby tried to hand over with the lines read so far, and the pipe holds the rest |
| Whole.EndOffers | internal/lobby/scan.go:261-263 | the scanner's last offer completes the groups |
| Whole.RunDrains | internal/lobby/scan.go:271-286 | a scanner that did not give up leaves no line in its pipe |
| Whole.DroppedOnFull | internal/lobby/collect.go:27-32 | a match is dropped only while ten wait |
| Effects.LineIsEffect | internal/lobby/scan.go:77-251 | what a line does to the channel and the reason is one atomic line of the goroutine model |
| Effects.FinishIsEffect | internal/lobby/scan.go:256-263 | so is the end of the output |
| Effects.SecondReasonLost | internal/lobby/scan.go:214-233 | of two reasons in one line the second is never kept |
| Supervisor.Judge | public/lobby/lobby.go:79-117 | the failures after a run, whether to return and with what, and the pause |
| Supervisor.Run | public/lobby/lobby.go:72-127 | the number of runs, the result and the pauses for whatever the environment lets happen |
| Supervisor.Pause | public/lobby/lobby.go:94-120 | a pause is taken after a timely end that was too soon, and then is longer than nothing |
| Supervisor.ErrorsMean | public/lobby/lobby.go:79-83 | which errors end the loop, and which are timely |
| Supervisor.ResultIs | public/lobby/lobby.go:84-110 | the loop returns the last run's error, or too many failures for a run without one, unless none was allowed |
| Supervisor.HealthyIs | public/lobby/lobby.go:93-100 | healthy is a timely run of fifteen seconds, up to half a millisecond |
| Supervisor.FailsBelowLimit | public/lobby/lobby.go:84-110 | at the loop's head the runs since the last healthy one are fewer than the limit; with none allowed there is one run at most |
| Supervisor.HealthyInEveryWindow | public/lobby/lobby.go:84-110 | any `MaxFails` runs in a row that were followed by another include a healthy one |
| Supervisor.TimelyTakesFloor | public/lobby/lobby.go:93-120 | a timely run and its pause take 15 s less half a millisecond |
| Supervisor.WindowSpan | public/lobby/lobby.go:72-127 | any `MaxFails` consecutive runs that were followed by another span that long |
| Supervisor.RestartRate | public/lobby/lobby.go:72-127 | over a whole life `n` times as many runs take `n` times as long |
| Events.LockNames | internal/watch/watch.go:26-33 | each locked name becomes a creation of the real one, in place; nil stays nil |
| Events.LastNames | internal/watch/watch.go:35-42 | the creations behind `last` names are appended; nil stays nil |
| Events.SameNames | internal/watch/watch.go:44-54 | in whatever order the map is walked: one event a name, with all its operations; nil stays nil |
| Events.CollectNames | internal/watch/watch.go:45-48 | the map holds for each name the union of its operations |
| Events.SpreadDigest | internal/watch/watch.go:26-54 | after the three filters: each name once, exactly the names concerned by the input, each operation if and only if some input brought it |
| Events.Pipeline | internal/lobby/spec.go:205 | the three filters in the order in which they are passed |
| Events.LockIsCreation | internal/watch/watch.go:26-33 | news of a locked file is the creation of the real one |
| Events.LastIsCreation | internal/watch/watch.go:35-42 | news of a removed file is that, and the creation of its own name |
| Batches.DirWatch.constructor | internal/watch/watch.go:149-172 | the files found first are the first batch |
| Batches.DirWatch.Wrap | internal/watch/watch.go:158-170 | exactly these applications, in this order: what waits if anything does, the error if there is one, the end if it is one |
| Batches.DirWatch.Note | internal/watch/watch.go:198-210 | an event below the root waits under its aliased name, with the ticker running; any other is dropped |
| Batches.ArrivalIs | internal/watch/watch.go:198-210 | the name of an event is its path below the root, by the directory's alias, and from any other directory it is none |
| Batches.WrappedOrder | internal/watch/watch.go:158-170 | what waits is handed over first, then the error, and the end comes last |
| Batches.WhatEnds | internal/watch/watch.go:183-197 | the watch ends when a channel closes or the context is done |
| Batches.DirWatch.Turn | internal/watch/watch.go:178-211 | after each turn nothing is lost, delivered twice or out of order; errors too; exactly the applications of one `wrap`, or none for an event; what waits has a tick coming; no empty batch |
| Batches.DirWatch.Run | internal/watch/watch.go:174-212 | once the loop has ended everything that arrived was delivered, in order, before the one last application |
| SpecFiles.AppliedReflects | internal/lobby/spec.go:152-213 | after a batch of different names each named field reflects its file and no other has changed |
| SpecFiles.Confluent | internal/lobby/spec.go:205-218 | in whatever order a batch's names come the status is the same |
| SpecFiles.FieldsDiffer | internal/lobby/spec.go:154-191 | different files set different fields |
| SpecFiles.SpecWatch.Update | internal/lobby/spec.go:152-204 | empty restores, a lone newline means now, anything else is decoded or ignored |
| SpecFiles.SpecWatch.Callback | internal/lobby/spec.go:206-218 | a batch is read in its order; the end restores; an error changes nothing |
| SpecFiles.SpecWatch.Apply | internal/watch/watch.go:150-157 | the filters one after the other: every field concerned by the batch, through `.lock` and `last` names too, is what its file means: captured for none or an empty one, the clock for a lone newline, the decoded body, or unchanged if that sets nothing; no other field has changed; the end restores |
| SpecFiles.FieldShowsLastRead | internal/lobby/spec.go:206-213 | over any applications a field is what its file meant when it was last news, in those terms |
| SpecFiles.EndRestores | internal/lobby/spec.go:214-216 | after the last application the status is the captured one |
| Log.Uptime | internal/log/log.go:39-74 | appending while the duration shrinks writes the text of the specification |
| Log.TextLength | internal/log/log.go:39-74 | the exact length for every reading of the clock |
| Log.FifteenUnless | internal/log/log.go:39-74 | below two million hours there are fifteen characters if and only if seconds below ten behind another field do not round up to ten; below ten minutes always |
| Log.ShownIs | internal/log/log.go:40-44 | after a million hours the count starts again, once |
| Log.OneText | internal/log/log.go:39-74 | for one duration, the text itself |
| Log.OverflowsWhen | internal/log/log.go:61-71 | they do if and only if ten minutes or more are shown and half a last place or less is missing to ten seconds |
| Log.SixteenOnce | internal/log/log.go:61-71 | a concrete duration that takes sixteen |
| Log.TextReadsBack | internal/log/log.go:39-74 | the text reads back as the time shown, to half of its last place, exactly below ten minutes |
| Log.TextReads | internal/log/log.go:39-74 | hours, minutes, seconds and places as read from the text |
| Log.NearestBounds | internal/log/log.go:70 | rounding goes to the nearest and never past a whole number of units |
| LogWriter.Logv | internal/log/log.go:102-132 | all that is written, whether in one write or several, is header, slices and line end; earlier writes stay; what fits takes one write, and otherwise header, slices and line end are written one by one |
| LogWriter.Send | internal/log/log.go:109-131 | the three ways out after the header |
| LogWriter.SendWhole | internal/log/log.go:113-118 | the fast way: one write of header, message and line end |
| LogWriter.SendParts | internal/log/log.go:119-131 | the slow way: the same bytes in several writes |
| LogWriter.PutTime | internal/log/log.go:103-108 | the time fills its fifteen places and no more |
| LogWriter.WriteSlices | internal/log/log.go:124-128 | the slices in order, empty ones left out |
| LogWriter.FitsIs | internal/log/log.go:109-118 | one write is enough for no slice, or for one of 1 to 1004 bytes |
| LogWriter.HeaderIs | internal/log/log.go:103-108 | two letters, a space, the time and a space; nothing for the bare line |
| LogWriter.EndIs | internal/log/log.go:129-131 | a line is ended unless a nil slice comes last |
| LogWriter.Continued | internal/log/log.go:32-33 | a line left open by a nil slice and taken up without header reads like one line |
| LogWriter.Aligned | internal/log/log.go:102-123 | the message starts behind nineteen bytes |
| LogWriter.StampIsText | internal/log/log.go:107 | the time in the header is whole, or lacks its unit exactly in the one overflow |
| Witnesses.CutFrameIsRewritten | hack/preload.c:96-111 | a packet whose last byte begins a frame: what is behind it is overwritten |
| Witnesses.HeaderIsOverwritten | hack/preload.c:81 | addresses of 9, 9 and 17 bytes: the second frame's header is broken |
| Witnesses.NamelessIsPublished | internal/lobby/scan.go:134-147 | one update without an id: a match is published that is not there |
| Witnesses.LastHumanLeavesIdle | internal/lobby/scan.go:221-227 | one human comes and goes: the lobby stays, idle |
| Witnesses.UnreadableIdHasTwoDates | internal/lobby/scan.go:134-152 | one match with an unreadable id seen twice: two dates |
| Witnesses.ReadableIdHasOneDate | internal/lobby/scan.go:143-154 | one match with a readable id seen twice: one date |
| Witnesses.KillIsKnown | internal/lobby/scan.go:116-118 | a line that starts with a shooter is a kill |
| Witnesses.UpdateIsKnown | internal/lobby/scan.go:119-121 | a line that starts with a match is an update |
| Witnesses.DoneIsReturned | internal/lobby/lobby.go:274-282 | the steps after which `runc` returns Done |
| Witnesses.UnwatchedChild | internal/lobby/watch.go:38-48 | the steps after which the child lives, unwatched and without a cause |
| Witnesses.CutIsLonger | internal/lobby/scan.go:35-42 | a JSON line of 79 bytes is logged in 80 |
| Witnesses.BotEndsLobby | internal/lobby/scan.go:203-233 | one bot comes and goes: the lobby ends |
| Witnesses.NeverTold | internal/lobby/lobby.go:118-128 | the steps after which the child lives and is never told to stop |

## Left out

What the model takes as given, or does not capture:

- Operating system and process calls: starting, signalling and reaping the child, pipes and their sizes, the PID files. The child's exit and the end of its output are steps of the environment, and the end of the output is assumed to follow once all write ends are closed.
- How a pipe's bytes become lines (`bufio.Scanner`): a scanner gets lines, and may give up at one that is too long. `bytes.TrimSpace` is a parameter that never lengthens a text.
- JSON, `time.Parse`, gzip, extended attributes and file names: decoding is a parameter (a value, or nothing), the rest is not modelled.
- I/O errors of files and directories: a status directory and the watched files are maps, and writing them succeeds. A match file that cannot be written is modelled as the report it causes.
- Finding the directories to watch: `Watch` starts from a given map of watched directories; symbolic links are only the aliases in it.
- `public/options/lobby.go`, `public/cmd`, `cmd`, shell scripts and service files: options are fixed for a run.
- The collectors' changes to a match (`Normalize`, `Anonymize`): a match is a value here, so the sharing of the object between scanner and collector is not captured.
- Go's data races: a tick and a line are each one atomic step, so the watcher's unlocked reads of the match and the status fall between lines. A line reads the clock once, and so does `alloc` for the match's time and the start.
- The backing arrays of event slices: batches are values, so a filter that kept its argument after returning is not captured.
- The goroutine that copies output to a second file in debug mode, and the formatting in front of `Logv` (`Logf` and its callers).
- The restart loop's own files and log lines, and `Lobby.Uptime`: a run is the error it ends with and the clock around it.
- `select` among several ready channels: any may be taken, and fairness is an assumption of the theorems that need it.
- The status files `session` and `up`: written and removed by the same operations, but no invariant mentions them.
- Fields and calls on a nil `Spec` or nil `Lobby`, which only guard against misuse.
- Preload.Hook.Send: requires as much memory behind the buffer as `memcmp` may read from a start below the buffer's end; what the next `send` does with the buffer is not modelled.
- Stat.StatDir.SetStat: does not write the PID files for `up` and `idle`, which are outside the status directory.
- Stat.StatDir.RemStat: does not write the PID file for `idle`, likewise.
- Deadline.CancelledInTime: like Causes.IdleMeansTimeout, is for timeouts at least 100 µs below the largest duration.
- Admin.LedMeansAdminTimeout: likewise for admin timeouts.
- Watcher.Watcher.Watch: takes the match's time at the start as its first activity, as it is before any line is read.
- Log.Uptime: takes as a parameter which way an exact half of the last place is rounded, because it is a binary fraction that is printed; readings of the clock do not go back before the program's start.
- Causes.IdleMeansTimeout: is for timeouts at least 100 µs below the largest duration, beyond which the rounded time cannot exceed them.
