# Dockhand: a verified model

Dockhand runs configured shell operations on a host, keeps their history, counts system updates, upgrades containers
and writes detected versions back into its own configuration file. This project models the parts of it that are
protocols or transformations, and proves what they keep in every run.

Verify everything with `dafny verify dfyconfig.toml`.

## How it is organised

| file | models |
|---|---|
| `Strings.dfy` | splitting, joining and trimming of text, shared by the others |
| `Output.dfy` | the capture buffer and truncation to whole lines |
| `VersionText.dfy` | the last non-blank line, which is read as a version or a count |
| `Utf8.dfy` | encoding, and the decoder of the WHATWG Encoding Standard |
| `Sse.dfy` | the event-stream writer, and a parser after sections 9.2.5 and 9.2.6 of the WHATWG HTML Standard |
| `History.dfy` | the history table with its three statements and three listings, next to a log that is never pruned |
| `Availability.dfy` | when a listing fails, and when it must |
| `Limits.dfy` | the app history at its default limit, which is larger than what pruning keeps |
| `Config.dfy` | defaults, the promotion of legacy operations to apps, the update interval, and the job a run executes |
| `Runner.dfy` | the runner's tables and each section that holds its mutex |
| `Execution.dfy` | one whole `Run` or `RunApp` when nothing else happens |
| `RunnerProtocol.dfy` | runs, cancels, reloads and write-backs in every interleaving |
| `RunnerSteps.dfy` | the same behaviours told by their steps: what a listed record says about the run it stands for |
| `SysUpdate.dfy` | the update tracker, the version cache, the apt check and one whole check |
| `SysUpdateProtocol.dfy` | forced, unforced and freeform checks in every interleaving |
| `Yaml.dfy` | YAML documents as trees: look-ups, changes at a path, what survives printing |
| `YamlNodes.dfy` | the same documents as linked nodes that are changed in place |
| `Writer.dfy` | the configuration file: write-backs, token removal, the watcher's poll |
| `Loading.dfy` | whether the file can still be loaded after a write-back |
| `WriteBack.dfy` | write-backs, polls and reloads after the last external edit, in every interleaving |
| `OwnWrites.dfy` | which own writes the watcher skips, told from the positions of the steps |
| `ClearRace.dfy` | the removal of the enrollment token among write-backs |
| `Daemon.dfy` | the Docker daemon: containers with unique names, and calls that may fail |
| `Upgrade.dfy` | the standalone upgrade with its compensations |

Code that changes state is a class or a method, proved against functions on values; what the source promises is then
proved about those functions. Code that other goroutines can interleave with is also a transition system: one step is one
section under a lock, one statement, or one action between them, and the steps use the same functions as the methods.

## Main results

**Upgrade.** A daemon call can fail at any point, compensations included, and a failed call may still have taken effect.
In every state on the way the old container is there with its configuration or a replacement made from it runs, and no
other container is touched (`Upgrade.EveryStateIsSafe`). When errors mean that nothing happened, the initial state is
restored if and only if every compensation succeeds (`Upgrade.RollbackIsExact`). The restored container runs, even if it
was stopped before the upgrade. After a success the container under the original name runs with the old configuration, on
the old networks with the same IPAM configuration, links and aliases (`Upgrade.SuccessIsReplacement`).

**History.** Over any sequence of inserts, updates and prunes, and for every way of breaking ties between equal start
times, a listing of up to 50 rows cannot tell the pruned table from a log that keeps everything (`History.AnswersAgree`).
For any limit and any of the three listings, they agree if and only if every pruned row is outranked by as many rows left
as the limit says (`History.AnswersAgreeIff`). The app history asks for 100 rows unless told otherwise, and after 51 runs of
one app operation it differs (`Limits.DefaultAppListingDiffers`).

What a listing shows of a run is what happened to that run: in every behaviour its record has the run's own key, the times
of its start and finish, the exit code of its own exit, and the stored form of a merge of its own two streams
(`RunnerSteps.ListedRunIsShown`, with `History.AnswerIsNewest` for which rows are listed).

A listing fails when a selected row has no output. It can fail if and only if a matching row without output has fewer
newer ones than the limit, and fails for sure if and only if the rows with output of the same second do not fill it
either (`Availability.SomeAnswerFailsIff`, `Availability.EveryAnswerFailsIff`). The rows without output are exactly those of
runs between insert and update, those of runs whose command never started or whose update failed, and those that earlier
processes left so (`RunnerProtocol.RowsWithoutOutput`). Only the first kind goes away by itself: after a failed start, a
failed update or a crash, the listings that select such a row fail until enough newer rows are there.
`RunnerProtocol.ListingFailsIff` puts the two together, and `RunnerProtocol.StartingRunHidesHistory` is a run of the system in
which a listing fails.

**Runner.** A process starts on the history that earlier ones left, with rows of runs that crashed. `RunnerProtocol.Reachable`
keeps eight invariants in every reachable state. From them: one holder per slot, a cancel hits exactly that holder, every
finished command has its own final row, rows of one name are in order and do not overlap, across restarts too
(`RowsOfOneNameAreOrdered`, `RestartKeepsOrder`), and a reload never changes a run under way. The documentation lets a
cancel stop a running operation; the code refuses it for a run that has its slot but has not yet registered its cancel
function, and `CancelHitsTheHolder` says exactly when. What is executed is what was configured at the look-up
(`RunnerSteps.RunsAreLookUps`), and a failed command is never recorded as a success (`Execution.Run`). Two app operations share a slot and a history name if and only if
one app name goes on, after a colon, with the start of the other operation's name (`Runner.AppKeysCollideIff`).

**System updates.** The count that users see is the last one recorded, whatever the order in which checks publish it, unless
an operation or app is named so that its version is cached under a count key. It is wrong exactly while no count was
recorded and the last such version is at most 20 minutes old and reads as a number other than zero
(`SysUpdateProtocol.CountIsWrongIff`, with a witness in `VersionReadAsCount`). Unforced checks of one app are at least 15
minutes apart in every run. A freeform check succeeds if and only if the last non-blank line of the output is a sign, zeros
and the digits of a 64-bit number (`SysUpdate.AtoiIff`), so that a broken command never counts as no updates.

**Write-backs.** Every version is written at most once after the last external edit, and reloads are bounded by the
writes, in every interleaving, if and only if every entry is missing or a mapping whose version is absent or a scalar
(`WriteBack.SettlesExactlyIfAllGood`).

The watcher is documented to skip own writes. When write times are fresh, it skips one if and only if, when it compares
its time, that write is the last one recorded (`OwnWrites.ComparisonReloadsIff`, and for whole runs
`OwnWrites.OwnWritesAreSkippedIff`). So there are three ways in which it reloads on an own write: it reads the time after the
rename and compares before the recording (`WriteBack.OwnWriteReloads`), another write is recorded between its reading and its
comparison (`OwnWrites.OvertakenWriteReloads`), or the time could not be read and was never recorded
(`OwnWrites.UnrecordedWriteReloads`).

The removal of the enrollment token does not take the lock of the write-backs. A token that was there is gone at the end if
and only if it was there once and no write-back reads before the removal's write and renames after it
(`ClearRace.TokenIsGoneIff`; one that comes back is in `ClearRace.TokenComesBack`). A version that was written is missing at
the end if and only if it was last written between the removal's read and its write, and no such write-back brings it back
(`ClearRace.WrittenVersionIsLostIff`).

A version that is changed keeps the tag of the old one. A file that can be loaded can still be loaded after a write-back to
an entry that takes one if and only if the entry had no version, or the tag of that version accepts the new one (`Loading.WriteStaysLoadableIff`). An
unquoted 1.5 that becomes 1.5.1 does not (`Loading.FloatVersionBreaks`).

**Text and trees.** A client that decodes and parses the event stream by the standards receives what was sent if and only if
event names are non-empty and have no line break, data has no carriage return, and both are well-formed UTF-8
(`Sse.RoundTrip`). The parser is tied to a reference reading of the standard (`Sse.BlockIsDispatched`), and the decoder marks
every fault (`Utf8.FaultsAreMarked`). Stored output is everything, or the marker and the longest run of whole final lines below the cap
(`Output.StoredOutput`). The marker comes on top: what is stored exceeds the 64 KiB if and only if something was cut and
the kept lines leave less room than the marker needs (`Output.StoredOutputExceedsTheCapIff`). Version writes to different
entries commute with each other and, done one after the other, with the removal of the enrollment token
(`Writer.WritesCommute`, `Writer.WriteAndClearCommute`).

## Reading the model

- In `Output`, `History`, `Execution`, `RunnerProtocol` and on the sending side of `Sse`, a `char` stands for a byte. In
  `VersionText`, `SysUpdate`, `Config`, `Yaml` and `Writer`, and on the receiving side of `Sse`, it stands for a code point of
  well-formed UTF-8, and elsewhere either reading will do. White space is trimmed by code points, as Go does.
- Times are integers; the history keeps whole seconds, the tracker nanoseconds, and 0 is Go's zero time. The clock never
  goes back, except where a time is an arbitrary parameter (file times).
- Ids are datatypes over numbers. Integers are unbounded; `Config.Wrap64` is the 64-bit overflow of a configured timeout
  in seconds turned into nanoseconds.
- What the outside world does is a parameter: whether a statement, a call or a disk operation succeeds, what a command prints,
  and what time it is.
- A map is iterated in any order, as in Go.

## Model

The theorems come first, component by component, then the methods that they are about.

| member | source | states |
|---|---|---|
| `Upgrade.EveryStateIsSafe` | internal/docker/upgrade.go:98-167 | after each daemon call of an upgrade, whatever failed and even if failed calls took effect: the old container exists with its configuration or a replacement made from it runs, all others are unchanged, names are unique; after a failure the old one bears its own or the backup name |
| `Upgrade.RollbackIsExact` | internal/docker/upgrade.go:130-154 | if errors mean no effect, a failed upgrade restores the initial containers, with the old one running, if and only if all compensations succeed; a failure up to the stop changes nothing |
| `Upgrade.SuccessIsReplacement` | internal/docker/upgrade.go:119-166 | a successful upgrade ends in one of two states: the old container is gone or, if its removal failed, stopped under the backup name; in both the container under the original name runs with the old configuration and host configuration, on the old networks with the same IPAM configuration, links and aliases |
| `Daemon.EffectKeepsNamesUnique` | internal/docker/upgrade.go:130-157 | no call the daemon accepts makes two containers share a name |
| `Daemon.RunKeepsNamesUnique` | internal/docker/upgrade.go:119-157 | names stay unique through any sequence of calls that may fail with or without effect |
| `History.AnswersAgree` | internal/operations/history.go:64-225 | after any sequence of statements, the records listed with a limit up to 50 from the pruned table and from the full log have the same start times whenever both listings succeed, and the answers are identical, errors included, when start times are distinct |
| `History.AnswersAgreeIff` | internal/operations/history.go:64-225 | the same for the records of two listings that succeed, with any limit |
| `History.AnswerIsNewest` | internal/operations/history.go:85-211 | a successful listing, without reference to selections: different rows, each shown with its own name, times, exit code and output, newest first, at most `n`; a row that the filter wants is missing only if the listing is full of rows that did not start before it |
| `History.ListingsAgreeIff` | internal/operations/history.go:85-211 | for any filter, any limit, any ties and any rows missing from a table, a selection shows the same start times as from the full one if and only if each missing row is outranked by as many rows left as the limit says |
| `History.RunListingsAgreeIff` | internal/operations/history.go:64-225 | that condition after any sequence of inserts, updates and prunes, against the log that is never pruned |
| `History.RunListingsAgree` | internal/operations/history.go:64-225 | after any sequence of statements, any two selections with limit up to 50, one on the pruned table and one on the full log, have the same start times, and the rows selected are unchanged rows of the log |
| `History.RunRefines` | internal/operations/history.go:64-225 | the pruned table refines the log over every executable sequence of statements |
| `History.StatementRefines` | internal/operations/history.go:64-225 | each statement keeps the refinement |
| `History.ListingRefines` | internal/operations/history.go:85-211 | every answer on the pruned table is an answer on the log |
| `History.ListingsAgree` | internal/operations/history.go:85-211 | start times agree for limits up to 50, rows too if no start time repeats |
| `History.LargerLimitsAgreeIff` | internal/operations/history.go:85-126 | the case of one name right after a prune: a listing agrees with the log exactly if the limit is at most 50 or the name never had more than 50 rows |
| `History.PruneKeeps` | internal/operations/history.go:214-225 | at most 50 rows of the name stay, exactly the selected ones; other names are untouched |
| `History.TopStartsUnique` | internal/operations/history.go:93-97 | the start times of a selection do not depend on how ties are broken |
| `History.TopUnique` | internal/operations/history.go:93-97 | with distinct start times the selection itself is unique |
| `Limits.DefaultAppListingDiffers` | internal/api/handlers/operations.go:328-335 | so does the app history at the limit that it has by default |
| `Limits.LongListingDiffers` | internal/operations/history.go:171-225 | 51 runs of a name, pruned: every listing of more than 50 rows that the name is in differs from the log |
| `Availability.SomeAnswerFailsIff` | internal/operations/history.go:85-126 | for any filter and limit, ties broken in any way: some answer of a listing is an error if and only if a matching row without output has fewer strictly newer matching rows than the limit |
| `Availability.EveryAnswerFailsIff` | internal/operations/history.go:85-126 | every answer is an error if and only if, for such a row, the newer rows and the rows with output of its own second together are fewer than the limit |
| `RunnerProtocol.ListingFailsIff` | internal/operations/runner.go:500-517 | in every reachable state, whether a listing can fail and whether it must, in terms of those runs and the number of newer rows |
| `RunnerProtocol.RowsWithoutOutput` | internal/operations/runner.go:358-464 | in every behaviour a row has no output if and only if it belongs to a run between insert and update, to a run whose command never started or whose update failed, or was found so at the start |
| `RunnerProtocol.Reachable` | internal/operations/runner.go:344-491 | slots, cancels, each run's output and phase, rows, time order, configuration and the rows of earlier processes are consistent in every state of every behaviour, from any history found at the start |
| `RunnerProtocol.CancelHitsTheHolder` | internal/operations/runner.go:521-530 | in every reachable state a cancel succeeds exactly while the holder of the slot is registered, cancels that run and changes nothing else |
| `RunnerProtocol.CancelledByOwnRequest` | internal/operations/runner.go:379-387 | in every behaviour a run becomes cancelled only by a request for its own slot while it is registered, so never by an earlier one |
| `RunnerProtocol.CancelOfFreeSlot` | internal/operations/runner.go:521-530 | in every reachable state a cancel of a free slot is refused and changes nothing |
| `RunnerProtocol.FreeSlotHistory` | internal/operations/runner.go:410-464 | in every behaviour, whatever history was found at the start: while history writes succeed, whenever a slot is free each command started in it was updated and has its own row in the log with its own times, exit code and stored output, which is what the table holds unless the row was pruned |
| `RunnerProtocol.RowsOfOneNameAreOrdered` | internal/operations/runner.go:358-464 | in every reachable state: if legacy names have no colon and the rows found at the start were in order and past, all rows of one history name, old and new, are in order of id: start times ascend, and a finished row is over before the next starts |
| `RunnerProtocol.RestartKeepsOrder` | internal/operations/history.go:43-56 | what a process leaves in the database whenever it ends is a history that the next one can start with, with the rows of each name still in order |
| `RunnerProtocol.IntervalsDoNotOverlap` | internal/operations/runner.go:358-464 | in every reachable state: of two runs of one slot with rows, the earlier row starts no later, and if it is finished, finishes before the later one starts |
| `RunnerProtocol.AppHistoryIsAppRuns` | internal/operations/runner.go:638-640 | in every reachable state the app history ranks exactly the rows of app runs of this and earlier processes if and only if no legacy operation with a row has a colon in its name |
| `RunnerProtocol.ExecutesWhatItLookedUp` | internal/operations/runner.go:345-406 | whatever is reloaded meanwhile, a command that starts is the one its run looked up |
| `RunnerProtocol.KnownOperations` | internal/operations/runner.go:534-540 | in every reachable state a loaded operation is looked up as a job with its command, its directory or "/", its limit or five minutes, and its detachment; a name that only a late write-back brought back is looked up as an empty command in "/" for five minutes; nothing else can be run |
| `RunnerProtocol.KnownAppOperations` | internal/operations/runner.go:542-547 | the same for loaded app operations; a late write-back revives none |
| `RunnerProtocol.LoadedOperationsAreKept` | internal/operations/runner.go:106-110 | in every reachable state each loaded operation is stored unchanged but for its version, and any other key is one written back late, with a zero entry but for its version |
| `RunnerProtocol.LoadedAppsAreKept` | internal/operations/runner.go:150-154 | the same for apps |
| `RunnerProtocol.UpdatesDoNotFail` | internal/operations/runner.go:461-464 | while history writes succeed no run is of the kind whose update failed |
| `RunnerProtocol.DoneRunsStayDone` | internal/operations/runner.go:410-421 | a run that is over never changes, so a row that it left without output stays without |
| `RunnerProtocol.StartingRunHidesHistory` | internal/operations/runner.go:345-359 | a behaviour in which, for any name and limit, every answer of the listing of that name is an error: a first run has just inserted its row |
| `RunnerSteps.ListedRunIsShown` | internal/operations/runner.go:358-464 | in every behaviour, a successful listing shows of each run whose update succeeded: its own key, the times at which it was stamped and finished, the exit code of its own exit, and the stored form, with the cap of 65536 bytes, of a merge of its own two streams |
| `RunnerSteps.RunsAreTold` | internal/operations/runner.go:358-464 | in every behaviour each field of a run was put there by a step of that run: start, streams, exit code and finish |
| `RunnerSteps.ActionsLast` | internal/operations/runner.go:358-464 | and what a step put there is never changed by any later step of the system |
| `RunnerSteps.RunsAreLookUps` | internal/operations/runner.go:344-406 | a run holds the slot of the name that was looked up, and what it executes is what the configuration said at that moment: command, directory or "/", limit or five minutes, and detachment |
| `RunnerSteps.AppRunsAreLookUps` | internal/operations/runner.go:643-715 | the same for an app operation |
| `RunnerSteps.OperationsAreReloaded` | internal/operations/runner.go:534-540 | until the next reload every operation is what the last one said, unless its version was written back |
| `RunnerSteps.VersionIsTheLastWritten` | internal/operations/runner.go:100-111 | and then its version is the last one written |
| `RunnerSteps.AppsAreReloaded` | internal/operations/runner.go:542-547 | the same for apps |
| `RunnerSteps.AppVersionIsTheLastWritten` | internal/operations/runner.go:144-155 | the same for apps |
| `Runner.AppKeysCollideIff` | internal/operations/runner.go:656 | two different app operations have the same key if and only if one app name goes on, after a colon, with the start of the other operation's name |
| `Runner.AppKeyInjective` | internal/operations/runner.go:656 | app names without a colon make the key unambiguous, whatever the operation names are |
| `Runner.AppKeyIsSharedIff` | internal/operations/runner.go:656 | some other app operation would have the same key if and only if the app name or the operation name has a colon |
| `Runner.AppKeyCollision` | internal/operations/runner.go:656 | two app operations with the same key |
| `Execution.SectionsFreeSlot` | internal/operations/runner.go:350-387 | taking, registering and releasing leave every other slot as it was and this one free |
| `WriteBack.SettlesExactlyIfAllGood` | internal/config/writer.go:77-108 | after the last external edit, every run writes at most once per entry if and only if each entry is missing or a mapping whose version is absent or a scalar |
| `WriteBack.Converges` | internal/config/watcher.go:25-41 | then no entry is written twice, and reloads number at most one plus the writes, plus one if a poll was under way at the edit, for every interleaving, file times and failures |
| `WriteBack.NeverSettles` | internal/config/writer.go:77-108 | otherwise there are runs with any number of writes and reloads |
| `WriteBack.OwnWriteReloads` | internal/config/writer.go:101-106 | a poll between rename and recording reloads on an own write |
| `OwnWrites.OwnWritesAreSkippedIff` | internal/config/watcher.go:32-36 | a run never reloads on an own write if and only if it has no such positions |
| `OwnWrites.ComparisonReloadsIff` | internal/config/watcher.go:29-40 | a comparison with the time of an own write reloads if and only if that write is not the last one recorded before the comparison, when every write has a fresh time |
| `OwnWrites.ComparedWriteIff` | internal/config/watcher.go:29-31 | a comparison is about the time of a write if and only if the watcher first read it after that rename, before the next one, and has not compared since |
| `OwnWrites.OwnWriteReloadedIff` | internal/config/watcher.go:29-40 | the two together: the positions of renames, recordings, readings and comparisons at which the watcher reloads on an own write |
| `OwnWrites.OvertakenWriteReloads` | internal/config/watcher.go:29-36 | a reload although every write was recorded before its time was read: another one was recorded before the comparison |
| `OwnWrites.UnrecordedWriteReloads` | internal/config/writer.go:30-36 | a reload on a write whose time could not be read |
| `ClearRace.TokenIsGoneIff` | internal/enrollment/enrollment.go:119-122 | in every interleaving of one removal with write-backs, a token that was there is gone at the end if and only if it was there once and no write-back reads before the removal's write and renames after it |
| `ClearRace.WrittenVersionIsLostIff` | internal/config/config.go:368-417 | in every interleaving of one removal with write-backs whose versions can be stored, a written version is missing at the end if and only if its last rename fell between the removal's read and its write and no write-back spans the latter |
| `ClearRace.RunnerAtTheEnd` | internal/config/config.go:368-417 | the runner's part of the file at the end: as it was if a write-back spans the removal's write, and otherwise without the first token |
| `ClearRace.ClearUndoesWrites` | internal/config/config.go:373-416 | right after the removal's write the file is what it read, without the token |
| `ClearRace.TokenComesBack` | internal/config/config.go:368-417 | a race after which a token is there again |
| `Loading.WriteStaysLoadableIff` | internal/config/writer.go:78-89 | a document whose scalars all decode by their tags keeps that property through a write-back if and only if current_version of the target is missing or no scalar, or its tag is not a checked one or accepts the new version |
| `Loading.FloatVersionBreaks` | internal/config/writer.go:83 | a document in which the version 1.5, a float, becomes 1.5.1, which is none |
| `Writer.TargetShowsVersion` | internal/config/writer.go:77-89 | afterwards current_version of the target reads the new version exactly if the entry is a mapping in which it was missing or a scalar; an old node changes its text only, and a new one is a string |
| `Writer.OthersStay` | internal/config/writer.go:59-89 | every path that does not lead to current_version of the target and does not start with it reads as before |
| `Writer.KeysStayInOrder` | internal/config/writer.go:59-89 | keys on the way and in the entry keep their order; a new one comes last |
| `Writer.SettlesIffGood` | internal/config/writer.go:78-82 | a second write of the same version writes nothing exactly if the entry is missing, or a mapping whose version is absent or a scalar |
| `Writer.WritesCommute` | internal/config/writer.go:41-173 | writes for different targets commute |
| `Writer.WriteAndClearCommute` | internal/config/config.go:368-417 | so do a write and the removal of the enrollment token |
| `Writer.PrintedEdit` | internal/config/writer.go:91-104 | what the file holds is the change made in memory, printed |
| `Writer.WantsIff` | internal/config/writer.go:59-89 | a write-back changes the file exactly if the target is there and its current_version does not read as the version |
| `Yaml.ValueIndexIsFirst` | internal/config/writer.go:181-185 | no earlier pair has the key |
| `Yaml.UpdatesCommute` | internal/config/writer.go:59-89 | changes at two paths commute when neither is a prefix of the other |
| `Yaml.LookupElsewhere` | internal/config/writer.go:59-89 | a path that neither leads to the changed one nor starts with it reads as before |
| `Yaml.LookupUpdated` | internal/config/writer.go:59-89 | at the path itself the change is made |
| `Yaml.WriteSettles` | internal/config/writer.go:78-89 | no further write is wanted exactly if the entry is storable |
| `Yaml.WrittenTwice` | internal/config/writer.go:78-89 | a second write leaves the file's content exactly if the entry is not a list |
| `Yaml.TokenIsGone` | internal/config/config.go:400-406 | no token is left exactly if the mapping did not have the key twice |
| `Yaml.TokenElsewhere` | internal/config/config.go:400-406 | every other key of the runner keeps its value |
| `SysUpdateProtocol.Reachable` | internal/operations/runner.go:236-285 | in every interleaving the tracker agrees with the reports, a published or cached count implies a recorded one, and unforced attempts are spaced |
| `SysUpdateProtocol.CountIsWrongIff` | internal/operations/runner.go:592-602 | at any time from any reachable state on, the count shown is not the last recorded one or zero if and only if none was recorded, and the last version cached under the app's count key is at most 20 minutes old and reads as a number other than zero |
| `SysUpdateProtocol.CountIsTheLastSuccess` | internal/operations/runner.go:592-602 | the same by what the cache holds |
| `SysUpdateProtocol.CountIsRight` | internal/operations/runner.go:236-285 | with no name that starts with two underscores the count is always the last recorded one, or zero |
| `SysUpdateProtocol.VersionReadAsCount` | internal/operations/runner.go:592-602 | with such a name it can be wrong |
| `SysUpdateProtocol.ErrorIsTheLastFailure` | internal/operations/sysupdate.go:153-171 | the error shown is that of the last report if it was a failure, and none otherwise |
| `SysUpdateProtocol.ChecksAreRare` | internal/operations/sysupdate.go:134-151 | in every interleaving, any window of length W holds at most W / 15 min + 1 unforced starts for one app, forced ones and changing intervals notwithstanding |
| `SysUpdateProtocol.ChecksAreSpaced` | internal/operations/sysupdate.go:134-151 | in every interleaving an unforced built-in check starts 15 minutes or more after every earlier start of a built-in check of its app, forced or not |
| `SysUpdateProtocol.BuiltinAlone` | internal/operations/runner.go:236-262 | the steps of one built-in check, when nothing comes between them, do to tracker and cache what `CheckSystemUpdates` does, for every outcome |
| `SysUpdateProtocol.FreeformAlone` | internal/operations/runner.go:264-276 | the same for a freeform check |
| `SysUpdate.AtoiIff` | internal/operations/runner.go:299-303 | a text is read as a number if and only if it is an optional sign, any zeros and the decimal digits of that number, and the number fits 64 bits |
| `SysUpdate.PrintedCountIsRead` | internal/operations/runner.go:291-304 | a number that a command prints after any banner is read back |
| `SysUpdate.AtoiOfItoa` | internal/operations/runner.go:596-601 | a published count reads as itself |
| `SysUpdate.PublishedCountIs` | internal/operations/runner.go:596-601 | a published text counts as the number whose digits it has, or the nearest 64-bit one, and anything else as zero |
| `Output.StoredOutput` | internal/operations/runner.go:841-851 | the stored output is everything emitted, or the marker and the longest run of whole final lines below the cap |
| `Output.StoredSize` | internal/operations/runner.go:841-851 | at most the cap plus the 15 bytes of the marker |
| `Output.StoredOutputCanExceedTheCap` | internal/operations/runner.go:850 | there is such output for every cap |
| `Output.KeptIsLongest` | internal/operations/runner.go:845-850 | what is kept is a suffix of the lines, and one line more would not fit |
| `Output.MergeConserves` | internal/operations/runner.go:423-441 | the captured lines are those of both streams, none lost or added |
| `Output.StoredOutputExceedsTheCapIff` | internal/operations/runner.go:845-850 | the stored output is larger than the cap if and only if something was cut and the kept lines with the marker are larger |
| `Output.MergeKeepsOrder` | internal/operations/runner.go:423-441 | each stream keeps its order in the captured lines, and every line belongs to one of the two |
| `Output.TruncatedText` | internal/operations/runner.go:841-851 | for any text that is too long: the marker and what follows the first newline of the tail, or the tail if it has none |
| `VersionText.BannerInsensitive` | internal/operations/runner.go:307-333 | a banner that ends its line does not change what is read, which is one trimmed non-blank line |
| `VersionText.BannerLeaksOnlyWhenOutputBlank` | internal/operations/runner.go:307-333 | the banner is read exactly if the command's own output is blank, or says the same |
| `VersionText.LastTextIsALine` | internal/operations/runner.go:325-333 | what is read is a line of the output, and all later lines are blank |
| `VersionText.NoTextIffAllBlank` | internal/operations/runner.go:325-333 | nothing is read exactly if all lines are blank |
| `Sse.RoundTrip` | internal/sse/sse.go:31-45 | decoding and parsing the bytes of a stream by the standards gives back the sent events if and only if every event name is non-empty without line break, no data has a carriage return, and all are well-formed UTF-8 |
| `Sse.ReceivedIsSendable` | internal/sse/sse.go:31-38 | whatever the bytes, what a client receives meets that condition, which makes it necessary |
| `Sse.ParsedIsPrintable` | internal/sse/sse.go:31-38 | whatever the text of a stream, a parsed event has a non-empty name of one line and data without carriage return |
| `Sse.BlockIsDispatched` | internal/sse/sse.go:31-38 | what a client makes of the lines up to an empty one: the data joined by newlines under the last type given, or nothing without data; other fields and comments do not count |
| `Utf8.DecodeOfEncode` | internal/sse/sse.go:31-38 | the standard's decoder gives back every encoded text |
| `Utf8.WellFormedIff` | internal/sse/sse.go:31-38 | the bytes that decoding and encoding give back are exactly the encodings of texts |
| `Utf8.FaultsAreMarked` | internal/sse/sse.go:31-38 | bytes that are decoded without a replacement character are well-formed |
| `Utf8.FaultsDoNotSpread` | internal/sse/sse.go:31-38 | whatever bytes come before it, a text is decoded as itself |
| `Strings.DigitAtPlace` | internal/docker/upgrade.go:129 | the decimal digits of a number are those of its place values |
| `Strings.DigitsNeeded` | internal/docker/upgrade.go:129 | and there are as many as it needs, without leading zeros |
| `Strings.TrimCutsSpaces` | internal/operations/runner.go:325-333 | trimming cuts white space off both ends, all of it and nothing else |
| `Config.DefaultsAreIdempotent` | internal/config/config.go:195-287 | applying defaults and migration twice is applying them once |
| `Config.MigrationPreservesJobs` | internal/config/config.go:265-287 | after defaults, apps and operations have the same names, "run" of a migrated app executes the job of the legacy operation, and that job has its command, its directory or "/", its detachment, and its limit or the default |
| `Config.DefaultedJobLimit` | internal/operations/runner.go:363-375 | after defaults a job's limit is positive, five minutes or, detached, an hour unless configured |
| `Config.JobIsConfigured` | internal/operations/runner.go:361-397 | what is executed, by the configuration: the command, the directory or "/", the seconds as a 64-bit number of nanoseconds or five minutes unless that is positive, and the detachment |
| `Config.DefaultsFillGaps` | internal/config/config.go:195-223 | what is set stays, and what is missing becomes 7777, /var/run/docker.sock, docker, the host name, "/", and 300 or for detached operations 3600 seconds |
| `Config.DefaultsFillApps` | internal/config/config.go:225-259 | the same for every app operation, whose title is its name unless set; a known package manager, in any case, decides the update command, and nothing else of an app changes |
| `Config.EnabledIff` | internal/config/config.go:79-84 | the built-in checker is on exactly for the three letters of apt, in any case, with any white space around |
| `Upgrade.UpgradeStandalone` | internal/docker/upgrade.go:98-167 | the daemon calls made are those of the script for the result, so the three theorems apply to every call of it; an early failure is reported exactly for the query that failed; the backup name is the old name, `_old_` and the time in decimal; the result names the old image reference and the new image id |
| `Upgrade.Replace` | internal/docker/upgrade.go:98-166 | the queries and then the calls: which are made, in which order and on which errors |
| `Upgrade.CreateFrom` | internal/docker/upgrade.go:135-142 | what is created has the name, configuration and host configuration of the old container, and the same networks with the same IPAM configuration, links and aliases |
| `Upgrade.RestoreOld` | internal/docker/upgrade.go:143-144 | the compensations: rename back, start again, errors ignored |
| `Upgrade.BuildNetworkConfig` | internal/docker/upgrade.go:212-224 | the same networks, and for each the same IPAM configuration, links and aliases with nothing filled in |
| `Upgrade.BackupName` | internal/docker/upgrade.go:129 | the backup name never equals the original name |
| `Upgrade.Prepare` | internal/docker/upgrade.go:98-117 | the container, and the image that its reference means after a pull; or which of the three queries failed |
| `Upgrade.Swap` | internal/docker/upgrade.go:119-166 | from the stop on: which calls are made, in which order and on which errors |
| `Daemon.Daemon.ContainerRename` | internal/docker/upgrade.go:130 | renames by id or by name, refused for a taken name, logged with the state it leaves |
| `Daemon.Daemon.ContainerCreate` | internal/docker/upgrade.go:137-142 | a stopped container under a free name and a fresh id, or an error |
| `Daemon.Daemon.ContainerRemove` | internal/docker/upgrade.go:151-158 | removes by id or by name |
| `History.DB.InsertRun` | internal/operations/history.go:64-73 | a new id and a row without finish, code and output; on error id 0 and no change |
| `History.DB.UpdateRun` | internal/operations/history.go:76-82 | finalises exactly the row with this id, if it is still there |
| `History.DB.Prune` | internal/operations/history.go:214-225 | keeps one top selection of the name and everything else |
| `History.DB.Select` | internal/operations/history.go:89-97 | the rows of a filter in descending order of start, at most `n`, ties in any order |
| `History.DB.Scan` | internal/operations/history.go:104-125 | one record for each selected row in order, with the id, name, times, exit code and output of that row, or an error exactly if one has no output |
| `History.DB.ListHistory` | internal/operations/history.go:85-126 | some top selection of one name, 20 rows unless a limit is given, shown row by row, or an error exactly if one has no output |
| `History.DB.ListAllHistory` | internal/operations/history.go:128-168 | the same over all names, 50 by default |
| `History.DB.ListAllAppHistory` | internal/operations/history.go:171-211 | the same over names with a colon, 50 by default |
| `Runner.Runner.TakeSlot` | internal/operations/runner.go:350-356 | refused exactly if the slot is active |
| `Runner.Runner.ReleaseSlot` | internal/operations/runner.go:381-387 | the slot and its cancel function go together |
| `Runner.Runner.Cancel` | internal/operations/runner.go:521-530 | calls the registered function of this name, or refuses |
| `Runner.Runner.CancelApp` | internal/operations/runner.go:807-817 | the same for an app operation's key |
| `Runner.Runner.WriteBack` | internal/operations/runner.go:106-110 | sets one version; a missing name becomes a zero entry |
| `Runner.Runner.LookUp` | internal/operations/runner.go:344-401 | known exactly if configured, and then with the command, the directory or "/", the limit or five minutes, and the detachment that are configured |
| `Runner.Runner.LookUpApp` | internal/operations/runner.go:643-705 | the same for an app operation |
| `Execution.Run` | internal/operations/runner.go:344-491 | alone: refused without any change for an unknown name or a taken slot, else the slot ends free with no other slot changed, the lines are sent in order, the code is the status of the command, 0 for a clean end and 1 for any other error, and the log gets one row with these times, this code and this output, as far as the statements succeed |
| `Execution.RunApp` | internal/operations/runner.go:643-803 | the same for an app operation, under its key |
| `Execution.Execute` | internal/operations/runner.go:419-464 | start, drain, the code by how the command ended, truncation at 65536 bytes, and finalising and pruning only with a row |
| `Writer.ConfigFile.UpdateVersion` | internal/config/writer.go:41-108 | file, file time and recorded time after every combination of errors, and which error is reported |
| `Writer.ConfigFile.UpdateOperationVersion` | internal/config/writer.go:41-108 | the outcome of a write-back under `operations`, as above: without error the file holds the version; with one it is unchanged, and each error is reported exactly for its cause |
| `Writer.ConfigFile.UpdateAppVersion` | internal/config/writer.go:112-173 | the same under `apps` |
| `Writer.ConfigFile.ClearEnrollmentToken` | internal/config/config.go:368-417 | which error is reported, for every state of file and disk; without error the file is rewritten without the first token, not recorded as an own write; a failed write leaves anything; any other error leaves the file as it was |
| `Writer.ConfigFile.IsOwnWrite` | internal/config/writer.go:24-28 | exactly for the recorded time, if there is one |
| `Writer.ConfigFile.Poll` | internal/config/watcher.go:29-40 | reloads exactly for a readable new time that is not the recorded one, and remembers every new time |
| `YamlNodes.SetVersionInPlace` | internal/config/writer.go:59-89 | the linked nodes end as the tree with that one change at that path, or unchanged with the error of the missing part |
| `YamlNodes.SetEntryVersion` | internal/config/writer.go:78-89 | changes or appends the version, and tells whether anything changed |
| `YamlNodes.MappingGet` | internal/config/writer.go:177-187 | the value node of the first pair with the key, none for another kind of node |
| `YamlNodes.ClearTokenInPlace` | internal/config/config.go:383-409 | the nodes end as the tree without the first token of the runner, with the two structure errors |
| `YamlNodes.DropTokenInPlace` | internal/config/config.go:400-406 | cuts out exactly the first pair with the token |
| `SysUpdate.CheckSystemUpdates` | internal/operations/runner.go:236-277 | one check alone: when it attempts, what it records and what it publishes, for built-in and freeform checks, forced or not |
| `SysUpdate.SystemUpdateCount` | internal/operations/runner.go:592-602 | the tracker's count, else the cached one, else zero |
| `SysUpdate.Tracker.TryAcquire` | internal/operations/sysupdate.go:134-144 | acquires exactly if there was no attempt or the interval has passed, and records the attempt |
| `SysUpdate.Tracker.RecordSuccess` | internal/operations/sysupdate.go:153-162 | a new count, and no error |
| `SysUpdate.Tracker.RecordError` | internal/operations/sysupdate.go:165-171 | the error, and the count as it was |
| `SysUpdate.VersionCache.Get` | internal/operations/versioncache.go:34-45 | the entry unless it is missing or more than 20 minutes old |
| `SysUpdate.CountInstLines` | internal/operations/sysupdate.go:75-85 | the number of lines that start with the word Inst and a space, whatever ends them |
| `SysUpdate.CheckApt` | internal/operations/sysupdate.go:45-67 | a count exactly for root and two commands that succeed; never zero for a failure |
| `SysUpdate.CheckFreeform` | internal/operations/runner.go:291-304 | succeeds exactly if the last non-blank line is a sign, zeros and the digits of a 64-bit number, and then with that number; it fails for an empty output and for any stray character |
| `VersionText.VersionFromOutput` | internal/operations/runner.go:310-321 | the trimmed last non-blank line of what a command prints |
| `VersionText.LastNonEmptyLine` | internal/operations/runner.go:325-333 | the last non-blank line, trimmed; the text itself if all are blank |
| `Sse.Writer.Send` | internal/sse/sse.go:31-38 | appends exactly the frame of this event |
| `Sse.Writer.SendJSON` | internal/sse/sse.go:41-45 | for a payload of one line, the same frame |
| `Sse.Writer.Done` | internal/sse/sse.go:58-60 | a done event with the exit code, in decimal, as the only member of a JSON object |
| `Config.Config.ApplyDefaults` | internal/config/config.go:195-261 | the whole configuration after defaults and migration |
| `Config.Config.MigrateOperationsToApps` | internal/config/config.go:265-287 | only without apps: one app with the operation "run" for each legacy operation |
| `Config.Config.DefaultApps` | internal/config/config.go:225-259 | defaults of every app operation; a known package manager overrides the update command |
| `Config.RefreshDuration` | internal/config/config.go:88-100 | a configured positive interval, raised to 15 minutes if shorter; six hours if there is none |

## Left out

- HTTP handlers, routing, authentication, TLS, enrollment, heartbeat, API keys and self-update: plumbing and network code.
- The Compose path of an upgrade, container listing, logs and statistics: subprocess and SDK wrappers.
- Containers that the daemon removes by itself once they stop, restart policies, MAC addresses and driver options of endpoints.
- SQLite itself: a statement either takes effect as a whole or fails without effect.
- YAML text, comments, aliases and merge keys: printing and parsing again is `Yaml.Printed`, which keeps kinds, scalar values and content; a mapping's keys are compared by their value only, as in the code.
- Temporary files: a write-back that fails at any point leaves the configuration file as it was. The token removal has none, and its failure leaves anything.
- Text that is not well-formed UTF-8 outside the event stream: version texts, names and the configuration are taken to be well-formed.
- A removal of the token that fails while write-backs are under way: `ClearRace` has one removal, which succeeds.
- The library gopkg.in/yaml.v3 is not part of this model. What its decoder accepts for a tag is `Loading.Accepts`, and the tag that plain text resolves to is a parameter there.
- Processes, pipes, environment and HOME: a command is two finite sequences of lines and an exit code. Lines too long for the scanner are not modelled.
- Time limits of commands and cancellation by a client that disconnects: the job carries its limit and detachment, but nothing expires.
- The two drains call the output function outside the lock, so events of one run are modelled as sent one after the other.
- The goroutine that detects versions after a run appears only as later write-backs and checks.
- Data races on maps that are read without the lock: the look-up of `Run` is one atomic step.
- Config.ToLower: folds the letters A to Z only; Go folds letters of other scripts too, such as the Kelvin sign to k.
- Log messages, durations in results, and the warnings of `applyDefaults`.
- Upgrade.RollbackIsExact: assumes that an error means no effect; without that only `EveryStateIsSafe` holds.
- RunnerProtocol.FreeSlotHistory: assumes that the statements of the runs succeed; a failed one is ignored by the code and leaves no row or an unfinished one.
- SysUpdate.Tracker: the records behind the map's pointers are values here; no pointer to one is shared.
- Execution.Run: one run without interference; interference is in `RunnerProtocol`.
