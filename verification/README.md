# Antgrid bridge: verified models

A Dafny model of the parts of the Antgrid bridge that are hard to get right, with proofs about
every run. Where the source mutates fields across waits, the model has two layers: a class with the
source's fields, whose methods are the atomic steps between waits, and a value-level state machine
that each method is proved to follow; the theorems about whole runs are lemmas about the latter.
Loops over arrays and text are methods with loops, expressions are functions.

| area | files |
|---|---|
| path search protocol | `FindProtocol.dfy`, `FileFinder.dfy` |
| ignore pruning, engine output, tree walk | `IgnoreWalk.dfy`, `Paths.dfy`, `Text.dfy` |
| fuzzy matching and ranking | `FindRanking.dfy`, `Sorting.dfy` |
| checkout build, teardown, shutdown | `CheckoutLifecycle.dfy`, `CheckoutRuntime.dfy` |
| git-status tickets | `GitStatusTickets.dfy` |
| relay control client | `RelayControl.dfy`, `CentralControlClient.dfy` |
| streaming content search | `SearchStream.dfy`, `FileSearch.dfy` |
| config watch | `ConfigReplay.dfy` |
| `${...}` references | `VariableResolution.dfy` |
| probe pool and stable filter | `ProbePool.dfy` |
| env files of the dev setup | `EnvFile.dfy` |
| frame bench measures | `FrameRates.dfy` |
| sequences shared by the above | `Sequences.dfy` |

`dafny verify dfyconfig.toml` covers the whole project.

## What the environment is

Processes, sockets, timers, clocks, tokens, git and the file system are events that may come in any
order the source allows: a process may exit at any time, a timer fires only while it is armed, a
socket opens before it delivers and closes at most once. The ignore rules are an arbitrary fixed
predicate on a path and its kind; JSON, YAML and engine records arrive already parsed or refused.
Cancellation is monotone, the keyed lock excludes a build and a teardown of one checkout and runs a
waiting client's request before the next holder begins, service names are unique, and callbacks
handed to the control client do not call back into it.

## Where the code and its own words differ

The model follows the code.

- A path search whose clamped id equals a live one's can send an empty listing as an error-free
  answer (`FindProtocol.HonestIffIdsDistinct`).
- `FileFinder.stop()` does not wait for a process whose record has already let go of it, as a timeout
  or a supersede makes it do (`FindProtocol.StopCanReturnBeforeAProcessExits`).
- A matched directory does not always outrank the files under it (`FindRanking.DirectoryBeforeDescendant`).
- A teardown is meant to leave nothing that holds the checkout. It can: a service that is edited, or
  started by a client, while it runs is respawned under its id and its old process is no longer waited
  for, and so is one started by a client when the block it was held back with is let go; a teardown
  after a shutdown finds neither manager nor watcher to wait for; a deferred block let go is not
  guarded by `disposed`. Short of these it leaves nothing that the model covers
  (`CheckoutLifecycle.TeardownsReleaseIffNothingStrays`).
- Git's listing and the walk are meant to give the same files. They do not where a tracked file has
  been deleted from the disk, nor for a submodule: git prints its directory and none of its files
  (`IgnoreWalk.EnginesAgree`).
- A terminal verdict of the relay is meant to stop reconnecting. A retryable error frame that follows
  on the same socket, before it has closed, overrules it (`RelayControl.TerminalIsFinalIff`).
- A find whose ignore rules fail to load for the second time is answered by the dispatcher, under the
  id as it arrived, and the finder goes on holding it as active (`FileFinder.Finder.MarkFails`).
- A variable set to the empty string, or to a value with a reference in it, can make a later stage
  resolve what a single pass would not (`VariableResolution.StagesAgreeIffHarmless`).
- A control client without a keypair fails closed, but if its socket has gone before the token
  arrives, the armed reconnect still dials (`RelayControl.ClosedIsQuietIff`).
- A failed read in a search drops the match still waiting for its context and a match on the line
  that had not ended (`SearchStream.NothingLostIff`).
- Editing a service that is set not to start on its own starts it
  (`ConfigReplay.EditingStartsAHeldBackService`).
- The dev setup's default sender address is in quotes and loses them on the first read
  (`EnvFile.ShippedSenderLosesItsQuotes`).
- The bench's comment says the 95th percentile of twenty samples is the maximum; it is so only below
  twenty, which is what the code tests (`FrameRates.P95IsLastIff`).

## Model

| member | source | states |
|---|---|---|
| `FindProtocol.RepliesAreExactAndHonest` | bridge/src/file-find.ts:521-581 | In every interleaving of finds, supersedes, timeouts and stops whose ids differ, each finished call has exactly one reply, an unfinished one none, each reply carries its caller's id (as it arrived, when the dispatcher answers for a find that threw), and no reply without an error rests on a listing that was cut short |
| `FindProtocol.HonestIffIdsDistinct` | bridge/src/file-find.ts:614-635 | Answers are honest in every interleaving of a list of calls exactly when no two of their ids are equal after clamping; clearing `active` by id is what breaks it |
| `FindProtocol.DistinctCallsSuffice` | bridge/src/file-find.ts:523-525 | Ids that differ after clamping are new at every call of every run |
| `FindProtocol.CallsAreRequests` | bridge/src/file-find.ts:521-525 | Each `find` enrols one request, in order, under its clamped id |
| `FindProtocol.CollisionLies` | bridge/src/file-find.ts:614-635 | The concrete run: a superseded call's reply unseats a live call with the same id, whose empty listing then goes out as an answer |
| `FindProtocol.RunKeepsInv` | bridge/src/file-find.ts:509-761 | The invariant of every run with distinct ids; its core is that before a call's own reply, not being `active` means having been killed |
| `FindProtocol.OwnStepsDescend` | bridge/src/file-find.ts:521-581 | Each continuation of a call brings it strictly nearer its reply |
| `FindProtocol.NothingPendingMeansAllAnswered` | bridge/src/file-find.ts:521-594 | Where no continuation or process exit is pending, every call has been answered, one whose ignore rules failed to load the second time included |
| `FindProtocol.OneLiveProcess` | bridge/src/file-find.ts:692-712 | At every reachable state a listing process that is neither killed nor exited belongs to the active call, whose record holds it |
| `FindProtocol.StepTouchesOnlyItsCall` | bridge/src/file-find.ts:543-549 | A call's timeout, cleanup, reply or continuation leaves every other call and its process as they were and unseats nobody else |
| `FindProtocol.StopSilences` | bridge/src/file-find.ts:500-519 | From `stop()` to the next `find` no listing process is live and none is spawned |
| `FindProtocol.StopWaitsForAllIff` | bridge/src/file-find.ts:494-507 | `stop()` waits for every running process exactly when every one already killed is still held by its record |
| `FindProtocol.StopCanReturnBeforeAProcessExits` | bridge/src/file-find.ts:494-507 | A timed-out listing's process can still be running when `stop()` has nothing to wait for, against the comment above `stop` |
| `FindProtocol.AnswersAreFresh` | bridge/src/file-find.ts:637-644 | An answer comes from the caller's own run, or from a listing under its own flag that ran to its end and is of the current seq or began less than 2000 ms before |
| `FindProtocol.CacheHoldsCompleteListings` | bridge/src/file-find.ts:646-662 | The cache only holds complete, uncut listings, each written when that listing came back to the call that was then the active one, and filed under the flag, seq and time its own call was made with |
| `FileFinder.Finder.Abort` | bridge/src/file-find.ts:512-519 | The active record is killed, lets go of its process, and nobody is active; the object's state moves exactly as the protocol's step |
| `FileFinder.Finder.Find` | bridge/src/file-find.ts:521-551 | `find` up to its first wait: supersede, enrol, arm, consult the cache; the object's state moves exactly as the protocol's step |
| `FileFinder.Finder.Stop` | bridge/src/file-find.ts:500-507 | `stop` returns the process the active record held, after aborting it; the object's state moves exactly as the protocol's step |
| `FileFinder.Finder.EngineDetected` | bridge/src/file-find.ts:665-690 | A call that is no longer current lists nothing; otherwise the engine decides between spawn and walk; the object's state moves exactly as the protocol's step |
| `FileFinder.Finder.Spawn` | bridge/src/file-find.ts:700-707 | The spawned process becomes the record's; the object's state moves exactly as the protocol's step |
| `FileFinder.Finder.StreamEnds` | bridge/src/file-find.ts:727-749 | The read loop ends, a capped one killing its own process; the object's state moves exactly as the protocol's step |
| `FileFinder.Finder.ExitSeen` | bridge/src/file-find.ts:754-760 | The record lets go of its process, and the listing is complete only if nobody killed it and it was capped or exited with 0; the object's state moves exactly as the protocol's step |
| `FileFinder.Finder.SpawnReturned` | bridge/src/file-find.ts:671-689 | Only git's own failure falls back to the walk; the object's state moves exactly as the protocol's step |
| `FileFinder.Finder.WalkReturned` | bridge/src/file-find.ts:763-780 | A cancelled walk is an aborted listing, any other a complete one; the object's state moves exactly as the protocol's step |
| `FileFinder.Finder.ListFreshReturned` | bridge/src/file-find.ts:645-662 | The cache is written exactly for a complete listing of the still active call; the object's state moves exactly as the protocol's step |
| `FileFinder.Finder.ListPathsReturned` | bridge/src/file-find.ts:560-580 | A killed call is refused with its reason, any other goes on to match; the object's state moves exactly as the protocol's step |
| `FileFinder.Finder.ListPathsFailed` | bridge/src/file-find.ts:553-559 | A listing that threw is answered with its error; the object's state moves exactly as the protocol's step |
| `FileFinder.Finder.MatchReturned` | bridge/src/file-find.ts:576-580 | The answer is sent from the listing the call was given; the object's state moves exactly as the protocol's step |
| `FileFinder.Finder.MarkFails` | bridge/src/file-find.ts:588-594 | When marking throws, the dispatcher answers under the id as it arrived and `active` keeps the finished call; the object's state moves exactly as the protocol's step |
| `FileFinder.Finder.Reply` | bridge/src/file-find.ts:614-635 | A reply is sent and clears `active` by request id; the object's state moves exactly as the protocol's step |
| `FileFinder.Finder.TimeoutFires` | bridge/src/file-find.ts:543-549 | A timeout acts on its own call while that is active, or not at all; the object's state moves exactly as the protocol's step |
| `IgnoreWalk.IgnorePrune.Keeps` | bridge/src/file-find.ts:183-204 | Whatever the memo already holds, the verdict is that no ancestor is ignored as a directory and the path itself is not ignored |
| `IgnoreWalk.TakeLines` | bridge/src/file-find.ts:719-746 | One chunk's lines are pruned in order, as many as the cap leaves room for |
| `IgnoreWalk.ReadListing` | bridge/src/file-find.ts:708-752 | For every chunking of the engine's output the paths kept are those of the lines of the whole text, cut at the cap exactly when a complete line is left out, which is what `truncated` says |
| `IgnoreWalk.Walker.Visit` | bridge/src/file-find.ts:241-277 | The walk reports a prefix of the unbounded one from wherever it stood, and its counters say how far it got |
| `IgnoreWalk.WalkFiles` | bridge/src/file-find.ts:231-280 | Under a cap or a cancel the report is a prefix of the unbounded one; with neither flag it is whole; a cap stops at exactly `maxScanned` entries with more to come; only a raised cancel makes it incomplete |
| `IgnoreWalk.WalkReportsKeptFiles` | bridge/src/file-find.ts:231-280 | The unbounded walk reports exactly the regular files the prune keeps |
| `IgnoreWalk.DirScansDistinct` | bridge/src/file-find.ts:241-277 | The unbounded walk reports no file twice |
| `IgnoreWalk.EnginesAgree` | bridge/src/file-find.ts:121-204 | Pruning an engine's output and walking the tree give the same files, each once, exactly when the walk reports no `.git` entry, no printed path that the rules keep is missing from the disk, and every regular file they keep outside `.git` was printed |
| `Paths.DeriveDirectories` | bridge/src/file-find.ts:286-296 | A directory is listed exactly when some listed file lies beneath it |
| `Paths.DepthOf` | bridge/src/file-find.ts:303-307 | The loop counts one more than the separators |
| `FindRanking.IsSubsequence` | bridge/src/file-find.ts:309-316 | The greedy scan answers whether the query can be picked out of the target from left to right at all |
| `FindRanking.SubsequenceIffEmbeds` | bridge/src/file-find.ts:309-316 | Greedy matching is sound and complete |
| `FindRanking.RankIsSubsequence` | bridge/src/file-find.ts:348-361 | The rank is non-negative exactly when the query is a subsequence of the whole lower-cased path, and a basename tier exactly when it is one of the basename |
| `FindRanking.AtOrBeforeIsOrdering` | bridge/src/file-find.ts:372-378 | Rank, depth and code-unit path together are a total order |
| `FindRanking.DirectoryBeforeDescendant` | bridge/src/file-find.ts:372-388 | An indexed directory precedes an indexed entry beneath it exactly when its rank is at least as tight, so whenever its basename matches and the other's does not |
| `FindRanking.TighterBelowComesFirst` | bridge/src/file-find.ts:372-388 | A file whose basename starts with the query precedes any directory whose basename holds the query further in, however deep it lies |
| `FindRanking.MatchedDirectoryCanComeAfterItsFile` | bridge/src/file-find.ts:380-388 | A directory whose basename matches can come after a file beneath it, against the comment above the ranker |
| `FindRanking.SelectionIsTheTop` | bridge/src/file-find.ts:389-398 | For distinct paths the answer is the only ordered selection of at most `limit` matches that leaves out nothing ahead of what it keeps |
| `FindRanking.SelectionIgnoresInputOrder` | bridge/src/file-find.ts:389-398 | The answer does not depend on the order of the listing |
| `FindRanking.IndexFindEntries` | bridge/src/file-find.ts:329-341 | The loop builds the indexed listing |
| `FindRanking.IndexAllAt` | bridge/src/file-find.ts:329-341 | The indexed listing has, in order, each entry with its lower-cased path and basename and its depth |
| `FindRanking.MatchFindEntries` | bridge/src/file-find.ts:389-398 | The one-shot ranker answers that selection, a limit below zero counting as zero |
| `FindRanking.Match` | bridge/src/file-find.ts:599-612 | Matching over several indexed sources answers the selection over all of them together |
| `CheckoutLifecycle.RunKeepsInv` | bridge/src/agent-core.ts:3950-4261 | The invariant of every interleaving of build, teardown, shutdown, callbacks and client requests |
| `CheckoutLifecycle.DisposedOpensIff` | bridge/src/agent-core.ts:4011-4155 | Once `disposed` is set, an event opens a watcher, terminal, timer or tracked git child exactly when it is a client's request that the lock lets through, or lets a non-empty block go that was still held back with a manager there; no build segment, timer, watcher or config callback, focus, resync or client's start does |
| `CheckoutLifecycle.PromisesAreAwaited` | bridge/src/agent-core.ts:5561-5577 | A tracked promise is always within the reach of the teardown that is under way or may still begin, in every run: the prepare in front of a client's request keeps it out of a sweep |
| `CheckoutLifecycle.KillThenSpawn` | bridge/src/agent-core.ts:4037-4050 | The config callback's kill of an edited service changes nothing, since a spawn under a taken id kills first |
| `CheckoutLifecycle.CleanStep` | bridge/src/agent-core.ts:4215-4261 | From a state in which every process, promise and closing watcher is within the teardown's reach, one event breaks that exactly when it is a spawn over a process still in the table, by a config edit, a client's start or a block let go, or a shutdown with anything left to wait for, or a block let go once disposed |
| `CheckoutLifecycle.AlwaysReleasesIffClean` | bridge/src/agent-core.ts:4215-4261 | Every teardown that can finish from here has released every holder, process and tracked promise, whatever happens short of another such event, exactly when nothing is out of its reach now |
| `CheckoutLifecycle.TeardownsReleaseIffNothingStrays` | bridge/src/agent-core.ts:4215-4261 | At every point of a run a finished teardown can be relied on to have released everything, exactly when no event of the run was one of those |
| `CheckoutLifecycle.RespawnLeaks` | bridge/src/agent-core.ts:4030-4050 | The concrete run: a service edited while it runs is respawned under its id, and the teardown ends with the old process still there |
| `CheckoutLifecycle.ShutdownLeaks` | bridge/src/agent-core.ts:2923-2951 | The concrete run: a teardown after a shutdown waits for neither the killed process nor the closing watcher |
| `CheckoutLifecycle.ClientStartLeaks` | bridge/src/agent-core.ts:2059-2083 | The concrete run: a client starts a service that is still running, and the teardown ends with the old process still there |
| `CheckoutLifecycle.ReleaseOverAStartLeaks` | bridge/src/agent-core.ts:4147-4155 | The concrete run: a client starts a service that is held back, the block let go respawns it, and the teardown ends with the old process still there |
| `CheckoutLifecycle.LateReleaseLeaks` | bridge/src/agent-core.ts:4147-4155 | The concrete run: a deferred block let go during the sweep leaves a live terminal behind the teardown |
| `CheckoutRuntime.Core.PrepareCheckoutRuntime` | bridge/src/agent-core.ts:4168-4184 | A registered runtime is started, a new one registered first; the record moves exactly as the lifecycle's step |
| `CheckoutRuntime.Core.StartCheckoutRuntime` | bridge/src/agent-core.ts:3950-4007 | The build up to its yield: detectors, a constructed watcher, the sweeper; a started runtime or a missing manager stops it; the record moves exactly as the lifecycle's step |
| `CheckoutRuntime.Core.YieldReturned` | bridge/src/agent-core.ts:4011-4066 | After the yield, unless disposed or without a manager: watch, spawn what is not held back, track the first refresh; the record moves exactly as the lifecycle's step |
| `CheckoutRuntime.Core.RefreshReturned` | bridge/src/agent-core.ts:4067-4113 | After the first refresh, unless disposed: arm the poll and the background fetch; the record moves exactly as the lifecycle's step |
| `CheckoutRuntime.Core.ScheduleGitRefresh` | bridge/src/agent-core.ts:3384-3392 | A disposed runtime arms no debounce; the record moves exactly as the lifecycle's step |
| `CheckoutRuntime.Core.RefreshTimerFires` | bridge/src/agent-core.ts:3392-3408 | The debounced refresh is tracked; the record moves exactly as the lifecycle's step |
| `CheckoutRuntime.Core.GuardedRefresh` | bridge/src/agent-core.ts:3293-3315 | Focus, poll tick and resync refresh alike, behind the same guard; the record moves exactly as the lifecycle's step |
| `CheckoutRuntime.Core.ConfigChanged` | bridge/src/agent-core.ts:4014-4057 | A config change kills the removed services and, unless they are held back, kills the edited ones and spawns the changed ones; the record moves exactly as the lifecycle's step |
| `CheckoutRuntime.Core.ClientRequest` | bridge/src/agent-core.ts:1748 | A tree root request is tracked, with no guard on `disposed`; the record moves exactly as the lifecycle's step |
| `CheckoutRuntime.Core.ClientStart` | bridge/src/agent-core.ts:2059-2083 | A client's start spawns under the terminal's own id, over whatever has it; the record moves exactly as the lifecycle's step |
| `CheckoutRuntime.Core.ClientStop` | bridge/src/agent-core.ts:2085-2103 | A client's stop kills the process its id means; the record moves exactly as the lifecycle's step |
| `CheckoutRuntime.Core.StartDeferredServices` | bridge/src/agent-core.ts:4147-4155 | Letting the held-back block go, with no guard on `disposed`; the record moves exactly as the lifecycle's step |
| `CheckoutRuntime.Core.StopCheckoutServices` | bridge/src/agent-core.ts:4192-4213 | Everything but terminals and git children is stopped; only the stop that finds the watcher open leaves something to wait for; the record moves exactly as the lifecycle's step |
| `CheckoutRuntime.Core.Sweep` | bridge/src/agent-core.ts:4229-4250 | Every terminal in the table is told to die, everything else is stopped, and what the one wait is for is fixed before it; the record moves exactly as the lifecycle's step |
| `CheckoutRuntime.Core.TeardownBegins` | bridge/src/agent-core.ts:4215-4250 | Under the lock: `disposed` first, then the sweep; the record moves exactly as the lifecycle's step |
| `CheckoutRuntime.Core.Shutdown` | bridge/src/agent-core.ts:2923-2960 | Without the lock: every registered runtime stopped and disposed, the manager killed and dropped; the record moves exactly as the lifecycle's step |
| `CheckoutRuntime.Core.KillTerminal` | bridge/src/terminal-manager.ts:687-699 | The process its id means is told to die, and stays in the table until it exits; the terminals move exactly as the lifecycle says |
| `CheckoutRuntime.Core.SpawnTerminal` | bridge/src/terminal-manager.ts:376-383 | A spawn under a taken id kills first, and the new process takes the id over; the terminals move exactly as the lifecycle says |
| `CheckoutRuntime.Core.PtyExits` | bridge/src/terminal-manager.ts:548-575 | An exit drops the id from the table only if the process is still the one it means; the terminals move exactly as the lifecycle says |
| `CheckoutRuntime.Core.DropManager` | bridge/src/terminal-manager.ts:727-751 | Every process in the table is told to die and the table is cleared; the terminals move exactly as the lifecycle says |
| `CheckoutRuntime.Replay` | bridge/src/agent-core.ts:3950-4261 | Replaying any run on the object leaves its fields in the run's state |
| `CheckoutRuntime.TornDownIsAllGone` | bridge/src/agent-core.ts:4215-4261 | When the teardown of a replayed object has finished and no event of the run put anything out of its reach, no timer, watch or promise is left in the record and every process is gone |
| `GitStatusTickets.CacheHoldsNewest` | bridge/src/agent-core.ts:3239-3265 | However status reads overlap, fail and come back, files, sync state and both fingerprints come from the highest ticket that has succeeded |
| `GitStatusTickets.AppliedIsMonotone` | bridge/src/agent-core.ts:3259-3260 | `gitStatusApplied` never goes back |
| `GitStatusTickets.TicketsInOrder` | bridge/src/agent-core.ts:3240 | Tickets are distinct, and one that has landed is not out again |
| `GitStatusTickets.ArrivalOrderIsInvisible` | bridge/src/agent-core.ts:3234-3238 | Two runs in which the same reads brought the same results end with the same snapshot |
| `GitStatusTickets.CheckoutStatus.Begin` | bridge/src/agent-core.ts:3240 | A read takes the next ticket |
| `GitStatusTickets.CheckoutStatus.Land` | bridge/src/agent-core.ts:3259-3264 | A read behind the applied one is dropped, any other replaces the whole snapshot |
| `GitStatusTickets.CheckoutStatus.Abandon` | bridge/src/agent-core.ts:3251-3258 | A failed read changes nothing |
| `RelayControl.StaleSocketsAreDeaf` | bridge/src/central-control-client.ts:163-205 | No event of an earlier dial's socket, nor its late token, changes the client, its timers or what it has sent |
| `RelayControl.OneOfEach` | bridge/src/central-control-client.ts:485-502 | At most one heartbeat, one armed timeout and one live socket; a timeout only while no socket is held, due in `[b/2, b)` |
| `RelayControl.Delay` | bridge/src/central-control-client.ts:485-489 | The delay lies in the upper half of the backoff |
| `RelayControl.BackoffLaw` | bridge/src/central-control-client.ts:485-494 | The backoff is min(1000 * 2^k, 30000), `k` counting timer-driven dials since the last welcome or fresh-token redial |
| `RelayControl.ReconnectIsArmedIff` | bridge/src/central-control-client.ts:183-197 | With no socket held and the client not closed on purpose, a reconnect is armed exactly when reconnecting is on and the last error is not terminal; a client closed on purpose has none armed, where closing is final |
| `RelayControl.HeldSocketStillReports` | bridge/src/central-control-client.ts:183-197 | While a socket is held and the client not closed on purpose, that socket's close is still to come and will be listened to |
| `RelayControl.TerminalDialsNothing` | bridge/src/central-control-client.ts:142-197 | From the moment a non-retryable verdict is in, its socket still closing or not, nothing but `connect`, `redialWithFreshToken` or a later retryable error frame leads to another dial |
| `RelayControl.TerminalIsFinalIff` | bridge/src/central-control-client.ts:183-197 | Such a verdict is final, whatever arrives unasked, exactly when no socket is held any more, or the client does not reconnect, or it was closed on purpose |
| `RelayControl.TerminalStaysDown` | bridge/src/central-control-client.ts:142-149 | After a non-retryable verdict has brought the socket down, nothing is dialled, sent or received until `connect` or `redialWithFreshToken` |
| `RelayControl.BusReadyIff` | bridge/src/central-control-client.ts:405-408 | The bus link is ready exactly when the held socket is open and the current dial's last welcome advertised the bus |
| `RelayControl.HeartbeatClosesIff` | bridge/src/central-control-client.ts:453-469 | A tick closes an open socket exactly when a ping on it has had no schema-valid frame since, and otherwise pings |
| `RelayControl.FramesSentAreDue` | bridge/src/central-control-client.ts:207-272 | At most one hello goes out per dial, and bus frames only on a dial whose latest welcome offered the bus |
| `RelayControl.ClosedIsQuietIff` | bridge/src/central-control-client.ts:228-235 | A client closed on purpose stays without live socket or timeout, on every run, exactly when it has a keypair or does not reconnect |
| `RelayControl.RunKeepsInv` | bridge/src/central-control-client.ts:127-503 | The invariant of every run of socket, timer, token and caller events |
| `ControlClient.CentralControlClient.Connect` | bridge/src/central-control-client.ts:127-131 | Dials unless a socket is connecting or open; the object moves exactly as the client's step |
| `ControlClient.CentralControlClient.RedialWithFreshToken` | bridge/src/central-control-client.ts:142-149 | Dials only from an expired-license stop; the object moves exactly as the client's step |
| `ControlClient.CentralControlClient.Dial` | bridge/src/central-control-client.ts:151-161 | A new generation: timers cleared, the old socket closed, flags reset; the object moves exactly as the client's step |
| `ControlClient.CentralControlClient.Close` | bridge/src/central-control-client.ts:444-451 | Closed for good: a new generation, timers cleared, the socket let go; the object moves exactly as the client's step |
| `ControlClient.CentralControlClient.SocketOpened` | bridge/src/central-control-client.ts:163-170 | Only the current dial's open starts a token fetch; the object moves exactly as the client's step |
| `ControlClient.CentralControlClient.TextArrived` | bridge/src/central-control-client.ts:172-175 | Only the current dial's readable text is handled; the object moves exactly as the client's step |
| `ControlClient.CentralControlClient.HandleTextMessage` | bridge/src/central-control-client.ts:274-355 | A welcome authenticates, resets the backoff and restarts the heartbeat; an error is remembered; any frame answers the ping; the object moves exactly as the client's step |
| `ControlClient.CentralControlClient.BinaryArrived` | bridge/src/central-control-client.ts:176-180 | A binary frame is a terminal protocol violation; the object moves exactly as the client's step |
| `ControlClient.CentralControlClient.SocketClosed` | bridge/src/central-control-client.ts:183-197 | The socket is forgotten and a reconnect armed unless something forbids it; the object moves exactly as the client's step |
| `ControlClient.CentralControlClient.TokenArrived` | bridge/src/central-control-client.ts:207-272 | No token closes the socket, no keypair closes for good, otherwise one hello; the object moves exactly as the client's step |
| `ControlClient.CentralControlClient.Heartbeat` | bridge/src/central-control-client.ts:453-469 | Ping, or close on an unanswered ping; the object moves exactly as the client's step |
| `ControlClient.CentralControlClient.ReconnectFired` | bridge/src/central-control-client.ts:490-493 | Double the backoff up to the cap and dial; the object moves exactly as the client's step |
| `ControlClient.CentralControlClient.SendBusFrame` | bridge/src/central-control-client.ts:412-416 | A bus frame is written exactly when the link is ready; the object moves exactly as the client's step |
| `ControlClient.Replay` | bridge/src/central-control-client.ts:127-503 | Replaying any run on the object leaves its fields in the run's state |
| `ControlClient.ReplayedIsSound` | bridge/src/central-control-client.ts:127-503 | A replayed object has at most one interval and one timeout, the backoff its capture accounts for, a reconnect armed exactly when one is due, and, where closing is final, nothing live or armed once closed on purpose |
| `SearchStream.AccumulatorAgrees` | bridge/src/file-search.ts:248-303 | After every event the context accumulator holds what the reference definition says: spare lines, an open match, and emitted plus open records equal to one record per match line in order |
| `SearchStream.RecordsFit` | bridge/src/file-search.ts:263-293 | Every record has at most two before-lines and two after-lines |
| `SearchStream.NoLineShownTwice` | bridge/src/file-search.ts:263-275 | The context lines of the records, read in order, are context lines of the stream at strictly increasing positions, so none is shown twice, not even between adjacent matches |
| `SearchStream.NothingLostIff` | bridge/src/file-search.ts:347-360 | What is delivered is every match of the text read, exactly unless a read fails with a match still open or with a match on the line that had not ended; then at most those two are missing |
| `FileSearch.SearchRun.FlushBatch` | bridge/src/file-search.ts:215-223 | A non-empty batch is sent whole, and nothing is left behind |
| `FileSearch.SearchRun.AddMatch` | bridge/src/file-search.ts:225-241 | The match is counted and batched; sent and batched matches together stay all that were emitted, a waiting batch has its timer, the totals stay exact |
| `FileSearch.SearchRun.ProcessEvent` | bridge/src/file-search.ts:261-303 | One engine record keeps the accumulator and the batches in agreement with the reference |
| `FileSearch.Search` | bridge/src/file-search.ts:205-391 | For every chunking of the output and every firing of the batch timer, the batches concatenate to the records to deliver, each has 1 to 20 matches, one done message with the exact totals ends them, and that is everything the text read says exactly unless a failing read loses a match |
| `Text.LineBuffer.Feed` | bridge/src/file-search.ts:351-354 | What has been handed out plus what is held back is always the split of everything received |
| `ConfigReplay.ComputeDiff` | bridge/src/config-controller.ts:120-136 | The diff lists the new names, the changed ones and the dropped ones in their configs' order, and whether the agent block changed |
| `ConfigReplay.DiffPartitionsTheChange` | bridge/src/config-controller.ts:120-136 | Added, removed and modified names are disjoint and together exactly the names on which the two configs differ |
| `ConfigReplay.ReactTo` | bridge/src/agent-core.ts:4832-4864 | One valid read moves one service: gone if dropped, on its new definition if new or changed, otherwise untouched |
| `ConfigReplay.RunningIs` | bridge/src/agent-core.ts:4820-4864 | Over any mix of valid, invalid and missing reads, exactly those services of the last valid config run that ran at the start or were ever added or edited, under their newest definitions |
| `ConfigReplay.RunsTheLastValidConfig` | bridge/src/config-controller.ts:70-98 | With every seeded service running at the start, the last valid config runs, exactly |
| `ConfigReplay.EditingStartsAHeldBackService` | bridge/src/agent-core.ts:4806-4808 | A service held back by `autoStart: false` is started by editing it |
| `ConfigReplay.ConfigWatch.OnRead` | bridge/src/config-controller.ts:74-80 | A debounced read updates the last valid config and applies the diff, and a bad one changes nothing |
| `VariableResolution.ReplaceInStages` | bridge/src/config.ts:146-156 | Two passes over a text are one pass in which the first pass's answers win, whenever those the text asks for are harmless |
| `VariableResolution.StagedResolution` | bridge/src/config.ts:131-156 | Resolving against one context and later against another is resolving once against both merged, the earlier winning, whenever the earlier one's values for the text are harmless |
| `VariableResolution.StagesAgreeIffHarmless` | bridge/src/config.ts:146-156 | For one value: on every text, and whatever a later stage resolves, staging agrees with a single pass exactly when every `$` of a `$` followed by that value is followed by something other than `{`, or by `{}` |
| `VariableResolution.TokensOfReplaced` | bridge/src/config.ts:146-147 | Replacing harmless values neither makes nor breaks a reference around them |
| `VariableResolution.UnresolvableIsVerbatim` | bridge/src/config.ts:154 | A text none of whose references resolves comes through verbatim |
| `VariableResolution.TokensRender` | bridge/src/config.ts:147 | Reading a text as characters and references loses nothing |
| `VariableResolution.EmptyValueMakesAReference` | bridge/src/config.ts:148 | A set but empty environment value can leave a new reference, which a later stage resolves and a single pass does not |
| `ProbePool.NeverMoreThanWidth` | bridge/src/capability-card.ts:241-250 | In every interleaving items are started in order, each at most once, and at most min(4, n) are running |
| `ProbePool.ResolvedMeansAllDone` | bridge/src/capability-card.ts:241-250 | When the pool resolves every item's job was started exactly once and has settled |
| `ProbePool.PoolProgresses` | bridge/src/capability-card.ts:246-248 | Whatever happens leaves less to do, and a worker that is neither done nor broken can move |
| `ProbePool.FilterIsStable` | bridge/src/capability-card.ts:219-233 | The filter answers what a one-at-a-time filter would, in the targets' order, however the probes settle |
| `ProbePool.Probing.Take` | bridge/src/capability-card.ts:246-248 | A worker takes the next item or ends |
| `ProbePool.Probing.JobSettles` | bridge/src/capability-card.ts:226-231 | A wanted target fills its own slot and the worker goes on |
| `EnvFile.ParseEnv` | scripts/dev-setup.ts:31-43 | The loop reads the last legal line of each key, trimmed and out of its quotes |
| `EnvFile.SerializeEnv` | scripts/dev-setup.ts:62-75 | The loops print header, blank line, the ordered keys, then the others |
| `EnvFile.FillBlanks` | scripts/dev-setup.ts:50-60 | The loop fills exactly the blank keys and reports them in order |
| `EnvFile.RoundTripIff` | scripts/dev-setup.ts:31-75 | Printing and parsing gives the map back exactly when every key is legal and every value is on one line, trimmed and not in quotes, under any header that sets nothing |
| `EnvFile.ReadsBack` | scripts/dev-setup.ts:31-75 | A printed value reads back as itself trimmed and out of its quotes, and no other key appears |
| `EnvFile.PrintedOnceIff` | scripts/dev-setup.ts:62-75 | Each key is printed once exactly when the order names no present key twice |
| `EnvFile.CommentIsNeutral` | scripts/dev-setup.ts:62-63 | A comment without a newline is a header that sets nothing |
| `EnvFile.FillIs` | scripts/dev-setup.ts:50-60 | A non-empty value never changes, a blank key with a default gets it, and exactly those keys are reported |
| `EnvFile.SecondFillIff` | scripts/dev-setup.ts:45-60 | After a read, fill and write, a second read and fill fills nothing exactly when every value written for a default reads back as something |
| `EnvFile.ShippedSenderLosesItsQuotes` | scripts/dev-setup.ts:114 | A map holding the shipped sender address does not survive the round trip, because that default is in quotes |
| `Text.TrimFixesTrimmed` | scripts/dev-setup.ts:36 | Trimming leaves a text as it is exactly when neither end is white space |
| `FrameRates.MaxPerSlidingSecond` | bridge/scripts/terminal-frame-bench.ts:403-412 | The sweep finds the most events any half-open second holds, for events in any order |
| `FrameRates.MaxGapMs` | bridge/scripts/terminal-frame-bench.ts:418-427 | For ascending times from the start of the run on, the result is the longest stretch of the run without an event inside it, the first wait and the tail included |
| `FrameRates.LongestSilenceIsUnique` | bridge/scripts/terminal-frame-bench.ts:414-427 | Only one length is the longest silence |
| `FrameRates.PercentileIsNearestRank` | bridge/scripts/terminal-frame-bench.ts:385-388 | The percentile is the smallest sample with at least ceil(p * n) samples at or below it, the rank kept between 1 and n |
| `FrameRates.P95IsLastIff` | bridge/scripts/terminal-frame-bench.ts:71-74 | The 95th percentile's rank is the last sample exactly below twenty samples |
| `FrameRates.Summarize` | bridge/scripts/terminal-frame-bench.ts:390-396 | The summary's flag says exactly when the 95th percentile is the last sample, and then the two numbers are equal |

## Left out

- Path search: the clamping of project id, query, kinds and limit, which matched entries the second
  ignore verdict marks, the yields to the event loop, and the partial listing a failed stream read keeps.
- A cancelled walk is an empty aborted listing in `FindProtocol`; the partial paths it carries in the
  source are in `IgnoreWalk` only.
- Character codecs and Unicode case rules: chunks are character sequences, lower-casing is per
  character.
- Checkout lifecycle: running commands, untracked git verbs, the finder's and searcher's own stop,
  the poll's cadence, replay caches, the terminals of agent sessions and of the setup run, and any
  checkout but one managed one. Two terminal names never share an id.
- The watcher, the session and terminal managers, the registry and the keyed lock: only what the
  modelled code relies on. A process and its tree go together, and a service that fails to start is
  one that exits at once.
- That the last `git:status` sent equals the cache is not claimed.
- Control client: clock-skew correction, hello signing, capture details, and callbacks that call back
  into the client.
- Search: starting and cancelling the engine, the exit-code error, and the reading of one record.
  The total is not claimed to stay at the maximum, since the kill does not end the read loop.
- Config watch: the debounce timer, the file watch itself, and what a terminal does on kill. Equality
  of definitions is equality of their renderings.
- Variables: which config fields are resolved, and when; a later stage is any lookup at all.
- Probe pool: the remote cache's time to live; each probe's answer is fixed per target.
- Env files: secrets, the resynchronised values between filling and writing, and key order beyond
  what is passed in.
- Frame bench: rounding of floating-point times.
- The rest of the repository: message dispatch, transports, cryptography, access rules, user
  interface, packaging scripts.
