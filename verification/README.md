# A verified model of the platform's stateful cores

This project models, in Dafny, the parts of the repository whose correctness depends on state, order and time, and
proves what they promise.

* **MCP session pool** (`SessionPool*.dfy`, `SessionManager.dfy`). `rpc`, `reap_idle` and `shutdown` are tasks that
  interleave at every `await`; processes may die or print anything at any time. The state machine is in `SessionPool`,
  its invariant in `SessionPoolSafety`, progress in `SessionPoolProgress`, reply correlation in `SessionPoolReplies`,
  recency in `SessionPoolLru`, the guarantees in `SessionPoolTheorems`, what whole calls return in `SessionPoolCalls`, how
  they find, replace or fail to start a process and how sweeps end in `SessionPoolEdges`, and what becomes of a process
  in use in `SessionPoolEvictions`. The loops that run between two awaits are methods of the class `SessionManager`.
* **MARS runs** (`MarsPhases.dfy`, `MarsLog.dfy`, `MarsRuns.dfy`, `MarsWorker.dfy`, `MarsStore.dfy`, `SkillRouting.dfy`,
  `RoutingMeaning.dfy`). The plan of the worker's phases with both repair loops, the log of what a run does and sees in
  its awaits while stop requests are served, what follows each event of it, the worker itself, the store with the
  interleaved reads and saves of request handlers, claims and workers (of which only a claim is a transaction), and the
  choice of skills for each phase.
* **Background-worker lease** (`WorkerLease.dfy`). Claim, heartbeat, stop and cleanup on one row per worker, a global
  clock, and runs of these steps by any number of processes.
* **Kubernetes follow streams** (`LogFollow.dfy`, `FollowTrace.dfy`, `FollowConsumer.dfy`, `ContinuousFollow.dfy`).
  De-duplication of log windows, the polling and the continuous loops, and the finalise-once flag, with a disconnect or
  a cancellation in any await.
* **Access decisions and profiles** (`AccessDecision.dfy`, `AccessProfiles.dfy`), **redaction** (`TextLines.dfy`,
  `Redaction.dfy`, `RedactionMeaning.dfy`, `RedactionPaths.dfy`), the **interview** (`InterviewIds.dfy`,
  `InterviewShapes.dfy`) and the **green-commit ledger** (`StabilityLedger.dfy`).

`Options.dfy`, `Sequences.dfy`, `Strings.dfy` and `MapSum.dfy` hold shared definitions. `dafny verify dfyconfig.toml`
checks everything.

Awaits are numbered where a method models a coroutine: the environment is a record of functions that say what each await
brings, so a statement about every environment is a statement about every interleaving.

## Where the code does less than one might expect

For each of these a theorem says, for all inputs, when the code does what one expects; where another member is named
before it, that one is an input on which the code does not.

* A stop request stored between the load of the run and the save of its preparation is lost (`MarsWorker.LostStop`);
  the contract of `MarsWorker.MarsWorker.Execute` says which requests survive: those stored before or after.
* A Codex process killed by a stop exits non-zero, so that run ends FAILED and not STOPPED (`MarsWorker.KilledByStop`);
  which of the two it is, and when: `MarsLog.StoppedOrKilled`, `MarsLog.StoppedExactly`.
* A re-review counts even when its process failed, unlike the first review (`MarsPhases.FailedReReviewCounts`,
  exactly: `MarsPhases.ReviewLeads`).
* Two starts that overlap can share one approval (`MarsStore.LateStartRace`, exactly: `MarsStore.RidesExactly` and
  `MarsStore.StartKeepsCoveredExactly`), and a stop that overlaps a claim can write STOPPED over a run that a worker
  executes (`MarsStore.LateStopRace`, exactly: `MarsStore.StoppedEarlyExactly`).
* Heartbeat and stop do not look at who holds the lease (`WorkerLease.StolenLease`, exactly: `WorkerLease.HeartbeatExact`
  and `WorkerLease.StopExact`), and cleanup saves rows it read before (`WorkerLease.LateCleanupRace`, exactly:
  `WorkerLease.LateCleanupExact`).
* A failure may be recorded for a stream that was already closed (`FollowConsumer.FollowConsumer.FailureAfterClose`); in
  every run that is so if and only if a disconnect was served before or during the failing read
  (`FollowConsumer.FollowConsumer.LogFollowLoop`).
* Repeated log lines can be lost by the de-duplication (`LogFollow.RepeatedLineIsLost`, exactly: `LogFollow.DeltaExactly`,
  and over whole runs `LogFollow.NothingLostExactly`).
* `server_only` is reported exactly for staff accounts with its permissions (`AccessProfiles.ServerOnlyIsStaff`). A
  profile that grants staff-only features to others would not take effect (`AccessProfiles.AppliedIsEffective`, if and
  only if); with the shipped, empty set of staff-only features there is no such profile.
* Numbers, booleans and nulls under secret-like keys are not masked, exactly the texts are (`Redaction.NumberStays`).
* With more than ten accepted questions `success_criteria` may be cut off (`InterviewIds.ReservedCutAway`, exactly:
  `InterviewIds.ReservedExactly`), and without any and a `min_count` that is not positive the normalisation raises
  (`InterviewIds.NormalizeInterviewQuestions`).
* An option longer than 80 characters can be listed twice (`InterviewIds.LongOptionComesTwice`, exactly:
  `InterviewIds.OptionsDifferExactly`).
* The suffix loop for question ids need not end (`InterviewIds.UsedUp`, exactly: `InterviewIds.EndsExactlyWhenFree`); its
  only caller has at most twelve ids, for which it does (`InterviewIds.FewUsedIsFree`).
* The documentation of the session manager speaks of reusing one process per key; the code also lets an eviction, a reap,
  a call with another spec or a shutdown terminate a process that a request is using, and the model follows the code
  (`SessionPoolEvictions.EvictedInUse`, exactly: `SessionPoolEvictions.UsedIsEvicted`,
  `SessionPoolEvictions.UsedIsReaped`, `SessionPoolEvictions.UsedIsReplaced`, `SessionPoolEvictions.UsedIsShutDown`).

## Model

| member | source | states |
|---|---|---|
| `SessionPoolTheorems.DeadlockFree` | mcp_runner/sessions.py:94-99 | In every reachable interleaving, as long as some call of `rpc`, `reap_idle` or `shutdown` is unfinished, some unfinished call can take a step. |
| `SessionPoolTheorems.CallsTerminate` | mcp_runner/sessions.py:94-131 | If no new call starts and no process prints, the calls in flight take at most `Distance` further steps in any order, whichever processes die in between, and none can step if and only if all have returned: no deadlock and no livelock. |
| `SessionPoolTheorems.NoOrphans` | mcp_runner/sessions.py:112-124 | Every process that may be alive is registered under its own key or is being spawned or terminated by a running call. |
| `SessionPoolTheorems.AtRestOnlyRegistered` | mcp_runner/sessions.py:156-161 | Once all calls have returned, every live process is registered under its own key and no lock is held. |
| `SessionPoolTheorems.PoolNeverOverflows` | mcp_runner/sessions.py:126-130 | The registry never holds more than `max_sessions` entries (one, if the setting is not positive), also while sessions are being replaced. |
| `SessionPoolTheorems.PipesAreExclusive` | mcp_runner/sessions.py:157 | No two tasks use the pipes of one process at the same time: the handshake comes before registration, later use is under the session lock. |
| `SessionPoolTheorems.RightProcess` | mcp_runner/sessions.py:93-111 | A call only ever uses a process of its own key and spec fingerprint, whose handshake is over unless the call itself is spawning it, and it spawns at most two processes. |
| `SessionPoolTheorems.ResultsAreOwn` | mcp_runner/sessions.py:180-213 | A result handed back answers the request that this call itself sent after its handshake: the line has that request's id (section 5 of the JSON-RPC 2.0 Specification), comes from the process the request was written to, was printed after it was sent and read after it was written, and the process was spawned for the call's key and fingerprint. Conversely `SessionPoolCalls.AnswerIsReturned`: an answered request does return. |
| `SessionPoolCalls.AnswerIsReturned` | mcp_runner/sessions.py:199-213 | In every reachable state in which a call waits for its reply: if the n-th unread line of its process is the first that carries the id of the request, then after reading it the call is done. It returns the payload if the line holds a result and fails if not, releases the session lock, and changes nothing else. |
| `SessionPoolCalls.RequestIsServed` | mcp_runner/sessions.py:99-110 | A call that has found its process, alive and not in use, sends its request, skips everything the process had printed before, whatever it is, and returns the reply that comes; the use is stamped and all locks are as before. |
| `SessionPoolCalls.CallOfFoundProcess` | mcp_runner/sessions.py:93-110 | The whole of `rpc` for a process that is registered and alive: the payload of its reply is returned, and nothing is spawned or terminated. |
| `SessionPoolCalls.CallOfNewProcess` | mcp_runner/sessions.py:93-124 | The whole of `rpc` for a key without a process, in a pool with room: one process is spawned, answers the handshake and is registered, then serves the request; the payload of its reply is returned and no lock is left. |
| `SessionPoolCalls.ProcessIsOpened` | mcp_runner/sessions.py:112-124 | Up to the registration: the new process is registered under the key of the call with the spec of the call, it is the only one started, and everything else in the pool is as before. |
| `SessionPoolCalls.NoteIsSent` | mcp_runner/sessions.py:107-109 | A notification ends as sent if its write succeeds and fails if it does not, and there is no other way on. |
| `SessionPoolCalls.RequestFails` | mcp_runner/sessions.py:201-206 | A call that waits for its reply fails and releases the session as soon as its write or a read fails. |
| `SessionPoolCalls.FingerprintExactly` | mcp_runner/sessions.py:64-74 | Two specs have the same fingerprint if and only if their commands, arguments and environments are the same, where a missing part is the same as an empty one. |
| `SessionPoolEdges.LookUpExactly` | mcp_runner/sessions.py:112-121 | A look at the registry hands back the living process of the same key and spec, and otherwise keeps the registry locked, to terminate the outdated process first if there is one. |
| `SessionPoolEdges.DeadIsDiscarded` | mcp_runner/sessions.py:94-98 | A process found dead leaves the registry unless another one has taken its key; the call then looks again, holding the lock of the dead session. |
| `SessionPoolEdges.DeathIsNoticed` | mcp_runner/sessions.py:94-98 | So a process that dies after a call has found it is not used: the call drops it and looks again. |
| `SessionPoolEdges.HandshakeIsRead` | mcp_runner/sessions.py:163-178 | The handshake goes on to its last message if and only if the first line with its id holds a result, whatever is printed before that line. |
| `SessionPoolEdges.SpawnFails` | mcp_runner/sessions.py:132-161 | Wherever the start of a process breaks, the call fails, holds no lock any more, and the process it had started is dead; the registry is as before. |
| `SessionPoolEdges.RoomIsMade` | mcp_runner/sessions.py:126-130 | In a full pool the call can do one thing: take a session with the least stamp out of the registry and terminate it, and then ask again. |
| `SessionPoolEdges.RoomIsThere` | mcp_runner/sessions.py:126-135 | With room it fails on a blank command, leaving nothing behind, and goes on to spawn otherwise. |
| `SessionPoolEdges.SweepIsDone` | mcp_runner/sessions.py:258-277 | A reap from its first to its last await: exactly the sessions that were dead or overdue when it began leave the registry and die, in any order, and their number is returned; a shutdown does so to all. |
| `SessionPoolTheorems.NoReplyServesTwice` | mcp_runner/sessions.py:211-213 | Over a whole run no two requests are answered by lines with the same id, so a late reply to a request that timed out is never given to a later one. |
| `SessionPoolTheorems.WritesFollowHandshake` | mcp_runner/sessions.py:132-178 | Every message written belongs to a call of the process's key and fingerprint; it is a handshake message exactly if it comes before the process is opened for use. |
| `SessionPoolSafety.ReachableInv` | mcp_runner/sessions.py:83-131 | The inductive invariant behind the above (who holds which lock, what each task may hold at each await, who owns each process) holds in every reachable state. |
| `SessionPoolSafety.CreateStepOk` | mcp_runner/sessions.py:112-161 | Each step inside `_get_or_create` and `_spawn` keeps the invariant. |
| `SessionPoolSafety.UseStepOk` | mcp_runner/sessions.py:93-110 | Each step of `rpc` under a session lock keeps the invariant. |
| `SessionPoolSafety.SweepStepOk` | mcp_runner/sessions.py:258-277 | Each step of `reap_idle` and `shutdown` keeps the invariant. |
| `SessionPoolProgress.SomeTaskSteps` | mcp_runner/sessions.py:234-238 | From any unfinished task one arrives, along at most the session lock and then the registry lock, at a task that can step. |
| `SessionPoolProgress.StepApproaches` | mcp_runner/sessions.py:126-130 | Every step of a call lowers the bound `Distance` on the steps that remain. |
| `SessionPoolReplies.RunKeepsHistory` | mcp_runner/sessions.py:180-213 | Every schedule keeps the correlation between requests written, ids seen, lines delivered and results returned; every request waited for, and every request answered, was written before to the same process. |
| `SessionPoolLru.VictimIsOldest` | mcp_runner/sessions.py:126-130 | With a clock that advances between uses, taking the least `last_used` among the registered sessions is taking the head of the recency list, and no other choice is possible. |
| `SessionPoolLru.EvictsOldestWhenFull` | mcp_runner/sessions.py:126-130 | A call removes another key's session only when the pool is full, and then exactly the least recently used one. |
| `SessionPoolLru.ReapIsExact` | mcp_runner/sessions.py:258-270 | A reap removes exactly the entries that are dead or idle for longer than the time to live, keeps the others, and spares no session older than a live one it takes. |
| `SessionPoolLru.RunKeepsRecency` | mcp_runner/sessions.py:100 | In every run the time stamps refine one list of the sessions by last use. |
| `SessionPoolEvictions.EvictedExactly` | mcp_runner/sessions.py:126-130 | A call that makes room terminates a registered session if and only if it is the one used longest ago; nothing else about the session counts. |
| `SessionPoolEvictions.UsedIsEvicted` | mcp_runner/sessions.py:126-130 | So a process that a request is using is terminated by an eviction if and only if it is the one used longest ago; the request is left waiting for a dead process. |
| `SessionPoolEvictions.UsedIsReaped` | mcp_runner/sessions.py:258-270 | And by a reap if and only if it is dead already or its last use, which is the start of the request, is longer ago than the time to live. |
| `SessionPoolEvictions.UsedIsReplaced` | mcp_runner/sessions.py:112-124 | By a call of the same key if and only if it is dead or was spawned from another spec. |
| `SessionPoolEvictions.UsedIsShutDown` | mcp_runner/sessions.py:272-277 | And by a shutdown always. |
| `SessionPoolEvictions.EvictedInUse` | mcp_runner/sessions.py:94-130 | A run from the empty pool, in which no process dies of its own accord, that ends with a request waiting for a process that another call has evicted. |
| `SessionManager.AwaitReply` | mcp_runner/sessions.py:199-213 | The read loop ends at the first line that is not foreign, with that line's reply, with the end of the stream, or with a time-out if the deadline comes first. |
| `SessionManager.VerdictIsUnique` | mcp_runner/sessions.py:199-213 | That description allows one outcome only. |
| `SessionManager.SessionManager.EvictLeastRecent` | mcp_runner/sessions.py:128-130 | One eviction removes and terminates a session whose stamp is at most that of every session left. |
| `SessionManager.SessionManager.EvictIfFull` | mcp_runner/sessions.py:126-130 | The loop evicts exactly as many sessions as must go for one to fit, every evicted one used no later than any that stays, and terminates exactly those. |
| `SessionManager.SessionManager.ReapIdle` | mcp_runner/sessions.py:258-270 | The reaper removes exactly the stale entries, terminates them and returns their number. |
| `SessionManager.SessionManager.Shutdown` | mcp_runner/sessions.py:272-277 | Shutdown empties the registry and terminates everything that was registered. |
| `MarsWorker.MarsWorker.Execute` | mars/worker.py:39-288 | Whatever the phases return and whenever stop requests are served: what the run did, with the await of every phase, flag check and git read and what each of them saw, is the one lawful log of its environment, and that log alone decides whether it ends COMPLETED, STOPPED or FAILED. The flag keeps exactly the requests stored before the row was loaded or after the preparation was saved. It is STOPPED if and only if its last event is a check that saw the stop, and COMPLETED if and only if that is a review. |
| `MarsLog.CompletedMeans` | mars/worker.py:115-282 | COMPLETED: no request survived from before the preparation was saved, none was stored later until the flag was read after the last Codex phase, every Codex phase exited 0, and the plan is at its end. |
| `MarsLog.StoppedExactly` | mars/worker_phases.py:83-89 | A run with a stored stop ends STOPPED if and only if its flag was read at or after the moment the stop was stored. |
| `MarsLog.StoppedOrKilled` | mars/worker.py:113-116 | A stop stored before some Codex phase returned ends the run with that phase: STOPPED if and only if the phase still exited 0, FAILED otherwise, and never COMPLETED. |
| `MarsLog.EndingsExactly` | mars/worker.py:39-294 | The last event decides: STOPPED exactly after a check that saw the flag, FAILED exactly after a refused workspace, a failed git read of this run or a failing phase; which phases fail is said by `MarsRuns`. |
| `MarsRuns.AfterAdmission` | mars/worker.py:64-81 | The workspace is looked at first. A refused one ends the run FAILED at once; otherwise the architect runs next. |
| `MarsRuns.AfterArchitect` | mars/worker_phases.py:367-378 | A run ends with its architect if and only if an architect is required and could not be run, and then FAILED; otherwise the flag is read next. |
| `MarsRuns.AfterCodex` | mars/worker.py:113-116 | A run ends with a Codex phase if and only if that did not exit 0, and then FAILED; otherwise the flag is read next. |
| `MarsRuns.AfterCheck` | mars/worker.py:98-101 | A check sees a stop if and only if the preparation had kept one or one was served since; it ends the run STOPPED if and only if it does, and otherwise the phase follows that the one before it asks for. |
| `MarsRuns.AfterVerify` | mars/worker.py:121-176 | A run ends with a verification if and only if its command cannot be run. Before the first review a failed one is followed by a repair if and only if rounds are left; git is read next in all other cases. |
| `MarsRuns.AfterReview` | mars/worker.py:181-254 | A review is followed by a repair if and only if it asked for changes, rounds are left and, for the first one, it exited 0; otherwise the run is at its end, COMPLETED. |
| `MarsRuns.AfterGit` | mars/worker.py:178-188 | Git that cannot be read ends the run FAILED; otherwise the first review follows, or a later one once there was one. |
| `MarsRuns.LastEventDecides` | mars/worker.py:39-294 | STOPPED if the last event is a check that saw the stop, COMPLETED if it is a review, FAILED in all other cases. |
| `MarsRuns.FailedPhaseIsLast` | mars/worker.py:113-155 | No plan goes past a required architect that failed, a Codex phase that did not exit 0, or a verification that could not be run. |
| `MarsRuns.CompletedWord` | mars/worker.py:81-254 | The phases of a COMPLETED run are the whole word of its rounds, not only a prefix of it. |
| `MarsLog.NothingAfterStop` | mars/worker_phases.py:426-432 | Nothing follows a check that saw the flag: no phase starts after it. |
| `MarsLog.CodexIsChecked` | mars/worker.py:113-116 | After every Codex phase the run fails or reads the flag before it does anything else. |
| `MarsLog.RunIsDetermined` | mars/worker.py:60-288 | Settings, environment and the flag kept by the preparation determine everything a run does: there is one lawful log that is over. |
| `MarsLog.LawfulIsPlanned` | mars/worker.py:81-254 | The phases of every lawful log follow the plan. |
| `MarsWorker.KilledByStop` | mars/worker.py:113-114 | A stop served while the executor runs, which exits -15, ends the run FAILED with the flag set. |
| `MarsWorker.LostStop` | mars/worker.py:50-56 | A stop request stored while the preparation runs is overwritten: the run then completes with the flag cleared. |
| `MarsWorker.MarsWorker.CheckStop` | mars/worker_phases.py:83-89 | A check records what the flag is in its await; if it is set, the run is saved STOPPED and nothing else is due. |
| `MarsWorker.MarsWorker.RequestStop` | mars/views.py:306-314 | A stop request sets the flag and stops a run that is still queued. |
| `MarsWorker.MarsWorker.Prepare` | mars/worker.py:40-56 | The preparation writes back the flag as it was loaded, so what survives of a concurrent request is exactly what was loaded. |
| `MarsWorker.MarsWorker.RunPhases` | mars/worker.py:81-254 | From the checks of the workspace to the last review: the log stays lawful, and when the method returns it is over, with the ending that is returned. |
| `MarsWorker.MarsWorker.RepairLoop` | mars/worker.py:121-176 | Verification and the bounded repair loop: repair only after a failed verification, at most the configured number of times, each followed by a verification. |
| `MarsWorker.MarsWorker.ReviewLoop` | mars/worker.py:181-254 | Review and the bounded review-repair loop, including that a re-review counts whatever its exit code; the log stays lawful and is over. |
| `MarsWorker.MarsWorker.RunVerification` | mars/worker_phases.py:381-417 | One verification step appends one labelled history entry, unless its command cannot be run. |
| `MarsWorker.MarsWorker.RunCodex` | mars/worker.py:101-116 | The run fails here if and only if the Codex phase did not exit 0, also when a stop killed it; otherwise it ends STOPPED if and only if the flag is set at the check, and goes on. |
| `MarsWorker.MarsWorker.RunArchitect` | mars/worker_phases.py:350-378 | The run fails here if and only if an architect is required and its process could not be run; otherwise it ends STOPPED if and only if the flag is set at the check, and goes on to the executor. |
| `MarsLog.HistoryCounts` | mars/worker.py:128-168 | The test history has exactly one entry per verification step, save for a last one whose command could not be run. |
| `MarsRuns.HistoryEntry` | mars/worker.py:128-168 | The entries come in the order of the verifications, each with its result and the name of what came before it: the first attempt, or the repair or review repair with that number. |
| `MarsPhases.TraceGrammar` | mars/worker.py:81-254 | The phases of every run are a prefix of architect, executor, verify, (repair verify)^i, review, (repair [verify] review)^j, with i and j within the configured rounds. |
| `MarsPhases.TraceBound` | mars/orchestrator.py:32-37 | A run has at most 4 + 2R + 3V phases for R repair rounds and V review rounds. |
| `MarsPhases.FormGrows` | mars/worker.py:132-254 | The form of a trace with given counts, followed by an allowed next phase, is the form with the new counts. |
| `MarsPhases.ReviewLeads` | mars/worker.py:196-197 | A review leads to a repair if and only if it asked for changes, rounds are left and, for the first review only, its process exited 0. |
| `MarsPhases.FailedReReviewCounts` | mars/worker.py:181-254 | The same failed review that is disregarded the first time starts another repair when it comes second. |
| `MarsStore.MarsStore.ClaimNextRun` | mars/services.py:322-335 | A claim returns a queued run that nobody else has locked, with the least creation time among those and the least id among those of that time, and marks it running and nothing else; it returns nothing if and only if there is no such run. |
| `MarsStore.MarsStore.StopRun` | mars/views.py:301-316 | A stop with nothing in between sets the flag of its run and makes it STOPPED if it was queued; no other run changes. |
| `MarsStore.MarsStore.StartRun` | mars/views.py:254-273 | A start with nothing in between: only an approved session gets a run and uses the approval up; a refused start leaves everything as it was. |
| `MarsStore.MarsStore.ReadStart` | mars/views.py:257-268 | The first step of a start reads the session; it goes on only if that is approved and the policy checks pass. |
| `MarsStore.MarsStore.CreateRun` | mars/services.py:347-354 | Its second step puts the run into the queue, whatever has happened to the session since. |
| `MarsStore.MarsStore.SaveStart` | mars/services.py:355-356 | Its third step marks the session as running, whatever its status has become. |
| `MarsStore.MarsStore.SaveStop` | mars/views.py:306-314 | The save of a stop writes the flag, and STOPPED over whatever status the run has by now, if the run was queued when the stop read it. |
| `MarsStore.MarsStore.ApprovePlan` | mars/views.py:235-249 | Approval makes the session approved, from any state. |
| `MarsStore.MarsStore.AnswerInterview` | mars/views.py:210-230 | Answering makes the plan ready and takes an unused approval back. |
| `MarsStore.WorkersNeverQueue` | mars/worker.py:273-289 | None of the statuses with which a worker ends a run is the queued one. |
| `MarsStore.ClaimedOnce` | mars/services.py:322-335 | In every interleaving of the steps of starts and stops, of the other handlers, of claims and of the saves of workers, no run is handed out twice. |
| `MarsStore.StoppedEarlyIsNeverClaimed` | mars/views.py:301-316 | A run that is queued when a stop reads it and when that stop is saved is never handed to a worker, neither before nor after. |
| `MarsStore.StoppedEarlyExactly` | mars/views.py:301-316 | A run that a stop read as queued is never handed to a worker if and only if it was not before the stop is saved. |
| `MarsStore.LateStopRace` | mars/views.py:301-316 | An interleaving in which it was: a claim between the read and the save of a stop leaves a run that a worker executes stored as STOPPED. |
| `MarsStore.RunsArePaid` | mars/views.py:235-273 | In every interleaving the runs of a session are at most its approvals and its rides, that is the starts accepted on an approval that another start has used; without rides there are never more runs than approvals. |
| `MarsStore.RidesExactly` | mars/views.py:254-273 | A start rides if and only if another one was accepted since the last approval of its session, which happens only while such a start is still under way: starts that do not overlap never ride. |
| `MarsStore.StartKeepsCoveredExactly` | mars/views.py:254-273 | Accepting a start keeps the runs of the session covered by what was approved if and only if its approval is unused or an earlier payment is left over. |
| `MarsStore.LateStartRace` | mars/views.py:254-273 | An interleaving in which it does not: two starts read the session as approved, and one approval yields two runs. |
| `MarsStore.LeftForGood` | mars/services.py:322-335 | A run that has left the queue never comes back to it. |
| `MarsStore.MarsStore.DoWork` | mars/worker.py:45-56 | A save of a worker is one step of such an interleaving, on a run that was handed to it. |
| `MarsStore.FirstExists` | mars/services.py:325-329 | The order by creation time and id always has a first among the claimable runs. |
| `SkillRouting.BuildSkillRouting` | mars/orchestrator.py:49-83 | Every phase gets the best skills for its terms, or the first selected ones if none scores; the loop that fills empty phases at the end changes nothing. |
| `SkillRouting.BestAreTaken` | mars/orchestrator.py:74-80 | A scoring skill that a phase does not get comes after every skill that it gets, and then the phase has as many as the limit allows. |
| `SkillRouting.OnlySelected` | mars/orchestrator.py:74-80 | What a phase gets was selected and scores with its own name. |
| `SkillRouting.NoPhaseIsEmpty` | mars/orchestrator.py:81-83 | A phase is left without skills only if none was selected. |
| `RoutingMeaning.RoutedAreBest` | mars/orchestrator.py:70-79 | If some term occurs in the name of some selected skill, a phase gets only such skills, the ones in which most terms occur first and by name among equals, up to the limit; whatever is left out comes after all of them. |
| `RoutingMeaning.RoutedByDefault` | mars/orchestrator.py:79 | If no term occurs in any name, a phase gets the first selected skills up to the limit. |
| `RoutingMeaning.RoutedDiffer` | mars/orchestrator.py:70-79 | A phase gets no skill twice where none was selected twice. |
| `RoutingMeaning.SelectedExactly` | mars/orchestrator.py:40-50 | What the user named is what counts, each non-empty name at the first place where it stands; only where there is none, everything available does. |
| `RoutingMeaning.ScoreExactly` | mars/orchestrator.py:74-77 | A score is the number of terms that stand somewhere in the name. |
| `RoutingMeaning.SortedIsStable` | mars/orchestrator.py:79 | Skills with equal scores and names that compare equal keep their order. |
| `SkillRouting.OrderedUnique` | mars/orchestrator.py:40-46 | The non-empty items without repetitions, in the order of their first appearance. |
| `SkillRouting.SortedIsPermutation` | mars/orchestrator.py:79 | The sort rearranges the scored skills. |
| `SkillRouting.SortedIsOrdered` | mars/orchestrator.py:79 | By falling score and then by name. |
| `WorkerLease.LeaseTable.Claim` | app/worker_state.py:45-77 | A claim fails exactly while the row says running, its lease lasts beyond the moment the claim read and another process owns it, and then changes nothing; otherwise it writes the row of this worker alone, with a lease of the seconds asked for and of 30 at least. |
| `WorkerLease.LeaseTable.Heartbeat` | app/worker_state.py:91-103 | A heartbeat takes the row over, whoever holds it, and gives it a lease of the seconds asked for and of 30 at least; start, stop and error of the row and all other rows stay. |
| `WorkerLease.LeaseTable.Stop` | app/worker_state.py:128-138 | A stop ends the lease at once, whoever holds it, and keeps the old error unless given one, of which it keeps 4000 characters. |
| `WorkerLease.LeaseTable.Cleanup` | app/worker_state.py:158-173 | Cleanup stops exactly the running rows of the kind, or of any, without a valid lease and counts them; the end of the lease and the error stay where the row has them. Other rows stay as they are. |
| `WorkerLease.MutualExclusion` | app/worker_state.py:50-54 | In every run in which heartbeat and stop come only from processes without a rival, no two processes hold an unexpired lease on one worker. |
| `WorkerLease.ClaimLasts` | app/worker_state.py:50-61 | After a granted claim at `now` for `lease` seconds, another process is refused at a later moment if and only if that is before `now + 30` or before `now + lease`. |
| `WorkerLease.HeartbeatLasts` | app/worker_state.py:91-96 | The same after a heartbeat. |
| `WorkerLease.HoldsExactly` | app/worker_state.py:34-138 | In every run a process holds a lease if and only if its last word on it was a heartbeat or a granted claim, and 30 seconds, or as many as it asked for, have not passed since the moment that read. |
| `WorkerLease.LeaseIsHandedOver` | app/worker_state.py:34-173 | A run in which a lease is kept by a heartbeat to its last second, runs out, is cleaned up, goes to a rival, is stopped and comes back. |
| `WorkerLease.HolderIsSafe` | app/worker_state.py:158-172 | While a process holds the lease, a rival's claim changes nothing and cleanup leaves the row alone. |
| `WorkerLease.FreeLeaseIsGranted` | app/worker_state.py:45-77 | Once nobody holds the lease, by expiry or by a stop, a claim gets it if and only if no rival's lease ran beyond the moment the claim read as its own, and the new lease still runs when the claim commits; a claim that commits at once always gets it. |
| `WorkerLease.HeartbeatExact` | app/worker_state.py:91-96 | A heartbeat preserves the agreement between rows and holders if and only if no other process holds the lease. |
| `WorkerLease.StopExact` | app/worker_state.py:128-134 | The same for a stop. |
| `WorkerLease.StolenLease` | app/worker_state.py:91-96 | One heartbeat by a process that lost the race makes two processes hold the lease. |
| `WorkerLease.LateCleanupExact` | app/worker_state.py:165-171 | A stale row saved later than it was read is harmless if and only if the row is not leased at that moment. |
| `WorkerLease.LateCleanupRace` | app/worker_state.py:158-172 | Read as stale, claimed anew, then saved as stopped: two processes hold the lease. |
| `WorkerLease.RunAgreed` | app/worker_state.py:34-173 | The invariant of the lease protocol over all runs: who believes it holds a lease is who the row names, until the same moment, and conversely. |
| `LogFollow.Deduplicate` | kubernetes_ops/consumers_helpers.py:43-67 | The loop finds the longest overlap of the two windows; the result is the rest of the current window with its new counters, or the payload itself when nothing overlaps. |
| `LogFollow.OverlapIsLongest` | kubernetes_ops/consumers_helpers.py:54-59 | No overlap of the two windows is longer than the one found. |
| `LogFollow.Reassembly` | kubernetes_ops/consumers.py:143-155 | For arbitrary windows, the concatenation of everything delivered ends with the latest raw window. |
| `LogFollow.DeltaIsShortest` | kubernetes_ops/consumers_helpers.py:54-67 | No shorter extension of the previous window ends with the current one. |
| `LogFollow.DeliveredOnce` | kubernetes_ops/consumers.py:143-155 | On an append-only log with distinct lines nothing is delivered twice, and exactly the lines that some window showed are delivered. |
| `LogFollow.NothingLost` | kubernetes_ops/consumers.py:143-155 | On distinct lines, while consecutive windows overlap or abut, the client ends up with the shown part of the log, complete and in order. |
| `LogFollow.GapIsLost` | kubernetes_ops/consumers.py:143-155 | A line that no window showed is never delivered. |
| `LogFollow.DeltaExactly` | kubernetes_ops/consumers_helpers.py:54-67 | For any log, repeated lines or not: the delta is exactly what the previous window had not shown if and only if no more lines than the windows share look alike at the end of one and the beginning of the other; otherwise it is shorter. |
| `LogFollow.DeliveredExactly` | kubernetes_ops/consumers.py:143-155 | For any log and any run of advancing windows never more is delivered than they show, and exactly that if and only if this holds of every two consecutive windows. |
| `LogFollow.NothingLostExactly` | kubernetes_ops/consumers.py:143-155 | While windows overlap or abut, the client ends up with the shown stretch of the log if and only if this holds of every two consecutive windows. |
| `LogFollow.RepeatedLineIsLost` | kubernetes_ops/consumers_helpers.py:54-59 | An input on which it is not: the third of three equal lines is taken for an old one and never arrives, although a window showed it. |
| `LogFollow.Reduce` | kubernetes_ops/consumers.py:143-145 | Comparing each payload with the raw payload before it keeps what was sent equal to what the windows deliver. |
| `LogFollow.ConcatInOrder` | kubernetes_ops/consumers.py:143-155 | What the client puts together is the lines of what was sent, one payload after the other. |
| `LogFollow.WindowsExactly` | kubernetes_ops/consumers_helpers.py:43-53 | The window of a payload is its list of lines, and empty where it carries none. |
| `FollowTrace.ClosedOnce` | kubernetes_ops/consumers_mixins.py:42-46 | For one tracked stream `close_admin_stream` is called at most once, and never after a failure was recorded. |
| `FollowTrace.FailedOnce` | kubernetes_ops/consumers_mixins.py:67-69 | A failure is recorded at most once. |
| `FollowTrace.StoppedMeans` | kubernetes_ops/consumers.py:164-169 | Once the stream is stopped exactly one `stream_stopped` was sent: the loop had closed the stream with that reason, that session status and the number of batches sent, and nothing but the end of the handle comes after. |
| `FollowTrace.ReadAfterCheck` | kubernetes_ops/continuous_log_streams.py:56-65 | Every provider read is in the await right after one that found the session active. |
| `FollowTrace.NumbersInOrder` | kubernetes_ops/consumers.py:143-163 | Batches are numbered from one without gaps, and every heartbeat and the close carry the number of batches sent before them. |
| `FollowTrace.BatchAfterRead` | kubernetes_ops/consumers.py:119-155 | Every batch comes of one read before it, which no other batch passes on, before the session is looked at again. |
| `FollowTrace.HandleInOrder` | kubernetes_ops/continuous_log_streams.py:34-103 | The access is checked once and before any look at the session, the handle is opened after that, is read from only while it is open, and is closed once; a follow that asks has none. |
| `FollowTrace.EndsAtEof` | kubernetes_ops/continuous_log_streams.py:70-92 | Nothing is read after the end of the provider's stream; `provider_eof` is only said after it, and a loop that met it says nothing else unless it is cancelled. |
| `FollowTrace.NothingAfterEnd` | kubernetes_ops/consumers.py:156-170 | After a recorded failure only the handle is closed, and after the loop's own close the stream is besides only said to be stopped. |
| `FollowTrace.SummaryMeans` | kubernetes_ops/consumers.py:276-305 | What the running summary of a trace says: what was received and sent, the newest version, and that every read asked for it and every batch carries it. |
| `FollowTrace.LatestExactly` | kubernetes_ops/consumers.py:295-302 | The newest version is the one named by the last read that named any, and the one the follow began with if none did. |
| `FollowTrace.SummaryTells` | kubernetes_ops/consumers.py:276-305 | So, event by event: every polling read asks for the version of the last read before it that named one, or for the first version, and every batch carries that. |
| `FollowTrace.ReadsList` | kubernetes_ops/consumers.py:143-155 | What counts as received is the payload of every read, in order and none left out. |
| `FollowTrace.SentList` | kubernetes_ops/consumers.py:143-155 | And what counts as sent is the payload of every batch. |
| `FollowConsumer.HonestRead` | kubernetes_ops/consumers.py:126-142 | Every read of a trace brought what the provider answered in its await. |
| `FollowConsumer.FollowConsumer.TrackFollowStream` | kubernetes_ops/consumers_mixins.py:32-36 | Tracking a stream starts its lifecycle anew, with the initial payload as the last one and no batch. |
| `FollowConsumer.FollowConsumer.Deliver` | kubernetes_ops/consumers_mixins.py:38-40 | A batch becomes the last payload, with its number, and is sent. |
| `FollowConsumer.FollowConsumer.CloseActiveStream` | kubernetes_ops/consumers_mixins.py:42-54 | The flag is read and set in one step: the stream is closed exactly if it was tracked and not yet finalised. |
| `FollowConsumer.FollowConsumer.Guard` | kubernetes_ops/consumers.py:119-125 | The head of a round: past the idle timeout nothing is asked; otherwise the session is looked at once, and an inactive one ends the loop with its code. |
| `FollowConsumer.FollowConsumer.Fail` | kubernetes_ops/consumers_mixins.py:67-69 | A failure is recorded once, with the await, the code and the cause, and finalises the stream whatever happened to it before. |
| `FollowConsumer.FollowConsumer.Conclude` | kubernetes_ops/consumers.py:164-170 | A loop that nothing raised out of closes the stream once and then sends one `stream_stopped`, unless a disconnect closed it before. |
| `FollowConsumer.FollowConsumer.LogFollowLoop` | kubernetes_ops/consumers.py:99-170 | In every interleaving with disconnects and cancellations the loop leaves its stream finalised exactly as its outcome says, fails only with what the failing read brought, looks at most `max_batches` times, and has sent what its windows deliver. A failure is recorded after a close if and only if a disconnect was served up to the failing read. Every read is the provider's answer. |
| `FollowConsumer.FollowConsumer.WatchFollowLoop` | kubernetes_ops/consumers.py:255-327 | The same for watches. Every read asks for the version of the last read before it that named one, or for the version the follow began with, and every answer is passed on as it came. |
| `FollowConsumer.FollowConsumer.FailureAfterClose` | kubernetes_ops/consumers_mixins.py:67-72 | A failure can be recorded for a stream that is already closed: when a disconnect is served during the read that fails. |
| `ContinuousFollow.RunContinuousFollow` | kubernetes_ops/continuous_log_streams.py:19-103 | Both continuous loops: the stream is left as the outcome says, the handle is closed on every path on which it was opened, everything that is not empty is passed on in order, and the number of rounds is bounded. A failure is what its await brought (a refused access, a handle that could not be opened, a broken read right after an active look), and `provider_eof` is reported if and only if the last read found the end. Event by event: every read is the chunk of its await, what was sent is the shaped chunks without the empty ones, and every batch carries the version of the last read that named one. |
| `ContinuousFollow.PassedInOrder` | kubernetes_ops/continuous_watch_streams.py:86-105 | What is passed on is, chunk after chunk, nothing for an empty chunk and the shaped chunk for any other. |
| `ContinuousFollow.Rest` | kubernetes_ops/continuous_watch_streams.py:84-94 | An empty chunk that is not the end costs one sleep; before it one heartbeat is sent if and only if the interval has passed since the last one. |
| `ContinuousFollow.Rounds` | kubernetes_ops/continuous_watch_streams.py:59-105 | The loop ends: at most `max_batches` plus idle timeout over sleep (rounded up) looks at the session, because every round uses up a batch or a sleep's share of the idle timeout. |
| `ContinuousFollow.OpenHandle` | kubernetes_ops/continuous_log_streams.py:34-51 | Before the first round: the handle is open exactly if the access was granted and the opening succeeded; otherwise the failure recorded is the one that occurred. |
| `ContinuousFollow.Round` | kubernetes_ops/continuous_log_streams.py:53-92 | One round looks at most once and reads at most once, in the await after an active look; the chunk read there is what was received and becomes a batch unless it is empty; an empty one costs at least the sleep; every batch so far carries the newest version named before it. |
| `ContinuousFollow.Ticks` | kubernetes_ops/continuous_log_streams.py:23-29 | The least number of sleeps that covers the idle timeout is less than their quotient plus one. |
| `ContinuousFollow.RoundsAtMost` | kubernetes_ops/services/admin_streams.py:313-326 | Whatever the query asks for, no continuous follow makes more than 6025 rounds. |
| `ContinuousFollow.RoundsByDefault` | kubernetes_ops/continuous_log_streams.py:20-29 | With no parameters: 5 batches, 60 seconds, a heartbeat every 10 and sleeps of a quarter second, hence at most 245 rounds. |
| `ContinuousFollow.SettingsMeant` | kubernetes_ops/continuous_log_streams.py:20-29 | Batches are taken between 1 and 25, the idle timeout between 1 and 300 seconds, the heartbeat between 1 and 60, the sleep between 0.05 and 5; what lies outside becomes the bound. |
| `ContinuousFollow.BoundedInt` | kubernetes_ops/services/admin_streams.py:313-318 | An integer parameter comes out as the nearest value within its bounds; whatever the integer parser rejects, as "2.7", "inf", "nan" or nothing, gives the default. |
| `ContinuousFollow.BoundedFloat` | kubernetes_ops/services/admin_streams.py:321-326 | A float parameter comes out as the nearest value within its bounds; infinities give the bounds, "nan" the minimum, and an absent or malformed text the default. |
| `ContinuousFollow.Release` | kubernetes_ops/continuous_log_streams.py:100-103 | An open handle is closed after the stream is finalised, whatever the outcome. |
| `AccessDecision.DecidersAgree` | core_ui/access.py:145-242 | For every authenticated user and all rows both deciders give the same answer on every listed feature. |
| `AccessDecision.FeatureAllowedForUser` | core_ui/access.py:145-185 | The single decision: staff-only features, then the user's row, then the groups, then the older features in order, then the default. |
| `AccessDecision.WhoDecides` | core_ui/access.py:145-185 | The decision feature by feature: staff-only, the user's row, the groups, for pipelines and runs the rows on Studio and then on Agents, for studio agents those on Agents, each the user's before the groups'; with no row, seven features are closed, three are open to all, and every other one to staff. |
| `AccessDecision.BuildEffective` | core_ui/access.py:200-242 | The payload covers exactly the listed features, each with that decision and with the one source that belongs to it. |
| `AccessDecision.SummarizeGroupPermissions` | core_ui/access.py:134-142 | A denial by any group wins, and a feature without group rows gets no entry. |
| `AccessDecision.SummaryIsUnique` | core_ui/access.py:134-142 | That determines the summary. |
| `AccessDecision.RowsAreMonotone` | core_ui/access.py:165-175 | Granting a feature never takes another one away and denying one never gives another, also through the older features. |
| `AccessDecision.OptInNeedsGrant` | core_ui/access.py:177-178 | An opt-in feature is open to nobody, staff included, without a row that grants it. |
| `AccessProfiles.Account.ApplyAccessProfile` | core_ui/domain_auth.py:218-253 | Applying a named profile sets the staff flag and overwrites the listed rows; reset deletes all rows, custom and an unknown name change nothing. |
| `AccessProfiles.ReportProfile` | core_ui/access.py:244-261 | What the settings page reports, characterised for each of its answers. |
| `AccessProfiles.ReportIsUnique` | core_ui/access.py:244-261 | The characterisation allows one answer per account. |
| `AccessProfiles.AppliedIsEffective` | core_ui/domain_auth.py:241-253 | After a named profile was applied the effective permissions are the profile's if and only if it grants non-staff no staff-only feature, for any set of staff-only features; the shipped set is empty (`core_ui/models/access.py:42`). |
| `AccessProfiles.ProfileRoundTrip` | core_ui/domain_auth.py:234-253 | Then the reported profile has the same permission map and staff flag; its name is the applied one, except that `server_only` is reported as `operator_server_only` and `admin_full` as `platform_admin`. |
| `AccessProfiles.ProfileTable` | core_ui/access.py:39-63 | Which listed features each profile grants. |
| `AccessProfiles.OnlyAdministratorsOptIn` | core_ui/access.py:84-90 | Of the named profiles only the two full administrators grant a feature that needs a grant of its own. |
| `AccessProfiles.ReportedIsHeld` | core_ui/access.py:244-261 | Conversely an account has the permissions of the profile reported for it, and its staff flag unless that is `server_only`. |
| `AccessProfiles.ServerOnlyIsStaff` | core_ui/access.py:258-259 | `server_only` is reported if and only if the account is staff and has exactly its permissions, although applying it takes the staff flag away. |
| `AccessProfiles.AdminFullIsPlatformAdmin` | core_ui/access.py:260-261 | `admin_full` is never reported. |
| `AccessProfiles.ResetIsPilot` | core_ui/domain_auth.py:237-239 | After a reset an account without staff flag and group rows is reported as `pilot_user`. |
| `AccessProfiles.Listed` | core_ui/models/access.py:6-27 | The listed features are exactly the twenty named ones. |
| `Redaction.RedactPayload` | app/egress_redaction.py:222-255 | The redacted tree, a report with exactly the found labels and their numbers, and the hashes without duplicates in order of first appearance. |
| `Redaction.Recorder.Redact` | app/egress_redaction.py:231-252 | The recursive rewrite of a tree and everything it takes out, in order, into the shared report and hashes. |
| `Redaction.Recorder.Merge` | app/egress_redaction.py:226-229 | Adding a child's report label by label is the report of both. |
| `Redaction.NonInterference` | app/egress_redaction.py:231-252 | Two trees that differ only in texts whose nearest key is secret-like give the same redacted tree and the same findings, kind by kind, for any nesting of dicts, lists and tuples. |
| `Redaction.ReportNonInterference` | app/egress_redaction.py:222-255 | And therefore the same report. |
| `Redaction.RedactedIsMasked` | app/egress_redaction.py:243-248 | In a redacted tree every text whose nearest key is secret-like is that key's mask, and every other text came out of `redact_text`. |
| `RedactionPaths.NoSecretIsLeft` | app/egress_redaction.py:231-252 | Wherever a text stands in a redacted tree: under a secret-like key it is the mask of that key, and elsewhere no pattern finds anything in it, provided each pattern finds nothing in what it or the others have replaced. |
| `RedactionPaths.RedactedAt` | app/egress_redaction.py:231-252 | A redacted tree has the places of the original and no others; each holds what stood there, except that a text is the mask of its nearest key if that is secret-like and the redacted text otherwise, and a tuple has become a list. |
| `RedactionPaths.SecretsMakeNoDifference` | app/egress_redaction.py:231-252 | Two payloads that are alike at every place, save for texts under secret-like keys, give the same redacted payload and findings of the same kinds. |
| `RedactionPaths.FoundTextByText` | app/egress_redaction.py:231-252 | What a payload's report counts is one finding for every text under a secret-like key and the findings of every other text, in the order of the traversal. |
| `RedactionPaths.TextIsListed` | app/egress_redaction.py:231-252 | No text of the payload is passed over in that. |
| `Redaction.NumberStays` | app/egress_redaction.py:240-241 | A leaf under a secret-like key becomes the mask if and only if it is a text; numbers, booleans and nulls stay readable. |
| `Redaction.RedactedIsLeafwise` | app/egress_redaction.py:231-252 | Redaction changes leaves only: for any nesting of dicts, lists and tuples nothing is added, dropped, reordered or renamed, and every leaf is what redacting it alone gives. |
| `Redaction.ReportAddsUp` | app/egress_redaction.py:118-148 | The counts of a report add up to the number of hashes before duplicates are dropped. |
| `Redaction.Recorder.RedactText` | app/egress_redaction.py:118-148 | The patterns run one after the other, then instructional lines are replaced; every match and every such line is counted once. |
| `RedactionMeaning.NoMatchIsLeft` | app/egress_redaction.py:127-135 | If each pattern finds nothing in what it has replaced, and no replacement brings back a match of a pattern that had none, then no pattern finds anything in the text after all replacements. |
| `RedactionMeaning.RedactedHoldsNoMatch` | app/egress_redaction.py:118-148 | Nor in the redacted text, if replacing lines by the placeholder brings back no match. |
| `RedactionMeaning.SanitizedHoldsNoMatch` | app/egress_redaction.py:155-198 | Nor in a sanitised observation or prompt text. |
| `RedactionMeaning.RulesRunInOrder` | app/egress_redaction.py:127-135 | The patterns are replaced one after the other, each in what the ones before left. |
| `RedactionMeaning.MatchesAreRecorded` | app/egress_redaction.py:129-133 | Every match of every pattern, in what the ones before left, is recorded once, with the label of the pattern and the hash of what was matched. |
| `RedactionMeaning.CaughtAreRecorded` | app/egress_redaction.py:137-145 | Exactly the lines whose stripped form is not empty and matches are recorded, in order and by the hash of that form. |
| `RedactionMeaning.HarmlessStays` | app/egress_redaction.py:118-148 | A text in which no pattern finds anything and no line is caught comes out as it was, with uniform line breaks, and nothing is recorded. |
| `Redaction.Recorder.SanitizeLines` | app/egress_redaction.py:201-219 | Line by line, a caught line becomes the placeholder and is counted, any other stays; the number of lines is kept. |
| `Redaction.FilteredIsClean` | app/egress_redaction.py:201-219 | The filtered lines contain no caught line if and only if the placeholder is not caught or nothing was. |
| `Redaction.FilterIsIdempotent` | app/egress_redaction.py:201-219 | On clean lines a second pass changes and finds nothing. |
| `Redaction.SanitizeObservationText` | app/egress_redaction.py:155-175 | Redaction, then the control-line filter on the result's lines; the report and the hashes are those of what both took out, in order, the hashes once each unless the redaction left nothing of the text. |
| `Redaction.SanitizePromptContextText` | app/egress_redaction.py:178-198 | And then the prompt-context filter, into the same report; dropping duplicate hashes twice is dropping them once. |
| `RedactionMeaning.SanitizedLineByLine` | app/egress_redaction.py:155-198 | A sanitised observation is the redacted text and a sanitised prompt text is that observation, line by line with every caught line replaced, and what is recorded grows by the lines caught. |
| `RedactionMeaning.RedactedLineByLine` | app/egress_redaction.py:137-148 | And the redacted text is so for what the patterns left. |
| `Redaction.PromptTextIsClean` | app/egress_redaction.py:178-198 | No line of the final text, split again, is caught by any of the three filters, provided none of them catches a placeholder and placeholders are one line. |
| `Redaction.ObservationIsClean` | app/egress_redaction.py:155-175 | The same for observations and their two filters. |
| `TextLines.SplitJoin` | app/egress_redaction.py:137-146 | Joining lines and splitting the text gives the lines back, except that one empty last line is lost. |
| `TextLines.SplitAtBreak` | app/egress_redaction.py:137 | The first line of a text ends at its first break, whichever of the breaks of `splitlines` it is; a carriage return and a newline are one. |
| `InterviewIds.SafeQuestionId` | mars/interview_questions.py:98-109 | On every input on which the suffix loop ends, the id is the stem or its first free candidate, within |used| + 1 tries. |
| `InterviewIds.CandidatesDiffer` | mars/interview_questions.py:102-106 | Different counters below a bound that is at least ten million give different candidates, for every stem. |
| `InterviewIds.EndsExactlyWhenFree` | mars/interview_questions.py:104-106 | For every stem the loop ends if and only if the stem or one of its candidates below that bound is free: later ones are cut to earlier ones. |
| `InterviewIds.UsedUp` | mars/interview_questions.py:104-106 | For every stem there is a finite set of used ids on which the loop does not end. |
| `InterviewIds.FewUsedIsFree` | mars/interview_questions.py:132-144 | With fewer than ten million used ids it does; an interview has at most twelve. |
| `InterviewIds.Stem` | mars/interview_questions.py:99-102 | A stem is not empty, has at most 48 characters and only allowed ones. |
| `InterviewIds.ProperIdIsKept` | mars/interview_questions.py:99-102 | A proper id of at most 48 characters is its own stem. |
| `InterviewShapes.StemJoinsWords` | mars/interview_questions.py:99-102 | Words of allowed characters keep one underscore between them, whatever else stands between and around them. |
| `InterviewShapes.StemOfWord` | mars/interview_questions.py:99-102 | A word alone is its own stem, cut after 48 characters. |
| `InterviewShapes.StemByNumber` | mars/interview_questions.py:99-102 | A text without any allowed character gets a stem by its number. |
| `InterviewIds.NormalizeInterviewQuestions` | mars/interview_questions.py:125-163 | The result is empty if fewer than `min_count` of the first twelve items are acceptable; otherwise it is the first ten of them in order, with pairwise different ids, and `success_criteria` is among them unless the first item that wants it comes after the tenth. It raises if and only if `min_count` is not positive and no item is acceptable. |
| `InterviewShapes.QuestionsMeant` | mars/interview_questions.py:125-163 | The questions are, in order and up to ten, the items that ask something: a text, and free text or two options at least. Each has its item's first 180 characters, kind, options, obligation and placeholder, and as id its item's stem or the first numbered one that is free; where no item wants `success_criteria`, the first question has it. |
| `InterviewShapes.OptionsExactly` | mars/interview_questions.py:112-122 | The options are the first 80 characters of the texts that are not empty and not listed already, in order, until there are six; there is one way to do so. |
| `InterviewShapes.AcceptableExactly` | mars/interview_questions.py:136-145 | An item is accepted if and only if it is an object with a text that asks for free text or has two options to offer. |
| `InterviewIds.ReservedExactlyOnce` | mars/interview_questions.py:161-163 | With at most ten acceptable items exactly one question has the id `success_criteria`. |
| `InterviewIds.ReservedExactly` | mars/interview_questions.py:161-163 | The result lacks `success_criteria` if and only if more than ten items are accepted and the first one that wants it comes after the tenth. |
| `InterviewIds.ReservedCutAway` | mars/interview_questions.py:161-163 | Ten questions with the id "a" and an eleventh with the reserved id: the result has ten questions and none with that id. |
| `InterviewIds.AddQuestion` | mars/interview_questions.py:146-156 | Adding a question with a safe id keeps the ids different and records who got the reserved id. |
| `InterviewIds.BuildStringList` | mars/interview_questions.py:112-122 | The options kept of a list, with the early stop at six. |
| `InterviewIds.OptionsDifferExactly` | mars/interview_questions.py:112-122 | The options come out pairwise different if and only if no text of more than 80 characters, met while the list has room, shares its first 80 with an earlier one. |
| `InterviewIds.ShortOptionsDiffer` | mars/interview_questions.py:117-119 | So options of at most 80 characters come out pairwise different. |
| `InterviewIds.LongOptionComesTwice` | mars/interview_questions.py:117-119 | An input on which they do not: a longer text is not recognised when it comes again. |
| `StabilityLedger.RecordUniqueGreenSha` | scripts/ci_stability_clock.py:63-130 | The new ledger and the reported result, for reruns, new commits and malformed ones. |
| `StabilityLedger.RunCollects` | scripts/ci_stability_clock.py:63-130 | After any series of calls the list is still free of duplicates, only grew at its end, and has exactly its old members and those the calls named. |
| `StabilityLedger.RunIsExact` | scripts/ci_stability_clock.py:63-130 | It has grown by exactly the distinct new commits. |
| `StabilityLedger.OrderDoesNotMatter` | scripts/ci_stability_clock.py:76-97 | Order and repetition of the calls do not matter for what is counted. |
| `StabilityLedger.EntriesAreExact` | scripts/ci_stability_clock.py:80-118 | Every valid call appends one entry, no entry changes, and each is marked counted exactly on the first appearance of its commit. |
| `StabilityLedger.RecordIsExact` | scripts/ci_stability_clock.py:97-130 | On a proper ledger one call reports the length of the new list and accepts exactly an unknown commit. |
| `StabilityLedger.RerunCount` | scripts/ci_stability_clock.py:90-95 | A rerun reports the length of the list if and only if no two of its items are the same commit. |
| `StabilityLedger.NormalizedIsFixed` | scripts/ci_stability_clock.py:56-60 | A commit id in normal form is its own normal form. |
| `StabilityLedger.NormalizeExactly` | scripts/ci_stability_clock.py:56-60 | A commit id is accepted if and only if it is seven or more hexadecimal digits, in either case, between blanks, and its normal form is those digits in lower case. |
| `StabilityLedger.RejectedExactly` | scripts/ci_stability_clock.py:75-76 | A call is rejected if and only if its commit or some listed one is malformed. |
| `StabilityLedger.GateIsMonotone` | scripts/ci_stability_clock.py:133-191 | More calls and later days never close the gate again, and reruns never open it. |
| `StabilityLedger.OpensExactly` | scripts/ci_stability_clock.py:133-191 | From an empty ledger the gate is open if and only if enough days have passed since the start and the calls named enough different commits. |
| `StabilityLedger.ReadyExactly` | scripts/ci_stability_clock.py:133-191 | It is open if and only if the clock was started, the days since then reach their minimum and the list reaches its. |

## Left out

- The spec fingerprint is modelled by the normalised command, arguments and environment, not by their JSON text; that the
  values are turned into strings first is not modelled.
- Cancellation inside the session manager, failures of the database layer, and processes that survive their termination.
- Request ids are fresh by assumption, and the session clock advances between any two steps.
- The order in which waiting tasks get a lock: any waiting task may get a free lock, so fairness is not used or claimed.
- `SessionManager` runs its loops without other tasks in between; the interleaving is modelled on values in `SessionPool`.
- Reading from a process is line by line with nondeterministic content; standard error and the exact time-outs are not
  modelled, a read may fail at any time instead.
- The `initialize` answer's content (server info, capabilities, protocol version) and `stats`.
- MARS prompts, summaries, reports, events and Docker commands: they decide nothing about phases, stops or claims.
- The term lists of the phases are parameters of the skill routing; names compare in lower case by a given order.
- MarsWorker.MarsWorker.Execute: runs deleted while a worker executes them are not modelled, and the test output is kept
  as a list of entries without the cut to its last 40000 characters.
- MarsWorker.MarsWorker.RequestStop: a stop that read the run as queued before it was claimed also writes STOPPED over
  RUNNING; that late write is modelled in `MarsStore`, while in `MarsWorker` a stop is served in one await.
- MarsStore.MarsStore.ApprovePlan: an approval and an answer are one step each, since what they save does not depend on
  what they read; sessions and runs are not deleted.
- MARS plan texts and answers; the policy checks of a start appear as one refusal.
- WorkerLease.LeaseTable.Heartbeat: command, summary and cycle times of the row are not modelled.
- The follow consumers' start-up (authentication, opening the session, one-shot snapshots), exceptions other than those
  of the providers, and a handle whose opening finishes after its follow was cancelled.
- FollowConsumer.FollowConsumer.LogFollowLoop: an exception from sending to a client that is gone leaves the stream to
  `disconnect` and is not modelled.
- ContinuousFollow.RunContinuousFollow: logs and watches share one loop here, as the two source files differ only in what
  a chunk holds; how payloads are normalised is a function the environment supplies.
- Feature slugs are constructors, and case and surrounding blanks of a profile name are assumed to be normalised.
- Regular expressions, `strip` for redaction and hashing are functions the environment supplies; that the shipped
  placeholders are caught by none of the shipped patterns is a hypothesis of the lemmas about clean texts, and that no
  pattern finds anything in what it or another one has replaced is one of the lemmas about matches.
- Redaction.Recorder.Redact: floats, integers and booleans are one kind of scalar.
- Redaction.RedactedIsLeafwise: two keys of one dictionary that are the same as texts are excluded.
- InterviewIds.SafeQuestionId: the wanted id comes stripped and in lower case.
- Items of an interview come with texts and options whose blanks are already collapsed.
- StabilityLedger.RecordUniqueGreenSha: the other fields of an entry are one note, and dates are counted in days.
- Plugin, marketplace, server and Kubernetes views, the exec, shell and port-forward streams, and the front end.
