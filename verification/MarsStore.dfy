/**
  The stored sessions and runs of MARS, and what request handlers, queue claims and workers do to them.  Only a claim is
  a transaction.  A start and a stop read a row, decide, and save later, and anything may happen in between; the other
  handlers save what does not depend on what they read.  A run of the system is any series of these steps.
 */
module MarsStore {
  import opened MarsLog
  import opened MarsWorker
  import opened Options
  import opened Sequences

  type SessionId = nat
  type RunId = nat
  type Request = nat

  datatype SessionStatus = Interview | PlanReady | Approved | SessionRunning | SessionCompleted
  datatype Run = Run(session: SessionId, createdAt: nat, status: Status, stop: bool)

  /** A start that was accepted, and whether it has created its run; a stop, and whether it saw the run queued. */
  datatype Start = Start(session: SessionId, created: bool)
  datatype Stop = Stop(run: RunId, sawQueued: bool)

  /** The rows, the requests under way, and two pieces of history: the runs handed to workers so far, in order, and the
      sessions whose last approval no start has used. */
  datatype Store = Store(sessions: map<SessionId, SessionStatus>, runs: map<RunId, Run>,
                         starts: map<Request, Start>, stops: map<Request, Stop>,
                         claimed: seq<RunId>, unspent: set<SessionId>)

  datatype Answer = NotFound | NotApproved | PolicyError | Done

  /** What the worker of a run writes: that it started, its copy of the flag, how it ended, and that its
      session is done. */
  datatype Work = MarkRunning | KeepFlag(flag: bool) | MarkOver(todo: Todo) | CompleteSession

  datatype Action =
    | CreateSession(s: SessionId)
    | AnswerInterview(s: SessionId)
    | ApprovePlan(s: SessionId)
    | ReadStart(q: Request, s: SessionId, refused: bool)
    | CreateRun(q: Request, id: RunId, createdAt: nat)
    | SaveStart(q: Request)
    | ReadStop(q: Request, r: RunId)
    | SaveStop(q: Request)
    | ClaimNextRun(locked: set<RunId>, choice: Option<RunId>)
    | DoWork(r: RunId, work: Work)

  const EMPTY_STORE := Store(map[], map[], map[], map[], [], {})

  // ---------- The queue ----------

  /** `ORDER BY created_at, id`. */
  predicate Before(runs: map<RunId, Run>, a: RunId, b: RunId)
    requires a in runs && b in runs
  {
    runs[a].createdAt < runs[b].createdAt || (runs[a].createdAt == runs[b].createdAt && a <= b)
  }

  /** The queued runs that no other transaction has locked. */
  function Claimable(runs: map<RunId, Run>, locked: set<RunId>): set<RunId> {
    set r | r in runs && runs[r].status == Queued && r !in locked
  }

  /** The first claimable run, or None if there is none. */
  predicate IsFirst(runs: map<RunId, Run>, locked: set<RunId>, choice: Option<RunId>) {
    if choice.None? then Claimable(runs, locked) == {}
    else choice.value in Claimable(runs, locked) && forall r <- Claimable(runs, locked) :: Before(runs, choice.value, r)
  }

  lemma {:induction false} FirstExists(runs: map<RunId, Run>, among: set<RunId>) returns (first: RunId)
    requires among != {} && among <= runs.Keys
    ensures first in among && forall r :: r in among ==> Before(runs, first, r)
    decreases |among|
  {
    first :| first in among;
    var rest := among - {first};
    if rest != {} {
      var other := FirstExists(runs, rest);
      if Before(runs, other, first) {
        first := other;
      }
      forall r | r in among ensures Before(runs, first, r) {
        assert r in rest || r !in rest;
      }
    }
  }

  // ---------- Steps ----------

  function StartAnswer(sessions: map<SessionId, SessionStatus>, s: SessionId, refused: bool): Answer {
    if s !in sessions then NotFound else if sessions[s] != Approved then NotApproved else if refused then PolicyError
      else Done
  }

  function Stopping(run: Run, sawQueued: bool): Run {
    run.(stop := true, status := if sawQueued then Stopped else run.status)
  }

  function Worked(store: Store, r: RunId, work: Work): Store
    requires r in store.runs
  {
    var run := store.runs[r];
    match work
    case MarkRunning => store.(runs := store.runs[r := run.(status := Running)])
    case KeepFlag(flag) => store.(runs := store.runs[r := run.(stop := flag)])
    case MarkOver(todo) => store.(runs := store.runs[r := run.(status := StatusAfter(todo))])
    case CompleteSession => store.(sessions := store.sessions[run.session := SessionCompleted])
  }

  /** One step; None where it cannot happen: the row to be created exists, the request is under way already or has not
      come so far, another run comes first, or the run was not handed to a worker or is not over. */
  function Next(store: Store, action: Action): Option<Store> {
    match action
    case CreateSession(s) =>
      if s in store.sessions then None else Some(store.(sessions := store.sessions[s := Interview]))
    case AnswerInterview(s) =>
      Some(if s in store.sessions then store.(sessions := store.sessions[s := PlanReady]) else store)
    case ApprovePlan(s) =>
      Some(if s in store.sessions then store.(sessions := store.sessions[s := Approved], unspent := store.unspent + {s})
           else store)
    case ReadStart(q, s, refused) =>
      if q in store.starts then None
      else if !StartAnswer(store.sessions, s, refused).Done? then Some(store)
      else Some(store.(starts := store.starts[q := Start(s, false)], unspent := store.unspent - {s}))
    case CreateRun(q, id, createdAt) =>
      if q !in store.starts || store.starts[q].created || id in store.runs then None
      else
        var s := store.starts[q].session;
        Some(store.(starts := store.starts[q := Start(s, true)],
                    runs := store.runs[id := Run.Run(s, createdAt, Queued, false)]))
    case SaveStart(q) =>
      if q !in store.starts || !store.starts[q].created then None
      else Some(store.(starts := store.starts - {q},
                       sessions := store.sessions[store.starts[q].session := SessionRunning]))
    case ReadStop(q, r) =>
      if q in store.stops then None
      else Some(if r in store.runs then store.(stops := store.stops[q := Stop(r, store.runs[r].status == Queued)])
                else store)
    case SaveStop(q) =>
      if q !in store.stops || store.stops[q].run !in store.runs then None
      else
        var Stop(r, sawQueued) := store.stops[q];
        Some(store.(stops := store.stops - {q}, runs := store.runs[r := Stopping(store.runs[r], sawQueued)]))
    case ClaimNextRun(locked, choice) =>
      if !IsFirst(store.runs, locked, choice) then None
      else if choice.None? then Some(store)
      else
        var r := choice.value;
        Some(store.(runs := store.runs[r := store.runs[r].(status := Running)], claimed := store.claimed + [r]))
    case DoWork(r, work) =>
      if r in store.claimed && r in store.runs && (work.MarkOver? ==> Over(work.todo)) then Some(Worked(store, r, work))
        else None
  }

  /** The store after a series of steps, if each of them could happen. */
  function RunAll(actions: seq<Action>): Option<Store> {
    if actions == [] then Some(EMPTY_STORE)
    else match RunAll(actions[..|actions| - 1])
      case None => None
      case Some(store) => Next(store, actions[|actions| - 1])
  }

  // ---------- The class ----------

  class MarsStore {
    var sessions: map<SessionId, SessionStatus>
    var runs: map<RunId, Run>
    /** What the handlers of the requests under way have read. */
    var starts: map<Request, Start>
    var stops: map<Request, Stop>
    ghost var claimed: seq<RunId>
    ghost var unspent: set<SessionId>

    ghost function Contents(): Store
      reads this
    {
      Store(sessions, runs, starts, stops, claimed, unspent)
    }

    constructor ()
      ensures Contents() == EMPTY_STORE
    {
      sessions, runs, starts, stops, claimed, unspent := map[], map[], map[], map[], [], {};
    }

    method CreateSession(s: SessionId)
      requires s !in sessions
      modifies this`sessions
      ensures Next(old(Contents()), Action.CreateSession(s)) == Some(Contents())
      ensures sessions == old(sessions)[s := Interview]
    {
      sessions := sessions[s := Interview];
    }

    method AnswerInterview(s: SessionId) returns (answer: Answer)
      modifies this`sessions
      ensures Next(old(Contents()), Action.AnswerInterview(s)) == Some(Contents())
      ensures answer == if s in old(sessions) then Done else NotFound
      ensures sessions == if s in old(sessions) then old(sessions)[s := PlanReady] else old(sessions)
    {
      if s !in sessions {
        return NotFound;
      }
      sessions := sessions[s := PlanReady];
      return Done;
    }

    method ApprovePlan(s: SessionId) returns (answer: Answer)
      modifies this`sessions, this`unspent
      ensures Next(old(Contents()), Action.ApprovePlan(s)) == Some(Contents())
      ensures answer == if s in old(sessions) then Done else NotFound
      ensures sessions == if s in old(sessions) then old(sessions)[s := Approved] else old(sessions)
    {
      if s !in sessions {
        return NotFound;
      }
      sessions, unspent := sessions[s := Approved], unspent + {s};
      return Done;
    }

    /** The beginning of `api_session_run`: only an approved session gets a run. */
    method ReadStart(q: Request, s: SessionId, refused: bool) returns (answer: Answer)
      requires q !in starts
      modifies this`starts, this`unspent
      ensures Next(old(Contents()), Action.ReadStart(q, s, refused)) == Some(Contents())
      ensures answer.NotFound? <==> s !in sessions
      ensures answer.NotApproved? <==> s in sessions && sessions[s] != Approved
      ensures answer.PolicyError? <==> s in sessions && sessions[s] == Approved && refused
      ensures starts == if answer.Done? then old(starts)[q := Start(s, false)] else old(starts)
    {
      if s !in sessions {
        return NotFound;
      }
      if sessions[s] != Approved {
        return NotApproved;
      }
      if refused {
        return PolicyError;
      }
      starts, unspent := starts[q := Start(s, false)], unspent - {s};
      return Done;
    }

    /** The run is inserted into the queue. */
    method CreateRun(q: Request, id: RunId, createdAt: nat)
      requires q in starts && !starts[q].created && id !in runs
      modifies this`runs, this`starts
      ensures Next(old(Contents()), Action.CreateRun(q, id, createdAt)) == Some(Contents())
      ensures runs == old(runs)[id := Run.Run(old(starts)[q].session, createdAt, Queued, false)]
      ensures starts == old(starts)[q := Start(old(starts)[q].session, true)]
    {
      runs := runs[id := Run.Run(starts[q].session, createdAt, Queued, false)];
      starts := starts[q := starts[q].(created := true)];
    }

    /** And its session is marked running, whatever its status has become. */
    method SaveStart(q: Request)
      requires q in starts && starts[q].created
      modifies this`sessions, this`starts
      ensures Next(old(Contents()), Action.SaveStart(q)) == Some(Contents())
      ensures sessions == old(sessions)[old(starts)[q].session := SessionRunning] && starts == old(starts) - {q}
    {
      sessions := sessions[starts[q].session := SessionRunning];
      starts := starts - {q};
    }

    /** `api_session_run` with nothing in between: an approved session gets one queued run and is no longer approved. */
    method StartRun(q: Request, s: SessionId, id: RunId, createdAt: nat, refused: bool) returns (answer: Answer)
      requires q !in starts && id !in runs
      modifies this`sessions, this`runs, this`starts, this`unspent
      ensures answer.Done? <==> s in old(sessions) && old(sessions)[s] == Approved && !refused
      ensures answer.NotFound? <==> s !in old(sessions)
      ensures answer.PolicyError? <==> s in old(sessions) && old(sessions)[s] == Approved && refused
      ensures starts == old(starts) && (!answer.Done? ==> Contents() == old(Contents()))
      ensures answer.Done? ==> runs == old(runs)[id := Run.Run(s, createdAt, Queued, false)]
                               && sessions == old(sessions)[s := SessionRunning]
    {
      answer := ReadStart(q, s, refused);
      if answer.Done? {
        CreateRun(q, id, createdAt);
        SaveStart(q);
      }
    }

    /** The beginning of `api_run_stop`. */
    method ReadStop(q: Request, r: RunId) returns (answer: Answer)
      requires q !in stops
      modifies this`stops
      ensures Next(old(Contents()), Action.ReadStop(q, r)) == Some(Contents())
      ensures answer == if r in runs then Done else NotFound
      ensures stops == if r in runs then old(stops)[q := Stop(r, runs[r].status == Queued)] else old(stops)
    {
      if r !in runs {
        return NotFound;
      }
      stops := stops[q := Stop(r, runs[r].status == Queued)];
      return Done;
    }

    /** Its save: the flag, and STOPPED if the run was queued when it was read. */
    method SaveStop(q: Request)
      requires q in stops && stops[q].run in runs
      modifies this`runs, this`stops
      ensures Next(old(Contents()), Action.SaveStop(q)) == Some(Contents())
      ensures stops == old(stops) - {q} && runs.Keys == old(runs).Keys
      ensures var Stop(stopped, sawQueued) := old(stops)[q];
              && runs[stopped].stop
              && runs[stopped].status == (if sawQueued then Stopped else old(runs)[stopped].status)
              && runs[stopped].session == old(runs)[stopped].session
              && runs[stopped].createdAt == old(runs)[stopped].createdAt
              && forall r :: r in runs && r != stopped ==> runs[r] == old(runs)[r]
    {
      var Stop(r, sawQueued) := stops[q];
      var run := runs[r].(stop := true);
      if sawQueued {
        run := run.(status := Stopped);
      }
      runs, stops := runs[r := run], stops - {q};
    }

    /** `api_run_stop` with nothing in between: the flag is set, and a queued run is stopped at once. */
    method StopRun(q: Request, r: RunId) returns (answer: Answer)
      requires q !in stops
      modifies this`runs, this`stops
      ensures answer == (if r in old(runs) then Done else NotFound) && stops == old(stops)
      ensures runs.Keys == old(runs).Keys
      ensures forall other :: other in runs && other != r ==> runs[other] == old(runs)[other]
      ensures r in runs ==>
                && runs[r].stop
                && runs[r].session == old(runs)[r].session && runs[r].createdAt == old(runs)[r].createdAt
                && runs[r].status == if old(runs)[r].status == Queued then Stopped else old(runs)[r].status
    {
      answer := ReadStop(q, r);
      if answer.Done? {
        SaveStop(q);
      }
    }

    /** `claim_next_run`: the first queued run by creation time and id that nobody else has locked. */
    method ClaimNextRun(locked: set<RunId>) returns (run: Option<RunId>)
      modifies this`runs, this`claimed
      ensures Next(old(Contents()), Action.ClaimNextRun(locked, run)) == Some(Contents())
      ensures run.None? <==> forall r :: r in old(runs) && old(runs)[r].status == Queued ==> r in locked
      ensures run.Some? ==>
                && run.value in old(runs) && old(runs)[run.value].status == Queued && run.value !in locked
                && forall r :: r in old(runs) && old(runs)[r].status == Queued && r !in locked ==>
                     var first, other := old(runs)[run.value].createdAt, old(runs)[r].createdAt;
                     first < other || (first == other && run.value <= r)
      ensures runs == if run.None? then old(runs)
                      else old(runs)[run.value := old(runs)[run.value].(status := Running)]
      ensures claimed == if run.None? then old(claimed) else old(claimed) + [run.value]
    {
      var queued := Claimable(runs, locked);
      assert forall r :: r in runs && runs[r].status == Queued && r !in locked ==> r in queued;
      if queued == {} {
        return None;
      }
      ghost var first := FirstExists(runs, queued);
      var r :| r in queued && forall q <- queued :: Before(runs, r, q);
      runs := runs[r := runs[r].(status := Running)];
      claimed := claimed + [r];
      return Some(r);
    }

    /** A worker saves what it has to say about the run it was handed. */
    method DoWork(r: RunId, work: Work)
      requires r in claimed && r in runs && (work.MarkOver? ==> Over(work.todo))
      modifies this`runs, this`sessions
      ensures Next(old(Contents()), Action.DoWork(r, work)) == Some(Contents())
      ensures sessions == if work.CompleteSession? then old(sessions)[old(runs)[r].session := SessionCompleted]
                          else old(sessions)
      ensures runs == old(runs)[r := Run.Run(old(runs)[r].session, old(runs)[r].createdAt,
                                             if work.MarkRunning? then Running
                                             else if work == MarkOver(Halt) then Stopped
                                             else if work == MarkOver(Raise) then Failed
                                             else if work == MarkOver(Finish) then Completed
                                             else old(runs)[r].status,
                                             if work.KeepFlag? then work.flag else old(runs)[r].stop)]
    {
      match work
      case MarkRunning => runs := runs[r := runs[r].(status := Running)];
      case KeepFlag(flag) => runs := runs[r := runs[r].(stop := flag)];
      case MarkOver(todo) => runs := runs[r := runs[r].(status := StatusAfter(todo))];
      case CompleteSession => sessions := sessions[runs[r].session := SessionCompleted];
    }
  }

  // ---------- What every run of the system keeps ----------

  /** The runs that were handed out, in order. */
  function ClaimsOf(actions: seq<Action>): seq<RunId> {
    if actions == [] then []
    else
      ClaimsOf(actions[..|actions| - 1]) + ClaimedBy(actions[|actions| - 1])
  }

  /** How often the plan of a session was approved. */
  function ApprovalsOf(actions: seq<Action>, s: SessionId): nat {
    if actions == [] then 0
    else ApprovalsOf(actions[..|actions| - 1], s) + if actions[|actions| - 1] == Action.ApprovePlan(s) then 1 else 0
  }

  function RunsOf(runs: map<RunId, Run>, s: SessionId): set<RunId> {
    set r | r in runs && runs[r].session == s
  }

  predicate Left(runs: map<RunId, Run>, r: RunId) {
    r in runs && runs[r].status != Queued
  }

  /** A worker never saves the status that would put its run back into the queue. */
  lemma WorkersNeverQueue(todo: Todo)
    requires Over(todo)
    ensures StatusAfter(todo) == Completed || StatusAfter(todo) == Stopped || StatusAfter(todo) == Failed
  {
  }

  lemma StepKeepsLeft(store: Store, action: Action, r: RunId)
    requires Next(store, action).Some? && Left(store.runs, r)
    ensures Left(Next(store, action).value.runs, r)
  {
  }

  /** A run that left the queue never comes back. */
  lemma {:induction false} LeftForGood(actions: seq<Action>, n: nat, r: RunId)
    requires n <= |actions| && RunAll(actions).Some?
    ensures RunAll(actions[..n]).Some? && (Left(RunAll(actions[..n]).value.runs, r) ==>
                                           Left(RunAll(actions).value.runs, r))
  {
    if n == |actions| {
      assert actions[..n] == actions;
    } else {
      var front := actions[..|actions| - 1];
      LeftForGood(front, n, r);
      assert front[..n] == actions[..n];
      if Left(RunAll(front).value.runs, r) {
        StepKeepsLeft(RunAll(front).value, actions[|actions| - 1], r);
      }
    }
  }

  ghost predicate Handed(store: Store) {
    Distinct(store.claimed) && forall r :: r in store.claimed ==> Left(store.runs, r)
  }

  lemma StepKeepsHanded(store: Store, action: Action)
    requires Next(store, action).Some? && Handed(store)
    ensures Handed(Next(store, action).value)
  {
    var after := Next(store, action).value;
    forall i | 0 <= i < |store.claimed|
      ensures Left(store.runs, store.claimed[i]) && Left(after.runs, store.claimed[i])
    {
      assert store.claimed[i] in store.claimed;
      StepKeepsLeft(store, action, store.claimed[i]);
    }
  }

  /** What a step adds to the runs handed out. */
  function ClaimedBy(action: Action): seq<RunId> {
    if action.ClaimNextRun? && action.choice.Some? then [action.choice.value] else []
  }

  lemma StepClaims(store: Store, action: Action)
    requires Next(store, action).Some?
    ensures Next(store, action).value.claimed == store.claimed + ClaimedBy(action)
  {
  }

  lemma {:induction false} RunIsHanded(actions: seq<Action>)
    requires RunAll(actions).Some?
    ensures Handed(RunAll(actions).value) && RunAll(actions).value.claimed == ClaimsOf(actions)
  {
    if actions != [] {
      var store := RunAll(actions[..|actions| - 1]).value;
      RunIsHanded(actions[..|actions| - 1]);
      StepKeepsHanded(store, actions[|actions| - 1]);
      StepClaims(store, actions[|actions| - 1]);
    }
  }

  /** However handlers and workers interleave, no run is handed out twice. */
  lemma ClaimedOnce(actions: seq<Action>)
    requires RunAll(actions).Some?
    ensures Distinct(ClaimsOf(actions))
  {
    RunIsHanded(actions);
  }

  lemma {:induction false} ClaimsAreLeft(actions: seq<Action>, n: nat, r: RunId)
    requires n <= |actions| && RunAll(actions).Some?
    ensures RunAll(actions[..n]).Some?
    ensures Left(RunAll(actions[..n]).value.runs, r) ==> (r in ClaimsOf(actions) <==> r in ClaimsOf(actions[..n]))
  {
    if n == |actions| {
      assert actions[..n] == actions;
    } else {
      var front := actions[..|actions| - 1];
      ClaimsAreLeft(front, n, r);
      assert front[..n] == actions[..n];
      LeftForGood(front, n, r);
    }
  }

  predicate QueuedIn(store: Store, r: RunId) {
    r in store.runs && store.runs[r].status == Queued
  }

  lemma OneMore(actions: seq<Action>, action: Action)
    requires RunAll(actions).Some?
    ensures RunAll(actions + [action]) == Next(RunAll(actions).value, action)
    ensures ClaimsOf(actions + [action]) == ClaimsOf(actions) + ClaimedBy(action)
    ensures forall s :: ApprovalsOf(actions + [action], s) ==
                        ApprovalsOf(actions, s) + if action == Action.ApprovePlan(s) then 1 else 0
  {
    assert (actions + [action])[..|actions|] == actions;
  }

  lemma StopLeaves(store: Store, q: Request)
    requires q in store.stops && store.stops[q].sawQueued && Next(store, SaveStop(q)).Some?
    ensures Left(Next(store, SaveStop(q)).value.runs, store.stops[q].run)
  {
  }

  /** A stop that read the run as queued keeps it from every later claim once it is saved; so the run is never handed to
      a worker if and only if that has not happened before the save. */
  lemma StoppedEarlyExactly(actions: seq<Action>, n: nat, q: Request)
    requires n < |actions| && RunAll(actions).Some? && actions[n] == SaveStop(q) && RunAll(actions[..n]).Some?
    requires q in RunAll(actions[..n]).value.stops && RunAll(actions[..n]).value.stops[q].sawQueued
    ensures var r := RunAll(actions[..n]).value.stops[q].run;
            r !in ClaimsOf(actions) <==> r !in RunAll(actions[..n]).value.claimed
  {
    var before := actions[..n];
    var store := RunAll(before).value;
    assert actions[..n + 1] == before + [SaveStop(q)];
    ClaimsAreLeft(actions, n + 1, store.stops[q].run);
    OneMore(before, SaveStop(q));
    StopLeaves(store, q);
    RunIsHanded(before);
  }

  /** In particular if it is still queued when the stop is saved. */
  lemma StoppedEarlyIsNeverClaimed(actions: seq<Action>, n: nat, q: Request)
    requires n < |actions| && RunAll(actions).Some? && actions[n] == SaveStop(q) && RunAll(actions[..n]).Some?
    requires q in RunAll(actions[..n]).value.stops && RunAll(actions[..n]).value.stops[q].sawQueued
    requires QueuedIn(RunAll(actions[..n]).value, RunAll(actions[..n]).value.stops[q].run)
    ensures RunAll(actions[..n]).value.stops[q].run !in ClaimsOf(actions)
  {
    RunIsHanded(actions[..n]);
    StoppedEarlyExactly(actions, n, q);
  }

  // ---------- Approvals ----------

  /** The accepted starts of a session that have not created their run. */
  function Pending(starts: map<Request, Start>, s: SessionId): set<Request> {
    set q | q in starts && starts[q] == Start(s, false)
  }

  /** Every run of a session, every run still to be created, and the right to start one more are covered by payments. */
  predicate Covered(store: Store, paid: nat, s: SessionId) {
    |RunsOf(store.runs, s)| + |Pending(store.starts, s)| + (if s in store.unspent then 1 else 0) <= paid
  }

  /** A start of the session is accepted. */
  predicate Accepts(store: Store, action: Action, s: SessionId) {
    action.ReadStart? && action.s == s && action.q !in store.starts &&
      StartAnswer(store.sessions, s, action.refused).Done?
  }

  /** A start is accepted on an approval that another start has used already. */
  predicate Rides(store: Store, action: Action, s: SessionId) {
    Accepts(store, action, s) && s !in store.unspent
  }

  lemma RunsOfUpdate(runs: map<RunId, Run>, r: RunId, run: Run, s: SessionId)
    requires r in runs && run.session == runs[r].session
    ensures RunsOf(runs[r := run], s) == RunsOf(runs, s)
  {
  }

  lemma RunsOfInsert(runs: map<RunId, Run>, r: RunId, run: Run, s: SessionId)
    requires r !in runs
    ensures |RunsOf(runs[r := run], s)| == |RunsOf(runs, s)| + if s == run.session then 1 else 0
  {
    assert RunsOf(runs[r := run], s) == RunsOf(runs, s) + if s == run.session then {r} else {};
  }

  lemma PendingInsert(starts: map<Request, Start>, q: Request, t: SessionId, s: SessionId)
    requires q !in starts
    ensures |Pending(starts[q := Start(t, false)], s)| == |Pending(starts, s)| + if s == t then 1 else 0
  {
    assert Pending(starts[q := Start(t, false)], s) == Pending(starts, s) + if s == t then {q} else {};
  }

  lemma PendingCreated(starts: map<Request, Start>, q: Request, s: SessionId)
    requires q in starts && !starts[q].created
    ensures |Pending(starts[q := starts[q].(created := true)], s)| ==
            |Pending(starts, s)| - if s == starts[q].session then 1 else 0
  {
    assert Pending(starts[q := starts[q].(created := true)], s) ==
           Pending(starts, s) - if s == starts[q].session then {q} else {};
  }

  lemma PendingSaved(starts: map<Request, Start>, q: Request, s: SessionId)
    requires q in starts && starts[q].created
    ensures Pending(starts - {q}, s) == Pending(starts, s)
  {
  }

  /** What a step adds to the payments of a session: an approval, or a ride. */
  function Payment(store: Store, action: Action, s: SessionId): nat {
    if action == Action.ApprovePlan(s) || Rides(store, action, s) then 1 else 0
  }

  lemma StepKeepsCovered(store: Store, action: Action, paid: nat, s: SessionId)
    requires Next(store, action).Some? && Covered(store, paid, s)
    ensures Covered(Next(store, action).value, paid + Payment(store, action, s), s)
  {
    match action
    case CreateSession(_) =>
    case AnswerInterview(_) =>
    case ApprovePlan(_) =>
    case ReadStart(q, t, refused) =>
      if StartAnswer(store.sessions, t, refused).Done? {
        PendingInsert(store.starts, q, t, s);
      }
    case CreateRun(q, id, createdAt) =>
      RunsOfInsert(store.runs, id, Run.Run(store.starts[q].session, createdAt, Queued, false), s);
      PendingCreated(store.starts, q, s);
    case SaveStart(q) => PendingSaved(store.starts, q, s);
    case ReadStop(_, _) =>
    case SaveStop(q) =>
      var r := store.stops[q].run;
      RunsOfUpdate(store.runs, r, Stopping(store.runs[r], store.stops[q].sawQueued), s);
    case ClaimNextRun(_, choice) =>
      if choice.Some? {
        RunsOfUpdate(store.runs, choice.value, store.runs[choice.value].(status := Running), s);
      }
    case DoWork(r, work) =>
      if !work.CompleteSession? {
        RunsOfUpdate(store.runs, r, Worked(store, r, work).runs[r], s);
      }
  }

  /** How many starts of a session rode on an approval that was used already. */
  function RidesOf(actions: seq<Action>, s: SessionId): nat {
    if actions == [] then 0
    else
      var front := actions[..|actions| - 1];
      RidesOf(front, s) + if RunAll(front).Some? && Rides(RunAll(front).value, actions[|actions| - 1], s) then 1 else 0
  }

  /** However handlers and workers interleave, the runs of a session are covered by its approvals and its rides:
      without a ride it never has more runs than its plan was approved. */
  lemma {:induction false} RunsArePaid(actions: seq<Action>, s: SessionId)
    requires RunAll(actions).Some?
    ensures Covered(RunAll(actions).value, ApprovalsOf(actions, s) + RidesOf(actions, s), s)
    ensures |RunsOf(RunAll(actions).value.runs, s)| <= ApprovalsOf(actions, s) + RidesOf(actions, s)
  {
    if actions == [] {
      assert RunsOf(map[], s) == {} && Pending(map[], s) == {};
    } else {
      var front := actions[..|actions| - 1];
      RunsArePaid(front, s);
      StepKeepsCovered(RunAll(front).value, actions[|actions| - 1], ApprovalsOf(front, s) + RidesOf(front, s), s);
    }
  }

  /** An accepted start keeps the session covered by what was paid so far if and only if it does not ride, or a payment
      is left that no run has used. */
  lemma StartKeepsCoveredExactly(store: Store, action: Action, paid: nat, s: SessionId)
    requires Covered(store, paid, s) && Accepts(store, action, s)
    ensures Covered(Next(store, action).value, paid, s) <==>
            s in store.unspent || |RunsOf(store.runs, s)| + |Pending(store.starts, s)| < paid
  {
    PendingInsert(store.starts, action.q, s, s);
  }

  /** Since the last approval of the session a start was accepted. */
  predicate Used(actions: seq<Action>, s: SessionId)
    requires RunAll(actions).Some?
  {
    actions != [] &&
    (var front, last := actions[..|actions| - 1], actions[|actions| - 1];
     RunAll(front).Some? && (Accepts(RunAll(front).value, last, s) ||
                             (last != Action.ApprovePlan(s) && Used(front, s))))
  }

  predicate IsApproved(store: Store, s: SessionId) {
    s in store.sessions && store.sessions[s] == Approved
  }

  ghost predicate UnderWay(store: Store, s: SessionId) {
    exists q :: q in store.starts && store.starts[q].session == s
  }

  /** The bookkeeping of unused approvals is right, and an approved session whose approval is used has a start under way
      that has not marked it as running yet. */
  ghost predicate Tracks(store: Store, used: bool, s: SessionId) {
    && (s in store.unspent || used ==> s in store.sessions) && !(s in store.unspent && used)
    && (IsApproved(store, s) ==> s in store.unspent || used)
    && (IsApproved(store, s) && s !in store.unspent ==> UnderWay(store, s))
  }

  lemma StepKeepsUnderWay(store: Store, action: Action, s: SessionId)
    requires Next(store, action).Some? && (IsApproved(store, s) && s !in store.unspent ==> UnderWay(store, s))
    ensures var after := Next(store, action).value; IsApproved(after, s) && s !in after.unspent ==> UnderWay(after, s)
  {
    var after := Next(store, action).value;
    if IsApproved(after, s) && s !in after.unspent {
      if Accepts(store, action, s) {
        assert action.q in after.starts && after.starts[action.q].session == s;
      } else {
        var q :| q in store.starts && store.starts[q].session == s;
        assert q in after.starts && after.starts[q].session == s;
      }
    }
  }

  lemma StepTracks(store: Store, action: Action, used: bool, s: SessionId)
    requires Next(store, action).Some? && Tracks(store, used, s)
    ensures Tracks(Next(store, action).value, Accepts(store, action, s) || (action != Action.ApprovePlan(s) && used), s)
  {
    StepKeepsUnderWay(store, action, s);
  }

  lemma {:induction false} UsedExactly(actions: seq<Action>, s: SessionId)
    requires RunAll(actions).Some?
    ensures Tracks(RunAll(actions).value, Used(actions, s), s)
  {
    if actions != [] {
      UsedExactly(actions[..|actions| - 1], s);
      StepTracks(RunAll(actions[..|actions| - 1]).value, actions[|actions| - 1], Used(actions[..|actions| - 1], s), s);
    }
  }

  /** A start rides if and only if another one was accepted since the last approval of its session; and that happens
      only while such a start is still under way, so starts that do not overlap never ride. */
  lemma RidesExactly(actions: seq<Action>, action: Action, s: SessionId)
    requires RunAll(actions).Some? && Accepts(RunAll(actions).value, action, s)
    ensures Rides(RunAll(actions).value, action, s) <==> Used(actions, s)
    ensures Used(actions, s) ==> UnderWay(RunAll(actions).value, s)
  {
    UsedExactly(actions, s);
  }

  // ---------- Two races ----------

  /** A run that leads to the store, with the runs it handed out and the approvals it gave session 0. */
  ghost predicate Leads(actions: seq<Action>, store: Store, claims: seq<RunId>, approvals: nat) {
    RunAll(actions) == Some(store) && ClaimsOf(actions) == claims && ApprovalsOf(actions, 0) == approvals
  }

  lemma Extend(actions: seq<Action>, store: Store, claims: seq<RunId>, approvals: nat, action: Action)
    returns (longer: seq<Action>, after: Store)
    requires Leads(actions, store, claims, approvals) && Next(store, action).Some?
    ensures after == Next(store, action).value
    ensures Leads(longer, after, claims + ClaimedBy(action), approvals + if action == Action.ApprovePlan(0) then 1
            else 0)
  {
    OneMore(actions, action);
    longer, after := actions + [action], Next(store, action).value;
  }

  /** A session whose plan was approved once, and a start of it that was accepted. */
  lemma OneStart() returns (actions: seq<Action>, store: Store)
    ensures Leads(actions, store, [], 1) && store.sessions == map[0 := Approved] && store.runs == map[]
    ensures store.starts == map[0 := Start(0, false)] && store.stops == map[]
  {
    actions, store := [], EMPTY_STORE;
    actions, store := Extend(actions, store, [], 0, Action.CreateSession(0));
    actions, store := Extend(actions, store, [], 0, Action.ApprovePlan(0));
    actions, store := Extend(actions, store, [], 1, Action.ReadStart(0, 0, false));
  }

  lemma TwoStarts() returns (actions: seq<Action>, store: Store)
    ensures Leads(actions, store, [], 1) && store.runs == map[]
    ensures store.starts == map[0 := Start(0, false), 1 := Start(0, false)]
  {
    actions, store := OneStart();
    actions, store := Extend(actions, store, [], 1, Action.ReadStart(1, 0, false));
  }

  /** Two starts that both read the session as approved: one approval, two runs. */
  lemma LateStartRace() returns (actions: seq<Action>, store: Store)
    ensures Leads(actions, store, [], 1) && |RunsOf(store.runs, 0)| == 2
  {
    actions, store := TwoStarts();
    actions, store := Extend(actions, store, [], 1, Action.CreateRun(0, 0, 0));
    actions, store := Extend(actions, store, [], 1, Action.CreateRun(1, 1, 1));
    assert RunsOf(store.runs, 0) == {0, 1};
  }

  /** A run that is alone in the queue, and a stop that has read it. */
  lemma OneQueued() returns (actions: seq<Action>, store: Store)
    ensures Leads(actions, store, [], 1) && store.runs.Keys == {0} && store.runs[0].status == Queued
    ensures store.stops == map[0 := Stop(0, true)]
  {
    actions, store := OneStart();
    actions, store := Extend(actions, store, [], 1, Action.CreateRun(0, 0, 0));
    actions, store := Extend(actions, store, [], 1, Action.ReadStop(0, 0));
  }

  lemma OnlyIsClaimed(store: Store)
    requires store.runs.Keys == {0} && store.runs[0].status == Queued
    ensures Next(store, ClaimNextRun({}, Some(0))).Some?
    ensures var after := Next(store, ClaimNextRun({}, Some(0))).value; 0 in after.runs && after.stops == store.stops
  {
    assert Claimable(store.runs, {}) == {0};
  }

  lemma StopIsSaved(store: Store)
    requires 0 in store.runs && store.stops == map[0 := Stop(0, true)]
    ensures Next(store, SaveStop(0)).Some?
    ensures var after := Next(store, SaveStop(0)).value; 0 in after.runs && after.runs[0].status == Stopped
  {
  }

  /** A stop that read the run as queued and is saved after the claim: a run that a worker executes is
      stored as STOPPED. */
  lemma LateStopRace() returns (actions: seq<Action>, store: Store)
    ensures Leads(actions, store, [0], 1) && 0 in store.runs && store.runs[0].status == Stopped
  {
    actions, store := OneQueued();
    OnlyIsClaimed(store);
    actions, store := Extend(actions, store, [], 1, Action.ClaimNextRun({}, Some(0)));
    StopIsSaved(store);
    actions, store := Extend(actions, store, [0], 1, Action.SaveStop(0));
  }
}
