/** What the session pool guarantees in every state that some schedule of its calls reaches. */
module SessionPoolTheorems {
  import opened Options
  import opened SessionPool
  import opened SessionPoolSafety
  import opened SessionPoolProgress
  import opened SessionPoolReplies

  lemma PoolNeverOverflows(cfg: Config, st: State)
    requires Reachable(cfg, st)
    ensures |st.pool.reg| <= if cfg.maxSessions > 0 then cfg.maxSessions else 1
  {
    ReachableInv(cfg, st);
  }

  /** A running task is spawning the session or still has to terminate it. */
  predicate Responsible(st: State, t: Tid, s: Sid) {
    t in st.tasks && !st.tasks[t].at.Done? && s in st.tasks[t].doomed
  }

  /** No process is orphaned: it is found under its own key, or some running call is spawning or terminating it. */
  lemma NoOrphans(cfg: Config, st: State, s: Sid)
    requires Reachable(cfg, st) && s in st.pool.alive
    ensures s in st.pool.sessions
    ensures Registered(st.pool.reg, st.pool.sessions, s) || exists t :: Responsible(st, t, s)
  {
    ReachableInv(cfg, st);
    assert Accounted(st.pool.reg, st.pool.sessions, st.tasks, s);
    if !Registered(st.pool.reg, st.pool.sessions, s) {
      var t :| InCharge(st.tasks, t, s);
      assert TaskOk(st.pool.reg, st.pool.sessions, st.pool.ready, st.tasks[t]);
      assert Responsible(st, t, s);
    }
  }

  /** When every call has returned, the registry lists exactly the processes that may still run. */
  lemma AtRestOnlyRegistered(cfg: Config, st: State, s: Sid)
    requires Reachable(cfg, st) && s in st.pool.alive && forall t :: t in st.tasks ==> st.tasks[t].at.Done?
    ensures Registered(st.pool.reg, st.pool.sessions, s)
    ensures st.pool.regLock.None? && st.pool.locks == map[]
  {
    NoOrphans(cfg, st, s);
    ReachableInv(cfg, st);
    forall t | t in st.tasks ensures st.tasks[t].held.None? {
      assert TaskOk(st.pool.reg, st.pool.sessions, st.pool.ready, st.tasks[t]);
    }
  }

  /** The process whose pipes a task is using. */
  function PipeOf(task: Task): Option<Sid> {
    if task.at.Handshaking? || task.at.Announcing? then task.child
    else if task.at.Notifying? || task.at.Awaiting? then task.session
    else None
  }

  lemma PipesAreExclusive(cfg: Config, st: State, t: Tid, u: Tid)
    requires Reachable(cfg, st) && t in st.tasks && u in st.tasks
    requires PipeOf(st.tasks[t]).Some? && PipeOf(st.tasks[t]) == PipeOf(st.tasks[u])
    ensures t == u
  {
    ReachableInv(cfg, st);
    assert TaskOk(st.pool.reg, st.pool.sessions, st.pool.ready, st.tasks[t]);
    assert TaskOk(st.pool.reg, st.pool.sessions, st.pool.ready, st.tasks[u]);
  }

  /** A call writes only to a process of its own key and fingerprint that is open to it, and spawns at most two. */
  lemma RightProcess(cfg: Config, st: State, t: Tid)
    requires Reachable(cfg, st) && t in st.tasks && st.tasks[t].job.Rpc?
    ensures st.tasks[t].spawned <= 2
    ensures PipeOf(st.tasks[t]).Some? ==>
              var s := PipeOf(st.tasks[t]).value;
              && s in st.pool.sessions && st.pool.sessions[s].key == st.tasks[t].job.key
              && SpecFingerprint(st.pool.sessions[s].spec) == SpecFingerprint(st.tasks[t].job.spec)
              && (s in st.pool.ready <==> st.tasks[t].at.Notifying? || st.tasks[t].at.Awaiting?)
  {
    ReachableInv(cfg, st);
    assert TaskOk(st.pool.reg, st.pool.sessions, st.pool.ready, st.tasks[t]);
  }

  lemma DeadlockFree(cfg: Config, st: State, t: Tid)
    requires Reachable(cfg, st) && t in st.tasks && !st.tasks[t].at.Done?
    ensures exists u :: CanStep(cfg, st, u)
  {
    ReachableInv(cfg, st);
    SomeTaskSteps(cfg, st, t);
  }

  lemma ReachableNext(cfg: Config, st: State, action: Action)
    requires Reachable(cfg, st) && Next(cfg, st, action).Some?
    ensures Reachable(cfg, Next(cfg, st, action).value)
  {
    var actions :| Run(cfg, actions) == Some(st);
    assert (actions + [action])[..|actions|] == actions;
    assert Run(cfg, actions + [action]) == Some(Next(cfg, st, action).value);
  }

  /** The state after the actions. */
  function Onward(cfg: Config, st: State, actions: seq<Action>): Option<State>
    decreases |actions|
  {
    if actions == [] then Some(st)
    else match Next(cfg, st, actions[0])
      case None => None
      case Some(after) => Onward(cfg, after, actions[1..])
  }

  lemma TwoSteps(cfg: Config, st: State, first: Action, second: Action)
    ensures Onward(cfg, st, [first, second]) ==
            if Next(cfg, st, first).None? then None else Next(cfg, Next(cfg, st, first).value, second)
  {
    assert [first, second][1..] == [second] && [second][1..] == [];
    if Next(cfg, st, first).Some? {
      var after := Next(cfg, st, first).value;
      if Next(cfg, after, second).Some? {
        assert Onward(cfg, Next(cfg, after, second).value, []) == Next(cfg, after, second);
      }
    }
  }

  lemma {:induction false} OneMore(cfg: Config, st: State, actions: seq<Action>, action: Action)
    requires Onward(cfg, st, actions).Some?
    ensures Onward(cfg, st, actions + [action]) == Next(cfg, Onward(cfg, st, actions).value, action)
    decreases |actions|
  {
    if actions == [] {
      assert actions + [action] == [action] && [action][1..] == [];
      if Next(cfg, st, action).Some? {
        assert Onward(cfg, Next(cfg, st, action).value, []) == Some(Next(cfg, st, action).value);
      }
    } else {
      assert (actions + [action])[1..] == actions[1..] + [action];
      OneMore(cfg, Next(cfg, st, actions[0]).value, actions[1..], action);
    }
  }

  lemma {:induction false} OnwardSum(cfg: Config, st: State, first: seq<Action>, second: seq<Action>)
    requires Onward(cfg, st, first).Some?
    ensures Onward(cfg, st, first + second) == Onward(cfg, Onward(cfg, st, first).value, second)
    decreases |first|
  {
    if first == [] {
      assert first + second == second;
    } else {
      assert (first + second)[1..] == first[1..] + second;
      OnwardSum(cfg, Next(cfg, st, first[0]).value, first[1..], second);
    }
  }

  lemma {:induction false} ReachableOnward(cfg: Config, st: State, actions: seq<Action>)
    requires Reachable(cfg, st) && Onward(cfg, st, actions).Some?
    ensures Reachable(cfg, Onward(cfg, st, actions).value)
    decreases |actions|
  {
    if actions != [] {
      ReachableNext(cfg, st, actions[0]);
      ReachableOnward(cfg, Next(cfg, st, actions[0]).value, actions[1..]);
    }
  }

  /** No new call starts and no process prints. */
  predicate InFlight(actions: seq<Action>) {
    forall i :: 0 <= i < |actions| ==> actions[i].Resume? || actions[i].Die?
  }

  /** How many of the actions are steps of a call. */
  function Steps(actions: seq<Action>): nat {
    if actions == [] then 0 else (if actions[0].Resume? then 1 else 0) + Steps(actions[1..])
  }

  lemma ActionApproaches(cfg: Config, st: State, action: Action)
    requires Reachable(cfg, st) && Next(cfg, st, action).Some? && (action.Resume? || action.Die?)
    ensures (if action.Resume? then 1 else 0) + Distance(Next(cfg, st, action).value) <= Distance(st)
  {
    if action.Resume? {
      ReachableInv(cfg, st);
      StepApproaches(cfg, st, action.t, action.io);
    }
  }

  lemma RestExactly(cfg: Config, st: State)
    requires Reachable(cfg, st)
    ensures (forall t :: !CanStep(cfg, st, t)) <==> forall t :: t in st.tasks ==> st.tasks[t].at.Done?
  {
    if t :| t in st.tasks && !st.tasks[t].at.Done? {
      DeadlockFree(cfg, st, t);
    }
  }

  /**
    Every call terminates: as long as no new call starts and no process prints, at most `Distance(st)` steps can
    follow, in any order and whichever processes die in between, and when no further step is possible every call
    has returned.
   */
  lemma {:induction false} CallsTerminate(cfg: Config, st: State, actions: seq<Action>)
    requires Reachable(cfg, st) && InFlight(actions) && Onward(cfg, st, actions).Some?
    ensures Steps(actions) + Distance(Onward(cfg, st, actions).value) <= Distance(st)
    ensures var last := Onward(cfg, st, actions).value;
            (forall t :: !CanStep(cfg, last, t)) <==> forall t :: t in last.tasks ==> last.tasks[t].at.Done?
    decreases |actions|
  {
    if actions == [] {
      RestExactly(cfg, st);
    } else {
      ActionApproaches(cfg, st, actions[0]);
      ReachableNext(cfg, st, actions[0]);
      CallsTerminate(cfg, Next(cfg, st, actions[0]).value, actions[1..]);
    }
  }

  lemma ReachableHistory(cfg: Config, st: State)
    requires Reachable(cfg, st)
    ensures History(st.pool, st.tasks)
  {
    var actions :| Run(cfg, actions) == Some(st);
    RunKeepsHistory(cfg, actions);
  }

  /**
    A result handed back answers the request this call itself sent after its handshake: the line carries that
    request's id, came from the process the request was written to, was printed after it was sent and read after it
    was written, and that process was spawned for the call's key and fingerprint.
   */
  lemma ResultsAreOwn(cfg: Config, st: State, t: Tid)
    requires Reachable(cfg, st) && t in st.tasks && st.tasks[t].outcome.Result?
    ensures var (log, task) := (st.pool.log, st.tasks[t]);
            exists j, i :: 0 <= j < i < |log| && log[i].Delivered? && log[i].t == t && log[i].req == task.req
              && log[j] == Wrote(t, log[i].s, false, Some(task.req))
              && log[i].line.body == Message(task.req.id, ResultReply(task.outcome.payload))
              && task.req.sentAt < log[i].line.at
              && Fits(st.pool.sessions, log[i].s, task.job)
  {
    ReachableHistory(cfg, st);
    var (log, task) := (st.pool.log, st.tasks[t]);
    var i: nat :| Explains(log, i, t, task.req, task.outcome);
    var j: nat :| j < i && Written(log, j, t, log[i].s, false, task.req);
    assert log[i].line.body == Message(task.req.id, ResultReply(task.outcome.payload));
  }

  /** Two requests, sent by whichever calls to whichever processes, never receive lines with the same id. */
  lemma NoReplyServesTwice(cfg: Config, st: State, i: nat, j: nat)
    requires Reachable(cfg, st) && i < j < |st.pool.log| && st.pool.log[i].Delivered? && st.pool.log[j].Delivered?
    ensures st.pool.log[i].line.body.Message? && st.pool.log[j].line.body.Message?
    ensures st.pool.log[i].line.body.id != st.pool.log[j].line.body.id
  {
    ReachableHistory(cfg, st);
    assert IsDelivery(st.pool.log, i) && IsDelivery(st.pool.log, j);
  }

  /**
    A call's own message reaches a process of its key and fingerprint, after that process was opened; handshake
    messages come before.
   */
  lemma WritesFollowHandshake(cfg: Config, st: State, i: nat)
    requires Reachable(cfg, st) && i < |st.pool.log| && st.pool.log[i].Wrote?
    ensures st.pool.log[i].t in st.tasks && Fits(st.pool.sessions, st.pool.log[i].s, st.tasks[st.pool.log[i].t].job)
    ensures st.pool.log[i].handshake <==>
              forall j :: 0 <= j < i ==> !(st.pool.log[j].Opened? && st.pool.log[j].s == st.pool.log[i].s)
  {
    ReachableHistory(cfg, st);
    var before := st.pool.log[..i];
    assert forall j :: 0 <= j < i ==> before[j] == st.pool.log[j];
  }
}
