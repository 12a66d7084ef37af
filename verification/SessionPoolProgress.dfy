/** The pool never deadlocks and never spins: every unfinished call is on its way to its end. */
module SessionPoolProgress {
  import opened Options
  import opened MapSum
  import opened SessionPool
  import opened SessionPoolSafety

  ghost predicate CanStep(cfg: Config, st: State, t: Tid) {
    t in st.tasks && exists io :: Step(cfg, st.pool, t, st.tasks[t], io).Some?
  }

  lemma {:induction false} LeastRecentExists(reg: map<Key, Sid>, lastUsed: map<Sid, nat>, keys: set<Key>)
    returns (key: Key)
    requires keys != {} && forall k :: k in keys ==> k in reg && reg[k] in lastUsed
    ensures key in keys && forall k :: k in keys ==> lastUsed[reg[key]] <= lastUsed[reg[k]]
    decreases |keys|
  {
    key :| key in keys;
    var rest := keys - {key};
    if rest != {} {
      var other := LeastRecentExists(reg, lastUsed, rest);
      if lastUsed[reg[other]] < lastUsed[reg[key]] {
        key := other;
      }
    }
  }

  lemma {:induction false} FreshExists(used: set<nat>) returns (n: nat)
    ensures forall u :: u in used ==> u < n
    decreases |used|
  {
    n := 0;
    if used != {} {
      var u :| u in used;
      var rest := FreshExists(used - {u});
      n := if rest <= u then u + 1 else rest;
      forall v | v in used ensures v < n {
        assert v == u || v in used - {u};
      }
    }
  }

  /** The holder of the registry lock never waits for another task. */
  lemma HolderSteps(cfg: Config, pool: Pool, t: Tid, task: Task) returns (io: Io)
    requires TaskOk(pool.reg, pool.sessions, pool.ready, task) && task.job.Rpc? && HoldsRegistry(task.at)
    requires forall k :: k in pool.reg ==> pool.reg[k] in pool.lastUsed
    ensures CreateStep(cfg, pool, t, task, io).Some?
  {
    if task.at.Evicting? && Full(cfg, pool) {
      var key := LeastRecentExists(pool.reg, pool.lastUsed, pool.reg.Keys);
      io := Victim(key);
    } else if task.at.Spawning? || task.at.Handshaking? {
      io := Error;
    } else {
      io := Go;
    }
  }

  lemma RegistryHolderSteps(cfg: Config, st: State, t: Tid)
    requires Inv(cfg, st) && Stocked(st.pool) && st.pool.regLock == Some(t)
    ensures CanStep(cfg, st, t)
  {
    assert TaskOk(st.pool.reg, st.pool.sessions, st.pool.ready, st.tasks[t]);
    var io := HolderSteps(cfg, st.pool, t, st.tasks[t]);
    assert Step(cfg, st.pool, t, st.tasks[t], io).Some?;
  }

  /** With the registry lock free, the holder of a session lock can go on. */
  lemma SessionHolderSteps(cfg: Config, st: State, t: Tid)
    requires Inv(cfg, st) && st.pool.regLock.None? && t in st.tasks && st.tasks[t].held.Some?
    ensures CanStep(cfg, st, t)
  {
    var pool, task := st.pool, st.tasks[t];
    assert TaskOk(pool.reg, pool.sessions, pool.ready, task);
    if task.at.Awaiting? {
      assert Step(cfg, pool, t, task, Error).Some?;
    } else {
      assert Step(cfg, pool, t, task, Go).Some?;
    }
  }

  lemma FreeTaskSteps(cfg: Config, st: State, t: Tid)
    requires Inv(cfg, st) && st.pool.regLock.None? && t in st.tasks && !st.tasks[t].at.Done? && st.tasks[t].held.None?
    requires st.tasks[t].at.WantSession? || st.tasks[t].at.WantPipes? ==> st.tasks[t].session.value !in st.pool.locks
    ensures CanStep(cfg, st, t)
  {
    var pool, task := st.pool, st.tasks[t];
    assert TaskOk(pool.reg, pool.sessions, pool.ready, task);
    if task.at.WantPipes? {
      var id := FreshExists(pool.seen);
      assert Step(cfg, pool, t, task, Fresh(id)).Some?;
    } else if task.at.KillingAll? && task.doomed != {} {
      var s :| s in task.doomed;
      assert Step(cfg, pool, t, task, Kill(s)).Some?;
    } else {
      assert Step(cfg, pool, t, task, Go).Some?;
    }
  }

  /** Deadlock freedom: while a call is unfinished, some call can take its next step. */
  lemma SomeTaskSteps(cfg: Config, st: State, t: Tid)
    requires Inv(cfg, st) && Stocked(st.pool) && t in st.tasks && !st.tasks[t].at.Done?
    ensures exists u :: CanStep(cfg, st, u)
  {
    var pool, task := st.pool, st.tasks[t];
    assert TaskOk(pool.reg, pool.sessions, pool.ready, task);
    if pool.regLock.Some? {
      RegistryHolderSteps(cfg, st, pool.regLock.value);
    } else if task.held.Some? {
      SessionHolderSteps(cfg, st, t);
    } else if (task.at.WantSession? || task.at.WantPipes?) && task.session.value in pool.locks {
      SessionHolderSteps(cfg, st, pool.locks[task.session.value]);
    } else {
      FreeTaskSteps(cfg, st, t);
    }
  }

  // ---------- The distance to rest ----------

  function Stage(task: Task): nat {
    var rebuild := if task.held.Some? then 0 else 14;
    match task.at
    case WantRegistry => 13 + rebuild
    case KillingStale => 11 + rebuild
    case Evicting => 10 + rebuild
    case KillingVictim => 11 + rebuild
    case Spawning => 9 + rebuild
    case Handshaking => 7 + rebuild
    case Announcing => 6 + rebuild
    case WantSession => 16
    case Discarding => 15
    case KillingDead => 13
    case WantPipes => 2
    case WantReap => 2
    case WantShutdown => 2
    case Done => 0
    case _ => 1
  }

  function Weight(task: Task): nat {
    Stage(task) + |task.doomed|
  }

  function Weights(tasks: map<Tid, Task>): map<nat, nat> {
    map t | t in tasks :: Weight(tasks[t])
  }

  function Unread(stdout: map<Sid, seq<Line>>): map<nat, nat> {
    map s | s in stdout :: |stdout[s]|
  }

  /** An upper bound on the steps that running calls can still take before new calls or new output arrive. */
  ghost function Distance(st: State): nat {
    4 * |st.pool.reg| + Sum(Weights(st.tasks)) + Sum(Unread(st.pool.stdout))
  }

  /** What a step of one task does to its share of the distance. */
  function Share(pool: Pool, task: Task): nat {
    4 * |pool.reg| + Weight(task)
  }

  lemma {:induction false} ImageSize(reg: map<Key, Sid>, keys: set<Key>)
    requires keys <= reg.Keys
    ensures |set k | k in keys :: reg[k]| <= |keys|
    decreases |keys|
  {
    if keys != {} {
      var c :| c in keys;
      var rest := set k | k in keys - {c} :: reg[k];
      ImageSize(reg, keys - {c});
      assert (set k | k in keys :: reg[k]) == rest + {reg[c]};
    }
  }

  lemma CollectSizes(reg: map<Key, Sid>, keys: set<Key>)
    requires keys <= reg.Keys
    ensures |set k | k in keys && k in reg :: reg[k]| <= |keys|
    ensures |reg - keys| == |reg| - |keys|
  {
    ImageSize(reg, keys);
    assert (set k | k in keys && k in reg :: reg[k]) == set k | k in keys :: reg[k];
    assert (reg - keys).Keys == reg.Keys - keys;
  }

  lemma CollectShare(pool: Pool, task: Task, keys: set<Key>)
    requires (task.at.WantReap? || task.at.WantShutdown?) && keys <= pool.reg.Keys
    ensures Share(Collect(pool, task, keys).pool, Collect(pool, task, keys).task) < Share(pool, task)
  {
    CollectSizes(pool.reg, keys);
  }

  predicate Closer(pool: Pool, task: Task, move: Move) {
    Share(move.pool, move.task) < Share(pool, task)
  }

  lemma LookUpCloser(pool: Pool, t: Tid, task: Task)
    requires TaskOk(pool.reg, pool.sessions, pool.ready, task) && (task.at.WantRegistry?)
    ensures Closer(pool, task, LookUp(pool, t, task))
  {
  }

  lemma DropStaleCloser(pool: Pool, task: Task)
    requires TaskOk(pool.reg, pool.sessions, pool.ready, task) && (task.at.KillingStale?)
    ensures Closer(pool, task, DropStale(pool, task))
  {
  }

  lemma EvictOneCloser(pool: Pool, task: Task, key: Key)
    requires TaskOk(pool.reg, pool.sessions, pool.ready, task) && (task.at.Evicting? && key in pool.reg)
    ensures Closer(pool, task, EvictOne(pool, task, key))
  {
  }

  lemma GiveUpCloser(pool: Pool, task: Task)
    requires TaskOk(pool.reg, pool.sessions, pool.ready, task)
             && (task.at.Evicting? || task.at.Spawning? || task.at.KillingFailed?)
    ensures Closer(pool, task, GiveUp(pool, task))
  {
  }

  lemma TerminatedCloser(pool: Pool, task: Task, next: Label)
    requires TaskOk(pool.reg, pool.sessions, pool.ready, task)
             && ((task.at.KillingVictim? && next.Evicting?) || (task.at.KillingDead? && next.WantRegistry?))
    ensures Closer(pool, task, Terminated(pool, task, next))
  {
  }

  lemma StartChildCloser(pool: Pool, t: Tid, task: Task, s: Sid, id: ReqId)
    requires TaskOk(pool.reg, pool.sessions, pool.ready, task) && (task.at.Spawning?)
    ensures Closer(pool, task, StartChild(pool, t, task, s, id))
  {
  }

  lemma RegisterCloser(pool: Pool, t: Tid, task: Task, s: Sid)
    requires TaskOk(pool.reg, pool.sessions, pool.ready, task) && (task.at.Announcing?)
    ensures Closer(pool, task, Register(pool, t, task, s))
  {
  }

  lemma CheckAliveCloser(pool: Pool, t: Tid, task: Task, s: Sid)
    requires TaskOk(pool.reg, pool.sessions, pool.ready, task) && (task.at.WantSession?)
    ensures Closer(pool, task, CheckAlive(pool, t, task, s))
  {
  }

  lemma DropDeadCloser(pool: Pool, task: Task, s: Sid)
    requires TaskOk(pool.reg, pool.sessions, pool.ready, task) && (task.at.Discarding?)
    ensures Closer(pool, task, DropDead(pool, task, s))
  {
  }

  lemma UsePipesCloser(pool: Pool, t: Tid, task: Task, s: Sid, id: ReqId)
    requires TaskOk(pool.reg, pool.sessions, pool.ready, task) && (task.at.WantPipes?)
    ensures Closer(pool, task, UsePipes(pool, t, task, s, id))
  {
  }

  lemma FinishCloser(pool: Pool, task: Task, outcome: Outcome)
    requires TaskOk(pool.reg, pool.sessions, pool.ready, task) && (task.at.Notifying? || task.at.Awaiting?)
    ensures Closer(pool, task, Finish(pool, task, outcome))
  {
  }

  lemma KillOneCloser(pool: Pool, task: Task, s: Sid)
    requires TaskOk(pool.reg, pool.sessions, pool.ready, task) && (task.at.KillingAll? && s in task.doomed)
    ensures Closer(pool, task, KillOne(pool, task, s))
  {
  }

  /** A step brings its task closer, or leaves it waiting with one unread line less. */
  ghost predicate Progress(pool: Pool, task: Task, move: Move, s: Option<Sid>) {
    if s.Some? then
      && s.value in pool.stdout && pool.stdout[s.value] != []
      && move.pool.stdout == pool.stdout[s.value := pool.stdout[s.value][1..]]
      && Share(move.pool, move.task) <= Share(pool, task)
    else
      && Closer(pool, task, move)
      && (move.pool.stdout == pool.stdout
          || exists n: Sid :: n !in pool.stdout && move.pool.stdout == pool.stdout[n := []])
  }

  lemma FindCloser(cfg: Config, pool: Pool, t: Tid, task: Task, io: Io)
    requires TaskOk(pool.reg, pool.sessions, pool.ready, task) && task.job.Rpc? && !NeedsRoom(task)
    requires CreateStep(cfg, pool, t, task, io).Some?
    ensures Closer(pool, task, CreateStep(cfg, pool, t, task, io).value)
  {
    match task.at
    case WantRegistry => LookUpCloser(pool, t, task);
    case KillingStale => DropStaleCloser(pool, task);
    case Evicting =>
      if Full(cfg, pool) {
        EvictOneCloser(pool, task, io.key);
      } else {
        GiveUpCloser(pool, task);
      }
    case KillingVictim => TerminatedCloser(pool, task, Evicting);
    case KillingDead => TerminatedCloser(pool, task, WantRegistry);
  }

  lemma SpawnCloser(cfg: Config, pool: Pool, t: Tid, task: Task, io: Io)
    requires TaskOk(pool.reg, pool.sessions, pool.ready, task) && task.job.Rpc? && NeedsRoom(task)
    requires CreateStep(cfg, pool, t, task, io).Some? && !io.Read?
    ensures Closer(pool, task, CreateStep(cfg, pool, t, task, io).value)
  {
    match task.at
    case Spawning =>
      if io.Created? {
        StartChildCloser(pool, t, task, io.s, io.id);
      } else {
        GiveUpCloser(pool, task);
      }
    case Handshaking =>
    case Announcing =>
      if io.Go? {
        RegisterCloser(pool, t, task, task.child.value);
      }
    case KillingFailed => GiveUpCloser(pool, task);
  }

  lemma CreateCloser(cfg: Config, pool: Pool, t: Tid, task: Task, io: Io)
    requires TaskOk(pool.reg, pool.sessions, pool.ready, task) && task.job.Rpc?
    requires CreateStep(cfg, pool, t, task, io).Some? && !io.Read?
    ensures Closer(pool, task, CreateStep(cfg, pool, t, task, io).value)
  {
    if NeedsRoom(task) {
      SpawnCloser(cfg, pool, t, task, io);
    } else {
      FindCloser(cfg, pool, t, task, io);
    }
  }

  lemma UseCloser(pool: Pool, t: Tid, task: Task, s: Sid, io: Io)
    requires TaskOk(pool.reg, pool.sessions, pool.ready, task) && task.job.Rpc?
    requires UseStep(pool, t, task, s, io).Some? && !io.Read?
    ensures Closer(pool, task, UseStep(pool, t, task, s, io).value)
  {
    match task.at
    case WantSession => CheckAliveCloser(pool, t, task, s);
    case Discarding => DropDeadCloser(pool, task, s);
    case WantPipes => UsePipesCloser(pool, t, task, s, io.id);
    case Notifying => FinishCloser(pool, task, if io.Go? then Sent else Failed);
    case Awaiting => FinishCloser(pool, task, Failed);
  }

  lemma SweepCloser(cfg: Config, pool: Pool, task: Task, io: Io)
    requires TaskOk(pool.reg, pool.sessions, pool.ready, task) && SweepStep(cfg, pool, task, io).Some?
    ensures Closer(pool, task, SweepStep(cfg, pool, task, io).value)
  {
    match task.at
    case WantReap => CollectShare(pool, task, StaleKeys(cfg, pool, task.sampled));
    case WantShutdown => CollectShare(pool, task, pool.reg.Keys);
    case KillingAll =>
      if io.Kill? {
        KillOneCloser(pool, task, io.s);
      }
  }

  lemma ReadCloser(cfg: Config, pool: Pool, t: Tid, task: Task, io: Io)
    requires TaskOk(pool.reg, pool.sessions, pool.ready, task) && task.job.Rpc? && io.Read?
             && Step(cfg, pool, t, task, io).Some?
    ensures Progress(pool, task, Step(cfg, pool, t, task, io).value, Reading(task))
  {
    ReadingStep(cfg, pool, t, task, io);
    var s := Reading(task).value;
    var rest := TakeLine(pool, t, task, s);
    if task.at.Awaiting? && Answers(pool.stdout[s][0], task.req) {
      FinishCloser(rest, task, Unwrap(pool.stdout[s][0].body.reply));
    }
  }

  lemma StepProgress(cfg: Config, pool: Pool, t: Tid, task: Task, io: Io)
    requires TaskOk(pool.reg, pool.sessions, pool.ready, task) && Stocked(pool) && Step(cfg, pool, t, task, io).Some?
    ensures Progress(pool, task, Step(cfg, pool, t, task, io).value, if task.job.Rpc? && io.Read? then Reading(task)
            else None)
  {
    var move := Step(cfg, pool, t, task, io).value;
    if !task.job.Rpc? {
      SweepCloser(cfg, pool, task, io);
      UntracedStep(cfg, pool, t, task, io);
    } else if io.Read? {
      ReadCloser(cfg, pool, t, task, io);
    } else {
      if task.session.Some? && Some(move) == UseStep(pool, t, task, task.session.value, io) {
        UseCloser(pool, t, task, task.session.value, io);
      } else {
        CreateCloser(cfg, pool, t, task, io);
      }
      StepOutput(cfg, pool, t, task, io);
    }
  }

  lemma StepOutput(cfg: Config, pool: Pool, t: Tid, task: Task, io: Io)
    requires Stocked(pool) && Step(cfg, pool, t, task, io).Some? && !io.Read?
    ensures var after := Step(cfg, pool, t, task, io).value.pool;
            after.stdout == pool.stdout || exists n: Sid :: n !in pool.stdout && after.stdout == pool.stdout[n := []]
  {
    if !Traces(task, io) {
      UntracedStep(cfg, pool, t, task, io);
    } else if io.Created? && task.at.Spawning? {
      SpawningStep(cfg, pool, t, task, io);
    } else if io.Go? && task.at.Announcing? {
      AnnouncingStep(cfg, pool, t, task, io);
    } else {
      WantPipesStep(cfg, pool, t, task, io);
    }
  }

  lemma TaskSum(tasks: map<Tid, Task>, t: Tid, now: Task)
    requires t in tasks
    ensures Sum(Weights(tasks[t := now])) == Sum(Weights(tasks)) - Weight(tasks[t]) + Weight(now)
  {
    SumUpdate(Weights(tasks), t, Weight(now));
    assert Weights(tasks[t := now]) == Weights(tasks)[t := Weight(now)];
  }

  lemma LineTakenSum(stdout: map<Sid, seq<Line>>, s: Sid)
    requires s in stdout && stdout[s] != []
    ensures Sum(Unread(stdout[s := stdout[s][1..]])) == Sum(Unread(stdout)) - 1
  {
    SumUpdate(Unread(stdout), s, |stdout[s]| - 1);
    assert Unread(stdout[s := stdout[s][1..]]) == Unread(stdout)[s := |stdout[s]| - 1];
  }

  lemma PipeAddedSum(stdout: map<Sid, seq<Line>>, s: Sid)
    requires s !in stdout
    ensures Sum(Unread(stdout[s := []])) == Sum(Unread(stdout))
  {
    SumInsert(Unread(stdout), s, 0);
    assert Unread(stdout[s := []]) == Unread(stdout)[s := 0];
  }

  lemma OutputSum(pool: Pool, task: Task, move: Move, s: Option<Sid>)
    requires Progress(pool, task, move, s)
    ensures Sum(Unread(move.pool.stdout)) == Sum(Unread(pool.stdout)) - (if s.Some? then 1 else 0)
  {
    if s.Some? {
      LineTakenSum(pool.stdout, s.value);
    } else if move.pool.stdout != pool.stdout {
      var n: Sid :| n !in pool.stdout && move.pool.stdout == pool.stdout[n := []];
      PipeAddedSum(pool.stdout, n);
    }
  }

  /** No livelock: whatever a running call does next, the pool is strictly closer to rest. */
  lemma StepApproaches(cfg: Config, st: State, t: Tid, io: Io)
    requires Inv(cfg, st) && Stocked(st.pool) && t in st.tasks && Step(cfg, st.pool, t, st.tasks[t], io).Some?
    ensures var move := Step(cfg, st.pool, t, st.tasks[t], io).value;
            Distance(State(move.pool, st.tasks[t := move.task])) < Distance(st)
  {
    var pool, task := st.pool, st.tasks[t];
    var move := Step(cfg, pool, t, task, io).value;
    var reading := if task.job.Rpc? && io.Read? then Reading(task) else None;
    assert Progress(pool, task, move, reading) by {
      assert TaskOk(pool.reg, pool.sessions, pool.ready, task);
      StepProgress(cfg, pool, t, task, io);
    }
    TaskSum(st.tasks, t, move.task);
    OutputSum(pool, task, move, reading);
  }
}
