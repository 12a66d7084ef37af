/** What every step of the session pool keeps. */
module SessionPoolSafety {
  import opened Options
  import opened SessionPool
  import opened Strings

  // ---------- The invariant ----------

  predicate InSpawn(at: Label) {
    at.Handshaking? || at.Announcing? || at.KillingFailed?
  }

  /** The labels inside the critical section of `_get_or_create`. */
  predicate HoldsRegistry(at: Label) {
    at.KillingStale? || at.Evicting? || at.KillingVictim? || at.Spawning? || InSpawn(at)
  }

  predicate InUse(at: Label) {
    at.Discarding? || at.KillingDead? || at.Notifying? || at.Awaiting?
  }

  ghost predicate Locks(regLock: Option<Tid>, locks: map<Sid, Tid>, tasks: map<Tid, Task>) {
    && (regLock.Some? ==> regLock.value in tasks && HoldsRegistry(tasks[regLock.value].at))
    && (forall t :: t in tasks && HoldsRegistry(tasks[t].at) ==> regLock == Some(t))
    && (forall s :: s in locks ==> locks[s] in tasks && tasks[locks[s]].held == Some(s))
    && (forall t :: t in tasks && tasks[t].held.Some? ==>
        tasks[t].held.value in locks && locks[tasks[t].held.value] == t)
  }

  /** How many processes a task may have created by now. */
  function SpawnAllowance(task: Task): nat {
    if InSpawn(task.at) then (if task.held.Some? then 2 else 1)
    else if HoldsRegistry(task.at) || task.at.WantRegistry? then (if task.held.Some? then 1 else 0)
    else if task.at.WantSession? || task.at.Discarding? || task.at.KillingDead? then 1
    else 2
  }

  /** Which local variables a task uses at its label. */
  predicate Shape(task: Task) {
    && (!task.at.Done? ==> task.job.Rpc? == (!task.at.WantReap? && !task.at.WantShutdown? && !task.at.KillingAll?))
    && (InSpawn(task.at) ==> task.child.Some? && task.doomed == {task.child.value})
    && (task.child.Some? ==> InSpawn(task.at))
    && (InUse(task.at) ==> task.session.Some? && task.held == task.session)
    && (task.held.Some? ==> task.held == task.session)
    && (task.at.WantSession? || task.at.WantPipes? ==> task.session.Some?)
    && (task.held.Some? ==> InUse(task.at) || HoldsRegistry(task.at) || task.at.WantRegistry?)
    && (task.at.KillingDead? ==> task.doomed == {task.session.value})
    && (task.doomed != {} ==>
          InSpawn(task.at) || task.at.KillingStale? || task.at.KillingVictim? || task.at.KillingDead? ||
            task.at.KillingAll?)
    && task.spawned <= SpawnAllowance(task)
  }

  type Sessions = map<Sid, Session>

  /** A session this job may be served by: its own key, its own fingerprint. */
  predicate Fits(sessions: Sessions, s: Sid, job: Job) {
    job.Rpc? && s in sessions && sessions[s].key == job.key &&
      SpecFingerprint(sessions[s].spec) == SpecFingerprint(job.spec)
  }

  /** Under the registry lock the key of the call is free, except while its outdated session is being terminated. */
  predicate KeyState(reg: map<Key, Sid>, task: Task) {
    task.job.Rpc? &&
    if task.at.KillingStale? then task.job.key in reg && task.doomed == {reg[task.job.key]}
    else task.job.key !in reg
  }

  predicate TaskOk(reg: map<Key, Sid>, sessions: Sessions, ready: set<Sid>, task: Task) {
    && Shape(task)
    && (task.session.Some? ==> task.session.value in ready && Fits(sessions, task.session.value, task.job))
    && (task.child.Some? ==> task.child.value !in ready && Fits(sessions, task.child.value, task.job))
    && task.doomed <= sessions.Keys
    && (HoldsRegistry(task.at) ==> KeyState(reg, task))
  }

  ghost predicate Tasks(reg: map<Key, Sid>, sessions: Sessions, ready: set<Sid>, tasks: map<Tid, Task>) {
    forall t :: t in tasks ==> TaskOk(reg, sessions, ready, tasks[t])
  }

  ghost predicate Registry(reg: map<Key, Sid>, sessions: Sessions, ready: set<Sid>) {
    && ready <= sessions.Keys
    && (forall k :: k in reg ==> reg[k] in ready && sessions[reg[k]].key == k)
  }

  predicate Registered(reg: map<Key, Sid>, sessions: Sessions, s: Sid) {
    s in sessions && sessions[s].key in reg && reg[sessions[s].key] == s
  }

  predicate InCharge(tasks: map<Tid, Task>, t: Tid, s: Sid) {
    t in tasks && s in tasks[t].doomed
  }

  ghost predicate Accounted(reg: map<Key, Sid>, sessions: Sessions, tasks: map<Tid, Task>, s: Sid) {
    Registered(reg, sessions, s) || exists t :: InCharge(tasks, t, s)
  }

  ghost predicate Owned(reg: map<Key, Sid>, sessions: Sessions, tasks: map<Tid, Task>, alive: set<Sid>) {
    forall s :: s in alive ==> Accounted(reg, sessions, tasks, s)
  }

  function Capacity(cfg: Config): nat {
    if cfg.maxSessions == 0 then 1 else cfg.maxSessions
  }

  predicate NeedsRoom(task: Task) {
    task.at.Spawning? || InSpawn(task.at)
  }

  ghost predicate Roomy(capacity: nat, reg: map<Key, Sid>, tasks: map<Tid, Task>) {
    forall t :: t in tasks && NeedsRoom(tasks[t]) ==> |reg| < capacity
  }

  /** What the pool alone satisfies. */
  ghost predicate PoolOk(cfg: Config, pool: Pool) {
    && Registry(pool.reg, pool.sessions, pool.ready)
    && pool.alive <= pool.sessions.Keys
    && |pool.reg| <= Capacity(cfg)
  }

  ghost predicate Inv(cfg: Config, st: State) {
    && PoolOk(cfg, st.pool)
    && Locks(st.pool.regLock, st.pool.locks, st.tasks)
    && Tasks(st.pool.reg, st.pool.sessions, st.pool.ready, st.tasks)
    && Owned(st.pool.reg, st.pool.sessions, st.tasks, st.pool.alive)
    && Roomy(Capacity(cfg), st.pool.reg, st.tasks)
  }

  // ---------- What one task's step may change ----------

  /** The task takes and gives back locks as its state says. */
  ghost predicate LockStep(regLock: Option<Tid>, locks: map<Sid, Tid>, regLock': Option<Tid>, locks': map<Sid, Tid>,
                           t: Tid, before: Task, now: Task) {
    && regLock' == (if HoldsRegistry(now.at) then Some(t) else if HoldsRegistry(before.at) then None else regLock)
    && (HoldsRegistry(now.at) && !HoldsRegistry(before.at) ==> regLock.None?)
    && (now.held == before.held ==> locks' == locks)
    && (now.held != before.held && now.held.None? ==> locks' == Unlocked(locks, before.held))
    && (now.held != before.held && now.held.Some? ==>
          before.held.None? && now.held.value !in locks && locks' == locks[now.held.value := t])
  }

  /** Only the holder of the registry lock, or a step that finds it free, touches the registry. */
  ghost predicate RegistryStep(pool: Pool, after: Pool, before: Task) {
    && (forall s :: s in pool.sessions ==> s in after.sessions && after.sessions[s] == pool.sessions[s])
    && pool.ready <= after.ready
    && (after.ready == pool.ready || HoldsRegistry(before.at))
    && (after.reg == pool.reg || HoldsRegistry(before.at) || (pool.regLock.None? && |after.reg| <= |pool.reg|))
  }

  /** No live process is dropped without being registered or given to the task. */
  ghost predicate OwnerStep(pool: Pool, after: Pool, before: Task, now: Task) {
    && (forall s :: s in after.alive ==> s in pool.alive || s in now.doomed)
    && (forall s :: s in after.alive && (Registered(pool.reg, pool.sessions, s) || s in before.doomed) ==>
          Registered(after.reg, after.sessions, s) || s in now.doomed)
  }

  ghost predicate StepOk(cfg: Config, pool: Pool, after: Pool, t: Tid, before: Task, now: Task) {
    && LockStep(pool.regLock, pool.locks, after.regLock, after.locks, t, before, now)
    && RegistryStep(pool, after, before)
    && OwnerStep(pool, after, before, now)
    && TaskOk(after.reg, after.sessions, after.ready, now)
    && PoolOk(cfg, after)
    && (NeedsRoom(now) ==> |after.reg| < Capacity(cfg))
  }

  lemma LocksFrame(regLock: Option<Tid>, locks: map<Sid, Tid>, regLock': Option<Tid>, locks': map<Sid, Tid>,
                   tasks: map<Tid, Task>, t: Tid, now: Task)
    requires Locks(regLock, locks, tasks) && t in tasks
    requires LockStep(regLock, locks, regLock', locks', t, tasks[t], now)
    ensures Locks(regLock', locks', tasks[t := now])
  {
  }

  lemma TasksFrame(pool: Pool, after: Pool, tasks: map<Tid, Task>, t: Tid, now: Task)
    requires Locks(pool.regLock, pool.locks, tasks) && t in tasks && RegistryStep(pool, after, tasks[t])
    requires Tasks(pool.reg, pool.sessions, pool.ready, tasks)
    requires TaskOk(after.reg, after.sessions, after.ready, now)
    ensures Tasks(after.reg, after.sessions, after.ready, tasks[t := now])
  {
    forall u | u in tasks && u != t ensures TaskOk(after.reg, after.sessions, after.ready, tasks[u]) {
      assert TaskOk(pool.reg, pool.sessions, pool.ready, tasks[u]);
    }
  }

  lemma OwnedFrame(pool: Pool, after: Pool, tasks: map<Tid, Task>, t: Tid, now: Task)
    requires Owned(pool.reg, pool.sessions, tasks, pool.alive) && t in tasks && OwnerStep(pool, after, tasks[t], now)
    ensures Owned(after.reg, after.sessions, tasks[t := now], after.alive)
  {
    forall s | s in after.alive ensures Accounted(after.reg, after.sessions, tasks[t := now], s) {
      if s in now.doomed {
        assert InCharge(tasks[t := now], t, s);
      } else if !Registered(after.reg, after.sessions, s) {
        assert Accounted(pool.reg, pool.sessions, tasks, s);
        var u :| InCharge(tasks, u, s);
        assert InCharge(tasks[t := now], u, s);
      }
    }
  }

  lemma RoomFrame(cfg: Config, pool: Pool, after: Pool, tasks: map<Tid, Task>, t: Tid, now: Task)
    requires Locks(pool.regLock, pool.locks, tasks) && t in tasks && RegistryStep(pool, after, tasks[t])
    requires Roomy(Capacity(cfg), pool.reg, tasks) && (NeedsRoom(now) ==> |after.reg| < Capacity(cfg))
    ensures Roomy(Capacity(cfg), after.reg, tasks[t := now])
  {
  }

  lemma StepKeeps(cfg: Config, st: State, after: Pool, t: Tid, now: Task)
    requires Inv(cfg, st) && t in st.tasks && StepOk(cfg, st.pool, after, t, st.tasks[t], now)
    ensures Inv(cfg, State(after, st.tasks[t := now]))
  {
    LocksFrame(st.pool.regLock, st.pool.locks, after.regLock, after.locks, st.tasks, t, now);
    TasksFrame(st.pool, after, st.tasks, t, now);
    OwnedFrame(st.pool, after, st.tasks, t, now);
    RoomFrame(cfg, st.pool, after, st.tasks, t, now);
  }

  // ---------- Every step is such a change ----------

  /** Most steps leave the registry alone: they move one task, pass a lock, or end a process. */
  lemma QuietOk(cfg: Config, pool: Pool, after: Pool, t: Tid, before: Task, now: Task)
    requires PoolOk(cfg, pool) && LockStep(pool.regLock, pool.locks, after.regLock, after.locks, t, before, now)
    requires after.reg == pool.reg && after.sessions == pool.sessions && after.ready == pool.ready
    requires after.alive == pool.alive || after.alive == pool.alive - before.doomed
    requires before.doomed <= now.doomed || after.alive == pool.alive - before.doomed
    requires TaskOk(pool.reg, pool.sessions, pool.ready, now)
    requires NeedsRoom(now) ==> |pool.reg| < Capacity(cfg)
    ensures StepOk(cfg, pool, after, t, before, now)
  {
  }

  lemma RemovalShrinks<K, V>(m: map<K, V>, keys: set<K>)
    ensures |m - keys| <= |m|
  {
    assert (m - keys).Keys == m.Keys - keys;
    assert |m.Keys - keys| <= |m.Keys|;
  }

  lemma FoundOk(cfg: Config, pool: Pool, t: Tid, task: Task)
    requires TaskOk(pool.reg, pool.sessions, pool.ready, task) && PoolOk(cfg, pool)
    requires task.at.WantRegistry? && pool.regLock.None? && Current(pool, task.job)
    ensures StepOk(cfg, pool, pool.(locks := Unlocked(pool.locks, task.held)), t, task,
                   HandedBack(task, pool.reg[task.job.key]))
  {
    var now := HandedBack(task, pool.reg[task.job.key]);
    assert TaskOk(pool.reg, pool.sessions, pool.ready, now);
    QuietOk(cfg, pool, pool.(locks := Unlocked(pool.locks, task.held)), t, task, now);
  }

  /** The task enters the critical section with its key free, or with its outdated session to terminate. */
  lemma EntersOk(cfg: Config, pool: Pool, t: Tid, task: Task, now: Task)
    requires TaskOk(pool.reg, pool.sessions, pool.ready, task) && PoolOk(cfg, pool) && task.job.Rpc?
    requires task.at.WantRegistry? && pool.regLock.None?
    requires now == if task.job.key in pool.reg then task.(at := KillingStale, doomed := {pool.reg[task.job.key]})
                    else task.(at := Evicting)
    ensures StepOk(cfg, pool, pool.(regLock := Some(t)), t, task, now)
  {
    assert TaskOk(pool.reg, pool.sessions, pool.ready, now);
    QuietOk(cfg, pool, pool.(regLock := Some(t)), t, task, now);
  }

  lemma LookUpOk(cfg: Config, pool: Pool, t: Tid, task: Task)
    requires TaskOk(pool.reg, pool.sessions, pool.ready, task) && PoolOk(cfg, pool)
    requires task.at.WantRegistry? && pool.regLock.None?
    ensures StepOk(cfg, pool, LookUp(pool, t, task).pool, t, task, LookUp(pool, t, task).task)
  {
    if Current(pool, task.job) {
      FoundOk(cfg, pool, t, task);
    } else {
      EntersOk(cfg, pool, t, task, LookUp(pool, t, task).task);
    }
  }

  lemma DropStaleOk(cfg: Config, pool: Pool, t: Tid, task: Task)
    requires TaskOk(pool.reg, pool.sessions, pool.ready, task) && PoolOk(cfg, pool)
    requires task.at.KillingStale? && pool.regLock == Some(t)
    ensures StepOk(cfg, pool, DropStale(pool, task).pool, t, task, DropStale(pool, task).task)
  {
  }

  lemma EvictOneOk(cfg: Config, pool: Pool, t: Tid, task: Task, key: Key)
    requires TaskOk(pool.reg, pool.sessions, pool.ready, task) && PoolOk(cfg, pool)
    requires task.at.Evicting? && pool.regLock == Some(t) && key in pool.reg
    ensures StepOk(cfg, pool, EvictOne(pool, task, key).pool, t, task, EvictOne(pool, task, key).task)
  {
  }

  lemma GiveUpOk(cfg: Config, pool: Pool, t: Tid, task: Task)
    requires TaskOk(pool.reg, pool.sessions, pool.ready, task) && PoolOk(cfg, pool)
    requires HoldsRegistry(task.at) && !task.at.KillingStale?
    ensures StepOk(cfg, pool, GiveUp(pool, task).pool, t, task, GiveUp(pool, task).task)
  {
    QuietOk(cfg, pool, GiveUp(pool, task).pool, t, task, GiveUp(pool, task).task);
  }

  lemma StartChildOk(cfg: Config, pool: Pool, t: Tid, task: Task, s: Sid, id: ReqId)
    requires TaskOk(pool.reg, pool.sessions, pool.ready, task) && PoolOk(cfg, pool)
    requires task.at.Spawning? && pool.regLock == Some(t) && s !in pool.sessions && |pool.reg| < Capacity(cfg)
    ensures StepOk(cfg, pool, StartChild(pool, t, task, s, id).pool, t, task, StartChild(pool, t, task, s, id).task)
  {
  }

  lemma FailedSpawnOk(cfg: Config, pool: Pool, t: Tid, task: Task)
    requires TaskOk(pool.reg, pool.sessions, pool.ready, task) && PoolOk(cfg, pool)
    requires InSpawn(task.at) && pool.regLock == Some(t) && |pool.reg| < Capacity(cfg)
    ensures StepOk(cfg, pool, pool, t, task, task.(at := KillingFailed))
  {
    QuietOk(cfg, pool, pool, t, task, task.(at := KillingFailed));
  }

  lemma ReadHandshakeOk(cfg: Config, pool: Pool, t: Tid, task: Task, s: Sid)
    requires TaskOk(pool.reg, pool.sessions, pool.ready, task) && PoolOk(cfg, pool)
    requires task.at.Handshaking? && pool.regLock == Some(t) && task.child == Some(s) && HasLine(pool, s)
             && |pool.reg| < Capacity(cfg)
    ensures StepOk(cfg, pool, ReadHandshake(pool, t, task, s).pool, t, task, ReadHandshake(pool, t, task, s).task)
  {
    var rest := TakeLine(pool, t, task, s);
    var line := pool.stdout[s][0];
    if !Answers(line, task.req) {
      QuietOk(cfg, pool, rest, t, task, task);
    } else if Unwrap(line.body.reply).Result? {
      QuietOk(cfg, pool, rest.(log := rest.log + [Wrote(t, s, true, None)]), t, task, task.(at := Announcing));
    } else {
      QuietOk(cfg, pool, rest, t, task, task.(at := KillingFailed));
    }
  }

  /** What the registration of the new session leaves to show. */
  lemma RegisteredOk(reg: map<Key, Sid>, sessions: Sessions, ready: set<Sid>, task: Task, s: Sid)
    requires TaskOk(reg, sessions, ready, task) && Registry(reg, sessions, ready)
    requires task.at.Announcing? && task.child == Some(s)
    ensures var reg' := reg[task.job.key := s];
            && Registry(reg', sessions, ready + {s}) && TaskOk(reg', sessions, ready + {s}, HandedBack(task, s))
            && |reg'| == |reg| + 1 && Registered(reg', sessions, s)
            && forall q :: Registered(reg, sessions, q) ==> Registered(reg', sessions, q)
  {
    assert reg[task.job.key := s].Keys == reg.Keys + {task.job.key};
  }

  lemma RegisterOk(cfg: Config, pool: Pool, t: Tid, task: Task, s: Sid)
    requires TaskOk(pool.reg, pool.sessions, pool.ready, task) && PoolOk(cfg, pool)
    requires task.at.Announcing? && task.child == Some(s) && |pool.reg| < Capacity(cfg)
    ensures StepOk(cfg, pool, Register(pool, t, task, s).pool, t, task, Register(pool, t, task, s).task)
  {
    RegisteredOk(pool.reg, pool.sessions, pool.ready, task, s);
  }

  lemma CheckAliveOk(cfg: Config, pool: Pool, t: Tid, task: Task, s: Sid)
    requires TaskOk(pool.reg, pool.sessions, pool.ready, task) && PoolOk(cfg, pool)
    requires task.at.WantSession? && task.session == Some(s) && s !in pool.locks
    ensures StepOk(cfg, pool, CheckAlive(pool, t, task, s).pool, t, task, CheckAlive(pool, t, task, s).task)
  {
    QuietOk(cfg, pool, CheckAlive(pool, t, task, s).pool, t, task, CheckAlive(pool, t, task, s).task);
  }

  lemma DropDeadOk(cfg: Config, pool: Pool, t: Tid, task: Task, s: Sid)
    requires TaskOk(pool.reg, pool.sessions, pool.ready, task) && PoolOk(cfg, pool)
    requires task.at.Discarding? && task.session == Some(s) && pool.regLock.None?
    ensures StepOk(cfg, pool, DropDead(pool, task, s).pool, t, task, DropDead(pool, task, s).task)
  {
  }

  /** The task takes the session lock and writes. */
  lemma WriteOk(cfg: Config, pool: Pool, after: Pool, t: Tid, task: Task, s: Sid, now: Task)
    requires TaskOk(pool.reg, pool.sessions, pool.ready, task) && PoolOk(cfg, pool)
    requires task.at.WantPipes? && task.session == Some(s) && s !in pool.locks
    requires after.reg == pool.reg && after.sessions == pool.sessions && after.ready == pool.ready
    requires after.alive == pool.alive && after.regLock == pool.regLock && after.locks == pool.locks[s := t]
    requires (now.at.Notifying? || now.at.Awaiting?) && now == task.(at := now.at, held := Some(s), req := now.req)
    ensures StepOk(cfg, pool, after, t, task, now)
  {
    QuietOk(cfg, pool, after, t, task, now);
  }

  lemma UsePipesOk(cfg: Config, pool: Pool, t: Tid, task: Task, s: Sid, id: ReqId)
    requires TaskOk(pool.reg, pool.sessions, pool.ready, task) && PoolOk(cfg, pool)
    requires task.at.WantPipes? && task.session == Some(s) && s !in pool.locks
    ensures StepOk(cfg, pool, UsePipes(pool, t, task, s, id).pool, t, task, UsePipes(pool, t, task, s, id).task)
  {
    var move := UsePipes(pool, t, task, s, id);
    if task.job.kind.Initialize? {
      QuietOk(cfg, pool, move.pool, t, task, move.task);
    } else {
      WriteOk(cfg, pool, move.pool, t, task, s, move.task);
    }
  }

  lemma FinishOk(cfg: Config, pool: Pool, t: Tid, task: Task, outcome: Outcome)
    requires TaskOk(pool.reg, pool.sessions, pool.ready, task) && PoolOk(cfg, pool)
    requires task.at.Notifying? || task.at.Awaiting?
    ensures StepOk(cfg, pool, Finish(pool, task, outcome).pool, t, task, Finish(pool, task, outcome).task)
  {
    QuietOk(cfg, pool, Finish(pool, task, outcome).pool, t, task, Finish(pool, task, outcome).task);
  }

  lemma ReadReplyOk(cfg: Config, pool: Pool, t: Tid, task: Task, s: Sid)
    requires TaskOk(pool.reg, pool.sessions, pool.ready, task) && PoolOk(cfg, pool)
    requires task.at.Awaiting? && task.session == Some(s) && HasLine(pool, s)
    ensures StepOk(cfg, pool, ReadReply(pool, t, task, s).pool, t, task, ReadReply(pool, t, task, s).task)
  {
    var rest := TakeLine(pool, t, task, s);
    if Answers(pool.stdout[s][0], task.req) {
      FinishOk(cfg, rest, t, task, Unwrap(pool.stdout[s][0].body.reply));
    } else {
      QuietOk(cfg, pool, rest, t, task, task);
    }
  }

  /** What is removed from the registry goes to the task. */
  lemma CollectedOk(reg: map<Key, Sid>, sessions: Sessions, ready: set<Sid>, keys: set<Key>)
    requires Registry(reg, sessions, ready)
    ensures var doomed := set k | k in keys && k in reg :: reg[k];
            && |reg - keys| <= |reg| && Registry(reg - keys, sessions, ready) && doomed <= sessions.Keys
            && forall s :: Registered(reg, sessions, s) ==> Registered(reg - keys, sessions, s) || s in doomed
  {
    RemovalShrinks(reg, keys);
  }

  lemma CollectOk(cfg: Config, pool: Pool, t: Tid, task: Task, keys: set<Key>)
    requires TaskOk(pool.reg, pool.sessions, pool.ready, task) && PoolOk(cfg, pool)
    requires (task.at.WantReap? || task.at.WantShutdown?) && pool.regLock.None?
    ensures StepOk(cfg, pool, Collect(pool, task, keys).pool, t, task, Collect(pool, task, keys).task)
  {
    CollectedOk(pool.reg, pool.sessions, pool.ready, keys);
  }

  lemma KillOneOk(cfg: Config, pool: Pool, t: Tid, task: Task, s: Sid)
    requires TaskOk(pool.reg, pool.sessions, pool.ready, task) && PoolOk(cfg, pool)
    requires task.at.KillingAll?
    ensures StepOk(cfg, pool, KillOne(pool, task, s).pool, t, task, KillOne(pool, task, s).task)
  {
  }

  lemma TerminatedOk(cfg: Config, pool: Pool, t: Tid, task: Task, next: Label)
    requires TaskOk(pool.reg, pool.sessions, pool.ready, task) && PoolOk(cfg, pool)
    requires (task.at.KillingVictim? && next == Evicting && pool.regLock == Some(t)) ||
             (task.at.KillingDead? && next == WantRegistry)
    ensures StepOk(cfg, pool, Terminated(pool, task, next).pool, t, task, Terminated(pool, task, next).task)
  {
    QuietOk(cfg, pool, Terminated(pool, task, next).pool, t, task, Terminated(pool, task, next).task);
  }

  // ---------- Every run ----------

  /** The steps of `_get_or_create` around the spawning of a process. */
  lemma FindStepOk(cfg: Config, pool: Pool, t: Tid, task: Task, io: Io)
    requires TaskOk(pool.reg, pool.sessions, pool.ready, task) && PoolOk(cfg, pool) && !NeedsRoom(task)
    requires task.job.Rpc? && CreateStep(cfg, pool, t, task, io).Some? &&
             (HoldsRegistry(task.at) ==> pool.regLock == Some(t))
    ensures var move := CreateStep(cfg, pool, t, task, io).value; StepOk(cfg, pool, move.pool, t, task, move.task)
  {
    match task.at
    case WantRegistry => LookUpOk(cfg, pool, t, task);
    case KillingStale => DropStaleOk(cfg, pool, t, task);
    case Evicting =>
      if Full(cfg, pool) {
        EvictOneOk(cfg, pool, t, task, io.key);
      } else if Blank(SpecFingerprint(task.job.spec).command) {
        GiveUpOk(cfg, pool, t, task);
      } else {
        QuietOk(cfg, pool, pool, t, task, task.(at := Spawning));
      }
    case KillingVictim => TerminatedOk(cfg, pool, t, task, Evicting);
    case KillingDead => TerminatedOk(cfg, pool, t, task, WantRegistry);
  }

  /** The creation of the process, or its failure. */
  lemma BirthStepOk(cfg: Config, pool: Pool, t: Tid, task: Task, io: Io)
    requires TaskOk(pool.reg, pool.sessions, pool.ready, task) && PoolOk(cfg, pool) && task.at.Spawning?
    requires task.job.Rpc? && CreateStep(cfg, pool, t, task, io).Some?
    requires pool.regLock == Some(t) && |pool.reg| < Capacity(cfg)
    ensures var move := CreateStep(cfg, pool, t, task, io).value; StepOk(cfg, pool, move.pool, t, task, move.task)
  {
    if io.Created? {
      StartChildOk(cfg, pool, t, task, io.s, io.id);
    } else {
      GiveUpOk(cfg, pool, t, task);
    }
  }

  lemma HandshakeStepOk(cfg: Config, pool: Pool, t: Tid, task: Task, io: Io)
    requires TaskOk(pool.reg, pool.sessions, pool.ready, task) && PoolOk(cfg, pool) && task.at.Handshaking?
    requires task.job.Rpc? && CreateStep(cfg, pool, t, task, io).Some?
    requires pool.regLock == Some(t) && |pool.reg| < Capacity(cfg)
    ensures var move := CreateStep(cfg, pool, t, task, io).value; StepOk(cfg, pool, move.pool, t, task, move.task)
  {
    if io.Read? {
      ReadHandshakeOk(cfg, pool, t, task, task.child.value);
    } else {
      FailedSpawnOk(cfg, pool, t, task);
    }
  }

  lemma AnnounceStepOk(cfg: Config, pool: Pool, t: Tid, task: Task, io: Io)
    requires TaskOk(pool.reg, pool.sessions, pool.ready, task) && PoolOk(cfg, pool) && task.at.Announcing?
    requires task.job.Rpc? && CreateStep(cfg, pool, t, task, io).Some?
    requires pool.regLock == Some(t) && |pool.reg| < Capacity(cfg)
    ensures var move := CreateStep(cfg, pool, t, task, io).value; StepOk(cfg, pool, move.pool, t, task, move.task)
  {
    if io.Go? {
      RegisterOk(cfg, pool, t, task, task.child.value);
    } else {
      FailedSpawnOk(cfg, pool, t, task);
    }
  }

  /** The steps of `_spawn`, from the new process to its registration or failure. */
  lemma SpawnStepOk(cfg: Config, pool: Pool, t: Tid, task: Task, io: Io)
    requires TaskOk(pool.reg, pool.sessions, pool.ready, task) && PoolOk(cfg, pool) && NeedsRoom(task)
    requires task.job.Rpc? && CreateStep(cfg, pool, t, task, io).Some?
    requires pool.regLock == Some(t) && |pool.reg| < Capacity(cfg)
    ensures var move := CreateStep(cfg, pool, t, task, io).value; StepOk(cfg, pool, move.pool, t, task, move.task)
  {
    if task.at.Spawning? {
      BirthStepOk(cfg, pool, t, task, io);
    } else if task.at.Handshaking? {
      HandshakeStepOk(cfg, pool, t, task, io);
    } else if task.at.Announcing? {
      AnnounceStepOk(cfg, pool, t, task, io);
    } else {
      GiveUpOk(cfg, pool, t, task);
    }
  }

  lemma CreateStepOk(cfg: Config, st: State, t: Tid, io: Io)
    requires Inv(cfg, st) && t in st.tasks && st.tasks[t].job.Rpc? && CreateStep(cfg, st.pool, t, st.tasks[t], io).Some?
    ensures var move := CreateStep(cfg, st.pool, t, st.tasks[t], io).value;
            StepOk(cfg, st.pool, move.pool, t, st.tasks[t], move.task)
  {
    assert TaskOk(st.pool.reg, st.pool.sessions, st.pool.ready, st.tasks[t]);
    if NeedsRoom(st.tasks[t]) {
      SpawnStepOk(cfg, st.pool, t, st.tasks[t], io);
    } else {
      FindStepOk(cfg, st.pool, t, st.tasks[t], io);
    }
  }

  lemma UseStepOk(cfg: Config, st: State, t: Tid, s: Sid, io: Io)
    requires Inv(cfg, st) && t in st.tasks && st.tasks[t].job.Rpc? && st.tasks[t].session == Some(s)
    requires UseStep(st.pool, t, st.tasks[t], s, io).Some?
    ensures var move := UseStep(st.pool, t, st.tasks[t], s, io).value;
            StepOk(cfg, st.pool, move.pool, t, st.tasks[t], move.task)
  {
    var pool, task := st.pool, st.tasks[t];
    assert TaskOk(pool.reg, pool.sessions, pool.ready, task);
    match task.at
    case WantSession => CheckAliveOk(cfg, pool, t, task, s);
    case Discarding => DropDeadOk(cfg, pool, t, task, s);
    case WantPipes => UsePipesOk(cfg, pool, t, task, s, io.id);
    case Notifying => FinishOk(cfg, pool, t, task, if io.Go? then Sent else Failed);
    case Awaiting =>
      if io.Read? {
        ReadReplyOk(cfg, pool, t, task, s);
      } else {
        FinishOk(cfg, pool, t, task, Failed);
      }
  }

  lemma SweepStepOk(cfg: Config, st: State, t: Tid, io: Io)
    requires Inv(cfg, st) && t in st.tasks && !st.tasks[t].job.Rpc? && SweepStep(cfg, st.pool, st.tasks[t], io).Some?
    ensures var move := SweepStep(cfg, st.pool, st.tasks[t], io).value;
            StepOk(cfg, st.pool, move.pool, t, st.tasks[t], move.task)
  {
    var pool, task := st.pool, st.tasks[t];
    assert TaskOk(pool.reg, pool.sessions, pool.ready, task);
    match task.at
    case WantReap => CollectOk(cfg, pool, t, task, StaleKeys(cfg, pool, task.sampled));
    case WantShutdown => CollectOk(cfg, pool, t, task, pool.reg.Keys);
    case KillingAll =>
      if io.Kill? {
        KillOneOk(cfg, pool, t, task, io.s);
      } else {
        QuietOk(cfg, pool, pool, t, task, SweepStep(cfg, pool, task, io).value.task);
      }
  }

  lemma EffectKeeps(cfg: Config, st: State, action: Action)
    requires Inv(cfg, st) && Effect(cfg, st, action).Some?
    ensures Inv(cfg, Effect(cfg, st, action).value)
  {
    match action
    case Begin(t, job) => BeginKeeps(cfg, st, t, job);
    case Die(s) => DieKeeps(cfg, st, s);
    case Print(s, body) =>
    case Resume(t, io) =>
      var move := Step(cfg, st.pool, t, st.tasks[t], io).value;
      if !st.tasks[t].job.Rpc? {
        SweepStepOk(cfg, st, t, io);
      } else if st.tasks[t].session.Some? && UseStep(st.pool, t, st.tasks[t], st.tasks[t].session.value, io) ==
        Some(move) {
        UseStepOk(cfg, st, t, st.tasks[t].session.value, io);
      } else {
        CreateStepOk(cfg, st, t, io);
      }
      StepKeeps(cfg, st, move.pool, t, move.task);
  }

  lemma BeginOwned(reg: map<Key, Sid>, sessions: Sessions, tasks: map<Tid, Task>, alive: set<Sid>, t: Tid, task: Task)
    requires Owned(reg, sessions, tasks, alive) && t !in tasks
    ensures Owned(reg, sessions, tasks[t := task], alive)
  {
    forall s | s in alive ensures Accounted(reg, sessions, tasks[t := task], s) {
      assert Accounted(reg, sessions, tasks, s);
      if !Registered(reg, sessions, s) {
        var u :| InCharge(tasks, u, s);
        assert InCharge(tasks[t := task], u, s);
      }
    }
  }

  lemma BeginLocks(regLock: Option<Tid>, locks: map<Sid, Tid>, tasks: map<Tid, Task>, t: Tid, task: Task)
    requires Locks(regLock, locks, tasks) && t !in tasks && !HoldsRegistry(task.at) && task.held.None?
    ensures Locks(regLock, locks, tasks[t := task])
  {
  }

  lemma BeginKeeps(cfg: Config, st: State, t: Tid, job: Job)
    requires Inv(cfg, st) && t !in st.tasks
    ensures Inv(cfg, State(st.pool, st.tasks[t := FirstTask(job, st.pool.clock)]))
  {
    var pool, task := st.pool, FirstTask(job, st.pool.clock);
    BeginOwned(pool.reg, pool.sessions, st.tasks, pool.alive, t, task);
    BeginLocks(pool.regLock, pool.locks, st.tasks, t, task);
    assert TaskOk(pool.reg, pool.sessions, pool.ready, task);
  }

  lemma DieKeeps(cfg: Config, st: State, s: Sid)
    requires Inv(cfg, st)
    ensures Inv(cfg, st.(pool := st.pool.(alive := st.pool.alive - {s})))
  {
  }

  /** Every session has its stamp and its output. */
  ghost predicate Stocked(pool: Pool) {
    pool.sessions.Keys == pool.stdout.Keys == pool.lastUsed.Keys
  }

  /** The steps that write to a pipe, read from one, or open a session; all others only pass locks and end processes. */
  predicate Traces(task: Task, io: Io) {
    task.job.Rpc? && ((task.at.Spawning? && io.Created?) || (task.at.Announcing? && io.Go?) || task.at.WantPipes? ||
                      io.Read?)
  }

  lemma UntracedCreate(cfg: Config, pool: Pool, t: Tid, task: Task, io: Io)
    requires task.job.Rpc? && CreateStep(cfg, pool, t, task, io).Some? && !Traces(task, io)
    ensures SameHistory(pool, CreateStep(cfg, pool, t, task, io).value.pool)
  {
  }

  lemma UntracedUse(pool: Pool, t: Tid, task: Task, s: Sid, io: Io)
    requires task.job.Rpc? && UseStep(pool, t, task, s, io).Some? && !Traces(task, io)
    ensures SameHistory(pool, UseStep(pool, t, task, s, io).value.pool)
  {
  }

  lemma UntracedStep(cfg: Config, pool: Pool, t: Tid, task: Task, io: Io)
    requires Step(cfg, pool, t, task, io).Some? && !Traces(task, io)
    ensures SameHistory(pool, Step(cfg, pool, t, task, io).value.pool)
  {
    if task.job.Rpc? {
      if task.session.Some? && UseStep(pool, t, task, task.session.value, io).Some? {
        UntracedUse(pool, t, task, task.session.value, io);
      }
      if CreateStep(cfg, pool, t, task, io).Some? {
        UntracedCreate(cfg, pool, t, task, io);
      }
    }
  }

  lemma SpawningStep(cfg: Config, pool: Pool, t: Tid, task: Task, io: Io)
    requires task.job.Rpc? && task.at.Spawning? && io.Created? && Step(cfg, pool, t, task, io).Some?
    ensures io.s !in pool.sessions && io.id !in pool.seen
    ensures Step(cfg, pool, t, task, io).value == StartChild(pool, t, task, io.s, io.id)
  {
  }

  lemma AnnouncingStep(cfg: Config, pool: Pool, t: Tid, task: Task, io: Io)
    requires task.job.Rpc? && task.at.Announcing? && io.Go? && Step(cfg, pool, t, task, io).Some?
    ensures task.child.Some? && Step(cfg, pool, t, task, io).value == Register(pool, t, task, task.child.value)
  {
  }

  lemma WantPipesStep(cfg: Config, pool: Pool, t: Tid, task: Task, io: Io)
    requires task.job.Rpc? && task.at.WantPipes? && Step(cfg, pool, t, task, io).Some?
    ensures task.session.Some? && io.Fresh? && io.id !in pool.seen && task.session.value !in pool.locks
    ensures Step(cfg, pool, t, task, io).value == UsePipes(pool, t, task, task.session.value, io.id)
  {
  }

  /** The process a task reads from. */
  function Reading(task: Task): Option<Sid> {
    if task.at.Handshaking? then task.child else if task.at.Awaiting? then task.session else None
  }

  lemma ReadingStep(cfg: Config, pool: Pool, t: Tid, task: Task, io: Io)
    requires task.job.Rpc? && io.Read? && Step(cfg, pool, t, task, io).Some?
    ensures (task.at.Handshaking? || task.at.Awaiting?) && Reading(task).Some? && HasLine(pool, Reading(task).value)
    ensures var s := Reading(task).value;
            Step(cfg, pool, t, task, io).value ==
            if task.at.Handshaking? then ReadHandshake(pool, t, task, s) else ReadReply(pool, t, task, s)
  {
  }

  lemma StepStocked(cfg: Config, pool: Pool, t: Tid, task: Task, io: Io)
    requires Stocked(pool) && Step(cfg, pool, t, task, io).Some?
    requires task.session.Some? ==> task.session.value in pool.sessions
    ensures Stocked(Step(cfg, pool, t, task, io).value.pool)
  {
    if !Traces(task, io) {
      UntracedStep(cfg, pool, t, task, io);
    } else if io.Created? && task.at.Spawning? {
      SpawningStep(cfg, pool, t, task, io);
    } else if io.Go? && task.at.Announcing? {
      AnnouncingStep(cfg, pool, t, task, io);
    } else if io.Read? {
      ReadingStep(cfg, pool, t, task, io);
    } else {
      WantPipesStep(cfg, pool, t, task, io);
    }
  }

  lemma StockedKeeps(cfg: Config, st: State, action: Action)
    requires Inv(cfg, st) && Stocked(st.pool) && Effect(cfg, st, action).Some?
    ensures Stocked(Effect(cfg, st, action).value.pool)
  {
    if action.Resume? {
      assert TaskOk(st.pool.reg, st.pool.sessions, st.pool.ready, st.tasks[action.t]);
      StepStocked(cfg, st.pool, action.t, st.tasks[action.t], action.io);
    }
  }

  /** The invariant holds in every state that any schedule reaches. */
  lemma {:induction false} RunKeeps(cfg: Config, actions: seq<Action>)
    requires Run(cfg, actions).Some?
    ensures Inv(cfg, Run(cfg, actions).value) && Stocked(Run(cfg, actions).value.pool)
  {
    if actions != [] {
      var st := Run(cfg, actions[..|actions| - 1]).value;
      RunKeeps(cfg, actions[..|actions| - 1]);
      EffectKeeps(cfg, st, actions[|actions| - 1]);
      StockedKeeps(cfg, st, actions[|actions| - 1]);
    }
  }

  ghost predicate Reachable(cfg: Config, st: State) {
    exists actions :: Run(cfg, actions) == Some(st)
  }

  lemma ReachableInv(cfg: Config, st: State)
    requires Reachable(cfg, st)
    ensures Inv(cfg, st) && Stocked(st.pool)
  {
    var actions :| Run(cfg, actions) == Some(st);
    RunKeeps(cfg, actions);
  }
}
