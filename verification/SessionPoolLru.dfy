/** The timestamped registry behaves like a list of sessions ordered by their last use. */
module SessionPoolLru {
  import opened Options
  import opened SessionPool
  import opened SessionPoolSafety

  // ---------- The recency list ----------

  ghost predicate Sorted(order: seq<Sid>, stamps: map<Sid, nat>) {
    && (forall s :: s in order ==> s in stamps)
    && (forall i, j :: 0 <= i < j < |order| ==> stamps[order[i]] < stamps[order[j]])
  }

  ghost predicate Recency(order: seq<Sid>, stamps: map<Sid, nat>, clock: nat) {
    && Sorted(order, stamps)
    && (forall s :: s in stamps ==> s in order && stamps[s] < clock)
  }

  lemma {:induction false} WithoutMembers(order: seq<Sid>, s: Sid)
    ensures forall x :: x in Without(order, s) <==> x in order && x != s
  {
    if order != [] {
      WithoutMembers(order[1..], s);
      assert order == [order[0]] + order[1..];
    }
  }

  lemma {:induction false} WithoutSorted(order: seq<Sid>, s: Sid, stamps: map<Sid, nat>)
    requires Sorted(order, stamps)
    ensures Sorted(Without(order, s), stamps)
  {
    if order != [] {
      assert Sorted(order[1..], stamps);
      WithoutSorted(order[1..], s, stamps);
      WithoutMembers(order[1..], s);
      var rest := Without(order[1..], s);
      if order[0] != s {
        forall i, j | 0 <= i < j < |rest| + 1 ensures stamps[([order[0]] + rest)[i]] < stamps[([order[0]] + rest)[j]] {
          if i == 0 {
            assert rest[j - 1] in order[1..];
          }
        }
      }
    }
  }

  lemma UseKeepsRecency(order: seq<Sid>, stamps: map<Sid, nat>, clock: nat, s: Sid)
    requires Recency(order, stamps, clock) && s in stamps
    ensures Recency(Without(order, s) + [s], stamps[s := clock], clock + 1)
  {
    WithoutMembers(order, s);
    WithoutSorted(order, s, stamps);
    var rest := Without(order, s);
    forall i | 0 <= i < |rest| ensures rest[i] != s && rest[i] in stamps {
      assert rest[i] in rest;
    }
  }

  lemma SpawnKeepsRecency(order: seq<Sid>, stamps: map<Sid, nat>, clock: nat, s: Sid)
    requires Recency(order, stamps, clock) && s !in stamps
    ensures Recency(order + [s], stamps[s := clock], clock + 1)
  {
    forall i | 0 <= i < |order| ensures order[i] in stamps && order[i] != s {
      assert order[i] in order;
    }
  }

  ghost predicate RecencyAfter(cfg: Config, pool: Pool, t: Tid, task: Task, io: Io)
    requires Step(cfg, pool, t, task, io).Some?
  {
    var after := Step(cfg, pool, t, task, io).value.pool;
    Recency(after.order, after.lastUsed, pool.clock + 1)
  }

  lemma SpawningRecency(cfg: Config, pool: Pool, t: Tid, task: Task, io: Io)
    requires Recency(pool.order, pool.lastUsed, pool.clock) && Stocked(pool)
    requires task.job.Rpc? && task.at.Spawning? && io.Created? && Step(cfg, pool, t, task, io).Some?
    ensures RecencyAfter(cfg, pool, t, task, io)
  {
    SpawningStep(cfg, pool, t, task, io);
    SpawnKeepsRecency(pool.order, pool.lastUsed, pool.clock, io.s);
  }

  lemma PipesRecency(cfg: Config, pool: Pool, t: Tid, task: Task, io: Io)
    requires Recency(pool.order, pool.lastUsed, pool.clock) && Stocked(pool)
    requires task.job.Rpc? && task.at.WantPipes? && Step(cfg, pool, t, task, io).Some?
    requires task.session.Some? ==> task.session.value in pool.sessions
    ensures RecencyAfter(cfg, pool, t, task, io)
  {
    WantPipesStep(cfg, pool, t, task, io);
    UseKeepsRecency(pool.order, pool.lastUsed, pool.clock, task.session.value);
  }

  /** Every other step leaves stamps and list alone. */
  lemma OtherRecency(cfg: Config, pool: Pool, t: Tid, task: Task, io: Io)
    requires Step(cfg, pool, t, task, io).Some?
    requires task.job.Rpc? ==> !(task.at.Spawning? && io.Created?) && !task.at.WantPipes?
    ensures var after := Step(cfg, pool, t, task, io).value.pool;
            after.order == pool.order && after.lastUsed == pool.lastUsed
  {
    if !Traces(task, io) {
      UntracedStep(cfg, pool, t, task, io);
    } else if io.Read? {
      ReadingStep(cfg, pool, t, task, io);
    } else {
      AnnouncingStep(cfg, pool, t, task, io);
    }
  }

  lemma StepKeepsRecency(cfg: Config, pool: Pool, t: Tid, task: Task, io: Io)
    requires Recency(pool.order, pool.lastUsed, pool.clock) && Stocked(pool) && Step(cfg, pool, t, task, io).Some?
    requires task.session.Some? ==> task.session.value in pool.sessions
    ensures RecencyAfter(cfg, pool, t, task, io)
  {
    if task.job.Rpc? && task.at.Spawning? && io.Created? {
      SpawningRecency(cfg, pool, t, task, io);
    } else if task.job.Rpc? && task.at.WantPipes? {
      PipesRecency(cfg, pool, t, task, io);
    } else {
      OtherRecency(cfg, pool, t, task, io);
    }
  }

  lemma NextKeepsRecency(cfg: Config, st: State, action: Action)
    requires Inv(cfg, st) && Stocked(st.pool) && Recency(st.pool.order, st.pool.lastUsed, st.pool.clock)
    requires Next(cfg, st, action).Some?
    ensures var pool := Next(cfg, st, action).value.pool; Recency(pool.order, pool.lastUsed, pool.clock)
  {
    if action.Resume? {
      assert TaskOk(st.pool.reg, st.pool.sessions, st.pool.ready, st.tasks[action.t]);
      StepKeepsRecency(cfg, st.pool, action.t, st.tasks[action.t], action.io);
    }
  }

  lemma {:induction false} RunKeepsRecency(cfg: Config, actions: seq<Action>)
    requires Run(cfg, actions).Some?
    ensures var pool := Run(cfg, actions).value.pool; Recency(pool.order, pool.lastUsed, pool.clock)
  {
    if actions != [] {
      RunKeepsRecency(cfg, actions[..|actions| - 1]);
      RunKeeps(cfg, actions[..|actions| - 1]);
      NextKeepsRecency(cfg, Run(cfg, actions[..|actions| - 1]).value, actions[|actions| - 1]);
    }
  }

  lemma ReachableRecency(cfg: Config, st: State)
    requires Reachable(cfg, st)
    ensures Recency(st.pool.order, st.pool.lastUsed, st.pool.clock)
  {
    var actions :| Run(cfg, actions) == Some(st);
    RunKeepsRecency(cfg, actions);
  }

  // ---------- What eviction and reaping remove ----------

  /** The registered session that was not used for the longest time. */
  function Oldest(order: seq<Sid>, registered: set<Sid>): Option<Sid> {
    if order == [] then None
    else if order[0] in registered then Some(order[0])
    else Oldest(order[1..], registered)
  }

  lemma {:induction false} OldestIsLeast(order: seq<Sid>, registered: set<Sid>, stamps: map<Sid, nat>)
    requires Sorted(order, stamps)
    ensures Oldest(order, registered).None? ==> forall s :: s in order ==> s !in registered
    ensures Oldest(order, registered).Some? ==>
              var oldest := Oldest(order, registered).value;
              oldest in order && oldest in registered
              && forall s :: s in order && s in registered && s != oldest ==> stamps[oldest] < stamps[s]
  {
    if order != [] {
      OldestIsLeast(order[1..], registered, stamps);
      forall s | s in order && s != order[0] ensures s in order[1..] && stamps[order[0]] < stamps[s] {
        var i :| 0 <= i < |order| && order[i] == s;
        assert order[1..][i - 1] == s;
      }
    }
  }

  lemma LeastIsOldest(reg: map<Key, Sid>, stamps: map<Sid, nat>, order: seq<Sid>, key: Key)
    requires Sorted(order, stamps) && (forall s :: s in stamps ==> s in order)
    requires key in reg && forall k :: k in reg ==> reg[k] in stamps
    ensures LeastRecent(reg, stamps, key) <==> Oldest(order, reg.Values) == Some(reg[key])
  {
    OldestIsLeast(order, reg.Values, stamps);
    assert reg[key] in order && reg[key] in reg.Values;
    var oldest := Oldest(order, reg.Values).value;
    var k :| k in reg && reg[k] == oldest;
  }

  /** Picking the smallest stamp is picking the head of the recency list, and there is only one choice. */
  lemma VictimIsOldest(cfg: Config, st: State, key: Key)
    requires Reachable(cfg, st) && key in st.pool.reg
    ensures LeastRecent(st.pool.reg, st.pool.lastUsed, key) <==>
            Oldest(st.pool.order, st.pool.reg.Values) == Some(st.pool.reg[key])
  {
    ReachableInv(cfg, st);
    ReachableRecency(cfg, st);
    LeastIsOldest(st.pool.reg, st.pool.lastUsed, st.pool.order, key);
  }

  /** Outside an eviction a call removes at most its own key. */
  lemma CreateKeepsOthers(cfg: Config, pool: Pool, t: Tid, task: Task, io: Io)
    requires task.job.Rpc? && !(task.at.Evicting? && Full(cfg, pool)) && CreateStep(cfg, pool, t, task, io).Some?
    ensures pool.reg.Keys <= CreateStep(cfg, pool, t, task, io).value.pool.reg.Keys + {task.job.key}
  {
  }

  lemma UseKeepsOthers(pool: Pool, t: Tid, task: Task, s: Sid, io: Io)
    requires task.job.Rpc? && UseStep(pool, t, task, s, io).Some?
    ensures pool.reg.Keys <= UseStep(pool, t, task, s, io).value.pool.reg.Keys + {task.job.key}
  {
  }

  /** A call removes another key's session only when the pool is full, and then the least recently used one. */
  lemma EvictsOldestWhenFull(cfg: Config, st: State, t: Tid, io: Io, key: Key)
    requires Reachable(cfg, st) && t in st.tasks && st.tasks[t].job.Rpc? && Step(cfg, st.pool, t, st.tasks[t], io).Some?
    requires key in st.pool.reg && key !in Step(cfg, st.pool, t, st.tasks[t], io).value.pool.reg
             && key != st.tasks[t].job.key
    ensures |st.pool.reg| >= cfg.maxSessions
    ensures Oldest(st.pool.order, st.pool.reg.Values) == Some(st.pool.reg[key])
    ensures Step(cfg, st.pool, t, st.tasks[t], io).value.pool.reg == st.pool.reg - {key}
  {
    var pool, task := st.pool, st.tasks[t];
    if task.at.Evicting? && Full(cfg, pool) {
      VictimIsOldest(cfg, st, io.key);
    } else {
      if CreateStep(cfg, pool, t, task, io).Some? {
        CreateKeepsOthers(cfg, pool, t, task, io);
      }
      if task.session.Some? && UseStep(pool, t, task, task.session.value, io).Some? {
        UseKeepsOthers(pool, t, task, task.session.value, io);
      }
    }
  }

  /**
    A reap removes exactly the sessions that are dead or were idle longer than the time to live at the moment it
    sampled the clock, and of the living ones it takes the oldest: whoever was used before a victim goes too.
   */
  lemma ReapIsExact(cfg: Config, st: State, t: Tid, io: Io)
    requires Reachable(cfg, st) && t in st.tasks && st.tasks[t].at.WantReap? &&
             Step(cfg, st.pool, t, st.tasks[t], io).Some?
    ensures var pool, task, move := st.pool, st.tasks[t], Step(cfg, st.pool, t, st.tasks[t], io).value;
            && (forall k :: k in move.pool.reg <==>
                  k in pool.reg && pool.reg[k] in pool.alive && pool.reg[k] in pool.lastUsed
                  && task.sampled <= pool.lastUsed[pool.reg[k]] + cfg.ttl)
            && (forall k :: k in move.pool.reg ==> move.pool.reg[k] == pool.reg[k])
            && (forall s :: s in move.task.doomed <==>
                  exists k :: k in pool.reg && k !in move.pool.reg && pool.reg[k] == s)
            && (forall i, j :: 0 <= i < j < |pool.order| && pool.order[i] in pool.reg.Values ==>
                  pool.order[j] in pool.alive && pool.order[j] in move.task.doomed ==>
                    pool.order[i] in move.task.doomed)
  {
    var pool, task, move := st.pool, st.tasks[t], Step(cfg, st.pool, t, st.tasks[t], io).value;
    ReachableInv(cfg, st);
    ReachableRecency(cfg, st);
    assert TaskOk(pool.reg, pool.sessions, pool.ready, task);
    forall i, j | 0 <= i < j < |pool.order| && pool.order[i] in pool.reg.Values && pool.order[j] in pool.alive
                  && pool.order[j] in move.task.doomed
      ensures pool.order[i] in move.task.doomed
    {
      var k :| k in pool.reg && pool.reg[k] == pool.order[i];
      assert pool.lastUsed[pool.order[i]] < pool.lastUsed[pool.order[j]];
      assert k in StaleKeys(cfg, pool, task.sampled);
    }
  }
}
