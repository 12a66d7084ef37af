/** Nothing that terminates a registered process asks whether a request is using it. */
module SessionPoolEvictions {
  import opened Options
  import opened SessionPool
  import opened Strings
  import opened SessionPoolSafety
  import opened SessionPoolTheorems
  import opened SessionPoolLru
  import opened SessionPoolCalls

  /** A call that makes room terminates exactly the session that was not used for the longest time. */
  lemma EvictedExactly(cfg: Config, st: State, t: Tid, key: Key)
    requires Reachable(cfg, st) && t in st.tasks && st.tasks[t].job.Rpc? && st.tasks[t].at.Evicting? &&
             Full(cfg, st.pool)
    requires key in st.pool.reg
    ensures Oldest(st.pool.order, st.pool.reg.Values) == Some(st.pool.reg[key]) <==>
            Step(cfg, st.pool, t, st.tasks[t], Victim(key)) == Some(EvictOne(st.pool, st.tasks[t], key))
    ensures Oldest(st.pool.order, st.pool.reg.Values) != Some(st.pool.reg[key]) ==>
              Step(cfg, st.pool, t, st.tasks[t], Victim(key)).None?
  {
    VictimIsOldest(cfg, st, key);
  }

  /**
    A process that a request is using is terminated by an eviction if and only if it is the one used longest ago: the
    request goes on waiting for it.
   */
  lemma UsedIsEvicted(cfg: Config, st: State, u: Tid, s: Sid, t: Tid, key: Key)
    requires Reachable(cfg, st) && Awaits(st, u, s) && key in st.pool.reg && st.pool.reg[key] == s
    requires t in st.tasks && st.tasks[t].job.Rpc? && st.tasks[t].at.Evicting? && Full(cfg, st.pool)
    ensures var after := Onward(cfg, st, [Resume(t, Victim(key)), Resume(t, Go)]);
            && (after.Some? <==> Oldest(st.pool.order, st.pool.reg.Values) == Some(s))
            && (after.Some? ==>
                  Reachable(cfg, after.value) && Awaits(after.value, u, s) && s !in after.value.pool.alive)
  {
    EvictedExactly(cfg, st, t, key);
    TwoSteps(cfg, st, Resume(t, Victim(key)), Resume(t, Go));
    if Onward(cfg, st, [Resume(t, Victim(key)), Resume(t, Go)]).Some? {
      ReachableOnward(cfg, st, [Resume(t, Victim(key)), Resume(t, Go)]);
    }
  }

  /** A reap terminates what it collected, one process after the other. */
  lemma ReapSteps(cfg: Config, st: State, t: Tid, s: Sid)
    requires t in st.tasks && !st.tasks[t].job.Rpc? && st.tasks[t].at.WantReap? && st.pool.regLock.None?
    ensures var collected := Collect(st.pool, st.tasks[t], StaleKeys(cfg, st.pool, st.tasks[t].sampled));
            var after := Onward(cfg, st, [Resume(t, Go), Resume(t, Kill(s))]);
            && (after.Some? <==> s in collected.task.doomed)
            && (after.Some? ==> s !in after.value.pool.alive && forall u :: u in st.tasks && u != t ==>
                  u in after.value.tasks && after.value.tasks[u] == st.tasks[u])
  {
    TwoSteps(cfg, st, Resume(t, Go), Resume(t, Kill(s)));
    var first := Next(cfg, st, Resume(t, Go));
    assert first.Some? && first.value.tasks[t] == Collect(st.pool, st.tasks[t],
                                                          StaleKeys(cfg, st.pool, st.tasks[t].sampled)).task;
  }

  lemma CollectsExactly(cfg: Config, pool: Pool, task: Task, key: Key)
    requires key in pool.reg && forall k :: k in pool.reg && pool.reg[k] == pool.reg[key] ==> k == key
    ensures pool.reg[key] in Collect(pool, task, StaleKeys(cfg, pool, task.sampled)).task.doomed <==>
            Stale(cfg, pool, pool.reg[key], task.sampled)
  {
  }

  /** And by a reap if and only if it is dead already or its last use is longer ago than the time to live. */
  lemma UsedIsReaped(cfg: Config, st: State, u: Tid, s: Sid, t: Tid, key: Key)
    requires Reachable(cfg, st) && Awaits(st, u, s) && key in st.pool.reg && st.pool.reg[key] == s
    requires t in st.tasks && st.tasks[t].at.WantReap? && st.pool.regLock.None?
    ensures var after := Onward(cfg, st, [Resume(t, Go), Resume(t, Kill(s))]);
            && s in st.pool.lastUsed
            && (after.Some? <==> s !in st.pool.alive || st.tasks[t].sampled - st.pool.lastUsed[s] > cfg.ttl)
            && (after.Some? ==>
                  Reachable(cfg, after.value) && Awaits(after.value, u, s) && s !in after.value.pool.alive)
  {
    ReachableInv(cfg, st);
    assert TaskOk(st.pool.reg, st.pool.sessions, st.pool.ready, st.tasks[t]);
    ReapSteps(cfg, st, t, s);
    CollectsExactly(cfg, st.pool, st.tasks[t], key);
    if Onward(cfg, st, [Resume(t, Go), Resume(t, Kill(s))]).Some? {
      ReachableOnward(cfg, st, [Resume(t, Go), Resume(t, Kill(s))]);
    }
  }

  /**
    A call of the same key that finds the registry lock free terminates a process in use if and only if that is dead or
    was spawned from another spec.
   */
  lemma UsedIsReplaced(cfg: Config, st: State, u: Tid, s: Sid, t: Tid)
    requires Reachable(cfg, st) && Awaits(st, u, s) && t in st.tasks && st.tasks[t].job.Rpc?
    requires st.tasks[t].at.WantRegistry? && st.pool.regLock.None?
    requires st.tasks[t].job.key in st.pool.reg && st.pool.reg[st.tasks[t].job.key] == s
    ensures s in st.pool.sessions && Next(cfg, st, Resume(t, Go)).Some?
    ensures var after := Onward(cfg, st, [Resume(t, Go), Resume(t, Go)]);
            var replaced := SpecFingerprint(st.pool.sessions[s].spec) != SpecFingerprint(st.tasks[t].job.spec);
            && (s in Next(cfg, st, Resume(t, Go)).value.tasks[t].doomed <==> s !in st.pool.alive || replaced)
            && (s !in st.pool.alive || replaced ==>
                  after.Some? && Reachable(cfg, after.value) && Awaits(after.value, u, s) &&
                    s !in after.value.pool.alive)
  {
    ReachableInv(cfg, st);
    assert TaskOk(st.pool.reg, st.pool.sessions, st.pool.ready, st.tasks[t]);
    LookUpDooms(cfg, st, t);
    if !Current(st.pool, st.tasks[t].job) {
      ReplaceSteps(cfg, st, t);
      ReachableOnward(cfg, st, [Resume(t, Go), Resume(t, Go)]);
    }
  }

  lemma LookUpDooms(cfg: Config, st: State, t: Tid)
    requires t in st.tasks && st.tasks[t].job.Rpc? && st.tasks[t].at.WantRegistry? && st.pool.regLock.None?
    requires st.tasks[t].job.key in st.pool.reg
    ensures Next(cfg, st, Resume(t, Go)).Some?
    ensures st.pool.reg[st.tasks[t].job.key] in Next(cfg, st, Resume(t, Go)).value.tasks[t].doomed <==>
            !Current(st.pool, st.tasks[t].job)
  {
    assert Step(cfg, st.pool, t, st.tasks[t], Go) == Some(LookUp(st.pool, t, st.tasks[t]));
  }

  /** The outdated session of the call's own key is terminated under the registry lock. */
  lemma ReplaceSteps(cfg: Config, st: State, t: Tid)
    requires t in st.tasks && st.tasks[t].job.Rpc? && st.tasks[t].at.WantRegistry? && st.pool.regLock.None?
    requires st.tasks[t].job.key in st.pool.reg && !Current(st.pool, st.tasks[t].job)
    ensures var after := Onward(cfg, st, [Resume(t, Go), Resume(t, Go)]);
            && after.Some? && st.pool.reg[st.tasks[t].job.key] !in after.value.pool.alive
            && forall u :: u in st.tasks && u != t ==> u in after.value.tasks && after.value.tasks[u] == st.tasks[u]
  {
    TwoSteps(cfg, st, Resume(t, Go), Resume(t, Go));
    var first := LookUp(st.pool, t, st.tasks[t]);
    assert Step(cfg, st.pool, t, st.tasks[t], Go) == Some(first);
    var pool := first.pool.(clock := st.pool.clock + 1);
    assert Step(cfg, pool, t, first.task, Go) == Some(DropStale(pool, first.task));
  }

  /** A shutdown terminates every registered process, whoever uses it. */
  lemma UsedIsShutDown(cfg: Config, st: State, u: Tid, s: Sid, t: Tid, key: Key)
    requires Reachable(cfg, st) && Awaits(st, u, s) && key in st.pool.reg && st.pool.reg[key] == s
    requires t in st.tasks && st.tasks[t].at.WantShutdown? && st.pool.regLock.None?
    ensures var after := Onward(cfg, st, [Resume(t, Go), Resume(t, Kill(s))]);
            after.Some? && Reachable(cfg, after.value) && Awaits(after.value, u, s) && s !in after.value.pool.alive
  {
    ReachableInv(cfg, st);
    assert TaskOk(st.pool.reg, st.pool.sessions, st.pool.ready, st.tasks[t]);
    var first := Collect(st.pool, st.tasks[t], st.pool.reg.Keys);
    assert Step(cfg, st.pool, t, st.tasks[t], Go) == Some(first);
    assert s in first.task.doomed;
    var pool := first.pool.(clock := st.pool.clock + 1);
    assert Step(cfg, pool, t, first.task, Kill(s)) == Some(KillOne(pool, first.task, s));
    TwoSteps(cfg, st, Resume(t, Go), Resume(t, Kill(s)));
    ReachableOnward(cfg, st, [Resume(t, Go), Resume(t, Kill(s))]);
  }

  // ---------- Such a run ----------

  const SPEC := SpawnSpec(Some("mcp"), None, None)

  /** The actions lead from the empty pool to the state, and no process dies of its own accord. */
  ghost predicate Leads(cfg: Config, actions: seq<Action>, st: State) {
    Onward(cfg, State(EMPTY_POOL, map[]), actions) == Some(st) && forall i :: 0 <= i < |actions| ==> !actions[i].Die?
  }

  lemma Extend(cfg: Config, actions: seq<Action>, st: State, action: Action) returns (longer: seq<Action>, after: State)
    requires Leads(cfg, actions, st) && !action.Die? && Next(cfg, st, action).Some?
    ensures longer == actions + [action] && after == Next(cfg, st, action).value && Leads(cfg, longer, after)
  {
    OneMore(cfg, State(EMPTY_POOL, map[]), actions, action);
    longer, after := actions + [action], Next(cfg, st, action).value;
  }

  lemma LeadsReachable(cfg: Config, actions: seq<Action>, st: State)
    requires Leads(cfg, actions, st)
    ensures Reachable(cfg, st)
  {
    assert Run(cfg, []) == Some(State(EMPTY_POOL, map[]));
    ReachableOnward(cfg, State(EMPTY_POOL, map[]), actions);
  }

  /** Call 0 has its process, the only one, and waits for the reply to its request. */
  predicate Serving(st: State) {
    && Awaits(st, 0, 0) && st.tasks.Keys == {0} && st.pool.reg == map["a" := 0] && st.pool.regLock.None?
    && 0 in st.pool.lastUsed
  }

  /** Up to the await in which call 0 waits for the reply to its request. */
  lemma CallIsServed(cfg: Config) returns (actions: seq<Action>, st: State)
    ensures Leads(cfg, actions, st) && Serving(st)
  {
    var job := Rpc("a", SPEC, Request);
    assert SpecFingerprint(SPEC).command[0] == 'm' && !Blank(SpecFingerprint(SPEC).command);
    ProcessIsOpened(cfg, State(EMPTY_POOL, map[]), 0, job, 0, 1, "");
    actions, st := OpenedIsServed(cfg, Opening(0, job, 0, 1, ""), Asking(0, 2), job);
  }

  lemma OpenedIsServed(cfg: Config, open: seq<Action>, asking: seq<Action>, job: Job)
    returns (actions: seq<Action>, st: State)
    requires job == Rpc("a", SPEC, Request) && asking == Asking(0, 2)
    requires forall i :: 0 <= i < |open| ==> !open[i].Die?
    requires var ready := Onward(cfg, State(EMPTY_POOL, map[]), open);
             && ready.Some? && 0 in ready.value.tasks && ready.value.tasks == map[0 := ready.value.tasks[0]]
             && OpenFor(EMPTY_POOL, Move(ready.value.pool, ready.value.tasks[0]), job, 0, 1)
    ensures Leads(cfg, actions, st) && Serving(st)
  {
    var ready := Onward(cfg, State(EMPTY_POOL, map[]), open).value;
    Asks(cfg, ready, 0, 0, 2);
    OnwardSum(cfg, State(EMPTY_POOL, map[]), open, asking);
    actions, st := open + asking, Onward(cfg, ready, asking).value;
  }

  /** With room for one session, a second call for another key. */
  lemma OtherCallBegins(cfg: Config, st: State)
    requires Serving(st)
    ensures var begin := Begin(1, Rpc("b", SPEC, Request));
            Next(cfg, st, begin).Some?
            && Next(cfg, st, begin).value ==
               State(st.pool.(clock := st.pool.clock + 1), st.tasks[1 := FirstTask(begin.job, st.pool.clock)])
  {
  }

  /** The pool is full of the session in use, and another call is about to make room. */
  predicate Crowded(st: State) {
    && Awaits(st, 0, 0) && st.pool.reg == map["a" := 0] && 0 in st.pool.lastUsed
    && 1 in st.tasks && st.tasks[1].job.Rpc? && st.tasks[1].at.Evicting?
  }

  lemma OtherCallLooksUp(cfg: Config, st: State)
    requires Awaits(st, 0, 0) && st.pool.reg == map["a" := 0] && 0 in st.pool.lastUsed && st.pool.regLock.None?
    requires 1 in st.tasks && st.tasks[1].job == Rpc("b", SPEC, Request) && st.tasks[1].at.WantRegistry?
    ensures Next(cfg, st, Resume(1, Go)).Some? && Crowded(Next(cfg, st, Resume(1, Go)).value)
  {
  }

  lemma CrowdedIsEvicted(cfg: Config, st: State)
    requires cfg.maxSessions == 1 && Reachable(cfg, st) && Crowded(st)
    ensures var first := Next(cfg, st, Resume(1, Victim("a")));
            && first.Some? && Next(cfg, first.value, Resume(1, Go)).Some?
            && Awaits(Next(cfg, first.value, Resume(1, Go)).value, 0, 0)
            && 0 !in Next(cfg, first.value, Resume(1, Go)).value.pool.alive
  {
    assert |st.pool.reg| == 1;
    assert LeastRecent(st.pool.reg, st.pool.lastUsed, "a");
    VictimIsOldest(cfg, st, "a");
    UsedIsEvicted(cfg, st, 0, 0, 1, "a");
    TwoSteps(cfg, st, Resume(1, Victim("a")), Resume(1, Go));
  }

  /** A run in which an eviction terminates the process that call 0 is waiting for. */
  lemma EvictedInUse(ttl: nat) returns (actions: seq<Action>, st: State)
    ensures Leads(Config(1, ttl), actions, st) && Awaits(st, 0, 0) && 0 !in st.pool.alive
  {
    var cfg := Config(1, ttl);
    actions, st := CallIsServed(cfg);
    OtherCallBegins(cfg, st);
    actions, st := Extend(cfg, actions, st, Begin(1, Rpc("b", SPEC, Request)));
    OtherCallLooksUp(cfg, st);
    actions, st := Extend(cfg, actions, st, Resume(1, Go));
    LeadsReachable(cfg, actions, st);
    CrowdedIsEvicted(cfg, st);
    actions, st := Extend(cfg, actions, st, Resume(1, Victim("a")));
    actions, st := Extend(cfg, actions, st, Resume(1, Go));
  }
}
