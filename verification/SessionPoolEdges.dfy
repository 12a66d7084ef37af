/** The calls that find no process to use, make room, fail, or sweep the pool. */
module SessionPoolEdges {
  import opened Options
  import opened Strings
  import opened SessionPool
  import opened SessionPoolSafety
  import opened SessionPoolTheorems
  import opened SessionPoolCalls

  // ---------- When there is no process to use ----------

  /**
    What the look at the registry finds: the living process of the same key and spec is used, and the lock of a dead one
    before it is given back; else the call keeps the registry to itself until it has a process.
   */
  lemma LookUpExactly(cfg: Config, st: State, t: Tid)
    requires t in st.tasks && st.tasks[t].job.Rpc? && st.tasks[t].at.WantRegistry? && st.pool.regLock.None?
    ensures Next(cfg, st, Resume(t, Go)).Some?
    ensures var (pool, task, after) := (st.pool, st.tasks[t], Next(cfg, st, Resume(t, Go)).value);
            var key := task.job.key;
            if key in pool.reg && pool.reg[key] in pool.alive && pool.reg[key] in pool.sessions &&
               SpecFingerprint(pool.sessions[pool.reg[key]].spec) == SpecFingerprint(task.job.spec)
            then
              && after.tasks == st.tasks[t := task.(at := if task.held.Some? then WantPipes else WantSession,
                                                    held := None, session := Some(pool.reg[key]), child := None,
                                                    doomed := {})]
              && after.pool == pool.(locks := if task.held.Some? then pool.locks - {task.held.value} else pool.locks,
                                     clock := pool.clock + 1)
            else
              && after.tasks == st.tasks[t := if key in pool.reg
                                              then task.(at := KillingStale, doomed := {pool.reg[key]})
                                              else task.(at := Evicting)]
              && after.pool == pool.(regLock := Some(t), clock := pool.clock + 1)
  {
  }

  /** A dead process is discarded: it leaves its key, unless another one was registered there, and the call looks
      again. */
  lemma DeadIsDiscarded(cfg: Config, st: State, t: Tid, s: Sid)
    requires t in st.tasks && st.tasks[t].job.Rpc? && st.tasks[t].at.WantSession? && st.tasks[t].session == Some(s)
    requires s !in st.pool.alive && s !in st.pool.locks && st.pool.regLock.None?
    ensures var after := Onward(cfg, st, [Resume(t, Go), Resume(t, Go)] + [Resume(t, Go)]);
            && after.Some?
            && after.value.tasks == st.tasks[t := st.tasks[t].(at := WantRegistry, held := Some(s), doomed := {})]
            && after.value.pool.locks == st.pool.locks[s := t] && after.value.pool.regLock.None?
            && after.value.pool.alive == st.pool.alive
            && forall key :: key in after.value.pool.reg <==>
                 key in st.pool.reg && !(key == st.tasks[t].job.key && st.pool.reg[key] == s)
  {
    var m := Move(st.pool, st.tasks[t]);
    assert Place(st.tasks, t, m) == st;
    PlaceNext(cfg, st.tasks, t, m, Go);
    var locked := Move(st.pool.(locks := st.pool.locks[s := t], clock := st.pool.clock + 1),
                       st.tasks[t].(at := Discarding, held := Some(s)));
    assert Go1(cfg, m, t, Go) == Some(locked);
    PlaceNext(cfg, st.tasks, t, locked, Go);
    TwoSteps(cfg, st, Resume(t, Go), Resume(t, Go));
    var dropped := Go1(cfg, locked, t, Go).value;
    OneMore(cfg, st, [Resume(t, Go), Resume(t, Go)], Resume(t, Go));
    PlaceNext(cfg, st.tasks, t, dropped, Go);
  }

  lemma Dies(cfg: Config, st: State, s: Sid)
    ensures Onward(cfg, st, [Die(s)]) ==
            Some(State(st.pool.(alive := st.pool.alive - {s}, clock := st.pool.clock + 1), st.tasks))
  {
    assert [Die(s)][1..] == [];
    assert Onward(cfg, Next(cfg, st, Die(s)).value, []) == Next(cfg, st, Die(s));
  }

  /** A process that dies after a call has found it is noticed before the call uses it. */
  lemma DeathIsNoticed(cfg: Config, st: State, t: Tid, s: Sid)
    requires t in st.tasks && st.tasks[t].job.Rpc? && st.tasks[t].at.WantSession? && st.tasks[t].session == Some(s)
    requires s !in st.pool.locks && st.pool.regLock.None?
    ensures var after := Onward(cfg, st, [Die(s)] + ([Resume(t, Go), Resume(t, Go)] + [Resume(t, Go)]));
            && after.Some?
            && after.value.tasks == st.tasks[t := st.tasks[t].(at := WantRegistry, held := Some(s), doomed := {})]
            && after.value.pool.alive == st.pool.alive - {s} && after.value.pool.locks == st.pool.locks[s := t]
            && forall key :: key in after.value.pool.reg <==>
                 key in st.pool.reg && !(key == st.tasks[t].job.key && st.pool.reg[key] == s)
  {
    Dies(cfg, st, s);
    OnwardSum(cfg, st, [Die(s)], [Resume(t, Go), Resume(t, Go)] + [Resume(t, Go)]);
    DeadIsDiscarded(cfg, Onward(cfg, st, [Die(s)]).value, t, s);
  }

  /** The call waits for its new process to answer the handshake. */
  predicate ShakesHands(st: State, t: Tid, s: Sid) {
    t in st.tasks && st.tasks[t].job.Rpc? && st.tasks[t].at.Handshaking? && st.tasks[t].child == Some(s)
  }

  lemma SkipsAtHandshake(cfg: Config, st: State, t: Tid, s: Sid)
    requires ShakesHands(st, t, s) && s in st.pool.stdout && st.pool.stdout[s] != []
    requires var body := st.pool.stdout[s][0].body; body.Message? ==> body.id != st.tasks[t].req.id
    ensures Next(cfg, st, Resume(t, Read)) ==
            Some(st.(pool := st.pool.(stdout := st.pool.stdout[s := st.pool.stdout[s][1..]],
                                      clock := st.pool.clock + 1)))
  {
    assert st.tasks[t := st.tasks[t]] == st.tasks;
  }

  /** The call has heard the answer to its handshake. */
  predicate Heard(st: State, after: State, t: Tid, s: Sid, n: nat, reply: Reply)
    requires t in st.tasks && s in st.pool.stdout && n < |st.pool.stdout[s]|
  {
    && after.tasks == st.tasks[t := st.tasks[t].(at := if reply.ResultReply? then Announcing else KillingFailed)]
    && after.pool.locks == st.pool.locks && after.pool.stdout == st.pool.stdout[s := st.pool.stdout[s][n + 1..]]
    && after.pool.log == st.pool.log + [Delivered(t, s, st.tasks[t].req, st.pool.stdout[s][n])] +
                         (if reply.ResultReply? then [Wrote(t, s, true, None)] else [])
    && OnlyRead(st.pool, after.pool)
  }

  lemma TakesHandshake(cfg: Config, st: State, t: Tid, s: Sid, reply: Reply)
    requires ShakesHands(st, t, s) && s in st.pool.stdout && st.pool.stdout[s] != []
    requires st.pool.stdout[s][0].body == Message(st.tasks[t].req.id, reply)
    ensures Next(cfg, st, Resume(t, Read)).Some? && Heard(st, Next(cfg, st, Resume(t, Read)).value, t, s, 0, reply)
  {
  }

  /** The handshake succeeds, and its last message is written, exactly when the first line with its id holds a result,
      whatever comes before that line. */
  lemma {:induction false} HandshakeIsRead(cfg: Config, st: State, t: Tid, s: Sid, n: nat, reply: Reply)
    requires ShakesHands(st, t, s) && s in st.pool.stdout
    requires AnsweredAt(st.pool.stdout[s], n, st.tasks[t].req, reply)
    ensures Onward(cfg, st, Reads(t, n + 1)).Some? &&
            Heard(st, Onward(cfg, st, Reads(t, n + 1)).value, t, s, n, reply)
    decreases n
  {
    assert Reads(t, n + 1)[1..] == Reads(t, n) && Reads(t, n + 1)[0] == Resume(t, Read);
    var unread := st.pool.stdout[s];
    if n == 0 {
      TakesHandshake(cfg, st, t, s, reply);
      assert Onward(cfg, Next(cfg, st, Resume(t, Read)).value, []) == Next(cfg, st, Resume(t, Read));
    } else {
      SkipsAtHandshake(cfg, st, t, s);
      var skipped := Next(cfg, st, Resume(t, Read)).value;
      HandshakeIsRead(cfg, skipped, t, s, n - 1, reply);
      assert unread[1..][n..] == unread[n + 1..];
      assert st.pool.stdout[s := unread[1..]][s := unread[n + 1..]] == st.pool.stdout[s := unread[n + 1..]];
    }
  }

  /** The call has failed: it holds no lock any more, and the process it had started is dead. */
  predicate CleanedUp(st: State, after: State, t: Tid)
    requires t in st.tasks
  {
    && t in after.tasks && after.tasks == st.tasks[t := after.tasks[t]] && after.tasks[t].at.Done?
    && after.tasks[t].outcome.Failed? && after.tasks[t].held.None? && after.tasks[t].doomed == {}
    && after.pool.reg == st.pool.reg && after.pool.regLock.None?
    && after.pool.locks == (if st.tasks[t].held.Some? then st.pool.locks - {st.tasks[t].held.value} else st.pool.locks)
    && after.pool.alive == (if st.tasks[t].child.Some? then st.pool.alive - {st.tasks[t].child.value}
                            else st.pool.alive)
  }

  lemma SpawnGivesUp(cfg: Config, st: State, t: Tid)
    requires t in st.tasks && st.tasks[t].job.Rpc? && st.tasks[t].at.Spawning?
    requires st.tasks[t].child.None? && st.tasks[t].doomed == {}
    ensures Next(cfg, st, Resume(t, Error)).Some? && CleanedUp(st, Next(cfg, st, Resume(t, Error)).value, t)
  {
  }

  lemma HandshakeGivesUp(cfg: Config, st: State, t: Tid, s: Sid)
    requires t in st.tasks && st.tasks[t].job.Rpc? && st.tasks[t].at.KillingFailed?
    requires st.tasks[t].child == Some(s) && st.tasks[t].doomed == {s}
    ensures Next(cfg, st, Resume(t, Go)).Some? && CleanedUp(st, Next(cfg, st, Resume(t, Go)).value, t)
  {
  }

  lemma HandshakeBreaks(cfg: Config, st: State, t: Tid)
    requires t in st.tasks && st.tasks[t].job.Rpc? && (st.tasks[t].at.Handshaking? || st.tasks[t].at.Announcing?)
    requires st.tasks[t].child.Some?
    ensures Next(cfg, st, Resume(t, Error)) ==
            Some(State(st.pool.(clock := st.pool.clock + 1), st.tasks[t := st.tasks[t].(at := KillingFailed)]))
  {
  }

  /** A call that cannot start its process fails and leaves nothing of it behind, wherever the error comes. */
  lemma SpawnFails(cfg: Config, st: State, t: Tid)
    requires Reachable(cfg, st) && t in st.tasks && st.tasks[t].job.Rpc?
    requires NeedsRoom(st.tasks[t])
    ensures var after := Onward(cfg, st, if st.tasks[t].at.Spawning? then [Resume(t, Error)]
                                         else if st.tasks[t].at.KillingFailed? then [Resume(t, Go)]
                                         else [Resume(t, Error), Resume(t, Go)]);
            after.Some? && CleanedUp(st, after.value, t)
  {
    ReachableInv(cfg, st);
    assert TaskOk(st.pool.reg, st.pool.sessions, st.pool.ready, st.tasks[t]);
    if st.tasks[t].at.Spawning? {
      SpawnGivesUp(cfg, st, t);
      OneMore(cfg, st, [], Resume(t, Error));
      assert [] + [Resume(t, Error)] == [Resume(t, Error)];
    } else if st.tasks[t].at.KillingFailed? {
      HandshakeGivesUp(cfg, st, t, st.tasks[t].child.value);
      OneMore(cfg, st, [], Resume(t, Go));
      assert [] + [Resume(t, Go)] == [Resume(t, Go)];
    } else {
      HandshakeBreaks(cfg, st, t);
      HandshakeGivesUp(cfg, Next(cfg, st, Resume(t, Error)).value, t, st.tasks[t].child.value);
      TwoSteps(cfg, st, Resume(t, Error), Resume(t, Go));
    }
  }

  /**
    In a full pool room is made: the session with the least stamp leaves the registry and dies, and then the call asks
    again.
   */
  lemma RoomIsMade(cfg: Config, st: State, t: Tid, io: Io)
    requires Reachable(cfg, st) && t in st.tasks && st.tasks[t].job.Rpc? && st.tasks[t].at.Evicting?
    requires |st.pool.reg| >= cfg.maxSessions && st.pool.reg != map[]
    ensures forall k :: k in st.pool.reg ==> st.pool.reg[k] in st.pool.lastUsed
    ensures Next(cfg, st, Resume(t, io)).Some? <==>
            io.Victim? && io.key in st.pool.reg &&
            forall k :: k in st.pool.reg ==>
              st.pool.lastUsed[st.pool.reg[io.key]] <= st.pool.lastUsed[st.pool.reg[k]]
    ensures Next(cfg, st, Resume(t, io)).Some? ==>
              var after := Onward(cfg, st, [Resume(t, io), Resume(t, Go)]);
              && after.Some? && after.value.tasks == st.tasks
              && after.value.pool == st.pool.(reg := st.pool.reg - {io.key},
                                              alive := st.pool.alive - {st.pool.reg[io.key]},
                                              clock := st.pool.clock + 2)
  {
    ReachableInv(cfg, st);
    assert TaskOk(st.pool.reg, st.pool.sessions, st.pool.ready, st.tasks[t]);
    TwoSteps(cfg, st, Resume(t, io), Resume(t, Go));
    if Next(cfg, st, Resume(t, io)).Some? {
      VictimIsTaken(cfg, st, t, io.key);
    }
  }

  lemma VictimIsTaken(cfg: Config, st: State, t: Tid, key: Key)
    requires t in st.tasks && st.tasks[t].job.Rpc? && st.tasks[t].at.Evicting? && st.tasks[t].doomed == {}
    requires key in st.pool.reg && Next(cfg, st, Resume(t, Victim(key))).Some?
    ensures Next(cfg, Next(cfg, st, Resume(t, Victim(key))).value, Resume(t, Go)) ==
            Some(State(st.pool.(reg := st.pool.reg - {key}, alive := st.pool.alive - {st.pool.reg[key]},
                                clock := st.pool.clock + 2), st.tasks))
  {
    var m := Move(st.pool, st.tasks[t]);
    assert Place(st.tasks, t, m) == st;
    PlaceNext(cfg, st.tasks, t, m, Victim(key));
    var first := Go1(cfg, m, t, Victim(key)).value;
    PlaceNext(cfg, st.tasks, t, first, Go);
    assert st.tasks[t := st.tasks[t]] == st.tasks;
  }

  lemma BlankGivesUp(cfg: Config, st: State, t: Tid)
    requires t in st.tasks && st.tasks[t].job.Rpc? && st.tasks[t].at.Evicting? && !Full(cfg, st.pool)
    requires st.tasks[t].child.None? && st.tasks[t].doomed == {} && Blank(SpecFingerprint(st.tasks[t].job.spec).command)
    ensures Next(cfg, st, Resume(t, Go)).Some? && CleanedUp(st, Next(cfg, st, Resume(t, Go)).value, t)
  {
  }

  lemma RoomLets(cfg: Config, st: State, t: Tid, io: Io)
    requires t in st.tasks && st.tasks[t].job.Rpc? && st.tasks[t].at.Evicting? && !Full(cfg, st.pool)
    ensures Next(cfg, st, Resume(t, io)).Some? <==> io.Go?
    ensures io.Go? && !Blank(SpecFingerprint(st.tasks[t].job.spec).command) ==>
              Next(cfg, st, Resume(t, io)).value ==
              State(st.pool.(clock := st.pool.clock + 1), st.tasks[t := st.tasks[t].(at := Spawning)])
  {
  }

  /** With room the call only goes on: it fails on a blank command and spawns otherwise. */
  lemma RoomIsThere(cfg: Config, st: State, t: Tid, io: Io)
    requires Reachable(cfg, st) && t in st.tasks && st.tasks[t].job.Rpc? && st.tasks[t].at.Evicting?
    requires |st.pool.reg| < cfg.maxSessions || st.pool.reg == map[]
    ensures Next(cfg, st, Resume(t, io)).Some? <==> io.Go?
    ensures io.Go? && Blank(SpecFingerprint(st.tasks[t].job.spec).command) ==>
              CleanedUp(st, Next(cfg, st, Resume(t, io)).value, t)
    ensures io.Go? && !Blank(SpecFingerprint(st.tasks[t].job.spec).command) ==>
              Next(cfg, st, Resume(t, io)).value ==
              State(st.pool.(clock := st.pool.clock + 1), st.tasks[t := st.tasks[t].(at := Spawning)])
  {
    RoomLets(cfg, st, t, io);
    if io.Go? && Blank(SpecFingerprint(st.tasks[t].job.spec).command) {
      ReachableInv(cfg, st);
      assert TaskOk(st.pool.reg, st.pool.sessions, st.pool.ready, st.tasks[t]);
      BlankGivesUp(cfg, st, t);
    }
  }

  // ---------- Reaping and shutting down ----------

  /** The sessions in the registry that a sweep begun now would take. */
  predicate Swept(cfg: Config, pool: Pool, job: Job, key: Key) {
    && key in pool.reg
    && (job.Shutdown? || pool.reg[key] !in pool.alive
        || (pool.reg[key] in pool.lastUsed && pool.clock > pool.lastUsed[pool.reg[key]] + cfg.ttl))
  }

  function Kills(t: Tid, victims: seq<Sid>): seq<Action> {
    if victims == [] then [] else [Resume(t, Kill(victims[0]))] + Kills(t, victims[1..])
  }

  ghost predicate Lists(victims: seq<Sid>, doomed: set<Sid>) {
    && (forall s :: s in victims <==> s in doomed)
    && (forall i, j :: 0 <= i < j < |victims| ==> victims[i] != victims[j])
  }

  predicate Sweeping(st: State, t: Tid) {
    t in st.tasks && !st.tasks[t].job.Rpc? && st.tasks[t].at.KillingAll?
  }

  lemma KillsNext(cfg: Config, st: State, t: Tid, s: Sid)
    requires Sweeping(st, t) && s in st.tasks[t].doomed
    ensures Next(cfg, st, Resume(t, Kill(s))) ==
            Some(State(st.pool.(alive := st.pool.alive - {s}, clock := st.pool.clock + 1),
                       st.tasks[t := st.tasks[t].(doomed := st.tasks[t].doomed - {s},
                                                  killed := st.tasks[t].killed + 1)]))
  {
  }

  /** All sessions collected are terminated and counted, whatever the order. */
  lemma {:induction false} KillsAll(cfg: Config, st: State, t: Tid, victims: seq<Sid>)
    requires Sweeping(st, t) && Lists(victims, st.tasks[t].doomed)
    ensures var after := Onward(cfg, st, Kills(t, victims));
            && after.Some? && Sweeping(after.value, t)
            && after.value.tasks == st.tasks[t := st.tasks[t].(doomed := {}, killed := st.tasks[t].killed + |victims|)]
            && after.value.pool == st.pool.(alive := st.pool.alive - st.tasks[t].doomed,
                                            clock := st.pool.clock + |victims|)
    decreases |victims|
  {
    if victims == [] {
      assert st.tasks[t].doomed == {} && st.tasks[t := st.tasks[t]] == st.tasks;
    } else {
      var s := victims[0];
      assert s in victims;
      KillsNext(cfg, st, t, s);
      var killed := Next(cfg, st, Resume(t, Kill(s))).value;
      forall x ensures x in victims[1..] <==> x in killed.tasks[t].doomed {
        if x in killed.tasks[t].doomed {
          var i :| 0 <= i < |victims| && victims[i] == x;
          assert victims[1..][i - 1] == x;
        }
      }
      KillsAll(cfg, killed, t, victims[1..]);
      assert Kills(t, victims)[1..] == Kills(t, victims[1..]);
      assert st.pool.alive - {s} - killed.tasks[t].doomed == st.pool.alive - st.tasks[t].doomed;
    }
  }

  lemma SweepCollects(cfg: Config, st: State, t: Tid, job: Job)
    requires t !in st.tasks && !job.Rpc? && st.pool.regLock.None?
    ensures var after := Onward(cfg, st, [Begin(t, job), Resume(t, Go)]);
            && after.Some? && Sweeping(after.value, t)
            && after.value.tasks == st.tasks[t := after.value.tasks[t]] && after.value.tasks[t].job == job
            && after.value.tasks[t].killed == 0 && after.value.tasks[t].held.None?
            && after.value.tasks[t].doomed ==
               (set key | key in st.pool.reg && Swept(cfg, st.pool, job, key) :: st.pool.reg[key])
            && after.value.pool == st.pool.(reg := after.value.pool.reg, clock := st.pool.clock + 2)
            && after.value.pool.reg ==
               map key | key in st.pool.reg && !Swept(cfg, st.pool, job, key) :: st.pool.reg[key]
  {
    Begins(cfg, st, t, job);
    TwoSteps(cfg, st, Begin(t, job), Resume(t, Go));
    var m := Move(st.pool.(clock := st.pool.clock + 1), FirstTask(job, st.pool.clock));
    PlaceNext(cfg, st.tasks, t, m, Go);
    var keys := if job.ReapIdle? then StaleKeys(cfg, m.pool, m.task.sampled) else m.pool.reg.Keys;
    assert forall key :: key in keys <==> Swept(cfg, st.pool, job, key);
  }

  /**
    A sweep takes out of the registry exactly the sessions that were dead or overdue when it began, or all of them in a
    shutdown, terminates them in any order, and a reap returns how many they were.
   */
  lemma SweepIsDone(cfg: Config, st: State, t: Tid, job: Job, victims: seq<Sid>)
    requires t !in st.tasks && !job.Rpc? && st.pool.regLock.None?
    requires Lists(victims, set key | key in st.pool.reg && Swept(cfg, st.pool, job, key) :: st.pool.reg[key])
    ensures var after := Onward(cfg, st, [Begin(t, job), Resume(t, Go)] + Kills(t, victims) + [Resume(t, Go)]);
            && after.Some? && t in after.value.tasks && after.value.tasks == st.tasks[t := after.value.tasks[t]]
            && after.value.tasks[t].at.Done?
            && after.value.tasks[t].outcome == (if job.ReapIdle? then Reaped(|victims|) else Closed)
            && after.value.pool.reg ==
               (map key | key in st.pool.reg && !Swept(cfg, st.pool, job, key) :: st.pool.reg[key])
            && after.value.pool.alive == st.pool.alive - (set s | s in victims)
            && after.value.pool.locks == st.pool.locks && after.value.pool.regLock.None?
  {
    var killing := [Begin(t, job), Resume(t, Go)] + Kills(t, victims);
    SweepKills(cfg, st, t, job, victims, [Begin(t, job), Resume(t, Go)]);
    SweepEnds(cfg, Onward(cfg, st, killing).value, t);
    OneMore(cfg, st, killing, Resume(t, Go));
  }

  lemma SweepKills(cfg: Config, st: State, t: Tid, job: Job, victims: seq<Sid>, first: seq<Action>)
    requires t !in st.tasks && !job.Rpc? && st.pool.regLock.None? && first == [Begin(t, job), Resume(t, Go)]
    requires Lists(victims, set key | key in st.pool.reg && Swept(cfg, st.pool, job, key) :: st.pool.reg[key])
    ensures var after := Onward(cfg, st, first + Kills(t, victims));
            && after.Some? && Sweeping(after.value, t) && after.value.tasks == st.tasks[t := after.value.tasks[t]]
            && after.value.tasks[t].job == job && after.value.tasks[t].doomed == {}
            && after.value.tasks[t].killed == |victims|
            && after.value.pool.reg ==
               (map key | key in st.pool.reg && !Swept(cfg, st.pool, job, key) :: st.pool.reg[key])
            && after.value.pool.alive == st.pool.alive - (set s | s in victims)
            && after.value.pool.locks == st.pool.locks && after.value.pool.regLock.None?
  {
    SweepCollects(cfg, st, t, job);
    var collected := Onward(cfg, st, first).value;
    KillsAll(cfg, collected, t, victims);
    OnwardSum(cfg, st, first, Kills(t, victims));
    assert collected.tasks[t].doomed == set s | s in victims;
  }

  lemma SweepEnds(cfg: Config, st: State, t: Tid)
    requires Sweeping(st, t) && st.tasks[t].doomed == {}
    ensures Next(cfg, st, Resume(t, Go)) ==
            Some(State(st.pool.(clock := st.pool.clock + 1),
                       st.tasks[t := st.tasks[t].(at := Done, outcome := if st.tasks[t].job.ReapIdle?
                                                                         then Reaped(st.tasks[t].killed) else Closed)]))
  {
  }
}
