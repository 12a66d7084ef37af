/** What becomes of a call, from its first await to what it returns. */
module SessionPoolCalls {
  import opened Options
  import opened Strings
  import opened SessionPool
  import opened SessionPoolSafety
  import opened SessionPoolReplies
  import opened SessionPoolTheorems

  /** The call `u` has sent its request to the process and waits for the reply. */
  predicate Awaits(st: State, u: Tid, s: Sid) {
    u in st.tasks && st.tasks[u].job.Rpc? && st.tasks[u].at.Awaiting? && st.tasks[u].session == Some(s)
  }

  /** Two specs are told apart by their parts alone, and a missing part is the same as an empty one. */
  lemma FingerprintExactly(a: SpawnSpec, b: SpawnSpec)
    ensures SpecFingerprint(a) == SpecFingerprint(b) <==>
            && (a.command == b.command || (a.command in {None, Some("")} && b.command in {None, Some("")}))
            && (a.args == b.args || (a.args in {None, Some([])} && b.args in {None, Some([])}))
            && (a.env == b.env || (a.env in {None, Some(map[])} && b.env in {None, Some(map[])}))
  {
  }

  // ---------- One task on its own ----------

  /** A task alone with the pool takes one step, and time passes. */
  function Go1(cfg: Config, m: Move, t: Tid, io: Io): Option<Move> {
    match Step(cfg, m.pool, t, m.task, io)
    case None => None
    case Some(n) => Some(Move(n.pool.(clock := m.pool.clock + 1), n.task))
  }

  function Place(tasks: map<Tid, Task>, t: Tid, m: Move): State {
    State(m.pool, tasks[t := m.task])
  }

  lemma PlaceNext(cfg: Config, tasks: map<Tid, Task>, t: Tid, m: Move, io: Io)
    ensures Next(cfg, Place(tasks, t, m), Resume(t, io)) ==
            if Go1(cfg, m, t, io).Some? then Some(Place(tasks, t, Go1(cfg, m, t, io).value)) else None
  {
    if Go1(cfg, m, t, io).Some? {
      assert tasks[t := m.task][t := Go1(cfg, m, t, io).value.task] == tasks[t := Go1(cfg, m, t, io).value.task];
    }
  }

  // ---------- Reading until the answer ----------

  /** Line `n` is the first unread one that carries the id of the request, and holds this reply. */
  predicate AnsweredAt(unread: seq<Line>, n: nat, req: Req, reply: Reply) {
    && n < |unread| && unread[n].body == Message(req.id, reply)
    && forall i :: 0 <= i < n && unread[i].body.Message? ==> unread[i].body.id != req.id
  }

  function Reads(t: Tid, n: nat): seq<Action> {
    if n == 0 then [] else [Resume(t, Read)] + Reads(t, n - 1)
  }

  /** Nothing but output, locks and log may differ. */
  predicate OnlyRead(pool: Pool, after: Pool) {
    && after.reg == pool.reg && after.regLock == pool.regLock && after.sessions == pool.sessions
    && after.alive == pool.alive && after.ready == pool.ready && after.lastUsed == pool.lastUsed
    && after.seen == pool.seen && after.order == pool.order
  }

  /** What a task that waits for the reply to its request makes of the answer. */
  predicate Returned(st: State, after: State, t: Tid, s: Sid, n: nat, reply: Reply)
    requires t in st.tasks && s in st.pool.stdout && n < |st.pool.stdout[s]|
  {
    && after.tasks == st.tasks[t := st.tasks[t].(at := Done, held := None,
                                                 outcome := if reply.ResultReply? then Result(reply.payload)
                                                            else Failed)]
    && after.pool.locks == st.pool.locks - {s} && after.pool.stdout == st.pool.stdout[s := st.pool.stdout[s][n + 1..]]
    && OnlyRead(st.pool, after.pool)
  }

  lemma SkipsForeign(cfg: Config, st: State, t: Tid, s: Sid)
    requires Awaits(st, t, s) && s in st.pool.stdout && st.pool.stdout[s] != []
    requires var body := st.pool.stdout[s][0].body; body.Message? ==> body.id != st.tasks[t].req.id
    ensures Next(cfg, st, Resume(t, Read)) ==
            Some(st.(pool := st.pool.(stdout := st.pool.stdout[s := st.pool.stdout[s][1..]],
                                      clock := st.pool.clock + 1)))
  {
    assert st.tasks[t := st.tasks[t]] == st.tasks;
  }

  lemma TakesAnswer(cfg: Config, st: State, t: Tid, s: Sid, reply: Reply)
    requires Awaits(st, t, s) && st.tasks[t].held == Some(s) && s in st.pool.stdout && st.pool.stdout[s] != []
    requires st.pool.stdout[s][0].body == Message(st.tasks[t].req.id, reply)
    ensures Next(cfg, st, Resume(t, Read)).Some? &&
            Returned(st, Next(cfg, st, Resume(t, Read)).value, t, s, 0, reply)
  {
  }

  lemma {:induction false} ReadsUntilAnswer(cfg: Config, st: State, t: Tid, s: Sid, n: nat, reply: Reply)
    requires Awaits(st, t, s) && st.tasks[t].held == Some(s) && s in st.pool.stdout
    requires AnsweredAt(st.pool.stdout[s], n, st.tasks[t].req, reply)
    ensures Onward(cfg, st, Reads(t, n + 1)).Some? &&
            Returned(st, Onward(cfg, st, Reads(t, n + 1)).value, t, s, n, reply)
    decreases n
  {
    assert Reads(t, n + 1)[1..] == Reads(t, n) && Reads(t, n + 1)[0] == Resume(t, Read);
    var unread := st.pool.stdout[s];
    if n == 0 {
      TakesAnswer(cfg, st, t, s, reply);
      assert Onward(cfg, Next(cfg, st, Resume(t, Read)).value, []) == Next(cfg, st, Resume(t, Read));
    } else {
      SkipsForeign(cfg, st, t, s);
      var skipped := Next(cfg, st, Resume(t, Read)).value;
      ReadsUntilAnswer(cfg, skipped, t, s, n - 1, reply);
      assert unread[1..][n..] == unread[n + 1..];
      assert st.pool.stdout[s := unread[1..]][s := unread[n + 1..]] == st.pool.stdout[s := unread[n + 1..]];
    }
  }

  /**
    An answered request returns: once a line with its id is printed, the call that waits for it is done as soon as it
    has read up to that line.  It returns the payload if the line holds a result and fails if not, releases the session,
    and changes nothing else.
   */
  lemma AnswerIsReturned(cfg: Config, st: State, t: Tid, s: Sid, n: nat, reply: Reply)
    requires Reachable(cfg, st) && Awaits(st, t, s) && s in st.pool.stdout
    requires n < |st.pool.stdout[s]| && st.pool.stdout[s][n].body == Message(st.tasks[t].req.id, reply)
    requires forall i :: 0 <= i < n && st.pool.stdout[s][i].body.Message? ==>
                           st.pool.stdout[s][i].body.id != st.tasks[t].req.id
    ensures Onward(cfg, st, Reads(t, n + 1)).Some?
    ensures var after := Onward(cfg, st, Reads(t, n + 1)).value;
            && after.tasks == st.tasks[t := st.tasks[t].(at := Done, held := None,
                                                         outcome := if reply.ResultReply? then Result(reply.payload)
                                                                    else Failed)]
            && after.pool.locks == st.pool.locks - {s}
            && after.pool.stdout == st.pool.stdout[s := st.pool.stdout[s][n + 1..]]
            && OnlyRead(st.pool, after.pool)
  {
    ReachableInv(cfg, st);
    assert TaskOk(st.pool.reg, st.pool.sessions, st.pool.ready, st.tasks[t]);
    ReadsUntilAnswer(cfg, st, t, s, n, reply);
  }

  // ---------- Finding or spawning the process ----------

  /** One action more. */
  lemma PrefixGrows(cfg: Config, st: State, actions: seq<Action>, k: nat, mid: State)
    requires k < |actions| && Onward(cfg, st, actions[..k]) == Some(mid)
    ensures Onward(cfg, st, actions[..k + 1]) == Next(cfg, mid, actions[k])
  {
    OneMore(cfg, st, actions[..k], actions[k]);
    assert actions[..k] + [actions[k]] == actions[..k + 1];
  }

  lemma Advances(cfg: Config, st: State, actions: seq<Action>, k: nat, tasks: map<Tid, Task>, t: Tid, m: Move, io: Io)
    requires k < |actions| && actions[k] == Resume(t, io) && Onward(cfg, st, actions[..k]) == Some(Place(tasks, t, m))
    requires Go1(cfg, m, t, io).Some?
    ensures Onward(cfg, st, actions[..k + 1]) == Some(Place(tasks, t, Go1(cfg, m, t, io).value))
  {
    PrefixGrows(cfg, st, actions, k, Place(tasks, t, m));
    PlaceNext(cfg, tasks, t, m, io);
  }

  lemma Begins(cfg: Config, st: State, t: Tid, job: Job)
    requires t !in st.tasks
    ensures Next(cfg, st, Begin(t, job)) ==
            Some(Place(st.tasks, t, Move(st.pool.(clock := st.pool.clock + 1), FirstTask(job, st.pool.clock))))
  {
  }

  /** The call is looking for its process in a pool that has not changed. */
  predicate Looking(base: Pool, m: Move, t: Tid, job: Job, at: Label, elapsed: nat) {
    && m.pool == base.(regLock := if at.WantRegistry? then None else Some(t), clock := base.clock + elapsed)
    && m.task == FirstTask(job, base.clock).(at := at)
  }

  lemma LooksUp(cfg: Config, base: Pool, m: Move, t: Tid, job: Job)
    requires job.Rpc? && Looking(base, m, t, job, WantRegistry, 1) && job.key !in base.reg
    ensures Go1(cfg, m, t, Go).Some? && Looking(base, Go1(cfg, m, t, Go).value, t, job, Evicting, 2)
  {
  }

  lemma HasRoom(cfg: Config, base: Pool, m: Move, t: Tid, job: Job)
    requires job.Rpc? && Looking(base, m, t, job, Evicting, 2)
    requires (|base.reg| < cfg.maxSessions || base.reg == map[]) && !Blank(SpecFingerprint(job.spec).command)
    ensures Go1(cfg, m, t, Go).Some? && Looking(base, Go1(cfg, m, t, Go).value, t, job, Spawning, 3)
  {
  }

  /** The call has spawned its process and is shaking hands. */
  predicate Shaking(base: Pool, m: Move, t: Tid, job: Job, s: Sid, a: ReqId, at: Label, lines: seq<Line>,
                    elapsed: nat)
    requires job.Rpc?
  {
    && m.pool.reg == base.reg && m.pool.regLock == Some(t) && m.pool.locks == base.locks && m.pool.ready == base.ready
    && m.pool.sessions == base.sessions[s := Session(job.key, job.spec)] && m.pool.alive == base.alive + {s}
    && m.pool.stdout == base.stdout[s := lines] && m.pool.seen == base.seen + {a}
    && m.pool.lastUsed == base.lastUsed[s := base.clock + 3] && m.pool.clock == base.clock + elapsed
    && m.task == FirstTask(job, base.clock).(at := at, child := Some(s), doomed := {s},
                                             req := Req(a, base.clock + 3), spawned := 1)
  }

  lemma Spawns(cfg: Config, base: Pool, m: Move, t: Tid, job: Job, s: Sid, a: ReqId)
    requires job.Rpc? && Looking(base, m, t, job, Spawning, 3) && s !in base.sessions && a !in base.seen
    ensures Go1(cfg, m, t, Created(s, a)).Some?
    ensures Shaking(base, Go1(cfg, m, t, Created(s, a)).value, t, job, s, a, Handshaking, [], 4)
  {
  }

  lemma Introduces(cfg: Config, base: Pool, tasks: map<Tid, Task>, m: Move, t: Tid, job: Job, s: Sid, a: ReqId,
                   body: Body)
    requires job.Rpc? && Shaking(base, m, t, job, s, a, Handshaking, [], 4) && body.Message? && body.id == a
    ensures var after := Next(cfg, Place(tasks, t, m), Print(s, body));
            && after.Some? && after.value.tasks == tasks[t := m.task]
            && Shaking(base, Move(after.value.pool, m.task), t, job, s, a, Handshaking, [Line(base.clock + 4, body)], 5)
  {
    assert m.pool.stdout[s] == [];
    assert [] + [Line(base.clock + 4, body)] == [Line(base.clock + 4, body)];
  }

  lemma Hears(cfg: Config, base: Pool, m: Move, t: Tid, job: Job, s: Sid, a: ReqId, line: Line, info: string)
    requires job.Rpc? && Shaking(base, m, t, job, s, a, Handshaking, [line], 5)
    requires line.body == Message(a, ResultReply(info))
    ensures Go1(cfg, m, t, Read).Some? &&
            Shaking(base, Go1(cfg, m, t, Read).value, t, job, s, a, Announcing, [], 6)
  {
    assert m.pool.stdout[s] == [line] && [line][1..] == [];
  }

  /** The process is registered and the call goes on with it. */
  predicate OpenFor(base: Pool, m: Move, job: Job, s: Sid, a: ReqId)
    requires job.Rpc?
  {
    && m.pool.reg == base.reg[job.key := s] && m.pool.regLock.None? && m.pool.locks == base.locks
    && m.pool.ready == base.ready + {s} && m.pool.alive == base.alive + {s}
    && m.pool.sessions == base.sessions[s := Session(job.key, job.spec)] && m.pool.stdout == base.stdout[s := []]
    && m.pool.lastUsed == base.lastUsed[s := base.clock + 3] && m.pool.clock == base.clock + 7
    && m.pool.seen == base.seen + {a}
    && m.task.job == job && m.task.at.WantSession? && m.task.session == Some(s) && m.task.held.None?
    && m.task.spawned == 1 && m.task.doomed == {} && m.task.outcome.Pending?
  }

  lemma Registers(cfg: Config, base: Pool, m: Move, t: Tid, job: Job, s: Sid, a: ReqId)
    requires job.Rpc? && Shaking(base, m, t, job, s, a, Announcing, [], 6)
    ensures Go1(cfg, m, t, Go).Some? && OpenFor(base, Go1(cfg, m, t, Go).value, job, s, a)
  {
  }

  /** A call whose process has to be spawned, up to its registration. */
  function Opening(t: Tid, job: Job, s: Sid, a: ReqId, info: string): seq<Action> {
    [Begin(t, job), Resume(t, Go), Resume(t, Go), Resume(t, Created(s, a)), Print(s, Message(a, ResultReply(info))),
     Resume(t, Read), Resume(t, Go)]
  }

  lemma OpeningSpawns(cfg: Config, st: State, t: Tid, job: Job, s: Sid, a: ReqId, actions: seq<Action>)
    returns (m: Move)
    requires t !in st.tasks && job.Rpc? && job.key !in st.pool.reg && st.pool.regLock.None?
    requires (|st.pool.reg| < cfg.maxSessions || st.pool.reg == map[]) && !Blank(SpecFingerprint(job.spec).command)
    requires s !in st.pool.sessions && a !in st.pool.seen && |actions| >= 4
    requires actions[0] == Begin(t, job) && actions[1] == Resume(t, Go) && actions[2] == Resume(t, Go)
    requires actions[3] == Resume(t, Created(s, a))
    ensures Onward(cfg, st, actions[..4]) == Some(Place(st.tasks, t, m))
    ensures Shaking(st.pool, m, t, job, s, a, Handshaking, [], 4)
  {
    assert Onward(cfg, st, actions[..0]) == Some(st);
    PrefixGrows(cfg, st, actions, 0, st);
    Begins(cfg, st, t, job);
    m := Move(st.pool.(clock := st.pool.clock + 1), FirstTask(job, st.pool.clock));
    LooksUp(cfg, st.pool, m, t, job);
    Advances(cfg, st, actions, 1, st.tasks, t, m, Go);
    m := Go1(cfg, m, t, Go).value;
    HasRoom(cfg, st.pool, m, t, job);
    Advances(cfg, st, actions, 2, st.tasks, t, m, Go);
    m := Go1(cfg, m, t, Go).value;
    Spawns(cfg, st.pool, m, t, job, s, a);
    Advances(cfg, st, actions, 3, st.tasks, t, m, Created(s, a));
    m := Go1(cfg, m, t, Created(s, a)).value;
  }

  lemma OpeningIntroduces(cfg: Config, st: State, t: Tid, job: Job, s: Sid, a: ReqId, body: Body, actions: seq<Action>,
                          shaking: Move) returns (m: Move)
    requires job.Rpc? && |actions| == 7 && Onward(cfg, st, actions[..4]) == Some(Place(st.tasks, t, shaking))
    requires Shaking(st.pool, shaking, t, job, s, a, Handshaking, [], 4)
    requires actions[4] == Print(s, body) && body.Message? && body.id == a
    ensures Onward(cfg, st, actions[..5]) == Some(Place(st.tasks, t, m))
    ensures Shaking(st.pool, m, t, job, s, a, Handshaking, [Line(st.pool.clock + 4, body)], 5)
  {
    PrefixGrows(cfg, st, actions, 4, Place(st.tasks, t, shaking));
    Introduces(cfg, st.pool, st.tasks, shaking, t, job, s, a, body);
    m := Move(Onward(cfg, st, actions[..5]).value.pool, shaking.task);
  }

  lemma OpeningRegisters(cfg: Config, st: State, t: Tid, job: Job, s: Sid, a: ReqId, info: string,
                         actions: seq<Action>, shaking: Move) returns (m: Move)
    requires job.Rpc? && |actions| == 7 && Onward(cfg, st, actions[..4]) == Some(Place(st.tasks, t, shaking))
    requires Shaking(st.pool, shaking, t, job, s, a, Handshaking, [], 4)
    requires actions[4] == Print(s, Message(a, ResultReply(info))) && actions[5] == Resume(t, Read)
    requires actions[6] == Resume(t, Go)
    ensures Onward(cfg, st, actions) == Some(Place(st.tasks, t, m)) && OpenFor(st.pool, m, job, s, a)
  {
    var body := Message(a, ResultReply(info));
    m := OpeningIntroduces(cfg, st, t, job, s, a, body, actions, shaking);
    Hears(cfg, st.pool, m, t, job, s, a, Line(st.pool.clock + 4, body), info);
    Advances(cfg, st, actions, 5, st.tasks, t, m, Read);
    m := Go1(cfg, m, t, Read).value;
    Registers(cfg, st.pool, m, t, job, s, a);
    Advances(cfg, st, actions, 6, st.tasks, t, m, Go);
    m := Go1(cfg, m, t, Go).value;
    assert actions[..7] == actions;
  }

  /**
    A call for a key without a process, in a pool with room: its process is spawned, answers the handshake and is
    registered, and the call goes on with it.  Nothing else in the pool changes.
   */
  lemma ProcessIsOpened(cfg: Config, st: State, t: Tid, job: Job, s: Sid, a: ReqId, info: string)
    requires t !in st.tasks && job.Rpc? && job.key !in st.pool.reg && st.pool.regLock.None?
    requires (|st.pool.reg| < cfg.maxSessions || st.pool.reg == map[]) && !Blank(SpecFingerprint(job.spec).command)
    requires s !in st.pool.sessions && a !in st.pool.seen
    ensures var after := Onward(cfg, st, Opening(t, job, s, a, info));
            && after.Some? && t in after.value.tasks && after.value.tasks == st.tasks[t := after.value.tasks[t]]
            && OpenFor(st.pool, Move(after.value.pool, after.value.tasks[t]), job, s, a)
  {
    var actions := Opening(t, job, s, a, info);
    var m := OpeningSpawns(cfg, st, t, job, s, a, actions);
    m := OpeningRegisters(cfg, st, t, job, s, a, info, actions, m);
    assert st.tasks[t := m.task][t] == m.task;
  }

  /** A call finds the living process of its key and spec, and takes no lock for it. */
  lemma ProcessIsFound(cfg: Config, st: State, t: Tid, job: Job)
    requires t !in st.tasks && job.Rpc? && st.pool.regLock.None? && job.key in st.pool.reg
    requires st.pool.reg[job.key] in st.pool.alive && st.pool.reg[job.key] in st.pool.sessions
    requires SpecFingerprint(st.pool.sessions[st.pool.reg[job.key]].spec) == SpecFingerprint(job.spec)
    ensures Onward(cfg, st, [Begin(t, job), Resume(t, Go)]) ==
            Some(State(st.pool.(clock := st.pool.clock + 2),
                       st.tasks[t := FirstTask(job, st.pool.clock).(at := WantSession,
                                                                    session := Some(st.pool.reg[job.key]))]))
  {
    TwoSteps(cfg, st, Begin(t, job), Resume(t, Go));
    Begins(cfg, st, t, job);
    var m := Move(st.pool.(clock := st.pool.clock + 1), FirstTask(job, st.pool.clock));
    PlaceNext(cfg, st.tasks, t, m, Go);
  }

  // ---------- Using it ----------

  /** What a call that has found its process still needs: the session free, and an unused id. */
  predicate Ready(st: State, t: Tid, s: Sid, id: ReqId) {
    && t in st.tasks && st.tasks[t].job.Rpc? && st.tasks[t].at.WantSession? && st.tasks[t].session == Some(s)
    && s in st.pool.alive && s !in st.pool.locks && id !in st.pool.seen
  }

  function Asking(t: Tid, id: ReqId): seq<Action> {
    [Resume(t, Go), Resume(t, Fresh(id))]
  }

  /** The use stamps the session. */
  predicate Used(pool: Pool, after: Pool, s: Sid) {
    && after.reg == pool.reg && after.regLock == pool.regLock && after.sessions == pool.sessions
    && after.alive == pool.alive && after.ready == pool.ready && after.stdout == pool.stdout
    && after.lastUsed == pool.lastUsed[s := pool.clock + 1] && after.clock == pool.clock + 2
  }

  lemma Asks(cfg: Config, st: State, t: Tid, s: Sid, id: ReqId)
    requires Ready(st, t, s, id)
    ensures var after := Onward(cfg, st, Asking(t, id));
            && after.Some? && Used(st.pool, after.value.pool, s)
            && t in after.value.tasks && after.value.tasks == st.tasks[t := after.value.tasks[t]]
            && match st.tasks[t].job.kind
               case Initialize =>
                 after.value.tasks[t] == st.tasks[t].(at := Done, outcome := Info)
                 && after.value.pool.locks == st.pool.locks
               case Notify =>
                 after.value.tasks[t] == st.tasks[t].(at := Notifying, held := Some(s))
                 && after.value.pool.locks == st.pool.locks[s := t]
               case Request =>
                 after.value.tasks[t] == st.tasks[t].(at := Awaiting, held := Some(s),
                                                      req := Req(id, st.pool.clock + 1))
                 && after.value.pool.locks == st.pool.locks[s := t]
  {
    TwoSteps(cfg, st, Resume(t, Go), Resume(t, Fresh(id)));
    var m := Move(st.pool, st.tasks[t]);
    assert Place(st.tasks, t, m) == st;
    PlaceNext(cfg, st.tasks, t, m, Go);
    var checked := Move(st.pool.(clock := st.pool.clock + 1), st.tasks[t].(at := WantPipes));
    assert Go1(cfg, m, t, Go) == Some(checked);
    PlaceNext(cfg, st.tasks, t, checked, Fresh(id));
  }

  /** The reply to the request is printed after everything that was unread before. */
  function Answering(t: Tid, s: Sid, id: ReqId, reply: Reply, unread: nat): seq<Action> {
    [Print(s, Message(id, reply))] + Reads(t, unread + 1)
  }

  lemma AnswerIsFirst(cfg: Config, st: State, s: Sid, id: ReqId, reply: Reply, sentAt: nat)
    requires Reachable(cfg, st) && s in st.pool.stdout && id !in st.pool.seen
    ensures AnsweredAt(st.pool.stdout[s] + [Line(sentAt + 1, Message(id, reply))], |st.pool.stdout[s]|, Req(id, sentAt),
                       reply)
  {
    ReachableHistory(cfg, st);
    forall i | 0 <= i < |st.pool.stdout[s]| ensures HasEntry(st.pool.stdout, s, st.pool.stdout[s][i]) {
    }
  }

  /** The call is done, the session it used is free again and stamped, and its output is read. */
  predicate ServedBy(st: State, after: State, t: Tid, s: Sid, id: ReqId, outcome: Outcome)
    requires t in st.tasks
  {
    && after.tasks == st.tasks[t := st.tasks[t].(at := Done, held := None, req := Req(id, st.pool.clock + 1),
                                                 outcome := outcome)]
    && after.pool.reg == st.pool.reg && after.pool.regLock == st.pool.regLock && after.pool.locks == st.pool.locks
    && after.pool.sessions == st.pool.sessions && after.pool.alive == st.pool.alive && after.pool.ready == st.pool.ready
    && after.pool.stdout == st.pool.stdout[s := []] && after.pool.lastUsed == st.pool.lastUsed[s := st.pool.clock + 1]
  }

  lemma AnswerServes(cfg: Config, st: State, asked: State, t: Tid, s: Sid, id: ReqId, reply: Reply)
    requires Ready(st, t, s, id) && st.tasks[t].job.kind.Request? && s in st.pool.stdout
    requires Used(st.pool, asked.pool, s) && asked.pool.locks == st.pool.locks[s := t]
    requires asked.tasks == st.tasks[t := st.tasks[t].(at := Awaiting, held := Some(s),
                                                       req := Req(id, st.pool.clock + 1))]
    requires AnsweredAt(st.pool.stdout[s] + [Line(st.pool.clock + 2, Message(id, reply))], |st.pool.stdout[s]|,
                        Req(id, st.pool.clock + 1), reply)
    ensures var after := Onward(cfg, asked, Answering(t, s, id, reply, |st.pool.stdout[s]|));
            after.Some? &&
            ServedBy(st, after.value, t, s, id, if reply.ResultReply? then Result(reply.payload) else Failed)
  {
    var print1 := Print(s, Message(id, reply));
    var n := |st.pool.stdout[s]|;
    var actions := Answering(t, s, id, reply, n);
    assert actions[0] == print1 && actions[1..] == Reads(t, n + 1);
    var answered := Next(cfg, asked, print1).value;
    assert answered.pool.stdout[s] == st.pool.stdout[s] + [Line(st.pool.clock + 2, Message(id, reply))];
    ReadsUntilAnswer(cfg, answered, t, s, n, reply);
    assert answered.pool.stdout[s][n + 1..] == [];
  }

  /**
    A request is served: the call that has found its process, alive and not in use, sends its request, skips whatever
    the process had printed before, and returns the reply.
   */
  lemma RequestIsServed(cfg: Config, st: State, t: Tid, s: Sid, id: ReqId, reply: Reply)
    requires Reachable(cfg, st) && Ready(st, t, s, id) && st.tasks[t].job.kind.Request?
    ensures s in st.pool.stdout
    ensures var after := Onward(cfg, st, Asking(t, id) + Answering(t, s, id, reply, |st.pool.stdout[s]|));
            after.Some? &&
            ServedBy(st, after.value, t, s, id, if reply.ResultReply? then Result(reply.payload) else Failed)
  {
    ReachableInv(cfg, st);
    Asks(cfg, st, t, s, id);
    AnswerIsFirst(cfg, st, s, id, reply, st.pool.clock + 1);
    AnswerServes(cfg, st, Onward(cfg, st, Asking(t, id)).value, t, s, id, reply);
    OnwardSum(cfg, st, Asking(t, id), Answering(t, s, id, reply, |st.pool.stdout[s]|));
  }

  /** The call has returned, has used and stamped the process, and left everything else as it was. */
  predicate CalledFound(st: State, after: State, t: Tid, s: Sid, outcome: Outcome) {
    && t in after.tasks && after.tasks == st.tasks[t := after.tasks[t]] && after.tasks[t].at.Done?
    && after.tasks[t].spawned == 0 && after.tasks[t].outcome == outcome
    && after.pool.reg == st.pool.reg && after.pool.regLock.None? && after.pool.locks == st.pool.locks
    && after.pool.sessions == st.pool.sessions && after.pool.alive == st.pool.alive
    && after.pool.ready == st.pool.ready && after.pool.stdout == st.pool.stdout[s := []]
    && after.pool.lastUsed == st.pool.lastUsed[s := st.pool.clock + 3]
  }

  lemma FoundIsCalled(st: State, found: State, after: State, t: Tid, job: Job, s: Sid, id: ReqId, outcome: Outcome)
    requires job.Rpc? && st.pool.regLock.None? && found.pool == st.pool.(clock := st.pool.clock + 2)
    requires found.tasks == st.tasks[t := FirstTask(job, st.pool.clock).(at := WantSession, session := Some(s))]
    requires ServedBy(found, after, t, s, id, outcome)
    ensures CalledFound(st, after, t, s, outcome)
  {
  }

  /** The whole of `rpc` for a process that is there: what is returned is the payload of the reply. */
  lemma CallOfFoundProcess(cfg: Config, st: State, t: Tid, job: Job, id: ReqId, reply: Reply)
    requires Reachable(cfg, st) && t !in st.tasks && job.Rpc? && job.kind.Request? && st.pool.regLock.None?
    requires job.key in st.pool.reg && st.pool.reg[job.key] in st.pool.alive && st.pool.reg[job.key] !in st.pool.locks
    requires st.pool.reg[job.key] in st.pool.sessions && id !in st.pool.seen
    requires SpecFingerprint(st.pool.sessions[st.pool.reg[job.key]].spec) == SpecFingerprint(job.spec)
    ensures var s := st.pool.reg[job.key];
            && s in st.pool.stdout
            && var after := Onward(cfg, st, [Begin(t, job), Resume(t, Go)] +
                                            (Asking(t, id) + Answering(t, s, id, reply, |st.pool.stdout[s]|)));
            after.Some? &&
            CalledFound(st, after.value, t, s, if reply.ResultReply? then Result(reply.payload) else Failed)
  {
    var s := st.pool.reg[job.key];
    var find := [Begin(t, job), Resume(t, Go)];
    ProcessIsFound(cfg, st, t, job);
    ReachableOnward(cfg, st, find);
    var found := Onward(cfg, st, find).value;
    RequestIsServed(cfg, found, t, s, id, reply);
    var rest := Asking(t, id) + Answering(t, s, id, reply, |st.pool.stdout[s]|);
    FoundIsCalled(st, found, Onward(cfg, found, rest).value, t, job, s, id,
                  if reply.ResultReply? then Result(reply.payload) else Failed);
    OnwardSum(cfg, st, find, rest);
  }

  lemma LockedExists(cfg: Config, st: State, s: Sid)
    requires Reachable(cfg, st) && s in st.pool.locks
    ensures s in st.pool.sessions
  {
    ReachableInv(cfg, st);
    assert TaskOk(st.pool.reg, st.pool.sessions, st.pool.ready, st.tasks[st.pool.locks[s]]);
  }

  /** The call has returned and left behind nothing but its new process, registered under its key. */
  predicate CalledNew(st: State, after: State, t: Tid, job: Job, s: Sid, outcome: Outcome)
    requires job.Rpc?
  {
    && t in after.tasks && after.tasks == st.tasks[t := after.tasks[t]] && after.tasks[t].at.Done?
    && after.tasks[t].spawned == 1 && after.tasks[t].outcome == outcome
    && after.pool.reg == st.pool.reg[job.key := s] && after.pool.regLock.None? && after.pool.locks == st.pool.locks
    && after.pool.sessions == st.pool.sessions[s := Session(job.key, job.spec)]
    && after.pool.alive == st.pool.alive + {s} && after.pool.ready == st.pool.ready + {s}
    && after.pool.stdout == st.pool.stdout[s := []] && after.pool.lastUsed == st.pool.lastUsed[s := st.pool.clock + 8]
  }

  lemma NewIsCalled(st: State, open: State, after: State, t: Tid, job: Job, s: Sid, a: ReqId, id: ReqId,
                    outcome: Outcome)
    requires job.Rpc? && t in open.tasks && open.tasks == st.tasks[t := open.tasks[t]]
    requires OpenFor(st.pool, Move(open.pool, open.tasks[t]), job, s, a) && ServedBy(open, after, t, s, id, outcome)
    ensures CalledNew(st, after, t, job, s, outcome)
  {
  }

  /** And for a process that has to be spawned: afterwards it is registered under the key of the call. */
  lemma CallOfNewProcess(cfg: Config, st: State, t: Tid, job: Job, s: Sid, a: ReqId, info: string, id: ReqId,
                         reply: Reply)
    requires Reachable(cfg, st) && t !in st.tasks && job.Rpc? && job.kind.Request? && st.pool.regLock.None?
    requires job.key !in st.pool.reg && (|st.pool.reg| < cfg.maxSessions || st.pool.reg == map[])
    requires !Blank(SpecFingerprint(job.spec).command) && s !in st.pool.sessions
    requires a !in st.pool.seen && id !in st.pool.seen && a != id
    ensures var after := Onward(cfg, st, Opening(t, job, s, a, info) +
                                         (Asking(t, id) + Answering(t, s, id, reply, 0)));
            after.Some? &&
            CalledNew(st, after.value, t, job, s, if reply.ResultReply? then Result(reply.payload) else Failed)
  {
    var open, rest := Opening(t, job, s, a, info), Asking(t, id) + Answering(t, s, id, reply, 0);
    ProcessIsOpened(cfg, st, t, job, s, a, info);
    NewIsServed(cfg, st, open, rest, t, job, s, a, id, reply);
  }

  lemma NewIsServed(cfg: Config, st: State, opening: seq<Action>, rest: seq<Action>, t: Tid, job: Job, s: Sid, a: ReqId,
                    id: ReqId, reply: Reply)
    requires Reachable(cfg, st) && s !in st.pool.sessions && job.Rpc? && job.kind.Request?
    requires Onward(cfg, st, opening).Some? && id !in st.pool.seen && a != id
    requires rest == Asking(t, id) + Answering(t, s, id, reply, 0)
    requires var open := Onward(cfg, st, opening).value;
             && t in open.tasks && open.tasks == st.tasks[t := open.tasks[t]]
             && OpenFor(st.pool, Move(open.pool, open.tasks[t]), job, s, a)
    ensures var after := Onward(cfg, st, opening + rest);
            after.Some? &&
            CalledNew(st, after.value, t, job, s, if reply.ResultReply? then Result(reply.payload) else Failed)
  {
    ReachableOnward(cfg, st, opening);
    if s in st.pool.locks {
      LockedExists(cfg, st, s);
    }
    var open := Onward(cfg, st, opening).value;
    RequestIsServed(cfg, open, t, s, id, reply);
    assert |open.pool.stdout[s]| == 0;
    NewIsCalled(st, open, Onward(cfg, open, rest).value, t, job, s, a, id,
                if reply.ResultReply? then Result(reply.payload) else Failed);
    OnwardSum(cfg, st, opening, rest);
  }

  lemma NoteEnds(cfg: Config, st: State, t: Tid, s: Sid, io: Io)
    requires t in st.tasks && st.tasks[t].job.Rpc? && st.tasks[t].at.Notifying? && st.tasks[t].session == Some(s)
    requires st.tasks[t].held == Some(s)
    ensures Next(cfg, st, Resume(t, io)) ==
            if io.Go? || io.Error? then
              Some(State(st.pool.(locks := st.pool.locks - {s}, clock := st.pool.clock + 1),
                         st.tasks[t := st.tasks[t].(at := Done, held := None,
                                                    outcome := if io.Go? then Sent else Failed)]))
            else None
  {
  }

  lemma WaitFails(cfg: Config, st: State, t: Tid, s: Sid)
    requires Awaits(st, t, s) && st.tasks[t].held == Some(s)
    ensures Next(cfg, st, Resume(t, Error)) ==
            Some(State(st.pool.(locks := st.pool.locks - {s}, clock := st.pool.clock + 1),
                       st.tasks[t := st.tasks[t].(at := Done, held := None, outcome := Failed)]))
  {
  }

  /** A notification is sent unless its write fails, and an initialisation needs no message at all. */
  lemma NoteIsSent(cfg: Config, st: State, t: Tid, s: Sid, id: ReqId, io: Io)
    requires Ready(st, t, s, id) && st.tasks[t].job.kind.Notify?
    ensures var after := Onward(cfg, st, Asking(t, id) + [Resume(t, io)]);
            && (after.Some? <==> io.Go? || io.Error?)
            && (after.Some? ==>
                  && after.value.tasks == st.tasks[t := st.tasks[t].(at := Done, held := None,
                                                                   outcome := if io.Go? then Sent else Failed)]
                  && after.value.pool.locks == st.pool.locks && after.value.pool.reg == st.pool.reg
                  && after.value.pool.alive == st.pool.alive)
  {
    Asks(cfg, st, t, s, id);
    var asked := Onward(cfg, st, Asking(t, id)).value;
    OneMore(cfg, st, Asking(t, id), Resume(t, io));
    NoteEnds(cfg, asked, t, s, io);
  }

  /** A request fails at once when its write or a read fails. */
  lemma RequestFails(cfg: Config, st: State, t: Tid, s: Sid)
    requires Reachable(cfg, st) && Awaits(st, t, s)
    ensures Next(cfg, st, Resume(t, Error)) ==
            Some(State(st.pool.(locks := st.pool.locks - {s}, clock := st.pool.clock + 1),
                       st.tasks[t := st.tasks[t].(at := Done, held := None, outcome := Failed)]))
  {
    ReachableInv(cfg, st);
    assert TaskOk(st.pool.reg, st.pool.sessions, st.pool.ready, st.tasks[t]);
    WaitFails(cfg, st, t, s);
  }
}
