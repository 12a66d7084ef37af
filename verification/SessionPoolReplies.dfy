/** Which reply reaches which request, over whole runs of the session pool. */
module SessionPoolReplies {
  import opened Options
  import opened SessionPool
  import opened SessionPoolSafety

  type Tasks = map<Tid, Task>
  type Output = map<Sid, seq<Line>>

  /** The request a task waits for. */
  function Waiting(task: Task): Option<Req> {
    if task.at.Handshaking? || task.at.Awaiting? then Some(task.req) else None
  }

  predicate HasReq(tasks: Tasks, t: Tid, req: Req) {
    t in tasks && Waiting(tasks[t]) == Some(req)
  }

  predicate HasEntry(output: Output, s: Sid, line: Line) {
    s in output && line in output[s]
  }

  /** Unread lines are from the past and their ids are known. */
  ghost predicate PastLines(output: Output, seen: set<ReqId>, clock: nat) {
    forall s: Sid, line: Line :: HasEntry(output, s, line) ==>
      line.at < clock && (line.body.Message? ==> line.body.id in seen)
  }

  ghost predicate PastRequests(tasks: Tasks, seen: set<ReqId>, clock: nat) {
    forall t: Tid, req: Req :: HasReq(tasks, t, req) ==> req.id in seen && req.sentAt < clock
  }

  /** A line that carries the id of a pending request was printed after that request was sent. */
  ghost predicate Timely(tasks: Tasks, output: Output) {
    forall t: Tid, req: Req, s: Sid, line: Line ::
      HasReq(tasks, t, req) && HasEntry(output, s, line) && Answers(line, req) ==> req.sentAt < line.at
  }

  ghost predicate DistinctRequests(tasks: Tasks) {
    forall t: Tid, u: Tid, req: Req, other: Req :: HasReq(tasks, t, req) && HasReq(tasks, u, other) && t != u ==>
      req.id != other.id
  }

  predicate IsDelivery(log: seq<LogEntry>, i: nat) {
    i < |log| && log[i].Delivered?
  }

  ghost predicate Deliveries(log: seq<LogEntry>, seen: set<ReqId>) {
    && (forall i: nat :: IsDelivery(log, i) ==>
          Answers(log[i].line, log[i].req) && log[i].req.sentAt < log[i].line.at && log[i].req.id in seen)
    && (forall i: nat, j: nat :: IsDelivery(log, i) && IsDelivery(log, j) && i != j ==> log[i].req.id != log[j].req.id)
  }

  ghost predicate Unanswered(tasks: Tasks, log: seq<LogEntry>) {
    forall t: Tid, req: Req, i: nat :: HasReq(tasks, t, req) && IsDelivery(log, i) ==> log[i].req.id != req.id
  }

  ghost predicate Correlated(tasks: Tasks, output: Output, seen: set<ReqId>, log: seq<LogEntry>, clock: nat) {
    && PastLines(output, seen, clock) && PastRequests(tasks, seen, clock) && Timely(tasks, output)
    && DistinctRequests(tasks) && Deliveries(log, seen) && Unanswered(tasks, log)
  }

  // ---------- The four things that can happen ----------

  /** A task moves on without a new request. */
  lemma TaskMoves(tasks: Tasks, t: Tid, now: Task, output: Output, seen: set<ReqId>, log: seq<LogEntry>, clock: nat)
    requires Correlated(tasks, output, seen, log, clock)
    requires Waiting(now).None? || (t in tasks && Waiting(now) == Waiting(tasks[t]))
    ensures Correlated(tasks[t := now], output, seen, log, clock + 1)
  {
    var after := tasks[t := now];
    assert forall u: Tid, req: Req :: HasReq(after, u, req) ==> HasReq(tasks, u, req);
  }

  /** A task sends a request under an id that nobody has used. */
  lemma RequestSent(tasks: Tasks, t: Tid, now: Task, output: Output, seen: set<ReqId>, log: seq<LogEntry>, clock: nat,
                    id: ReqId)
    requires Correlated(tasks, output, seen, log, clock)
    requires Waiting(now) == Some(Req(id, clock)) && id !in seen
    ensures Correlated(tasks[t := now], output, seen + {id}, log, clock + 1)
  {
    var after := tasks[t := now];
    assert forall u: Tid, req: Req :: HasReq(after, u, req) ==>
           (u == t && req == Req(id, clock)) || (u != t && HasReq(tasks, u, req));
  }

  lemma LinePrinted(tasks: Tasks, output: Output, seen: set<ReqId>, log: seq<LogEntry>, clock: nat, s: Sid, body: Body)
    requires Correlated(tasks, output, seen, log, clock) && s in output
    ensures Correlated(tasks, output[s := output[s] + [Line(clock, body)]],
                       if body.Message? then seen + {body.id} else seen, log, clock + 1)
  {
    var after := output[s := output[s] + [Line(clock, body)]];
    forall q: Sid, line: Line | HasEntry(after, q, line) ensures HasEntry(output, q, line) ||
      line == Line(clock, body) {
    }
  }

  /** A line is read; when it answers the request, the task stops waiting and the delivery is logged. */
  lemma LineRead(tasks: Tasks, output: Output, seen: set<ReqId>, log: seq<LogEntry>, clock: nat, s: Sid, t: Tid,
                 req: Req)
    requires Correlated(tasks, output, seen, log, clock) && s in output && output[s] != [] && HasReq(tasks, t, req)
    ensures Correlated(tasks, output[s := output[s][1..]], seen, log, clock)
    ensures Answers(output[s][0], req) ==> Deliveries(log + [Delivered(t, s, req, output[s][0])], seen)
  {
    var after := output[s := output[s][1..]];
    assert forall q: Sid, line: Line :: HasEntry(after, q, line) ==> HasEntry(output, q, line);
    assert HasEntry(output, s, output[s][0]);
  }

  /** The answer ends the wait and is logged. */
  lemma ReplyTaken(tasks: Tasks, output: Output, seen: set<ReqId>, log: seq<LogEntry>, clock: nat, s: Sid, t: Tid,
                   req: Req, now: Task)
    requires Correlated(tasks, output, seen, log, clock) && s in output && output[s] != [] && HasReq(tasks, t, req)
    requires Answers(output[s][0], req) && Waiting(now).None?
    ensures Correlated(tasks[t := now], output[s := output[s][1..]], seen, log + [Delivered(t, s, req, output[s][0])],
                       clock + 1)
  {
    LineRead(tasks, output, seen, log, clock, s, t, req);
    var after := tasks[t := now];
    assert forall u: Tid, other: Req :: HasReq(after, u, other) ==> u != t && HasReq(tasks, u, other);
    var longer := log + [Delivered(t, s, req, output[s][0])];
    assert forall i: nat :: IsDelivery(longer, i) ==> IsDelivery(log, i) || i == |log|;
  }

  lemma LogExtends(tasks: Tasks, output: Output, seen: set<ReqId>, log: seq<LogEntry>, clock: nat, entry: LogEntry)
    requires Correlated(tasks, output, seen, log, clock) && !entry.Delivered?
    ensures Correlated(tasks, output, seen, log + [entry], clock)
  {
    assert forall i: nat :: IsDelivery(log + [entry], i) ==> IsDelivery(log, i);
  }

  // ---------- Writes follow the handshake ----------

  function OpenedIn(log: seq<LogEntry>): set<Sid> {
    set i | 0 <= i < |log| && log[i].Opened? :: log[i].s
  }

  /** A process gets handshake messages before it is opened to calls and only calls afterwards. */
  ghost predicate HandshakeFirst(log: seq<LogEntry>) {
    forall i :: 0 <= i < |log| && log[i].Wrote? ==> (log[i].handshake <==> log[i].s !in OpenedIn(log[..i]))
  }

  lemma HandshakeFirstExtends(log: seq<LogEntry>, entry: LogEntry)
    requires HandshakeFirst(log) && (entry.Wrote? ==> (entry.handshake <==> entry.s !in OpenedIn(log)))
    ensures HandshakeFirst(log + [entry])
    ensures OpenedIn(log + [entry]) == OpenedIn(log) + if entry.Opened? then {entry.s} else {}
  {
    var longer := log + [entry];
    assert longer[..|log|] == log;
    forall i | 0 <= i < |log| ensures longer[..i] == log[..i] {
    }
    forall s | s in OpenedIn(log) ensures s in OpenedIn(longer) {
      var i :| 0 <= i < |log| && log[i].Opened? && log[i].s == s;
      assert longer[i] == log[i];
    }
    assert longer[|log|] == entry;
  }

  // ---------- Results ----------

  /** Every write and every reply belongs to a call that the process was spawned for. */
  ghost predicate Served(log: seq<LogEntry>, tasks: Tasks, sessions: Sessions) {
    forall i :: 0 <= i < |log| ==> log[i].t in tasks && Fits(sessions, log[i].s, tasks[log[i].t].job)
  }

  /** Entry `j` is the call `t` sending the request to the process. */
  predicate Written(log: seq<LogEntry>, j: nat, t: Tid, s: Sid, handshake: bool, req: Req) {
    j < |log| && log[j] == Wrote(t, s, handshake, Some(req))
  }

  /** Whoever waits for a reply has written the request to the process it reads from. */
  ghost predicate Asking(tasks: Tasks, log: seq<LogEntry>) {
    forall t :: t in tasks && Waiting(tasks[t]).Some? ==> Asked(log, t, tasks[t])
  }

  ghost predicate Asked(log: seq<LogEntry>, t: Tid, task: Task) {
    Reading(task).Some? && exists j: nat :: Written(log, j, t, Reading(task).value, task.at.Handshaking?, task.req)
  }

  /** The request that was answered in entry `i` had been written before, by the same call to the same process. */
  ghost predicate WrittenBefore(log: seq<LogEntry>, i: nat, handshake: bool)
    requires IsDelivery(log, i)
  {
    exists j: nat :: j < i && Written(log, j, log[i].t, log[i].s, handshake, log[i].req)
  }

  ghost predicate Answered(log: seq<LogEntry>) {
    forall i: nat :: IsDelivery(log, i) ==> WrittenBefore(log, i, true) || WrittenBefore(log, i, false)
  }

  lemma WrittenStays(log: seq<LogEntry>, more: seq<LogEntry>, i: nat, handshake: bool)
    requires IsDelivery(log, i) && WrittenBefore(log, i, handshake)
    ensures WrittenBefore(log + more, i, handshake)
  {
    var j: nat :| j < i && Written(log, j, log[i].t, log[i].s, handshake, log[i].req);
    var longer := log + more;
    assert longer[i] == log[i] && longer[j] == log[j];
    assert Written(longer, j, longer[i].t, longer[i].s, handshake, longer[i].req);
  }

  lemma AskingExtends(tasks: Tasks, log: seq<LogEntry>, more: seq<LogEntry>, t: Tid, now: Task)
    requires Asking(tasks, log) && (Waiting(now).Some? ==> Asked(log + more, t, now))
    ensures Asking(tasks[t := now], log + more)
  {
    forall u | u in tasks && u != t && Waiting(tasks[u]).Some? ensures Asked(log + more, u, tasks[u]) {
      assert Asked(log, u, tasks[u]);
      var j: nat :| Written(log, j, u, Reading(tasks[u]).value, tasks[u].at.Handshaking?, tasks[u].req);
      assert Written(log + more, j, u, Reading(tasks[u]).value, tasks[u].at.Handshaking?, tasks[u].req);
    }
  }

  lemma AnsweredExtends(log: seq<LogEntry>, entry: LogEntry)
    requires Answered(log)
    requires entry.Delivered? ==> exists j: nat, handshake :: Written(log, j, entry.t, entry.s, handshake, entry.req)
    ensures Answered(log + [entry])
  {
    var longer := log + [entry];
    forall i: nat | IsDelivery(longer, i) ensures WrittenBefore(longer, i, true) || WrittenBefore(longer, i, false) {
      if i < |log| {
        assert IsDelivery(log, i);
        if WrittenBefore(log, i, true) {
          WrittenStays(log, [entry], i, true);
        } else {
          WrittenStays(log, [entry], i, false);
        }
      } else {
        var j: nat, handshake :| Written(log, j, entry.t, entry.s, handshake, entry.req);
        assert Written(longer, j, entry.t, entry.s, handshake, entry.req);
      }
    }
  }

  /** Entry `i` delivers the reply to this very request, which the call had written for itself and not as
      a handshake. */
  ghost predicate Explains(log: seq<LogEntry>, i: nat, t: Tid, req: Req, outcome: Outcome) {
    && IsDelivery(log, i) && log[i].t == t && log[i].req == req && Answers(log[i].line, req)
    && Unwrap(log[i].line.body.reply) == outcome && WrittenBefore(log, i, false)
  }

  /** A result handed back is the content of a reply delivered to that very call. */
  ghost predicate Results(tasks: Tasks, log: seq<LogEntry>) {
    forall t :: t in tasks && tasks[t].outcome.Result? ==>
      tasks[t].at.Done? && exists i: nat :: Explains(log, i, t, tasks[t].req, tasks[t].outcome)
  }

  lemma ResultsExtend(tasks: Tasks, log: seq<LogEntry>, more: seq<LogEntry>, t: Tid, now: Task)
    requires Results(tasks, log)
    requires now.outcome.Result? ==> now.at.Done?
    requires now.outcome.Result? ==>
               exists i: nat :: Explains(log + more, i, t, now.req, now.outcome)
    ensures Results(tasks[t := now], log + more)
  {
    var after := tasks[t := now];
    forall u | u in after && after[u].outcome.Result?
      ensures after[u].at.Done? && exists i: nat :: Explains(log + more, i, u, after[u].req, after[u].outcome)
    {
      if u != t {
        var i: nat :| Explains(log, i, u, tasks[u].req, tasks[u].outcome);
        WrittenStays(log, more, i, false);
        assert Explains(log + more, i, u, after[u].req, after[u].outcome);
      }
    }
  }

  ghost predicate History(pool: Pool, tasks: Tasks) {
    && Correlated(tasks, pool.stdout, pool.seen, pool.log, pool.clock)
    && HandshakeFirst(pool.log) && OpenedIn(pool.log) == pool.ready
    && Served(pool.log, tasks, pool.sessions) && Results(tasks, pool.log)
    && Asking(tasks, pool.log) && Answered(pool.log)
  }

  // ---------- Every step keeps the history ----------

  predicate Idle(task: Task, now: Task) {
    now.job == task.job && Waiting(now).None? && (now.outcome.Result? ==> task.outcome.Result?)
  }

  lemma UntracedIdle(cfg: Config, pool: Pool, t: Tid, task: Task, io: Io)
    requires Step(cfg, pool, t, task, io).Some? && !Traces(task, io)
    ensures Idle(task, Step(cfg, pool, t, task, io).value.task)
  {
    if task.job.Rpc? {
      if task.session.Some? && UseStep(pool, t, task, task.session.value, io).Some? {
        UntracedUseIdle(pool, t, task, task.session.value, io);
      }
      if CreateStep(cfg, pool, t, task, io).Some? {
        UntracedCreateIdle(cfg, pool, t, task, io);
      }
    }
  }

  lemma LookUpIdle(pool: Pool, t: Tid, task: Task)
    requires task.job.Rpc? && task.at.WantRegistry?
    ensures Idle(task, LookUp(pool, t, task).task)
  {
  }

  lemma FindIdle(cfg: Config, pool: Pool, t: Tid, task: Task, io: Io)
    requires task.job.Rpc? && !NeedsRoom(task) && CreateStep(cfg, pool, t, task, io).Some?
    ensures Idle(task, CreateStep(cfg, pool, t, task, io).value.task)
  {
    if task.at.WantRegistry? {
      LookUpIdle(pool, t, task);
    }
  }

  lemma SpawnIdle(cfg: Config, pool: Pool, t: Tid, task: Task, io: Io)
    requires task.job.Rpc? && NeedsRoom(task) && CreateStep(cfg, pool, t, task, io).Some? && !Traces(task, io)
    ensures Idle(task, CreateStep(cfg, pool, t, task, io).value.task)
  {
  }

  lemma UntracedCreateIdle(cfg: Config, pool: Pool, t: Tid, task: Task, io: Io)
    requires task.job.Rpc? && CreateStep(cfg, pool, t, task, io).Some? && !Traces(task, io)
    ensures Idle(task, CreateStep(cfg, pool, t, task, io).value.task)
  {
    if NeedsRoom(task) {
      SpawnIdle(cfg, pool, t, task, io);
    } else {
      FindIdle(cfg, pool, t, task, io);
    }
  }

  lemma UntracedUseIdle(pool: Pool, t: Tid, task: Task, s: Sid, io: Io)
    requires task.job.Rpc? && UseStep(pool, t, task, s, io).Some? && !Traces(task, io)
    ensures Idle(task, UseStep(pool, t, task, s, io).value.task)
  {
  }

  lemma ServedExtends(log: seq<LogEntry>, more: seq<LogEntry>, tasks: Tasks, sessions: Sessions, t: Tid, now: Task,
                      grown: Sessions)
    requires Served(log, tasks, sessions) && (t in tasks ==> now.job == tasks[t].job)
    requires forall s :: s in sessions ==> s in grown && grown[s] == sessions[s]
    requires forall e :: e in more ==> e.t == t && Fits(grown, e.s, now.job)
    ensures Served(log + more, tasks[t := now], grown)
  {
    var longer := log + more;
    forall i | 0 <= i < |longer| ensures longer[i].t in tasks[t := now] &&
      Fits(grown, longer[i].s, tasks[t := now][longer[i].t].job) {
      if i < |log| {
        assert longer[i] == log[i];
      } else {
        assert longer[i] in more;
      }
    }
  }

  lemma QuietHistory(pool: Pool, after: Pool, tasks: Tasks, t: Tid, now: Task)
    requires History(pool, tasks) && SameHistory(pool, after) && Waiting(now).None?
    requires t in tasks ==> now.job == tasks[t].job
    requires !now.outcome.Result?
    ensures History(after.(clock := pool.clock + 1), tasks[t := now])
  {
    TaskMoves(tasks, t, now, pool.stdout, pool.seen, pool.log, pool.clock);
    ServedExtends(pool.log, [], tasks, pool.sessions, t, now, pool.sessions);
    ResultsExtend(tasks, pool.log, [], t, now);
    AskingExtends(tasks, pool.log, [], t, now);
    assert pool.log + [] == pool.log;
  }

  lemma SpawnHistory(pool: Pool, tasks: Tasks, t: Tid, s: Sid, id: ReqId)
    requires History(pool, tasks) && Stocked(pool) && t in tasks && tasks[t].at.Spawning? && tasks[t].job.Rpc?
    requires s !in pool.sessions && id !in pool.seen && pool.ready <= pool.sessions.Keys && !tasks[t].outcome.Result?
    ensures var move := StartChild(pool, t, tasks[t], s, id);
            History(move.pool.(clock := pool.clock + 1), tasks[t := move.task])
  {
    var move := StartChild(pool, t, tasks[t], s, id);
    var entry := Wrote(t, s, true, Some(Req(id, pool.clock)));
    PipeAdded(tasks, pool.stdout, pool.seen, pool.log, pool.clock, s);
    LogExtends(tasks, pool.stdout[s := []], pool.seen, pool.log, pool.clock, entry);
    RequestSent(tasks, t, move.task, pool.stdout[s := []], pool.seen, pool.log + [entry], pool.clock, id);
    HandshakeFirstExtends(pool.log, entry);
    ServedExtends(pool.log, [entry], tasks, pool.sessions, t, move.task, move.pool.sessions);
    ResultsExtend(tasks, pool.log, [entry], t, move.task);
    assert Written(pool.log + [entry], |pool.log|, t, s, true, move.task.req);
    AskingExtends(tasks, pool.log, [entry], t, move.task);
    AnsweredExtends(pool.log, entry);
  }

  lemma PipeAdded(tasks: Tasks, output: Output, seen: set<ReqId>, log: seq<LogEntry>, clock: nat, s: Sid)
    requires Correlated(tasks, output, seen, log, clock) && s !in output
    ensures Correlated(tasks, output[s := []], seen, log, clock)
  {
    var after := output[s := []];
    assert forall q: Sid, line: Line :: HasEntry(after, q, line) ==> HasEntry(output, q, line);
  }

  lemma OpenHistory(pool: Pool, tasks: Tasks, t: Tid, s: Sid)
    requires History(pool, tasks) && t in tasks && tasks[t].at.Announcing? && tasks[t].job.Rpc?
    requires Fits(pool.sessions, s, tasks[t].job) && !tasks[t].outcome.Result?
    ensures var move := Register(pool, t, tasks[t], s);
            History(move.pool.(clock := pool.clock + 1), tasks[t := move.task])
  {
    var move := Register(pool, t, tasks[t], s);
    var entry := Opened(t, s);
    LogExtends(tasks, pool.stdout, pool.seen, pool.log, pool.clock, entry);
    TaskMoves(tasks, t, move.task, pool.stdout, pool.seen, pool.log + [entry], pool.clock);
    HandshakeFirstExtends(pool.log, entry);
    ServedExtends(pool.log, [entry], tasks, pool.sessions, t, move.task, pool.sessions);
    ResultsExtend(tasks, pool.log, [entry], t, move.task);
    AskingExtends(tasks, pool.log, [entry], t, move.task);
    AnsweredExtends(pool.log, entry);
  }

  lemma RequestHistory(pool: Pool, tasks: Tasks, t: Tid, s: Sid, id: ReqId)
    requires History(pool, tasks) && t in tasks && tasks[t].at.WantPipes? && tasks[t].job.Rpc? && id !in pool.seen
    requires tasks[t].job.kind.Request? && s in pool.ready && Fits(pool.sessions, s, tasks[t].job) &&
             !tasks[t].outcome.Result?
    requires tasks[t].session == Some(s)
    ensures var move := UsePipes(pool, t, tasks[t], s, id);
            History(move.pool.(clock := pool.clock + 1), tasks[t := move.task])
  {
    var move := UsePipes(pool, t, tasks[t], s, id);
    var entry := Wrote(t, s, false, Some(Req(id, pool.clock)));
    LogExtends(tasks, pool.stdout, pool.seen, pool.log, pool.clock, entry);
    RequestSent(tasks, t, move.task, pool.stdout, pool.seen, pool.log + [entry], pool.clock, id);
    HandshakeFirstExtends(pool.log, entry);
    ServedExtends(pool.log, [entry], tasks, pool.sessions, t, move.task, pool.sessions);
    ResultsExtend(tasks, pool.log, [entry], t, move.task);
    assert Written(pool.log + [entry], |pool.log|, t, s, false, move.task.req);
    AskingExtends(tasks, pool.log, [entry], t, move.task);
    AnsweredExtends(pool.log, entry);
  }

  lemma NotifyHistory(pool: Pool, tasks: Tasks, t: Tid, s: Sid, id: ReqId)
    requires History(pool, tasks) && t in tasks && tasks[t].at.WantPipes? && tasks[t].job.Rpc?
    requires tasks[t].job.kind.Notify? && s in pool.ready && Fits(pool.sessions, s, tasks[t].job) &&
             !tasks[t].outcome.Result?
    ensures var move := UsePipes(pool, t, tasks[t], s, id);
            History(move.pool.(clock := pool.clock + 1), tasks[t := move.task])
  {
    var move := UsePipes(pool, t, tasks[t], s, id);
    var entry := Wrote(t, s, false, None);
    LogExtends(tasks, pool.stdout, pool.seen, pool.log, pool.clock, entry);
    TaskMoves(tasks, t, move.task, pool.stdout, pool.seen, pool.log + [entry], pool.clock);
    HandshakeFirstExtends(pool.log, entry);
    ServedExtends(pool.log, [entry], tasks, pool.sessions, t, move.task, pool.sessions);
    ResultsExtend(tasks, pool.log, [entry], t, move.task);
    AskingExtends(tasks, pool.log, [entry], t, move.task);
    AnsweredExtends(pool.log, entry);
  }

  lemma UseHistory(pool: Pool, tasks: Tasks, t: Tid, s: Sid, id: ReqId)
    requires History(pool, tasks) && t in tasks && tasks[t].at.WantPipes? && tasks[t].job.Rpc? && id !in pool.seen
    requires s in pool.ready && Fits(pool.sessions, s, tasks[t].job) && !tasks[t].outcome.Result?
    requires tasks[t].session == Some(s)
    ensures var move := UsePipes(pool, t, tasks[t], s, id);
            History(move.pool.(clock := pool.clock + 1), tasks[t := move.task])
  {
    match tasks[t].job.kind
    case Initialize =>
      var move := UsePipes(pool, t, tasks[t], s, id);
      QuietHistory(move.pool, move.pool, tasks, t, move.task);
    case Notify => NotifyHistory(pool, tasks, t, s, id);
    case Request => RequestHistory(pool, tasks, t, s, id);
  }

  /** What a reading task becomes. */
  function AfterLine(pool: Pool, t: Tid, task: Task, s: Sid): Move
    requires HasLine(pool, s)
  {
    if task.at.Handshaking? then ReadHandshake(pool, t, task, s) else ReadReply(pool, t, task, s)
  }

  lemma SkipHistory(pool: Pool, tasks: Tasks, t: Tid, s: Sid)
    requires History(pool, tasks) && t in tasks && Waiting(tasks[t]).Some? && HasLine(pool, s)
             && !Answers(pool.stdout[s][0], tasks[t].req)
    ensures var move := AfterLine(pool, t, tasks[t], s);
            History(move.pool.(clock := pool.clock + 1), tasks[t := move.task])
  {
    LineRead(tasks, pool.stdout, pool.seen, pool.log, pool.clock, s, t, tasks[t].req);
    TaskMoves(tasks, t, tasks[t], pool.stdout[s := pool.stdout[s][1..]], pool.seen, pool.log, pool.clock);
    assert tasks[t := tasks[t]] == tasks;
  }

  /** A reply that is taken answers a request written before. */
  lemma DeliveryWasAsked(tasks: Tasks, log: seq<LogEntry>, taken: LogEntry)
    requires taken.Delivered? && Asking(tasks, log) && Answered(log) && taken.t in tasks &&
             Waiting(tasks[taken.t]).Some?
    requires Reading(tasks[taken.t]) == Some(taken.s) && tasks[taken.t].req == taken.req
    ensures Answered(log + [taken]) && WrittenBefore(log + [taken], |log|, tasks[taken.t].at.Handshaking?)
  {
    var handshake := tasks[taken.t].at.Handshaking?;
    assert Asked(log, taken.t, tasks[taken.t]);
    var j: nat :| Written(log, j, taken.t, taken.s, handshake, taken.req);
    AnsweredExtends(log, taken);
    assert Written(log + [taken], j, taken.t, taken.s, handshake, taken.req);
  }

  /** The answer is taken and the task stops waiting; only a request that is no handshake ends with a result. */
  lemma TakenHistory(pool: Pool, tasks: Tasks, t: Tid, s: Sid, now: Task)
    requires History(pool, tasks) && t in tasks && Waiting(tasks[t]).Some? && HasLine(pool, s)
             && Answers(pool.stdout[s][0], tasks[t].req) && Reading(tasks[t]) == Some(s)
    requires Fits(pool.sessions, s, tasks[t].job) && now.job == tasks[t].job && now.req == tasks[t].req &&
             Waiting(now).None?
    requires now.outcome.Result? ==>
               now.at.Done? && !tasks[t].at.Handshaking? && Unwrap(pool.stdout[s][0].body.reply) == now.outcome
    ensures History(TakeLine(pool, t, tasks[t], s).(clock := pool.clock + 1), tasks[t := now])
  {
    var task := tasks[t];
    var taken := Delivered(t, s, task.req, pool.stdout[s][0]);
    ReplyTaken(tasks, pool.stdout, pool.seen, pool.log, pool.clock, s, t, task.req, now);
    HandshakeFirstExtends(pool.log, taken);
    ServedExtends(pool.log, [taken], tasks, pool.sessions, t, now, pool.sessions);
    DeliveryWasAsked(tasks, pool.log, taken);
    if now.outcome.Result? {
      assert Explains(pool.log + [taken], |pool.log|, t, task.req, now.outcome);
    }
    ResultsExtend(tasks, pool.log, [taken], t, now);
    AskingExtends(tasks, pool.log, [taken], t, now);
  }

  /** The initialized notification is written. */
  lemma AnnouncedHistory(pool: Pool, tasks: Tasks, t: Tid, s: Sid)
    requires History(pool, tasks) && t in tasks && Waiting(tasks[t]).None? && !tasks[t].outcome.Result?
    requires Fits(pool.sessions, s, tasks[t].job) && s !in pool.ready
    ensures History(pool.(log := pool.log + [Wrote(t, s, true, None)]), tasks)
  {
    var entry := Wrote(t, s, true, None);
    LogExtends(tasks, pool.stdout, pool.seen, pool.log, pool.clock, entry);
    HandshakeFirstExtends(pool.log, entry);
    ServedExtends(pool.log, [entry], tasks, pool.sessions, t, tasks[t], pool.sessions);
    ResultsExtend(tasks, pool.log, [entry], t, tasks[t]);
    AskingExtends(tasks, pool.log, [entry], t, tasks[t]);
    AnsweredExtends(pool.log, entry);
    assert tasks[t := tasks[t]] == tasks;
  }

  lemma TakeHistory(pool: Pool, tasks: Tasks, t: Tid, s: Sid)
    requires History(pool, tasks) && t in tasks && Waiting(tasks[t]).Some? && HasLine(pool, s)
             && Answers(pool.stdout[s][0], tasks[t].req) && Reading(tasks[t]) == Some(s)
    requires Fits(pool.sessions, s, tasks[t].job) && !tasks[t].outcome.Result? &&
             (tasks[t].at.Handshaking? ==> s !in pool.ready)
    ensures var move := AfterLine(pool, t, tasks[t], s);
            History(move.pool.(clock := pool.clock + 1), tasks[t := move.task])
  {
    var now := AfterLine(pool, t, tasks[t], s).task;
    TakenHistory(pool, tasks, t, s, now);
    if now.at.Announcing? {
      AnnouncedHistory(TakeLine(pool, t, tasks[t], s).(clock := pool.clock + 1), tasks[t := now], t, s);
    }
  }

  lemma UntracedKeepsHistory(cfg: Config, st: State, t: Tid, io: Io)
    requires History(st.pool, st.tasks) && t in st.tasks
    requires Step(cfg, st.pool, t, st.tasks[t], io).Some? && !Traces(st.tasks[t], io)
    ensures var move := Step(cfg, st.pool, t, st.tasks[t], io).value;
            History(move.pool.(clock := st.pool.clock + 1), st.tasks[t := move.task])
  {
    var move := Step(cfg, st.pool, t, st.tasks[t], io).value;
    UntracedStep(cfg, st.pool, t, st.tasks[t], io);
    UntracedIdle(cfg, st.pool, t, st.tasks[t], io);
    assert !st.tasks[t].outcome.Result?;
    QuietHistory(st.pool, move.pool, st.tasks, t, move.task);
  }

  lemma ReadKeepsHistory(cfg: Config, st: State, t: Tid, io: Io)
    requires History(st.pool, st.tasks) && t in st.tasks && st.tasks[t].job.Rpc? && io.Read?
    requires Step(cfg, st.pool, t, st.tasks[t], io).Some?
             && TaskOk(st.pool.reg, st.pool.sessions, st.pool.ready, st.tasks[t])
    ensures var move := Step(cfg, st.pool, t, st.tasks[t], io).value;
            History(move.pool.(clock := st.pool.clock + 1), st.tasks[t := move.task])
  {
    var task := st.tasks[t];
    ReadingStep(cfg, st.pool, t, task, io);
    var s := Reading(task).value;
    if Answers(st.pool.stdout[s][0], task.req) {
      TakeHistory(st.pool, st.tasks, t, s);
    } else {
      SkipHistory(st.pool, st.tasks, t, s);
    }
  }

  ghost predicate HistoryAfter(cfg: Config, st: State, t: Tid, io: Io)
    requires t in st.tasks && Step(cfg, st.pool, t, st.tasks[t], io).Some?
  {
    var move := Step(cfg, st.pool, t, st.tasks[t], io).value;
    History(move.pool.(clock := st.pool.clock + 1), st.tasks[t := move.task])
  }

  lemma SpawningKeepsHistory(cfg: Config, st: State, t: Tid, io: Io)
    requires Inv(cfg, st) && Stocked(st.pool) && History(st.pool, st.tasks) && t in st.tasks
    requires st.tasks[t].job.Rpc? && st.tasks[t].at.Spawning? && io.Created? &&
             Step(cfg, st.pool, t, st.tasks[t], io).Some?
    ensures HistoryAfter(cfg, st, t, io)
  {
    SpawningStep(cfg, st.pool, t, st.tasks[t], io);
    SpawnHistory(st.pool, st.tasks, t, io.s, io.id);
  }

  lemma AnnouncingKeepsHistory(cfg: Config, st: State, t: Tid, io: Io)
    requires History(st.pool, st.tasks) && t in st.tasks
             && TaskOk(st.pool.reg, st.pool.sessions, st.pool.ready, st.tasks[t])
    requires st.tasks[t].job.Rpc? && st.tasks[t].at.Announcing? && io.Go? &&
             Step(cfg, st.pool, t, st.tasks[t], io).Some?
    ensures HistoryAfter(cfg, st, t, io)
  {
    AnnouncingStep(cfg, st.pool, t, st.tasks[t], io);
    OpenHistory(st.pool, st.tasks, t, st.tasks[t].child.value);
  }

  lemma PipesKeepHistory(cfg: Config, st: State, t: Tid, io: Io)
    requires History(st.pool, st.tasks) && t in st.tasks
             && TaskOk(st.pool.reg, st.pool.sessions, st.pool.ready, st.tasks[t])
    requires st.tasks[t].job.Rpc? && st.tasks[t].at.WantPipes? && Step(cfg, st.pool, t, st.tasks[t], io).Some?
    ensures HistoryAfter(cfg, st, t, io)
  {
    WantPipesStep(cfg, st.pool, t, st.tasks[t], io);
    UseHistory(st.pool, st.tasks, t, st.tasks[t].session.value, io.id);
  }

  lemma StepKeepsHistory(cfg: Config, st: State, t: Tid, io: Io)
    requires Inv(cfg, st) && Stocked(st.pool) && History(st.pool, st.tasks)
    requires t in st.tasks && Step(cfg, st.pool, t, st.tasks[t], io).Some?
    ensures HistoryAfter(cfg, st, t, io)
  {
    var task := st.tasks[t];
    assert TaskOk(st.pool.reg, st.pool.sessions, st.pool.ready, task);
    if !Traces(task, io) {
      UntracedKeepsHistory(cfg, st, t, io);
    } else if io.Read? {
      ReadKeepsHistory(cfg, st, t, io);
    } else if task.at.Spawning? {
      SpawningKeepsHistory(cfg, st, t, io);
    } else if task.at.Announcing? {
      AnnouncingKeepsHistory(cfg, st, t, io);
    } else {
      PipesKeepHistory(cfg, st, t, io);
    }
  }

  lemma NextKeepsHistory(cfg: Config, st: State, action: Action)
    requires Inv(cfg, st) && Stocked(st.pool) && History(st.pool, st.tasks) && Next(cfg, st, action).Some?
    ensures var after := Next(cfg, st, action).value;
            History(after.pool, after.tasks)
  {
    match action
    case Begin(t, job) => QuietHistory(st.pool, st.pool, st.tasks, t, FirstTask(job, st.pool.clock));
    case Die(s) => ClockHistory(st.pool, st.pool.(alive := st.pool.alive - {s}), st.tasks);
    case Print(s, body) => LinePrinted(st.tasks, st.pool.stdout, st.pool.seen, st.pool.log, st.pool.clock, s, body);
    case Resume(t, io) => StepKeepsHistory(cfg, st, t, io);
  }

  lemma ClockHistory(pool: Pool, after: Pool, tasks: Tasks)
    requires History(pool, tasks) && SameHistory(pool, after)
    ensures History(after.(clock := pool.clock + 1), tasks)
  {
  }

  lemma {:induction false} RunKeepsHistory(cfg: Config, actions: seq<Action>)
    requires Run(cfg, actions).Some?
    ensures var st := Run(cfg, actions).value; History(st.pool, st.tasks)
  {
    if actions != [] {
      RunKeepsHistory(cfg, actions[..|actions| - 1]);
      RunKeeps(cfg, actions[..|actions| - 1]);
      NextKeepsHistory(cfg, Run(cfg, actions[..|actions| - 1]).value, actions[|actions| - 1]);
    }
  }
}
