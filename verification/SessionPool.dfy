/**
  The MCP session pool as a transition system.  A task runs one call of `rpc`,
  `reap_idle` or `shutdown`; control moves between tasks only where the source
  awaits, so every `Label` below names one await and every step runs the code up
  to the next one.  Processes may die, and may print anything, at any time.
 */
module SessionPool {
  import opened Options
  import opened Strings

  type Key = string
  type Tid = nat
  type Sid = nat
  type ReqId = nat

  // ---------- Spawn specs ----------

  datatype SpawnSpec = SpawnSpec(command: Option<string>, args: Option<seq<string>>, env: Option<map<string, string>>)
  datatype Fingerprint = Fingerprint(command: string, args: seq<string>, env: map<string, string>)

  /** The content of the JSON text that identifies a spawn spec. */
  function SpecFingerprint(spec: SpawnSpec): Fingerprint {
    Fingerprint(if spec.command.Some? then spec.command.value else "",
                if spec.args.Some? then spec.args.value else [],
                if spec.env.Some? then spec.env.value else map[])
  }

  // ---------- State ----------

  datatype Config = Config(maxSessions: nat, ttl: nat)

  datatype Reply = ErrorReply | InvalidReply | ResultReply(payload: string)
  datatype Body = Noise | Message(id: ReqId, reply: Reply)
  /** A line of a process's standard output and the moment it was printed. */
  datatype Line = Line(at: nat, body: Body)
  datatype Req = Req(id: ReqId, sentAt: nat)

  /** The part of a session that never changes. */
  datatype Session = Session(key: Key, spec: SpawnSpec)

  datatype Kind = Initialize | Notify | Request
  datatype Job = Rpc(key: Key, spec: SpawnSpec, kind: Kind) | ReapIdle | Shutdown
  datatype Outcome = Pending | Info | Sent | Result(payload: string) | Failed | Reaped(count: nat) | Closed

  /** The awaits of the source; a task rests at one of them. */
  datatype Label =
    | WantRegistry | KillingStale | Evicting | KillingVictim | Spawning | Handshaking | Announcing | KillingFailed
    | WantSession | Discarding | KillingDead | WantPipes | Notifying | Awaiting
    | WantReap | WantShutdown | KillingAll | Done

  /**
    A running call: where it is and its local state.  `held` is the session lock it holds, `session` what
    `_get_or_create` returned, `child` the session inside `_spawn`, `req` the request it waits for, `doomed` the
    sessions it must still terminate or is still spawning, `sampled` the clock `reap_idle` read first,
    `spawned` and `killed` how many processes it created and reaped.
   */
  datatype Task = Task(job: Job, at: Label, held: Option<Sid>, session: Option<Sid>, child: Option<Sid>,
                       req: Req, doomed: set<Sid>, sampled: nat, spawned: nat, killed: nat, outcome: Outcome)

  datatype LogEntry =
    | Wrote(t: Tid, s: Sid, handshake: bool, asked: Option<Req>)
    | Opened(t: Tid, s: Sid)
    | Delivered(t: Tid, s: Sid, req: Req, line: Line)

  /**
    `reg` is the `_sessions` dict and `regLock` its lock.  The changing fields of the sessions are kept side by
    side: which processes are `alive`, which finished their handshake (`ready`), who holds which session lock,
    the `last_used` stamps and the lines printed but not yet read.  The rest is history: `seen` holds every id
    sent or printed so far and `order` lists the sessions by their last use, oldest first.
   */
  datatype Pool = Pool(reg: map<Key, Sid>, regLock: Option<Tid>,
                       sessions: map<Sid, Session>, alive: set<Sid>, ready: set<Sid>,
                       locks: map<Sid, Tid>, lastUsed: map<Sid, nat>, stdout: map<Sid, seq<Line>>,
                       clock: nat, seen: set<ReqId>, order: seq<Sid>, log: seq<LogEntry>)

  datatype State = State(pool: Pool, tasks: map<Tid, Task>)

  /** The outcome of a step of one task: the shared pool and the task's own state after it. */
  datatype Move = Move(pool: Pool, task: Task)

  /** What an await came back with. */
  datatype Io =
    | Go
    | Fresh(id: ReqId)
    | Victim(key: Key)
    | Created(s: Sid, id: ReqId)
    | Kill(s: Sid)
    | Read
    | Error

  datatype Action = Begin(t: Tid, job: Job) | Die(s: Sid) | Print(s: Sid, body: Body) | Resume(t: Tid, io: Io)

  const EMPTY_POOL := Pool(map[], None, map[], {}, {}, map[], map[], map[], 0, {}, [], [])

  function Without(order: seq<Sid>, s: Sid): seq<Sid> {
    if order == [] then []
    else if order[0] == s then Without(order[1..], s)
    else [order[0]] + Without(order[1..], s)
  }

  function Unlocked(locks: map<Sid, Tid>, held: Option<Sid>): map<Sid, Tid> {
    if held.Some? then locks - {held.value} else locks
  }

  /** Nothing is written, read, opened or stamped. */
  predicate SameHistory(pool: Pool, after: Pool) {
    && after.sessions == pool.sessions && after.lastUsed == pool.lastUsed && after.stdout == pool.stdout
    && after.ready == pool.ready && after.seen == pool.seen && after.order == pool.order
    && after.log == pool.log && after.clock == pool.clock
  }

  // ---------- Spawning: _get_or_create, _evict_if_full, _spawn ----------

  /** The session registered under the key runs and was spawned from the same spec. */
  predicate Current(pool: Pool, job: Job)
    requires job.Rpc?
  {
    job.key in pool.reg && pool.reg[job.key] in pool.alive && pool.reg[job.key] in pool.sessions
    && SpecFingerprint(pool.sessions[pool.reg[job.key]].spec) == SpecFingerprint(job.spec)
  }

  /** `_get_or_create` returns: the first time the session is checked for death next, after a rebuild it
      is used next. */
  function HandedBack(task: Task, s: Sid): Task {
    task.(at := if task.held.Some? then WantPipes else WantSession, held := None, session := Some(s), child := None,
          doomed := {})
  }

  function LookUp(pool: Pool, t: Tid, task: Task): (move: Move)
    requires task.job.Rpc?
    ensures SameHistory(pool, move.pool)
  {
    if Current(pool, task.job) then
      Move(pool.(locks := Unlocked(pool.locks, task.held)), HandedBack(task, pool.reg[task.job.key]))
    else
      Move(pool.(regLock := Some(t)),
           if task.job.key in pool.reg then task.(at := KillingStale, doomed := {pool.reg[task.job.key]})
           else task.(at := Evicting))
  }

  function DropStale(pool: Pool, task: Task): (move: Move)
    requires task.job.Rpc?
    ensures SameHistory(pool, move.pool)
  {
    Move(pool.(alive := pool.alive - task.doomed, reg := pool.reg - {task.job.key}),
         task.(at := Evicting, doomed := {}))
  }

  predicate Full(cfg: Config, pool: Pool) {
    |pool.reg| >= cfg.maxSessions && |pool.reg| > 0
  }

  /** `min(self._sessions, key=last_used)`. */
  predicate LeastRecent(reg: map<Key, Sid>, lastUsed: map<Sid, nat>, key: Key) {
    key in reg && reg[key] in lastUsed &&
    forall k :: k in reg && reg[k] in lastUsed ==> lastUsed[reg[key]] <= lastUsed[reg[k]]
  }

  function EvictOne(pool: Pool, task: Task, key: Key): (move: Move)
    requires key in pool.reg
    ensures SameHistory(pool, move.pool)
  {
    Move(pool.(reg := pool.reg - {key}), task.(at := KillingVictim, doomed := {pool.reg[key]}))
  }

  /** The call fails inside `_get_or_create`: both locks are released. */
  function GiveUp(pool: Pool, task: Task): (move: Move)
    ensures SameHistory(pool, move.pool)
  {
    Move(pool.(alive := pool.alive - task.doomed, regLock := None, locks := Unlocked(pool.locks, task.held)),
         task.(at := Done, held := None, child := None, doomed := {}, outcome := Failed))
  }

  function StartChild(pool: Pool, t: Tid, task: Task, s: Sid, id: ReqId): Move
    requires task.job.Rpc?
  {
    Move(pool.(sessions := pool.sessions[s := Session(task.job.key, task.job.spec)],
               alive := pool.alive + {s},
               lastUsed := pool.lastUsed[s := pool.clock],
               stdout := pool.stdout[s := []],
               seen := pool.seen + {id},
               order := pool.order + [s],
               log := pool.log + [Wrote(t, s, true, Some(Req(id, pool.clock)))]),
         task.(at := Handshaking, child := Some(s), doomed := {s}, req := Req(id, pool.clock),
               spawned := task.spawned + 1))
  }

  function Register(pool: Pool, t: Tid, task: Task, s: Sid): Move
    requires task.job.Rpc?
  {
    Move(pool.(ready := pool.ready + {s}, reg := pool.reg[task.job.key := s], regLock := None,
               locks := Unlocked(pool.locks, task.held), log := pool.log + [Opened(t, s)]),
         HandedBack(task, s))
  }

  // ---------- Using a session: rpc, _request, _notify, _discard ----------

  function CheckAlive(pool: Pool, t: Tid, task: Task, s: Sid): (move: Move)
    ensures SameHistory(pool, move.pool)
  {
    if s in pool.alive then Move(pool, task.(at := WantPipes))
    else Move(pool.(locks := pool.locks[s := t]), task.(at := Discarding, held := Some(s)))
  }

  function DropDead(pool: Pool, task: Task, s: Sid): (move: Move)
    requires task.job.Rpc?
    ensures SameHistory(pool, move.pool)
  {
    var mine := task.job.key in pool.reg && pool.reg[task.job.key] == s;
    Move(pool.(reg := if mine then pool.reg - {task.job.key} else pool.reg), task.(at := KillingDead, doomed := {s}))
  }

  /** The use stamps the session; only a notification or a request keeps its lock and writes to its pipe. */
  function UsePipes(pool: Pool, t: Tid, task: Task, s: Sid, id: ReqId): Move
    requires task.job.Rpc?
  {
    var used := pool.(lastUsed := pool.lastUsed[s := pool.clock], order := Without(pool.order, s) + [s]);
    var asked := if task.job.kind.Request? then Some(Req(id, pool.clock)) else None;
    var written := used.(locks := pool.locks[s := t], log := pool.log + [Wrote(t, s, false, asked)]);
    match task.job.kind
    case Initialize => Move(used, task.(at := Done, outcome := Info))
    case Notify => Move(written, task.(at := Notifying, held := Some(s)))
    case Request =>
      Move(written.(seen := pool.seen + {id}), task.(at := Awaiting, held := Some(s), req := Req(id, pool.clock)))
  }

  function Finish(pool: Pool, task: Task, outcome: Outcome): (move: Move)
    ensures SameHistory(pool, move.pool)
  {
    Move(pool.(locks := Unlocked(pool.locks, task.held)), task.(at := Done, held := None, outcome := outcome))
  }

  predicate HasLine(pool: Pool, s: Sid) {
    s in pool.stdout && pool.stdout[s] != []
  }

  predicate Answers(line: Line, req: Req) {
    line.body.Message? && line.body.id == req.id
  }

  /** `_unwrap_result` on a message whose id was already compared. */
  function Unwrap(reply: Reply): Outcome {
    if reply.ResultReply? then Result(reply.payload) else Failed
  }

  /** The first unread line is taken; if it answers the request, that is logged. */
  function TakeLine(pool: Pool, t: Tid, task: Task, s: Sid): Pool
    requires HasLine(pool, s)
  {
    var line := pool.stdout[s][0];
    pool.(stdout := pool.stdout[s := pool.stdout[s][1..]],
          log := if Answers(line, task.req) then pool.log + [Delivered(t, s, task.req, line)] else pool.log)
  }

  /** One round of the read loop for the handshake: foreign lines are skipped. */
  function ReadHandshake(pool: Pool, t: Tid, task: Task, s: Sid): Move
    requires HasLine(pool, s)
  {
    var line := pool.stdout[s][0];
    var rest := TakeLine(pool, t, task, s);
    if !Answers(line, task.req) then Move(rest, task)
    else if Unwrap(line.body.reply).Result? then Move(rest.(log := rest.log + [Wrote(t, s, true, None)]),
                                                      task.(at := Announcing))
    else Move(rest, task.(at := KillingFailed))
  }

  function ReadReply(pool: Pool, t: Tid, task: Task, s: Sid): Move
    requires HasLine(pool, s)
  {
    var line := pool.stdout[s][0];
    var rest := TakeLine(pool, t, task, s);
    if !Answers(line, task.req) then Move(rest, task) else Finish(rest, task, Unwrap(line.body.reply))
  }

  // ---------- Reaping and shutdown ----------

  predicate Stale(cfg: Config, pool: Pool, s: Sid, sampled: nat) {
    s !in pool.alive || (s in pool.lastUsed && sampled - pool.lastUsed[s] > cfg.ttl)
  }

  function StaleKeys(cfg: Config, pool: Pool, sampled: nat): set<Key> {
    set k | k in pool.reg && Stale(cfg, pool, pool.reg[k], sampled)
  }

  function Collect(pool: Pool, task: Task, keys: set<Key>): (move: Move)
    ensures SameHistory(pool, move.pool)
  {
    Move(pool.(reg := pool.reg - keys),
         task.(at := KillingAll, doomed := set k | k in keys && k in pool.reg :: pool.reg[k]))
  }

  function KillOne(pool: Pool, task: Task, s: Sid): (move: Move)
    ensures SameHistory(pool, move.pool)
  {
    Move(pool.(alive := pool.alive - {s}), task.(doomed := task.doomed - {s}, killed := task.killed + 1))
  }

  // ---------- Steps ----------

  /** A pending `_terminate` is over and the task goes on at `next`. */
  function Terminated(pool: Pool, task: Task, next: Label): (move: Move)
    ensures SameHistory(pool, move.pool)
  {
    Move(pool.(alive := pool.alive - task.doomed), task.(at := next, doomed := {}))
  }

  /** One task continues from its await; None when the lock it wants is taken or the event does not fit. */
  function Step(cfg: Config, pool: Pool, t: Tid, task: Task, io: Io): Option<Move> {
    if !task.job.Rpc? then SweepStep(cfg, pool, task, io)
    else if task.session.Some? && (task.at.WantSession? || task.at.Discarding? || task.at.WantPipes?
                                   || task.at.Notifying? || task.at.Awaiting?) then
      UseStep(pool, t, task, task.session.value, io)
    else CreateStep(cfg, pool, t, task, io)
  }

  function CreateStep(cfg: Config, pool: Pool, t: Tid, task: Task, io: Io): Option<Move>
    requires task.job.Rpc?
  {
    match task.at
    case WantRegistry => if io.Go? && pool.regLock.None? then Some(LookUp(pool, t, task)) else None
    case KillingStale => if io.Go? then Some(DropStale(pool, task)) else None
    case Evicting =>
      if Full(cfg, pool) then
        if io.Victim? && LeastRecent(pool.reg, pool.lastUsed, io.key) then Some(EvictOne(pool, task, io.key)) else None
      else if !io.Go? then None
      else if Blank(SpecFingerprint(task.job.spec).command) then Some(GiveUp(pool, task))
      else Some(Move(pool, task.(at := Spawning)))
    case KillingVictim => if io.Go? then Some(Terminated(pool, task, Evicting)) else None
    case KillingDead => if io.Go? then Some(Terminated(pool, task, WantRegistry)) else None
    case Spawning =>
      if io.Created? && io.s !in pool.sessions && io.id !in pool.seen then Some(StartChild(pool, t, task, io.s, io.id))
      else if io.Error? then Some(GiveUp(pool, task))
      else None
    case Handshaking =>
      if io.Read? && task.child.Some? && HasLine(pool, task.child.value)
        then Some(ReadHandshake(pool, t, task, task.child.value))
      else if io.Error? then Some(Move(pool, task.(at := KillingFailed)))
      else None
    case Announcing =>
      if io.Go? && task.child.Some? then Some(Register(pool, t, task, task.child.value))
      else if io.Error? then Some(Move(pool, task.(at := KillingFailed)))
      else None
    case KillingFailed => if io.Go? then Some(GiveUp(pool, task)) else None
    case _ => None
  }

  function UseStep(pool: Pool, t: Tid, task: Task, s: Sid, io: Io): Option<Move>
    requires task.job.Rpc?
  {
    match task.at
    case WantSession => if io.Go? && s !in pool.locks then Some(CheckAlive(pool, t, task, s)) else None
    case Discarding => if io.Go? && pool.regLock.None? then Some(DropDead(pool, task, s)) else None
    case WantPipes =>
      if io.Fresh? && s !in pool.locks && io.id !in pool.seen then Some(UsePipes(pool, t, task, s, io.id)) else None
    case Notifying => if io.Go? then Some(Finish(pool, task, Sent))
      else if io.Error? then Some(Finish(pool, task, Failed)) else None
    case Awaiting =>
      if io.Read? && HasLine(pool, s) then Some(ReadReply(pool, t, task, s))
      else if io.Error? then Some(Finish(pool, task, Failed))
      else None
    case _ => None
  }

  function SweepStep(cfg: Config, pool: Pool, task: Task, io: Io): Option<Move> {
    match task.at
    case WantReap =>
      if io.Go? && pool.regLock.None? then Some(Collect(pool, task, StaleKeys(cfg, pool, task.sampled))) else None
    case WantShutdown => if io.Go? && pool.regLock.None? then Some(Collect(pool, task, pool.reg.Keys)) else None
    case KillingAll =>
      if io.Kill? && io.s in task.doomed then Some(KillOne(pool, task, io.s))
      else if io.Go? && task.doomed == {} then
        Some(Move(pool, task.(at := Done, outcome := if task.job.ReapIdle? then Reaped(task.killed) else Closed)))
      else None
    case _ => None
  }

  function FirstTask(job: Job, clock: nat): Task {
    Task(job, if job.Rpc? then WantRegistry else if job.ReapIdle? then WantReap else WantShutdown,
         None, None, None, Req(0, 0), {}, clock, 0, 0, Pending)
  }

  function Printed(pool: Pool, s: Sid, body: Body): Pool
    requires s in pool.stdout
  {
    pool.(stdout := pool.stdout[s := pool.stdout[s] + [Line(pool.clock, body)]],
          seen := if body.Message? then pool.seen + {body.id} else pool.seen)
  }

  function Effect(cfg: Config, st: State, action: Action): Option<State> {
    match action
    case Begin(t, job) =>
      if t in st.tasks then None else Some(State(st.pool, st.tasks[t := FirstTask(job, st.pool.clock)]))
    case Die(s) => Some(st.(pool := st.pool.(alive := st.pool.alive - {s})))
    case Print(s, body) => if s in st.pool.stdout then Some(st.(pool := Printed(st.pool, s, body))) else None
    case Resume(t, io) =>
      if t !in st.tasks then None
      else match Step(cfg, st.pool, t, st.tasks[t], io)
        case None => None
        case Some(move) => Some(State(move.pool, st.tasks[t := move.task]))
  }

  /** Every step takes time, so no two uses carry the same stamp. */
  function Next(cfg: Config, st: State, action: Action): Option<State> {
    match Effect(cfg, st, action)
    case None => None
    case Some(after) => Some(after.(pool := after.pool.(clock := st.pool.clock + 1)))
  }

  /** The state a schedule of actions leads to from the empty pool, if every action was possible. */
  function Run(cfg: Config, actions: seq<Action>): Option<State> {
    if actions == [] then Some(State(EMPTY_POOL, map[]))
    else match Run(cfg, actions[..|actions| - 1])
      case None => None
      case Some(st) => Next(cfg, st, actions[|actions| - 1])
  }
}
