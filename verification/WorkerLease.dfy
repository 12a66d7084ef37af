/** The lease that background workers take on one row per worker kind and key. */
module WorkerLease {
  import opened Options

  type Time = int
  datatype WorkerId = WorkerId(kind: string, key: string)
  datatype Process = Process(host: string, pid: int)

  datatype Status = Idle | Running | Errored | Stopped
  datatype Row = Row(status: Status, owner: Process, expires: Option<Time>, heartbeatAt: Option<Time>,
                     startedAt: Option<Time>, stoppedAt: Option<Time>, error: string)

  type Rows = map<WorkerId, Row>

  const MIN_LEASE: Time := 30
  const LEASE_EXPIRED := "Worker lease expired before clean shutdown."
  /** What `get_or_create` inserts. */
  const NEW_ROW := Row(Idle, Process("", 0), None, None, None, None, "")

  function LeaseEnd(now: Time, leaseSeconds: int): Time {
    now + if leaseSeconds > MIN_LEASE then leaseSeconds else MIN_LEASE
  }

  function RowOf(rows: Rows, w: WorkerId): Row {
    if w in rows then rows[w] else NEW_ROW
  }

  /** A lease that runs beyond `now`, held by whoever the row names. */
  predicate Leased(row: Row, now: Time) {
    row.status == Running && row.expires.Some? && row.expires.value > now
  }

  predicate Rival(rows: Rows, w: WorkerId, p: Process, now: Time) {
    Leased(RowOf(rows, w), now) && RowOf(rows, w).owner != p
  }

  // ---------- What the operations do ----------

  function Claimed(rows: Rows, w: WorkerId, p: Process, now: Time, leaseSeconds: int): Rows {
    rows[w := RowOf(rows, w).(status := Running, owner := p, expires := Some(LeaseEnd(now, leaseSeconds)),
                              heartbeatAt := Some(now), startedAt := Some(now), error := "")]
  }

  function Beaten(rows: Rows, w: WorkerId, p: Process, now: Time, leaseSeconds: int): Rows {
    rows[w := RowOf(rows, w).(status := Running, owner := p, expires := Some(LeaseEnd(now, leaseSeconds)),
                              heartbeatAt := Some(now))]
  }

  function StoppedBy(rows: Rows, w: WorkerId, p: Process, now: Time, error: string): Rows {
    rows[w := RowOf(rows, w).(status := if error != "" then Errored else Idle, owner := p, expires := Some(now),
                              heartbeatAt := Some(now), stoppedAt := Some(now),
                              error := if error != "" then error[..if |error| < 4000 then |error| else 4000]
                                else RowOf(rows, w).error)]
  }

  predicate Stale(row: Row, now: Time) {
    row.status == Running && (row.expires.None? || row.expires.value <= now)
  }

  function StaleIds(rows: Rows, now: Time, kind: string): set<WorkerId> {
    set w | w in rows && Stale(rows[w], now) && (kind == "" || w.kind == kind)
  }

  /** What cleanup writes into `current` for the stale row it had read. */
  function Expired(current: Row, read: Row, now: Time): Row {
    current.(status := Stopped, expires := Some(if read.expires.Some? then read.expires.value else now),
             stoppedAt := Some(now),
             error := if read.error == "" then LEASE_EXPIRED else read.error)
  }

  function CleanedUp(rows: Rows, now: Time, kind: string): Rows {
    map w | w in rows :: if w in StaleIds(rows, now, kind) then Expired(rows[w], rows[w], now) else rows[w]
  }

  /** A row of this kind, or of any kind, that says it runs although its lease is over. */
  predicate Overdue(row: Row, w: WorkerId, now: Time, kind: string) {
    && row.status == Running && !(row.expires.Some? && row.expires.value > now)
    && (kind != "" ==> w.kind == kind)
  }

  /** A cleanup stops an overdue row, keeping the end of its lease and its error if it had them; others stay. */
  predicate SweptTo(row: Row, after: Row, w: WorkerId, now: Time, kind: string) {
    if !Overdue(row, w, now, kind) then after == row
    else
      && after.status == Stopped && after.stoppedAt == Some(now) && after.owner == row.owner
      && after.heartbeatAt == row.heartbeatAt && after.startedAt == row.startedAt
      && after.expires == (if row.expires.Some? then row.expires else Some(now))
      && after.error == if row.error != "" then row.error else "Worker lease expired before clean shutdown."
  }

  lemma StaleExactly(rows: Rows, now: Time, kind: string)
    ensures StaleIds(rows, now, kind) == set w | w in rows && Overdue(rows[w], w, now, kind)
    ensures forall w :: w in rows ==> SweptTo(rows[w], CleanedUp(rows, now, kind)[w], w, now, kind)
  {
  }

  class LeaseTable {
    var rows: Rows

    constructor ()
      ensures rows == map[]
    {
      rows := map[];
    }

    method Claim(w: WorkerId, p: Process, now: Time, leaseSeconds: int) returns (granted: bool)
      modifies this
      ensures granted <==> !(w in old(rows) && old(rows)[w].status == Running && old(rows)[w].expires.Some? &&
                             old(rows)[w].expires.value > now && old(rows)[w].owner != p)
      ensures rows == if granted then Claimed(old(rows), w, p, now, leaseSeconds)
              else old(rows)[w := RowOf(old(rows), w)]
      ensures w in rows
      ensures forall v :: v != w ==> (v in rows <==> v in old(rows)) && (v in rows ==> rows[v] == old(rows)[v])
      ensures !granted ==> rows == old(rows)
      ensures granted ==>
                && rows[w].status == Running && rows[w].owner == p && rows[w].error == ""
                && rows[w].expires == Some(if leaseSeconds < 30 then now + 30 else now + leaseSeconds)
                && rows[w].heartbeatAt == rows[w].startedAt == Some(now)
                && rows[w].stoppedAt == if w in old(rows) then old(rows)[w].stoppedAt else None
    {
      var state := if w in rows then rows[w] else NEW_ROW;
      rows := rows[w := state];
      var leaseValid := state.expires.Some? && state.expires.value > now;
      var sameProcess := state.owner.host == p.host && state.owner.pid == p.pid;
      if leaseValid && state.status == Running && !sameProcess {
        return false;
      }
      state := state.(status := Running, owner := p, heartbeatAt := Some(now),
                      expires := Some(LeaseEnd(now, leaseSeconds)),
                      startedAt := Some(now), error := "");
      rows := rows[w := state];
      return true;
    }

    method Heartbeat(w: WorkerId, p: Process, now: Time, leaseSeconds: int)
      modifies this
      ensures rows == Beaten(old(rows), w, p, now, leaseSeconds)
      ensures w in rows
      ensures forall v :: v != w ==> (v in rows <==> v in old(rows)) && (v in rows ==> rows[v] == old(rows)[v])
      ensures rows[w].status == Running && rows[w].owner == p && rows[w].heartbeatAt == Some(now)
      ensures rows[w].expires == Some(if leaseSeconds < 30 then now + 30 else now + leaseSeconds)
      ensures w in old(rows) ==> && rows[w].startedAt == old(rows)[w].startedAt
                                 && rows[w].stoppedAt == old(rows)[w].stoppedAt && rows[w].error == old(rows)[w].error
      ensures w !in old(rows) ==> rows[w].startedAt == rows[w].stoppedAt == None && rows[w].error == ""
    {
      var state := if w in rows then rows[w] else NEW_ROW;
      state := state.(status := Running, owner := p, heartbeatAt := Some(now),
                      expires := Some(LeaseEnd(now, leaseSeconds)));
      rows := rows[w := state];
    }

    method Stop(w: WorkerId, p: Process, now: Time, error: string)
      modifies this
      ensures rows == StoppedBy(old(rows), w, p, now, error)
      ensures w in rows
      ensures forall v :: v != w ==> (v in rows <==> v in old(rows)) && (v in rows ==> rows[v] == old(rows)[v])
      ensures rows[w].owner == p && rows[w].expires == rows[w].heartbeatAt == rows[w].stoppedAt == Some(now)
      ensures error == "" ==> && rows[w].status == Idle
                              && rows[w].error == if w in old(rows) then old(rows)[w].error else ""
      ensures error != "" ==> && rows[w].status == Errored && rows[w].error <= error && |rows[w].error| <= 4000
                              && (rows[w].error == error || |rows[w].error| == 4000)
      ensures rows[w].startedAt == if w in old(rows) then old(rows)[w].startedAt else None
    {
      var state := if w in rows then rows[w] else NEW_ROW;
      state := state.(status := if error != "" then Errored
                      else Idle, owner := p, heartbeatAt := Some(now), expires := Some(now),
                      stoppedAt := Some(now));
      if error != "" {
        state := state.(error := error[..if |error| < 4000 then |error| else 4000]);
      }
      rows := rows[w := state];
    }

    method Cleanup(now: Time, kind: string) returns (count: nat)
      modifies this
      ensures rows == CleanedUp(old(rows), now, kind) && rows.Keys == old(rows).Keys
      ensures count == |set w | w in old(rows) && Overdue(old(rows)[w], w, now, kind)|
      ensures forall w :: w in rows ==> SweptTo(old(rows)[w], rows[w], w, now, kind)
    {
      StaleExactly(rows, now, kind);
      var queryset := StaleIds(rows, now, kind);
      var left := queryset;
      count := 0;
      while left != {}
        invariant left <= queryset && count == |queryset| - |left| && rows.Keys == old(rows).Keys
        invariant forall w :: w in rows ==> rows[w] == if w in queryset - left
                  then Expired(old(rows)[w], old(rows)[w], now) else old(rows)[w]
        decreases left
      {
        var w :| w in left;
        rows := rows[w := Expired(rows[w], rows[w], now)];
        left := left - {w};
        count := count + 1;
      }
    }
  }

  // ---------- Runs ----------

  /** `held` records until when a process may think it holds a lease: granted by a claim or heartbeat,
      ended by its stop. */
  datatype World = World(rows: Rows, clock: Time, held: map<(WorkerId, Process), Time>)

  /** Every operation reads its time `now` before it commits at the global clock. */
  datatype Event =
    | Claim(w: WorkerId, p: Process, now: Time, leaseSeconds: int)
    | Heartbeat(w: WorkerId, p: Process, now: Time, leaseSeconds: int)
    | Stop(w: WorkerId, p: Process, now: Time, error: string)
    | Cleanup(now: Time, kind: string)
    | Wait(seconds: nat)

  predicate Holds(world: World, w: WorkerId, p: Process) {
    (w, p) in world.held && world.held[(w, p)] > world.clock
  }

  function After(world: World, e: Event): World {
    match e
    case Claim(w, p, now, lease) =>
      if Rival(world.rows, w, p, now) then world.(rows := world.rows[w := RowOf(world.rows, w)])
      else world.(rows := Claimed(world.rows, w, p, now, lease), held := world.held[(w, p) := LeaseEnd(now, lease)])
    case Heartbeat(w, p, now, lease) =>
      world.(rows := Beaten(world.rows, w, p, now, lease), held := world.held[(w, p) := LeaseEnd(now, lease)])
    case Stop(w, p, now, error) => world.(rows := StoppedBy(world.rows, w, p, now, error),
                                          held := world.held - {(w, p)})
    case Cleanup(now, kind) => world.(rows := CleanedUp(world.rows, now, kind))
    case Wait(seconds) => world.(clock := world.clock + seconds)
  }

  /** A process sends a heartbeat or a stop only while nobody else's lease is on the row. */
  predicate Allowed(world: World, e: Event) {
    match e
    case Claim(_, _, now, _) => now <= world.clock
    case Heartbeat(w, p, now, _) => now <= world.clock && !Rival(world.rows, w, p, world.clock)
    case Stop(w, p, now, _) => now <= world.clock && !Rival(world.rows, w, p, world.clock)
    case Cleanup(now, _) => now <= world.clock
    case Wait(_) => true
  }

  function RunAll(world: World, events: seq<Event>): World {
    if events == [] then world else After(RunAll(world, events[..|events| - 1]), events[|events| - 1])
  }

  ghost predicate AllAllowed(world: World, events: seq<Event>) {
    forall i :: 0 <= i < |events| ==> Allowed(RunAll(world, events[..i]), events[i])
  }

  /** Whoever thinks it holds a lease is the one the row names, until the same moment. */
  ghost predicate Agreed(world: World) {
    forall w, p :: Holds(world, w, p) ==> Backed(world, w, p)
  }

  predicate Backed(world: World, w: WorkerId, p: Process)
    requires (w, p) in world.held
  {
    w in world.rows && world.rows[w].status == Running && world.rows[w].owner == p
    && world.rows[w].expires == Some(world.held[(w, p)])
  }

  lemma StepAgreed(world: World, e: Event)
    requires Agreed(world) && Allowed(world, e)
    ensures Agreed(After(world, e))
  {
    var after := After(world, e);
    forall w, p | Holds(after, w, p) ensures Backed(after, w, p) {
      if Holds(world, w, p) {
        assert Backed(world, w, p);
      }
    }
  }

  /** Every unexpired lease on a row is known to the process it names. */
  ghost predicate Tracked(world: World) {
    forall w :: w in world.rows && Leased(world.rows[w], world.clock) ==>
      Holds(world, w, world.rows[w].owner) && Backed(world, w, world.rows[w].owner)
  }

  lemma StepTracked(world: World, e: Event)
    requires Tracked(world)
    ensures Tracked(After(world, e))
  {
    var after := After(world, e);
    forall w | w in after.rows && Leased(after.rows[w], after.clock)
      ensures Holds(after, w, after.rows[w].owner) && Backed(after, w, after.rows[w].owner)
    {
      if w in world.rows && Leased(world.rows[w], world.clock) {
        assert Holds(world, w, world.rows[w].owner) && Backed(world, w, world.rows[w].owner);
      }
    }
  }

  const START := World(map[], 0, map[])

  lemma {:induction false} RunAgreed(events: seq<Event>)
    requires AllAllowed(START, events)
    ensures Agreed(RunAll(START, events)) && Tracked(RunAll(START, events))
  {
    if events != [] {
      var front := events[..|events| - 1];
      forall i | 0 <= i < |front| ensures front[..i] == events[..i] {
      }
      RunAgreed(front);
      assert Allowed(RunAll(START, events[..|events| - 1]), events[|events| - 1]);
      StepAgreed(RunAll(START, front), events[|events| - 1]);
      StepTracked(RunAll(START, front), events[|events| - 1]);
    }
  }

  /** Two processes never hold the same lease at the same time. */
  lemma MutualExclusion(events: seq<Event>, w: WorkerId, p: Process, q: Process)
    requires AllAllowed(START, events)
    requires Holds(RunAll(START, events), w, p) && Holds(RunAll(START, events), w, q)
    ensures p == q
  {
    RunAgreed(events);
    var world := RunAll(START, events);
    assert Backed(world, w, p) && Backed(world, w, q);
  }

  /** While one process holds the lease, no rival can claim it, and cleanup leaves its row alone. */
  lemma HolderIsSafe(events: seq<Event>, w: WorkerId, p: Process, q: Process, now: Time, leaseSeconds: int,
                     kind: string)
    requires AllAllowed(START, events) && Holds(RunAll(START, events), w, p)
    requires q != p && now <= RunAll(START, events).clock
    ensures var world := RunAll(START, events);
            && After(world, Claim(w, q, now, leaseSeconds)) == world
            && w in world.rows && After(world, Cleanup(now, kind)).rows[w] == world.rows[w]
  {
    RunAgreed(events);
    var world := RunAll(START, events);
    assert Backed(world, w, p);
    assert world.rows[w := RowOf(world.rows, w)] == world.rows;
  }

  lemma RivalsAreHolders(world: World, w: WorkerId, p: Process)
    requires Agreed(world) && Tracked(world)
    ensures Rival(world.rows, w, p, world.clock) <==> exists q :: q != p && Holds(world, w, q)
  {
    if Rival(world.rows, w, p, world.clock) {
      assert Holds(world, w, world.rows[w].owner);
    }
    if q :| q != p && Holds(world, w, q) {
      assert Backed(world, w, q);
    }
  }

  /** A claim gives a lease if and only if no rival's lease ran beyond the moment the claim read as its own, and the new
      one still runs when the claim commits. */
  lemma ClaimExactly(world: World, w: WorkerId, q: Process, now: Time, leaseSeconds: int)
    requires !Holds(world, w, q)
    ensures Holds(After(world, Claim(w, q, now, leaseSeconds)), w, q) <==>
            !Rival(world.rows, w, q, now) && LeaseEnd(now, leaseSeconds) > world.clock
  {
  }

  /** Once nobody holds the lease, by expiry or by a stop, that is when a claim gets it; one that commits at the
      moment it read always does. */
  lemma FreeLeaseIsGranted(events: seq<Event>, w: WorkerId, q: Process, now: Time, leaseSeconds: int)
    requires AllAllowed(START, events) && now <= RunAll(START, events).clock
    requires forall p :: !Holds(RunAll(START, events), w, p)
    ensures var world := RunAll(START, events);
            && (Holds(After(world, Claim(w, q, now, leaseSeconds)), w, q) <==>
                !Rival(world.rows, w, q, now) && LeaseEnd(now, leaseSeconds) > world.clock)
            && !Rival(world.rows, w, q, world.clock) && LeaseEnd(world.clock, leaseSeconds) > world.clock
  {
    var world := RunAll(START, events);
    RunAgreed(events);
    RivalsAreHolders(world, w, q);
    ClaimExactly(world, w, q, now, leaseSeconds);
  }

  /** How long a claim keeps rivals out: for the time it asked, and for 30 seconds at least. */
  lemma ClaimLasts(world: World, w: WorkerId, p: Process, q: Process, now: Time, lease: int, later: Time, other: int)
    requires p != q && !Rival(world.rows, w, p, now)
    ensures var claimed := After(world, Claim(w, p, now, lease));
            After(claimed, Claim(w, q, later, other)).rows == claimed.rows <==> later < now + 30 || later < now + lease
  {
    var claimed := After(world, Claim(w, p, now, lease));
    assert claimed.rows[w := claimed.rows[w]] == claimed.rows;
    assert After(claimed, Claim(w, q, later, other)).rows[w].owner == p <==> later < now + 30 || later < now + lease;
  }

  /** A heartbeat does so as well, whoever the row had named before. */
  lemma HeartbeatLasts(world: World, w: WorkerId, p: Process, q: Process, now: Time, lease: int, later: Time,
                       other: int)
    requires p != q
    ensures var beaten := After(world, Heartbeat(w, p, now, lease));
            After(beaten, Claim(w, q, later, other)).rows == beaten.rows <==> later < now + 30 || later < now + lease
  {
    var beaten := After(world, Heartbeat(w, p, now, lease));
    assert beaten.rows[w := beaten.rows[w]] == beaten.rows;
    assert After(beaten, Claim(w, q, later, other)).rows[w].owner == p <==> later < now + 30 || later < now + lease;
  }

  /** A stop, and a cleanup after the end of a lease, let anybody in at once; a cleanup sweeps exactly the overdue. */
  lemma StopReleases(world: World, w: WorkerId, p: Process, q: Process, now: Time, error: string, later: Time,
                     lease: int)
    requires now <= later
    ensures var claimed := After(After(world, Stop(w, p, now, error)), Claim(w, q, later, lease));
            w in claimed.rows && claimed.rows[w].owner == q && claimed.rows[w].status == Running
  {
  }

  lemma CleanupSweeps(world: World, now: Time, kind: string)
    ensures var after := After(world, Cleanup(now, kind));
            && after.rows.Keys == world.rows.Keys && after.held == world.held && after.clock == world.clock
            && forall w :: w in world.rows ==> SweptTo(world.rows[w], after.rows[w], w, now, kind)
  {
    StaleExactly(world.rows, now, kind);
  }

  // ---------- Who holds a lease ----------

  /** The seconds that passed. */
  function Waited(events: seq<Event>): Time {
    if events == [] then 0
    else Waited(events[..|events| - 1]) + if events[|events| - 1].Wait? then events[|events| - 1].seconds else 0
  }

  /** The event gives the process a lease on `w`: a heartbeat does, and a claim where no other process has one. */
  predicate Gives(rows: Rows, event: Event, w: WorkerId, p: Process) {
    match event
    case Heartbeat(v, q, _, _) => v == w && q == p
    case Claim(v, q, now, _) =>
      v == w && q == p &&
      !(w in rows && rows[w].status == Running && rows[w].expires.Some? && rows[w].expires.value > now &&
        rows[w].owner != p)
    case _ => false
  }

  predicate Grants(events: seq<Event>, i: nat, w: WorkerId, p: Process)
    requires i < |events|
  {
    Gives(RunAll(START, events[..i]).rows, events[i], w, p)
  }

  predicate Ends(event: Event, w: WorkerId, p: Process) {
    event.Stop? && event.w == w && event.p == p
  }

  /** Event `i` is the last word on whether the process has the lease: it gave it. */
  ghost predicate LastGrant(events: seq<Event>, i: nat, w: WorkerId, p: Process) {
    && i < |events| && Grants(events, i, w, p)
    && forall j: nat :: i < j < |events| ==> !Grants(events, j, w, p) && !Ends(events[j], w, p)
  }

  lemma GrantsInLonger(events: seq<Event>, longer: seq<Event>, i: nat, w: WorkerId, p: Process)
    requires events <= longer && i < |events|
    ensures Grants(longer, i, w, p) == Grants(events, i, w, p)
  {
    assert longer[..i] == events[..i];
  }

  /** A grant stays the last one as long as nothing else is said about the lease. */
  lemma LastGrantStays(events: seq<Event>, event: Event, i: nat, w: WorkerId, p: Process)
    requires i < |events|
    ensures LastGrant(events + [event], i, w, p) <==>
            LastGrant(events, i, w, p) && !Grants(events + [event], |events|, w, p) && !Ends(event, w, p)
  {
    var longer := events + [event];
    forall j: nat | j < |events| ensures Grants(longer, j, w, p) == Grants(events, j, w, p) && longer[j] == events[j] {
      GrantsInLonger(events, longer, j, w, p);
    }
    assert longer[|events|] == event;
  }

  lemma OneEvent(events: seq<Event>, event: Event)
    ensures RunAll(START, events + [event]) == After(RunAll(START, events), event)
    ensures Waited(events + [event]) == Waited(events) + if event.Wait? then event.seconds else 0
  {
    assert (events + [event])[..|events|] == events;
  }

  /** What `held` records. */
  ghost predicate Records(world: World, events: seq<Event>, w: WorkerId, p: Process) {
    && ((w, p) in world.held <==> exists i: nat :: LastGrant(events, i, w, p))
    && forall i: nat :: LastGrant(events, i, w, p) ==>
         (w, p) in world.held &&
         world.held[(w, p)] == events[i].now + if events[i].leaseSeconds < 30 then 30 else events[i].leaseSeconds
  }

  /** The same of a whole run, behind a quantifier that keeps the recursion out of the induction. */
  ghost predicate Recorded(events: seq<Event>, w: WorkerId, p: Process) {
    forall world: World :: world == RunAll(START, events) ==> Records(world, events, w, p)
  }

  /** What one event does to the lease of a process. */
  lemma HeldAfter(world: World, event: Event, w: WorkerId, p: Process)
    ensures var (held, after) := (world.held, After(world, event).held);
            if Gives(world.rows, event, w, p) then
              (w, p) in after &&
              after[(w, p)] == event.now + if event.leaseSeconds < 30 then 30 else event.leaseSeconds
            else if Ends(event, w, p) then (w, p) !in after
            else ((w, p) in after <==> (w, p) in held) && ((w, p) in held ==> after[(w, p)] == held[(w, p)])
  {
  }

  lemma EventRecords(events: seq<Event>, event: Event, w: WorkerId, p: Process)
    requires Recorded(events, w, p)
    ensures Recorded(events + [event], w, p)
  {
    var longer, world := events + [event], RunAll(START, events);
    OneEvent(events, event);
    assert Records(world, events, w, p);
    assert longer[..|events|] == events;
    HeldAfter(world, event, w, p);
    RecordsGrow(world, After(world, event), events, event, longer, w, p);
  }

  lemma RecordsGrow(world: World, after: World, events: seq<Event>, event: Event, longer: seq<Event>, w: WorkerId,
                    p: Process)
    requires Records(world, events, w, p) && longer == events + [event] && longer[..|events|] == events
    requires world == RunAll(START, events)
    requires if Gives(world.rows, event, w, p) then
               (w, p) in after.held &&
               after.held[(w, p)] == event.now + if event.leaseSeconds < 30 then 30 else event.leaseSeconds
             else if Ends(event, w, p) then (w, p) !in after.held
             else
               && ((w, p) in after.held <==> (w, p) in world.held)
               && ((w, p) in world.held ==> after.held[(w, p)] == world.held[(w, p)])
    ensures Records(after, longer, w, p)
  {
    assert Grants(longer, |events|, w, p) == Gives(world.rows, event, w, p);
    LastGrants(events, event, longer, w, p);
    if Grants(longer, |events|, w, p) {
      assert LastGrant(longer, |events|, w, p);
      assert forall i: nat :: LastGrant(longer, i, w, p) ==> i == |events|;
    } else {
      assert forall i: nat :: LastGrant(longer, i, w, p) <==> LastGrant(events, i, w, p) && !Ends(event, w, p);
    }
  }

  /** Which grants are the last ones after one more event. */
  lemma LastGrants(events: seq<Event>, event: Event, longer: seq<Event>, w: WorkerId, p: Process)
    requires longer == events + [event]
    ensures forall i: nat :: LastGrant(longer, i, w, p) <==>
              if i == |events| then Grants(longer, |events|, w, p)
              else LastGrant(events, i, w, p) && !Grants(longer, |events|, w, p) && !Ends(event, w, p)
  {
    forall i: nat | i < |events| ensures LastGrant(longer, i, w, p) <==>
      LastGrant(events, i, w, p) && !Grants(longer, |events|, w, p) && !Ends(event, w, p)
    {
      LastGrantStays(events, event, i, w, p);
    }
  }

  lemma {:induction false} ClockIsWaited(events: seq<Event>)
    ensures RunAll(START, events).clock == Waited(events)
  {
    if events != [] {
      ClockIsWaited(events[..|events| - 1]);
    }
  }

  lemma {:induction false} RunIsRecorded(events: seq<Event>, w: WorkerId, p: Process)
    ensures Recorded(events, w, p)
  {
    if events == [] {
      assert Records(START, [], w, p);
    } else {
      var front, last := events[..|events| - 1], events[|events| - 1];
      RunIsRecorded(front, w, p);
      EventRecords(front, last, w, p);
      assert events == front + [last];
    }
  }

  /**
    Who holds a lease: a process whose last word on it was a heartbeat or a granted claim, until 30 seconds after the
    moment that read, or as many more as it asked for.
   */
  lemma HoldsExactly(events: seq<Event>, w: WorkerId, p: Process)
    ensures Holds(RunAll(START, events), w, p) <==>
            exists i: nat :: LastGrant(events, i, w, p) &&
                       (Waited(events) < events[i].now + 30 || Waited(events) < events[i].now + events[i].leaseSeconds)
  {
    RunIsRecorded(events, w, p);
    assert Records(RunAll(START, events), events, w, p);
    ClockIsWaited(events);
  }

  /** An allowed run that leads to the world. */
  ghost predicate Leads(events: seq<Event>, world: World) {
    AllAllowed(START, events) && RunAll(START, events) == world
  }

  lemma Extend(events: seq<Event>, world: World, event: Event) returns (longer: seq<Event>, after: World)
    requires Leads(events, world) && Allowed(world, event)
    ensures Leads(longer, after) && after == After(world, event) && longer == events + [event]
  {
    longer, after := events + [event], After(world, event);
    OneEvent(events, event);
    forall i | 0 <= i < |longer| ensures Allowed(RunAll(START, longer[..i]), longer[i]) {
      assert longer[..i] == events[..i];
      if i == |events| {
        assert events[..i] == events;
      }
    }
  }

  /** The process holds the only lease there is. */
  predicate OnlyLease(world: World, w: WorkerId, p: Process, clock: Time, end: Time) {
    && world.rows.Keys == {w} && world.rows[w].owner == p && world.rows[w].expires == Some(end)
    && world.rows[w].status == Running && world.held == map[(w, p) := end] && world.clock == clock
  }

  lemma LeaseIsTaken(w: WorkerId, p: Process) returns (events: seq<Event>, world: World)
    ensures Leads(events, world) && OnlyLease(world, w, p, 60, 180)
  {
    events, world := [], START;
    FirstClaim(w, p);
    events, world := Extend(events, world, Claim(w, p, 0, 180));
    events, world := Extend(events, world, Wait(60));
  }

  lemma FirstClaim(w: WorkerId, p: Process)
    ensures Allowed(START, Claim(w, p, 0, 180)) && OnlyLease(After(START, Claim(w, p, 0, 180)), w, p, 0, 180)
  {
  }

  lemma HeartbeatRenews(world: World, w: WorkerId, p: Process)
    requires OnlyLease(world, w, p, 60, 180)
    ensures Allowed(world, Heartbeat(w, p, 60, 180))
    ensures OnlyLease(After(world, Heartbeat(w, p, 60, 180)), w, p, 60, 240)
  {
  }

  lemma RivalIsRefused(world: World, w: WorkerId, p: Process, q: Process)
    requires p != q && OnlyLease(world, w, p, 239, 240)
    ensures Allowed(world, Claim(w, q, 239, 180)) && OnlyLease(After(world, Claim(w, q, 239, 180)), w, p, 239, 240)
  {
  }

  /** The worker keeps its lease by a heartbeat, and a rival is refused to the last second of it. */
  lemma LeaseIsKept(w: WorkerId, p: Process, q: Process) returns (events: seq<Event>, world: World)
    requires p != q
    ensures Leads(events, world) && OnlyLease(world, w, p, 239, 240)
  {
    events, world := LeaseIsTaken(w, p);
    HeartbeatRenews(world, w, p);
    events, world := Extend(events, world, Heartbeat(w, p, 60, 180));
    events, world := Extend(events, world, Wait(179));
    RivalIsRefused(world, w, p, q);
    events, world := Extend(events, world, Claim(w, q, 239, 180));
  }

  /** A lease runs out, a cleanup stops its row, a rival takes it over, stops, and the first worker is back. */
  lemma LeaseIsHandedOver(w: WorkerId, p: Process, q: Process) returns (events: seq<Event>, world: World)
    requires p != q
    ensures Leads(events, world) && world.clock == 240 && Holds(world, w, p) && !Holds(world, w, q)
    ensures w in world.rows && world.rows[w].error == "" && world.rows[w].stoppedAt == Some(240)
  {
    events, world := LeaseIsKept(w, p, q);
    events, world := Extend(events, world, Wait(1));
    events, world := Extend(events, world, Cleanup(240, ""));
    events, world := Extend(events, world, Claim(w, q, 240, 30));
    events, world := Extend(events, world, Stop(w, q, 240, ""));
    events, world := Extend(events, world, Claim(w, p, 240, 30));
  }

  // ---------- What breaks mutual exclusion, exactly ----------

  /** A heartbeat keeps the row and its holder in agreement if and only if no other process has a lease on it. */
  lemma HeartbeatExact(world: World, w: WorkerId, p: Process, now: Time, leaseSeconds: int)
    requires Agreed(world) && Tracked(world) && now <= world.clock
    ensures Agreed(After(world, Heartbeat(w, p, now, leaseSeconds))) <==> !Rival(world.rows, w, p, world.clock)
  {
    RivalsAreHolders(world, w, p);
    var after := After(world, Heartbeat(w, p, now, leaseSeconds));
    if q :| q != p && Holds(world, w, q) {
      assert Holds(after, w, q) && !Backed(after, w, q);
    } else {
      StepAgreed(world, Heartbeat(w, p, now, leaseSeconds));
    }
  }

  lemma StopExact(world: World, w: WorkerId, p: Process, now: Time, error: string)
    requires Agreed(world) && Tracked(world) && now <= world.clock
    ensures Agreed(After(world, Stop(w, p, now, error))) <==> !Rival(world.rows, w, p, world.clock)
  {
    RivalsAreHolders(world, w, p);
    var after := After(world, Stop(w, p, now, error));
    if q :| q != p && Holds(world, w, q) {
      assert Holds(after, w, q) && !Backed(after, w, q);
    } else {
      StepAgreed(world, Stop(w, p, now, error));
    }
  }

  /** A heartbeat from a process that lost the race makes two processes hold the lease. */
  lemma StolenLease(w: WorkerId, p: Process, q: Process)
    requires p != q
    ensures var world := RunAll(START, [Claim(w, p, 0, 60), Heartbeat(w, q, 0, 60)]);
            Holds(world, w, p) && Holds(world, w, q)
  {
    var events := [Claim(w, p, 0, 60), Heartbeat(w, q, 0, 60)];
    assert events[..1] == [Claim(w, p, 0, 60)] && events[..1][..0] == [];
    assert RunAll(START, events[..1]) == After(START, Claim(w, p, 0, 60));
  }

  /** Cleanup that saves a stale row it had read earlier, when the row may have changed. */
  function SaveStale(world: World, w: WorkerId, read: Row, now: Time): World {
    world.(rows := world.rows[w := Expired(RowOf(world.rows, w), read, now)])
  }

  /** The late save is harmless if and only if the row is not leased at that moment. */
  lemma LateCleanupExact(world: World, w: WorkerId, read: Row, now: Time)
    requires Agreed(world) && Tracked(world) && w in world.rows
    ensures Agreed(SaveStale(world, w, read, now)) <==> !Leased(world.rows[w], world.clock)
  {
    var after := SaveStale(world, w, read, now);
    if Leased(world.rows[w], world.clock) {
      assert Holds(after, w, world.rows[w].owner) && !Backed(after, w, world.rows[w].owner);
    } else {
      forall v, p | Holds(after, v, p) ensures Backed(after, v, p) {
        assert Holds(world, v, p);
      }
    }
  }

  /** Read as stale, claimed anew, then saved as stopped: the new holder loses its row and a third process gets in. */
  lemma LateCleanupRace(w: WorkerId, p: Process, q: Process, r: Process)
    requires p != q && q != r
    ensures var stale := After(After(START, Claim(w, p, 0, 30)), Wait(30));
            var read := stale.rows[w];
            var renewed := After(stale, Claim(w, q, 30, 30));
            var ended := After(SaveStale(renewed, w, read, 30), Claim(w, r, 30, 30));
            Stale(read, 30) && Holds(ended, w, q) && Holds(ended, w, r)
  {
  }
}
