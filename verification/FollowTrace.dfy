/** What one followed stream does to the outside, and the order in which it may do so. */
module FollowTrace {
  import opened Options
  import opened LogFollow

  /** A log or watch payload; `version` is its latest resource version, empty where there is none. */
  datatype Body = Body(payload: Payload, version: string)

  datatype Reason = MaxBatches | IdleTimeout | SessionEnded(code: string) | ProviderEof | ClientDisconnect

  /** What a follow was doing when it failed: the access check, opening the handle, reading from it, or a
      polling read. */
  datatype Cause = Preparing | Opening | Reading | Polling

  /** What await `at` raised, and the code it is recorded under. */
  datatype Failure = Failure(at: nat, code: string, cause: Cause)

  /** `at` is the await that brought the answer; `asked` the resource version a polling read named, and None for a read
      from an open handle, which may also find the end of the provider's stream. */
  datatype Event =
    | Checked(at: nat, active: bool)
    | Prepared(at: nat)
    | Opened(at: nat)
    | Read(at: nat, asked: Option<string>, got: Body, eof: bool)
    | Batch(index: nat, sent: Body)
    | Heartbeat(beat: nat)
    | Closed(byLoop: bool, reason: Reason, batches: nat, sessionStatus: string)
    | Failed(failure: Failure)
    | StoppedSent(summary: Reason)
    | Released

  /** How far the stream is finalised: closed with a reason and a session status, or failed. */
  datatype Ending =
    | Running
    | PeerClosed
    | LoopClosed(reason: Reason, sessionStatus: string)
    | Stopped(reason: Reason, sessionStatus: string)
    | FailedOpen(failure: Failure)
    | FailedClosed(failure: Failure)

  /** The provider handle: a polling loop has none, a continuous one may open it once its access was checked. */
  datatype Handle = Unopened | Permitted | Open | Gone

  /** `checked`: the session was active at the last look, in await `looked`, and nothing was read since; `pending`:
      something was read and not yet passed on; `atEnd`: the last read found the end of the provider's stream. */
  datatype View = View(ending: Ending, handle: Handle, checked: bool, looked: nat, pending: bool, atEnd: bool,
                       batches: nat, checks: nat, fetched: nat)

  const START := View(Running, Unopened, false, 0, false, false, 0, 0, 0)

  predicate Live(ending: Ending) {
    ending.Running? || ending.PeerClosed?
  }

  /** A read, and a read that fails, follow an active look at once. */
  predicate ReadsNow(view: View, at: nat, handle: Handle) {
    view.checked && at == view.looked + 1 && view.handle == handle && !view.atEnd
  }

  predicate MayFail(view: View, failure: Failure) {
    match failure.cause
    case Preparing => view.handle.Unopened? && view.checks == 0
    case Opening => view.handle.Permitted?
    case Reading => ReadsNow(view, failure.at, Open)
    case Polling => ReadsNow(view, failure.at, Unopened)
  }

  /** The end of the provider's stream ends the loop, and nothing else is called so. */
  predicate MayClose(view: View, byLoop: bool, reason: Reason) {
    if reason.ProviderEof? then view.atEnd else byLoop && view.atEnd ==> reason.ClientDisconnect?
  }

  /** What an event does to the view; None where it is out of order. */
  function After(view: View, event: Event): Option<View> {
    match event
    case Checked(at, active) =>
      if Live(view.ending) && (view.handle.Unopened? || view.handle.Open?) then
        Some(view.(checked := active, looked := at, pending := false, checks := view.checks + 1))
      else None
    case Prepared(_) =>
      if Live(view.ending) && view.handle.Unopened? && view.checks == 0 then Some(view.(handle := Permitted)) else None
    case Opened(_) =>
      if Live(view.ending) && view.handle.Permitted? then Some(view.(handle := Open)) else None
    case Read(at, asked, _, eof) =>
      if Live(view.ending) && ReadsNow(view, at, if asked.Some? then Unopened else Open) then
        Some(view.(checked := false, pending := true, atEnd := eof, fetched := view.fetched + 1))
      else None
    case Batch(index, _) =>
      if Live(view.ending) && view.pending && index == view.batches + 1
        then Some(view.(pending := false, batches := index))
      else None
    case Heartbeat(beat) =>
      if Live(view.ending) && beat == view.batches then Some(view) else None
    case Closed(byLoop, reason, batches, sessionStatus) =>
      if view.ending.Running? && batches == view.batches && MayClose(view, byLoop, reason) then
        Some(view.(ending := if byLoop then LoopClosed(reason, sessionStatus) else PeerClosed))
      else None
    case Failed(failure) =>
      if Live(view.ending) && MayFail(view, failure) then
        Some(view.(ending := if view.ending.Running? then FailedOpen(failure) else FailedClosed(failure)))
      else None
    case StoppedSent(reason) =>
      if view.ending.LoopClosed? && view.ending.reason == reason then
        Some(view.(ending := Stopped(reason, view.ending.sessionStatus)))
      else None
    case Released =>
      if view.handle.Open? && !view.ending.Running? then Some(view.(handle := Gone)) else None
  }

  function Replay(trace: seq<Event>): Option<View> {
    if trace == [] then Some(START)
    else
      var before := Replay(trace[..|trace| - 1]);
      if before.None? then None else After(before.value, trace[|trace| - 1])
  }

  function Reads(trace: seq<Event>): seq<Payload> {
    if trace == [] then []
    else
      var last := trace[|trace| - 1];
      Reads(trace[..|trace| - 1]) + if last.Read? then [last.got.payload] else []
  }

  function Sent(trace: seq<Event>): seq<Payload> {
    if trace == [] then []
    else
      var last := trace[|trace| - 1];
      Sent(trace[..|trace| - 1]) + if last.Batch? then [last.sent.payload] else []
  }

  function ReadIn(event: Event): Option<Payload> {
    if event.Read? then Some(event.got.payload) else None
  }

  function SentIn(event: Event): Option<Payload> {
    if event.Batch? then Some(event.sent.payload) else None
  }

  /** The places name the events in which the payloads are, in order, and no such event is left out. */
  ghost predicate Lists(trace: seq<Event>, places: seq<nat>, payloads: seq<Payload>, held: Event -> Option<Payload>) {
    && |places| == |payloads| && (forall i, j :: 0 <= i < j < |places| ==> places[i] < places[j])
    && (forall i :: 0 <= i < |places| ==> places[i] < |trace| && held(trace[places[i]]) == Some(payloads[i]))
    && forall n: nat :: n < |trace| && held(trace[n]).Some? ==> n in places
  }

  lemma ListsStay(trace: seq<Event>, event: Event, places: seq<nat>, payloads: seq<Payload>,
                  held: Event -> Option<Payload>)
    requires Lists(trace, places, payloads, held) && held(event).None?
    ensures Lists(trace + [event], places, payloads, held)
  {
  }

  lemma ListsGrow(trace: seq<Event>, event: Event, places: seq<nat>, payloads: seq<Payload>,
                  held: Event -> Option<Payload>)
    requires Lists(trace, places, payloads, held) && held(event).Some?
    ensures Lists(trace + [event], places + [|trace|], payloads + [held(event).value], held)
  {
    var longer, more := trace + [event], places + [|trace|];
    forall n: nat | n < |longer| && held(longer[n]).Some? ensures n in more {
      if n < |trace| {
        assert longer[n] == trace[n];
      } else {
        assert more[|places|] == n;
      }
    }
  }

  /** What was read, event by event. */
  lemma {:induction false} ReadsList(trace: seq<Event>) returns (places: seq<nat>)
    ensures Lists(trace, places, Reads(trace), ReadIn)
  {
    if trace == [] {
      places := [];
    } else {
      var front, last := trace[..|trace| - 1], trace[|trace| - 1];
      assert trace == front + [last];
      places := ReadsList(front);
      if last.Read? {
        ListsGrow(front, last, places, Reads(front), ReadIn);
        places := places + [|front|];
      } else {
        ListsStay(front, last, places, Reads(front), ReadIn);
      }
    }
  }

  /** And what was sent. */
  lemma {:induction false} SentList(trace: seq<Event>) returns (places: seq<nat>)
    ensures Lists(trace, places, Sent(trace), SentIn)
  {
    if trace == [] {
      places := [];
    } else {
      var front, last := trace[..|trace| - 1], trace[|trace| - 1];
      assert trace == front + [last];
      places := SentList(front);
      if last.Batch? {
        ListsGrow(front, last, places, Sent(front), SentIn);
        places := places + [|front|];
      } else {
        ListsStay(front, last, places, Sent(front), SentIn);
      }
    }
  }

  function Newer(version: string, known: string): string {
    if version != "" then version else known
  }

  /** The last resource version the provider named, or the one the follow began with. */
  function Latest(initial: string, trace: seq<Event>): string {
    if trace == [] then initial
    else
      var known, last := Latest(initial, trace[..|trace| - 1]), trace[|trace| - 1];
      if last.Read? then Newer(last.got.version, known) else known
  }

  /** Every read asks for what is newer than everything read so far. */
  predicate AsksLatest(initial: string, trace: seq<Event>) {
    trace == [] ||
    (var front, last := trace[..|trace| - 1], trace[|trace| - 1];
     AsksLatest(initial, front) && (last.Read? && last.asked.Some? ==> last.asked.value == Latest(initial, front)))
  }

  /** Every batch carries the last version the provider named. */
  predicate ReportsLatest(initial: string, trace: seq<Event>) {
    trace == [] ||
    (var front, last := trace[..|trace| - 1], trace[|trace| - 1];
     ReportsLatest(initial, front) && (last.Batch? ==> last.sent.version == Latest(initial, front)))
  }

  /** What was read and passed on, the newest version known, and whether the versions were threaded. */
  datatype Delivery = Delivery(received: seq<Payload>, sent: seq<Payload>, latest: string, asks: bool, reports: bool)

  function Add(d: Delivery, event: Event): Delivery {
    match event
    case Read(_, asked, got, _) =>
      d.(received := d.received + [got.payload], latest := Newer(got.version, d.latest),
         asks := d.asks && (asked.Some? ==> asked.value == d.latest))
    case Batch(_, sent) =>
      d.(sent := d.sent + [sent.payload], reports := d.reports && sent.version == d.latest)
    case _ => d
  }

  function Summarise(initial: string, trace: seq<Event>): Delivery {
    if trace == [] then Delivery([], [], initial, true, true)
    else Add(Summarise(initial, trace[..|trace| - 1]), trace[|trace| - 1])
  }

  /** What the running summary says of a trace. */
  lemma {:induction false} SummaryMeans(initial: string, trace: seq<Event>)
    ensures Summarise(initial, trace) ==
            Delivery(Reads(trace), Sent(trace), Latest(initial, trace), AsksLatest(initial, trace),
                     ReportsLatest(initial, trace))
  {
    if trace != [] {
      SummaryMeans(initial, trace[..|trace| - 1]);
    }
  }

  /** The version of the last read that named one, or the one the follow began with if none did. */
  ghost predicate Newest(initial: string, trace: seq<Event>, version: string) {
    || (version == initial && forall k :: 0 <= k < |trace| && trace[k].Read? ==> trace[k].got.version == "")
    || exists k :: 0 <= k < |trace| && trace[k].Read? && trace[k].got.version == version && version != ""
         && forall j :: k < j < |trace| && trace[j].Read? ==> trace[j].got.version == ""
  }

  lemma NewestGrows(initial: string, trace: seq<Event>, event: Event, version: string)
    requires Newest(initial, trace, version)
    ensures Newest(initial, trace + [event], if event.Read? && event.got.version != "" then event.got.version
                                             else version)
  {
    var longer := trace + [event];
    if event.Read? && event.got.version != "" {
      assert longer[|trace|] == event;
    } else if k :| 0 <= k < |trace| && trace[k].Read? && trace[k].got.version == version && version != ""
                   && forall j :: k < j < |trace| && trace[j].Read? ==> trace[j].got.version == "" {
      assert longer[k] == trace[k];
    }
  }

  lemma {:induction false} LatestIsNewest(initial: string, trace: seq<Event>)
    ensures Newest(initial, trace, Latest(initial, trace))
  {
    if trace != [] {
      var front, last := trace[..|trace| - 1], trace[|trace| - 1];
      LatestIsNewest(initial, front);
      NewestGrows(initial, front, last, Latest(initial, front));
      assert trace == front + [last];
    }
  }

  lemma NewestIsUnique(initial: string, trace: seq<Event>, a: string, b: string)
    requires Newest(initial, trace, a) && Newest(initial, trace, b)
    ensures a == b
  {
  }

  /** What the newest version is, for every version. */
  lemma LatestExactly(initial: string, trace: seq<Event>, version: string)
    ensures version == Latest(initial, trace) <==> Newest(initial, trace, version)
  {
    LatestIsNewest(initial, trace);
    if Newest(initial, trace, version) {
      NewestIsUnique(initial, trace, version, Latest(initial, trace));
    }
  }

  /** Every polling read names the newest version known before it. */
  ghost predicate Asks(initial: string, trace: seq<Event>) {
    forall n :: 0 <= n < |trace| && trace[n].Read? && trace[n].asked.Some? ==>
      Newest(initial, trace[..n], trace[n].asked.value)
  }

  /** Every batch carries the newest version known when it is sent. */
  ghost predicate Reports(initial: string, trace: seq<Event>) {
    forall n :: 0 <= n < |trace| && trace[n].Batch? ==> Newest(initial, trace[..n], trace[n].sent.version)
  }

  lemma {:induction false} AsksMeans(initial: string, trace: seq<Event>)
    ensures AsksLatest(initial, trace) <==> Asks(initial, trace)
  {
    if trace != [] {
      var front, last := trace[..|trace| - 1], trace[|trace| - 1];
      AsksMeans(initial, front);
      assert forall n :: 0 <= n < |front| ==> front[n] == trace[n] && front[..n] == trace[..n];
      if last.Read? && last.asked.Some? {
        LatestExactly(initial, front, last.asked.value);
      }
    }
  }

  lemma {:induction false} ReportsMeans(initial: string, trace: seq<Event>)
    ensures ReportsLatest(initial, trace) <==> Reports(initial, trace)
  {
    if trace != [] {
      var front, last := trace[..|trace| - 1], trace[|trace| - 1];
      ReportsMeans(initial, front);
      assert forall n :: 0 <= n < |front| ==> front[n] == trace[n] && front[..n] == trace[..n];
      if last.Batch? {
        LatestExactly(initial, front, last.sent.version);
      }
    }
  }

  /** What the running summary says of a trace, in full. */
  lemma SummaryTells(initial: string, trace: seq<Event>)
    ensures var d := Summarise(initial, trace);
            && d.received == Reads(trace) && d.sent == Sent(trace) && Newest(initial, trace, d.latest)
            && (d.asks <==> Asks(initial, trace)) && (d.reports <==> Reports(initial, trace))
  {
    SummaryMeans(initial, trace);
    LatestIsNewest(initial, trace);
    AsksMeans(initial, trace);
    ReportsMeans(initial, trace);
  }

  /** The last event was in order. */
  lemma LastReplays(trace: seq<Event>)
    requires Replay(trace).Some? && trace != []
    ensures Replay(trace[..|trace| - 1]).Some?
    ensures Replay(trace) == After(Replay(trace[..|trace| - 1]).value, trace[|trace| - 1])
  {
  }

  /** Once the session was looked at, no handle is opened any more where none was. */
  lemma StepKeepsKind(view: View, event: Event)
    requires After(view, event).Some? && view.checks > 0
    ensures After(view, event).value.checks > 0
    ensures After(view, event).value.handle.Unopened? <==> view.handle.Unopened?
  {
  }

  lemma StepFindsEnd(view: View, event: Event)
    requires After(view, event).Some?
    ensures After(view, event).value.atEnd <==> view.atEnd || (event.Read? && event.eof)
  {
  }

  lemma ReadKind(view: View, event: Event)
    requires After(view, event).Some? && event.Read?
    ensures view.checked && (event.asked.Some? <==> view.handle.Unopened?)
    ensures After(view, event).value.handle == view.handle && After(view, event).value.checks == view.checks
  {
  }

  /** Whoever asks never opens a handle, so all reads of one follow are of one kind. */
  lemma {:induction false} HowItRead(trace: seq<Event>, n: nat)
    requires Replay(trace).Some? && n < |trace| && trace[n].Read?
    ensures var view := Replay(trace).value;
            && (trace[n].asked.Some? <==> view.handle.Unopened?) && view.checks > 0
  {
    var front, last := trace[..|trace| - 1], trace[|trace| - 1];
    LastReplays(trace);
    if n < |front| {
      HowItRead(front, n);
      StepKeepsKind(Replay(front).value, last);
    } else {
      ReadKind(Replay(front).value, last);
      ReadWasLooked(front);
    }
  }

  lemma {:induction false} ReadWasLooked(trace: seq<Event>)
    requires Replay(trace).Some? && Replay(trace).value.checked
    ensures Replay(trace).value.checks > 0
  {
    if !trace[|trace| - 1].Checked? {
      ReadWasLooked(trace[..|trace| - 1]);
    }
  }

  lemma Grows(initial: string, trace: seq<Event>, event: Event)
    ensures Replay(trace + [event]) == if Replay(trace).None? then None else After(Replay(trace).value, event)
    ensures Summarise(initial, trace + [event]) == Add(Summarise(initial, trace), event)
  {
    assert (trace + [event])[..|trace|] == trace;
  }

  // ---------- What an orderly trace promises ----------

  lemma {:induction false} PrefixReplays(trace: seq<Event>, n: nat)
    requires n <= |trace| && Replay(trace).Some?
    ensures Replay(trace[..n]).Some?
  {
    if n == |trace| {
      assert trace[..n] == trace;
    } else {
      PrefixReplays(trace[..|trace| - 1], n);
      assert trace[..|trace| - 1][..n] == trace[..n];
    }
  }

  /** The event after a prefix was in order. */
  lemma StepReplays(trace: seq<Event>, n: nat)
    requires n < |trace| && Replay(trace).Some?
    ensures Replay(trace[..n]).Some? && Replay(trace[..n + 1]) == After(Replay(trace[..n]).value, trace[n])
    ensures Replay(trace[..n + 1]).Some?
  {
    PrefixReplays(trace, n);
    PrefixReplays(trace, n + 1);
    assert trace[..n + 1][..n] == trace[..n];
  }

  predicate Recorded(ending: Ending) {
    ending.FailedOpen? || ending.FailedClosed?
  }

  /** Once it was closed or failed, the stream never runs again. */
  lemma {:induction false} EndedStays(trace: seq<Event>, k: nat)
    requires Replay(trace).Some? && k < |trace| && (trace[k].Closed? || trace[k].Failed?)
    ensures !Replay(trace).value.ending.Running?
  {
    if k < |trace| - 1 {
      EndedStays(trace[..|trace| - 1], k);
    }
  }

  /** `close_admin_stream` is called at most once for a stream, and never after a failure was recorded. */
  lemma ClosedOnce(trace: seq<Event>, n: nat, m: nat)
    requires Replay(trace).Some? && n < m < |trace| && trace[m].Closed?
    ensures !trace[n].Closed? && !trace[n].Failed?
  {
    StepReplays(trace, m);
    if trace[n].Closed? || trace[n].Failed? {
      EndedStays(trace[..m], n);
    }
  }

  /** After `stream_stopped` was sent the stream stays stopped. */
  lemma {:induction false} StoppedStays(trace: seq<Event>, k: nat)
    requires Replay(trace).Some? && k < |trace| && trace[k].StoppedSent?
    ensures Replay(trace).value.ending.Stopped?
  {
    if k < |trace| - 1 {
      StoppedStays(trace[..|trace| - 1], k);
    }
  }

  /** The message that stops the stream is the first one. */
  lemma LastStops(trace: seq<Event>) returns (close: nat)
    requires Replay(trace).Some? && trace != [] && trace[|trace| - 1].StoppedSent?
    ensures close < |trace| - 1 && trace[close].Closed? && trace[close].byLoop
    ensures Replay(trace).value.ending == Stopped(trace[close].reason, trace[close].sessionStatus)
    ensures trace[close].batches == Replay(trace).value.batches &&
            trace[|trace| - 1] == StoppedSent(trace[close].reason)
    ensures forall k :: 0 <= k < |trace| - 1 ==> !trace[k].StoppedSent?
    ensures forall k :: close < k < |trace| - 1 ==> trace[k].Released?
  {
    var front := trace[..|trace| - 1];
    close := LoopClosedMeans(front);
    forall k | 0 <= k < |front| ensures !front[k].StoppedSent? && trace[k] == front[k] {
      if front[k].StoppedSent? {
        StoppedStays(front, k);
      }
    }
  }

  lemma OnlyReleased(view: View, event: Event)
    requires After(view, event).Some? && After(view, event).value.ending.Stopped? && !event.StoppedSent?
    ensures event.Released? && After(view, event).value == view.(handle := Gone) && view.ending.Stopped?
  {
  }

  /** Once the stream is stopped, exactly one `stream_stopped` was sent: the loop had closed the stream with that reason
      and nothing else happened to it. */
  lemma {:induction false} StoppedMeans(trace: seq<Event>) returns (close: nat, stop: nat)
    requires Replay(trace).Some? && Replay(trace).value.ending.Stopped?
    ensures close < stop < |trace| && trace[close].Closed? && trace[close].byLoop
    ensures Replay(trace).value.ending == Stopped(trace[close].reason, trace[close].sessionStatus)
    ensures trace[close].batches == Replay(trace).value.batches && trace[stop] == StoppedSent(trace[close].reason)
    ensures forall k :: 0 <= k < |trace| && k != stop ==> !trace[k].StoppedSent?
    ensures forall k :: close < k < |trace| && k != stop ==> trace[k].Released?
  {
    if trace[|trace| - 1].StoppedSent? {
      close := LastStops(trace);
      stop := |trace| - 1;
    } else {
      var front := trace[..|trace| - 1];
      OnlyReleased(Replay(front).value, trace[|trace| - 1]);
      close, stop := StoppedMeans(front);
      assert forall k :: 0 <= k < |front| ==> trace[k] == front[k];
    }
  }

  lemma {:induction false} LoopClosedMeans(trace: seq<Event>) returns (close: nat)
    requires Replay(trace).Some? && Replay(trace).value.ending.LoopClosed?
    ensures close < |trace| && trace[close].Closed? && trace[close].byLoop
    ensures trace[close].reason == Replay(trace).value.ending.reason
    ensures trace[close].batches == Replay(trace).value.batches
    ensures trace[close].sessionStatus == Replay(trace).value.ending.sessionStatus
    ensures forall k :: close < k < |trace| ==> trace[k].Released?
  {
    if trace[|trace| - 1].Closed? {
      close := |trace| - 1;
    } else {
      close := LoopClosedMeans(trace[..|trace| - 1]);
    }
  }

  lemma {:induction false} FailedStays(trace: seq<Event>, k: nat)
    requires Replay(trace).Some? && k < |trace| && trace[k].Failed?
    ensures Recorded(Replay(trace).value.ending)
  {
    if k < |trace| - 1 {
      FailedStays(trace[..|trace| - 1], k);
    }
  }

  /** A failure is recorded at most once. */
  lemma FailedOnce(trace: seq<Event>, n: nat, m: nat)
    requires Replay(trace).Some? && n < m < |trace| && trace[m].Failed?
    ensures !trace[n].Failed?
  {
    StepReplays(trace, m);
    if trace[n].Failed? {
      FailedStays(trace[..m], n);
    }
  }

  /** The last look found the session active, and nothing was read since. */
  lemma {:induction false} LookedBefore(trace: seq<Event>) returns (look: nat)
    requires Replay(trace).Some? && Replay(trace).value.checked
    ensures look < |trace| && trace[look].Checked? && trace[look].active && trace[look].at == Replay(trace).value.looked
    ensures forall k :: look < k < |trace| ==> !trace[k].Checked? && !trace[k].Read?
  {
    if trace[|trace| - 1].Checked? {
      look := |trace| - 1;
    } else {
      look := LookedBefore(trace[..|trace| - 1]);
    }
  }

  /** Every read is in the await right after one that found the session active, with no other look or
      read in between. */
  lemma ReadAfterCheck(trace: seq<Event>, n: nat) returns (look: nat)
    requires Replay(trace).Some? && n < |trace| && trace[n].Read?
    ensures look < n && trace[look].Checked? && trace[look].active && trace[n].at == trace[look].at + 1
    ensures forall k :: look < k < n ==> !trace[k].Checked? && !trace[k].Read?
  {
    StepReplays(trace, n);
    look := LookedBefore(trace[..n]);
    assert forall k :: 0 <= k < n ==> trace[k] == trace[..n][k];
  }

  // ---------- What the order of events is ----------

  /** The events that looked at the session. */
  function Looks(trace: seq<Event>): set<nat> {
    set n: nat | n < |trace| && trace[n].Checked?
  }

  lemma LooksGrow(front: seq<Event>, last: Event)
    ensures |Looks(front + [last])| == |Looks(front)| + if last.Checked? then 1 else 0
  {
    assert Looks(front + [last]) == Looks(front) + if last.Checked? then {|front|} else {};
  }

  /** The counters count: batches sent, reads, and looks at the session. */
  lemma {:induction false} ViewCounts(trace: seq<Event>)
    requires Replay(trace).Some?
    ensures var view := Replay(trace).value;
            view.batches == |Sent(trace)| && view.fetched == |Reads(trace)| && view.checks == |Looks(trace)|
  {
    if trace == [] {
      assert Looks(trace) == {};
    } else {
      var front, last := trace[..|trace| - 1], trace[|trace| - 1];
      ViewCounts(front);
      LooksGrow(front, last);
      assert trace == front + [last];
    }
  }

  /** Batches are numbered from one; heartbeats and the close carry the number of batches before them. */
  lemma NumbersInOrder(trace: seq<Event>, n: nat)
    requires Replay(trace).Some? && n < |trace|
    ensures trace[n].Batch? ==> trace[n].index == |Sent(trace[..n])| + 1
    ensures trace[n].Heartbeat? ==> trace[n].beat == |Sent(trace[..n])|
    ensures trace[n].Closed? ==> trace[n].batches == |Sent(trace[..n])|
  {
    StepReplays(trace, n);
    ViewCounts(trace[..n]);
  }

  /** Something was read and not passed on. */
  lemma {:induction false} PendingMeans(trace: seq<Event>) returns (read: nat)
    requires Replay(trace).Some? && Replay(trace).value.pending
    ensures read < |trace| && trace[read].Read?
    ensures forall k :: read < k < |trace| ==> !trace[k].Checked? && !trace[k].Read? && !trace[k].Batch?
  {
    if trace[|trace| - 1].Read? {
      read := |trace| - 1;
    } else {
      read := PendingMeans(trace[..|trace| - 1]);
    }
  }

  /** Every batch passes on the read before it, which no other batch does, and before the session is looked at again. */
  lemma BatchAfterRead(trace: seq<Event>, n: nat) returns (read: nat)
    requires Replay(trace).Some? && n < |trace| && trace[n].Batch?
    ensures read < n && trace[read].Read?
    ensures forall k :: read < k < n ==> !trace[k].Checked? && !trace[k].Read? && !trace[k].Batch?
  {
    StepReplays(trace, n);
    read := PendingMeans(trace[..n]);
    assert forall k :: 0 <= k < n ==> trace[k] == trace[..n][k];
  }

  /** What became of the handle is what its three events say. */
  lemma {:induction false} HandleMeans(trace: seq<Event>)
    requires Replay(trace).Some?
    ensures var handle := Replay(trace).value.handle;
            && (handle.Unopened? <==> forall k :: 0 <= k < |trace| ==> !trace[k].Prepared?)
            && (handle.Open? || handle.Gone? <==> exists k :: 0 <= k < |trace| && trace[k].Opened?)
            && (handle.Gone? <==> exists k :: 0 <= k < |trace| && trace[k].Released?)
  {
    if trace != [] {
      var front := trace[..|trace| - 1];
      HandleMeans(front);
      assert forall k :: 0 <= k < |front| ==> front[k] == trace[k];
      assert trace[|trace| - 1].Prepared? || trace[|trace| - 1].Opened? || trace[|trace| - 1].Released? ||
             Replay(trace).value.handle == Replay(front).value.handle;
    }
  }

  /** The access is checked before anything else, the handle opened after that, read from while it is open, and closed
      once. */
  lemma HandleInOrder(trace: seq<Event>, n: nat)
    requires Replay(trace).Some? && n < |trace|
    ensures trace[n].Prepared? ==> forall k :: 0 <= k < n ==> !trace[k].Prepared? && !trace[k].Checked?
    ensures trace[n].Opened? ==> exists k :: 0 <= k < n && trace[k].Prepared?
    ensures trace[n].Opened? || trace[n].Released? ==>
              (trace[n].Released? <==> exists k :: 0 <= k < n && trace[k].Opened?)
    ensures trace[n].Read? ==> (trace[n].asked.None? <==> exists k :: 0 <= k < n && trace[k].Opened?)
    ensures trace[n].Read? || trace[n].Released? ==> forall k :: 0 <= k < n ==> !trace[k].Released?
  {
    StepReplays(trace, n);
    HandleMeans(trace[..n]);
    ViewCounts(trace[..n]);
    assert forall k :: 0 <= k < n ==> trace[k] == trace[..n][k];
    if trace[n].Prepared? {
      forall k: nat | k < n ensures !trace[k].Checked? {
        assert k !in Looks(trace[..n]);
      }
    }
  }

  /** Some read before this event found the end of the provider's stream. */
  ghost predicate EndRead(trace: seq<Event>, n: nat)
    requires n <= |trace|
  {
    exists k :: 0 <= k < n && trace[k].Read? && trace[k].eof
  }

  lemma {:induction false} AtEndMeans(trace: seq<Event>)
    requires Replay(trace).Some?
    ensures Replay(trace).value.atEnd <==> EndRead(trace, |trace|)
  {
    if trace != [] {
      var front, last := trace[..|trace| - 1], trace[|trace| - 1];
      LastReplays(trace);
      AtEndMeans(front);
      StepFindsEnd(Replay(front).value, last);
      EndReadGrows(front, last);
      assert trace == front + [last];
    }
  }

  lemma EndReadGrows(front: seq<Event>, last: Event)
    ensures EndRead(front + [last], |front| + 1) <==> EndRead(front, |front|) || (last.Read? && last.eof)
  {
    var trace := front + [last];
    assert forall k :: 0 <= k < |front| ==> front[k] == trace[k];
    assert trace[|front|] == last;
  }

  /** Nothing is read after the end, and a loop that met it closes the stream for that reason unless it is cancelled. */
  lemma EndsAtEof(trace: seq<Event>, n: nat)
    requires Replay(trace).Some? && n < |trace|
    ensures trace[n].Read? ==> !EndRead(trace, n)
    ensures trace[n].Closed? && trace[n].reason.ProviderEof? ==> EndRead(trace, n)
    ensures trace[n].Closed? && trace[n].byLoop && EndRead(trace, n) ==>
              trace[n].reason.ProviderEof? || trace[n].reason.ClientDisconnect?
  {
    StepReplays(trace, n);
    AtEndMeans(trace[..n]);
    assert forall k :: 0 <= k < n ==> trace[k] == trace[..n][k];
    assert EndRead(trace, n) <==> EndRead(trace[..n], n);
  }

  /** Once the loop has closed the stream or recorded a failure, it only says that the stream stopped, and closes the
      handle. */
  lemma NothingAfterEnd(trace: seq<Event>, n: nat, m: nat)
    requires Replay(trace).Some? && n < m < |trace| && (trace[n].Failed? || (trace[n].Closed? && trace[n].byLoop))
    ensures trace[m].StoppedSent? || trace[m].Released?
    ensures trace[n].Failed? ==> trace[m].Released?
  {
    StepReplays(trace, m);
    if trace[n].Failed? {
      FailedStays(trace[..m], n);
    } else {
      LoopClosedStays(trace[..m], n);
    }
  }

  lemma {:induction false} LoopClosedStays(trace: seq<Event>, k: nat)
    requires Replay(trace).Some? && k < |trace| && trace[k].Closed? && trace[k].byLoop
    ensures Replay(trace).value.ending.LoopClosed? || Replay(trace).value.ending.Stopped?
  {
    if k < |trace| - 1 {
      LoopClosedStays(trace[..|trace| - 1], k);
    }
  }

  /** Something was served in one of the awaits `from`, ..., `until - 1`. */
  ghost predicate Hit(served: nat -> bool, from: nat, until: nat) {
    exists k: nat :: from <= k < until && served(k)
  }

  /** Since then one heartbeat was sent, with the number of batches, and nothing else but the close of the stream. */
  ghost predicate Beats(before: seq<Event>, after: seq<Event>, batches: nat) {
    && |before| < |after| && before <= after && after[|before|] == Heartbeat(batches)
    && forall n :: |before| < n < |after| ==> after[n].Closed?
  }
}
