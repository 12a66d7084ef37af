/**
  The follow consumers: one loop per stream, and a `disconnect` that may be served, like a cancellation of the loop,
  in any of the loop's awaits.  Awaits are numbered; the environment says what each of them brings, so a statement
  about every environment is a statement about every interleaving.  Calls to the database are logged when they are
  submitted, in the order in which its one thread serves them.
 */
module FollowConsumer {
  import opened Options
  import opened LogFollow
  import opened FollowTrace

  type Duration = r: real | 0.0 <= r

  datatype Session = Session(active: bool, status: string, code: string)

  /** What `_active_stream_session_close_reason` makes of an inactive session. */
  function CloseCode(state: Session): string {
    if state.code != "" then state.code else "admin_session_not_active"
  }

  datatype Answer = Refused(error: string) | Answered(body: Body)

  datatype Chunk = Broken | Chunk(items: Lines, eof: bool)

  /** `prepares`, `opens`: the error of the attempt, if it fails; `shape`, `versionOf`: what the payload builders make
      of the raw items, and the resource version they find in them (none in log lines). */
  datatype Env = Env(session: nat -> Session, answer: nat -> Answer, chunk: nat -> Chunk,
                     prepares: nat -> Option<string>, opens: nat -> bool,
                     shape: Lines -> Lines, versionOf: Lines -> string,
                     elapse: nat -> Duration, disconnects: nat -> bool, cancels: nat -> bool)

  /** The raw items of a chunk and the resource version in them. */
  function RawBody(env: Env, items: Lines): Body {
    Body(Raw(items), if items == [] then "" else env.versionOf(items))
  }

  /** What the event says it saw is what the environment showed in that await. */
  predicate Shown(env: Env, event: Event) {
    match event
    case Checked(at, active) => active == env.session(at).active
    case Prepared(at) => env.prepares(at).None?
    case Opened(at) => env.opens(at)
    case Read(at, asked, got, eof) =>
      if asked.Some? then env.answer(at) == Answered(got) && !eof
      else env.chunk(at).Chunk? && got == RawBody(env, env.chunk(at).items) && eof == env.chunk(at).eof
    case Failed(failure) =>
      (match failure.cause
       case Preparing => env.prepares(failure.at) == Some(failure.code)
       case Opening => !env.opens(failure.at)
       case Reading => env.chunk(failure.at).Broken?
       case Polling => env.answer(failure.at) == Refused(failure.code))
    case _ => true
  }

  predicate Honest(env: Env, trace: seq<Event>) {
    trace == [] || (Honest(env, trace[..|trace| - 1]) && Shown(env, trace[|trace| - 1]))
  }

  /** What every read of an honest trace brought. */
  lemma {:induction false} HonestRead(env: Env, trace: seq<Event>, n: nat)
    requires Honest(env, trace) && n < |trace| && trace[n].Read?
    ensures trace[n].asked.Some? ==> env.answer(trace[n].at) == Answered(trace[n].got) && !trace[n].eof
    ensures trace[n].asked.None? ==>
              var chunk := env.chunk(trace[n].at);
              && chunk.Chunk? && trace[n].got.payload == Raw(chunk.items) && trace[n].eof == chunk.eof
              && trace[n].got.version == if chunk.items == [] then "" else env.versionOf(chunk.items)
  {
    if n < |trace| - 1 {
      HonestRead(env, trace[..|trace| - 1], n);
    }
  }

  /** And every look at the session. */
  lemma {:induction false} HonestLook(env: Env, trace: seq<Event>, n: nat)
    requires Honest(env, trace) && n < |trace| && trace[n].Checked?
    ensures trace[n].active == env.session(trace[n].at).active
  {
    if n < |trace| - 1 {
      HonestLook(env, trace[..|trace| - 1], n);
    }
  }

  /** The first `n` events were in order and honest, and come to this view and this summary. */
  ghost predicate Told(env: Env, initial: string, trace: seq<Event>, n: nat, view: View, summary: Delivery)
    requires n <= |trace|
  {
    Replay(trace[..n]) == Some(view) && Summarise(initial, trace[..n]) == summary && Honest(env, trace[..n])
  }

  /** The same of the whole trace, behind a quantifier that keeps the recursion out of proofs that need none of it. */
  ghost predicate Recounted(env: Env, initial: string, trace: seq<Event>, view: View, summary: Delivery) {
    forall n: nat :: n == |trace| ==> Told(env, initial, trace, n, view, summary)
  }

  lemma RecountedMeans(env: Env, initial: string, trace: seq<Event>, view: View, summary: Delivery)
    ensures Recounted(env, initial, trace, view, summary) <==>
            Replay(trace) == Some(view) && Summarise(initial, trace) == summary && Honest(env, trace)
  {
    assert trace[..|trace|] == trace;
    assert Told(env, initial, trace, |trace|, view, summary) <==>
           Replay(trace) == Some(view) && Summarise(initial, trace) == summary && Honest(env, trace);
  }

  lemma RecountedGrows(env: Env, initial: string, trace: seq<Event>, event: Event, view: View, summary: Delivery)
    requires Recounted(env, initial, trace, view, summary) && After(view, event).Some? && Shown(env, event)
    ensures Recounted(env, initial, trace + [event], After(view, event).value, Add(summary, event))
  {
    RecountedMeans(env, initial, trace, view, summary);
    Grows(initial, trace, event);
    assert (trace + [event])[..|trace|] == trace;
    RecountedMeans(env, initial, trace + [event], After(view, event).value, Add(summary, event));
  }

  datatype Stream = Stream(id: nat, started: real)

  datatype Outcome = Finished(reason: Reason) | Superseded | FailedAt(await: nat) | Cancelled

  /** A round goes on with what await `i` brought, ends the loop, or was left for good. */
  datatype Verdict = Proceed(await: nat) | Break(reason: Reason) | Left(outcome: Outcome)

  class FollowConsumer {
    const env: Env

    var activeStream: Option<Stream>
    var lastPayload: Option<Payload>
    /** `session_status` of the last payload; empty where it has none. */
    var sessionStatus: string
    var batchCount: nat
    var finalized: bool

    var now: real
    var awaits: nat

    /** What happened to the tracked stream, the resource version it was asked to follow from, and what both come to. */
    var trace: seq<Event>
    ghost var initial: string
    ghost var view: View
    ghost var summary: Delivery

    constructor (env: Env)
      ensures this.env == env && Valid() && activeStream.None? && !finalized && awaits == 0 && now == 0.0
    {
      this.env := env;
      activeStream, lastPayload, sessionStatus, batchCount, finalized := None, None, "", 0, false;
      now, awaits, trace, initial, view, summary := 0.0, 0, [], "", START, Summarise("", []);
      RecountedMeans(env, "", [], START, Summarise("", []));
    }

    /** Since then the trace only got the close of the stream. */
    ghost predicate OnlyClosed(before: seq<Event>)
      reads `trace
    {
      before <= trace && forall n :: |before| <= n < |trace| ==> trace[n].Closed?
    }

    ghost predicate Valid()
      reads `activeStream, `batchCount, `finalized, `trace, `initial, `view, `summary
    {
      && Recounted(env, initial, trace, view, summary)
      && view.batches == batchCount && (finalized <==> !view.ending.Running?)
      && (activeStream.None? ==> trace == [])
    }

    /** The loop that began at await `from` still runs: nothing cancelled it, and only a disconnect may have closed its
        stream. */
    ghost predicate Following(from: nat)
      reads this
    {
      && Valid() && activeStream.Some? && from <= awaits && !Hit(env.cancels, from, awaits)
      && view.ending == if Hit(env.disconnects, from, awaits) then PeerClosed else Running
    }

    /** What the trace of a stream comes to. */
    lemma TraceMeans()
      requires Valid()
      ensures Replay(trace) == Some(view) && Summarise(initial, trace) == summary && Honest(env, trace)
      ensures trace == [] ==> view == START && summary == Delivery([], [], initial, true, true)
    {
      RecountedMeans(env, initial, trace, view, summary);
    }

    method TrackFollowStream(stream: Stream, payload: Payload, ghost version: string)
      modifies `activeStream, `lastPayload, `sessionStatus, `batchCount, `finalized, `trace, `initial, `view, `summary
      ensures Following(awaits) && trace == [] && initial == version && activeStream == Some(stream)
      ensures lastPayload == Some(payload) && sessionStatus == "" && batchCount == 0 && !finalized
    {
      activeStream, lastPayload, sessionStatus, batchCount, finalized := Some(stream), Some(payload), "", 0, false;
      trace, initial, view, summary := [], version, START, Summarise(version, []);
      RecountedMeans(env, version, [], START, summary);
    }

    /** An event that leaves the stream open or comes after it was closed. */
    method Emit(event: Event)
      requires Valid() && activeStream.Some? && After(view, event).Some? && Shown(env, event)
      requires !event.Batch? && !event.Closed? && !event.Failed?
      modifies `trace, `view, `summary
      ensures Valid() && trace == old(trace) + [event]
      ensures view == After(old(view), event).value && summary == Add(old(summary), event)
    {
      RecountedGrows(env, initial, trace, event, view, summary);
      trace, view, summary := trace + [event], After(view, event).value, Add(summary, event);
    }

    /** `_track_follow_batch` and the message that passes the batch on. */
    method Deliver(body: Body)
      requires Valid() && activeStream.Some? && view.pending && Live(view.ending)
      modifies `trace, `view, `summary, `lastPayload, `sessionStatus, `batchCount
      ensures Valid() && batchCount == old(batchCount) + 1 && trace == old(trace) + [Batch(batchCount, body)]
      ensures view == old(view).(pending := false, batches := batchCount)
      ensures summary == Add(old(summary), Batch(batchCount, body))
      ensures lastPayload == Some(body.payload) && sessionStatus == ""
    {
      lastPayload, sessionStatus, batchCount := Some(body.payload), "", batchCount + 1;
      RecountedGrows(env, initial, trace, Batch(batchCount, body), view, summary);
      trace, summary := trace + [Batch(batchCount, body)], Add(summary, Batch(batchCount, body));
      view := view.(pending := false, batches := batchCount);
    }

    /** The segment of `_close_active_stream` before its only await: the flag is read and set with
        nothing in between. */
    method CloseActiveStream(byLoop: bool, reason: Reason) returns (closed: bool)
      requires Valid() && MayClose(view, byLoop, reason)
      modifies `finalized, `trace, `view
      ensures Valid() && closed == (activeStream.Some? && !old(finalized))
      ensures closed ==> trace == old(trace) + [Closed(byLoop, reason, batchCount, sessionStatus)]
      ensures closed ==> view == old(view).(ending := if byLoop then LoopClosed(reason, sessionStatus) else PeerClosed)
      ensures !closed ==> trace == old(trace) && view == old(view) && finalized == old(finalized)
    {
      if activeStream.None? || finalized {
        return false;
      }
      RecountedGrows(env, initial, trace, Closed(byLoop, reason, batchCount, sessionStatus), view, summary);
      finalized := true;
      trace := trace + [Closed(byLoop, reason, batchCount, sessionStatus)];
      view := view.(ending := if byLoop then LoopClosed(reason, sessionStatus) else PeerClosed);
      return true;
    }

    method Disconnect()
      requires Valid()
      modifies `finalized, `trace, `view
      ensures Valid()
      ensures activeStream.None? || old(finalized) ==> trace == old(trace) && view == old(view)
      ensures activeStream.Some? && !old(finalized) ==> view == old(view).(ending := PeerClosed)
      ensures OnlyClosed(old(trace))
    {
      var _ := CloseActiveStream(false, ClientDisconnect);
    }

    /** Await `i`, which lasts at least `least`. */
    method Await(least: Duration, ghost from: nat) returns (i: nat, cancelled: bool)
      requires Valid() && activeStream.Some? && from <= awaits
      modifies `now, `awaits, `finalized, `trace, `view
      ensures Valid() && i == old(awaits) && awaits == i + 1 && cancelled == env.cancels(i) && now >= old(now) + least
      ensures old(finalized) ==> trace == old(trace) && view == old(view)
      ensures !old(finalized) ==> view == old(view).(ending := if env.disconnects(i) then PeerClosed else Running)
      ensures OnlyClosed(old(trace))
      ensures Hit(env.cancels, from, awaits) <==> cancelled || Hit(env.cancels, from, i)
      ensures Hit(env.disconnects, from, awaits) <==> env.disconnects(i) || Hit(env.disconnects, from, i)
    {
      i := awaits;
      awaits, now := awaits + 1, now + least + env.elapse(i);
      if env.disconnects(i) {
        Disconnect();
      }
      cancelled := env.cancels(i);
    }

    /** Up to `count` awaits after the stream was finalised: a disconnect changes nothing any more. */
    method Linger(count: nat, ghost from: nat) returns (cancelled: bool)
      requires Valid() && activeStream.Some? && finalized && from <= awaits && !Hit(env.cancels, from, awaits)
      modifies `now, `awaits, `finalized, `trace, `view
      ensures Valid() && trace == old(trace) && view == old(view)
      ensures old(awaits) <= awaits && cancelled == Hit(env.cancels, from, awaits) && now >= old(now)
    {
      for n := 0 to count
        invariant Valid() && trace == old(trace) && view == old(view)
        invariant old(awaits) <= awaits && !Hit(env.cancels, from, awaits) && now >= old(now)
      {
        var i;
        i, cancelled := Await(0.0, from);
        if cancelled {
          return true;
        }
      }
      return false;
    }

    /** The handler of a cancellation: whatever the state, the stream ends up finalised. */
    method Abandon(ghost from: nat)
      requires Valid() && activeStream.Some? && from <= awaits && Hit(env.cancels, from, awaits)
      modifies `now, `awaits, `finalized, `trace, `view
      ensures Valid() && finalized && old(awaits) <= awaits && Hit(env.cancels, from, awaits) && now >= old(now)
      ensures view == old(view).(ending := view.ending) && OnlyClosed(old(trace))
      ensures view.ending == if old(finalized) then old(view).ending else LoopClosed(ClientDisconnect, sessionStatus)
    {
      var closed := CloseActiveStream(true, ClientDisconnect);
      if closed {
        var i, cancelled := Await(0.0, from);
      }
    }

    /** An await of a loop that still runs; a cancellation in it ends the loop. */
    method Suspend(least: Duration, ghost from: nat) returns (verdict: Verdict)
      requires Following(from)
      modifies `now, `awaits, `finalized, `trace, `view
      ensures now >= old(now) && (verdict.Proceed? ==> now >= old(now) + least)
      ensures verdict == Left(Cancelled) || verdict == Proceed(old(awaits))
      ensures view == old(view).(ending := view.ending) && OnlyClosed(old(trace))
      ensures verdict.Left? ==> Gone(Cancelled, from)
      ensures verdict.Proceed? ==> Following(from) && awaits == old(awaits) + 1
    {
      var i, cancelled := Await(least, from);
      if cancelled {
        Abandon(from);
        return Left(Cancelled);
      }
      return Proceed(i);
    }

    /** How every loop that began at await `from` leaves its stream: finalised once, and stopped exactly when nothing
        cancelled, failed or disconnected it before it closed. */
    ghost predicate Gone(outcome: Outcome, from: nat)
      reads this
    {
      && Valid() && finalized && from <= awaits && (outcome.Cancelled? <==> Hit(env.cancels, from, awaits))
      && match outcome
         case Finished(reason) => view.ending == Stopped(reason, sessionStatus)
         case Superseded => view.ending.PeerClosed? && Hit(env.disconnects, from, awaits)
         case FailedAt(i) =>
           && from <= i < awaits && Recorded(view.ending) && view.ending.failure.at == i
           && (view.ending.FailedClosed? <==> Hit(env.disconnects, from, i + 1))
         case Cancelled => true
    }

    /** Nothing was read since then. */
    ghost predicate Unread(before: View)
      reads `view
    {
      view.handle == before.handle && view.fetched == before.fetched && view.atEnd == before.atEnd
    }

    /** The idle check and the session check at the head of every round. */
    method Guard(idleTimeout: real, ghost from: nat) returns (verdict: Verdict)
      requires Following(from) && (view.handle.Unopened? || view.handle.Open?)
      modifies `now, `awaits, `finalized, `trace, `view, `summary, `sessionStatus
      ensures now >= old(now) && summary == old(summary) && Unread(old(view))
      ensures if verdict.Left? then verdict.outcome.Cancelled? && Gone(Cancelled, from) else Following(from)
      ensures verdict.Left? ==> view.checks == old(view).checks
      ensures verdict.Proceed? ==> view.checks == old(view).checks + 1 && view.checked && awaits == old(awaits) + 1
      ensures verdict.Proceed? ==> view.looked == old(awaits)
      ensures verdict.Proceed? ==>
              old(now) - activeStream.value.started < idleTimeout && env.session(old(awaits)).active
      ensures verdict.Break? ==> EndsRound(verdict.reason, old(view).checks, idleTimeout)
      ensures verdict.Break? ==>
              old(now) - activeStream.value.started >= idleTimeout || !env.session(old(awaits)).active
    {
      if now - activeStream.value.started >= idleTimeout {
        return Break(IdleTimeout);
      }
      verdict := Suspend(0.0, from);
      if verdict.Left? {
        return;
      }
      var state := env.session(verdict.await);
      Emit(Checked(verdict.await, state.active));
      if !state.active {
        sessionStatus := state.status;
        return Break(SessionEnded(CloseCode(state)));
      }
    }

    /** The last look found the session inactive; its status and its code are what the stream is closed with. */
    ghost predicate SessionGone(code: string)
      reads `sessionStatus, `view
    {
      var state := env.session(view.looked);
      !view.checked && !state.active && sessionStatus == state.status &&
      code == if state.code != "" then state.code else "admin_session_not_active"
    }

    /** Why a guard may end the loop: the time is up, or one more look found the session inactive. */
    ghost predicate EndsRound(reason: Reason, checks: nat, idleTimeout: real)
      reads `activeStream, `now, `view, `sessionStatus
    {
      match reason
      case IdleTimeout => activeStream.Some? && now - activeStream.value.started >= idleTimeout && view.checks == checks
      case SessionEnded(code) => SessionGone(code) && view.checks == checks + 1
      case _ => false
    }

    /** `_fail_active_stream` for what await `i`, the last one, raised. */
    method Fail(i: nat, code: string, cause: Cause, ghost from: nat) returns (outcome: Outcome)
      requires Following(from) && from <= i && i + 1 == awaits
      requires MayFail(view, Failure(i, code, cause)) && Shown(env, Failed(Failure(i, code, cause)))
      modifies `now, `awaits, `finalized, `trace, `view
      ensures Gone(outcome, from) && (outcome.Cancelled? || outcome == FailedAt(i)) && now >= old(now)
      ensures Recorded(view.ending) && view.ending.failure == Failure(i, code, cause)
      ensures view == old(view).(ending := view.ending)
    {
      var failure := Failure(i, code, cause);
      RecountedGrows(env, initial, trace, Failed(failure), view, summary);
      view := view.(ending := if view.ending.PeerClosed? then FailedClosed(failure) else FailedOpen(failure));
      finalized, trace := true, trace + [Failed(failure)];
      // the database call, the stream_error message, the close
      var cancelled := Linger(3, from);
      if cancelled {
        Abandon(from);
        return Cancelled;
      }
      return FailedAt(i);
    }

    /** The loop closed the stream: unless it is cancelled on the way, it sends one `stream_stopped` and closes. */
    method SendStopped(reason: Reason, ghost from: nat) returns (outcome: Outcome)
      requires Valid() && activeStream.Some? && finalized && from <= awaits && !Hit(env.cancels, from, awaits)
      requires view.ending == LoopClosed(reason, sessionStatus)
      modifies `now, `awaits, `finalized, `trace, `view, `summary
      ensures Gone(outcome, from) && (outcome == Finished(reason) || outcome.Cancelled?)
      ensures summary == old(summary) && view == old(view).(ending := view.ending)
      ensures now >= old(now) && awaits >= old(awaits)
    {
      var cancelled := Linger(1, from);
      if cancelled {
        return Cancelled;
      }
      Emit(StoppedSent(reason));
      cancelled := Linger(2, from);
      return if cancelled then Cancelled else Finished(reason);
    }

    /** The end of a loop that nothing raised out of. */
    method Conclude(reason: Reason, ghost from: nat) returns (outcome: Outcome)
      requires Following(from) && (reason.ProviderEof? <==> view.atEnd)
      modifies `now, `awaits, `finalized, `trace, `view, `summary
      ensures Gone(outcome, from) && summary == old(summary) && view == old(view).(ending := view.ending)
      ensures now >= old(now) && awaits >= old(awaits) && (outcome.Superseded? <==> old(view).ending.PeerClosed?)
      ensures outcome.Superseded? || outcome == Finished(reason) || outcome.Cancelled?
    {
      var closed := CloseActiveStream(true, reason);
      if !closed {
        return Superseded;
      }
      outcome := SendStopped(reason, from);
    }

    /** Before another round: a heartbeat and the poll interval. */
    method Pause(pollInterval: Duration, ghost from: nat) returns (verdict: Verdict)
      requires Following(from)
      modifies `now, `awaits, `finalized, `trace, `view, `summary
      ensures summary == old(summary) && view == old(view).(ending := view.ending) && !verdict.Break?
      ensures if verdict.Left? then verdict.outcome.Cancelled? && Gone(Cancelled, from) else Following(from)
      ensures Beats(old(trace), trace, batchCount)
    {
      Emit(Heartbeat(batchCount));
      verdict := Suspend(0.0, from);
      if verdict.Proceed? {
        verdict := Suspend(pollInterval, from);
      }
    }

    /** The rest of a round once the provider answered: the batch, its message and the pause. */
    method Relay(at: nat, asked: string, batch: Body, again: bool, pollInterval: Duration, ghost from: nat)
      returns (verdict: Verdict)
      requires Following(from) && ReadsNow(view, at, Unopened) && env.answer(at).Answered?
      modifies `now, `awaits, `finalized, `trace, `view, `summary, `sessionStatus, `lastPayload, `batchCount
      ensures batchCount == old(batchCount) + 1
      ensures summary == Add(Add(old(summary), Read(at, Some(asked), env.answer(at).body, false)),
                             Batch(batchCount, batch))
      ensures summary.received == old(summary.received) + [env.answer(at).body.payload]
      ensures summary.sent == old(summary.sent) + [batch.payload]
      ensures view.checks == old(view).checks && view.fetched == old(view).fetched + 1 && Polls()
      ensures !verdict.Break?
      ensures if verdict.Left? then verdict.outcome.Cancelled? && Gone(Cancelled, from) else Following(from)
    {
      Emit(Read(at, Some(asked), env.answer(at).body, false));
      Deliver(batch);
      verdict := Suspend(0.0, from);
      if verdict.Proceed? && again {
        verdict := Pause(pollInterval, from);
      }
    }

    /** There is no handle and so no end of a provider's stream. */
    ghost predicate Polls()
      reads `view
    {
      view.handle.Unopened? && !view.atEnd
    }

    /** The failure recorded is the one that await `i` brought. */
    ghost predicate Blamed(i: nat)
      reads `view
    {
      && Recorded(view.ending) && env.answer(i).Refused?
      && view.ending.failure == Failure(i, env.answer(i).error, Polling)
    }

    /** The part of a round that both polling loops share: the two checks and the read. */
    method Poll(idleTimeout: real, ghost from: nat) returns (verdict: Verdict)
      requires Following(from) && Polls()
      modifies `now, `awaits, `finalized, `trace, `view, `summary, `sessionStatus
      ensures summary == old(summary) && Polls() && view.fetched == old(view).fetched
      ensures if verdict.Left? then Gone(verdict.outcome, from) else Following(from)
      ensures verdict.Left? ==> old(view).checks <= view.checks <= old(view).checks + 1
      ensures verdict.Left? ==> verdict.outcome.Cancelled? || verdict.outcome == FailedAt(old(awaits) + 1)
      ensures verdict.Left? && verdict.outcome.FailedAt? ==> Blamed(verdict.outcome.await)
      ensures verdict.Proceed? ==> verdict.await == old(awaits) + 1 && env.answer(verdict.await).Answered?
      ensures verdict.Proceed? ==> view.checks == old(view).checks + 1 && ReadsNow(view, verdict.await, Unopened)
      ensures verdict.Break? ==> EndsRound(verdict.reason, old(view).checks, idleTimeout)
      ensures verdict.Break? ==>
              old(now) - activeStream.value.started >= idleTimeout || !env.session(old(awaits)).active
    {
      verdict := Guard(idleTimeout, from);
      if !verdict.Proceed? {
        return;
      }
      verdict := Suspend(0.0, from);
      if verdict.Proceed? && env.answer(verdict.await).Refused? {
        var outcome := Fail(verdict.await, env.answer(verdict.await).error, Polling, from);
        return Left(outcome);
      }
    }

    /** Every read asked for what is newer than all that had been read before. */
    ghost predicate AskedNewest()
      reads `trace, `initial
    {
      forall n :: 0 <= n < |trace| && trace[n].Read? ==>
        trace[n].asked.Some? && Newest(initial, trace[..n], trace[n].asked.value)
    }

    /** Every read was an answer of the provider. */
    ghost predicate ReadAnswers()
      reads `trace
    {
      forall n :: 0 <= n < |trace| && trace[n].Read? ==> env.answer(trace[n].at) == Answered(trace[n].got)
    }

    lemma PollsRead()
      requires Valid() && Polls()
      ensures ReadAnswers() && Reads(trace) == summary.received && Sent(trace) == summary.sent
    {
      TraceMeans();
      SummaryTells(initial, trace);
      forall n | 0 <= n < |trace| && trace[n].Read? ensures env.answer(trace[n].at) == Answered(trace[n].got) {
        HowItRead(trace, n);
        HonestRead(env, trace, n);
      }
    }

    lemma PollsAsk()
      requires Valid() && Polls() && summary.asks
      ensures AskedNewest()
    {
      TraceMeans();
      SummaryTells(initial, trace);
      forall n | 0 <= n < |trace| && trace[n].Read?
        ensures trace[n].asked.Some? && Newest(initial, trace[..n], trace[n].asked.value)
      {
        HowItRead(trace, n);
      }
    }

    /** What a polling loop promises: how the stream is left, why it stopped, and how often it looked. */
    ghost predicate Polled(outcome: Outcome, from: nat, maxBatches: nat, idleTimeout: real)
      reads this
    {
      && Gone(outcome, from) && Polls() && batchCount <= maxBatches && view.checks <= maxBatches
      && (outcome.Finished? ==>
            match outcome.reason
            case MaxBatches => batchCount == maxBatches == view.checks
            case IdleTimeout =>
              activeStream.Some? && now - activeStream.value.started >= idleTimeout &&
                batchCount == view.checks < maxBatches
            case SessionEnded(code) => SessionGone(code) && batchCount + 1 == view.checks
            case _ => false)
      && (outcome.FailedAt? ==> Blamed(outcome.await))
    }

    /** What the provider showed is reduced to what it had not shown before, and passed on. */
    method RelayNews(at: nat, last: Option<Payload>, again: bool, pollInterval: Duration,
                     ghost from: nat) returns (verdict: Verdict)
      requires Following(from) && ReadsNow(view, at, Unopened) && env.answer(at).Answered?
      requires InStep(summary.received, summary.sent, last)
      modifies `now, `awaits, `finalized, `trace, `view, `summary, `sessionStatus, `lastPayload, `batchCount
      ensures InStep(summary.received, summary.sent, Some(env.answer(at).body.payload))
      ensures batchCount == old(batchCount) + 1 && view.checks == old(view).checks &&
              view.fetched == old(view).fetched + 1
      ensures Polls()
      ensures !verdict.Break?
      ensures if verdict.Left? then verdict.outcome.Cancelled? && Gone(Cancelled, from) else Following(from)
    {
      var provided := env.answer(at).body.payload;
      ghost var received, sent := summary.received, summary.sent;
      var payload := Reduce(last, provided, received, sent);
      verdict := Relay(at, "", Body(payload, ""), again, pollInterval, from);
    }

    /** One round of `_log_follow_loop`: what the provider showed is reduced to what it had not shown before. */
    method LogRound(last: Option<Payload>, again: bool, pollInterval: Duration, idleTimeout: real, ghost from: nat)
      returns (verdict: Verdict, provided: Option<Payload>)
      requires Following(from) && Polls() && InStep(summary.received, summary.sent, last)
      modifies `now, `awaits, `finalized, `trace, `view, `summary, `sessionStatus, `lastPayload, `batchCount
      ensures InStep(summary.received, summary.sent, provided) && Polls()
      ensures if verdict.Left? then Gone(verdict.outcome, from) && !verdict.outcome.Finished? else Following(from)
      ensures verdict.Left? && verdict.outcome.FailedAt? ==> Blamed(verdict.outcome.await)
      ensures old(view).checks <= view.checks <= old(view).checks + 1
              && old(batchCount) <= batchCount <= old(batchCount) + 1
      ensures verdict.Proceed? ==> view.checks == old(view).checks + 1 && batchCount == old(batchCount) + 1
      ensures verdict.Break? ==>
              batchCount == old(batchCount) && EndsRound(verdict.reason, old(view).checks, idleTimeout)
    {
      provided := last;
      verdict := Poll(idleTimeout, from);
      if verdict.Proceed? {
        provided := Some(env.answer(verdict.await).body.payload);
        verdict := RelayNews(verdict.await, last, again, pollInterval, from);
      }
    }

    /** `_log_follow_loop`: however it ends, what it sent is what its windows deliver. */
    method LogFollowLoop(maxBatches: nat, pollInterval: Duration, idleTimeout: real) returns (outcome: Outcome)
      requires Following(awaits) && trace == [] && maxBatches >= 1
      modifies `now, `awaits, `finalized, `trace, `view, `summary, `sessionStatus, `lastPayload, `batchCount
      ensures Polled(outcome, old(awaits), maxBatches, idleTimeout)
      ensures ReadAnswers() && Concat(Sent(trace)) == Delivered(Windows(Reads(trace)))
    {
      TraceMeans();
      ghost var from := awaits;
      var lastProviderPayload: Option<Payload> := None;
      var reason, batchIndex := MaxBatches, 1;
      while batchIndex <= maxBatches
        invariant 1 <= batchIndex == batchCount + 1 <= maxBatches + 1
        invariant Following(from) && Polls() && view.checks == batchCount
        invariant InStep(summary.received, summary.sent, lastProviderPayload)
        invariant reason.MaxBatches?
        decreases maxBatches - batchIndex
      {
        var verdict, provided := LogRound(lastProviderPayload, batchIndex < maxBatches, pollInterval, idleTimeout,
                                          from);
        lastProviderPayload := provided;
        if verdict.Break? {
          reason := verdict.reason;
          break;
        }
        if verdict.Left? {
          PollsRead();
          return verdict.outcome;
        }
        batchIndex := batchIndex + 1;
      }
      outcome := Conclude(reason, from);
      PollsRead();
    }

    /** `_watch_follow_loop`: every read asks for what is newer than all that was read, and is passed on as it came. */
    method WatchFollowLoop(maxBatches: nat, pollInterval: Duration, idleTimeout: real,
                           version: string) returns (outcome: Outcome)
      requires Following(awaits) && trace == [] && maxBatches >= 1 && initial == version
      modifies `now, `awaits, `finalized, `trace, `view, `summary, `sessionStatus, `lastPayload, `batchCount
      ensures Polled(outcome, old(awaits), maxBatches, idleTimeout)
      ensures initial == version && AskedNewest() && ReadAnswers() && Sent(trace) == Reads(trace)
    {
      TraceMeans();
      ghost var from := awaits;
      var reason, batchIndex, nextResourceVersion := MaxBatches, 1, version;
      while batchIndex <= maxBatches
        invariant 1 <= batchIndex == batchCount + 1 <= maxBatches + 1
        invariant Following(from) && Polls() && view.checks == batchCount
        invariant summary.sent == summary.received && summary.asks && summary.latest == nextResourceVersion
        invariant reason.MaxBatches?
        decreases maxBatches - batchIndex
      {
        var verdict := Poll(idleTimeout, from);
        if verdict.Break? {
          reason := verdict.reason;
          break;
        }
        if verdict.Proceed? {
          var body := env.answer(verdict.await).body;
          verdict := Relay(verdict.await, nextResourceVersion, body, batchIndex < maxBatches, pollInterval, from);
          nextResourceVersion := Newer(body.version, nextResourceVersion);
        }
        if verdict.Left? {
          PollsAsk();
          PollsRead();
          return verdict.outcome;
        }
        batchIndex := batchIndex + 1;
      }
      outcome := Conclude(reason, from);
      PollsAsk();
      PollsRead();
    }

    /** A failure may be recorded for a stream that was already closed: when a disconnect is served while the read that
        fails is under way. */
    method FailureAfterClose(idleTimeout: real, error: string) returns (verdict: Verdict)
      requires Following(awaits) && Polls() && now - activeStream.value.started < idleTimeout
      requires env.session(awaits).active && env.disconnects(awaits + 1) && env.answer(awaits + 1) == Refused(error)
      requires forall k :: !env.cancels(k)
      modifies `now, `awaits, `finalized, `trace, `view, `summary, `sessionStatus
      ensures verdict.Left? && view.ending.FailedClosed?
    {
      ghost var from := awaits;
      verdict := Poll(idleTimeout, from);
    }
  }
}
