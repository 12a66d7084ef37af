/** The continuous follow loops over an open provider handle, for logs and for watches. */
module ContinuousFollow {
  import opened Options
  import opened LogFollow
  import opened FollowTrace
  import opened FollowConsumer

  // ---------- Settings ----------

  /** The text of a query parameter: absent, not a number, one of the float parser's special values, or a number that is
      written as an integer or not. */
  datatype Parameter =
    | Absent | Malformed | NotANumber | Infinite(positive: bool) | Whole(count: int) | Fraction(value: real)

  /** `bounded_stream_int`.  Its parser takes integers only, so "2.7", "inf" and "nan" give the default. */
  function BoundedInt(parameter: Parameter, fallback: int, minimum: int, maximum: int): (r: int)
    requires minimum <= maximum
    ensures minimum <= r <= maximum
    ensures parameter.Whole? && minimum <= parameter.count <= maximum ==> r == parameter.count
    ensures parameter.Whole? && parameter.count < minimum ==> r == minimum
    ensures parameter.Whole? && parameter.count > maximum ==> r == maximum
    ensures !parameter.Whole? && minimum <= fallback <= maximum ==> r == fallback
  {
    var parsed := if parameter.Whole? then parameter.count else fallback;
    if parsed < minimum then minimum else if maximum < parsed then maximum else parsed
  }

  /** What `float` makes of a number. */
  function Numeric(parameter: Parameter): Option<real> {
    match parameter
    case Whole(count) => Some(count as real)
    case Fraction(value) => Some(value)
    case _ => None
  }

  /** `bounded_stream_float`.  A "nan" survives `min` and is replaced by `max`. */
  function BoundedFloat(parameter: Parameter, fallback: real, minimum: real, maximum: real): (r: real)
    requires minimum <= maximum
    ensures minimum <= r <= maximum
    ensures Numeric(parameter).Some? && minimum <= Numeric(parameter).value <= maximum ==> r == Numeric(parameter).value
    ensures Numeric(parameter).Some? && Numeric(parameter).value < minimum ==> r == minimum
    ensures Numeric(parameter).Some? && Numeric(parameter).value > maximum ==> r == maximum
    ensures (parameter.Absent? || parameter.Malformed?) && minimum <= fallback <= maximum ==> r == fallback
    ensures parameter.NotANumber? ==> r == minimum
    ensures parameter.Infinite? ==> r == if parameter.positive then maximum else minimum
  {
    if parameter.NotANumber? then minimum
    else if parameter.Infinite? then (if parameter.positive then maximum else minimum)
    else
      var parsed := if Numeric(parameter).Some? then Numeric(parameter).value else fallback;
      if parsed < minimum then minimum else if maximum < parsed then maximum else parsed
  }

  datatype Settings = Settings(maxBatches: nat, idleTimeout: Duration, heartbeatInterval: Duration,
                               emptyReadSleep: Duration)

  function SettingsOf(maxBatches: Parameter, idle: Parameter, heartbeat: Parameter,
                      emptySleep: Parameter): (s: Settings)
    ensures 1 <= s.maxBatches <= 25 && s.idleTimeout <= 300.0 && s.emptyReadSleep >= 0.05
  {
    Settings(BoundedInt(maxBatches, 5, 1, 25), BoundedFloat(idle, 60.0, 1.0, 300.0),
             BoundedFloat(heartbeat, 10.0, 1.0, 60.0),
             BoundedFloat(emptySleep, 0.25, 0.05, 5.0))
  }

  /** The least number of sleeps that use up the idle timeout. */
  function Ticks(s: Settings): (ticks: nat)
    requires s.emptyReadSleep > 0.0
    ensures s.idleTimeout <= ticks as real * s.emptyReadSleep
    ensures ticks as real < s.idleTimeout / s.emptyReadSleep + 1.0
  {
    var quotient := s.idleTimeout / s.emptyReadSleep;
    assert quotient >= 0.0 && quotient * s.emptyReadSleep == s.idleTimeout;
    var ticks := -((-quotient).Floor);
    assert quotient <= ticks as real;
    Scale(quotient, ticks as real, s.emptyReadSleep);
    ticks
  }

  lemma Scale(x: real, y: real, factor: real)
    requires x <= y && factor >= 0.0
    ensures x * factor <= y * factor
  {
  }

  /** Numbers in the bounds are taken as they are, and larger or smaller ones become the bounds. */
  lemma SettingsMeant(batches: int, idle: real, heartbeat: real, sleep: real)
    ensures var s := SettingsOf(Whole(batches), Fraction(idle), Fraction(heartbeat), Fraction(sleep));
            && s.maxBatches == (if batches < 1 then 1 else if batches > 25 then 25 else batches)
            && s.idleTimeout == (if idle < 1.0 then 1.0 else if idle > 300.0 then 300.0 else idle)
            && s.heartbeatInterval == (if heartbeat < 1.0 then 1.0 else if heartbeat > 60.0 then 60.0 else heartbeat)
            && s.emptyReadSleep == if sleep < 0.05 then 0.05 else if sleep > 5.0 then 5.0 else sleep
  {
  }

  /** By default a follow makes at most 245 rounds. */
  lemma RoundsByDefault()
    ensures SettingsOf(Absent, Absent, Absent, Absent) == Settings(5, 60.0, 10.0, 0.25)
    ensures Ticks(Settings(5, 60.0, 10.0, 0.25)) == 240
  {
    assert 60.0 / 0.25 == 240.0;
  }

  /** Whatever the query asks for, a follow makes at most 6025 rounds. */
  lemma RoundsAtMost(maxBatches: Parameter, idle: Parameter, heartbeat: Parameter, emptySleep: Parameter)
    ensures var s := SettingsOf(maxBatches, idle, heartbeat, emptySleep); s.maxBatches + Ticks(s) <= 6025
  {
    var s := SettingsOf(maxBatches, idle, heartbeat, emptySleep);
    QuotientAtMost(s.idleTimeout, s.emptyReadSleep);
  }

  lemma QuotientAtMost(idle: real, sleep: real)
    requires 0.0 <= idle <= 300.0 && sleep >= 0.05
    ensures idle / sleep <= 6000.0
  {
    var quotient := idle / sleep;
    assert quotient >= 0.0 && sleep * quotient == idle;
    Scale(0.05, sleep, quotient);
  }

  // ---------- What is passed on ----------

  datatype Kind = LogLines | WatchEvents

  function ErrorCode(kind: Kind): string {
    if kind.LogLines? then "provider_stream_error" else "provider_watch_stream_error"
  }

  /** Every non-empty chunk is passed on once, in order and as the payload builder shapes it. */
  function Passed(shape: Lines -> Lines, received: seq<Payload>): seq<Payload> {
    if received == [] then []
    else
      var items := LinesOf(Some(received[|received| - 1]));
      Passed(shape, received[..|received| - 1]) + if items == [] then [] else [Raw(shape(items))]
  }

  /** What is passed on of one chunk after the other is what is passed on of each: an empty chunk is not, any other one
      is as it is shaped. */
  lemma {:induction false} PassedInOrder(shape: Lines -> Lines, before: seq<Payload>, chunk: Lines, after: seq<Payload>)
    ensures Passed(shape, before + [Raw(chunk)] + after) ==
            Passed(shape, before) + (if chunk == [] then [] else [Raw(shape(chunk))]) + Passed(shape, after)
    ensures Passed(shape, []) == []
  {
    if after == [] {
      assert before + [Raw(chunk)] + after == before + [Raw(chunk)];
      PassedGrows(shape, before, chunk);
    } else {
      var front := after[..|after| - 1];
      PassedInOrder(shape, before, chunk, front);
      assert (before + [Raw(chunk)] + after)[..|before + [Raw(chunk)] + after| - 1] == before + [Raw(chunk)] + front;
    }
  }

  lemma PassedGrows(shape: Lines -> Lines, received: seq<Payload>, items: Lines)
    ensures Passed(shape, received + [Raw(items)]) == Passed(shape, received) + if items == [] then []
            else [Raw(shape(items))]
  {
    assert (received + [Raw(items)])[..|received|] == received;
  }

  /** What was sent is what was received, and every batch carries the newest version known when it was sent. */
  ghost predicate Faithful(shape: Lines -> Lines, known: string, summary: Delivery) {
    summary.sent == Passed(shape, summary.received) && summary.reports && summary.latest == known
  }

  /** The code that names the stream of this kind. */
  predicate Blames(code: string, kind: Kind) {
    match kind
    case LogLines => code == "provider_stream_error"
    case WatchEvents => code == "provider_watch_stream_error"
  }

  /** The failure recorded is what await `i` brought: a refused access, a handle that could not be opened, or a read
      from the open handle that broke right after the last look. */
  ghost predicate Blamed(consumer: FollowConsumer, kind: Kind, i: nat)
    reads consumer`view
  {
    var view, env := consumer.view, consumer.env;
    && Recorded(view.ending) && view.ending.failure.at == i
    && match view.ending.failure.cause
       case Preparing => env.prepares(i) == Some(view.ending.failure.code) && view.handle.Unopened?
       case Opening => !env.opens(i) && view.handle.Permitted? && Blames(view.ending.failure.code, kind)
       case Reading =>
         && env.chunk(i).Broken? && i == view.looked + 1 && Blames(view.ending.failure.code, kind)
         && (view.handle.Open? || view.handle.Gone?)
       case Polling => false
  }

  /** One chunk was taken, the one that followed the last look: it is what was received, it became a batch unless it is
      empty, and it says whether the provider's stream has ended. */
  ghost predicate TookChunk(consumer: FollowConsumer, received: seq<Payload>, batches: nat)
    reads consumer`view, consumer`summary, consumer`batchCount
  {
    var chunk := consumer.env.chunk(consumer.view.looked + 1);
    && chunk.Chunk? && consumer.view.atEnd == chunk.eof
    && consumer.summary.received == received + [Raw(chunk.items)]
    && consumer.batchCount == batches + if chunk.items == [] then 0 else 1
  }

  // ---------- The loop ----------

  /** Inside a loop a stream is left by a failure or a cancellation only. */
  predicate LeftEarly(outcome: Outcome) {
    outcome.FailedAt? || outcome.Cancelled?
  }

  /** The provider's answer is empty and not the end: perhaps a heartbeat, and in any case a sleep. */
  method Rest(consumer: FollowConsumer, s: Settings, lastHeartbeat: real, ghost from: nat) returns (verdict: Verdict,
              beat: real)
    requires consumer.Following(from)
    modifies consumer`now, consumer`awaits, consumer`finalized, consumer`trace, consumer`view, consumer`summary
    ensures consumer.summary == old(consumer.summary)
            && consumer.view == old(consumer.view).(ending := consumer.view.ending)
    ensures if verdict.Left? then verdict.outcome.Cancelled? && consumer.Gone(Cancelled, from)
            else consumer.Following(from)
    ensures !verdict.Break? && consumer.now >= old(consumer.now)
    ensures verdict.Proceed? ==> consumer.now >= old(consumer.now) + s.emptyReadSleep
    ensures if old(consumer.now) - lastHeartbeat >= s.heartbeatInterval
            then Beats(old(consumer.trace), consumer.trace, consumer.batchCount) &&
                 (verdict.Proceed? ==> beat >= old(consumer.now))
            else consumer.OnlyClosed(old(consumer.trace)) && beat == lastHeartbeat
  {
    beat := lastHeartbeat;
    if consumer.now - lastHeartbeat >= s.heartbeatInterval {
      consumer.Emit(Heartbeat(consumer.batchCount));
      verdict := consumer.Suspend(0.0, from);
      if verdict.Left? {
        return;
      }
      beat := consumer.now;
    }
    verdict := consumer.Suspend(s.emptyReadSleep, from);
  }

  /** The checks at the head of a round, and its read. */
  method Fetch(consumer: FollowConsumer, s: Settings, kind: Kind, ghost from: nat) returns (verdict: Verdict)
    requires consumer.Following(from) && consumer.view.handle.Open? && !consumer.view.atEnd
    modifies consumer`now, consumer`awaits, consumer`finalized, consumer`trace, consumer`view, consumer`summary
    modifies consumer`sessionStatus
    ensures consumer.summary == old(consumer.summary) && consumer.now >= old(consumer.now)
    ensures consumer.Unread(old(consumer.view))
    ensures if verdict.Left? then consumer.Gone(verdict.outcome, from) && LeftEarly(verdict.outcome)
            else consumer.Following(from)
    ensures verdict.Left? && verdict.outcome.FailedAt? ==> Blamed(consumer, kind, verdict.outcome.await)
    ensures old(consumer.view).checks <= consumer.view.checks <= old(consumer.view).checks + 1
    ensures verdict.Proceed? ==>
            ReadsNow(consumer.view, verdict.await, Open) && consumer.env.chunk(verdict.await).Chunk?
    ensures verdict.Proceed? ==> consumer.view.checks == old(consumer.view).checks + 1
    ensures verdict.Proceed? ==> old(consumer.now) - consumer.activeStream.value.started < s.idleTimeout
    ensures verdict.Break? ==> consumer.EndsRound(verdict.reason, old(consumer.view).checks, s.idleTimeout)
  {
    verdict := consumer.Guard(s.idleTimeout, from);
    if verdict.Proceed? {
      verdict := consumer.Suspend(0.0, from);
      if verdict.Proceed? && consumer.env.chunk(verdict.await).Broken? {
        var outcome := consumer.Fail(verdict.await, ErrorCode(kind), Reading, from);
        return Left(outcome);
      }
    }
  }

  lemma StaysFaithful(env: Env, known: string, summary: Delivery, at: nat, items: Lines, eof: bool, index: nat)
    requires Faithful(env.shape, known, summary) && items != []
    ensures var version := Newer(env.versionOf(items), known);
            var taken := Add(summary, Read(at, None, RawBody(env, items), eof));
            var passed := Add(taken, Batch(index, Body(Raw(env.shape(items)), version)));
            Faithful(env.shape, version, passed) && passed.received == summary.received + [Raw(items)]
  {
    PassedGrows(env.shape, summary.received, items);
  }

  /** A chunk that is not empty is read and becomes a batch. */
  method Track(consumer: FollowConsumer, at: nat, known: string, ghost from: nat) returns (version: string)
    requires consumer.Following(from) && ReadsNow(consumer.view, at, Open)
    requires consumer.env.chunk(at).Chunk? && consumer.env.chunk(at).items != []
    requires Faithful(consumer.env.shape, known, consumer.summary)
    modifies consumer`trace, consumer`view, consumer`summary, consumer`sessionStatus, consumer`lastPayload,
      consumer`batchCount
    ensures consumer.Following(from) && Faithful(consumer.env.shape, version, consumer.summary)
    ensures TookChunk(consumer, old(consumer.summary).received, old(consumer.batchCount))
    ensures consumer.view == old(consumer.view).(checked := false, atEnd := consumer.env.chunk(at).eof,
                                                 pending := false, batches := consumer.batchCount,
                                                 fetched := old(consumer.view).fetched + 1)
  {
    var items := consumer.env.chunk(at).items;
    StaysFaithful(consumer.env, known, consumer.summary, at, items, consumer.env.chunk(at).eof,
                  consumer.batchCount + 1);
    version := Newer(consumer.env.versionOf(items), known);
    consumer.Emit(Read(at, None, RawBody(consumer.env, items), consumer.env.chunk(at).eof));
    consumer.Deliver(Body(Raw(consumer.env.shape(items)), version));
  }

  /** A batch is passed on; the end of the stream ends the loop after it. */
  method Pass(consumer: FollowConsumer, at: nat, known: string, ghost from: nat)
    returns (verdict: Verdict, version: string)
    requires consumer.Following(from) && ReadsNow(consumer.view, at, Open)
    requires consumer.env.chunk(at).Chunk? && consumer.env.chunk(at).items != []
    requires Faithful(consumer.env.shape, known, consumer.summary)
    modifies consumer`now, consumer`awaits, consumer`finalized, consumer`trace, consumer`view, consumer`summary
    modifies consumer`sessionStatus, consumer`lastPayload, consumer`batchCount
    ensures Faithful(consumer.env.shape, version, consumer.summary)
    ensures TookChunk(consumer, old(consumer.summary).received, old(consumer.batchCount))
    ensures consumer.view.checks == old(consumer.view).checks && consumer.view.fetched == old(consumer.view).fetched + 1
    ensures consumer.view.handle.Open? && consumer.view.looked == old(consumer.view).looked &&
            consumer.now >= old(consumer.now)
    ensures if verdict.Left? then verdict.outcome.Cancelled? && consumer.Gone(Cancelled, from)
            else consumer.Following(from)
    ensures verdict.Break? ==> verdict.reason.ProviderEof? && consumer.view.atEnd
    ensures verdict.Proceed? ==> !consumer.view.atEnd
  {
    version := Track(consumer, at, known, from);
    verdict := consumer.Suspend(0.0, from);
    if verdict.Proceed? && consumer.env.chunk(at).eof {
      verdict := Break(ProviderEof);
    }
  }

  /** An empty chunk ends the loop at the end of the stream and otherwise costs a sleep. */
  method Skip(consumer: FollowConsumer, s: Settings, at: nat, known: string, lastHeartbeat: real, ghost from: nat)
    returns (verdict: Verdict, beat: real)
    requires consumer.Following(from) && ReadsNow(consumer.view, at, Open)
    requires consumer.env.chunk(at).Chunk? && consumer.env.chunk(at).items == []
    requires Faithful(consumer.env.shape, known, consumer.summary)
    modifies consumer`now, consumer`awaits, consumer`finalized, consumer`trace, consumer`view, consumer`summary
    ensures Faithful(consumer.env.shape, known, consumer.summary)
    ensures TookChunk(consumer, old(consumer.summary).received, consumer.batchCount)
    ensures consumer.view.checks == old(consumer.view).checks && consumer.view.fetched == old(consumer.view).fetched + 1
    ensures consumer.view.handle.Open? && consumer.view.looked == old(consumer.view).looked &&
            consumer.now >= old(consumer.now)
    ensures if verdict.Left? then verdict.outcome.Cancelled? && consumer.Gone(Cancelled, from)
            else consumer.Following(from)
    ensures verdict.Break? ==> verdict.reason.ProviderEof? && consumer.view.atEnd
    ensures verdict.Proceed? ==> !consumer.view.atEnd && consumer.now >= old(consumer.now) + s.emptyReadSleep
  {
    PassedGrows(consumer.env.shape, consumer.summary.received, []);
    consumer.Emit(Read(at, None, RawBody(consumer.env, []), consumer.env.chunk(at).eof));
    if consumer.env.chunk(at).eof {
      return Break(ProviderEof), lastHeartbeat;
    }
    verdict, beat := Rest(consumer, s, lastHeartbeat, from);
  }

  /** How far a follow that began with `checks` looks, `fetched` reads and `batches` batches got in one round. */
  ghost predicate Step(verdict: Verdict, looks: int, fetched: int, batches: int, elapsed: real, sleep: real) {
    && 0 <= batches <= fetched <= looks <= 1 && elapsed >= 0.0
    && (verdict.Proceed? ==> fetched == 1 && (batches == 1 || elapsed >= sleep))
  }

  /** One round of the loop. */
  method Round(consumer: FollowConsumer, s: Settings, kind: Kind, known: string, lastHeartbeat: real, ghost from: nat)
    returns (verdict: Verdict, version: string, beat: real)
    requires consumer.Following(from) && Faithful(consumer.env.shape, known, consumer.summary)
    requires consumer.view.handle.Open? && !consumer.view.atEnd
    modifies consumer`now, consumer`awaits, consumer`finalized, consumer`trace, consumer`view, consumer`summary
    modifies consumer`sessionStatus, consumer`lastPayload, consumer`batchCount
    ensures Faithful(consumer.env.shape, version, consumer.summary) && consumer.view.handle.Open?
    ensures if verdict.Left? then consumer.Gone(verdict.outcome, from) && LeftEarly(verdict.outcome)
            else consumer.Following(from)
    ensures verdict.Left? && verdict.outcome.FailedAt? ==> Blamed(consumer, kind, verdict.outcome.await)
    ensures Step(verdict, consumer.view.checks - old(consumer.view).checks,
                 consumer.view.fetched - old(consumer.view).fetched,
                 consumer.batchCount - old(consumer.batchCount), consumer.now - old(consumer.now), s.emptyReadSleep)
    ensures if consumer.view.fetched > old(consumer.view).fetched
            then TookChunk(consumer, old(consumer.summary).received, old(consumer.batchCount))
            else consumer.summary == old(consumer.summary) && !consumer.view.atEnd
    ensures verdict.Proceed? ==>
            old(consumer.now) - consumer.activeStream.value.started < s.idleTimeout && !consumer.view.atEnd
    ensures verdict.Break? ==> (verdict.reason.ProviderEof? <==> consumer.view.atEnd)
    ensures verdict.Break? ==>
              if verdict.reason.ProviderEof? then consumer.view.fetched == old(consumer.view).fetched + 1
              else consumer.EndsRound(verdict.reason, old(consumer.view).checks, s.idleTimeout)
  {
    version, beat := known, lastHeartbeat;
    verdict := Fetch(consumer, s, kind, from);
    if verdict.Proceed? {
      if consumer.env.chunk(verdict.await).items == [] {
        verdict, beat := Skip(consumer, s, verdict.await, known, lastHeartbeat, from);
      } else {
        verdict, version := Pass(consumer, verdict.await, known, from);
      }
    }
  }

  /** Why the rounds of a follow ended. */
  ghost predicate Ended(consumer: FollowConsumer, reason: Reason, s: Settings)
    reads consumer
  {
    (reason.ProviderEof? <==> consumer.view.atEnd) &&
    match reason
    case MaxBatches => consumer.batchCount == s.maxBatches
    case IdleTimeout => consumer.activeStream.Some? &&
      consumer.now - consumer.activeStream.value.started >= s.idleTimeout
    case SessionEnded(code) => consumer.SessionGone(code)
    case ProviderEof =>
      var chunk := consumer.env.chunk(consumer.view.looked + 1);
      consumer.view.fetched > 0 && chunk.Chunk? && chunk.eof
    case ClientDisconnect => false
  }

  /** While time is left there is a tick left, and a sleep uses one up. */
  lemma UseUp(left: int, sleep: real, remaining: real, elapsed: real)
    requires 0.0 < remaining <= left as real * sleep && sleep > 0.0 && elapsed >= sleep && left >= 0
    ensures left >= 1 && remaining - elapsed <= (left - 1) as real * sleep
  {
    assert (left - 1) as real * sleep == left as real * sleep - sleep;
  }

  /** After `checks` looks and `batches` batches, `left` ticks cover what remains of the idle timeout. */
  ghost predicate Budget(s: Settings, left: int, checks: nat, batches: nat, elapsed: real)
    requires s.emptyReadSleep > 0.0
  {
    && 0 <= left <= Ticks(s) && batches <= s.maxBatches && checks <= batches + Ticks(s) - left
    && s.idleTimeout - elapsed <= left as real * s.emptyReadSleep
  }

  /** A round spends a batch or a tick. */
  lemma SpendRound(s: Settings, left: int, checks: nat, batches: nat, elapsed: real, batches': nat, elapsed': real)
    returns (left': int)
    requires s.emptyReadSleep > 0.0 && Budget(s, left, checks, batches, elapsed)
    requires batches < s.maxBatches && elapsed < s.idleTimeout && elapsed <= elapsed'
    requires batches' == batches + 1 || (batches' == batches && elapsed' >= elapsed + s.emptyReadSleep)
    ensures Budget(s, left', checks + 1, batches', elapsed') && left' <= left && (left' < left || batches' > batches)
  {
    left' := left;
    if batches' == batches {
      UseUp(left, s.emptyReadSleep, s.idleTimeout - elapsed, elapsed' - elapsed);
      left' := left - 1;
    }
  }

  /** The rounds of a follow.  They end because every one of them uses up a batch or part of the idle timeout. */
  method Rounds(consumer: FollowConsumer, s: Settings, kind: Kind, version: string, ghost from: nat)
    returns (verdict: Verdict)
    requires consumer.Following(from) && Faithful(consumer.env.shape, version, consumer.summary)
    requires consumer.view.checks == consumer.batchCount == 0 && consumer.view.handle.Open? && !consumer.view.atEnd
    requires s.emptyReadSleep > 0.0 && consumer.activeStream.value.started <= consumer.now
    modifies consumer`now, consumer`awaits, consumer`finalized, consumer`trace, consumer`view, consumer`summary
    modifies consumer`sessionStatus, consumer`lastPayload, consumer`batchCount
    ensures consumer.view.handle.Open? && Faithful(consumer.env.shape, consumer.summary.latest, consumer.summary)
    ensures consumer.batchCount <= s.maxBatches && consumer.view.checks <= s.maxBatches + Ticks(s)
    ensures !verdict.Proceed?
    ensures if verdict.Left? then consumer.Gone(verdict.outcome, from) && LeftEarly(verdict.outcome)
            else consumer.Following(from)
    ensures verdict.Left? && verdict.outcome.FailedAt? ==> Blamed(consumer, kind, verdict.outcome.await)
    ensures verdict.Break? ==> Ended(consumer, verdict.reason, s)
  {
    ghost var left: int := Ticks(s);
    ghost var started := consumer.activeStream.value.started;
    var known, lastHeartbeat := version, consumer.now;
    while consumer.batchCount < s.maxBatches
      invariant consumer.Following(from) && Faithful(consumer.env.shape, known, consumer.summary)
      invariant consumer.view.handle.Open? && !consumer.view.atEnd
      invariant Budget(s, left, consumer.view.checks, consumer.batchCount, consumer.now - started)
      decreases s.maxBatches - consumer.batchCount, left
    {
      ghost var checks, batches, elapsed := consumer.view.checks, consumer.batchCount, consumer.now - started;
      verdict, known, lastHeartbeat := Round(consumer, s, kind, known, lastHeartbeat, from);
      if !verdict.Proceed? {
        return;
      }
      left := SpendRound(s, left, checks, batches, elapsed, consumer.batchCount, consumer.now - started);
    }
    return Break(MaxBatches);
  }

  /** Why the follow stopped, how often it looked, and that it passed everything on. */
  ghost predicate Told(consumer: FollowConsumer, outcome: Outcome, s: Settings, kind: Kind)
    requires s.emptyReadSleep > 0.0
    reads consumer
  {
    && consumer.batchCount <= s.maxBatches && consumer.view.checks <= s.maxBatches + Ticks(s)
    && Faithful(consumer.env.shape, consumer.summary.latest, consumer.summary)
    && (outcome.Finished? ==> Ended(consumer, outcome.reason, s))
    && (outcome.FailedAt? ==> Blamed(consumer, kind, outcome.await))
  }

  /** What a continuous follow promises, besides: how its stream and its handle are left. */
  ghost predicate Streamed(consumer: FollowConsumer, outcome: Outcome, from: nat, s: Settings, kind: Kind)
    requires s.emptyReadSleep > 0.0
    reads consumer
  {
    && consumer.Gone(outcome, from) && !consumer.view.handle.Open?
    && (outcome.Finished? || outcome.Superseded? ==> consumer.view.handle.Gone?)
    && Told(consumer, outcome, s, kind)
  }

  /** Event by event: every read of an open handle was a chunk, what was sent is what was read, shaped and without the
      empty chunks, and every batch carries the newest version named before it. */
  ghost predicate PassedOn(consumer: FollowConsumer)
    reads consumer`trace, consumer`initial
  {
    var (env, trace) := (consumer.env, consumer.trace);
    && Sent(trace) == Passed(env.shape, Reads(trace)) && Reports(consumer.initial, trace)
    && forall n :: 0 <= n < |trace| && trace[n].Read? && trace[n].asked.None? ==>
         var chunk := env.chunk(trace[n].at);
         && chunk.Chunk? && trace[n].eof == chunk.eof
         && trace[n].got.payload == Payload(Some(chunk.items), |chunk.items|, false, 0)
         && trace[n].got.version == if chunk.items == [] then "" else env.versionOf(chunk.items)
  }

  lemma FaithfulPassesOn(consumer: FollowConsumer, known: string)
    requires consumer.Valid() && Faithful(consumer.env.shape, known, consumer.summary)
    ensures PassedOn(consumer)
  {
    consumer.TraceMeans();
    SummaryTells(consumer.initial, consumer.trace);
    forall n | 0 <= n < |consumer.trace| && consumer.trace[n].Read? && consumer.trace[n].asked.None?
      ensures var chunk := consumer.env.chunk(consumer.trace[n].at);
              && chunk.Chunk? && consumer.trace[n].eof == chunk.eof
              && consumer.trace[n].got.payload == Payload(Some(chunk.items), |chunk.items|, false, 0)
              && consumer.trace[n].got.version == if chunk.items == [] then "" else consumer.env.versionOf(chunk.items)
    {
      HonestRead(consumer.env, consumer.trace, n);
    }
  }

  /** The `finally` clause: the handle is closed however the follow ended. */
  method Release(consumer: FollowConsumer, before: Outcome, ghost from: nat) returns (outcome: Outcome)
    requires consumer.Gone(before, from) && consumer.activeStream.Some? && consumer.view.handle.Open?
    modifies consumer`now, consumer`awaits, consumer`finalized, consumer`trace, consumer`view, consumer`summary
    ensures consumer.Gone(outcome, from) && consumer.summary == old(consumer.summary) &&
            consumer.now >= old(consumer.now)
    ensures consumer.awaits >= old(consumer.awaits)
    ensures consumer.view == old(consumer.view).(handle := Gone)
    ensures outcome == before || outcome.Cancelled?
  {
    consumer.Emit(Released);
    var i, cancelled := consumer.Await(0.0, from);
    return if cancelled then Cancelled else before;
  }

  /** The access check. */
  method Prepare(consumer: FollowConsumer, kind: Kind, ghost from: nat) returns (verdict: Verdict)
    requires consumer.Following(from) && consumer.view.handle.Unopened? && consumer.view.checks == 0
    modifies consumer`now, consumer`awaits, consumer`finalized, consumer`trace, consumer`view, consumer`summary
    modifies consumer`lastPayload
    ensures consumer.summary == old(consumer.summary) && consumer.now >= old(consumer.now) && !verdict.Break?
    ensures consumer.view == old(consumer.view).(ending := consumer.view.ending, handle := consumer.view.handle)
    ensures if verdict.Left? then consumer.Gone(verdict.outcome, from) && LeftEarly(verdict.outcome) &&
            consumer.view.handle.Unopened?
            else consumer.Following(from) && consumer.view.handle.Permitted?
    ensures verdict.Left? && verdict.outcome.FailedAt? ==> Blamed(consumer, kind, verdict.outcome.await)
  {
    verdict := consumer.Suspend(0.0, from);
    if verdict.Left? {
      return;
    }
    if consumer.env.prepares(verdict.await).Some? {
      var outcome := consumer.Fail(verdict.await, consumer.env.prepares(verdict.await).value, Preparing, from);
      return Left(outcome);
    }
    consumer.Emit(Prepared(verdict.await));
    consumer.lastPayload := Some(Raw([]));
  }

  /** The provider handle. */
  method TryOpening(consumer: FollowConsumer, kind: Kind, ghost from: nat) returns (verdict: Verdict)
    requires consumer.Following(from) && consumer.view.handle.Permitted?
    modifies consumer`now, consumer`awaits, consumer`finalized, consumer`trace, consumer`view, consumer`summary
    ensures consumer.summary == old(consumer.summary) && consumer.now >= old(consumer.now) && !verdict.Break?
    ensures consumer.view == old(consumer.view).(ending := consumer.view.ending, handle := consumer.view.handle)
    ensures consumer.view.handle.Open? <==> verdict.Proceed?
    ensures if verdict.Left? then consumer.Gone(verdict.outcome, from) && LeftEarly(verdict.outcome)
            else consumer.Following(from)
    ensures verdict.Left? && verdict.outcome.FailedAt? ==> Blamed(consumer, kind, verdict.outcome.await)
  {
    verdict := consumer.Suspend(0.0, from);
    if verdict.Left? {
      return;
    }
    if consumer.env.opens(verdict.await) {
      consumer.Emit(Opened(verdict.await));
    } else {
      var outcome := consumer.Fail(verdict.await, ErrorCode(kind), Opening, from);
      return Left(outcome);
    }
  }

  /** Before the first round: the access check and the provider handle. */
  method OpenHandle(consumer: FollowConsumer, kind: Kind, ghost from: nat) returns (verdict: Verdict)
    requires consumer.Following(from) && consumer.view.handle.Unopened? && consumer.view.checks == 0
    modifies consumer`now, consumer`awaits, consumer`finalized, consumer`trace, consumer`view, consumer`summary
    modifies consumer`lastPayload
    ensures consumer.summary == old(consumer.summary) && consumer.now >= old(consumer.now) && !verdict.Break?
    ensures consumer.view == old(consumer.view).(ending := consumer.view.ending, handle := consumer.view.handle)
    ensures consumer.view.handle.Open? <==> verdict.Proceed?
    ensures if verdict.Left? then consumer.Gone(verdict.outcome, from) && LeftEarly(verdict.outcome)
            else consumer.Following(from)
    ensures verdict.Left? && verdict.outcome.FailedAt? ==> Blamed(consumer, kind, verdict.outcome.await)
  {
    verdict := Prepare(consumer, kind, from);
    if verdict.Left? {
      return;
    }
    verdict := TryOpening(consumer, kind, from);
  }

  /** The rounds and the end of a follow whose handle is open. */
  method Follow(consumer: FollowConsumer, s: Settings, kind: Kind, version: string, ghost from: nat)
    returns (outcome: Outcome)
    requires consumer.Following(from) && Faithful(consumer.env.shape, version, consumer.summary)
    requires consumer.view.checks == consumer.batchCount == 0 && consumer.view.handle.Open? && !consumer.view.atEnd
    requires s.emptyReadSleep > 0.0 && consumer.activeStream.value.started <= consumer.now
    modifies consumer`now, consumer`awaits, consumer`finalized, consumer`trace, consumer`view, consumer`summary
    modifies consumer`sessionStatus, consumer`lastPayload, consumer`batchCount
    ensures consumer.Gone(outcome, from) && consumer.view.handle.Open? && Told(consumer, outcome, s, kind)
  {
    var verdict := Rounds(consumer, s, kind, version, from);
    if verdict.Break? {
      outcome := consumer.Conclude(verdict.reason, from);
    } else {
      outcome := verdict.outcome;
    }
  }

  /** `run_continuous_log_follow` and `run_continuous_watch_follow`. */
  method RunContinuousFollow(consumer: FollowConsumer, s: Settings, kind: Kind, version: string)
    returns (outcome: Outcome)
    requires consumer.Following(consumer.awaits) && consumer.trace == [] && consumer.initial == version
    requires s.emptyReadSleep > 0.0 && consumer.activeStream.value.started <= consumer.now
    modifies consumer`now, consumer`awaits, consumer`finalized, consumer`trace, consumer`view, consumer`summary
    modifies consumer`sessionStatus, consumer`lastPayload, consumer`batchCount
    ensures Streamed(consumer, outcome, old(consumer.awaits), s, kind)
    ensures consumer.initial == version && PassedOn(consumer)
  {
    consumer.TraceMeans();
    ghost var from := consumer.awaits;
    var verdict := OpenHandle(consumer, kind, from);
    if verdict.Left? {
      FaithfulPassesOn(consumer, consumer.summary.latest);
      return verdict.outcome;
    }
    outcome := Follow(consumer, s, kind, version, from);
    outcome := Release(consumer, outcome, from);
    FaithfulPassesOn(consumer, consumer.summary.latest);
  }
}
