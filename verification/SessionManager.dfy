/**
  The loops of the session manager as they run between two awaits of other tasks: eviction, the reaper, shutdown and
  the read loop of a request.  How they interleave is the subject of `SessionPool`.
 */
module SessionManager {
  import opened Options
  import opened SessionPool
  import opened SessionPoolProgress

  // ---------- Reading a reply ----------

  /** What the pipe yields next and when: a line, or None for the end of the stream. */
  datatype Arrival = Arrival(at: nat, line: Option<Body>)

  datatype Verdict = Reply(reply: SessionPool.Reply) | TimedOut | StreamClosed

  predicate Foreign(arrival: Arrival, id: ReqId) {
    arrival.line.Some? && !(arrival.line.value.Message? && arrival.line.value.id == id)
  }

  /** Which arrival ends the wait: the first that is not a foreign line, unless the deadline comes first. */
  predicate Ends(arrivals: seq<Arrival>, id: ReqId, deadline: nat, verdict: Verdict) {
    match verdict
    case Reply(reply) =>
      exists i :: 0 <= i < |arrivals| && arrivals[i].line == Some(Message(id, reply)) &&
        Skipped(arrivals, i, id, deadline)
    case StreamClosed =>
      exists i :: 0 <= i < |arrivals| && arrivals[i].line.None? && Skipped(arrivals, i, id, deadline)
    case TimedOut =>
      forall i :: 0 <= i < |arrivals| && Skipped(arrivals, i, id, deadline) ==> Foreign(arrivals[i], id)
  }

  /** All arrivals before `i` are foreign lines and `i` itself comes before the deadline. */
  predicate Skipped(arrivals: seq<Arrival>, i: nat, id: ReqId, deadline: nat)
    requires i < |arrivals|
  {
    (forall j :: 0 <= j < i ==> Foreign(arrivals[j], id)) && arrivals[i].at < deadline
  }

  /** Time passes while lines arrive. */
  predicate InOrder(arrivals: seq<Arrival>) {
    forall i, j :: 0 <= i < j < |arrivals| ==> arrivals[i].at <= arrivals[j].at
  }

  method AwaitReply(arrivals: seq<Arrival>, id: ReqId, deadline: nat) returns (verdict: Verdict)
    requires InOrder(arrivals)
    ensures Ends(arrivals, id, deadline, verdict)
  {
    var next := 0;
    var now := 0;
    while true
      invariant 0 <= next <= |arrivals|
      invariant forall j :: 0 <= j < next ==> Foreign(arrivals[j], id)
      invariant if next == 0 then now == 0 else now == arrivals[next - 1].at < deadline
      decreases |arrivals| - next
    {
      if now >= deadline {
        return TimedOut;
      }
      if next == |arrivals| || arrivals[next].at >= deadline {
        return TimedOut;
      }
      var line := arrivals[next].line;
      now := arrivals[next].at;
      if line.None? {
        assert Skipped(arrivals, next, id, deadline);
        return StreamClosed;
      }
      if !line.value.Message? || line.value.id != id {
        next := next + 1;
        continue;
      }
      assert Skipped(arrivals, next, id, deadline);
      return Reply(line.value.reply);
    }
  }

  /** The wait has one outcome only. */
  lemma VerdictIsUnique(arrivals: seq<Arrival>, id: ReqId, deadline: nat, one: Verdict, other: Verdict)
    requires InOrder(arrivals) && Ends(arrivals, id, deadline, one) && Ends(arrivals, id, deadline, other)
    ensures one == other
  {
    if !one.TimedOut? && !other.TimedOut? {
      var i := EndsAt(arrivals, id, deadline, one);
      var j := EndsAt(arrivals, id, deadline, other);
      assert !Foreign(arrivals[i], id) && !Foreign(arrivals[j], id);
    }
  }

  lemma EndsAt(arrivals: seq<Arrival>, id: ReqId, deadline: nat, verdict: Verdict) returns (i: nat)
    requires Ends(arrivals, id, deadline, verdict) && !verdict.TimedOut?
    ensures i < |arrivals| && Skipped(arrivals, i, id, deadline)
    ensures arrivals[i].line.None? ==> verdict == StreamClosed
    ensures arrivals[i].line.Some? ==> verdict.Reply? && arrivals[i].line == Some(Message(id, verdict.reply))
  {
    if verdict.StreamClosed? {
      i :| 0 <= i < |arrivals| && arrivals[i].line.None? && Skipped(arrivals, i, id, deadline);
    } else {
      i :| 0 <= i < |arrivals| && arrivals[i].line == Some(Message(id, verdict.reply)) &&
        Skipped(arrivals, i, id, deadline);
    }
  }

  // ---------- The registry ----------

  /** How many sessions must go before one more fits. */
  function Excess(size: nat, maxSessions: nat): nat {
    if size < maxSessions then 0 else if maxSessions == 0 then size else size - maxSessions + 1
  }

  /** Every session is registered under one key only. */
  ghost predicate Injective(sessions: map<Key, Sid>) {
    forall k, l :: k in sessions && l in sessions && k != l ==> sessions[k] != sessions[l]
  }

  /** Terminating one more of the registered sessions, in terms of those registered at the start. */
  lemma OneMoreGone(alive: set<Sid>, start: set<Sid>, before: set<Sid>, after: set<Sid>, victim: Sid)
    requires after == before - {victim} && victim in before && before <= start
    ensures alive - (start - before) - {victim} == alive - (start - after)
  {
  }

  class SessionManager {
    const maxSessions: nat
    const ttl: nat
    var sessions: map<Key, Sid>
    var lastUsed: map<Sid, nat>
    var alive: set<Sid>

    constructor (maxSessions: nat, ttl: nat)
      ensures this.maxSessions == maxSessions && this.ttl == ttl
      ensures sessions == map[] && lastUsed == map[] && alive == {}
    {
      this.maxSessions, this.ttl := maxSessions, ttl;
      sessions, lastUsed, alive := map[], map[], {};
    }

    ghost predicate Valid()
      reads this
    {
      sessions.Values <= lastUsed.Keys && Injective(sessions)
    }

    /** Afterwards the process is dead, whether it ran or not. */
    method Terminate(s: Sid)
      modifies this`alive
      ensures alive == old(alive) - {s}
    {
      if s !in alive {
        return;
      }
      alive := alive - {s};
    }

    method EvictLeastRecent() returns (victimKey: Key, victim: Sid)
      requires Valid() && sessions != map[]
      modifies this`sessions, this`alive
      ensures alive == old(alive) - {victim}
      ensures Valid() && victimKey in old(sessions) && victim == old(sessions)[victimKey]
      ensures sessions == old(sessions) - {victimKey} && |sessions| == |old(sessions)| - 1
      ensures sessions.Values == old(sessions).Values - {victim}
      ensures forall s :: s in sessions.Values ==> lastUsed[victim] <= lastUsed[s]
    {
      ghost var least := LeastRecentExists(sessions, lastUsed, sessions.Keys);
      assert LeastRecent(sessions, lastUsed, least);
      victimKey :| victimKey in sessions && LeastRecent(sessions, lastUsed, victimKey);
      victim := sessions[victimKey];
      Removal(sessions, {victimKey});
      assert (set k | k in {victimKey} :: sessions[k]) == {victim};
      LeastOfValues(sessions, lastUsed, victimKey);
      sessions := sessions - {victimKey};
      Terminate(victim);
    }

    /** One more of the sessions of `start` is given up. */
    method EvictNext(ghost start: map<Key, Sid>, ghost all: set<Sid>, ghost evicted: set<Key>)
      returns (ghost more: set<Key>)
      requires Valid() && Kept(start, sessions, evicted, lastUsed) && sessions != map[]
      requires alive == all - (start.Values - sessions.Values)
      modifies this`sessions, this`alive
      ensures Valid() && Kept(start, sessions, more, lastUsed) && more != {} && |sessions| == |old(sessions)| - 1
      ensures alive == all - (start.Values - sessions.Values)
    {
      ghost var before := sessions;
      var victimKey, victim := EvictLeastRecent();
      KeptStep(start, before, evicted, lastUsed, victimKey, sessions);
      OneMoreGone(all, start.Values, before.Values, sessions.Values, victim);
      more := evicted + {victimKey};
    }

    /** The sessions given up are the least recently used ones, and no more than needed to fit one in. */
    method EvictIfFull() returns (ghost evicted: set<Key>)
      requires Valid()
      modifies this`sessions, this`alive
      ensures Valid() && Kept(old(sessions), sessions, evicted, lastUsed)
      ensures |evicted| == Excess(|old(sessions)|, maxSessions)
      ensures alive == old(alive) - (old(sessions).Values - sessions.Values)
    {
      evicted := {};
      ghost var start := sessions;
      while |sessions| >= maxSessions && |sessions| > 0
        invariant Valid() && Kept(start, sessions, evicted, lastUsed)
        invariant evicted != {} ==> |sessions| + 1 >= maxSessions
        invariant alive == old(alive) - (start.Values - sessions.Values)
        decreases |sessions|
      {
        evicted := EvictNext(start, old(alive), evicted);
      }
    }

    /** The sessions are terminated one after the other. */
    method TerminateAll(victims: set<Sid>) returns (terminated: nat)
      modifies this`alive
      ensures alive == old(alive) - victims && terminated == |victims|
    {
      var left := victims;
      terminated := 0;
      while left != {}
        invariant left <= victims && terminated == |victims| - |left| && alive == old(alive) - (victims - left)
        decreases left
      {
        var victim :| victim in left;
        Terminate(victim);
        left := left - {victim};
        terminated := terminated + 1;
      }
    }

    method ReapIdle(now: nat) returns (reaped: nat)
      requires Valid()
      modifies this`sessions, this`alive
      ensures Valid() && sessions == old(sessions) - old(StaleKeys(now))
      ensures reaped == |old(StaleKeys(now))|
      ensures alive == old(alive) - (old(sessions).Values - sessions.Values)
    {
      var staleKeys := StaleKeys(now);
      var victims := set k | k in staleKeys :: sessions[k];
      Removal(sessions, staleKeys);
      DistinctImage(sessions, staleKeys);
      sessions := sessions - staleKeys;
      reaped := TerminateAll(victims);
    }

    /** The entries that are dead or idle for longer than the time to live. */
    function StaleKeys(now: nat): set<Key>
      requires Valid()
      reads this
    {
      set k | k in sessions && (sessions[k] !in alive || now - lastUsed[sessions[k]] > ttl)
    }

    method Shutdown()
      requires Valid()
      modifies this`sessions, this`alive
      ensures sessions == map[] && alive == old(alive) - old(sessions).Values
    {
      var victims := sessions.Values;
      sessions := map[];
      var _ := TerminateAll(victims);
    }
  }

  /** `rest` is what remains of `before` after the oldest sessions went. */
  ghost predicate Kept(before: map<Key, Sid>, rest: map<Key, Sid>, evicted: set<Key>, lastUsed: map<Sid, nat>) {
    && evicted <= before.Keys && rest == before - evicted && |rest| + |evicted| == |before|
    && rest.Values <= before.Values <= lastUsed.Keys
    && forall v, s :: v in before.Values - rest.Values && s in rest.Values ==> lastUsed[v] <= lastUsed[s]
  }

  lemma LeastOfValues(sessions: map<Key, Sid>, lastUsed: map<Sid, nat>, key: Key)
    requires LeastRecent(sessions, lastUsed, key) && sessions.Values <= lastUsed.Keys
    ensures forall s :: s in sessions.Values ==> lastUsed[sessions[key]] <= lastUsed[s]
  {
    forall s | s in sessions.Values ensures lastUsed[sessions[key]] <= lastUsed[s] {
      var k :| k in sessions && sessions[k] == s;
    }
  }

  /** The victim is no younger than what stays. */
  lemma VictimIsOlder(all: set<Sid>, rest: set<Sid>, lastUsed: map<Sid, nat>, victim: Sid)
    requires rest <= all <= lastUsed.Keys && victim in rest
    requires forall v, s :: v in all - rest && s in rest ==> lastUsed[v] <= lastUsed[s]
    requires forall s :: s in rest - {victim} ==> lastUsed[victim] <= lastUsed[s]
    ensures forall v, s :: v in all - (rest - {victim}) && s in rest - {victim} ==> lastUsed[v] <= lastUsed[s]
  {
  }

  lemma OneKeyLess(before: map<Key, Sid>, evicted: set<Key>, key: Key)
    requires key in before - evicted
    ensures before - evicted - {key} == before - (evicted + {key}) && |evicted + {key}| == |evicted| + 1
  {
  }

  lemma KeptStep(before: map<Key, Sid>, rest: map<Key, Sid>, evicted: set<Key>, lastUsed: map<Sid, nat>, key: Key,
                 now: map<Key, Sid>)
    requires Kept(before, rest, evicted, lastUsed) && key in rest && now == rest - {key} && |now| == |rest| - 1
    requires now.Values == rest.Values - {rest[key]}
    requires forall s :: s in now.Values ==> lastUsed[rest[key]] <= lastUsed[s]
    ensures Kept(before, now, evicted + {key}, lastUsed)
  {
    OneKeyLess(before, evicted, key);
    VictimIsOlder(before.Values, rest.Values, lastUsed, rest[key]);
  }

  lemma Removal(sessions: map<Key, Sid>, keys: set<Key>)
    requires Injective(sessions) && keys <= sessions.Keys
    ensures (sessions - keys).Values == sessions.Values - set k | k in keys :: sessions[k]
    ensures |sessions - keys| == |sessions| - |keys| && Injective(sessions - keys)
  {
    var rest := sessions - keys;
    assert rest.Keys == sessions.Keys - keys;
    forall s | s in sessions.Values && s !in (set k | k in keys :: sessions[k]) ensures s in rest.Values {
      var k :| k in sessions && sessions[k] == s;
      assert k in rest && rest[k] == s;
    }
  }

  lemma {:induction false} DistinctImage(sessions: map<Key, Sid>, keys: set<Key>)
    requires keys <= sessions.Keys
    requires Injective(sessions)
    ensures |set k | k in keys :: sessions[k]| == |keys|
    decreases |keys|
  {
    if keys != {} {
      var c :| c in keys;
      DistinctImage(sessions, keys - {c});
      assert (set k | k in keys :: sessions[k]) == (set k | k in keys - {c} :: sessions[k]) + {sessions[c]};
    }
  }
}
