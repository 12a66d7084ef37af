/** De-duplication of successive log windows, and what the client can put together from the deltas. */
module LogFollow {
  import opened Options
  import opened Sequences

  type Lines = seq<string>

  /** `lines` is None where the payload carries no list. */
  datatype Payload = Payload(lines: Option<Lines>, lineCount: nat, delta: bool, deduped: nat)

  /** A payload with these lines and no more. */
  function Raw(items: Lines): Payload {
    Payload(Some(items), |items|, false, 0)
  }

  /** The last `size` lines of the previous window are the first of the current one. */
  predicate Overlaps(previous: Lines, current: Lines, size: nat) {
    size <= |previous| && size <= |current| && previous[|previous| - size..] == current[..size]
  }

  /** The search of the source, from the largest candidate down. */
  function OverlapUpTo(previous: Lines, current: Lines, bound: nat): (size: nat)
    ensures size <= bound && Overlaps(previous, current, size)
  {
    if bound == 0 || Overlaps(previous, current, bound) then
      assert bound == 0 ==> previous[|previous|..] == current[..0];
      bound
    else OverlapUpTo(previous, current, bound - 1)
  }

  function Shorter(previous: Lines, current: Lines): nat {
    if |previous| < |current| then |previous| else |current|
  }

  function Overlap(previous: Lines, current: Lines): (size: nat)
    ensures Overlaps(previous, current, size)
  {
    OverlapUpTo(previous, current, Shorter(previous, current))
  }

  lemma {:induction false} SearchFindsLargest(previous: Lines, current: Lines, bound: nat, size: nat)
    requires size <= bound && Overlaps(previous, current, size)
    ensures size <= OverlapUpTo(previous, current, bound)
  {
    if bound != 0 && !Overlaps(previous, current, bound) {
      SearchFindsLargest(previous, current, bound - 1, size);
    }
  }

  /** No overlap of the two windows is longer than the one found. */
  lemma OverlapIsLongest(previous: Lines, current: Lines, size: nat)
    requires Overlaps(previous, current, size)
    ensures size <= Overlap(previous, current)
  {
    SearchFindsLargest(previous, current, Shorter(previous, current), size);
  }

  function Delta(previous: Lines, current: Lines): Lines {
    current[Overlap(previous, current)..]
  }

  function LinesOf(payload: Option<Payload>): Lines {
    if payload.Some? && payload.value.lines.Some? then payload.value.lines.value else []
  }

  /** `_deduplicate_log_follow_payload`. */
  method Deduplicate(previous: Option<Payload>, current: Payload) returns (payload: Payload)
    ensures LinesOf(Some(payload)) == Delta(LinesOf(previous), LinesOf(Some(current)))
    ensures var size := Overlap(LinesOf(previous), LinesOf(Some(current)));
            payload == if size == 0 then current
                       else Payload(Some(Delta(LinesOf(previous), LinesOf(Some(current)))),
                                    |LinesOf(Some(current))| - size, true, size)
  {
    var previousLines, currentLines := LinesOf(previous), LinesOf(Some(current));
    if previousLines == [] || currentLines == [] {
      return current;
    }
    var size := if |previousLines| < |currentLines| then |previousLines| else |currentLines|;
    var duplicateCount := 0;
    while size > 0
      invariant 0 <= size <= |previousLines| && size <= |currentLines| && duplicateCount == 0
      invariant Overlap(previousLines, currentLines) == OverlapUpTo(previousLines, currentLines, size)
    {
      if previousLines[|previousLines| - size..] == currentLines[..size] {
        duplicateCount := size;
        break;
      }
      size := size - 1;
    }
    if duplicateCount <= 0 {
      return current;
    }
    var lines := currentLines[duplicateCount..];
    return Payload(Some(lines), |lines|, true, duplicateCount);
  }

  // ---------- What the client receives ----------

  function Last(windows: seq<Lines>): Lines {
    if windows == [] then [] else windows[|windows| - 1]
  }

  /** Everything delivered for a series of raw windows. */
  function Delivered(windows: seq<Lines>): Lines {
    if windows == [] then []
    else
      var front := windows[..|windows| - 1];
      Delivered(front) + Delta(Last(front), Last(windows))
  }

  lemma DeliveredStep(windows: seq<Lines>, window: Lines)
    ensures Delivered(windows + [window]) == Delivered(windows) + Delta(Last(windows), window)
  {
    assert (windows + [window])[..|windows|] == windows;
  }

  function Windows(payloads: seq<Payload>): (windows: seq<Lines>)
    ensures |windows| == |payloads|
  {
    if payloads == [] then []
    else Windows(payloads[..|payloads| - 1]) + [LinesOf(Some(payloads[|payloads| - 1]))]
  }

  function Concat(sent: seq<Payload>): Lines {
    if sent == [] then [] else Concat(sent[..|sent| - 1]) + LinesOf(Some(sent[|sent| - 1]))
  }

  /** The window of a payload is its list of lines; a payload without one has an empty window. */
  lemma {:induction false} WindowsExactly(payloads: seq<Payload>, i: nat)
    requires i < |payloads|
    ensures Windows(payloads)[i] == if payloads[i].lines.Some? then payloads[i].lines.value else []
  {
    if i < |payloads| - 1 {
      WindowsExactly(payloads[..|payloads| - 1], i);
    }
  }

  /** The client puts the lines of what was sent one after the other. */
  lemma {:induction false} ConcatInOrder(before: seq<Payload>, lines: Lines, payload: Payload, after: seq<Payload>)
    requires payload.lines == Some(lines)
    ensures Concat(before + [payload] + after) == Concat(before) + lines + Concat(after) && Concat([]) == []
  {
    if after == [] {
      assert before + [payload] + after == before + [payload] && (before + [payload])[..|before|] == before;
    } else {
      var front := after[..|after| - 1];
      ConcatInOrder(before, lines, payload, front);
      assert (before + [payload] + after)[..|before + [payload] + after| - 1] == before + [payload] + front;
    }
  }

  /** What was sent so far is what the windows received so far deliver, and `last` is the latest of them. */
  ghost predicate InStep(received: seq<Payload>, sent: seq<Payload>, last: Option<Payload>) {
    Concat(sent) == Delivered(Windows(received)) && LinesOf(last) == Last(Windows(received))
  }

  /** One more payload, reduced to what the window before it had not shown. */
  method Reduce(last: Option<Payload>, provided: Payload, ghost received: seq<Payload>, ghost sent: seq<Payload>)
    returns (payload: Payload)
    requires InStep(received, sent, last)
    ensures InStep(received + [provided], sent + [payload], Some(provided))
  {
    payload := Deduplicate(last, provided);
    assert (received + [provided])[..|received|] == received && (sent + [payload])[..|sent|] == sent;
    DeliveredStep(Windows(received), LinesOf(Some(provided)));
  }

  predicate EndsWith(lines: Lines, tail: Lines) {
    |tail| <= |lines| && lines[|lines| - |tail|..] == tail
  }

  lemma SuffixOfSuffix(lines: Lines, tail: Lines, size: nat)
    requires EndsWith(lines, tail) && size <= |tail|
    ensures lines[|lines| - size..] == tail[|tail| - size..]
  {
  }

  lemma SuffixOfConcat(lines: Lines, more: Lines, size: nat)
    requires size <= |lines|
    ensures (lines + more)[|lines| - size..] == lines[|lines| - size..] + more
  {
  }

  lemma TailExtends(received: Lines, previous: Lines, current: Lines, size: nat)
    requires EndsWith(received, previous) && Overlaps(previous, current, size)
    ensures EndsWith(received + current[size..], current)
  {
    SuffixOfSuffix(received, previous, size);
    SuffixOfConcat(received, current[size..], size);
    assert current[..size] + current[size..] == current;
  }

  /** Appending the delta to anything that ends with the previous window gives something that ends with
      the current one. */
  lemma DeltaExtends(received: Lines, previous: Lines, current: Lines)
    requires EndsWith(received, previous)
    ensures EndsWith(received + Delta(previous, current), current)
  {
    TailExtends(received, previous, current, Overlap(previous, current));
  }

  /** Whatever the windows were, the client's copy always ends with the latest one. */
  lemma {:induction false} Reassembly(windows: seq<Lines>)
    ensures EndsWith(Delivered(windows), Last(windows))
  {
    if windows != [] {
      var front := windows[..|windows| - 1];
      Reassembly(front);
      DeltaExtends(Delivered(front), Last(front), Last(windows));
    }
  }

  /** No shorter extension of the previous window ends with the current one. */
  lemma DeltaIsShortest(previous: Lines, current: Lines, extension: Lines)
    requires EndsWith(previous + extension, current)
    ensures |Delta(previous, current)| <= |extension|
  {
    if |extension| < |current| {
      var size := |current| - |extension|;
      SuffixOfConcat(previous, extension, size);
      assert current[..size] == previous[|previous| - size..];
      OverlapIsLongest(previous, current, size);
    }
  }

  // ---------- Windows onto an append-only log ----------

  /** The window shows the lines `from`, ..., `to - 1` of the log. */
  datatype Span = Span(from: nat, to: nat)

  predicate Within(log: Lines, span: Span) {
    span.from <= span.to <= |log|
  }

  function Front(spans: seq<Span>): seq<Span>
    requires spans != []
  {
    spans[..|spans| - 1]
  }

  /** Neither end of the window ever moves back. */
  predicate Advancing(log: Lines, spans: seq<Span>) {
    spans != [] ==>
      var last := spans[|spans| - 1];
      && Within(log, last)
      && Advancing(log, Front(spans))
      && (|spans| > 1 ==> spans[|spans| - 2].from <= last.from && spans[|spans| - 2].to <= last.to)
  }

  /** Each window overlaps or abuts the one before it. */
  predicate Contiguous(spans: seq<Span>) {
    |spans| > 1 ==> spans[|spans| - 1].from <= spans[|spans| - 2].to && Contiguous(Front(spans))
  }

  function View(log: Lines, span: Span): Lines
    requires Within(log, span)
  {
    log[span.from..span.to]
  }

  function Views(log: Lines, spans: seq<Span>): (views: seq<Lines>)
    requires Advancing(log, spans)
    ensures |views| == |spans|
    ensures spans != [] ==> Last(views) == View(log, spans[|spans| - 1])
  {
    if spans == [] then [] else Views(log, Front(spans)) + [View(log, spans[|spans| - 1])]
  }

  lemma SliceAt(log: Lines, from: nat, to: nat, i: nat)
    requires from <= i < to <= |log|
    ensures log[from..to][i - from] == log[i]
  {
  }

  lemma SharedSpanOverlaps(log: Lines, before: Span, now: Span)
    requires Within(log, before) && Within(log, now) && before.from <= now.from <= before.to <= now.to
    ensures Overlaps(View(log, before), View(log, now), before.to - now.from)
  {
    var size := before.to - now.from;
    assert View(log, before)[|View(log, before)| - size..] == log[now.from..before.to];
    assert View(log, now)[..size] == log[now.from..before.to];
  }

  /** The first position of the log that the second window adds to the first. */
  function Resume(before: Span, now: Span): nat {
    if before.to < now.from then now.from else before.to
  }

  /** On distinct lines the delta is exactly what the previous window had not shown. */
  lemma DeltaOfViews(log: Lines, before: Span, now: Span)
    requires Distinct(log) && Within(log, before) && Within(log, now) && before.from <= now.from && before.to <= now.to
    ensures Delta(View(log, before), View(log, now)) == log[Resume(before, now)..now.to]
  {
    DistinctIsClear(log, before, now);
    DeltaExactly(log, before, now);
  }

  /** Where the last window starts to show something new. */
  function Fresh(spans: seq<Span>): nat
    requires spans != []
  {
    var last := spans[|spans| - 1];
    if |spans| == 1 then last.from else Resume(spans[|spans| - 2], last)
  }

  /** The delta of the last window, in terms of the log. */
  lemma LastDelta(log: Lines, spans: seq<Span>)
    requires Distinct(log) && Advancing(log, spans) && spans != []
    ensures Fresh(spans) <= spans[|spans| - 1].to
    ensures Delivered(Views(log, spans)) == Delivered(Views(log, Front(spans))) +
            log[Fresh(spans)..spans[|spans| - 1].to]
  {
    var last := spans[|spans| - 1];
    DeliveredStep(Views(log, Front(spans)), View(log, last));
    if |spans| > 1 {
      DeltaOfViews(log, spans[|spans| - 2], last);
    } else {
      assert Overlap([], View(log, last)) == 0;
    }
  }

  /** Some window showed position `i` of the log. */
  ghost predicate Seen(spans: seq<Span>, i: nat) {
    exists k :: 0 <= k < |spans| && spans[k].from <= i < spans[k].to
  }

  lemma SeenFront(spans: seq<Span>, i: nat)
    requires spans != []
    ensures Seen(spans, i) <==> Seen(Front(spans), i) || spans[|spans| - 1].from <= i < spans[|spans| - 1].to
  {
    if Seen(Front(spans), i) {
      var k :| 0 <= k < |spans| - 1 && Front(spans)[k].from <= i < Front(spans)[k].to;
      assert spans[k] == Front(spans)[k];
    }
    if Seen(spans, i) && !(spans[|spans| - 1].from <= i < spans[|spans| - 1].to) {
      var k :| 0 <= k < |spans| && spans[k].from <= i < spans[k].to;
      assert Front(spans)[k] == spans[k];
    }
  }

  /** The earlier windows end where the last of them ends. */
  lemma {:induction false} SeenBefore(log: Lines, spans: seq<Span>, i: nat)
    requires Advancing(log, spans) && Seen(spans, i)
    ensures spans != [] && i < spans[|spans| - 1].to
  {
    if spans != [] {
      SeenFront(spans, i);
      if Seen(Front(spans), i) {
        SeenBefore(log, Front(spans), i);
      }
    }
  }

  /** The last window adds exactly the positions from `Fresh` on, and none of them was seen before. */
  lemma SeenStep(log: Lines, spans: seq<Span>, i: nat)
    requires Advancing(log, spans) && spans != []
    ensures Seen(spans, i) <==> Seen(Front(spans), i) || Fresh(spans) <= i < spans[|spans| - 1].to
    ensures !(Seen(Front(spans), i) && Fresh(spans) <= i)
  {
    SeenFront(spans, i);
    if Seen(Front(spans), i) {
      SeenBefore(log, Front(spans), i);
      assert Front(spans)[|spans| - 2] == spans[|spans| - 2];
    }
    if |spans| > 1 {
      SeenFront(Front(spans), i);
      assert Front(spans)[|spans| - 2] == spans[|spans| - 2];
    }
  }

  /** `lines` holds exactly the lines at the positions that some window showed. */
  ghost predicate Holds(log: Lines, lines: Lines, spans: seq<Span>) {
    && (forall line :: line in lines ==> line in log)
    && (forall i: nat :: i < |log| ==> (log[i] in lines <==> Seen(spans, i)))
  }

  lemma AppendDistinct(log: Lines, earlier: Lines, start: nat, end: nat)
    requires Distinct(log) && Distinct(earlier) && start <= end <= |log|
    requires forall i: nat :: start <= i < end ==> log[i] !in earlier
    ensures Distinct(earlier + log[start..end])
  {
    forall i, j | 0 <= i < j < |earlier + log[start..end]|
      ensures (earlier + log[start..end])[i] != (earlier + log[start..end])[j]
    {
      if j >= |earlier| {
        SliceAt(log, start, end, start + j - |earlier|);
      }
    }
  }

  lemma AppendMember(log: Lines, earlier: Lines, start: nat, end: nat, i: nat)
    requires Distinct(log) && start <= end <= |log| && i < |log|
    ensures log[i] in earlier + log[start..end] <==> log[i] in earlier || start <= i < end
  {
    if start <= i < end {
      SliceAt(log, start, end, i);
    }
    if log[i] in log[start..end] {
      var k :| 0 <= k < end - start && log[start..end][k] == log[i];
      SliceAt(log, start, end, start + k);
    }
  }

  /** What the last window adds keeps the deliveries distinct and exact. */
  lemma OnceStep(log: Lines, spans: seq<Span>, earlier: Lines, start: nat, end: nat)
    requires Distinct(log) && Advancing(log, spans) && spans != []
    requires start == Fresh(spans) <= end == spans[|spans| - 1].to <= |log|
    requires Distinct(earlier) && Holds(log, earlier, Front(spans))
    ensures Distinct(earlier + log[start..end]) && Holds(log, earlier + log[start..end], spans)
  {
    forall i: nat | i < |log|
      ensures log[i] in earlier + log[start..end] <==> Seen(spans, i)
      ensures start <= i < end ==> log[i] !in earlier
    {
      AppendMember(log, earlier, start, end, i);
      SeenStep(log, spans, i);
    }
    AppendDistinct(log, earlier, start, end);
  }

  /** Nothing is delivered twice, and exactly the lines that some window showed are delivered. */
  lemma {:induction false} DeliveredOnce(log: Lines, spans: seq<Span>)
    requires Distinct(log) && Advancing(log, spans)
    ensures Distinct(Delivered(Views(log, spans)))
    ensures Holds(log, Delivered(Views(log, spans)), spans)
  {
    if spans != [] {
      DeliveredOnce(log, Front(spans));
      LastDelta(log, spans);
      OnceStep(log, spans, Delivered(Views(log, Front(spans))), Fresh(spans), spans[|spans| - 1].to);
    }
  }

  lemma JoinSlices(log: Lines, a: nat, b: nat, c: nat)
    requires a <= b <= c <= |log|
    ensures log[a..b] + log[b..c] == log[a..c]
  {
  }

  lemma {:induction false} DistinctIsAllClear(log: Lines, spans: seq<Span>)
    requires Distinct(log) && Advancing(log, spans)
    ensures AllClear(log, spans)
  {
    if |spans| > 1 {
      DistinctIsAllClear(log, Front(spans));
      assert Advancing(log, Front(spans)) && Front(spans)[|Front(spans)| - 1] == spans[|spans| - 2];
      DistinctIsClear(log, spans[|spans| - 2], spans[|spans| - 1]);
    }
  }

  /** While consecutive windows overlap or abut, the client ends up with the log, in order and complete. */
  lemma NothingLost(log: Lines, spans: seq<Span>)
    requires Distinct(log) && Advancing(log, spans) && Contiguous(spans) && spans != []
    ensures spans[0].from <= spans[|spans| - 1].to
    ensures Delivered(Views(log, spans)) == log[spans[0].from..spans[|spans| - 1].to]
  {
    DistinctIsAllClear(log, spans);
    NothingLostExactly(log, spans);
  }

  /** A gap between two windows loses the lines in it. */
  lemma GapIsLost(log: Lines, spans: seq<Span>, i: nat)
    requires Distinct(log) && Advancing(log, spans) && i < |log| && !Seen(spans, i)
    ensures log[i] !in Delivered(Views(log, spans))
  {
    DeliveredOnce(log, spans);
  }

  // ---------- Logs whose lines repeat ----------

  /** How much of the second window the first has shown. */
  function Shared(before: Span, now: Span): nat {
    if now.from < before.to then before.to - now.from else 0
  }

  /** The last `size` lines of the first window look like the first lines of the second. */
  predicate LookAlike(log: Lines, before: Span, now: Span, size: nat)
    requires Within(log, before) && Within(log, now)
  {
    && size <= before.to - before.from && size <= now.to - now.from
    && log[before.to - size..before.to] == log[now.from..now.from + size]
  }

  /** The windows look alike on no more than the part they share. */
  ghost predicate Clear(log: Lines, before: Span, now: Span)
    requires Within(log, before) && Within(log, now)
  {
    forall size: nat :: LookAlike(log, before, now, size) ==> size <= Shared(before, now)
  }

  lemma OverlapInLog(log: Lines, before: Span, now: Span, size: nat)
    requires Within(log, before) && Within(log, now)
    ensures Overlaps(View(log, before), View(log, now), size) <==> LookAlike(log, before, now, size)
  {
    if size <= before.to - before.from && size <= now.to - now.from {
      assert View(log, before)[|View(log, before)| - size..] == log[before.to - size..before.to];
      assert View(log, now)[..size] == log[now.from..now.from + size];
    }
  }

  /** What the windows share is an overlap of theirs, so a delta never holds more than what is new. */
  lemma SharedIsFound(log: Lines, before: Span, now: Span)
    requires Within(log, before) && Within(log, now) && before.from <= now.from && before.to <= now.to
    ensures Shared(before, now) <= Overlap(View(log, before), View(log, now))
    ensures now.from + Shared(before, now) == Resume(before, now)
  {
    if now.from < before.to {
      SharedSpanOverlaps(log, before, now);
      OverlapIsLongest(View(log, before), View(log, now), Shared(before, now));
    }
  }

  /** The windows are clear exactly if the overlap found is the part they share. */
  lemma ClearIsShared(log: Lines, before: Span, now: Span)
    requires Within(log, before) && Within(log, now) && before.from <= now.from && before.to <= now.to
    ensures Clear(log, before, now) <==> Overlap(View(log, before), View(log, now)) == Shared(before, now)
  {
    var size := Overlap(View(log, before), View(log, now));
    SharedIsFound(log, before, now);
    OverlapInLog(log, before, now, size);
    forall larger: nat | LookAlike(log, before, now, larger) ensures larger <= size {
      OverlapInLog(log, before, now, larger);
      OverlapIsLongest(View(log, before), View(log, now), larger);
    }
  }

  /** For any log: the delta is exactly what the previous window had not shown if and only if the windows are clear. */
  lemma DeltaExactly(log: Lines, before: Span, now: Span)
    requires Within(log, before) && Within(log, now) && before.from <= now.from && before.to <= now.to
    ensures Delta(View(log, before), View(log, now)) == log[Resume(before, now)..now.to] <==> Clear(log, before, now)
    ensures |Delta(View(log, before), View(log, now))| <= now.to - Resume(before, now)
  {
    var size := Overlap(View(log, before), View(log, now));
    SharedIsFound(log, before, now);
    ClearIsShared(log, before, now);
    DropView(log, now, size);
    assert |log[now.from + size..now.to]| == now.to - now.from - size;
    assert |log[Resume(before, now)..now.to]| == now.to - now.from - Shared(before, now);
  }

  lemma DropView(log: Lines, now: Span, size: nat)
    requires Within(log, now) && size <= now.to - now.from
    ensures View(log, now)[size..] == log[now.from + size..now.to]
  {
  }

  /** Every two consecutive windows are clear; before the first there is none. */
  ghost predicate AllClear(log: Lines, spans: seq<Span>)
    requires Advancing(log, spans)
  {
    |spans| > 1 ==> LastClear(log, spans) && AllClear(log, Front(spans))
  }

  /** What the last window adds to what was shown. */
  function Added(log: Lines, spans: seq<Span>): Lines
    requires Advancing(log, spans) && spans != []
  {
    log[Fresh(spans)..spans[|spans| - 1].to]
  }

  /** What the windows show of the log, each position once. */
  function ShownLines(log: Lines, spans: seq<Span>): Lines
    requires Advancing(log, spans)
  {
    if spans == [] then [] else ShownLines(log, Front(spans)) + Added(log, spans)
  }

  lemma LastStep(log: Lines, spans: seq<Span>)
    requires Advancing(log, spans) && |spans| > 1
    ensures Delivered(Views(log, spans)) ==
            Delivered(Views(log, Front(spans))) + Delta(View(log, spans[|spans| - 2]), View(log, spans[|spans| - 1]))
  {
    assert Front(spans)[|spans| - 2] == spans[|spans| - 2];
    DeliveredStep(Views(log, Front(spans)), View(log, spans[|spans| - 1]));
  }

  lemma FirstStep(log: Lines, spans: seq<Span>)
    requires Advancing(log, spans) && |spans| == 1
    ensures Delivered(Views(log, spans)) == View(log, spans[0]) == ShownLines(log, spans)
  {
    assert Front(spans) == [];
    assert Overlap([], View(log, spans[0])) == 0;
    DeliveredStep([], View(log, spans[0]));
  }

  lemma BothOrNeither(earlier: Lines, delta: Lines, shown: Lines, added: Lines, front: bool, last: bool)
    requires |earlier| <= |shown| && (earlier == shown <==> front)
    requires |delta| <= |added| && (delta == added <==> last)
    ensures |earlier + delta| <= |shown + added| && (earlier + delta == shown + added <==> front && last)
  {
    if earlier + delta == shown + added {
      assert |earlier| == |shown|;
      assert earlier == (earlier + delta)[..|earlier|] && delta == (earlier + delta)[|earlier|..];
    }
  }

  /** What the last two windows deliver. */
  function LastOne(log: Lines, spans: seq<Span>): Lines
    requires Advancing(log, spans) && |spans| > 1
  {
    assert Advancing(log, Front(spans)) && Front(spans)[|Front(spans)| - 1] == spans[|spans| - 2];
    Delta(View(log, spans[|spans| - 2]), View(log, spans[|spans| - 1]))
  }

  ghost predicate LastClear(log: Lines, spans: seq<Span>)
    requires Advancing(log, spans) && |spans| > 1
  {
    assert Advancing(log, Front(spans)) && Front(spans)[|Front(spans)| - 1] == spans[|spans| - 2];
    Clear(log, spans[|spans| - 2], spans[|spans| - 1])
  }

  /** For any log and any run of advancing windows: never more is delivered than they show, and exactly that if and only
      if every two consecutive windows are clear. */
  lemma {:induction false} DeliveredExactly(log: Lines, spans: seq<Span>)
    requires Advancing(log, spans)
    ensures |Delivered(Views(log, spans))| <= |ShownLines(log, spans)|
    ensures Delivered(Views(log, spans)) == ShownLines(log, spans) <==> AllClear(log, spans)
  {
    if |spans| == 1 {
      FirstStep(log, spans);
    } else if |spans| > 1 {
      DeliveredExactly(log, Front(spans));
      LastExactly(log, spans);
      BothOrNeither(Delivered(Views(log, Front(spans))), LastOne(log, spans), ShownLines(log, Front(spans)),
                    Added(log, spans), AllClear(log, Front(spans)), LastClear(log, spans));
    }
  }

  lemma LastExactly(log: Lines, spans: seq<Span>)
    requires Advancing(log, spans) && |spans| > 1
    ensures Delivered(Views(log, spans)) == Delivered(Views(log, Front(spans))) + LastOne(log, spans)
    ensures ShownLines(log, spans) == ShownLines(log, Front(spans)) + Added(log, spans)
    ensures |LastOne(log, spans)| <= |Added(log, spans)|
    ensures LastOne(log, spans) == Added(log, spans) <==> LastClear(log, spans)
  {
    assert Advancing(log, Front(spans)) && Front(spans)[|Front(spans)| - 1] == spans[|spans| - 2];
    LastStep(log, spans);
    DeltaExactly(log, spans[|spans| - 2], spans[|spans| - 1]);
  }

  /** Windows that overlap or abut show one stretch of the log. */
  lemma {:induction false} ContiguousShows(log: Lines, spans: seq<Span>)
    requires Advancing(log, spans) && Contiguous(spans) && spans != []
    ensures spans[0].from <= spans[|spans| - 1].to
    ensures ShownLines(log, spans) == log[spans[0].from..spans[|spans| - 1].to]
  {
    if |spans| > 1 {
      ContiguousShows(log, Front(spans));
      assert Front(spans)[0] == spans[0] && Front(spans)[|spans| - 2] == spans[|spans| - 2];
      JoinSlices(log, spans[0].from, spans[|spans| - 2].to, spans[|spans| - 1].to);
    } else {
      assert Front(spans) == [];
    }
  }

  /** While windows overlap or abut the client ends up with the shown part of the log, whatever its lines, if and
      only if the windows are clear. */
  lemma NothingLostExactly(log: Lines, spans: seq<Span>)
    requires Advancing(log, spans) && Contiguous(spans) && spans != []
    ensures spans[0].from <= spans[|spans| - 1].to
    ensures Delivered(Views(log, spans)) == log[spans[0].from..spans[|spans| - 1].to] <==> AllClear(log, spans)
  {
    DeliveredExactly(log, spans);
    ContiguousShows(log, spans);
  }

  /** Distinct lines make all windows clear. */
  lemma DistinctIsClear(log: Lines, before: Span, now: Span)
    requires Distinct(log) && Within(log, before) && Within(log, now) && before.from <= now.from
    ensures Clear(log, before, now)
  {
    forall size: nat | LookAlike(log, before, now, size) ensures size <= Shared(before, now) {
      if size > 0 {
        SliceAt(log, before.to - size, before.to, before.to - size);
        SliceAt(log, now.from, now.from + size, now.from);
      }
    }
  }

  lemma SameWindow(window: Lines)
    ensures Delta(window, window) == []
  {
    assert Overlaps(window, window, |window|);
    OverlapIsLongest(window, window, |window|);
  }

  lemma TwoAdvance(log: Lines, spans: seq<Span>)
    requires |spans| == 2 && Within(log, spans[0]) && Within(log, spans[1])
    requires spans[0].from <= spans[1].from && spans[0].to <= spans[1].to
    ensures Advancing(log, spans)
  {
    assert Front(Front(spans)) == [];
  }

  /** Two windows that look the same deliver the first one, wherever they are in the log. */
  lemma LookAlikeIsLost(log: Lines, spans: seq<Span>)
    requires Advancing(log, spans) && |spans| == 2 && Within(log, spans[0])
    requires View(log, spans[0]) == View(log, spans[1])
    ensures Delivered(Views(log, spans)) == View(log, spans[0])
    ensures ShownLines(log, spans) == View(log, spans[0]) + log[Resume(spans[0], spans[1])..spans[1].to]
  {
    LastStep(log, spans);
    SameWindow(View(log, spans[0]));
    FirstStep(log, Front(spans));
  }

  lemma Alike(line: string, log: Lines)
    requires log == [line, line, line]
    ensures log[0..2] == log[1..3] == log[..2] && log[0..2] + log[2..3] == log
  {
  }

  /** Where lines repeat a new line can be mistaken for an old one: the third line of this log never arrives,
      although the two windows show all of it; `NothingLostExactly` says when that happens. */
  lemma RepeatedLineIsLost(line: string, log: Lines, spans: seq<Span>)
    requires log == [line, line, line] && |spans| == 2 && spans[0] == Span(0, 2) && spans[1] == Span(1, 3)
    ensures Advancing(log, spans) && ShownLines(log, spans) == log && Delivered(Views(log, spans)) == log[..2]
  {
    Alike(line, log);
    TwoAdvance(log, spans);
    LookAlikeIsLost(log, spans);
  }
}
