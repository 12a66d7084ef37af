/** The append-only ledger of green commits, and the gate that counts them. */
module StabilityLedger {
  import opened Options
  import opened Sequences
  import opened Strings

  // ---------- Commit ids ----------

  /** `str.lower` where it matters: no other character becomes a hexadecimal digit. */
  function LowerChar(c: char): char {
    if 'A' <= c <= 'Z' then (c as int + 32) as char else c
  }

  function Lower(s: string): (r: string)
    ensures |r| == |s| && forall i :: 0 <= i < |s| ==> r[i] == LowerChar(s[i])
  {
    seq(|s|, i requires 0 <= i < |s| => LowerChar(s[i]))
  }

  predicate IsHex(c: char) {
    '0' <= c <= '9' || 'a' <= c <= 'f'
  }

  predicate IsSha(s: string) {
    |s| >= 7 && forall i :: 0 <= i < |s| ==> IsHex(s[i])
  }

  /** `normalize_sha`; None where it raises. */
  function Normalize(sha: string): (r: Option<string>)
    ensures r.Some? ==> IsSha(r.value)
  {
    var value := Lower(StripRight(StripLeft(sha, IsSpace), IsSpace));
    if IsSha(value) then Some(value) else None
  }

  /** The hexadecimal digit, or its letter in upper case. */
  predicate Digit(c: char, digit: char) {
    && digit in "0123456789abcdef"
    && (c == digit || (c in "ABCDEF" && c as int + 32 == digit as int))
  }

  /** Seven or more hexadecimal digits, in either case. */
  predicate Spells(text: string, sha: string) {
    |text| == |sha| >= 7 && forall i :: 0 <= i < |sha| ==> Digit(text[i], sha[i])
  }

  lemma DigitExactly(c: char, digit: char)
    ensures Digit(c, digit) <==> IsHex(digit) && LowerChar(c) == digit
    ensures Digit(c, digit) ==> !IsSpace(c)
  {
  }

  /** What a commit id is: at least seven hexadecimal digits between blanks, taken in lower case. */
  lemma NormalizeExactly(sha: string, value: string)
    ensures Normalize(sha) == Some(value) <==>
            exists left, text, right :: sha == left + text + right && Spells(text, value) &&
                                  forall c :: c in left || c in right ==> IsSpace(c)
  {
    if Normalize(sha) == Some(value) {
      var left, right := StripExactly(sha, IsSpace);
      var text := StripRight(StripLeft(sha, IsSpace), IsSpace);
      forall i | 0 <= i < |value| ensures Digit(text[i], value[i]) {
        DigitExactly(text[i], value[i]);
      }
      assert Spells(text, value);
    }
    if left, text, right :| sha == left + text + right && Spells(text, value) &&
                            forall c :: c in left || c in right ==> IsSpace(c) {
      SpelledIsNormal(left, text, right, value);
    }
  }

  lemma SpelledIsNormal(left: string, text: string, right: string, value: string)
    requires Spells(text, value) && forall c :: c in left || c in right ==> IsSpace(c)
    ensures Normalize(left + text + right) == Some(value)
  {
    forall i | 0 <= i < |value| ensures IsHex(value[i]) && LowerChar(text[i]) == value[i] && !IsSpace(text[i]) {
      DigitExactly(text[i], value[i]);
    }
    StripBetween(left, text, right, IsSpace);
    assert Lower(text) == value;
  }

  lemma NormalizedIsFixed(sha: string)
    requires IsSha(sha)
    ensures Normalize(sha) == Some(sha)
  {
    assert IsHex(sha[0]) && IsHex(sha[|sha| - 1]);
    assert StripLeft(sha, IsSpace) == sha && StripRight(sha, IsSpace) == sha;
    assert Lower(sha) == sha;
  }

  // ---------- The ledger ----------

  /** `note` stands for what a call records beside the commit. */
  datatype Entry = Entry(sha: string, note: string, counted: bool)

  datatype Ledger = Ledger(unique: seq<string>, entries: seq<Entry>)

  datatype Call = Call(sha: string, note: string)

  /** `count` is the number the call reports. */
  datatype Outcome = Rejected | Recorded(ledger: Ledger, accepted: bool, count: nat, sha: string)

  predicate Readable(unique: seq<string>) {
    forall i :: 0 <= i < |unique| ==> Normalize(unique[i]).Some?
  }

  function Known(unique: seq<string>): set<string>
    requires Readable(unique)
  {
    set i | 0 <= i < |unique| :: Normalize(unique[i]).value
  }

  /** `record_unique_green_sha`.  The two branches count differently: a rerun reports how many commits are known, a new
      commit how long the list has become. */
  function Record(ledger: Ledger, call: Call): Outcome {
    if Normalize(call.sha).None? || !Readable(ledger.unique) then Rejected
    else
      var sha, known := Normalize(call.sha).value, Known(ledger.unique);
      if sha in known then
        Recorded(ledger.(entries := ledger.entries + [Entry(sha, call.note, false)]), false, |known|, sha)
      else
        Recorded(Ledger(ledger.unique + [sha], ledger.entries + [Entry(sha, call.note, true)]), true,
                 |ledger.unique| + 1, sha)
  }

  /** A call is rejected exactly for a malformed commit, or a malformed one in the list. */
  lemma RejectedExactly(ledger: Ledger, call: Call)
    ensures Record(ledger, call).Rejected? <==>
            Normalize(call.sha).None? || exists sha :: sha in ledger.unique && Normalize(sha).None?
  {
    if !Readable(ledger.unique) {
      var i :| 0 <= i < |ledger.unique| && Normalize(ledger.unique[i]).None?;
      assert ledger.unique[i] in ledger.unique;
    }
  }

  /** No commit is listed twice, and all are in normal form. */
  ghost predicate Proper(unique: seq<string>) {
    && (forall i :: 0 <= i < |unique| ==> IsSha(unique[i]))
    && Distinct(unique)
  }

  function Members(unique: seq<string>): (members: set<string>)
    ensures forall sha :: sha in members <==> sha in unique
  {
    set sha | sha in unique
  }

  lemma {:induction false} ProperSize(unique: seq<string>)
    requires Proper(unique)
    ensures |Members(unique)| == |unique|
  {
    if unique != [] {
      var front, last := unique[..|unique| - 1], unique[|unique| - 1];
      ProperSize(front);
      assert unique == front + [last];
      assert Members(unique) == Members(front) + {last} && last !in Members(front);
    }
  }

  lemma ProperIsKnown(unique: seq<string>)
    requires Proper(unique)
    ensures Readable(unique) && Known(unique) == Members(unique)
  {
    forall i | 0 <= i < |unique| ensures Normalize(unique[i]) == Some(unique[i]) {
      NormalizedIsFixed(unique[i]);
    }
    forall sha ensures sha in Known(unique) <==> sha in unique {
      if sha in unique {
        var i :| 0 <= i < |unique| && unique[i] == sha;
        assert Normalize(unique[i]).value in Known(unique);
      }
    }
  }

  // ---------- Runs ----------

  /** A call that raises leaves the ledger as it was. */
  function Run(ledger: Ledger, calls: seq<Call>): Ledger {
    if calls == [] then ledger
    else
      var before := Run(ledger, calls[..|calls| - 1]);
      var outcome := Record(before, calls[|calls| - 1]);
      if outcome.Rejected? then before else outcome.ledger
  }

  /** The commits that the valid calls name, one per call. */
  function Named(calls: seq<Call>): seq<string> {
    if calls == [] then []
    else
      var sha := Normalize(calls[|calls| - 1].sha);
      Named(calls[..|calls| - 1]) + if sha.Some? then [sha.value] else []
  }

  /** One call on a proper ledger. */
  lemma RecordIsExact(ledger: Ledger, call: Call)
    requires Proper(ledger.unique) && Normalize(call.sha).Some?
    ensures var sha, outcome := Normalize(call.sha).value, Record(ledger, call);
            && outcome.Recorded? && Proper(outcome.ledger.unique) && outcome.count == |outcome.ledger.unique|
            && outcome.accepted == (sha !in ledger.unique)
            && outcome.ledger.unique == ledger.unique + (if sha in ledger.unique then [] else [sha])
            && outcome.ledger.entries == ledger.entries + [Entry(sha, call.note, sha !in ledger.unique)]
  {
    ProperIsKnown(ledger.unique);
    ProperSize(ledger.unique);
  }

  /** The last of a series of calls. */
  lemma LastCall(ledger: Ledger, calls: seq<Call>)
    requires calls != [] && Proper(Run(ledger, calls[..|calls| - 1]).unique)
    ensures var front, call := calls[..|calls| - 1], calls[|calls| - 1];
            var before, sha := Run(ledger, front), Normalize(call.sha);
            if sha.None? then Run(ledger, calls) == before && Named(calls) == Named(front)
            else
              && Named(calls) == Named(front) + [sha.value]
              && Proper(Run(ledger, calls).unique)
              && Run(ledger, calls).unique == before.unique + (if sha.value in before.unique then [] else [sha.value])
              && Run(ledger, calls).entries == before.entries +
                [Entry(sha.value, call.note, sha.value !in before.unique)]
  {
    if Normalize(calls[|calls| - 1].sha).Some? {
      RecordIsExact(Run(ledger, calls[..|calls| - 1]), calls[|calls| - 1]);
    }
  }

  /** Whatever the calls: the list stays proper and only grows, and its members are those it had and those named. */
  lemma {:induction false} RunCollects(ledger: Ledger, calls: seq<Call>)
    requires Proper(ledger.unique)
    ensures Proper(Run(ledger, calls).unique) && ledger.unique <= Run(ledger, calls).unique
    ensures forall sha :: sha in Run(ledger, calls).unique <==> sha in ledger.unique || sha in Named(calls)
  {
    if calls != [] {
      RunCollects(ledger, calls[..|calls| - 1]);
      LastCall(ledger, calls);
    }
  }

  /** So it has grown by exactly the distinct new commits. */
  lemma RunIsExact(ledger: Ledger, calls: seq<Call>)
    requires Proper(ledger.unique)
    ensures |Run(ledger, calls).unique| == |ledger.unique| + |Members(Named(calls)) - Members(ledger.unique)|
  {
    var after := Run(ledger, calls).unique;
    RunCollects(ledger, calls);
    ProperSize(after);
    ProperSize(ledger.unique);
    assert Members(after) == Members(ledger.unique) + (Members(Named(calls)) - Members(ledger.unique));
  }

  lemma {:induction false} NamedHas(calls: seq<Call>, sha: string)
    ensures sha in Named(calls) <==> exists call :: call in calls && Normalize(call.sha) == Some(sha)
  {
    if calls != [] {
      NamedHas(calls[..|calls| - 1], sha);
      assert calls == calls[..|calls| - 1] + [calls[|calls| - 1]];
    }
  }

  /** The order of the calls and their repetitions do not matter for what is counted. */
  lemma OrderDoesNotMatter(ledger: Ledger, a: seq<Call>, b: seq<Call>)
    requires Proper(ledger.unique) && forall call :: call in a <==> call in b
    ensures Members(Run(ledger, a).unique) == Members(Run(ledger, b).unique)
    ensures |Run(ledger, a).unique| == |Run(ledger, b).unique|
  {
    RunCollects(ledger, a);
    RunCollects(ledger, b);
    forall sha ensures sha in Named(a) <==> sha in Named(b) {
      NamedHas(a, sha);
      NamedHas(b, sha);
    }
    assert Members(Run(ledger, a).unique) == Members(Run(ledger, b).unique);
    ProperSize(Run(ledger, a).unique);
    ProperSize(Run(ledger, b).unique);
  }

  /** Each new entry names its call's commit and is counted exactly on the commit's first appearance. */
  ghost predicate Marked(added: seq<Entry>, named: seq<string>, unique: seq<string>) {
    && |added| == |named|
    && forall k :: 0 <= k < |named| ==>
         added[k].sha == named[k] && (added[k].counted <==> named[k] !in unique && named[k] !in named[..k])
  }

  lemma MarkedGrows(added: seq<Entry>, named: seq<string>, unique: seq<string>, entry: Entry)
    requires Marked(added, named, unique) && (entry.counted <==> entry.sha !in unique && entry.sha !in named)
    ensures Marked(added + [entry], named + [entry.sha], unique)
  {
    var more := named + [entry.sha];
    forall k | 0 <= k < |more| ensures more[..k] == named[..k] {
    }
    assert named[..|named|] == named;
  }

  /** Every valid call appends one entry, and no entry is ever changed. */
  lemma {:induction false} EntriesAreExact(ledger: Ledger, calls: seq<Call>)
    requires Proper(ledger.unique)
    ensures ledger.entries <= Run(ledger, calls).entries
    ensures Marked(Run(ledger, calls).entries[|ledger.entries|..], Named(calls), ledger.unique)
  {
    if calls != [] {
      var front, call := calls[..|calls| - 1], calls[|calls| - 1];
      EntriesAreExact(ledger, front);
      RunCollects(ledger, front);
      LastCall(ledger, calls);
      if Normalize(call.sha).Some? {
        var before, sha := Run(ledger, front), Normalize(call.sha).value;
        var entry := Entry(sha, call.note, sha !in before.unique);
        MarkedGrows(before.entries[|ledger.entries|..], Named(front), ledger.unique, entry);
        assert (before.entries + [entry])[|ledger.entries|..] == before.entries[|ledger.entries|..] + [entry];
      }
    }
  }

  // ---------- Counting the rerun way ----------

  function Normal(unique: seq<string>): (normal: seq<string>)
    requires Readable(unique)
    ensures |normal| == |unique| && forall i :: 0 <= i < |unique| ==> normal[i] == Normalize(unique[i]).value
  {
    seq(|unique|, i requires 0 <= i < |unique| => Normalize(unique[i]).value)
  }

  lemma {:induction false} MembersCount(values: seq<string>)
    ensures |Members(values)| <= |values| && (|Members(values)| == |values| <==> Distinct(values))
  {
    if values != [] {
      var front, last := values[..|values| - 1], values[|values| - 1];
      MembersCount(front);
      assert values == front + [last];
      assert Members(values) == Members(front) + {last};
      if last in front {
        assert Members(values) == Members(front);
        var i :| 0 <= i < |front| && front[i] == last;
        assert values[i] == values[|values| - 1];
      }
    }
  }

  /** A rerun reports the number of distinct commits, which is the length of the list exactly if no two of its items are
      the same commit. */
  lemma RerunCount(ledger: Ledger, call: Call)
    requires Readable(ledger.unique) && Record(ledger, call).Recorded? && !Record(ledger, call).accepted
    ensures Record(ledger, call).count == |ledger.unique| <==> Distinct(Normal(ledger.unique))
  {
    var normal := Normal(ledger.unique);
    MembersCount(normal);
    forall sha ensures sha in Known(ledger.unique) <==> sha in normal {
      if sha in normal {
        var i :| 0 <= i < |normal| && normal[i] == sha;
        assert Normalize(ledger.unique[i]).value in Known(ledger.unique);
      }
      if sha in Known(ledger.unique) {
        var i :| 0 <= i < |ledger.unique| && Normalize(ledger.unique[i]).value == sha;
        assert normal[i] == sha;
      }
    }
    assert Known(ledger.unique) == Members(normal);
  }

  // ---------- The imperative code ----------

  /** The set of known commits; None where one of them is malformed. */
  method KnownShas(unique: seq<string>) returns (known: Option<set<string>>)
    ensures known.Some? <==> Readable(unique)
    ensures known.Some? ==> known.value == Known(unique)
  {
    var shas: set<string> := {};
    for i := 0 to |unique|
      invariant Readable(unique[..i]) && shas == Known(unique[..i])
    {
      var sha := Normalize(unique[i]);
      if sha.None? {
        return None;
      }
      assert unique[..i + 1] == unique[..i] + [unique[i]];
      KnownGrows(unique[..i], unique[i]);
      shas := shas + {sha.value};
    }
    assert unique[..|unique|] == unique;
    return Some(shas);
  }

  lemma KnownGrows(unique: seq<string>, next: string)
    requires Readable(unique) && Normalize(next).Some?
    ensures Readable(unique + [next]) && Known(unique + [next]) == Known(unique) + {Normalize(next).value}
  {
    var more := unique + [next];
    assert Normalize(more[|unique|]) == Normalize(next);
    forall i | 0 <= i < |unique| ensures Normalize(more[i]) == Normalize(unique[i]) {
    }
  }

  /** `record_unique_green_sha`, with the local copies that it appends to. */
  method RecordUniqueGreenSha(ledger: Ledger, call: Call) returns (outcome: Outcome)
    ensures outcome == Record(ledger, call)
  {
    var fullSha, known := Normalize(call.sha), None;
    if fullSha.Some? {
      known := KnownShas(ledger.unique);
    }
    if known.None? {
      return Rejected;
    }
    var entries := ledger.entries;
    if fullSha.value in known.value {
      entries := entries + [Entry(fullSha.value, call.note, false)];
      return Recorded(ledger.(entries := entries), false, |known.value|, fullSha.value);
    }
    var ordered := ledger.unique + [fullSha.value];
    entries := entries + [Entry(fullSha.value, call.note, true)];
    return Recorded(Ledger(ordered, entries), true, |ordered|, fullSha.value);
  }

  // ---------- The gate ----------

  /** `startedDay` is None until the clock was started; days are counted from a fixed day. */
  datatype Clock = Clock(startedDay: Option<int>, minDays: nat, minShas: nat)

  function DaysElapsed(startedDay: int, today: int): nat {
    if today <= startedDay then 0 else today - startedDay
  }

  /** `evaluate_clock`, its `readyToCloseF11`. */
  predicate Ready(clock: Clock, ledger: Ledger, today: int) {
    && clock.startedDay.Some? && DaysElapsed(clock.startedDay.value, today) >= clock.minDays
    && |ledger.unique| >= clock.minShas
  }

  /** The gate is open once the clock was started, enough days have passed since and enough commits are listed. */
  lemma ReadyExactly(clock: Clock, ledger: Ledger, today: int)
    ensures Ready(clock, ledger, today) <==>
            && clock.startedDay.Some? && clock.minShas <= |ledger.unique|
            && (clock.startedDay.value + clock.minDays <= today || clock.minDays == 0)
  {
  }

  /** With nothing listed before, it opens on the day on which both are reached: enough days since the start, and
      calls that named enough different commits. */
  lemma OpensExactly(clock: Clock, calls: seq<Call>, today: int)
    requires clock.startedDay.Some? && clock.startedDay.value <= today
    ensures Ready(clock, Run(Ledger([], []), calls), today) <==>
            clock.startedDay.value + clock.minDays <= today && clock.minShas <= |Members(Named(calls))|
  {
    RunIsExact(Ledger([], []), calls);
    assert Members(Named(calls)) - Members([]) == Members(Named(calls));
  }

  /** More calls and later days never close the gate again, and calls that name no new commit never open it. */
  lemma GateIsMonotone(clock: Clock, ledger: Ledger, calls: seq<Call>, today: int, later: int)
    requires Proper(ledger.unique) && today <= later
    ensures Ready(clock, ledger, today) ==> Ready(clock, Run(ledger, calls), later)
    ensures Members(Named(calls)) <= Members(ledger.unique) ==>
              (Ready(clock, Run(ledger, calls), today) <==> Ready(clock, ledger, today))
  {
    RunIsExact(ledger, calls);
  }
}
