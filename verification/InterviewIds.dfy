/** The ids of interview questions, and the normalisation that keeps them apart. */
module InterviewIds {
  import opened Options
  import opened Sequences
  import opened Strings

  // ---------- Numbers ----------

  function Decimal(n: nat): (digits: string)
    ensures digits != "" && forall i :: 0 <= i < |digits| ==> '0' <= digits[i] <= '9'
  {
    if n < 10 then [('0' as int + n) as char] else Decimal(n / 10) + [('0' as int + n % 10) as char]
  }

  function Power(k: nat): (p: nat)
    ensures p >= 1
  {
    if k == 0 then 1 else 10 * Power(k - 1)
  }

  lemma {:induction false} DecimalLength(n: nat, k: nat)
    requires k >= 1
    ensures n < Power(k) <==> |Decimal(n)| <= k
  {
    if n >= 10 && k > 1 {
      DecimalLength(n / 10, k - 1);
    } else {
      assert Power(1) == 10 * Power(0) == 10;
      assert k > 1 ==> Power(k) == 10 * Power(k - 1) && Power(k - 1) >= 1;
    }
  }

  lemma {:induction false} DecimalInjective(n: nat, m: nat)
    requires Decimal(n) == Decimal(m)
    ensures n == m
  {
    if n >= 10 && m >= 10 {
      assert Decimal(n)[..|Decimal(n)| - 1] == Decimal(n / 10) && Decimal(m)[..|Decimal(m)| - 1] == Decimal(m / 10);
      DecimalInjective(n / 10, m / 10);
      assert Decimal(n)[|Decimal(n)| - 1] == Decimal(m)[|Decimal(m)| - 1];
    } else {
      assert |Decimal(n)| == |Decimal(m)|;
      assert n < 10 && m < 10;
      assert Decimal(n)[0] == Decimal(m)[0];
    }
  }

  // ---------- Ids ----------

  predicate Allowed(c: char) {
    'a' <= c <= 'z' || '0' <= c <= '9' || c == '_'
  }

  predicate AllAllowed(s: string) {
    forall i :: 0 <= i < |s| ==> Allowed(s[i])
  }

  /** Every run of other characters becomes one underscore. */
  function Collapse(s: string): (r: string)
    ensures AllAllowed(r)
  {
    if s == "" then ""
    else if Allowed(s[0]) then [s[0]] + Collapse(s[1..])
    else if |s| > 1 && !Allowed(s[1]) then Collapse(s[1..])
    else "_" + Collapse(s[1..])
  }

  predicate IsUnderscore(c: char) {
    c == '_'
  }

  /** Without underscores at its ends. */
  function Trimmed(s: string): (r: string)
    ensures AllAllowed(s) ==> AllAllowed(r)
  {
    TrimKeepsAllowed(s);
    StripRight(StripLeft(s, IsUnderscore), IsUnderscore)
  }

  lemma TrimKeepsAllowed(s: string)
    ensures AllAllowed(s) ==> AllAllowed(StripRight(StripLeft(s, IsUnderscore), IsUnderscore))
  {
    var r := StripRight(StripLeft(s, IsUnderscore), IsUnderscore);
    forall i | AllAllowed(s) && 0 <= i < |r| ensures Allowed(r[i]) {
      StripKeeps(s, IsUnderscore, r[i]);
    }
  }

  function Cut(s: string, limit: nat): (r: string)
    ensures |r| <= limit && r <= s
  {
    if |s| <= limit then s else s[..limit]
  }

  /** The stem of an id; `text` is the wanted id, stripped and in lower case. */
  function Stem(text: string, fallback: nat): (stem: string)
    ensures stem != "" && |stem| <= 48 && AllAllowed(stem)
  {
    var raw := Trimmed(Collapse(text));
    Cut(if raw == "" then "ai_question_" + Decimal(fallback) else raw, 48)
  }

  lemma {:induction false} AllowedIsKept(s: string)
    requires AllAllowed(s)
    ensures Collapse(s) == s
  {
    if s != "" {
      AllowedIsKept(s[1..]);
      assert [s[0]] + s[1..] == s;
    }
  }

  /** A proper id of at most 48 characters is its own stem. */
  lemma ProperIdIsKept(id: string, fallback: nat)
    requires AllAllowed(id) && 0 < |id| <= 48 && id[0] != '_' && id[|id| - 1] != '_'
    ensures Stem(id, fallback) == id
  {
    AllowedIsKept(id);
  }

  function Candidate(stem: string, counter: nat): string {
    Cut(stem + "_" + Decimal(counter), 56)
  }

  lemma {:induction false} PowerGrows(k: nat, m: nat)
    requires k <= m
    ensures Power(k) <= Power(m)
  {
    if k < m {
      PowerGrows(k, m - 1);
    }
  }

  /** Counters below ten million have candidates that are not cut, whatever the stem. */
  const COUNTERS: nat := 10_000_000

  /** Counters below this one have candidates that are not cut. */
  function Counters(stem: string): (n: nat)
    requires |stem| <= 48
    ensures n >= COUNTERS
  {
    assert Power(7) == COUNTERS;
    PowerGrows(7, 55 - |stem|);
    Power(55 - |stem|)
  }

  lemma Uncut(stem: string, counter: nat)
    requires |stem| <= 48 && counter < Counters(stem)
    ensures Candidate(stem, counter) == stem + "_" + Decimal(counter)
  {
    DecimalLength(counter, 55 - |stem|);
  }

  lemma CandidatesDiffer(stem: string, n: nat, m: nat)
    requires |stem| <= 48 && n < Counters(stem) && m < Counters(stem) && n != m
    ensures Candidate(stem, n) != Candidate(stem, m) && Candidate(stem, n) != stem
  {
    Uncut(stem, n);
    Uncut(stem, m);
    if Candidate(stem, n) == Candidate(stem, m) {
      assert Candidate(stem, n)[|stem| + 1..] == Decimal(n) && Candidate(stem, m)[|stem| + 1..] == Decimal(m);
      DecimalInjective(n, m);
    }
  }

  ghost predicate Chosen(stem: string, used: set<string>, id: string, counter: nat) {
    && 2 <= counter && id == Candidate(stem, counter)
    && forall earlier: nat :: 2 <= earlier < counter ==> Candidate(stem, earlier) in used
  }

  /** The id of a stem: the stem itself, or else its first candidate, that is free. */
  ghost predicate FirstFree(stem: string, used: set<string>, id: string) {
    id !in used &&
    (id == stem || (stem in used && exists counter: nat :: counter <= |used| + 1 && Chosen(stem, used, id, counter)))
  }

  /** The suffix loop comes to its end: the stem is free, or one of its candidates. */
  ghost predicate Ends(stem: string, used: set<string>) {
    stem !in used || exists counter: nat :: 2 <= counter && Candidate(stem, counter) !in used
  }

  /** The same with a bound on what must be looked at. */
  ghost predicate Free(stem: string, used: set<string>)
    requires |stem| <= 48
  {
    stem !in used || exists counter: nat :: 2 <= counter < Counters(stem) && Candidate(stem, counter) !in used
  }

  /** Candidates run out: where the number no longer fits, the cut gives an earlier candidate again. */
  lemma {:induction false} CandidatesRepeat(stem: string, counter: nat) returns (earlier: nat)
    requires |stem| <= 48 && counter >= 2
    ensures 2 <= earlier < Counters(stem) && Candidate(stem, earlier) == Candidate(stem, counter)
  {
    if counter < Counters(stem) {
      earlier := counter;
    } else {
      DecimalLength(counter, 55 - |stem|);
      earlier := CandidatesRepeat(stem, counter / 10);
      var longer, shorter := stem + "_" + Decimal(counter), stem + "_" + Decimal(counter / 10);
      assert longer == shorter + [Decimal(counter)[|Decimal(counter)| - 1]];
      CutIsSame(longer, shorter);
    }
  }

  lemma CutIsSame(longer: string, shorter: string)
    requires shorter <= longer && |shorter| >= 56
    ensures Cut(longer, 56) == Cut(shorter, 56)
  {
    assert longer[..56] == shorter[..56];
  }

  /** So the loop ends if and only if the stem or one of the candidates that are not cut is free. */
  lemma EndsExactlyWhenFree(stem: string, used: set<string>)
    requires |stem| <= 48
    ensures Ends(stem, used) <==> Free(stem, used)
  {
    if counter: nat :| stem in used && 2 <= counter && Candidate(stem, counter) !in used {
      var earlier := CandidatesRepeat(stem, counter);
      assert Candidate(stem, earlier) !in used;
    }
  }

  /** For every stem there is a finite set of used ids on which it does not end. */
  lemma UsedUp(stem: string) returns (used: set<string>)
    requires |stem| <= 48
    ensures !Ends(stem, used)
  {
    used := {stem} + set counter: nat | 2 <= counter < Counters(stem) :: Candidate(stem, counter);
    forall counter: nat | 2 <= counter ensures Candidate(stem, counter) in used {
      var earlier := CandidatesRepeat(stem, counter);
    }
  }

  /** What was tried in vain are different used ids. */
  lemma {:induction false} TriedFit(stem: string, used: set<string>, counter: nat)
    requires |stem| <= 48 && 2 <= counter <= Counters(stem) && stem in used
    requires forall earlier: nat :: 2 <= earlier < counter ==> Candidate(stem, earlier) in used
    ensures counter - 1 <= |used|
  {
    if counter == 2 {
      assert |used - {stem}| == |used| - 1;
    } else {
      var last := Candidate(stem, counter - 1);
      forall earlier: nat | 2 <= earlier < counter - 1 ensures Candidate(stem, earlier) in used - {last} {
        CandidatesDiffer(stem, earlier, counter - 1);
      }
      CandidatesDiffer(stem, counter - 1, 0);
      TriedFit(stem, used - {last}, counter - 1);
    }
  }

  /** With fewer than ten million used ids the loop ends. */
  lemma FewUsedIsFree(stem: string, used: set<string>)
    requires |stem| <= 48 && |used| + 2 <= COUNTERS
    ensures Free(stem, used)
  {
    if !Free(stem, used) {
      assert forall earlier: nat :: 2 <= earlier < |used| + 2 ==> Candidate(stem, earlier) in used;
      TriedFit(stem, used, |used| + 2);
    }
  }

  /** `_safe_question_id`, on every input on which it ends. */
  method SafeQuestionId(text: string, used: set<string>, fallback: nat) returns (id: string, after: set<string>)
    requires Ends(Stem(text, fallback), used)
    ensures FirstFree(Stem(text, fallback), used, id) && after == used + {id}
  {
    var stem := Stem(text, fallback);
    EndsExactlyWhenFree(stem, used);
    ghost var last: nat :| stem in used ==> 2 <= last < Counters(stem) && Candidate(stem, last) !in used;
    id := stem;
    var counter := 2;
    while id in used
      invariant counter >= 2
      invariant counter == 2 ==> id == stem
      invariant counter > 2 ==> id == Candidate(stem, counter - 1) && stem in used && counter - 1 <= last
      invariant forall c: nat :: 2 <= c < counter - 1 ==> Candidate(stem, c) in used
      decreases last + 2 - counter
    {
      id := Candidate(stem, counter);
      counter := counter + 1;
    }
    if counter > 2 {
      assert Chosen(stem, used, id, counter - 1);
      TriedFit(stem, used, counter - 1);
    }
    after := used + {id};
  }

  // ---------- The interview ----------

  datatype Kind = ChoiceText | MultiChoiceText | TextArea | OtherKind(mentionsMulti: bool)

  /** A list element; a question has its wanted id, its text and its options, all stripped and with single blanks. */
  datatype Item = NotADict | Item(id: string, text: string, kind: Kind, options: seq<string>, required: bool,
                                  placeholder: string)

  datatype Question = Question(id: string, text: string, kind: Kind, options: seq<string>, required: bool,
                               placeholder: string)

  const SUCCESS := "success_criteria"

  function KindOf(kind: Kind): Kind {
    if kind.OtherKind? then if kind.mentionsMulti then MultiChoiceText else ChoiceText else kind
  }

  const OPTIONS := 6

  /** The options kept of a list of texts: each new one, cut, until there are six. */
  function StringList(items: seq<string>): (r: seq<string>)
    ensures |r| <= OPTIONS && forall i :: 0 <= i < |r| ==> r[i] != "" && |r[i]| <= 80
  {
    if items == [] then []
    else
      var front, text := StringList(items[..|items| - 1]), items[|items| - 1];
      if |front| == OPTIONS || text == "" || text in front then front else front + [Cut(text, 80)]
  }

  lemma {:induction false} FullListStays(items: seq<string>, k: nat)
    requires k <= |items| && |StringList(items[..k])| == OPTIONS
    ensures StringList(items) == StringList(items[..k])
  {
    if k == |items| {
      assert items[..k] == items;
    } else {
      assert items[..|items| - 1][..k] == items[..k];
      FullListStays(items[..|items| - 1], k);
    }
  }

  /** `_string_list`. */
  method BuildStringList(items: seq<string>) returns (result: seq<string>)
    ensures result == StringList(items)
  {
    result := [];
    for i := 0 to |items|
      invariant result == StringList(items[..i]) && |result| < OPTIONS
    {
      assert items[..i + 1][..i] == items[..i];
      if items[i] != "" && items[i] !in result {
        result := result + [Cut(items[i], 80)];
      }
      if |result| >= OPTIONS {
        FullListStays(items, i + 1);
        return;
      }
    }
    assert items[..|items|] == items;
  }

  /** Some item that is not empty begins like this. */
  ghost predicate SeenBefore(items: seq<string>, option: string) {
    exists i :: 0 <= i < |items| && items[i] != "" && Cut(items[i], 80) == option
  }

  /** How many items would be listed if there were no limit: those that are new, and every longer one. */
  ghost function Additions(items: seq<string>): nat {
    if items == [] then 0
    else
      var front, last := items[..|items| - 1], items[|items| - 1];
      Additions(front) + if last != "" && (|last| > 80 || !SeenBefore(front, last)) then 1 else 0
  }

  /** Item `j` comes while there is room, and is listed although an earlier item has the same first 80 characters. */
  ghost predicate ComesAgain(items: seq<string>, j: nat)
    requires j < |items|
  {
    |items[j]| > 80 && Additions(items[..j]) < OPTIONS && SeenBefore(items[..j], Cut(items[j], 80))
  }

  /** As long as there is room, the list holds the cut of every text that is not empty, and nothing else. */
  lemma {:induction false} ListHoldsCuts(items: seq<string>, option: string)
    ensures option in StringList(items) ==> SeenBefore(items, option)
    ensures SeenBefore(items, option) && |StringList(items)| < OPTIONS ==> option in StringList(items)
  {
    if items != [] {
      var front, last := items[..|items| - 1], items[|items| - 1];
      ListHoldsCuts(front, option);
      if SeenBefore(front, option) {
        var i :| 0 <= i < |front| && front[i] != "" && Cut(front[i], 80) == option;
        assert items[i] == front[i];
      }
      if last != "" && Cut(last, 80) == option {
        assert items[|items| - 1] == last;
      }
    }
  }

  /** The list is full as soon as there are six of them. */
  lemma {:induction false} ListLength(items: seq<string>)
    ensures |StringList(items)| == if Additions(items) < OPTIONS then Additions(items) else OPTIONS
  {
    if items != [] {
      var front, last := items[..|items| - 1], items[|items| - 1];
      ListLength(front);
      ListHoldsCuts(front, last);
    }
  }

  /** The options differ if and only if no longer text comes again. */
  lemma {:induction false} OptionsDifferExactly(items: seq<string>)
    ensures Distinct(StringList(items)) <==> forall j :: 0 <= j < |items| ==> !ComesAgain(items, j)
  {
    if items != [] {
      var front, last := items[..|items| - 1], items[|items| - 1];
      OptionsDifferExactly(front);
      LastOptionDiffers(items, front, last);
      assert forall j :: 0 <= j < |front| ==> front[..j] == items[..j];
      assert forall j :: 0 <= j < |front| ==> (ComesAgain(items, j) <==> ComesAgain(front, j));
    }
  }

  lemma LastOptionDiffers(items: seq<string>, front: seq<string>, last: string)
    requires items != [] && front == items[..|items| - 1] && last == items[|items| - 1]
    ensures Distinct(StringList(items)) <==> Distinct(StringList(front)) && !ComesAgain(items, |front|)
  {
    ListHoldsCuts(front, Cut(last, 80));
    ListLength(front);
    AppendedIsDistinct(StringList(front), Cut(last, 80));
    assert ComesAgain(items, |front|) <==>
           |last| > 80 && |StringList(front)| < OPTIONS && SeenBefore(front, Cut(last, 80));
  }

  lemma AppendedIsDistinct(options: seq<string>, option: string)
    ensures Distinct(options + [option]) <==> Distinct(options) && option !in options
  {
    var more := options + [option];
    if Distinct(more) {
      assert forall i :: 0 <= i < |options| ==> more[i] == options[i] && more[i] != more[|options|];
    }
  }

  /** So they differ if none of them had to be cut. */
  lemma ShortOptionsDiffer(items: seq<string>)
    requires forall i :: 0 <= i < |items| ==> |items[i]| <= 80
    ensures Distinct(StringList(items))
  {
    OptionsDifferExactly(items);
  }

  /** An option that is cut is not recognised when it comes again. */
  lemma LongOptionComesTwice(text: string)
    requires |text| > 80
    ensures StringList([text, text]) == [text[..80], text[..80]]
  {
    assert [text, text][..1] == [text] && [text][..0] == [];
    assert StringList([text]) == [text[..80]];
  }

  function OptionsOf(item: Item): seq<string>
    requires item.Item?
  {
    var options := StringList(item.options);
    if KindOf(item.kind).TextArea? && options == [] then ["Написать вручную"] else options
  }

  predicate Acceptable(item: Item) {
    item.Item? && item.text != "" && (KindOf(item.kind).TextArea? || |StringList(item.options)| >= 2)
  }

  function Shape(item: Item, id: string): Question
    requires item.Item?
  {
    Question(id, Cut(item.text, 180), KindOf(item.kind), OptionsOf(item), item.required, Cut(item.placeholder, 180))
  }

  /** The acceptable items among the first ones, with their stems and without ids. */
  function Stems(items: seq<Item>): (stems: seq<string>)
    ensures |stems| <= |items|
  {
    if items == [] then []
    else
      var last := items[|items| - 1];
      Stems(items[..|items| - 1]) + if Acceptable(last) then [Stem(last.id, |items|)] else []
  }

  function Shapes(items: seq<Item>): (shapes: seq<Question>)
    ensures |shapes| == |Stems(items)|
  {
    if items == [] then []
    else
      var last := items[|items| - 1];
      Shapes(items[..|items| - 1]) + if Acceptable(last) then [Shape(last, "")] else []
  }

  function Ids(questions: seq<Question>): (ids: seq<string>)
    ensures |ids| == |questions| && forall i :: 0 <= i < |ids| ==> ids[i] == questions[i].id
  {
    seq(|questions|, i requires 0 <= i < |questions| => questions[i].id)
  }

  /** The questions are the acceptable items, in order, whatever their ids. */
  ghost predicate Shaped(questions: seq<Question>, shapes: seq<Question>) {
    |questions| <= |shapes| && forall i :: 0 <= i < |questions| ==> questions[i].(id := "") == shapes[i]
  }

  /** Only an item whose stem is the reserved id and that comes first with it gets that id. */
  lemma SuffixedIsNotReserved(stem: string, counter: nat)
    requires |stem| <= 48 && counter < COUNTERS
    ensures Candidate(stem, counter) != SUCCESS
  {
    Uncut(stem, counter);
    var candidate := Candidate(stem, counter);
    assert candidate[|candidate| - 1] == Decimal(counter)[|Decimal(counter)| - 1];
    assert SUCCESS[|SUCCESS| - 1] == 'a';
  }

  /** Every id is the stem of its item, or the first candidate of it, that is not among the ids before. */
  ghost predicate NamedInTurn(ids: seq<string>, stems: seq<string>) {
    |ids| == |stems| && forall i :: 0 <= i < |ids| ==> FirstFree(stems[i], Members(ids, i), ids[i])
  }

  /** The ids before this one. */
  function Members(ids: seq<string>, n: nat): set<string>
    requires n <= |ids|
  {
    set id | id in ids[..n]
  }

  lemma NamedGrows(ids: seq<string>, stems: seq<string>, id: string, stem: string)
    requires NamedInTurn(ids, stems) && FirstFree(stem, Members(ids, |ids|), id)
    ensures NamedInTurn(ids + [id], stems + [stem])
  {
    var more := ids + [id];
    forall i | 0 <= i < |more| ensures Members(more, i) == Members(ids, i) {
      assert more[..i] == ids[..i];
    }
  }

  /** What the loop has built from the first items. */
  ghost predicate Built(questions: seq<Question>, used: set<string>, items: seq<Item>) {
    && Shaped(questions, Shapes(items)) && |questions| == |Stems(items)|
    && Distinct(Ids(questions)) && |used| <= |items| && NamedInTurn(Ids(questions), Stems(items))
    && (forall id :: id in used <==> id in Ids(questions))
    && (forall i :: 0 <= i < |questions| ==>
          (questions[i].id == SUCCESS <==> Stems(items)[i] == SUCCESS && SUCCESS !in Stems(items)[..i]))
  }

  lemma {:induction false} FirstPosition(values: seq<string>, value: string) returns (i: nat)
    requires value in values
    ensures i < |values| && values[i] == value && value !in values[..i]
  {
    if values[0] == value {
      i := 0;
    } else {
      var k := FirstPosition(values[1..], value);
      i := k + 1;
      assert values[..i] == [values[0]] + values[1..][..k];
    }
  }

  /** The reserved id is taken exactly if some item wanted it. */
  lemma ReservedIsTaken(questions: seq<Question>, used: set<string>, items: seq<Item>)
    requires Built(questions, used, items)
    ensures SUCCESS in used <==> SUCCESS in Stems(items)
  {
    if SUCCESS in Stems(items) {
      var i := FirstPosition(Stems(items), SUCCESS);
      assert Ids(questions)[i] == SUCCESS;
    }
    if SUCCESS in used {
      var i :| 0 <= i < |Ids(questions)| && Ids(questions)[i] == SUCCESS;
      assert questions[i].id == SUCCESS;
    }
  }

  lemma SkipItem(questions: seq<Question>, used: set<string>, items: seq<Item>, item: Item)
    requires Built(questions, used, items) && !Acceptable(item)
    ensures Built(questions, used, items + [item])
  {
    assert (items + [item])[..|items|] == items;
    assert Stems(items + [item]) == Stems(items) && Shapes(items + [item]) == Shapes(items);
  }

  lemma StemsGrow(items: seq<Item>, item: Item)
    requires Acceptable(item)
    ensures Stems(items + [item]) == Stems(items) + [Stem(item.id, |items| + 1)]
    ensures Shapes(items + [item]) == Shapes(items) + [Shape(item, "")]
  {
    assert (items + [item])[..|items|] == items;
  }

  /** The new id is the reserved one exactly if this item is the first to want it. */
  lemma ReservedOnce(stem: string, used: set<string>, id: string)
    requires |stem| <= 48 && |used| + 1 < COUNTERS && FirstFree(stem, used, id)
    ensures id == SUCCESS <==> stem == SUCCESS && SUCCESS !in used
  {
    if id != stem {
      var counter: nat :| counter <= |used| + 1 && Chosen(stem, used, id, counter);
      SuffixedIsNotReserved(stem, counter);
    }
  }

  /** The ids stay different, and `used` stays the set of them. */
  lemma IdsGrow(questions: seq<Question>, used: set<string>, question: Question)
    requires Distinct(Ids(questions)) && (forall id :: id in used <==> id in Ids(questions)) && question.id !in used
    ensures Distinct(Ids(questions + [question]))
    ensures forall id :: id in used + {question.id} <==> id in Ids(questions + [question])
  {
    assert Ids(questions + [question]) == Ids(questions) + [question.id];
  }

  /** Who has the reserved id, after one more question. */
  lemma ReservedGrows(questions: seq<Question>, stems: seq<string>, question: Question, stem: string)
    requires |questions| == |stems| && (question.id == SUCCESS <==> stem == SUCCESS && SUCCESS !in stems)
    requires forall i :: 0 <= i < |questions| ==>
             (questions[i].id == SUCCESS <==> stems[i] == SUCCESS && SUCCESS !in stems[..i])
    ensures var more, longer := questions + [question], stems + [stem];
            forall i :: 0 <= i < |more| ==> (more[i].id == SUCCESS <==> longer[i] == SUCCESS && SUCCESS !in longer[..i])
  {
    var longer := stems + [stem];
    forall i | 0 <= i < |longer| ensures longer[..i] == stems[..i] {
    }
    assert stems[..|stems|] == stems;
  }

  lemma AddQuestion(questions: seq<Question>, used: set<string>, items: seq<Item>, item: Item, id: string)
    requires Built(questions, used, items) && Acceptable(item) && |items| + 1 < COUNTERS
    requires FirstFree(Stem(item.id, |items| + 1), used, id)
    ensures Built(questions + [Shape(item, id)], used + {id}, items + [item])
  {
    StemsGrow(items, item);
    ReservedIsTaken(questions, used, items);
    ReservedOnce(Stem(item.id, |items| + 1), used, id);
    IdsGrow(questions, used, Shape(item, id));
    ReservedGrows(questions, Stems(items), Shape(item, id), Stem(item.id, |items| + 1));
    NamesGrow(questions, used, Stems(items), Shape(item, id), Stem(item.id, |items| + 1));
  }

  lemma NamesGrow(questions: seq<Question>, used: set<string>, stems: seq<string>, question: Question, stem: string)
    requires NamedInTurn(Ids(questions), stems) && (forall id :: id in used <==> id in Ids(questions))
    requires FirstFree(stem, used, question.id)
    ensures NamedInTurn(Ids(questions + [question]), stems + [stem])
  {
    assert Members(Ids(questions), |questions|) == used;
    NamedGrows(Ids(questions), stems, question.id, stem);
    assert Ids(questions + [question]) == Ids(questions) + [question.id];
  }

  function AtMost(n: nat, limit: nat): nat {
    if n <= limit then n else limit
  }

  /** The ids were given in turn; where nobody wanted the reserved one, the first question has it instead of its own. */
  ghost predicate Named(ids: seq<string>, stems: seq<string>) {
    exists given :: NamedInTurn(given, stems) && |ids| <= |given| && Renamed(ids, given, stems)
  }

  predicate Renamed(ids: seq<string>, given: seq<string>, stems: seq<string>)
    requires |ids| <= |given|
  {
    forall i :: 0 <= i < |ids| ==> ids[i] == if i == 0 && SUCCESS !in stems then SUCCESS else given[i]
  }

  /** The result for the acceptable items of the first twelve: at most ten questions with different ids, and the
      reserved id among them unless the first item that wants it comes after the tenth. */
  ghost predicate Normalised(questions: seq<Question>, items: seq<Item>, minCount: int) {
    var stems := Stems(items);
    var kept := AtMost(|stems|, 10);
    if |stems| < minCount then questions == []
    else
      && |questions| == kept && Shaped(questions, Shapes(items)) && Distinct(Ids(questions))
      && Named(Ids(questions), stems)
      && (SUCCESS in Ids(questions) <==> SUCCESS !in stems || SUCCESS in stems[..kept])
  }

  /** The first of the built questions have the reserved id among them if the first item that wants it is among them. */
  lemma WantedIsReserved(questions: seq<Question>, stems: seq<string>, n: nat)
    requires |questions| == |stems| && n <= |questions| && SUCCESS in stems
    requires forall i :: 0 <= i < |questions| ==>
             (questions[i].id == SUCCESS <==> stems[i] == SUCCESS && SUCCESS !in stems[..i])
    ensures SUCCESS in Ids(questions[..n]) <==> SUCCESS in stems[..n]
  {
    var kept := questions[..n];
    var i := FirstPosition(stems, SUCCESS);
    if i < n {
      assert Ids(kept)[i] == SUCCESS && stems[..n][i] == SUCCESS;
    } else {
      assert stems[..n] == stems[..i][..n];
      forall j | 0 <= j < n ensures Ids(kept)[j] != SUCCESS {
        assert Ids(kept)[j] == questions[j].id && stems[j] == stems[..n][j];
      }
    }
  }

  lemma KeptAreNamed(questions: seq<Question>, stems: seq<string>, n: nat)
    requires NamedInTurn(Ids(questions), stems) && SUCCESS in stems && n <= |questions| && Distinct(Ids(questions))
    ensures Named(Ids(questions[..n]), stems) && Distinct(Ids(questions[..n]))
  {
    assert Ids(questions[..n]) == Ids(questions)[..n];
    assert Renamed(Ids(questions[..n]), Ids(questions), stems);
  }

  /** The first ten of the built questions, where some item wanted the reserved id. */
  lemma WantedIsNormalised(questions: seq<Question>, used: set<string>, items: seq<Item>, minCount: int)
    requires Built(questions, used, items) && SUCCESS in used && minCount <= |questions|
    ensures Normalised(questions[..AtMost(|questions|, 10)], items, minCount)
  {
    var n := AtMost(|questions|, 10);
    ReservedIsTaken(questions, used, items);
    WantedIsReserved(questions, Stems(items), n);
    KeptAreNamed(questions, Stems(items), n);
  }

  /** And where none did. */
  lemma UnwantedIsNormalised(questions: seq<Question>, used: set<string>, items: seq<Item>, minCount: int)
    requires Built(questions, used, items) && SUCCESS !in used && minCount <= |questions| && questions != []
    ensures Normalised(questions[0 := questions[0].(id := SUCCESS)][..AtMost(|questions|, 10)], items, minCount)
  {
    var renamed := questions[0 := questions[0].(id := SUCCESS)];
    var kept := renamed[..AtMost(|questions|, 10)];
    ReservedIsTaken(questions, used, items);
    assert NamedInTurn(Ids(questions), Stems(items));
    assert Ids(kept)[0] == SUCCESS;
    forall i, j | 0 <= i < j < |kept| ensures Ids(kept)[i] != Ids(kept)[j] {
      assert Ids(questions)[i] != Ids(questions)[j] && Ids(questions)[j] in used;
    }
  }

  /** The loop over the items. */
  method CollectQuestions(items: seq<Item>) returns (questions: seq<Question>, usedIds: set<string>)
    requires |items| + 2 < COUNTERS
    ensures Built(questions, usedIds, items)
  {
    questions, usedIds := [], {};
    for index := 0 to |items|
      invariant Built(questions, usedIds, items[..index])
    {
      assert items[..index + 1] == items[..index] + [items[index]];
      var item := items[index];
      if !Acceptable(item) {
        SkipItem(questions, usedIds, items[..index], item);
        continue;
      }
      FewUsedIsFree(Stem(item.id, index + 1), usedIds);
      var id, after := SafeQuestionId(item.id, usedIds, index + 1);
      AddQuestion(questions, usedIds, items[..index], item, id);
      questions, usedIds := questions + [Shape(item, id)], after;
    }
    assert items[..|items|] == items;
  }

  /** `_normalize_interview_questions`; `raw` is None where the payload holds no list, and the result is None where
      `questions[0]` of an empty list raises. */
  method NormalizeInterviewQuestions(raw: Option<seq<Item>>, minCount: int) returns (result: Option<seq<Question>>)
    ensures raw.None? ==> result == Some([])
    ensures raw.Some? ==> (result.None? <==> minCount <= 0 && Stems(First(raw.value, 12)) == [])
    ensures raw.Some? && result.Some? ==> Normalised(result.value, First(raw.value, 12), minCount)
  {
    if raw.None? {
      return Some([]);
    }
    var items := First(raw.value, 12);
    var questions, usedIds := CollectQuestions(items);
    if |questions| < minCount {
      return Some([]);
    }
    if SUCCESS in usedIds {
      WantedIsNormalised(questions, usedIds, items, minCount);
      ReservedIsTaken(questions, usedIds, items);
    } else if questions == [] {
      return None;
    } else {
      UnwantedIsNormalised(questions, usedIds, items, minCount);
      questions := questions[0 := questions[0].(id := SUCCESS)];
    }
    return Some(questions[..AtMost(|questions|, 10)]);
  }

  /** The reserved id is cut away if and only if the first item that wants it comes after the tenth. */
  lemma ReservedExactly(questions: seq<Question>, items: seq<Item>, minCount: int)
    requires Normalised(questions, items, minCount) && minCount <= |Stems(items)| && Stems(items) != []
    ensures SUCCESS !in Ids(questions) <==>
            |Stems(items)| > 10 && SUCCESS in Stems(items) && SUCCESS !in Stems(items)[..10]
  {
    ReservedCut(Stems(items), SUCCESS in Ids(questions));
  }

  lemma ReservedCut(stems: seq<string>, reserved: bool)
    requires reserved <==> SUCCESS !in stems || SUCCESS in stems[..AtMost(|stems|, 10)]
    ensures !reserved <==> |stems| > 10 && SUCCESS in stems && SUCCESS !in stems[..10]
  {
    if |stems| <= 10 {
      assert stems[..|stems|] == stems;
    }
  }

  /** Exactly one question has the reserved id when at most ten were accepted. */
  lemma ReservedExactlyOnce(questions: seq<Question>, items: seq<Item>, minCount: int)
    requires Normalised(questions, items, minCount) && minCount <= |Stems(items)| && 1 <= |Stems(items)| <= 10
    ensures exists i :: 0 <= i < |questions| && questions[i].id == SUCCESS &&
              forall j :: 0 <= j < |questions| && questions[j].id == SUCCESS ==> j == i
  {
    ReservedExactly(questions, items, minCount);
    var i :| 0 <= i < |Ids(questions)| && Ids(questions)[i] == SUCCESS;
    forall j | 0 <= j < |questions| && questions[j].id == SUCCESS ensures j == i {
      assert Ids(questions)[j] == SUCCESS;
    }
    assert questions[i].id == SUCCESS;
  }

  /** A free-text question. */
  function Plain(id: string): Item {
    Item(id, "?", TextArea, [], true, "")
  }

  lemma {:induction false} PlainStems(items: seq<Item>, id: string)
    requires forall i :: 0 <= i < |items| ==> items[i] == Plain(id)
    requires forall fallback :: Stem(id, fallback) == id
    ensures |Stems(items)| == |items| && forall i :: 0 <= i < |items| ==> Stems(items)[i] == id
  {
    if items != [] {
      PlainStems(items[..|items| - 1], id);
    }
  }

  lemma LateIsCutAway(front: seq<Item>, id: string, last: Item, questions: seq<Question>, minCount: int)
    requires |front| == 10 && (forall i :: 0 <= i < 10 ==> front[i] == Plain(id)) && last == Plain(SUCCESS)
    requires id != SUCCESS && (forall fallback :: Stem(id, fallback) == id) &&
             forall fallback :: Stem(last.id, fallback) == last.id
    requires minCount <= 11 && Normalised(questions, front + [last], minCount)
    ensures |questions| == 10 && SUCCESS !in Ids(questions)
  {
    PlainStems(front, id);
    StemsGrow(front, last);
    var stems := Stems(front + [last]);
    assert stems[10] == SUCCESS && stems[..10] == Stems(front);
    ReservedExactly(questions, front + [last], minCount);
  }

  lemma ProperAreKept(id: string)
    requires id == SUCCESS || id == "a"
    ensures forall fallback :: Stem(id, fallback) == id
  {
    forall fallback: nat ensures Stem(id, fallback) == id {
      ProperIdIsKept(id, fallback);
    }
  }

  /** Ten items that want the id "a" and an eleventh that wants the reserved one: the result lacks it. */
  lemma ReservedCutAway(front: seq<Item>, id: string, last: Item, questions: seq<Question>, minCount: int)
    requires id == "a" && last == Plain(SUCCESS) && minCount <= 11
    requires |front| == 10 && forall i :: 0 <= i < 10 ==> front[i] == Plain(id)
    requires Normalised(questions, front + [last], minCount)
    ensures |questions| == 10 && SUCCESS !in Ids(questions)
  {
    ProperAreKept(id);
    ProperAreKept(last.id);
    LateIsCutAway(front, id, last, questions, minCount);
  }
}
