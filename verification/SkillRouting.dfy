/** Which skills each phase of a MARS run is given. */
module SkillRouting {
  import opened Sequences

  // ---------- The selection ----------

  /** `_ordered_unique` of items that are already stripped: the non-empty ones without repetitions. */
  function NonEmpty(items: seq<string>): seq<string> {
    if items == [] then []
    else
      var front, last := NonEmpty(items[..|items| - 1]), items[|items| - 1];
      if last != "" then front + [last] else front
  }

  method OrderedUnique(items: seq<string>) returns (values: seq<string>)
    ensures values == Unique(NonEmpty(items))
  {
    values := [];
    for i := 0 to |items|
      invariant values == Unique(NonEmpty(items[..i]))
    {
      assert items[..i + 1][..i] == items[..i];
      UniqueGrows(NonEmpty(items[..i]), items[i]);
      if items[i] != "" && items[i] !in values {
        values := values + [items[i]];
      }
    }
    assert items[..|items|] == items;
  }

  // ---------- Scores ----------

  predicate Contains(text: string, term: string) {
    term <= text || (text != "" && Contains(text[1..], term))
  }

  /** How many of the terms occur in the skill's name; `lower` is `str.lower`. */
  function Score(terms: seq<string>, text: string): nat {
    if terms == [] then 0
    else Score(terms[..|terms| - 1], text) + if Contains(text, terms[|terms| - 1]) then 1 else 0
  }

  datatype Scored = Scored(score: nat, skill: string)

  /** `place` orders the names as Python compares them in lower case. */
  predicate Precedes(place: string -> int, a: Scored, b: Scored) {
    a.score > b.score || (a.score == b.score && place(a.skill) <= place(b.skill))
  }

  function ScoredOf(lower: string -> string, terms: seq<string>, selected: seq<string>): seq<Scored> {
    if selected == [] then []
    else
      var skill := selected[|selected| - 1];
      var score := Score(terms, lower(skill));
      ScoredOf(lower, terms, selected[..|selected| - 1]) + if score > 0 then [Scored(score, skill)] else []
  }

  // ---------- `list.sort` ----------

  ghost predicate Ordered(place: string -> int, scored: seq<Scored>) {
    forall i, j :: 0 <= i < j < |scored| ==> Precedes(place, scored[i], scored[j])
  }

  /** A stable insertion: behind everything that does not have to come after it. */
  function Insert(place: string -> int, sorted: seq<Scored>, x: Scored): seq<Scored> {
    if sorted == [] then [x]
    else
      var last := sorted[|sorted| - 1];
      if Precedes(place, last, x) then sorted + [x] else Insert(place, sorted[..|sorted| - 1], x) + [last]
  }

  function Sorted(place: string -> int, scored: seq<Scored>): seq<Scored> {
    if scored == [] then [] else Insert(place, Sorted(place, scored[..|scored| - 1]), scored[|scored| - 1])
  }

  lemma WithLast(front: seq<Scored>, last: Scored)
    ensures multiset(front + [last]) == multiset(front) + multiset{last}
  {
  }

  lemma {:induction false} InsertAdds(place: string -> int, sorted: seq<Scored>, x: Scored)
    ensures multiset(Insert(place, sorted, x)) == multiset(sorted) + multiset{x}
  {
    if sorted != [] {
      var front, last := sorted[..|sorted| - 1], sorted[|sorted| - 1];
      assert front + [last] == sorted;
      WithLast(front, last);
      if Precedes(place, last, x) {
        WithLast(sorted, x);
      } else {
        InsertAdds(place, front, x);
        WithLast(Insert(place, front, x), last);
      }
    }
  }

  /** Sorting rearranges. */
  lemma {:induction false} SortedIsPermutation(place: string -> int, scored: seq<Scored>)
    ensures multiset(Sorted(place, scored)) == multiset(scored)
  {
    if scored != [] {
      var front, last := scored[..|scored| - 1], scored[|scored| - 1];
      assert front + [last] == scored;
      WithLast(front, last);
      SortedIsPermutation(place, front);
      InsertAdds(place, Sorted(place, front), last);
    }
  }

  lemma {:induction false} InsertKeepsOrder(place: string -> int, sorted: seq<Scored>, x: Scored)
    requires Ordered(place, sorted)
    ensures Ordered(place, Insert(place, sorted, x))
  {
    if sorted != [] && !Precedes(place, sorted[|sorted| - 1], x) {
      var front, last := sorted[..|sorted| - 1], sorted[|sorted| - 1];
      var inserted := Insert(place, front, x);
      InsertKeepsOrder(place, front, x);
      InsertAdds(place, front, x);
      forall i | 0 <= i < |inserted| ensures Precedes(place, inserted[i], last) {
        assert inserted[i] in multiset(inserted);
        assert inserted[i] == x || inserted[i] in front;
      }
    }
  }

  lemma {:induction false} SortedIsOrdered(place: string -> int, scored: seq<Scored>)
    ensures Ordered(place, Sorted(place, scored))
  {
    if scored != [] {
      SortedIsOrdered(place, scored[..|scored| - 1]);
      InsertKeepsOrder(place, Sorted(place, scored[..|scored| - 1]), scored[|scored| - 1]);
    }
  }

  // ---------- The routing of one phase ----------

  function Names(scored: seq<Scored>): (names: seq<string>)
    ensures |names| == |scored| && forall i :: 0 <= i < |names| ==> names[i] == scored[i].skill
  {
    seq(|scored|, i requires 0 <= i < |scored| => scored[i].skill)
  }

  function Best(lower: string -> string, place: string -> int, terms: seq<string>, selected: seq<string>,
                limit: nat): seq<Scored> {
    First(Sorted(place, ScoredOf(lower, terms, selected)), limit)
  }

  /** The best skills for these terms, or the first ones if none scores. */
  function Routed(lower: string -> string, place: string -> int, terms: seq<string>, selected: seq<string>,
                  limit: nat): seq<string> {
    var best := Names(Best(lower, place, terms, selected, limit));
    if best != [] then best else First(selected, limit)
  }

  /** The body of the loop over the phases. */
  method RoutePhase(lower: string -> string, place: string -> int, terms: seq<string>, selected: seq<string>,
                    limit: nat)
    returns (routed: seq<string>)
    ensures routed == Routed(lower, place, terms, selected, limit)
  {
    var scored: seq<Scored> := [];
    for i := 0 to |selected|
      invariant scored == ScoredOf(lower, terms, selected[..i])
    {
      assert selected[..i + 1][..i] == selected[..i];
      var score := Score(terms, lower(selected[i]));
      if score > 0 {
        scored := scored + [Scored(score, selected[i])];
      }
    }
    assert selected[..|selected|] == selected;
    scored := Sorted(place, scored);
    routed := Names(First(scored, limit));
    if routed == [] {
      routed := First(selected, limit);
    }
  }

  lemma {:induction false} ScoredMembers(lower: string -> string, terms: seq<string>, selected: seq<string>, x: Scored)
    ensures x in ScoredOf(lower, terms, selected) <==>
            x.skill in selected && x.score == Score(terms, lower(x.skill)) > 0
  {
    if selected != [] {
      ScoredMembers(lower, terms, selected[..|selected| - 1], x);
      assert selected == selected[..|selected| - 1] + [selected[|selected| - 1]];
    }
  }

  /** A phase gets the best skills: whatever scores and is left out comes after everything that was taken. */
  lemma BestAreTaken(lower: string -> string, place: string -> int, terms: seq<string>, selected: seq<string>,
                     limit: nat,
                     skill: string)
    requires skill in selected && Score(terms, lower(skill)) > 0
    ensures var best := Best(lower, place, terms, selected, limit);
            skill !in Names(best) ==>
              |best| == limit && forall i :: 0 <= i < |best| ==>
                Precedes(place, best[i], Scored(Score(terms, lower(skill)), skill))
  {
    var scored, x := ScoredOf(lower, terms, selected), Scored(Score(terms, lower(skill)), skill);
    var sorted := Sorted(place, scored);
    var best := First(sorted, limit);
    ScoredMembers(lower, terms, selected, x);
    SortedIsOrdered(place, scored);
    SortedIsPermutation(place, scored);
    assert x in multiset(sorted);
    var k :| 0 <= k < |sorted| && sorted[k] == x;
    if k < |best| {
      assert Names(best)[k] == skill;
    }
  }

  /** Only selected skills are routed, and a scoring one is only routed with its own score. */
  lemma OnlySelected(lower: string -> string, place: string -> int, terms: seq<string>, selected: seq<string>,
                     limit: nat, i: nat)
    requires i < |Best(lower, place, terms, selected, limit)|
    ensures var x := Best(lower, place, terms, selected, limit)[i];
            x.skill in selected && x.score == Score(terms, lower(x.skill)) > 0
  {
    var scored := ScoredOf(lower, terms, selected);
    var sorted := Sorted(place, scored);
    var x := First(sorted, limit)[i];
    SortedIsPermutation(place, scored);
    assert sorted[i] == x && x in multiset(sorted);
    ScoredMembers(lower, terms, selected, x);
  }

  /** With a positive limit a phase is left without skills only if none was selected. */
  lemma NoPhaseIsEmpty(lower: string -> string, place: string -> int, terms: seq<string>, selected: seq<string>,
                       limit: nat)
    requires limit >= 1
    ensures Routed(lower, place, terms, selected, limit) == [] <==> selected == []
  {
    if selected == [] {
      assert ScoredOf(lower, terms, selected) == [];
    }
  }

  function Selected(items: seq<string>, available: seq<string>): seq<string> {
    var selected := Unique(NonEmpty(items));
    if selected != [] then selected else available
  }

  /** Every phase has what its terms route to it. */
  function RoutedAll(lower: string -> string, place: string -> int, terms: seq<seq<string>>, selected: seq<string>,
                     limit: nat)
    : (byPhase: seq<seq<string>>)
    ensures |byPhase| == |terms|
    ensures forall p :: 0 <= p < |terms| ==> byPhase[p] == Routed(lower, place, terms[p], selected, limit)
  {
    if terms == [] then []
    else
      RoutedAll(lower, place, terms[..|terms| - 1], selected, limit) +
        [Routed(lower, place, terms[|terms| - 1], selected, limit)]
  }

  method RoutePhases(lower: string -> string, place: string -> int, terms: seq<seq<string>>, selected: seq<string>,
                     limit: nat)
    returns (byPhase: seq<seq<string>>)
    ensures byPhase == RoutedAll(lower, place, terms, selected, limit)
  {
    byPhase := [];
    for p := 0 to |terms|
      invariant byPhase == RoutedAll(lower, place, terms[..p], selected, limit)
    {
      assert terms[..p + 1][..p] == terms[..p];
      var routed := RoutePhase(lower, place, terms[p], selected, limit);
      byPhase := byPhase + [routed];
    }
    assert terms[..|terms|] == terms;
  }

  /** `build_skill_routing`, for the terms of the phases in order; `setting` is the configured limit.  The loop at
      the end, which fills phases left empty, changes nothing. */
  method BuildSkillRouting(lower: string -> string, place: string -> int, items: seq<string>, available: seq<string>,
                           terms: seq<seq<string>>, setting: int) returns (byPhase: seq<seq<string>>)
    ensures byPhase == RoutedAll(lower, place, terms, Selected(items, available), if setting > 1 then setting else 1)
  {
    var selected := OrderedUnique(items);
    if selected == [] {
      selected := available;
    }
    var limit := if setting > 1 then setting else 1;
    byPhase := RoutePhases(lower, place, terms, selected, limit);
    for p := 0 to |terms|
      invariant byPhase == RoutedAll(lower, place, terms, selected, limit)
    {
      if byPhase[p] == [] {
        NoPhaseIsEmpty(lower, place, terms[p], selected, limit);
        byPhase := byPhase[p := First(selected, limit)];
      }
    }
  }
}
