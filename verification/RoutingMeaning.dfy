/** What skills a phase gets, told by which terms occur in which names. */
module RoutingMeaning {
  import opened Sequences
  import opened SkillRouting

  // ---------- The selection ----------

  /** The values are the non-empty items, each at the first place where it stands. */
  ghost predicate FirstOnes(items: seq<string>, places: seq<nat>, values: seq<string>) {
    && |places| == |values| && (forall i, j :: 0 <= i < j < |places| ==> places[i] < places[j])
    && (forall k :: 0 <= k < |places| ==> places[k] < |items| && items[places[k]] == values[k])
    && (forall n: nat :: n in places <==> n < |items| && items[n] != "" && items[n] !in items[..n])
  }

  lemma FirstOnesGrow(items: seq<string>, item: string, places: seq<nat>, values: seq<string>)
    requires FirstOnes(items, places, values)
    ensures if item != "" && item !in items then FirstOnes(items + [item], places + [|items|], values + [item])
            else FirstOnes(items + [item], places, values)
  {
    var longer := items + [item];
    forall n: nat | n < |longer| ensures longer[..n] == items[..n] {
    }
    assert items[..|items|] == items;
    if item != "" && item !in items {
      forall n: nat ensures n in places + [|items|] <==> n < |longer| && longer[n] != "" && longer[n] !in longer[..n] {
        assert n in places + [|items|] <==> n in places || n == |items|;
      }
    }
  }

  lemma {:induction false} NonEmptyHas(items: seq<string>, item: string)
    ensures item in NonEmpty(items) <==> item in items && item != ""
  {
    if items != [] {
      NonEmptyHas(items[..|items| - 1], item);
      assert items == items[..|items| - 1] + [items[|items| - 1]];
    }
  }

  /** The loop over the items yields the first ones. */
  lemma {:induction false} UniqueAreFirst(items: seq<string>) returns (places: seq<nat>)
    ensures FirstOnes(items, places, Unique(NonEmpty(items)))
  {
    if items == [] {
      places := [];
    } else {
      var front, last := items[..|items| - 1], items[|items| - 1];
      assert items == front + [last];
      places := UniqueAreFirst(front);
      FirstOnesGrow(front, last, places, Unique(NonEmpty(front)));
      NonEmptyHas(front, last);
      UniqueGrows(NonEmpty(front), last);
      if last != "" && last !in front {
        places := places + [|front|];
      }
    }
  }

  /** What the user named counts, if it is anything; else everything that is available does. */
  lemma SelectedExactly(items: seq<string>, available: seq<string>) returns (places: seq<nat>)
    ensures (forall i :: 0 <= i < |items| ==> items[i] == "") ==> Selected(items, available) == available
    ensures (exists i :: 0 <= i < |items| && items[i] != "") ==> FirstOnes(items, places, Selected(items, available))
  {
    places := UniqueAreFirst(items);
    if i :| 0 <= i < |items| && items[i] != "" {
      NonEmptyHas(items, items[i]);
      assert items[i] in Unique(NonEmpty(items));
    }
    var values := Unique(NonEmpty(items));
    if values != [] {
      NonEmptyHas(items, values[0]);
      var i :| 0 <= i < |items| && items[i] == values[0];
    }
  }

  // ---------- Scores ----------

  /** The term stands somewhere in the text. */
  ghost predicate Occurs(term: string, text: string) {
    exists i :: 0 <= i <= |text| && term <= text[i..]
  }

  lemma {:induction false} ContainsExactly(text: string, term: string)
    ensures Contains(text, term) <==> Occurs(term, text)
  {
    assert text[0..] == text;
    if text != "" {
      ContainsExactly(text[1..], term);
      if i :| 0 <= i <= |text[1..]| && term <= text[1..][i..] {
        assert text[1..][i..] == text[i + 1..];
      }
      if i :| 0 < i <= |text| && term <= text[i..] {
        assert text[1..][i - 1..] == text[i..];
      }
    }
  }

  /** The terms that occur. */
  ghost function Hits(terms: seq<string>, text: string): set<nat> {
    set i: nat | i < |terms| && Occurs(terms[i], text)
  }

  /** A score is the number of terms that occur. */
  lemma {:induction false} ScoreExactly(terms: seq<string>, text: string)
    ensures Score(terms, text) == |Hits(terms, text)|
  {
    if terms == [] {
      assert Hits(terms, text) == {};
    } else {
      var front, last := terms[..|terms| - 1], terms[|terms| - 1];
      ScoreExactly(front, text);
      ContainsExactly(text, last);
      assert Hits(terms, text) == Hits(front, text) + if Occurs(last, text) then {|front|} else {};
    }
  }

  // ---------- What a phase gets ----------

  /** `a` comes before `b`, or may: more terms occur in it, or as many and its name is not later. */
  ghost predicate Leads(lower: string -> string, place: string -> int, terms: seq<string>, a: string, b: string) {
    || |Hits(terms, lower(a))| > |Hits(terms, lower(b))|
    || (|Hits(terms, lower(a))| == |Hits(terms, lower(b))| && place(a) <= place(b))
  }

  /** The selected skills in whose name some term occurs. */
  ghost predicate Scores(lower: string -> string, terms: seq<string>, selected: seq<string>, skill: string) {
    skill in selected && exists i :: 0 <= i < |terms| && Occurs(terms[i], lower(skill))
  }

  lemma ScoresExactly(lower: string -> string, terms: seq<string>, selected: seq<string>, skill: string)
    ensures Scores(lower, terms, selected, skill) <==> skill in selected && Score(terms, lower(skill)) > 0
  {
    ScoreExactly(terms, lower(skill));
    if i :| 0 <= i < |terms| && Occurs(terms[i], lower(skill)) {
      assert i in Hits(terms, lower(skill));
    }
    if |Hits(terms, lower(skill))| > 0 {
      var i :| i in Hits(terms, lower(skill));
    }
  }

  /** The skills a phase gets are selected ones in whose name some term occurs, the best first. */
  lemma RoutedAreBest(lower: string -> string, place: string -> int, terms: seq<string>, selected: seq<string>,
                      limit: nat)
    requires limit >= 1 && exists skill :: Scores(lower, terms, selected, skill)
    ensures var routed := Routed(lower, place, terms, selected, limit);
            && 0 < |routed| <= limit
            && (forall i :: 0 <= i < |routed| ==> Scores(lower, terms, selected, routed[i]))
            && (forall i, j :: 0 <= i < j < |routed| ==> Leads(lower, place, terms, routed[i], routed[j]))
            && forall skill :: Scores(lower, terms, selected, skill) && skill !in routed ==>
                 |routed| == limit && forall i :: 0 <= i < |routed| ==> Leads(lower, place, terms, routed[i], skill)
  {
    var best := Best(lower, place, terms, selected, limit);
    var some :| Scores(lower, terms, selected, some);
    BestLeave(lower, place, terms, selected, limit, some);
    assert Routed(lower, place, terms, selected, limit) == Names(best);
    forall i | 0 <= i < |best| ensures Scores(lower, terms, selected, best[i].skill) {
      OnlySelected(lower, place, terms, selected, limit, i);
      ScoresExactly(lower, terms, selected, best[i].skill);
    }
    forall i, j | 0 <= i < j < |best| ensures Leads(lower, place, terms, best[i].skill, best[j].skill) {
      BestAreOrdered(lower, place, terms, selected, limit, i, j);
    }
    forall skill | Scores(lower, terms, selected, skill) && skill !in Names(best)
      ensures |best| == limit && forall i :: 0 <= i < |best| ==> Leads(lower, place, terms, best[i].skill, skill)
    {
      BestLeave(lower, place, terms, selected, limit, skill);
    }
  }

  lemma BestAreOrdered(lower: string -> string, place: string -> int, terms: seq<string>, selected: seq<string>,
                       limit: nat, i: nat, j: nat)
    requires i < j < |Best(lower, place, terms, selected, limit)|
    ensures var best := Best(lower, place, terms, selected, limit);
            Leads(lower, place, terms, best[i].skill, best[j].skill)
  {
    var scored := ScoredOf(lower, terms, selected);
    var best := Best(lower, place, terms, selected, limit);
    SortedIsOrdered(place, scored);
    OnlySelected(lower, place, terms, selected, limit, i);
    OnlySelected(lower, place, terms, selected, limit, j);
    ScoreExactly(terms, lower(best[i].skill));
    ScoreExactly(terms, lower(best[j].skill));
    assert Sorted(place, scored)[i] == best[i] && Sorted(place, scored)[j] == best[j];
  }

  lemma BestLeave(lower: string -> string, place: string -> int, terms: seq<string>, selected: seq<string>, limit: nat,
                  skill: string)
    requires limit >= 1 && Scores(lower, terms, selected, skill)
    ensures var best := Best(lower, place, terms, selected, limit);
            && best != []
            && (skill !in Names(best) ==>
                  |best| == limit && forall i :: 0 <= i < |best| ==> Leads(lower, place, terms, best[i].skill, skill))
  {
    var best := Best(lower, place, terms, selected, limit);
    ScoresExactly(lower, terms, selected, skill);
    BestAreTaken(lower, place, terms, selected, limit, skill);
    ScoreExactly(terms, lower(skill));
    forall i | 0 <= i < |best| && skill !in Names(best) ensures Leads(lower, place, terms, best[i].skill, skill) {
      OnlySelected(lower, place, terms, selected, limit, i);
      ScoreExactly(terms, lower(best[i].skill));
    }
  }

  lemma {:induction false} NothingScored(lower: string -> string, terms: seq<string>, selected: seq<string>)
    requires forall skill :: !Scores(lower, terms, selected, skill)
    ensures ScoredOf(lower, terms, selected) == []
  {
    if ScoredOf(lower, terms, selected) != [] {
      var x := ScoredOf(lower, terms, selected)[0];
      ScoredMembers(lower, terms, selected, x);
      ScoresExactly(lower, terms, selected, x.skill);
    }
  }

  /** Where no term occurs in any name, a phase gets the first skills of the selection. */
  lemma RoutedByDefault(lower: string -> string, place: string -> int, terms: seq<string>, selected: seq<string>,
                        limit: nat)
    requires forall skill :: !Scores(lower, terms, selected, skill)
    ensures Routed(lower, place, terms, selected, limit) == if |selected| <= limit then selected else selected[..limit]
  {
    NothingScored(lower, terms, selected);
  }

  lemma {:induction false} ScoredDiffer(lower: string -> string, terms: seq<string>, selected: seq<string>)
    requires Distinct(selected)
    ensures Distinct(ScoredOf(lower, terms, selected))
  {
    if selected != [] {
      var front, last := selected[..|selected| - 1], selected[|selected| - 1];
      var scored, x := ScoredOf(lower, terms, front), Scored(Score(terms, lower(last)), last);
      ScoredDiffer(lower, terms, front);
      ScoredMembers(lower, terms, front, x);
      assert last !in front;
      assert x !in scored;
      assert forall i :: 0 <= i < |scored| ==> scored[i] in scored;
    }
  }

  lemma Rearranged(a: seq<Scored>, b: seq<Scored>)
    requires Distinct(a) && multiset(a) == multiset(b)
    ensures Distinct(b)
  {
    forall i, j | 0 <= i < j < |b| ensures b[i] != b[j] {
      assert b == b[..i] + [b[i]] + b[i + 1..j] + [b[j]] + b[j + 1..];
      OnceInDistinct(a, b[i]);
    }
  }

  lemma {:induction false} OnceInDistinct(a: seq<Scored>, x: Scored)
    requires Distinct(a)
    ensures multiset(a)[x] <= 1
  {
    if a != [] {
      var front, last := a[..|a| - 1], a[|a| - 1];
      assert a == front + [last];
      OnceInDistinct(front, x);
      assert last !in front;
    }
  }

  /** A phase gets no skill twice. */
  lemma RoutedDiffer(lower: string -> string, place: string -> int, terms: seq<string>, selected: seq<string>,
                     limit: nat)
    requires Distinct(selected)
    ensures Distinct(Routed(lower, place, terms, selected, limit))
  {
    var scored := ScoredOf(lower, terms, selected);
    var best := Best(lower, place, terms, selected, limit);
    ScoredDiffer(lower, terms, selected);
    SortedIsPermutation(place, scored);
    Rearranged(scored, Sorted(place, scored));
    forall i, j | 0 <= i < j < |best| ensures best[i].skill != best[j].skill {
      OnlySelected(lower, place, terms, selected, limit, i);
      OnlySelected(lower, place, terms, selected, limit, j);
      assert Sorted(place, scored)[i] == best[i] && Sorted(place, scored)[j] == best[j];
    }
  }

  // ---------- Stability ----------

  /** Those with this score and this place. */
  function Ties(place: string -> int, scored: seq<Scored>, score: nat, at: int): seq<Scored> {
    if scored == [] then []
    else
      var last := scored[|scored| - 1];
      Ties(place, scored[..|scored| - 1], score, at) +
        if last.score == score && place(last.skill) == at then [last] else []
  }

  lemma TiesGrow(place: string -> int, front: seq<Scored>, last: Scored, score: nat, at: int)
    ensures Ties(place, front + [last], score, at) ==
            Ties(place, front, score, at) + if last.score == score && place(last.skill) == at then [last] else []
  {
    assert (front + [last])[..|front|] == front;
  }

  lemma {:induction false} InsertIsStable(place: string -> int, sorted: seq<Scored>, x: Scored, score: nat, at: int)
    requires Ordered(place, sorted)
    ensures Ties(place, Insert(place, sorted, x), score, at) ==
            Ties(place, sorted, score, at) + if x.score == score && place(x.skill) == at then [x] else []
  {
    TiesGrow(place, sorted, x, score, at);
    if sorted == [] {
      assert [] + [x] == [x];
    } else {
      var front, last := sorted[..|sorted| - 1], sorted[|sorted| - 1];
      assert front + [last] == sorted;
      if !Precedes(place, last, x) {
        InsertIsStable(place, front, x, score, at);
        TiesGrow(place, Insert(place, front, x), last, score, at);
        TiesGrow(place, front, last, score, at);
      }
    }
  }

  /** Skills with equal scores and names that compare equal keep the order of the selection. */
  lemma {:induction false} SortedIsStable(place: string -> int, scored: seq<Scored>, score: nat, at: int)
    ensures Ties(place, Sorted(place, scored), score, at) == Ties(place, scored, score, at)
  {
    if scored != [] {
      var front, last := scored[..|scored| - 1], scored[|scored| - 1];
      SortedIsStable(place, front, score, at);
      SortedIsOrdered(place, front);
      InsertIsStable(place, Sorted(place, front), last, score, at);
    }
  }
}
