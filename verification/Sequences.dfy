/** Sequences without repetitions, and how to get them. */
module Sequences {
  ghost predicate Distinct<T(!new)>(values: seq<T>) {
    forall i, j :: 0 <= i < j < |values| ==> values[i] != values[j]
  }

  /** The values without repetitions, in the order of their first appearance. */
  function Unique(values: seq<string>): (unique: seq<string>)
    ensures forall v :: v in unique <==> v in values
    ensures Distinct(unique)
  {
    if values == [] then []
    else
      var front, last := Unique(values[..|values| - 1]), values[|values| - 1];
      assert values == values[..|values| - 1] + [last];
      if last in front then front else front + [last]
  }

  lemma UniqueGrows(values: seq<string>, value: string)
    ensures Unique(values + [value]) == if value in values then Unique(values) else Unique(values) + [value]
  {
    assert (values + [value])[..|values|] == values;
  }

  lemma {:induction false} UniqueAbsorbs(a: seq<string>, b: seq<string>)
    ensures Unique(Unique(a) + b) == Unique(a + b)
  {
    if b == [] {
      assert Unique(a) + b == Unique(a) && a + b == a;
      UniqueOfUnique(Unique(a));
    } else {
      UniqueAbsorbs(a, b[..|b| - 1]);
      AbsorbOne(Unique(a), a, b[..|b| - 1], b[|b| - 1]);
      assert b == b[..|b| - 1] + [b[|b| - 1]];
    }
  }

  lemma AbsorbOne(unique: seq<string>, a: seq<string>, front: seq<string>, last: string)
    requires Unique(unique + front) == Unique(a + front)
    ensures Unique(unique + (front + [last])) == Unique(a + (front + [last]))
  {
    assert unique + (front + [last]) == unique + front + [last] && a + (front + [last]) == a + front + [last];
    UniqueGrows(unique + front, last);
    UniqueGrows(a + front, last);
    assert last in unique + front <==> last in Unique(a + front);
  }

  lemma {:induction false} UniqueOfUnique(values: seq<string>)
    requires Distinct(values)
    ensures Unique(values) == values
  {
    if values != [] {
      UniqueOfUnique(values[..|values| - 1]);
    }
  }

  /** The items up to a limit. */
  function First<T>(items: seq<T>, limit: nat): (first: seq<T>)
    ensures first <= items && |first| <= limit && (|first| < limit ==> first == items)
  {
    if |items| <= limit then items else items[..limit]
  }
}
