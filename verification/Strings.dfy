/** Blank characters, and what `str.strip` takes off. */
module Strings {
  /** The characters that `str.strip` removes. */
  predicate IsSpace(c: char) {
    || '\U{09}' <= c <= '\U{0D}' || '\U{1C}' <= c <= ' ' || c == '\U{85}' || c == '\U{A0}' || c == '\U{1680}'
    || '\U{2000}' <= c <= '\U{200A}' || c == '\U{2028}' || c == '\U{2029}' || c == '\U{202F}' || c == '\U{205F}'
    || c == '\U{3000}'
  }

  /** Nothing is left of the text when it is stripped. */
  predicate Blank(text: string) {
    forall i :: 0 <= i < |text| ==> IsSpace(text[i])
  }

  function StripLeft(s: string, drops: char -> bool): string {
    if s != "" && drops(s[0]) then StripLeft(s[1..], drops) else s
  }

  function StripRight(s: string, drops: char -> bool): string {
    if s != "" && drops(s[|s| - 1]) then StripRight(s[..|s| - 1], drops) else s
  }

  lemma {:induction false} LeftKeeps(s: string, drops: char -> bool, c: char)
    requires c in StripLeft(s, drops)
    ensures c in s
  {
    if s != "" && drops(s[0]) {
      LeftKeeps(s[1..], drops, c);
    }
  }

  lemma {:induction false} RightKeeps(s: string, drops: char -> bool, c: char)
    requires c in StripRight(s, drops)
    ensures c in s
  {
    if s != "" && drops(s[|s| - 1]) {
      RightKeeps(s[..|s| - 1], drops, c);
    }
  }

  /** Stripping adds no characters. */
  lemma StripKeeps(s: string, drops: char -> bool, c: char)
    requires c in StripRight(StripLeft(s, drops), drops)
    ensures c in s
  {
    RightKeeps(StripLeft(s, drops), drops, c);
    LeftKeeps(s, drops, c);
  }

  /** Stripping takes off exactly the dropped characters at the ends: what is left begins and ends with others. */
  lemma {:induction false} StripExactly(s: string, drops: char -> bool) returns (left: string, right: string)
    ensures s == left + StripRight(StripLeft(s, drops), drops) + right
    ensures forall c :: c in left || c in right ==> drops(c)
    ensures var rest := StripRight(StripLeft(s, drops), drops);
            rest != "" ==> !drops(rest[0]) && !drops(rest[|rest| - 1])
  {
    left := LeftExactly(s, drops);
    right := RightExactly(StripLeft(s, drops), drops);
    var rest := StripRight(StripLeft(s, drops), drops);
    assert StripLeft(s, drops) == rest + right;
    assert rest != "" ==> rest[0] == StripLeft(s, drops)[0];
  }

  lemma {:induction false} LeftExactly(s: string, drops: char -> bool) returns (left: string)
    ensures s == left + StripLeft(s, drops) && forall c :: c in left ==> drops(c)
    ensures StripLeft(s, drops) != "" ==> !drops(StripLeft(s, drops)[0])
  {
    left := "";
    if s != "" && drops(s[0]) {
      var more := LeftExactly(s[1..], drops);
      left := [s[0]] + more;
    }
  }

  lemma {:induction false} RightExactly(s: string, drops: char -> bool) returns (right: string)
    ensures s == StripRight(s, drops) + right && forall c :: c in right ==> drops(c)
    ensures StripRight(s, drops) != "" ==> !drops(StripRight(s, drops)[|StripRight(s, drops)| - 1])
  {
    right := "";
    if s != "" && drops(s[|s| - 1]) {
      var more := RightExactly(s[..|s| - 1], drops);
      right := more + [s[|s| - 1]];
    }
  }

  /** Conversely, what stands between dropped characters is what is left, if it begins and ends with others. */
  lemma StripBetween(left: string, core: string, right: string, drops: char -> bool)
    requires forall c :: c in left || c in right ==> drops(c)
    requires core != "" && !drops(core[0]) && !drops(core[|core| - 1])
    ensures StripRight(StripLeft(left + core + right, drops), drops) == core
  {
    assert left + core + right == left + (core + right);
    LeftBetween(left, core + right, drops);
    RightBetween(core, right, drops);
  }

  lemma {:induction false} LeftBetween(left: string, rest: string, drops: char -> bool)
    requires (forall c :: c in left ==> drops(c)) && rest != "" && !drops(rest[0])
    ensures StripLeft(left + rest, drops) == rest
  {
    if left == "" {
      assert left + rest == rest;
    } else {
      assert (left + rest)[0] == left[0] && (left + rest)[1..] == left[1..] + rest;
      LeftBetween(left[1..], rest, drops);
    }
  }

  lemma {:induction false} RightBetween(core: string, right: string, drops: char -> bool)
    requires (forall c :: c in right ==> drops(c)) && core != "" && !drops(core[|core| - 1])
    ensures StripRight(core + right, drops) == core
  {
    var s := core + right;
    if right == "" {
      assert s == core;
    } else {
      assert s[|s| - 1] == right[|right| - 1] && s[..|s| - 1] == core + right[..|right| - 1];
      RightBetween(core, right[..|right| - 1], drops);
    }
  }
}
