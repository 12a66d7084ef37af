/** What the interview makes of each item: its stem, its options and its question. */
module InterviewShapes {
  import opened InterviewIds
  import opened Options
  import opened Sequences
  import opened Strings

  // ---------- Stems ----------

  /** A run of characters that no id has. */
  predicate Gap(s: string) {
    s != "" && forall i :: 0 <= i < |s| ==> !('a' <= s[i] <= 'z' || '0' <= s[i] <= '9' || s[i] == '_')
  }

  /** Characters of ids, with no underscore at either end. */
  predicate Word(s: string) {
    && s != "" && s[0] != '_' && s[|s| - 1] != '_'
    && forall i :: 0 <= i < |s| ==> 'a' <= s[i] <= 'z' || '0' <= s[i] <= '9' || s[i] == '_'
  }

  lemma {:induction false} CollapseGap(gap: string, rest: string)
    requires Gap(gap) && (rest == "" || Allowed(rest[0]))
    ensures Collapse(gap + rest) == "_" + Collapse(rest)
  {
    var s := gap + rest;
    assert s[0] == gap[0];
    if |gap| == 1 {
      assert s[1..] == rest;
    } else {
      assert s[1] == gap[1] && s[1..] == gap[1..] + rest;
      CollapseGap(gap[1..], rest);
    }
  }

  lemma {:induction false} CollapseWord(word: string, rest: string)
    requires forall i :: 0 <= i < |word| ==> 'a' <= word[i] <= 'z' || '0' <= word[i] <= '9' || word[i] == '_'
    ensures Collapse(word + rest) == word + Collapse(rest)
  {
    if word == "" {
      assert word + rest == rest;
    } else {
      assert (word + rest)[1..] == word[1..] + rest;
      CollapseWord(word[1..], rest);
      assert [word[0]] + (word[1..] + Collapse(rest)) == word + Collapse(rest);
    }
  }

  lemma StripUnderscores(s: string, core: string)
    requires core != "" && core[0] != '_' && core[|core| - 1] != '_'
    requires s == core || s == "_" + core || s == core + "_" || s == "_" + core + "_"
    ensures Trimmed(s) == core
  {
    var left := if s[0] == '_' then "_" else "";
    var right := if s[|s| - 1] == '_' then "_" else "";
    assert s == left + core + right;
    StripBetween(left, core, right, IsUnderscore);
  }

  /** Two words with anything else between and around them give the id with one underscore between them. */
  lemma StemJoinsWords(before: string, first: string, gap: string, second: string, after: string, fallback: nat)
    requires Gap(before) && Word(first) && Gap(gap) && Word(second) && Gap(after) && |first| + 1 + |second| <= 48
    ensures Stem(before + first + gap + second + after, fallback) == first + "_" + second
  {
    var text := before + first + gap + second + after;
    CollapseEnd(gap, second, after);
    CollapseWord(first, gap + (second + after));
    CollapseGap(before, first + (gap + (second + after)));
    assert text == before + (first + (gap + (second + after)));
    var core := first + "_" + second;
    assert Collapse(text) == "_" + core + "_";
    StripUnderscores(Collapse(text), core);
  }

  lemma CollapseEnd(gap: string, word: string, after: string)
    requires Gap(gap) && Word(word) && Gap(after)
    ensures Collapse(gap + (word + after)) == "_" + (word + "_")
  {
    CollapseGap(after, "");
    assert after + "" == after;
    CollapseWord(word, after);
    CollapseGap(gap, word + after);
  }

  /** A word alone is its own id, cut after 48 characters. */
  lemma StemOfWord(word: string, fallback: nat)
    requires Word(word)
    ensures Stem(word, fallback) == if |word| <= 48 then word else word[..48]
  {
    CollapseWord(word, "");
    assert word + "" == word && Collapse(word) == word;
    StripUnderscores(word, word);
  }

  /** A text without any such character gets an id by its number. */
  lemma StemByNumber(text: string, fallback: nat)
    requires text == "" || Gap(text)
    ensures Stem(text, fallback) ==
            var id := "ai_question_" + Decimal(fallback);
            if |id| <= 48 then id else id[..48]
  {
    if text != "" {
      CollapseGap(text, "");
      assert text + "" == text && Collapse(text) == "_";
      assert StripLeft("_", IsUnderscore) == "";
    }
  }

  // ---------- Options ----------

  /** How many of the places come before this one. */
  predicate Below(places: seq<nat>, n: nat, k: nat) {
    && k <= |places| && (forall j :: 0 <= j < k ==> places[j] < n) && (k < |places| ==> places[k] >= n)
  }

  /**
    The options are the first 80 characters of the texts at these places, in their order.  A text is passed over exactly
    if it is empty, is listed already, or six are listed.
   */
  ghost predicate Picked(items: seq<string>, places: seq<nat>, options: seq<string>) {
    && |places| == |options| && (forall i, j :: 0 <= i < j < |places| ==> places[i] < places[j])
    && (forall k :: 0 <= k < |places| ==>
          places[k] < |items| &&
          options[k] == (if |items[places[k]]| <= 80 then items[places[k]] else items[places[k]][..80]))
    && (forall n: nat, k: nat :: n < |items| && Below(places, n, k) ==>
          (k < |places| && places[k] == n <==> k < 6 && items[n] != "" && items[n] !in options[..k]))
  }

  lemma {:induction false} ListIsPicked(items: seq<string>) returns (places: seq<nat>)
    ensures Picked(items, places, StringList(items)) && forall k :: 0 <= k < |places| ==> places[k] < |items|
  {
    if items == [] {
      places := [];
    } else {
      var front, last := items[..|items| - 1], items[|items| - 1];
      places := ListIsPicked(front);
      var options := StringList(front);
      if |options| == 6 || last == "" || last in options {
        PickedPasses(front, last, places, options);
        assert items == front + [last];
      } else {
        PickedTakes(front, last, places, options);
        places := places + [|front|];
        assert items == front + [last];
      }
    }
  }

  lemma PickedPasses(items: seq<string>, text: string, places: seq<nat>, options: seq<string>)
    requires Picked(items, places, options) && |options| <= 6 && (|options| == 6 || text == "" || text in options)
    ensures Picked(items + [text], places, options)
  {
    var longer := items + [text];
    forall n: nat, k: nat | n < |longer| && Below(places, n, k)
      ensures k < |places| && places[k] == n <==> k < 6 && longer[n] != "" && longer[n] !in options[..k]
    {
      if n == |items| {
        assert k == |places| && options[..k] == options;
      } else {
        assert longer[n] == items[n];
      }
    }
  }

  lemma BelowShorter(places: seq<nat>, last: nat, n: nat, k: nat)
    requires Below(places + [last], n, k) && n <= last
    ensures k <= |places| && Below(places, n, k)
    ensures n == last && (forall j :: 0 <= j < |places| ==> places[j] < last) ==> k == |places|
  {
    var more := places + [last];
    assert more[|places|] == last && forall j :: 0 <= j < |places| ==> more[j] == places[j];
  }

  lemma PickedTakes(items: seq<string>, text: string, places: seq<nat>, options: seq<string>)
    requires Picked(items, places, options) && |options| < 6 && text != "" && text !in options
    ensures Picked(items + [text], places + [|items|], options + [if |text| <= 80 then text else text[..80]])
  {
    var longer, more, all := items + [text], places + [|items|], options + [if |text| <= 80 then text else text[..80]];
    forall n: nat, k: nat | n < |longer| && Below(more, n, k)
      ensures k < |more| && more[k] == n <==> k < 6 && longer[n] != "" && longer[n] !in all[..k]
    {
      BelowShorter(places, |items|, n, k);
      assert all[..k] == options[..k];
      if n == |items| {
        assert k == |places| && options[..k] == options;
      } else {
        assert longer[n] == items[n];
        assert k < |more| && more[k] == n <==> k < |places| && places[k] == n;
      }
    }
  }

  // ---------- Questions ----------

  /** The first characters of a text, or all of it. */
  predicate Shortened(text: string, short: string, limit: nat) {
    short <= text && |short| <= limit && (short == text || |short| == limit)
  }

  /** The kind asked for, or the one that an unknown kind stands for. */
  predicate KindMeant(kind: Kind, meant: Kind) {
    match kind
    case OtherKind(mentionsMulti) => if mentionsMulti then meant.MultiChoiceText? else meant.ChoiceText?
    case _ => meant == kind
  }

  /** The item becomes a question: it has a text, and asks for free text or offers two options at least. */
  ghost predicate Asked(item: Item) {
    && item.Item? && item.text != ""
    && (item.kind.TextArea? || exists places, options :: Picked(item.options, places, options) && |options| >= 2)
  }

  /** The question asks what the item asks; only a question for free text without options gets one. */
  ghost predicate AsksFor(item: Item, question: Question) {
    && item.Item? && Shortened(item.text, question.text, 180) && Shortened(item.placeholder, question.placeholder, 180)
    && KindMeant(item.kind, question.kind) && question.required == item.required
    && Offers(item.options, question.options, question.kind.TextArea?)
  }

  /** The options are picked from the texts; where free text is asked for and there are none, one takes their place. */
  ghost predicate Offers(texts: seq<string>, options: seq<string>, free: bool) {
    || (exists places :: Picked(texts, places, options) && (free ==> options != []))
    || (free && (forall i :: 0 <= i < |texts| ==> texts[i] == "") && options == ["Написать вручную"])
  }

  lemma ListIsOffered(texts: seq<string>, free: bool)
    ensures Offers(texts, if free && StringList(texts) == [] then ["Написать вручную"] else StringList(texts), free)
  {
    var places := ListIsPicked(texts);
    if StringList(texts) == [] {
      forall i | 0 <= i < |texts| ensures texts[i] == "" {
        assert Below(places, i, 0);
      }
    }
  }

  lemma {:induction false} SamePicks(items: seq<string>, places: seq<nat>, options: seq<string>, others: seq<nat>,
                                     list: seq<string>, k: nat)
    requires Picked(items, places, options) && Picked(items, others, list) && k <= |places| && k <= |others|
    ensures places[..k] == others[..k] && options[..k] == list[..k]
    decreases k
  {
    if k > 0 {
      SamePicks(items, places, options, others, list, k - 1);
      SamePlace(items, places, options, others, list, k - 1);
      OneFurther(places, others, k - 1);
      OneFurther(options, list, k - 1);
    }
  }

  lemma OneFurther<T>(a: seq<T>, b: seq<T>, k: nat)
    requires k < |a| && k < |b| && a[..k] == b[..k] && a[k] == b[k]
    ensures a[..k + 1] == b[..k + 1]
  {
    assert a[..k + 1] == a[..k] + [a[k]] && b[..k + 1] == b[..k] + [b[k]];
  }

  /** Two lists that agree so far pick the same text next. */
  lemma SamePlace(items: seq<string>, places: seq<nat>, options: seq<string>, others: seq<nat>, list: seq<string>,
                  k: nat)
    requires Picked(items, places, options) && Picked(items, others, list) && k < |places| && k < |others|
    requires places[..k] == others[..k] && options[..k] == list[..k]
    ensures places[k] == others[k]
  {
    var n := if places[k] < others[k] then places[k] else others[k];
    assert forall j :: 0 <= j < k ==> places[j] == places[..k][j] && others[j] == others[..k][j];
    assert Below(places, n, k) && Below(others, n, k);
  }

  /** Neither goes on where the other one ends. */
  lemma SameLength(items: seq<string>, places: seq<nat>, options: seq<string>, others: seq<nat>, list: seq<string>)
    requires Picked(items, places, options) && Picked(items, others, list)
    requires |places| <= |others| && places == others[..|places|] && options == list[..|places|]
    ensures |places| == |others|
  {
    var k := |places|;
    assert forall j :: 0 <= j < k ==> places[j] == others[j];
    assert options[..k] == options && list[..k] == options;
    assert k < |others| ==> Below(places, others[k], k) && Below(others, others[k], k);
  }

  /** There is one way to pick options. */
  lemma OptionsExactly(items: seq<string>, options: seq<string>)
    ensures options == StringList(items) <==> exists places :: Picked(items, places, options)
  {
    var others := ListIsPicked(items);
    var list := StringList(items);
    if places :| Picked(items, places, options) {
      var k := if |places| <= |others| then |places| else |others|;
      SamePicks(items, places, options, others, list, k);
      assert places[..|places|] == places && options[..|options|] == options;
      assert others[..|others|] == others && list[..|list|] == list;
      if |places| <= |others| {
        SameLength(items, places, options, others, list);
      } else {
        SameLength(items, others, list, places, options);
      }
    }
  }

  lemma AcceptableExactly(item: Item)
    ensures Acceptable(item) <==> Asked(item)
  {
    if item.Item? {
      OptionsExactly(item.options, StringList(item.options));
      if places, options :| Picked(item.options, places, options) && |options| >= 2 {
        OptionsExactly(item.options, options);
      }
    }
  }

  lemma ShapeAsks(item: Item, id: string)
    requires Acceptable(item)
    ensures AsksFor(item, Shape(item, id)) && Shape(item, id).id == id
  {
    ListIsOffered(item.options, KindOf(item.kind).TextArea?);
  }

  /** Which items become questions, what is asked, and which stem each of them has. */
  ghost predicate Taken(items: seq<Item>, places: seq<nat>, stems: seq<string>, shapes: seq<Question>) {
    && |places| == |stems| == |shapes| && (forall i, j :: 0 <= i < j < |places| ==> places[i] < places[j])
    && (forall n: nat :: n in places <==> n < |items| && Asked(items[n]))
    && (forall k :: 0 <= k < |places| ==>
          places[k] < |items| && items[places[k]].Item? && AsksFor(items[places[k]], shapes[k]) &&
          stems[k] == Stem(items[places[k]].id, places[k] + 1))
  }

  lemma {:induction false} AcceptedAreChosen(items: seq<Item>) returns (places: seq<nat>)
    ensures Taken(items, places, Stems(items), Shapes(items))
  {
    if items == [] {
      places := [];
    } else {
      var front, last := items[..|items| - 1], items[|items| - 1];
      places := AcceptedAreChosen(front);
      places := NextChosen(front, last, places);
      assert items == front + [last];
    }
  }

  lemma NextChosen(items: seq<Item>, item: Item, places: seq<nat>) returns (more: seq<nat>)
    requires Taken(items, places, Stems(items), Shapes(items))
    ensures Taken(items + [item], more, Stems(items + [item]), Shapes(items + [item]))
  {
    more := places;
    AcceptableExactly(item);
    if Acceptable(item) {
      ShapeAsks(item, "");
      StemsGrow(items, item);
      OneMoreChosen(items, item, places, Stems(items), Shapes(items), Shape(item, ""));
      more := places + [|items|];
    } else {
      assert (items + [item])[..|items|] == items;
      OneLessChosen(items, item, places, Stems(items), Shapes(items));
    }
  }

  lemma OneMoreChosen(items: seq<Item>, item: Item, places: seq<nat>, stems: seq<string>, shapes: seq<Question>,
                      shape: Question)
    requires Taken(items, places, stems, shapes) && Asked(item) && AsksFor(item, shape)
    ensures Taken(items + [item], places + [|items|], stems + [Stem(item.id, |items| + 1)], shapes + [shape])
  {
    var longer, more := items + [item], places + [|items|];
    forall n: nat ensures n in more <==> n < |longer| && Asked(longer[n]) {
      assert n in more <==> n in places || n == |items|;
      assert n < |items| ==> longer[n] == items[n];
    }
  }

  lemma OneLessChosen(items: seq<Item>, item: Item, places: seq<nat>, stems: seq<string>, shapes: seq<Question>)
    requires Taken(items, places, stems, shapes) && !Asked(item)
    ensures Taken(items + [item], places, stems, shapes)
  {
    var longer := items + [item];
    forall n: nat ensures n in places <==> n < |longer| && Asked(longer[n]) {
      assert n < |items| ==> longer[n] == items[n];
    }
  }

  /**
    What comes out of the interview: the items that ask something, in their order and up to ten of them, each as what it
    asks for, and under an id given in turn: its stem, or the first numbered one that is free.  Where no item wants the
    reserved id, the first question gets it.
   */
  lemma QuestionsMeant(questions: seq<Question>, items: seq<Item>, minCount: int)
    returns (places: seq<nat>, stems: seq<string>, ids: seq<string>)
    requires Normalised(questions, items, minCount)
    ensures |stems| == |places| && (forall i, j :: 0 <= i < j < |places| ==> places[i] < places[j])
    ensures forall n: nat :: n in places <==> n < |items| && Asked(items[n])
    ensures forall k :: 0 <= k < |places| ==>
              places[k] < |items| && items[places[k]].Item? && stems[k] == Stem(items[places[k]].id, places[k] + 1)
    ensures |places| < minCount ==> questions == []
    ensures |places| >= minCount ==>
              && |questions| == (if |places| < 10 then |places| else 10) && |ids| == |places|
              && forall k :: 0 <= k < |questions| ==>
                   && AsksFor(items[places[k]], questions[k])
                   && FirstFree(stems[k], (set id | id in ids[..k]), ids[k])
                   && questions[k].id == if k == 0 && "success_criteria" !in stems then "success_criteria" else ids[k]
  {
    places := AcceptedAreChosen(items);
    stems, ids := Stems(items), [];
    if |places| >= minCount {
      ids :| NamedInTurn(ids, stems) && |Ids(questions)| <= |ids| && Renamed(Ids(questions), ids, stems);
      forall k | 0 <= k < |questions|
        ensures AsksFor(items[places[k]], questions[k])
        ensures FirstFree(stems[k], (set id | id in ids[..k]), ids[k])
        ensures questions[k].id == if k == 0 && "success_criteria" !in stems then "success_criteria" else ids[k]
      {
        QuestionMeant(questions, items, places, stems, Shapes(items), ids, k);
      }
    }
  }

  lemma QuestionMeant(questions: seq<Question>, items: seq<Item>, places: seq<nat>, stems: seq<string>,
                      shapes: seq<Question>, ids: seq<string>, k: nat)
    requires Taken(items, places, stems, shapes) && Shaped(questions, shapes) && NamedInTurn(ids, stems)
    requires |questions| <= |ids| && Renamed(Ids(questions), ids, stems) && k < |questions|
    ensures AsksFor(items[places[k]], questions[k]) && FirstFree(stems[k], (set id | id in ids[..k]), ids[k])
    ensures questions[k].id == if k == 0 && "success_criteria" !in stems then "success_criteria" else ids[k]
  {
    assert AsksFor(items[places[k]], shapes[k]) && questions[k].(id := "") == shapes[k];
    assert Members(ids, k) == set id | id in ids[..k];
    assert Ids(questions)[k] == questions[k].id;
  }
}
