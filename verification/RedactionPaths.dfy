/** Redaction place by place: what stands at the end of a path through a tree before and after it. */
module RedactionPaths {
  import opened Options
  import opened Redaction
  import opened RedactionMeaning
  import opened Sequences

  /** A place of a tree: what stands there, and the nearest key above it. */
  datatype Place = Place(value: Tree, hint: string)

  /** The place at the end of a path of positions. */
  function At(tree: Tree, hint: string, path: seq<nat>): Option<Place>
    decreases path
  {
    if path == [] then Some(Place(tree, hint))
    else
      match tree
      case List(items) => if path[0] < |items| then At(items[path[0]], hint, path[1..]) else None
      case Tuple(items) => if path[0] < |items| then At(items[path[0]], hint, path[1..]) else None
      case Dict(entries) =>
        if path[0] < |entries| then At(entries[path[0]].value, entries[path[0]].key, path[1..]) else None
      case _ => None
  }

  // ---------- Every place of a redacted tree ----------

  /** What stands at a place after the redaction. */
  ghost predicate Became(env: Env, before: Place, after: Place) {
    && after.hint == before.hint
    && match before.value
       case Null => after.value.Null?
       case Scalar(value) => after.value == Scalar(value)
       case Text(text) =>
         after.value == Text(if before.hint != "" && env.secretKey(before.hint)
                             then "[REDACTED:" + env.lower(before.hint) + "]" else RedactedText(env, text))
       case List(items) => after.value.List? && |after.value.items| == |items|
       case Tuple(items) => after.value.List? && |after.value.items| == |items|
       case Dict(entries) =>
         && after.value.Dict? && |after.value.entries| == |entries|
         && forall i :: 0 <= i < |entries| ==> after.value.entries[i].key == entries[i].key
  }

  lemma {:induction false} LeafwiseAt(env: Env, a: Tree, b: Tree, hint: string, path: seq<nat>)
    requires Leafwise(env, a, b, hint)
    ensures At(a, hint, path).Some? <==> At(b, hint, path).Some?
    ensures At(a, hint, path).Some? ==> Became(env, At(a, hint, path).value, At(b, hint, path).value)
    decreases path
  {
    if path != [] {
      match a
      case List(items) =>
        if path[0] < |items| {
          LeafwiseAt(env, items[path[0]], b.items[path[0]], hint, path[1..]);
        }
      case Tuple(items) =>
        if path[0] < |items| {
          LeafwiseAt(env, items[path[0]], b.items[path[0]], hint, path[1..]);
        }
      case Dict(entries) =>
        if path[0] < |entries| {
          LeafwiseAt(env, entries[path[0]].value, b.entries[path[0]].value, entries[path[0]].key, path[1..]);
        }
      case _ =>
    }
  }

  /**
    The redacted tree has the places of the tree it came from and no others.  Numbers stay, the keys and their order
    stay, a text becomes the mask of its key where that is secret-like, and goes through `redact_text` elsewhere.
   */
  lemma RedactedAt(env: Env, tree: Tree, hint: string, path: seq<nat>)
    requires ProperKeys(tree)
    ensures At(tree, hint, path).Some? <==> At(Redacted(env, tree, hint), hint, path).Some?
    ensures At(tree, hint, path).Some? ==>
              Became(env, At(tree, hint, path).value, At(Redacted(env, tree, hint), hint, path).value)
  {
    RedactedIsLeafwise(env, tree, hint);
    LeafwiseAt(env, tree, Redacted(env, tree, hint), hint, path);
  }

  lemma {:induction false} MaskedAt(env: Env, tree: Tree, hint: string, path: seq<nat>)
    requires Masked(env, tree, hint) && At(tree, hint, path).Some?
    ensures Masked(env, At(tree, hint, path).value.value, At(tree, hint, path).value.hint)
    decreases path
  {
    if path != [] {
      match tree
      case List(items) => MaskedAt(env, items[path[0]], hint, path[1..]);
      case Tuple(items) => MaskedAt(env, items[path[0]], hint, path[1..]);
      case Dict(entries) => MaskedAt(env, entries[path[0]].value, entries[path[0]].key, path[1..]);
    }
  }

  /**
    Wherever a text stands in a redacted tree, with keys that come twice or not: under a secret-like key it is the mask
    of that key, and elsewhere no pattern finds anything in it.
   */
  lemma NoSecretIsLeft(env: Env, tree: Tree, hint: string, path: seq<nat>, i: nat)
    requires Thorough(env.rules) && i < |env.rules| && Robust(env.rules[i], env.instructional.placeholder)
    requires env.rules[i].matches("") == []
    requires At(Redacted(env, tree, hint), hint, path).Some?
    requires At(Redacted(env, tree, hint), hint, path).value.value.Text?
    ensures var Place(value, key) := At(Redacted(env, tree, hint), hint, path).value;
            if key != "" && env.secretKey(key) then value.text == "[REDACTED:" + env.lower(key) + "]"
            else env.rules[i].matches(value.text) == []
  {
    RedactedIsMasked(env, tree, hint);
    MaskedAt(env, Redacted(env, tree, hint), hint, path);
    var Place(value, key) := At(Redacted(env, tree, hint), hint, path).value;
    if !Secret(env, key) {
      var original :| value.text == RedactedText(env, original);
      RedactedHoldsNoMatch(env, original, i);
    }
  }

  // ---------- Trees that differ in secrets only ----------

  /** At this place the two trees are alike: they have it or not, with the same key above it, and what stands there is
      of the same kind and size, and equal unless it is a text under a secret-like key. */
  ghost predicate AlikeAt(env: Env, a: Tree, b: Tree, hint: string, path: seq<nat>) {
    match (At(a, hint, path), At(b, hint, path))
    case (None, None) => true
    case (Some(x), Some(y)) =>
      && x.hint == y.hint
      && (match x.value
          case Null => y.value.Null?
          case Scalar(value) => y.value == Scalar(value)
          case Text(text) => y.value.Text? && (y.value.text == text || (x.hint != "" && env.secretKey(x.hint)))
          case List(items) => y.value.List? && |y.value.items| == |items|
          case Tuple(items) => y.value.Tuple? && |y.value.items| == |items|
          case Dict(entries) =>
            && y.value.Dict? && |y.value.entries| == |entries|
            && forall i :: 0 <= i < |entries| ==> y.value.entries[i].key == entries[i].key)
    case _ => false
  }

  ghost predicate Alike(env: Env, a: Tree, b: Tree, hint: string) {
    forall path: seq<nat> :: AlikeAt(env, a, b, hint, path)
  }

  /** Trees that are alike have like children. */
  lemma AlikeChild(env: Env, a: Tree, b: Tree, hint: string, i: nat, x: Tree, y: Tree, key: string)
    requires Alike(env, a, b, hint)
    requires forall path: seq<nat> :: At(a, hint, [i] + path) == At(x, key, path)
    requires forall path: seq<nat> :: At(b, hint, [i] + path) == At(y, key, path)
    ensures Alike(env, x, y, key)
  {
    forall path: seq<nat> ensures AlikeAt(env, x, y, key, path) {
      assert AlikeAt(env, a, b, hint, [i] + path);
    }
  }

  lemma AtChild(tree: Tree, hint: string, i: nat)
    ensures (tree.List? || tree.Tuple?) && i < |tree.items| ==>
              forall path: seq<nat> :: At(tree, hint, [i] + path) == At(tree.items[i], hint, path)
    ensures tree.Dict? && i < |tree.entries| ==>
              forall path: seq<nat> ::
                At(tree, hint, [i] + path) == At(tree.entries[i].value, tree.entries[i].key, path)
  {
    forall path: seq<nat> ensures ([i] + path)[1..] == path {
    }
  }

  lemma {:induction false} ItemsSimilar(env: Env, a: seq<Tree>, b: seq<Tree>, hint: string)
    requires |a| == |b| && forall i :: 0 <= i < |a| ==> Similar(env, a[i], b[i], hint)
    ensures SimilarItems(env, a, b, hint)
  {
    if a != [] {
      ItemsSimilar(env, a[..|a| - 1], b[..|b| - 1], hint);
    }
  }

  lemma {:induction false} EntriesSimilar(env: Env, a: seq<Entry>, b: seq<Entry>)
    requires |a| == |b|
    requires forall i :: 0 <= i < |a| ==> a[i].key == b[i].key && Similar(env, a[i].value, b[i].value, a[i].key)
    ensures SimilarEntries(env, a, b)
  {
    if a != [] {
      EntriesSimilar(env, a[..|a| - 1], b[..|b| - 1]);
    }
  }

  lemma {:induction false} AlikeIsSimilar(env: Env, a: Tree, b: Tree, hint: string)
    requires Alike(env, a, b, hint)
    ensures Similar(env, a, b, hint)
    decreases a
  {
    assert AlikeAt(env, a, b, hint, []);
    match a
    case Null =>
    case Scalar(_) =>
    case Text(_) =>
    case List(items) => ItemsAlike(env, a, b, hint, items, b.items);
    case Tuple(items) => ItemsAlike(env, a, b, hint, items, b.items);
    case Dict(entries) => EntriesAlike(env, a, b, hint, entries, b.entries);
  }

  lemma {:induction false} ItemsAlike(env: Env, a: Tree, b: Tree, hint: string, items: seq<Tree>, others: seq<Tree>)
    requires Alike(env, a, b, hint) && |items| == |others|
    requires ((a.List? && b.List?) || (a.Tuple? && b.Tuple?)) && a.items == items && b.items == others
    ensures SimilarItems(env, items, others, hint)
    decreases a, 0
  {
    forall i | 0 <= i < |items| ensures Similar(env, items[i], others[i], hint) {
      AtChild(a, hint, i);
      AtChild(b, hint, i);
      AlikeChild(env, a, b, hint, i, items[i], others[i], hint);
      AlikeIsSimilar(env, items[i], others[i], hint);
    }
    ItemsSimilar(env, items, others, hint);
  }

  lemma {:induction false} EntriesAlike(env: Env, a: Tree, b: Tree, hint: string, entries: seq<Entry>,
                                        others: seq<Entry>)
    requires Alike(env, a, b, hint) && |entries| == |others|
    requires a.Dict? && b.Dict? && a.entries == entries && b.entries == others
    requires forall i :: 0 <= i < |entries| ==> entries[i].key == others[i].key
    ensures SimilarEntries(env, entries, others)
    decreases a, 0
  {
    forall i | 0 <= i < |entries| ensures Similar(env, entries[i].value, others[i].value, entries[i].key) {
      AtChild(a, hint, i);
      AtChild(b, hint, i);
      AlikeChild(env, a, b, hint, i, entries[i].value, others[i].value, entries[i].key);
      AlikeIsSimilar(env, entries[i].value, others[i].value, entries[i].key);
    }
    EntriesSimilar(env, entries, others);
  }

  /** Two payloads that are alike at every place give the same redacted payload and findings of the same kinds. */
  lemma SecretsMakeNoDifference(env: Env, a: Tree, b: Tree, hint: string)
    requires Alike(env, a, b, hint)
    ensures Redacted(env, a, hint) == Redacted(env, b, hint)
    ensures Tags(Found(env, a, hint)) == Tags(Found(env, b, hint))
  {
    AlikeIsSimilar(env, a, b, hint);
    NonInterference(env, a, b, hint);
  }

  // ---------- What is recorded ----------

  /** The texts of a tree with their nearest keys, in the order of the traversal. */
  function Texts(tree: Tree, hint: string): seq<Place>
    decreases tree
  {
    match tree
    case Text(_) => [Place(tree, hint)]
    case List(items) => TextsOfItems(items, hint)
    case Tuple(items) => TextsOfItems(items, hint)
    case Dict(entries) => TextsOfEntries(entries)
    case _ => []
  }

  function TextsOfItems(items: seq<Tree>, hint: string): seq<Place>
    decreases items
  {
    if items == [] then [] else TextsOfItems(items[..|items| - 1], hint) + Texts(items[|items| - 1], hint)
  }

  function TextsOfEntries(entries: seq<Entry>): seq<Place>
    decreases entries
  {
    if entries == [] then []
    else TextsOfEntries(entries[..|entries| - 1]) + Texts(entries[|entries| - 1].value, entries[|entries| - 1].key)
  }

  lemma {:induction false} ItemTextIsListed(items: seq<Tree>, hint: string, i: nat, place: Place)
    requires i < |items| && place in Texts(items[i], hint)
    ensures place in TextsOfItems(items, hint)
  {
    if i < |items| - 1 {
      ItemTextIsListed(items[..|items| - 1], hint, i, place);
    }
  }

  lemma {:induction false} EntryTextIsListed(entries: seq<Entry>, i: nat, place: Place)
    requires i < |entries| && place in Texts(entries[i].value, entries[i].key)
    ensures place in TextsOfEntries(entries)
  {
    if i < |entries| - 1 {
      EntryTextIsListed(entries[..|entries| - 1], i, place);
    }
  }

  /** No text is passed over. */
  lemma {:induction false} TextIsListed(tree: Tree, hint: string, path: seq<nat>)
    requires At(tree, hint, path).Some? && At(tree, hint, path).value.value.Text?
    ensures At(tree, hint, path).value in Texts(tree, hint)
    decreases path
  {
    if path != [] {
      match tree
      case List(items) =>
        TextIsListed(items[path[0]], hint, path[1..]);
        ItemTextIsListed(items, hint, path[0], At(tree, hint, path).value);
      case Tuple(items) =>
        TextIsListed(items[path[0]], hint, path[1..]);
        ItemTextIsListed(items, hint, path[0], At(tree, hint, path).value);
      case Dict(entries) =>
        TextIsListed(entries[path[0]].value, entries[path[0]].key, path[1..]);
        EntryTextIsListed(entries, path[0], At(tree, hint, path).value);
    }
  }

  /** One secret is one finding, under a label of its own; any other text is recorded by what `redact_text` finds. */
  function RecordedAt(env: Env, place: Place): seq<Finding> {
    if !place.value.Text? then []
    else if place.hint != "" && env.secretKey(place.hint) then [Finding("key_hint", env.hash(place.value.text))]
    else TextFindings(env, place.value.text)
  }

  function Recorded(env: Env, places: seq<Place>): seq<Finding> {
    if places == [] then []
    else
      Recorded(env, places[..|places| - 1]) + RecordedAt(env, places[|places| - 1])
  }

  lemma RecordedGrows(env: Env, front: seq<Place>, last: Place)
    ensures Recorded(env, front + [last]) == Recorded(env, front) + RecordedAt(env, last)
  {
    assert (front + [last])[..|front|] == front;
  }

  lemma {:induction false} RecordedAppends(env: Env, a: seq<Place>, b: seq<Place>)
    ensures Recorded(env, a + b) == Recorded(env, a) + Recorded(env, b)
  {
    if b == [] {
      assert a + b == a;
    } else {
      var front, last := b[..|b| - 1], b[|b| - 1];
      RecordedAppends(env, a, front);
      assert b == front + [last] && a + b == a + front + [last];
      OneMoreRecorded(env, a, front, last, a + front, b, a + b);
    }
  }

  lemma OneMoreRecorded(env: Env, a: seq<Place>, front: seq<Place>, last: Place, most: seq<Place>, b: seq<Place>,
                        all: seq<Place>)
    requires Recorded(env, most) == Recorded(env, a) + Recorded(env, front)
    requires b == front + [last] && all == most + [last]
    ensures Recorded(env, all) == Recorded(env, a) + Recorded(env, b)
  {
    RecordedGrows(env, most, last);
    RecordedGrows(env, front, last);
    Associate(Recorded(env, a), Recorded(env, front), RecordedAt(env, last));
  }

  /** What the traversal records is what the texts of the tree give, one after the other. */
  lemma {:induction false} FoundTextByText(env: Env, tree: Tree, hint: string)
    ensures Found(env, tree, hint) == Recorded(env, Texts(tree, hint))
    decreases tree
  {
    match tree
    case Text(_) => assert Texts(tree, hint)[..0] == [];
    case List(items) => FoundInItemsTextByText(env, items, hint);
    case Tuple(items) => FoundInItemsTextByText(env, items, hint);
    case Dict(entries) => FoundInEntriesTextByText(env, entries);
    case _ =>
  }

  lemma {:induction false} FoundInItemsTextByText(env: Env, items: seq<Tree>, hint: string)
    ensures FoundInItems(env, items, hint) == Recorded(env, TextsOfItems(items, hint))
    decreases items
  {
    if items != [] {
      var front, last := items[..|items| - 1], items[|items| - 1];
      FoundInItemsTextByText(env, front, hint);
      FoundTextByText(env, last, hint);
      RecordedAppends(env, TextsOfItems(front, hint), Texts(last, hint));
    }
  }

  lemma {:induction false} FoundInEntriesTextByText(env: Env, entries: seq<Entry>)
    ensures FoundInEntries(env, entries) == Recorded(env, TextsOfEntries(entries))
    decreases entries
  {
    if entries != [] {
      var front, last := entries[..|entries| - 1], entries[|entries| - 1];
      FoundInEntriesTextByText(env, front);
      FoundTextByText(env, last.value, last.key);
      RecordedAppends(env, TextsOfEntries(front), Texts(last.value, last.key));
    }
  }
}
