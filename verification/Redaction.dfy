/**
  Redaction of texts and payload trees.  Regular expressions, `strip` and the hash are functions the environment
  supplies; what is modelled is what the code does with their answers.
 */
module Redaction {
  import opened MapSum
  import opened Sequences
  import opened TextLines

  /** One text pattern: `rewrite` substitutes the placeholder for every match, `matches` lists what was matched. */
  datatype Rule = Rule(tag: string, rewrite: string -> string, matches: string -> seq<string>)

  /** One line filter: the stripped line is searched for its patterns. */
  datatype Filter = Filter(tag: string, search: string -> bool, placeholder: string)

  datatype Env = Env(rules: seq<Rule>, instructional: Filter, strip: string -> string, hash: string -> string,
                     secretKey: string -> bool, lower: string -> string)

  /** One thing that was taken out. */
  datatype Finding = Finding(tag: string, hash: string)

  // ---------- The report and the hashes ----------

  function Count(findings: seq<Finding>, tag: string): nat {
    if findings == [] then 0
    else Count(findings[..|findings| - 1], tag) + if findings[|findings| - 1].tag == tag then 1 else 0
  }

  function Hashes(findings: seq<Finding>): (hashes: seq<string>)
    ensures |hashes| == |findings| && forall i :: 0 <= i < |findings| ==> hashes[i] == findings[i].hash
  {
    seq(|findings|, i requires 0 <= i < |findings| => findings[i].hash)
  }

  /** The report has an entry for exactly the labels that were found, with their number. */
  ghost predicate Reported(report: map<string, nat>, findings: seq<Finding>) {
    && (forall tag :: tag in report <==> Count(findings, tag) > 0)
    && (forall tag :: tag in report ==> report[tag] == Count(findings, tag))
  }

  /** `report[tag] = report.get(tag, 0) + 1`. */
  function Bump(report: map<string, nat>, tag: string, amount: nat): map<string, nat> {
    report[tag := (if tag in report then report[tag] else 0) + amount]
  }

  lemma BumpReports(report: map<string, nat>, findings: seq<Finding>, finding: Finding)
    requires Reported(report, findings)
    ensures Reported(Bump(report, finding.tag, 1), findings + [finding])
    ensures Hashes(findings + [finding]) == Hashes(findings) + [finding.hash]
  {
    assert (findings + [finding])[..|findings|] == findings;
  }

  lemma {:induction false} CountAppend(a: seq<Finding>, b: seq<Finding>, tag: string)
    ensures Count(a + b, tag) == Count(a, tag) + Count(b, tag)
  {
    if b == [] {
      assert a + b == a;
    } else {
      assert (a + b)[..|a + b| - 1] == a + b[..|b| - 1];
      CountAppend(a, b[..|b| - 1], tag);
    }
  }

  /** A report whose counts are the sums reports both lists. */
  lemma AddsUp(report: map<string, nat>, a: seq<Finding>, b: seq<Finding>)
    requires forall tag :: tag in report <==> Count(a, tag) + Count(b, tag) > 0
    requires forall tag :: tag in report ==> report[tag] == Count(a, tag) + Count(b, tag)
    ensures Reported(report, a + b)
  {
    forall tag ensures Count(a + b, tag) == Count(a, tag) + Count(b, tag) {
      CountAppend(a, b, tag);
    }
  }

  // ---------- The line filter ----------

  predicate Caught(env: Env, filter: Filter, raw: string) {
    env.strip(raw) != "" && filter.search(env.strip(raw))
  }

  function Kept(env: Env, filter: Filter, raw: string): string {
    if Caught(env, filter, raw) then filter.placeholder else raw
  }

  function Filtered(env: Env, filter: Filter, lines: seq<string>): (filtered: seq<string>)
    ensures |filtered| == |lines| && forall i :: 0 <= i < |lines| ==> filtered[i] == Kept(env, filter, lines[i])
  {
    seq(|lines|, i requires 0 <= i < |lines| => Kept(env, filter, lines[i]))
  }

  function LineFindings(env: Env, filter: Filter, lines: seq<string>): seq<Finding> {
    if lines == [] then []
    else
      var last := lines[|lines| - 1];
      LineFindings(env, filter, lines[..|lines| - 1]) +
      if Caught(env, filter, last) then [Finding(filter.tag, env.hash(env.strip(last)))] else []
  }

  /** No line is caught by the filter. */
  ghost predicate Clean(env: Env, filter: Filter, lines: seq<string>) {
    forall i :: 0 <= i < |lines| ==> !Caught(env, filter, lines[i])
  }

  /** The filtered lines are clean exactly if nothing was caught or the filter leaves its own placeholder alone. */
  lemma FilteredIsClean(env: Env, filter: Filter, lines: seq<string>)
    ensures Clean(env, filter, Filtered(env, filter, lines)) <==>
            !Caught(env, filter, filter.placeholder) || Clean(env, filter, lines)
  {
    var filtered := Filtered(env, filter, lines);
    if Clean(env, filter, filtered) && !Clean(env, filter, lines) {
      var i :| 0 <= i < |lines| && Caught(env, filter, lines[i]);
      assert filtered[i] == filter.placeholder;
    }
    if !Caught(env, filter, filter.placeholder) || Clean(env, filter, lines) {
      forall i | 0 <= i < |filtered| ensures !Caught(env, filter, filtered[i]) {
        assert filtered[i] == Kept(env, filter, lines[i]);
      }
    }
  }

  /** A second pass changes nothing and finds nothing. */
  lemma FilterIsIdempotent(env: Env, filter: Filter, lines: seq<string>)
    requires Clean(env, filter, lines)
    ensures Filtered(env, filter, lines) == lines
    ensures LineFindings(env, filter, lines) == []
  {
    if lines != [] {
      FilterIsIdempotent(env, filter, lines[..|lines| - 1]);
    }
  }

  /** Another filter's pass keeps lines clean unless its placeholder is caught. */
  lemma OtherFilterKeepsClean(env: Env, filter: Filter, other: Filter, lines: seq<string>)
    requires Clean(env, filter, lines) && !Caught(env, filter, other.placeholder)
    ensures Clean(env, filter, Filtered(env, other, lines))
  {
    forall i | 0 <= i < |lines| ensures !Caught(env, filter, Filtered(env, other, lines)[i]) {
      assert Filtered(env, other, lines)[i] == Kept(env, other, lines[i]);
    }
  }

  // ---------- Texts ----------

  function RuleHits(env: Env, rule: Rule, values: seq<string>): seq<Finding> {
    if values == [] then []
    else RuleHits(env, rule, values[..|values| - 1]) + [Finding(rule.tag, env.hash(values[|values| - 1]))]
  }

  /** The text after the rules, which run one after the other on the text the earlier ones left. */
  function Rewritten(rules: seq<Rule>, text: string): string {
    if rules == [] then text else rules[|rules| - 1].rewrite(Rewritten(rules[..|rules| - 1], text))
  }

  function RuleFindings(env: Env, rules: seq<Rule>, text: string): seq<Finding> {
    if rules == [] then []
    else
      var front, last := rules[..|rules| - 1], rules[|rules| - 1];
      RuleFindings(env, front, text) + RuleHits(env, last, last.matches(Rewritten(front, text)))
  }

  function LinesOf(env: Env, text: string): seq<string> {
    SplitLines(Rewritten(env.rules, text))
  }

  function RedactedText(env: Env, text: string): string {
    if text == "" then "" else JoinLines(Filtered(env, env.instructional, LinesOf(env, text)))
  }

  function TextFindings(env: Env, text: string): seq<Finding> {
    if text == "" then []
    else RuleFindings(env, env.rules, text) + LineFindings(env, env.instructional, LinesOf(env, text))
  }

  // ---------- Payload trees ----------

  /** `Scalar` stands for the numbers and the booleans, `Text` for strings and for everything that is
      turned into one. */
  datatype Tree =
    | Null
    | Scalar(value: int)
    | Text(text: string)
    | List(items: seq<Tree>)
    | Tuple(items: seq<Tree>)
    | Dict(entries: seq<Entry>)

  datatype Entry = Entry(key: string, value: Tree)

  predicate Secret(env: Env, hint: string) {
    hint != "" && env.secretKey(hint)
  }

  function Mask(env: Env, hint: string): string {
    "[REDACTED:" + env.lower(hint) + "]"
  }

  /** Assignment to a key of an insertion-ordered dictionary. */
  function Put(entries: seq<Entry>, key: string, value: Tree): seq<Entry> {
    if entries == [] then [Entry(key, value)]
    else if entries[0].key == key then [Entry(key, value)] + entries[1..]
    else [entries[0]] + Put(entries[1..], key, value)
  }

  function Redacted(env: Env, tree: Tree, hint: string): Tree
    decreases tree
  {
    match tree
    case Null => Null
    case Scalar(_) => tree
    case Text(text) => Text(if Secret(env, hint) then Mask(env, hint) else RedactedText(env, text))
    case List(items) => List(RedactedItems(env, items, hint))
    case Tuple(items) => List(RedactedItems(env, items, hint))
    case Dict(entries) => Dict(RedactedEntries(env, entries))
  }

  function RedactedItems(env: Env, items: seq<Tree>, hint: string): seq<Tree>
    decreases items
  {
    if items == [] then []
    else RedactedItems(env, items[..|items| - 1], hint) + [Redacted(env, items[|items| - 1], hint)]
  }

  function RedactedEntries(env: Env, entries: seq<Entry>): seq<Entry>
    decreases entries
  {
    if entries == [] then []
    else
      var last := entries[|entries| - 1];
      Put(RedactedEntries(env, entries[..|entries| - 1]), last.key, Redacted(env, last.value, last.key))
  }

  /** What is taken out of a tree, in the order of the traversal. */
  function Found(env: Env, tree: Tree, hint: string): seq<Finding>
    decreases tree
  {
    match tree
    case Null => []
    case Scalar(_) => []
    case Text(text) => if Secret(env, hint) then [Finding("key_hint", env.hash(text))] else TextFindings(env, text)
    case List(items) => FoundInItems(env, items, hint)
    case Tuple(items) => FoundInItems(env, items, hint)
    case Dict(entries) => FoundInEntries(env, entries)
  }

  function FoundInItems(env: Env, items: seq<Tree>, hint: string): seq<Finding>
    decreases items
  {
    if items == [] then []
    else FoundInItems(env, items[..|items| - 1], hint) + Found(env, items[|items| - 1], hint)
  }

  function FoundInEntries(env: Env, entries: seq<Entry>): seq<Finding>
    decreases entries
  {
    if entries == [] then []
    else
      var last := entries[|entries| - 1];
      FoundInEntries(env, entries[..|entries| - 1]) + Found(env, last.value, last.key)
  }

  /** One more item. */
  lemma NextItem(env: Env, items: seq<Tree>, i: nat, hint: string)
    requires i < |items|
    ensures RedactedItems(env, items[..i + 1], hint) == RedactedItems(env, items[..i], hint) +
            [Redacted(env, items[i], hint)]
    ensures FoundInItems(env, items[..i + 1], hint) == FoundInItems(env, items[..i], hint) + Found(env, items[i], hint)
  {
    assert items[..i + 1][..i] == items[..i];
  }

  /** One more entry. */
  lemma NextEntry(env: Env, entries: seq<Entry>, i: nat)
    requires i < |entries|
    ensures RedactedEntries(env, entries[..i + 1]) ==
            Put(RedactedEntries(env, entries[..i]), entries[i].key, Redacted(env, entries[i].value, entries[i].key))
    ensures FoundInEntries(env, entries[..i + 1]) ==
            FoundInEntries(env, entries[..i]) + Found(env, entries[i].value, entries[i].key)
  {
    assert entries[..i + 1][..i] == entries[..i];
  }

  /** One more line. */
  lemma NextLine(env: Env, filter: Filter, lines: seq<string>, i: nat)
    requires i < |lines|
    ensures Filtered(env, filter, lines[..i + 1]) == Filtered(env, filter, lines[..i]) + [Kept(env, filter, lines[i])]
    ensures LineFindings(env, filter, lines[..i + 1]) ==
            LineFindings(env, filter, lines[..i]) +
            if Caught(env, filter, lines[i]) then [Finding(filter.tag, env.hash(env.strip(lines[i])))] else []
  {
    assert lines[..i + 1][..i] == lines[..i];
  }

  lemma Associate(a: seq<Finding>, b: seq<Finding>, c: seq<Finding>)
    ensures a + b + c == a + (b + c)
  {
  }

  // ---------- The imperative code ----------

  /** The dictionary and the list that the functions share and fill, with what has been found so far. */
  class Recorder {
    var report: map<string, nat>
    var hashes: seq<string>
    ghost var found: seq<Finding>

    constructor ()
      ensures Valid() && found == []
    {
      report, hashes, found := map[], [], [];
    }

    ghost predicate Valid()
      reads this
    {
      Reported(report, found) && hashes == Hashes(found)
    }

    method Record(tag: string, hash: string)
      requires Valid()
      modifies this
      ensures Valid() && found == old(found) + [Finding(tag, hash)]
    {
      BumpReports(report, found, Finding(tag, hash));
      report, hashes, found := Bump(report, tag, 1), hashes + [hash], found + [Finding(tag, hash)];
    }

    /** `_sanitize_lines`. */
    method SanitizeLines(env: Env, filter: Filter, lines: seq<string>) returns (sanitized: seq<string>)
      requires Valid()
      modifies this
      ensures Valid() && sanitized == Filtered(env, filter, lines)
      ensures found == old(found) + LineFindings(env, filter, lines)
      ensures |sanitized| == |lines|
      ensures forall i :: 0 <= i < |lines| ==>
                var line := env.strip(lines[i]);
                sanitized[i] == if line != "" && filter.search(line) then filter.placeholder else lines[i]
    {
      sanitized := [];
      for i := 0 to |lines|
        invariant Valid() && sanitized == Filtered(env, filter, lines[..i])
        invariant found == old(found) + LineFindings(env, filter, lines[..i])
      {
        NextLine(env, filter, lines, i);
        var line := env.strip(lines[i]);
        if line != "" && filter.search(line) {
          Record(filter.tag, env.hash(line));
          sanitized := sanitized + [filter.placeholder];
        } else {
          sanitized := sanitized + [lines[i]];
        }
      }
      assert lines[..|lines|] == lines;
    }

    /** The pattern loop of `redact_text`. */
    method ApplyRules(env: Env, rules: seq<Rule>, text: string) returns (redacted: string)
      requires Valid()
      modifies this
      ensures Valid() && redacted == Rewritten(rules, text) && found == old(found) + RuleFindings(env, rules, text)
    {
      redacted := text;
      for i := 0 to |rules|
        invariant Valid() && redacted == Rewritten(rules[..i], text)
        invariant found == old(found) + RuleFindings(env, rules[..i], text)
      {
        assert rules[..i + 1][..i] == rules[..i];
        RecordMatches(env, rules[i], rules[i].matches(redacted));
        redacted := rules[i].rewrite(redacted);
      }
      assert rules[..|rules|] == rules;
    }

    /** `redact_text`. */
    method RedactText(env: Env, text: string) returns (redacted: string)
      requires Valid()
      modifies this
      ensures Valid() && redacted == RedactedText(env, text) && found == old(found) + TextFindings(env, text)
    {
      if text == "" {
        return "";
      }
      redacted := ApplyRules(env, env.rules, text);
      var lines := SanitizeLines(env, env.instructional, SplitLines(redacted));
      Associate(old(found), RuleFindings(env, env.rules, text),
                LineFindings(env, env.instructional, LinesOf(env, text)));
      redacted := JoinLines(lines);
    }

    /** The substitution callback, once for every match. */
    method RecordMatches(env: Env, rule: Rule, values: seq<string>)
      requires Valid()
      modifies this
      ensures Valid() && found == old(found) + RuleHits(env, rule, values)
    {
      for i := 0 to |values|
        invariant Valid() && found == old(found) + RuleHits(env, rule, values[..i])
      {
        assert values[..i + 1][..i] == values[..i];
        Record(rule.tag, env.hash(values[i]));
      }
      assert values[..|values|] == values;
    }

    /** The loop of `_merge` over the labels of the other report. */
    method AddCounts(counts: map<string, nat>)
      modifies this`report
      ensures forall tag :: tag in report <==> tag in old(report) || tag in counts
      ensures forall tag :: tag in report ==>
                report[tag] == (if tag in old(report) then old(report)[tag] else 0) + if tag in counts then counts[tag]
                  else 0
    {
      var rest := counts.Keys;
      while rest != {}
        invariant rest <= counts.Keys
        invariant forall tag :: tag in report <==> tag in old(report) || tag in counts.Keys - rest
        invariant forall tag :: tag in report ==>
                    report[tag] == (if tag in old(report) then old(report)[tag] else 0) +
                                   if tag in counts.Keys - rest then counts[tag] else 0
        decreases |rest|
      {
        var tag :| tag in rest;
        rest := rest - {tag};
        report := Bump(report, tag, counts[tag]);
      }
    }

    /** `_merge`: the counts are added label by label, the hashes appended. */
    method Merge(child: Recorder)
      requires Valid() && child.Valid() && child != this
      modifies this
      ensures Valid() && found == old(found) + child.found
    {
      AddCounts(child.report);
      AddsUp(report, found, child.found);
      assert Hashes(found + child.found) == Hashes(found) + Hashes(child.found);
      hashes, found := hashes + child.hashes, found + child.found;
    }

    /** `_redact`. */
    method Redact(env: Env, tree: Tree, hint: string) returns (redacted: Tree)
      requires Valid()
      modifies this
      ensures Valid() && redacted == Redacted(env, tree, hint) && found == old(found) + Found(env, tree, hint)
      decreases tree
    {
      if tree.Dict? {
        var entries := RedactEntries(env, tree.entries);
        return Dict(entries);
      }
      if tree.List? || tree.Tuple? {
        var items := RedactItems(env, tree.items, hint);
        return List(items);
      }
      if tree.Null? || tree.Scalar? {
        return tree;
      }
      var text := RedactLeaf(env, tree.text, hint);
      return Text(text);
    }

    /** The end of `_redact`: a text under a secret-like key is masked, any other goes through `redact_text`. */
    method RedactLeaf(env: Env, text: string, hint: string) returns (redacted: string)
      requires Valid()
      modifies this
      ensures Valid() && Text(redacted) == Redacted(env, Text(text), hint)
              && found == old(found) + Found(env, Text(text), hint)
    {
      if hint != "" && env.secretKey(hint) {
        Record("key_hint", env.hash(text));
        return Mask(env, hint);
      }
      var child := new Recorder();
      redacted := child.RedactText(env, text);
      assert child.found == TextFindings(env, text);
      Merge(child);
    }

    method RedactEntries(env: Env, entries: seq<Entry>) returns (redacted: seq<Entry>)
      requires Valid()
      modifies this
      ensures Valid() && redacted == RedactedEntries(env, entries) && found == old(found) + FoundInEntries(env, entries)
      decreases entries
    {
      redacted := [];
      for i := 0 to |entries|
        invariant Valid() && redacted == RedactedEntries(env, entries[..i])
        invariant found == old(found) + FoundInEntries(env, entries[..i])
      {
        NextEntry(env, entries, i);
        Associate(old(found), FoundInEntries(env, entries[..i]), Found(env, entries[i].value, entries[i].key));
        var value := Redact(env, entries[i].value, entries[i].key);
        redacted := Put(redacted, entries[i].key, value);
      }
      assert entries[..|entries|] == entries;
    }

    method RedactItems(env: Env, items: seq<Tree>, hint: string) returns (redacted: seq<Tree>)
      requires Valid()
      modifies this
      ensures Valid() && redacted == RedactedItems(env, items, hint) &&
              found == old(found) + FoundInItems(env, items, hint)
      decreases items
    {
      redacted := [];
      for i := 0 to |items|
        invariant Valid() && redacted == RedactedItems(env, items[..i], hint)
        invariant found == old(found) + FoundInItems(env, items[..i], hint)
      {
        NextItem(env, items, i, hint);
        Associate(old(found), FoundInItems(env, items[..i], hint), Found(env, items[i], hint));
        var item := Redact(env, items[i], hint);
        redacted := redacted + [item];
      }
      assert items[..|items|] == items;
    }
  }

  // ---------- The entry points ----------

  /** `redact_payload`. */
  method RedactPayload(env: Env, payload: Tree) returns (redacted: Tree, report: map<string, nat>, hashes: seq<string>)
    ensures redacted == Redacted(env, payload, "")
    ensures Reported(report, Found(env, payload, ""))
    ensures hashes == Unique(Hashes(Found(env, payload, "")))
  {
    var recorder := new Recorder();
    redacted := recorder.Redact(env, payload, "");
    assert recorder.found == Found(env, payload, "");
    return redacted, recorder.report, Unique(recorder.hashes);
  }

  function ObservationText(env: Env, control: Filter, text: string): string {
    var base := RedactedText(env, text);
    if base == "" then "" else JoinLines(Filtered(env, control, SplitLines(base)))
  }

  function PromptText(env: Env, control: Filter, context: Filter, text: string): string {
    var base := ObservationText(env, control, text);
    if base == "" then "" else JoinLines(Filtered(env, context, SplitLines(base)))
  }

  /** What the two entry points for texts take out: the redaction's findings and those of each line filter that ran. */
  function ObservationFindings(env: Env, control: Filter, text: string): seq<Finding> {
    var base := RedactedText(env, text);
    TextFindings(env, text) + if base == "" then [] else LineFindings(env, control, SplitLines(base))
  }

  function PromptFindings(env: Env, control: Filter, context: Filter, text: string): seq<Finding> {
    var base := ObservationText(env, control, text);
    ObservationFindings(env, control, text) + if base == "" then [] else LineFindings(env, context, SplitLines(base))
  }

  /** `sanitize_observation_text`; where nothing is left of the text, duplicates among the hashes stay. */
  method SanitizeObservationText(env: Env, control: Filter, text: string)
    returns (sanitized: string, recorder: Recorder, hashes: seq<string>)
    ensures sanitized == ObservationText(env, control, text) && fresh(recorder) && recorder.Valid()
    ensures recorder.found == ObservationFindings(env, control, text)
    ensures hashes == if RedactedText(env, text) == "" then Hashes(recorder.found) else Unique(Hashes(recorder.found))
  {
    recorder := new Recorder();
    var base := recorder.RedactText(env, text);
    assert recorder.found == TextFindings(env, text);
    if base == "" {
      return "", recorder, recorder.hashes;
    }
    var lines := recorder.SanitizeLines(env, control, SplitLines(base));
    return JoinLines(lines), recorder, Unique(recorder.hashes);
  }

  lemma HashesOnce(found: seq<Finding>, more: seq<Finding>)
    ensures Hashes(found + more)[|Hashes(found)|..] == Hashes(more)
    ensures Unique(Unique(Hashes(found)) + Hashes(more)) == Unique(Hashes(found + more))
  {
    assert Hashes(found + more) == Hashes(found) + Hashes(more);
    UniqueAbsorbs(Hashes(found), Hashes(more));
  }

  /** `sanitize_prompt_context_text`: dropping duplicates twice is dropping them once. */
  method SanitizePromptContextText(env: Env, control: Filter, context: Filter, text: string)
    returns (sanitized: string, recorder: Recorder, hashes: seq<string>)
    ensures sanitized == PromptText(env, control, context, text) && fresh(recorder) && recorder.Valid()
    ensures recorder.found == PromptFindings(env, control, context, text)
    ensures hashes == if RedactedText(env, text) == "" then Hashes(recorder.found) else Unique(Hashes(recorder.found))
  {
    sanitized, recorder, hashes := SanitizeObservationText(env, control, text);
    if sanitized == "" {
      return;
    }
    HashesOnce(recorder.found, LineFindings(env, context, SplitLines(sanitized)));
    var already := |recorder.hashes|;
    var lines := recorder.SanitizeLines(env, context, SplitLines(sanitized));
    sanitized := JoinLines(lines);
    hashes := Unique(hashes + recorder.hashes[already..]);
  }

  // ---------- Non-interference ----------

  /** The two trees differ at most in texts whose nearest key is secret-like. */
  predicate Similar(env: Env, a: Tree, b: Tree, hint: string)
    decreases a
  {
    match a
    case Null => b.Null?
    case Scalar(_) => a == b
    case Text(_) => b.Text? && (Secret(env, hint) || a == b)
    case List(items) => b.List? && SimilarItems(env, items, b.items, hint)
    case Tuple(items) => b.Tuple? && SimilarItems(env, items, b.items, hint)
    case Dict(entries) => b.Dict? && SimilarEntries(env, entries, b.entries)
  }

  predicate SimilarItems(env: Env, a: seq<Tree>, b: seq<Tree>, hint: string)
    decreases a
  {
    |a| == |b| &&
    (a == [] || (SimilarItems(env, a[..|a| - 1], b[..|b| - 1], hint) && Similar(env, a[|a| - 1], b[|b| - 1], hint)))
  }

  predicate SimilarEntries(env: Env, a: seq<Entry>, b: seq<Entry>)
    decreases a
  {
    |a| == |b| &&
    (a == [] ||
     (var x, y := a[|a| - 1], b[|b| - 1];
      SimilarEntries(env, a[..|a| - 1], b[..|b| - 1]) && x.key == y.key && Similar(env, x.value, y.value, x.key)))
  }

  function Tags(findings: seq<Finding>): (tags: seq<string>)
    ensures |tags| == |findings| && forall i :: 0 <= i < |findings| ==> tags[i] == findings[i].tag
  {
    seq(|findings|, i requires 0 <= i < |findings| => findings[i].tag)
  }

  lemma TagsAppend(a: seq<Finding>, b: seq<Finding>, c: seq<Finding>, d: seq<Finding>)
    requires Tags(a) == Tags(c) && Tags(b) == Tags(d)
    ensures Tags(a + b) == Tags(c + d)
  {
    assert |a| == |Tags(a)| == |c| && |b| == |Tags(b)| == |d|;
    forall i | 0 <= i < |a + b| ensures (a + b)[i].tag == (c + d)[i].tag {
      if i < |a| {
        assert a[i].tag == Tags(a)[i] == c[i].tag;
      } else {
        assert b[i - |a|].tag == Tags(b)[i - |a|] == d[i - |a|].tag;
      }
    }
  }

  /** Trees that differ only in secrets give the same redacted tree and, kind by kind, the same findings. */
  lemma {:induction false} NonInterference(env: Env, a: Tree, b: Tree, hint: string)
    requires Similar(env, a, b, hint)
    ensures Redacted(env, a, hint) == Redacted(env, b, hint)
    ensures Tags(Found(env, a, hint)) == Tags(Found(env, b, hint))
    decreases a
  {
    match a
    case Null =>
    case Scalar(_) =>
    case Text(_) =>
    case List(items) => ItemsNonInterference(env, items, b.items, hint);
    case Tuple(items) => ItemsNonInterference(env, items, b.items, hint);
    case Dict(entries) => EntriesNonInterference(env, entries, b.entries);
  }

  lemma {:induction false} ItemsNonInterference(env: Env, a: seq<Tree>, b: seq<Tree>, hint: string)
    requires SimilarItems(env, a, b, hint)
    ensures RedactedItems(env, a, hint) == RedactedItems(env, b, hint)
    ensures Tags(FoundInItems(env, a, hint)) == Tags(FoundInItems(env, b, hint))
    decreases a
  {
    if a != [] {
      var x, y := a[|a| - 1], b[|b| - 1];
      var front, other := a[..|a| - 1], b[..|b| - 1];
      ItemsNonInterference(env, front, other, hint);
      NonInterference(env, x, y, hint);
      TagsAppend(FoundInItems(env, front, hint), Found(env, x, hint), FoundInItems(env, other, hint),
                 Found(env, y, hint));
    }
  }

  lemma {:induction false} EntriesNonInterference(env: Env, a: seq<Entry>, b: seq<Entry>)
    requires SimilarEntries(env, a, b)
    ensures RedactedEntries(env, a) == RedactedEntries(env, b)
    ensures Tags(FoundInEntries(env, a)) == Tags(FoundInEntries(env, b))
    decreases a
  {
    if a != [] {
      var x, y := a[|a| - 1], b[|b| - 1];
      var front, other := a[..|a| - 1], b[..|b| - 1];
      EntriesNonInterference(env, front, other);
      NonInterference(env, x.value, y.value, x.key);
      TagsAppend(FoundInEntries(env, front), Found(env, x.value, x.key), FoundInEntries(env, other),
                 Found(env, y.value, y.key));
    }
  }

  lemma {:induction false} CountsFromTags(a: seq<Finding>, b: seq<Finding>, tag: string)
    requires Tags(a) == Tags(b)
    ensures Count(a, tag) == Count(b, tag)
  {
    assert |a| == |Tags(a)| == |b|;
    if a != [] {
      assert a[|a| - 1].tag == Tags(a)[|a| - 1] == b[|a| - 1].tag;
      forall i | 0 <= i < |a| - 1 ensures a[i].tag == b[i].tag {
        assert a[i].tag == Tags(a)[i] == b[i].tag;
      }
      CountsFromTags(a[..|a| - 1], b[..|b| - 1], tag);
    }
  }

  /** The reports of two payloads that differ only in secrets are the same. */
  lemma ReportNonInterference(env: Env, a: Tree, b: Tree, hint: string, reportA: map<string, nat>,
                              reportB: map<string, nat>)
    requires Similar(env, a, b, hint)
    requires Reported(reportA, Found(env, a, hint)) && Reported(reportB, Found(env, b, hint))
    ensures reportA == reportB
  {
    NonInterference(env, a, b, hint);
    forall tag ensures tag in reportA <==> tag in reportB {
      CountsFromTags(Found(env, a, hint), Found(env, b, hint), tag);
    }
    forall tag | tag in reportA ensures reportA[tag] == reportB[tag] {
      CountsFromTags(Found(env, a, hint), Found(env, b, hint), tag);
    }
  }

  // ---------- What is left in a redacted tree ----------

  /** The text came out of `redact_text`. */
  ghost predicate CameOut(env: Env, text: string) {
    exists original :: text == RedactedText(env, original)
  }

  /** Every text whose nearest key is secret-like is that key's mask, and every other one came out of `redact_text`. */
  ghost predicate Masked(env: Env, tree: Tree, hint: string)
    decreases tree
  {
    match tree
    case Null => true
    case Scalar(_) => true
    case Text(text) => if Secret(env, hint) then text == Mask(env, hint) else CameOut(env, text)
    case List(items) => forall i :: 0 <= i < |items| ==> Masked(env, items[i], hint)
    case Tuple(items) => forall i :: 0 <= i < |items| ==> Masked(env, items[i], hint)
    case Dict(entries) => forall i :: 0 <= i < |entries| ==> Masked(env, entries[i].value, entries[i].key)
  }

  ghost predicate MaskedEntries(env: Env, entries: seq<Entry>) {
    forall i :: 0 <= i < |entries| ==> Masked(env, entries[i].value, entries[i].key)
  }

  lemma {:induction false} PutKeepsMasked(env: Env, entries: seq<Entry>, key: string, value: Tree)
    requires MaskedEntries(env, entries) && Masked(env, value, key)
    ensures MaskedEntries(env, Put(entries, key, value))
  {
    if entries != [] && entries[0].key != key {
      PutKeepsMasked(env, entries[1..], key, value);
    }
  }

  lemma {:induction false} RedactedIsMasked(env: Env, tree: Tree, hint: string)
    ensures Masked(env, Redacted(env, tree, hint), hint)
    decreases tree
  {
    match tree
    case Null =>
    case Scalar(_) =>
    case Text(_) =>
    case List(items) => ItemsAreMasked(env, items, hint);
    case Tuple(items) => ItemsAreMasked(env, items, hint);
    case Dict(entries) => EntriesAreMasked(env, entries);
  }

  lemma {:induction false} ItemsAreMasked(env: Env, items: seq<Tree>, hint: string)
    ensures forall i :: 0 <= i < |RedactedItems(env, items, hint)| ==>
            Masked(env, RedactedItems(env, items, hint)[i], hint)
    decreases items
  {
    if items != [] {
      ItemsAreMasked(env, items[..|items| - 1], hint);
      RedactedIsMasked(env, items[|items| - 1], hint);
    }
  }

  lemma {:induction false} EntriesAreMasked(env: Env, entries: seq<Entry>)
    ensures MaskedEntries(env, RedactedEntries(env, entries))
    decreases entries
  {
    if entries != [] {
      var last := entries[|entries| - 1];
      EntriesAreMasked(env, entries[..|entries| - 1]);
      RedactedIsMasked(env, last.value, last.key);
      PutKeepsMasked(env, RedactedEntries(env, entries[..|entries| - 1]), last.key,
                     Redacted(env, last.value, last.key));
    }
  }

  predicate IsLeaf(tree: Tree) {
    tree.Null? || tree.Scalar? || tree.Text?
  }

  /** Masking is for texts only: a leaf under a secret-like key becomes the mask if and only if it is a text, and stays
      readable otherwise. */
  lemma NumberStays(env: Env, leaf: Tree, hint: string)
    requires IsLeaf(leaf) && Secret(env, hint)
    ensures Redacted(env, leaf, hint) == Text(Mask(env, hint)) <==> leaf.Text?
    ensures !leaf.Text? ==> Redacted(env, leaf, hint) == leaf
  {
  }

  /** No dictionary of the tree has a key twice. */
  ghost predicate ProperKeys(tree: Tree)
    decreases tree
  {
    match tree
    case List(items) => forall i :: 0 <= i < |items| ==> ProperKeys(items[i])
    case Tuple(items) => forall i :: 0 <= i < |items| ==> ProperKeys(items[i])
    case Dict(entries) => DifferentKeys(entries) && forall i :: 0 <= i < |entries| ==> ProperKeys(entries[i].value)
    case _ => true
  }

  ghost predicate DifferentKeys(entries: seq<Entry>) {
    forall i, j :: 0 <= i < j < |entries| ==> entries[i].key != entries[j].key
  }

  /** The second tree has the shape and the keys of the first, and its leaves are the redacted ones. */
  predicate Leafwise(env: Env, a: Tree, b: Tree, hint: string)
    decreases a
  {
    match a
    case List(items) => b.List? && |b.items| == |items| && forall i :: 0 <= i < |items| ==>
      Leafwise(env, items[i], b.items[i], hint)
    case Tuple(items) => b.List? && |b.items| == |items| && forall i :: 0 <= i < |items| ==>
      Leafwise(env, items[i], b.items[i], hint)
    case Dict(entries) => b.Dict? && EntryWise(env, entries, b.entries)
    case _ => b == Redacted(env, a, hint)
  }

  predicate EntryWise(env: Env, a: seq<Entry>, b: seq<Entry>)
    decreases a
  {
    |b| == |a| && forall i :: 0 <= i < |a| ==> b[i].key == a[i].key && Leafwise(env, a[i].value, b[i].value, a[i].key)
  }

  lemma {:induction false} PutAppends(entries: seq<Entry>, key: string, value: Tree)
    requires forall i :: 0 <= i < |entries| ==> entries[i].key != key
    ensures Put(entries, key, value) == entries + [Entry(key, value)]
  {
    if entries != [] {
      PutAppends(entries[1..], key, value);
      assert entries + [Entry(key, value)] == [entries[0]] + (entries[1..] + [Entry(key, value)]);
    }
  }

  /** Redaction changes leaves only: nothing is added, dropped, reordered or renamed, whatever the nesting. */
  lemma {:induction false} RedactedIsLeafwise(env: Env, tree: Tree, hint: string)
    requires ProperKeys(tree)
    ensures Leafwise(env, tree, Redacted(env, tree, hint), hint)
    decreases tree
  {
    match tree
    case List(items) => ItemsAreLeafwise(env, items, hint);
    case Tuple(items) => ItemsAreLeafwise(env, items, hint);
    case Dict(entries) => EntriesAreLeafwise(env, entries);
    case _ =>
  }

  lemma {:induction false} ItemsAreLeafwise(env: Env, items: seq<Tree>, hint: string)
    requires forall i :: 0 <= i < |items| ==> ProperKeys(items[i])
    ensures |RedactedItems(env, items, hint)| == |items|
    ensures forall i :: 0 <= i < |items| ==> Leafwise(env, items[i], RedactedItems(env, items, hint)[i], hint)
    decreases items
  {
    if items != [] {
      var front, last := items[..|items| - 1], items[|items| - 1];
      ItemsAreLeafwise(env, front, hint);
      RedactedIsLeafwise(env, last, hint);
      var redacted := RedactedItems(env, items, hint);
      assert redacted == RedactedItems(env, front, hint) + [Redacted(env, last, hint)];
      forall i | 0 <= i < |items| ensures Leafwise(env, items[i], redacted[i], hint) {
        if i < |front| {
          assert front[i] == items[i] && redacted[i] == RedactedItems(env, front, hint)[i];
        }
      }
    }
  }

  lemma {:induction false} EntriesAreLeafwise(env: Env, entries: seq<Entry>)
    requires DifferentKeys(entries) && forall i :: 0 <= i < |entries| ==> ProperKeys(entries[i].value)
    ensures EntryWise(env, entries, RedactedEntries(env, entries))
    decreases entries
  {
    if entries != [] {
      var front, last := entries[..|entries| - 1], entries[|entries| - 1];
      EntriesAreLeafwise(env, front);
      RedactedIsLeafwise(env, last.value, last.key);
      forall i | 0 <= i < |front| ensures RedactedEntries(env, front)[i].key != last.key {
        assert front[i].key == entries[i].key;
      }
      PutAppends(RedactedEntries(env, front), last.key, Redacted(env, last.value, last.key));
      EntryWiseGrows(env, front, RedactedEntries(env, front), last, Redacted(env, last.value, last.key));
      assert entries == front + [last];
    }
  }

  lemma EntryWiseGrows(env: Env, a: seq<Entry>, b: seq<Entry>, entry: Entry, value: Tree)
    requires EntryWise(env, a, b) && Leafwise(env, entry.value, value, entry.key)
    ensures EntryWise(env, a + [entry], b + [Entry(entry.key, value)])
  {
  }

  // ---------- Conservation ----------

  /** The counts of a report add up to the number of findings: one hash, before duplicates go, for every count. */
  lemma {:induction false} ReportAddsUp(report: map<string, nat>, findings: seq<Finding>)
    requires Reported(report, findings)
    ensures Sum(report) == |findings| == |Hashes(findings)|
  {
    if findings == [] {
      assert report == map[];
    } else {
      var front, tag := findings[..|findings| - 1], findings[|findings| - 1].tag;
      var before := if report[tag] == 1 then report - {tag} else report[tag := report[tag] - 1];
      ReportAddsUp(before, front);
      if report[tag] == 1 {
        assert report == before[tag := 1];
        SumInsert(before, tag, 1);
      } else {
        assert report == before[tag := report[tag]];
        SumUpdate(before, tag, report[tag]);
      }
    }
  }

  // ---------- The texts that come out ----------

  /** The placeholder of `other` is one line, and `filter` does not catch it. */
  predicate LeavesAlone(env: Env, filter: Filter, other: Filter) {
    OneLine(other.placeholder) && !Caught(env, filter, other.placeholder)
  }

  /** Joining and splitting filtered lines keeps them clean. */
  lemma JoinedIsClean(env: Env, filter: Filter, other: Filter, lines: seq<string>)
    requires AllOneLine(lines) && OneLine(other.placeholder) && Clean(env, filter, Filtered(env, other, lines))
    ensures Clean(env, filter, SplitLines(JoinLines(Filtered(env, other, lines))))
  {
    var filtered := Filtered(env, other, lines);
    forall i | 0 <= i < |filtered| ensures OneLine(filtered[i]) {
      assert filtered[i] == Kept(env, other, lines[i]);
    }
    SplitJoin(filtered);
  }

  /** One pass over a text leaves it clean for its own filter and for every filter that it was clean for. */
  lemma PassIsClean(env: Env, filter: Filter, other: Filter, text: string)
    requires LeavesAlone(env, filter, other)
    requires filter == other || Clean(env, filter, SplitLines(text))
    ensures Clean(env, filter, SplitLines(JoinLines(Filtered(env, other, SplitLines(text)))))
  {
    SplitIsOneLine(text);
    if filter == other {
      FilteredIsClean(env, filter, SplitLines(text));
    } else {
      OtherFilterKeepsClean(env, filter, other, SplitLines(text));
    }
    JoinedIsClean(env, filter, other, SplitLines(text));
  }

  /** No line of a redacted text is instructional. */
  lemma RedactedTextIsClean(env: Env, text: string)
    requires LeavesAlone(env, env.instructional, env.instructional)
    ensures Clean(env, env.instructional, SplitLines(RedactedText(env, text)))
  {
    if text == "" {
      assert SplitLines("") == [];
    } else {
      PassIsClean(env, env.instructional, env.instructional, Rewritten(env.rules, text));
    }
  }

  /** No line of a sanitised observation is caught by either of its filters. */
  lemma ObservationIsClean(env: Env, filter: Filter, control: Filter, text: string)
    requires filter == env.instructional || filter == control
    requires LeavesAlone(env, filter, env.instructional) && LeavesAlone(env, filter, control)
    ensures Clean(env, filter, SplitLines(ObservationText(env, control, text)))
  {
    var base := RedactedText(env, text);
    if base == "" {
      assert SplitLines("") == [];
    } else {
      if filter == env.instructional {
        RedactedTextIsClean(env, text);
      }
      PassIsClean(env, filter, control, base);
    }
  }

  /** No line of a sanitised prompt text is caught by any of the three filters. */
  lemma PromptTextIsClean(env: Env, filter: Filter, control: Filter, context: Filter, text: string)
    requires filter == env.instructional || filter == control || filter == context
    requires LeavesAlone(env, filter, env.instructional) && LeavesAlone(env, filter, control)
             && LeavesAlone(env, filter, context)
    ensures Clean(env, filter, SplitLines(PromptText(env, control, context, text)))
  {
    var base := ObservationText(env, control, text);
    if base == "" {
      assert SplitLines("") == [];
    } else {
      if filter != context {
        ObservationIsClean(env, filter, control, text);
      }
      PassIsClean(env, filter, context, base);
    }
  }
}
