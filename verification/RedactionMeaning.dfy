/** What redaction takes out of a text and out of every place of a tree, told without the functions that compute it. */
module RedactionMeaning {
  import opened Options
  import opened Redaction
  import opened TextLines

  // ---------- The rules ----------

  /** The text before and after every rule. */
  ghost predicate Stages(rules: seq<Rule>, text: string, stages: seq<string>) {
    && |stages| == |rules| + 1 && stages[0] == text
    && forall k :: 0 <= k < |rules| ==> stages[k + 1] == rules[k].rewrite(stages[k])
  }

  /** The rules run in their order, each on what the ones before left. */
  lemma {:induction false} RulesRunInOrder(rules: seq<Rule>, text: string, stages: seq<string>)
    requires Stages(rules, text, stages)
    ensures Rewritten(rules, text) == stages[|rules|]
  {
    if rules != [] {
      RulesRunInOrder(rules[..|rules| - 1], text, stages[..|rules|]);
    }
  }

  lemma NextRule(env: Env, front: seq<Rule>, rule: Rule, text: string, left: string)
    requires left == Rewritten(front, text)
    ensures RuleFindings(env, front + [rule], text) == RuleFindings(env, front, text) +
                                                       RuleHits(env, rule, rule.matches(left))
  {
    assert (front + [rule])[..|front|] == front;
  }

  /** Every match of every rule, on the text that the rules before it left, is recorded under its label and hash. */
  lemma MatchesAreRecorded(env: Env, rules: seq<Rule>, text: string, stages: seq<string>, k: nat)
    requires Stages(rules, text, stages) && k < |rules|
    ensures RuleFindings(env, [], text) == []
    ensures var before, after := RuleFindings(env, rules[..k], text), RuleFindings(env, rules[..k + 1], text);
            var values := rules[k].matches(stages[k]);
            && before <= after && |after| == |before| + |values|
            && forall i :: 0 <= i < |values| ==>
                 after[|before| + i].tag == rules[k].tag && after[|before| + i].hash == env.hash(values[i])
  {
    assert rules[..k + 1] == rules[..k] + [rules[k]];
    RulesRunInOrder(rules[..k], text, stages[..k + 1]);
    NextRule(env, rules[..k], rules[k], text, stages[k]);
    HitsAreAll(env, rules[k], rules[k].matches(stages[k]));
  }

  lemma {:induction false} HitsAreAll(env: Env, rule: Rule, values: seq<string>)
    ensures |RuleHits(env, rule, values)| == |values|
    ensures forall i :: 0 <= i < |values| ==> RuleHits(env, rule, values)[i] == Finding(rule.tag, env.hash(values[i]))
  {
    if values != [] {
      HitsAreAll(env, rule, values[..|values| - 1]);
    }
  }

  /** The rule finds nothing in what it has rewritten. */
  ghost predicate Settles(rule: Rule) {
    forall text :: rule.matches(rule.rewrite(text)) == []
  }

  /** Where the other rule finds nothing, it finds nothing either after this one. */
  ghost predicate Spares(rule: Rule, other: Rule) {
    forall text :: other.matches(text) == [] ==> other.matches(rule.rewrite(text)) == []
  }

  /** Rules that settle their own matches and spare those of the others. */
  ghost predicate Thorough(rules: seq<Rule>) {
    && (forall i :: 0 <= i < |rules| ==> Settles(rules[i]))
    && forall i, j :: 0 <= i < |rules| && 0 <= j < |rules| ==> Spares(rules[i], rules[j])
  }

  /** No rule finds anything in the rewritten text: every secret that a pattern knows was taken out. */
  lemma {:induction false} NoMatchIsLeft(rules: seq<Rule>, text: string, i: nat)
    requires Thorough(rules) && i < |rules|
    ensures rules[i].matches(Rewritten(rules, text)) == []
  {
    var front, last := rules[..|rules| - 1], rules[|rules| - 1];
    assert Settles(last);
    if i < |front| {
      NoMatchIsLeft(front, text, i);
      assert front[i] == rules[i] && Spares(last, rules[i]);
    }
  }

  // ---------- Texts ----------

  /** What the rule does not find in a text it does not find either when lines of the text become the placeholder. */
  ghost predicate Robust(rule: Rule, placeholder: string) {
    forall text, lines | rule.matches(text) == [] && Placed(SplitLines(text), lines, placeholder) ::
      rule.matches(JoinLines(lines)) == []
  }

  /** The second lines are the first ones, some of them replaced. */
  ghost predicate Placed(lines: seq<string>, placed: seq<string>, placeholder: string) {
    |placed| == |lines| && forall i :: 0 <= i < |lines| ==> placed[i] == lines[i] || placed[i] == placeholder
  }

  lemma PassHoldsNoMatch(env: Env, rule: Rule, filter: Filter, text: string)
    requires rule.matches(text) == [] && Robust(rule, filter.placeholder)
    ensures rule.matches(JoinLines(Filtered(env, filter, SplitLines(text)))) == []
  {
    var lines := SplitLines(text);
    var placed := Filtered(env, filter, lines);
    forall i | 0 <= i < |lines| ensures placed[i] == lines[i] || placed[i] == filter.placeholder {
      assert placed[i] == Kept(env, filter, lines[i]);
    }
    assert Placed(lines, placed, filter.placeholder);
  }

  /** So no pattern finds anything in a text that came out of `redact_text`. */
  lemma RedactedHoldsNoMatch(env: Env, text: string, i: nat)
    requires Thorough(env.rules) && i < |env.rules| && Robust(env.rules[i], env.instructional.placeholder)
    requires env.rules[i].matches("") == []
    ensures env.rules[i].matches(RedactedText(env, text)) == []
  {
    if text != "" {
      NoMatchIsLeft(env.rules, text, i);
      PassHoldsNoMatch(env, env.rules[i], env.instructional, Rewritten(env.rules, text));
    }
  }

  /** Nor in a sanitised observation, nor in a sanitised prompt text. */
  lemma SanitizedHoldsNoMatch(env: Env, control: Filter, context: Filter, text: string, i: nat)
    requires Thorough(env.rules) && i < |env.rules| && Robust(env.rules[i], env.instructional.placeholder)
    requires Robust(env.rules[i], control.placeholder) && Robust(env.rules[i], context.placeholder)
    requires env.rules[i].matches("") == []
    ensures env.rules[i].matches(ObservationText(env, control, text)) == []
    ensures env.rules[i].matches(PromptText(env, control, context, text)) == []
  {
    RedactedHoldsNoMatch(env, text, i);
    PassHoldsNoMatch(env, env.rules[i], control, RedactedText(env, text));
    PassHoldsNoMatch(env, env.rules[i], context, ObservationText(env, control, text));
  }

  /** The lines of a text after one pass of a filter. */
  ghost predicate Passed(env: Env, filter: Filter, before: seq<string>, after: seq<string>) {
    && |after| == |before|
    && forall i :: 0 <= i < |before| ==>
         var line := env.strip(before[i]);
         after[i] == if line != "" && filter.search(line) then filter.placeholder else before[i]
  }

  /** Each sanitised text is the one before it, line by line: the redacted text for an observation, and that for a
      prompt text.  What is recorded is what was recorded before and the lines that this pass caught. */
  lemma SanitizedLineByLine(env: Env, control: Filter, context: Filter, text: string)
    returns (observed: seq<string>, prompted: seq<string>)
    ensures Passed(env, control, SplitLines(RedactedText(env, text)), observed)
    ensures ObservationText(env, control, text) == JoinLines(observed)
    ensures Passed(env, context, SplitLines(JoinLines(observed)), prompted)
    ensures PromptText(env, control, context, text) == JoinLines(prompted)
    ensures ObservationFindings(env, control, text) ==
            TextFindings(env, text) + LineFindings(env, control, SplitLines(RedactedText(env, text)))
    ensures PromptFindings(env, control, context, text) ==
            ObservationFindings(env, control, text) + LineFindings(env, context, SplitLines(JoinLines(observed)))
  {
    observed := Filtered(env, control, SplitLines(RedactedText(env, text)));
    prompted := Filtered(env, context, SplitLines(JoinLines(observed)));
    FilteredPasses(env, control, SplitLines(RedactedText(env, text)));
    FilteredPasses(env, context, SplitLines(JoinLines(observed)));
  }

  lemma FilteredPasses(env: Env, filter: Filter, lines: seq<string>)
    ensures Passed(env, filter, lines, Filtered(env, filter, lines))
  {
    forall i | 0 <= i < |lines| ensures Filtered(env, filter, lines)[i] == Kept(env, filter, lines[i]) {
    }
  }

  /** And the redacted text is, line by line, the one that the rules left. */
  lemma RedactedLineByLine(env: Env, text: string, stages: seq<string>) returns (lines: seq<string>)
    requires Stages(env.rules, text, stages) && text != ""
    ensures Passed(env, env.instructional, SplitLines(stages[|env.rules|]), lines)
    ensures RedactedText(env, text) == JoinLines(lines)
  {
    RulesRunInOrder(env.rules, text, stages);
    FilteredPasses(env, env.instructional, SplitLines(stages[|env.rules|]));
    lines := Filtered(env, env.instructional, SplitLines(stages[|env.rules|]));
  }

  /** A text without any match and without a caught line only has its line breaks made uniform, and nothing is
      recorded. */
  lemma HarmlessStays(env: Env, text: string)
    requires forall i :: 0 <= i < |env.rules| ==> env.rules[i].matches(text) == [] && env.rules[i].rewrite(text) == text
    requires forall i :: 0 <= i < |SplitLines(text)| ==>
               var line := env.strip(SplitLines(text)[i]); line == "" || !env.instructional.search(line)
    ensures RedactedText(env, text) == JoinLines(SplitLines(text)) && TextFindings(env, text) == []
  {
    RulesLeave(env, env.rules, text);
    assert Clean(env, env.instructional, SplitLines(text));
    FilterIsIdempotent(env, env.instructional, SplitLines(text));
  }

  lemma {:induction false} RulesLeave(env: Env, rules: seq<Rule>, text: string)
    requires forall i :: 0 <= i < |rules| ==> rules[i].matches(text) == [] && rules[i].rewrite(text) == text
    ensures Rewritten(rules, text) == text && RuleFindings(env, rules, text) == []
  {
    if rules != [] {
      RulesLeave(env, rules[..|rules| - 1], text);
    }
  }

  /** Exactly the lines whose stripped form the filter knows are recorded, in order and by the hash of that form. */
  lemma {:induction false} CaughtAreRecorded(env: Env, filter: Filter, lines: seq<string>) returns (places: seq<nat>)
    ensures |places| == |LineFindings(env, filter, lines)|
    ensures forall i, j :: 0 <= i < j < |places| ==> places[i] < places[j]
    ensures forall i :: 0 <= i < |places| ==>
              places[i] < |lines| &&
              LineFindings(env, filter, lines)[i] == Finding(filter.tag, env.hash(env.strip(lines[places[i]])))
    ensures forall n: nat :: n in places <==>
              n < |lines| && env.strip(lines[n]) != "" && filter.search(env.strip(lines[n]))
  {
    if lines == [] {
      places := [];
    } else {
      var front, last := lines[..|lines| - 1], lines[|lines| - 1];
      places := CaughtAreRecorded(env, filter, front);
      forall n: nat ensures n in places <==>
        n < |front| && env.strip(lines[n]) != "" && filter.search(env.strip(lines[n]))
      {
      }
      if env.strip(last) != "" && filter.search(env.strip(last)) {
        places := places + [|front|];
      }
    }
  }

  /** A text is recorded by its rules first and then by its lines; an empty one is not looked at. */
  lemma BothAreRecorded(env: Env, text: string, stages: seq<string>)
    requires Stages(env.rules, text, stages)
    ensures text == "" ==> TextFindings(env, text) == [] && RedactedText(env, text) == ""
    ensures text != "" ==>
              && RuleFindings(env, env.rules, text) <= TextFindings(env, text)
              && TextFindings(env, text)[|RuleFindings(env, env.rules, text)|..] ==
                 LineFindings(env, env.instructional, SplitLines(stages[|env.rules|]))
              && RedactedText(env, text) == JoinLines(Filtered(env, env.instructional, SplitLines(stages[|env.rules|])))
  {
    RulesRunInOrder(env.rules, text, stages);
  }
}
