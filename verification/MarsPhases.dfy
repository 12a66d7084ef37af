/** The phases of a MARS run: which one comes next, and what whole traces look like. */
module MarsPhases {
  import opened Options

  datatype Phase = Architect | Executor | Verify | Repair | Review | ReviewRepair | ReReview

  /** How a phase ended; `changes` says whether a review asked for changes. */
  datatype Result = Exit(code: int, changes: bool) | Skipped | Crash
  datatype Step = Step(phase: Phase, result: Result)

  datatype Settings = Settings(repairRounds: nat, reviewRounds: nat, requireArchitect: bool, hasTests: bool)

  predicate Clean(result: Result) {
    result.Exit? && result.code == 0
  }

  /** A phase run by Codex. */
  predicate Codex(phase: Phase) {
    phase.Executor? || phase.Repair? || phase.ReviewRepair?
  }

  function Count(trace: seq<Step>, phase: Phase): nat {
    if trace == [] then 0
    else Count(trace[..|trace| - 1], phase) + if trace[|trace| - 1].phase == phase then 1 else 0
  }

  /** The phase that follows a trace, if no stop and no policy error comes between. */
  function NextPhase(s: Settings, trace: seq<Step>): Option<Phase> {
    if trace == [] then Some(Architect)
    else
      var Step(phase, result) := trace[|trace| - 1];
      match phase
      case Architect => if result.Crash? && s.requireArchitect then None else Some(Executor)
      case Executor => if Clean(result) then Some(Verify) else None
      case Repair => if Clean(result) then Some(Verify) else None
      case ReviewRepair => if !Clean(result) then None else if s.hasTests then Some(Verify) else Some(ReReview)
      case Verify =>
        if result.Crash? then None
        else if Count(trace, Review) > 0 then Some(ReReview)
        else if result.Skipped? || Clean(result) || Count(trace, Repair) >= s.repairRounds then Some(Review)
        else Some(Repair)
      case Review => if Clean(result) && result.changes && s.reviewRounds > 0 then Some(ReviewRepair) else None
      case ReReview =>
        if result.Exit? && result.changes && Count(trace, ReviewRepair) < s.reviewRounds then Some(ReviewRepair)
          else None
  }

  /** Every phase of the trace was the one that had to come next. */
  predicate Planned(s: Settings, trace: seq<Step>) {
    trace == [] ||
    (Planned(s, trace[..|trace| - 1]) && NextPhase(s, trace[..|trace| - 1]) == Some(trace[|trace| - 1].phase))
  }

  /** The trace went through its last review. */
  predicate Completes(s: Settings, trace: seq<Step>) {
    trace != [] && (trace[|trace| - 1].phase.Review? || trace[|trace| - 1].phase.ReReview?) && NextPhase(s, trace).None?
  }

  // ---------- The language of traces ----------

  function Power(word: seq<Phase>, n: nat): seq<Phase> {
    if n == 0 then [] else Power(word, n - 1) + word
  }

  function ReviewRound(s: Settings): seq<Phase> {
    if s.hasTests then [ReviewRepair, Verify, ReReview] else [ReviewRepair, ReReview]
  }

  /** architect, executor, verify, (repair verify)^i, review, (review repair [verify] review)^j */
  function Word(s: Settings, i: nat, j: nat): seq<Phase> {
    [Architect, Executor, Verify] + Power([Repair, Verify], i) + [Review] + Power(ReviewRound(s), j)
  }

  function Phases(trace: seq<Step>): seq<Phase> {
    if trace == [] then [] else Phases(trace[..|trace| - 1]) + [trace[|trace| - 1].phase]
  }

  /** The phases of a trace with `i` repairs and `j` review repairs that ends with `last`. */
  function Form(s: Settings, last: Phase, i: nat, j: nat, reviewed: bool): seq<Phase> {
    match last
    case Architect => [Architect]
    case Executor => [Architect, Executor]
    case Repair => [Architect, Executor, Verify] + Power([Repair, Verify], if i > 0 then i - 1 else 0) + [Repair]
    case Review => Word(s, i, 0)
    case ReviewRepair => Word(s, i, if j > 0 then j - 1 else 0) + [ReviewRepair]
    case ReReview => Word(s, i, j)
    case Verify =>
      if reviewed then Word(s, i, if j > 0 then j - 1 else 0) + [ReviewRepair, Verify]
      else [Architect, Executor, Verify] + Power([Repair, Verify], i)
  }

  /** What the counts of a planned trace satisfy, by its last phase. */
  predicate Counted(s: Settings, last: Phase, i: nat, j: nat, r: nat) {
    && i <= s.repairRounds && j <= s.reviewRounds
    && match last
       case Architect => i == j == r == 0
       case Executor => i == j == r == 0
       case Repair => i > 0 && j == r == 0
       case Review => j == 0 && r == 1
       case ReviewRepair => j > 0 && r == 1
       case ReReview => j > 0 && r == 1
       case Verify => if r == 0 then j == 0 else r == 1 && j > 0 && s.hasTests
  }

  ghost predicate Formed(s: Settings, trace: seq<Step>) {
    trace != [] ==>
      var last, i, j, r := trace[|trace| - 1].phase, Count(trace, Repair), Count(trace, ReviewRepair),
        Count(trace, Review);
      Counted(s, last, i, j, r) && Phases(trace) == Form(s, last, i, j, r > 0)
  }

  /** One more phase makes the form one phase longer. */
  lemma FormGrows(s: Settings, last: Step, next: Phase, i: nat, j: nat, r: nat)
    requires Counted(s, last.phase, i, j, r)
    requires match next
             case Architect => false
             case Executor => last.phase.Architect?
             case Repair => last.phase.Verify? && r == 0 && i < s.repairRounds
             case ReviewRepair => (last.phase.Review? || last.phase.ReReview?) && j < s.reviewRounds
             case Verify => last.phase.Executor? || last.phase.Repair? || (last.phase.ReviewRepair? && s.hasTests)
             case Review => last.phase.Verify? && r == 0
             case ReReview => (last.phase.Verify? && r > 0) || (last.phase.ReviewRepair? && !s.hasTests)
    ensures var i', j', r' := if next.Repair? then i + 1 else i, if next.ReviewRepair? then j + 1 else j,
                              if next.Review? then r + 1 else r;
            Counted(s, next, i', j', r') && Form(s, next, i', j', r' > 0) == Form(s, last.phase, i, j, r > 0) + [next]
  {
    var start := [Architect, Executor, Verify];
    match next
    case Executor =>
    case Repair =>
    case ReviewRepair =>
    case Verify =>
      if last.phase.Repair? {
        assert Power([Repair, Verify], i) == Power([Repair, Verify], i - 1) + [Repair, Verify];
        assert start + Power([Repair, Verify], i - 1) + [Repair] + [Verify] ==
               start + (Power([Repair, Verify], i - 1) + [Repair, Verify]);
      } else if last.phase.ReviewRepair? {
        assert Word(s, i, j - 1) + [ReviewRepair] + [Verify] == Word(s, i, j - 1) + [ReviewRepair, Verify];
      }
    case Review =>
      assert Word(s, i, 0) == start + Power([Repair, Verify], i) + [Review];
    case ReReview =>
      var head := start + Power([Repair, Verify], i) + [Review];
      assert Power(ReviewRound(s), j) == Power(ReviewRound(s), j - 1) + ReviewRound(s);
      assert head + (Power(ReviewRound(s), j - 1) + ReviewRound(s)) == head + Power(ReviewRound(s), j - 1) +
             ReviewRound(s);
  }

  lemma {:induction false} PlannedFormed(s: Settings, trace: seq<Step>)
    requires Planned(s, trace)
    ensures Formed(s, trace)
  {
    if trace != [] {
      var front, last := trace[..|trace| - 1], trace[|trace| - 1];
      PlannedFormed(s, front);
      if front != [] {
        FormGrows(s, front[|front| - 1], last.phase, Count(front, Repair), Count(front, ReviewRepair),
                  Count(front, Review));
      }
    }
  }

  /** Every run follows the grammar, within its configured numbers of rounds. */
  lemma TraceGrammar(s: Settings, trace: seq<Step>)
    requires Planned(s, trace)
    ensures Count(trace, Repair) <= s.repairRounds && Count(trace, ReviewRepair) <= s.reviewRounds
    ensures Phases(trace) <= Word(s, Count(trace, Repair), Count(trace, ReviewRepair))
  {
    if trace != [] {
      PlannedFormed(s, trace);
      FormIsPrefix(s, trace[|trace| - 1].phase, Count(trace, Repair), Count(trace, ReviewRepair), Count(trace, Review));
    }
  }

  lemma FormIsPrefix(s: Settings, last: Phase, i: nat, j: nat, r: nat)
    requires Counted(s, last, i, j, r)
    ensures Form(s, last, i, j, r > 0) <= Word(s, i, j)
  {
    if last.Repair? {
      assert Power([Repair, Verify], i) == Power([Repair, Verify], i - 1) + [Repair, Verify];
    }
    if j > 0 {
      assert Word(s, i, j) == Word(s, i, j - 1) + ReviewRound(s);
    }
  }

  lemma {:induction false} RepairsSize(n: nat)
    ensures |Power([Repair, Verify], n)| == 2 * n
  {
    if n > 0 {
      RepairsSize(n - 1);
    }
  }

  lemma {:induction false} ReviewRoundsSize(s: Settings, n: nat)
    ensures |Power(ReviewRound(s), n)| <= 3 * n
  {
    if n > 0 {
      ReviewRoundsSize(s, n - 1);
      assert |ReviewRound(s)| <= 3;
    }
  }

  lemma {:induction false} PhasesSize(trace: seq<Step>)
    ensures |Phases(trace)| == |trace|
  {
    if trace != [] {
      PhasesSize(trace[..|trace| - 1]);
    }
  }

  lemma TraceBound(s: Settings, trace: seq<Step>)
    requires Planned(s, trace)
    ensures |trace| <= 4 + 2 * s.repairRounds + 3 * s.reviewRounds
  {
    var i, j := Count(trace, Repair), Count(trace, ReviewRepair);
    TraceGrammar(s, trace);
    PhasesSize(trace);
    RepairsSize(i);
    ReviewRoundsSize(s, j);
    assert |Word(s, i, j)| == 4 + |Power([Repair, Verify], i)| + |Power(ReviewRound(s), j)|;
  }

  /** When a review leads to a repair: it asked for changes, rounds are left, and, unlike a later one, a first review
      must also have exited 0. */
  lemma ReviewLeads(s: Settings, trace: seq<Step>)
    requires Planned(s, trace) && trace != []
    requires trace[|trace| - 1].phase.Review? || trace[|trace| - 1].phase.ReReview?
    ensures var Step(phase, result) := trace[|trace| - 1];
            NextPhase(s, trace) == Some(ReviewRepair) <==>
            result.Exit? && result.changes && Count(trace, ReviewRepair) < s.reviewRounds &&
              (phase.Review? ==> result.code == 0)
  {
    PlannedFormed(s, trace);
  }

  /** So a review whose process failed is disregarded the first time and counts later: with the same result, the first
      review of a run ends it and the second starts another repair. */
  lemma FailedReReviewCounts(s: Settings)
    requires s.reviewRounds >= 2 && !s.hasTests
    ensures var failed := Exit(1, true);
            var before := [Step(Architect, Exit(0, false)), Step(Executor, Exit(0, false)), Step(Verify, Skipped)];
            var repaired := [Step(Review, Exit(0, true)), Step(ReviewRepair, Exit(0, false))];
            && Planned(s, before + [Step(Review, failed)]) && NextPhase(s, before + [Step(Review, failed)]) == None
            && Planned(s, before + repaired + [Step(ReReview, failed)])
            && NextPhase(s, before + repaired + [Step(ReReview, failed)]) == Some(ReviewRepair)
  {
    var ok, failed, changes := Exit(0, false), Exit(1, true), Exit(0, true);
    var one := [] + [Step(Architect, ok)];
    PlanGrows(s, [], Step(Architect, ok));
    var two := one + [Step(Executor, ok)];
    PlanGrows(s, one, Step(Executor, ok));
    var three := two + [Step(Verify, Skipped)];
    PlanGrows(s, two, Step(Verify, Skipped));
    PlanGrows(s, three, Step(Review, failed));
    var reviewed := three + [Step(Review, changes)];
    PlanGrows(s, three, Step(Review, changes));
    var repaired := reviewed + [Step(ReviewRepair, ok)];
    PlanGrows(s, reviewed, Step(ReviewRepair, ok));
    PlanGrows(s, repaired, Step(ReReview, failed));
    assert three == [Step(Architect, ok), Step(Executor, ok), Step(Verify, Skipped)];
    assert repaired == three + [Step(Review, changes), Step(ReviewRepair, ok)];
  }

  lemma PlanGrows(s: Settings, trace: seq<Step>, step: Step)
    requires Planned(s, trace) && NextPhase(s, trace) == Some(step.phase)
    ensures Planned(s, trace + [step])
    ensures forall phase :: Count(trace + [step], phase) == Count(trace, phase) + if step.phase == phase then 1 else 0
  {
    assert (trace + [step])[..|trace|] == trace;
  }
}
