/** What follows each event of a MARS run that is over, and so what its whole log looks like. */
module MarsRuns {
  import opened Options
  import opened MarsPhases
  import opened MarsLog

  /** What came of process `at`: how it exited, if it could be run. */
  predicate Came(env: Env, at: nat, result: Result) {
    if env.result(at).Exit? then result == env.result(at) else result == Crash
  }

  /** A log that is over ends at an event exactly if nothing was due after it. */
  lemma EndsAt(s: Settings, env: Env, kept: bool, prepared: nat, log: seq<Event>, i: nat)
    requires Lawful(s, env, kept, prepared, log) && Over(Due(s, log)) && i < |log|
    ensures i + 1 == |log| <==> Over(DueAfter(s, Steps(log[..i + 1]), log[i]))
    ensures i + 1 == |log| ==> Due(s, log) == DueAfter(s, Steps(log[..i + 1]), log[i])
    ensures i + 1 < |log| ==> Does(log[i + 1], DueAfter(s, Steps(log[..i + 1]), log[i])) &&
                              Shown(s, env, kept, prepared, log[i + 1], prepared + i + 1)
  {
    assert Due(s, log[..i + 1]) == DueAfter(s, Steps(log[..i + 1]), log[i]);
    if i + 1 < |log| {
      NotOverYet(s, env, kept, prepared, log, i + 1);
      assert Fits(s, env, kept, prepared, log, i + 1);
    } else {
      assert log[..i + 1] == log;
    }
  }

  lemma StepsSoFar(log: seq<Event>, i: nat)
    requires i < |log|
    ensures Steps(log[..i + 1]) == Steps(log[..i]) + if log[i].Ran? then [log[i].step] else []
  {
    assert log[..i + 1][..i] == log[..i];
  }

  /** The workspace is looked at first; a refused one is the end, an accepted one lets the architect run. */
  lemma AfterAdmission(s: Settings, env: Env, kept: bool, prepared: nat, log: seq<Event>)
    requires Lawful(s, env, kept, prepared, log) && Over(Due(s, log))
    ensures log != [] && log[0] == Admitted(!env.rejected)
    ensures |log| == 1 <==> env.rejected
    ensures env.rejected ==> Due(s, log).Raise?
    ensures !env.rejected ==> log[1].Ran? && log[1].step.phase.Architect? && Came(env, prepared + 1, log[1].step.result)
  {
    assert Fits(s, env, kept, prepared, log, 0);
    EndsAt(s, env, kept, prepared, log, 0);
    StepsSoFar(log, 0);
  }

  /** A broken architect ends the run exactly if one is required. */
  lemma AfterArchitect(s: Settings, env: Env, kept: bool, prepared: nat, log: seq<Event>)
    requires Lawful(s, env, kept, prepared, log) && Over(Due(s, log)) && !env.rejected
    ensures |log| == 2 <==> s.requireArchitect && !env.result(prepared + 1).Exit?
    ensures |log| == 2 ==> Due(s, log).Raise?
    ensures |log| > 2 ==> log[2].Checked?
  {
    AfterAdmission(s, env, kept, prepared, log);
    EndsAt(s, env, kept, prepared, log, 1);
    StepsSoFar(log, 1);
  }

  /** A Codex phase that did not exit with 0 ends the run; after any other the stop flag is read. */
  lemma AfterCodex(s: Settings, env: Env, kept: bool, prepared: nat, log: seq<Event>, i: nat)
    requires Lawful(s, env, kept, prepared, log) && Over(Due(s, log)) && i < |log| && log[i].Ran?
    requires log[i].step.phase.Executor? || log[i].step.phase.Repair? || log[i].step.phase.ReviewRepair?
    ensures Came(env, prepared + i, log[i].step.result)
    ensures i + 1 == |log| <==> !(env.result(prepared + i).Exit? && env.result(prepared + i).code == 0)
    ensures i + 1 == |log| ==> Due(s, log).Raise?
    ensures i + 1 < |log| ==> log[i + 1].Checked?
  {
    assert Fits(s, env, kept, prepared, log, i);
    EndsAt(s, env, kept, prepared, log, i);
    StepsSoFar(log, i);
  }

  /**
    A verification is skipped where there are no tests, and ends the run if its command cannot be run.  Before the
    first review one that failed is repaired as long as rounds are left; else git is read for the next review.
   */
  lemma AfterVerify(s: Settings, env: Env, kept: bool, prepared: nat, log: seq<Event>, i: nat)
    requires Lawful(s, env, kept, prepared, log) && Over(Due(s, log)) && i < |log| && log[i].Ran?
    requires log[i].step.phase.Verify?
    ensures if s.hasTests then Came(env, prepared + i, log[i].step.result) else log[i].step.result.Skipped?
    ensures i + 1 == |log| <==> s.hasTests && !env.result(prepared + i).Exit?
    ensures i + 1 == |log| ==> Due(s, log).Raise?
    ensures i + 1 < |log| ==>
              var trace := Steps(log[..i]);
              if s.hasTests && env.result(prepared + i).code != 0 && Count(trace, Review) == 0 &&
                 Count(trace, Repair) < s.repairRounds
              then log[i + 1].Ran? && log[i + 1].step.phase.Repair? else log[i + 1].GitRead?
  {
    assert Fits(s, env, kept, prepared, log, i);
    EndsAt(s, env, kept, prepared, log, i);
    StepsSoFar(log, i);
    StepGrows(Steps(log[..i]), log[i].step);
  }

  /**
    A review never fails the run.  It is followed by a repair exactly if it asked for changes, rounds are left and, for
    the first review alone, it exited with 0; otherwise the run is completed.
   */
  lemma AfterReview(s: Settings, env: Env, kept: bool, prepared: nat, log: seq<Event>, i: nat)
    requires Lawful(s, env, kept, prepared, log) && Over(Due(s, log)) && i < |log| && log[i].Ran?
    requires log[i].step.phase.Review? || log[i].step.phase.ReReview?
    ensures Came(env, prepared + i, log[i].step.result)
    ensures i + 1 < |log| <==>
            var result := env.result(prepared + i);
            result.Exit? && result.changes && Count(Steps(log[..i]), ReviewRepair) < s.reviewRounds &&
              (log[i].step.phase.Review? ==> result.code == 0)
    ensures i + 1 == |log| ==> Due(s, log).Finish?
    ensures i + 1 < |log| ==> log[i + 1].Ran? && log[i + 1].step.phase.ReviewRepair?
  {
    assert Fits(s, env, kept, prepared, log, i);
    EndsAt(s, env, kept, prepared, log, i);
    StepsSoFar(log, i);
    StepGrows(Steps(log[..i]), log[i].step);
    PrefixIsPlanned(s, env, kept, prepared, log, i + 1);
    PlannedFormed(s, Steps(log[..i + 1]));
  }

  lemma PrefixIsPlanned(s: Settings, env: Env, kept: bool, prepared: nat, log: seq<Event>, n: nat)
    requires Lawful(s, env, kept, prepared, log) && n <= |log|
    ensures Planned(s, Steps(log[..n]))
  {
    forall i: nat | i < n ensures Fits(s, env, kept, prepared, log[..n], i) {
      FitsInLonger(s, env, kept, prepared, log[..n], log, i);
      assert Fits(s, env, kept, prepared, log, i);
    }
    LawfulIsPlanned(s, env, kept, prepared, log[..n]);
  }

  /** The flag is read only after the architect and Codex. */
  lemma BeforeCheck(s: Settings, env: Env, kept: bool, prepared: nat, log: seq<Event>, i: nat)
    requires Lawful(s, env, kept, prepared, log) && i < |log| && log[i].Checked?
    ensures i > 0 && log[i - 1].Ran?
    ensures var phase := log[i - 1].step.phase;
            phase.Architect? || phase.Executor? || phase.Repair? || phase.ReviewRepair?
    ensures Steps(log[..i]) == Steps(log[..i - 1]) + [log[i - 1].step]
  {
    assert Fits(s, env, kept, prepared, log, i);
    StepsSoFar(log, i - 1);
  }

  /**
    A check shows whether the preparation had kept a stop or one came since; with a stop it is the end.  Without one the
    run goes on: the architect is followed by the executor, the executor and a repair by a verification, and a review
    repair by a verification where there are tests and by the next review elsewhere.
   */
  lemma AfterCheck(s: Settings, env: Env, kept: bool, prepared: nat, log: seq<Event>, i: nat)
    requires Lawful(s, env, kept, prepared, log) && Over(Due(s, log)) && i < |log| && log[i].Checked?
    ensures i > 0 && log[i - 1].Ran?
    ensures log[i].saw <==> kept || exists k: nat :: prepared <= k <= prepared + i && env.stopAt(k)
    ensures i + 1 == |log| <==> log[i].saw
    ensures log[i].saw ==> Due(s, log).Halt?
    ensures !log[i].saw ==>
              match log[i - 1].step.phase
              case Architect => log[i + 1].Ran? && log[i + 1].step.phase.Executor?
              case ReviewRepair =>
                if s.hasTests then log[i + 1].Ran? && log[i + 1].step.phase.Verify? else log[i + 1].GitRead?
              case _ => log[i + 1].Ran? && log[i + 1].step.phase.Verify?
  {
    BeforeCheck(s, env, kept, prepared, log, i);
    assert Fits(s, env, kept, prepared, log, i);
    RequestedMeans(env.stopAt, prepared, prepared + i + 1);
    EndsAt(s, env, kept, prepared, log, i);
    StepsSoFar(log, i);
    if !log[i].saw {
      CheckedPhaseHeld(s, env, kept, prepared, log, i);
    }
  }

  /** The phase before a check did not fail. */
  lemma CheckedPhaseHeld(s: Settings, env: Env, kept: bool, prepared: nat, log: seq<Event>, i: nat)
    requires Lawful(s, env, kept, prepared, log) && i < |log| && log[i].Checked? && i > 0 && log[i - 1].Ran?
    ensures !Failing(s, log[i - 1].step)
  {
    assert Fits(s, env, kept, prepared, log, i);
  }

  /** Git that fails is the end; otherwise the review follows for which it was read: the first one, or a later one. */
  lemma AfterGit(s: Settings, env: Env, kept: bool, prepared: nat, log: seq<Event>, i: nat)
    requires Lawful(s, env, kept, prepared, log) && Over(Due(s, log)) && i < |log| && log[i].GitRead?
    ensures log[i].ok <==> !env.gitFails(prepared + i)
    ensures i + 1 == |log| <==> !log[i].ok
    ensures !log[i].ok ==> Due(s, log).Raise?
    ensures log[i].ok ==> log[i + 1].Ran?
    ensures log[i].ok ==> log[i + 1].step.phase == if Count(Steps(log[..i]), Review) == 0 then Review else ReReview
  {
    assert Fits(s, env, kept, prepared, log, i);
    EndsAt(s, env, kept, prepared, log, i);
    StepsSoFar(log, i);
    GitIsForReview(s, env, kept, prepared, log, i);
    PrefixIsPlanned(s, env, kept, prepared, log, i);
    WhichReview(s, Steps(log[..i]));
    assert Steps(log[..i + 1]) == Steps(log[..i]);
  }

  lemma GitIsForReview(s: Settings, env: Env, kept: bool, prepared: nat, log: seq<Event>, i: nat)
    requires Lawful(s, env, kept, prepared, log) && i < |log| && log[i].GitRead?
    ensures NextPhase(s, Steps(log[..i])).Some?
    ensures NextPhase(s, Steps(log[..i])).value.Review? || NextPhase(s, Steps(log[..i])).value.ReReview?
  {
    assert Fits(s, env, kept, prepared, log, i);
  }

  lemma WhichReview(s: Settings, trace: seq<Step>)
    requires Planned(s, trace) && NextPhase(s, trace).Some?
    requires NextPhase(s, trace).value.Review? || NextPhase(s, trace).value.ReReview?
    ensures NextPhase(s, trace).value == if Count(trace, Review) == 0 then Review else ReReview
  {
    PlannedFormed(s, trace);
  }

  /** Every review is preceded by a look at git that went well. */
  lemma BeforeReview(s: Settings, env: Env, kept: bool, prepared: nat, log: seq<Event>, i: nat)
    requires Lawful(s, env, kept, prepared, log) && i < |log| && log[i].Ran?
    requires log[i].step.phase.Review? || log[i].step.phase.ReReview?
    ensures i > 0 && log[i - 1] == GitRead(true)
  {
    assert Fits(s, env, kept, prepared, log, i);
  }

  /** A run that went through its last review has the whole word of its rounds. */
  lemma CompletedWord(s: Settings, env: Env, kept: bool, prepared: nat, log: seq<Event>)
    requires Lawful(s, env, kept, prepared, log) && Due(s, log).Finish?
    ensures exists i: nat, j: nat :: i <= s.repairRounds && j <= s.reviewRounds && Phases(Steps(log)) == Word(s, i, j)
  {
    var trace := Steps(log);
    CompletedMeans(s, env, kept, prepared, log);
    LawfulIsPlanned(s, env, kept, prepared, log);
    PlannedFormed(s, trace);
    var i, j := Count(trace, Repair), Count(trace, ReviewRepair);
    assert Phases(trace) == Word(s, i, j);
  }

  /** How the last event decides the ending: a check that saw the stop, a review, or anything else. */
  lemma LastEventDecides(s: Settings, env: Env, kept: bool, prepared: nat, log: seq<Event>)
    requires Lawful(s, env, kept, prepared, log) && Over(Due(s, log))
    ensures log != []
    ensures var last := log[|log| - 1];
            Due(s, log) == if last == Checked(true) then Halt
                           else if last.Ran? && (last.step.phase.Review? || last.step.phase.ReReview?) then Finish
                           else Raise
  {
    AfterAdmission(s, env, kept, prepared, log);
    var i := |log| - 1;
    match log[i]
    case Admitted(_) => assert Fits(s, env, kept, prepared, log, i);
    case Checked(_) => AfterCheck(s, env, kept, prepared, log, i);
    case GitRead(_) => AfterGit(s, env, kept, prepared, log, i);
    case Ran(step) =>
      match step.phase
      case Architect => OnlyOneArchitect(s, env, kept, prepared, log, i);
                        AfterArchitect(s, env, kept, prepared, log);
      case Verify => AfterVerify(s, env, kept, prepared, log, i);
      case Review => AfterReview(s, env, kept, prepared, log, i);
      case ReReview => AfterReview(s, env, kept, prepared, log, i);
      case _ => AfterCodex(s, env, kept, prepared, log, i);
  }

  lemma OnlyOneArchitect(s: Settings, env: Env, kept: bool, prepared: nat, log: seq<Event>, i: nat)
    requires Lawful(s, env, kept, prepared, log) && i < |log| && log[i].Ran? && log[i].step.phase.Architect?
    ensures i == 1
  {
    assert Fits(s, env, kept, prepared, log, i);
    PrefixIsPlanned(s, env, kept, prepared, log, i);
    RunFollowsPlan(s, log[..i], Architect);
    assert Steps(log[..i]) == [];
    if i > 1 {
      assert Fits(s, env, kept, prepared, log, 0) && Fits(s, env, kept, prepared, log, 1);
      StepsSoFar(log, 1);
      StepsGrow(log, 2, i);
    }
  }

  lemma {:induction false} StepsGrow(log: seq<Event>, i: nat, j: nat)
    requires i <= j <= |log|
    ensures |Steps(log[..i])| <= |Steps(log[..j])|
  {
    if i < j {
      StepsGrow(log, i, j - 1);
      StepsSoFar(log, j - 1);
    }
  }

  /** No plan goes past a phase that failed. */
  lemma {:induction false} FailedPhaseIsLast(s: Settings, trace: seq<Step>, i: nat)
    requires Planned(s, trace) && i + 1 < |trace|
    ensures trace[i].phase.Architect? ==> !s.requireArchitect || !trace[i].result.Crash?
    ensures trace[i].phase.Executor? || trace[i].phase.Repair? || trace[i].phase.ReviewRepair? ==>
              trace[i].result.Exit? && trace[i].result.code == 0
    ensures trace[i].phase.Verify? ==> !trace[i].result.Crash?
  {
    if i + 2 < |trace| {
      FailedPhaseIsLast(s, trace[..|trace| - 1], i);
    }
  }

  /**
    The test output of the run has one entry for every verification that returned, in their order, under the name of
    what came before it: the executor, the repair with this number, or the review repair with this number.
   */
  lemma {:induction false} HistoryEntry(s: Settings, trace: seq<Step>, i: nat)
    requires Planned(s, trace) && i < |trace| && trace[i].phase.Verify? && !trace[i].result.Crash?
    ensures i > 0 && Count(trace[..i], Verify) < |HistoryOf(trace)|
    ensures var entry := HistoryOf(trace)[Count(trace[..i], Verify)];
            && entry.result == trace[i].result
            && match trace[i - 1].phase
               case Repair => entry.occasion == AfterRepair(Count(trace[..i], Repair))
               case ReviewRepair => entry.occasion == AfterReviewRepair(Count(trace[..i], ReviewRepair))
               case _ => trace[i - 1].phase.Executor? && entry.occasion == Attempt
  {
    var front := trace[..|trace| - 1];
    if i + 1 < |trace| {
      HistoryEntry(s, front, i);
      assert front[..i] == trace[..i];
      assert HistoryOf(front) <= HistoryOf(trace);
    } else {
      HistoryCounts(s, front);
    }
  }
}
