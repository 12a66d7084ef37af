/**
  What a MARS worker does between the preparation of its run and the run's end, as a log of events.  Each event takes
  one await: event `i` happens in await `prepared + i`.  The environment says, for every await, whether a stop request
  is served in it, how a phase that runs in it ends and whether git fails in it.
 */
module MarsLog {
  import opened Options
  import opened MarsPhases

  datatype Env = Env(stopAt: nat -> bool, result: nat -> Result, rejected: bool, gitFails: nat -> bool)

  /** `Checked(saw)`: the stop flag was read; `Admitted`: the workspace was accepted or refused. */
  datatype Event = Admitted(ok: bool) | Ran(step: Step) | Checked(saw: bool) | GitRead(ok: bool)

  /** What is due next; the last three end the run COMPLETED, STOPPED and FAILED. */
  datatype Todo = Admit | Run(phase: Phase) | Check | ReadGit | Finish | Halt | Raise

  predicate Over(todo: Todo) {
    todo.Finish? || todo.Halt? || todo.Raise?
  }

  /** A stop request was served in one of the awaits `from`, ..., `until - 1`. */
  predicate Requested(stopAt: nat -> bool, from: nat, until: nat) {
    from < until && (stopAt(until - 1) || Requested(stopAt, from, until - 1))
  }

  lemma {:induction false} RequestedMeans(stopAt: nat -> bool, from: nat, until: nat)
    ensures Requested(stopAt, from, until) <==> exists k: nat :: from <= k < until && stopAt(k)
  {
    if from < until {
      RequestedMeans(stopAt, from, until - 1);
    }
  }

  // ---------- The verification history ----------

  datatype Occasion = Attempt | AfterRepair(round: nat) | AfterReviewRepair(round: nat)
  datatype Entry = Entry(occasion: Occasion, result: Result)

  function OccasionAfter(trace: seq<Step>): Occasion {
    if trace != [] && trace[|trace| - 1].phase.Repair? then AfterRepair(Count(trace, Repair))
    else if trace != [] && trace[|trace| - 1].phase.ReviewRepair? then AfterReviewRepair(Count(trace, ReviewRepair))
    else Attempt
  }

  /** One entry for every verification that returned, labelled by the repair before it. */
  function HistoryOf(trace: seq<Step>): seq<Entry> {
    if trace == [] then []
    else
      var front, last := trace[..|trace| - 1], trace[|trace| - 1];
      HistoryOf(front) + if last.phase.Verify? && !last.result.Crash? then [Entry(OccasionAfter(front), last.result)]
        else []
  }

  /** Exactly one history entry per verification step, save for one whose command could not be run. */
  lemma {:induction false} HistoryCounts(s: Settings, trace: seq<Step>)
    requires Planned(s, trace)
    ensures |HistoryOf(trace)| == Count(trace, Verify) -
              if trace != [] && trace[|trace| - 1].phase.Verify? && trace[|trace| - 1].result.Crash? then 1 else 0
  {
    if trace != [] {
      HistoryCounts(s, trace[..|trace| - 1]);
    }
  }

  // ---------- What is due, and what may be logged ----------

  /** A phase whose end raises. */
  predicate Failing(s: Settings, step: Step) {
    match step.phase
    case Architect => step.result.Crash? && s.requireArchitect
    case Verify => step.result.Crash?
    case Review => false
    case ReReview => false
    case _ => !Clean(step.result)
  }

  function Steps(log: seq<Event>): seq<Step> {
    if log == [] then []
    else
      var front, last := Steps(log[..|log| - 1]), log[|log| - 1];
      if last.Ran? then front + [last.step] else front
  }

  /** The next phase of the plan, with git read before every review, or the end. */
  function Onward(s: Settings, trace: seq<Step>): Todo {
    match NextPhase(s, trace)
    case None => Finish
    case Some(phase) => if phase.Review? || phase.ReReview? then ReadGit else Run(phase)
  }

  /** What an event leaves to do, given the phases run up to it. */
  function DueAfter(s: Settings, trace: seq<Step>, event: Event): Todo {
    match event
    case Admitted(ok) => if ok then Onward(s, trace) else Raise
    case Ran(step) =>
      if Failing(s, step) then Raise
      else if step.phase.Architect? || Codex(step.phase) then Check
      else Onward(s, trace)
    case Checked(saw) => if saw then Halt else Onward(s, trace)
    case GitRead(ok) =>
      if !ok then Raise
      else match NextPhase(s, trace)
        case None => Finish
        case Some(phase) => Run(phase)
  }

  function Due(s: Settings, log: seq<Event>): Todo {
    if log == [] then Admit else DueAfter(s, Steps(log), log[|log| - 1])
  }

  predicate Does(event: Event, todo: Todo) {
    match event
    case Admitted(_) => todo.Admit?
    case Ran(step) => todo == Run(step.phase)
    case Checked(_) => todo.Check?
    case GitRead(_) => todo.ReadGit?
  }

  /** A process either exits or cannot be run. */
  function RawResult(result: Result): Result {
    if result.Skipped? then Crash else result
  }

  function ResultOf(s: Settings, env: Env, phase: Phase, at: nat): Result {
    if phase.Verify? && !s.hasTests then Skipped else RawResult(env.result(at))
  }

  /** The stop flag at the end of await `at`: it was kept by the preparation or stored since. */
  predicate Flag(env: Env, kept: bool, prepared: nat, at: nat) {
    kept || Requested(env.stopAt, prepared, at + 1)
  }

  /** The event reports what the environment showed in await `at`. */
  predicate Shown(s: Settings, env: Env, kept: bool, prepared: nat, event: Event, at: nat) {
    match event
    case Admitted(ok) => ok == !env.rejected
    case Ran(step) => step.result == ResultOf(s, env, step.phase, at)
    case Checked(saw) => saw == Flag(env, kept, prepared, at)
    case GitRead(ok) => ok == !env.gitFails(at)
  }

  /** Event `i` was due and true. */
  predicate Fits(s: Settings, env: Env, kept: bool, prepared: nat, log: seq<Event>, i: nat)
    requires i < |log|
  {
    Does(log[i], Due(s, log[..i])) && Shown(s, env, kept, prepared, log[i], prepared + i)
  }

  ghost predicate Lawful(s: Settings, env: Env, kept: bool, prepared: nat, log: seq<Event>) {
    forall i: nat :: i < |log| ==> Fits(s, env, kept, prepared, log, i)
  }

  lemma FitsInLonger(s: Settings, env: Env, kept: bool, prepared: nat, log: seq<Event>, longer: seq<Event>, i: nat)
    requires log <= longer && i < |log|
    ensures Fits(s, env, kept, prepared, longer, i) == Fits(s, env, kept, prepared, log, i)
  {
    assert longer[..i] == log[..i];
  }

  lemma DueGrows(s: Settings, log: seq<Event>, event: Event)
    ensures Steps(log + [event]) == if event.Ran? then Steps(log) + [event.step] else Steps(log)
    ensures Due(s, log + [event]) == DueAfter(s, Steps(log + [event]), event)
  {
    assert (log + [event])[..|log|] == log;
  }

  lemma LogGrows(s: Settings, env: Env, kept: bool, prepared: nat, log: seq<Event>, event: Event)
    requires Lawful(s, env, kept, prepared, log)
    requires Does(event, Due(s, log)) && Shown(s, env, kept, prepared, event, prepared + |log|)
    ensures Lawful(s, env, kept, prepared, log + [event])
  {
    var more := log + [event];
    assert more[..|log|] == log;
    forall i: nat | i < |more| ensures Fits(s, env, kept, prepared, more, i) {
      if i < |log| {
        FitsInLonger(s, env, kept, prepared, log, more, i);
        assert Fits(s, env, kept, prepared, log, i);
      }
    }
  }

  lemma StepGrows(trace: seq<Step>, step: Step)
    ensures HistoryOf(trace + [step]) ==
            HistoryOf(trace) + if step.phase.Verify? && !step.result.Crash?
              then [Entry(OccasionAfter(trace), step.result)] else []
    ensures forall phase :: Count(trace + [step], phase) == Count(trace, phase) + if step.phase == phase then 1 else 0
  {
    assert (trace + [step])[..|trace|] == trace;
  }

  // ---------- What a lawful log tells ----------

  lemma FrontIsLawful(s: Settings, env: Env, kept: bool, prepared: nat, log: seq<Event>)
    requires Lawful(s, env, kept, prepared, log) && log != []
    ensures Lawful(s, env, kept, prepared, log[..|log| - 1])
  {
    var front := log[..|log| - 1];
    forall i: nat | i < |front| ensures Fits(s, env, kept, prepared, front, i) {
      FitsInLonger(s, env, kept, prepared, front, log, i);
      assert Fits(s, env, kept, prepared, log, i);
    }
  }

  /** The phases of a lawful log follow the plan. */
  lemma {:induction false} LawfulIsPlanned(s: Settings, env: Env, kept: bool, prepared: nat, log: seq<Event>)
    requires Lawful(s, env, kept, prepared, log)
    ensures Planned(s, Steps(log))
  {
    if log != [] {
      var front, last := log[..|log| - 1], log[|log| - 1];
      FrontIsLawful(s, env, kept, prepared, log);
      LawfulIsPlanned(s, env, kept, prepared, front);
      assert Fits(s, env, kept, prepared, log, |front|);
      if last.Ran? {
        RunFollowsPlan(s, front, last.step.phase);
        assert Steps(log)[..|Steps(front)|] == Steps(front);
      }
    }
  }

  lemma RunFollowsPlan(s: Settings, log: seq<Event>, phase: Phase)
    requires Due(s, log) == Run(phase)
    ensures NextPhase(s, Steps(log)) == Some(phase)
  {
  }

  lemma EventIsDetermined(s: Settings, env: Env, kept: bool, prepared: nat, a: seq<Event>, b: seq<Event>, i: nat)
    requires i < |a| && i < |b| && a[..i] == b[..i]
    requires Fits(s, env, kept, prepared, a, i) && Fits(s, env, kept, prepared, b, i)
    ensures a[i] == b[i]
  {
  }

  /** The environment, the settings and the flag that was kept determine the log. */
  lemma {:induction false} LogsAgree(s: Settings, env: Env, kept: bool, prepared: nat, a: seq<Event>, b: seq<Event>,
                                     n: nat)
    requires Lawful(s, env, kept, prepared, a) && Lawful(s, env, kept, prepared, b) && n <= |a| && n <= |b|
    ensures a[..n] == b[..n]
  {
    if n > 0 {
      LogsAgree(s, env, kept, prepared, a, b, n - 1);
      EventIsDetermined(s, env, kept, prepared, a, b, n - 1);
      assert a[..n] == a[..n - 1] + [a[n - 1]] && b[..n] == b[..n - 1] + [b[n - 1]];
    }
  }

  /** Nothing follows a log that is over. */
  lemma NotOverYet(s: Settings, env: Env, kept: bool, prepared: nat, log: seq<Event>, i: nat)
    requires Lawful(s, env, kept, prepared, log) && i < |log|
    ensures !Over(Due(s, log[..i]))
  {
    assert Fits(s, env, kept, prepared, log, i);
  }

  /** While something is due the run goes on. */
  lemma GoesOn(s: Settings, env: Env, kept: bool, prepared: nat, log: seq<Event>, i: nat)
    requires Lawful(s, env, kept, prepared, log) && Over(Due(s, log)) && i <= |log| && !Over(Due(s, log[..i]))
    ensures i < |log| && log[..i + 1] == log[..i] + [log[i]] && Fits(s, env, kept, prepared, log, i)
  {
    assert log[..|log|] == log;
  }

  /** Two runs that are over in the same environment did the same. */
  lemma RunIsDetermined(s: Settings, env: Env, kept: bool, prepared: nat, a: seq<Event>, b: seq<Event>)
    requires Lawful(s, env, kept, prepared, a) && Lawful(s, env, kept, prepared, b) && Over(Due(s, a)) &&
             Over(Due(s, b))
    ensures a == b
  {
    var n := if |a| < |b| then |a| else |b|;
    LogsAgree(s, env, kept, prepared, a, b, n);
    assert a[..|a|] == a && b[..|b|] == b;
    if n < |b| {
      NotOverYet(s, env, kept, prepared, b, n);
    }
    if n < |a| {
      NotOverYet(s, env, kept, prepared, a, n);
    }
  }

  /** The three endings, by the last event. */
  lemma EndingsExactly(s: Settings, log: seq<Event>)
    requires Over(Due(s, log))
    ensures log != []
    ensures Due(s, log).Halt? <==> log[|log| - 1] == Checked(true)
    ensures Due(s, log).Raise? <==>
              log[|log| - 1] == Admitted(false) || log[|log| - 1] == GitRead(false) ||
              (log[|log| - 1].Ran? && Failing(s, log[|log| - 1].step))
  {
  }

  // ---------- Stop safety ----------

  lemma DueAfterEvent(s: Settings, log: seq<Event>, i: nat)
    requires i < |log|
    ensures log[i] == Checked(true) ==> Due(s, log[..i + 1]).Halt?
    ensures log[i].Ran? && Codex(log[i].step.phase) ==>
              Due(s, log[..i + 1]) == if Clean(log[i].step.result) then Check else Raise
  {
  }

  /** A check that saw the flag is the last event: no phase starts after it. */
  lemma NothingAfterStop(s: Settings, env: Env, kept: bool, prepared: nat, log: seq<Event>, i: nat)
    requires Lawful(s, env, kept, prepared, log) && i < |log| && log[i] == Checked(true)
    ensures i == |log| - 1 && Due(s, log).Halt?
  {
    DueAfterEvent(s, log, i);
    if i + 1 < |log| {
      NotOverYet(s, env, kept, prepared, log, i + 1);
    }
    assert log[..|log|] == log;
  }

  /** Once a Codex phase returned, the run fails or the flag is read before anything else happens. */
  lemma CodexIsChecked(s: Settings, env: Env, kept: bool, prepared: nat, log: seq<Event>, i: nat)
    requires Lawful(s, env, kept, prepared, log) && i < |log| && log[i].Ran? && Codex(log[i].step.phase)
    ensures i + 1 == |log| ==> Due(s, log) == if Clean(log[i].step.result) then Check else Raise
    ensures i + 1 < |log| ==> Clean(log[i].step.result) && log[i + 1].Checked?
  {
    DueAfterEvent(s, log, i);
    if i + 1 < |log| {
      assert Fits(s, env, kept, prepared, log, i + 1);
    } else {
      assert log[..i + 1] == log;
    }
  }

  /** The stop of this run is stored from await `f` on, and no earlier. */
  ghost predicate StoredFrom(env: Env, kept: bool, prepared: nat, f: nat) {
    if kept then f == prepared
    else prepared <= f && env.stopAt(f) && forall k: nat :: prepared <= k < f ==> !env.stopAt(k)
  }

  /** The flag is up from then on, and was down before. */
  lemma StoredIsFlag(env: Env, kept: bool, prepared: nat, f: nat, at: nat)
    requires StoredFrom(env, kept, prepared, f) && prepared <= at
    ensures Flag(env, kept, prepared, at) <==> f <= at
  {
    RequestedMeans(env.stopAt, prepared, at + 1);
  }

  /** A check sees the stop exactly if it comes no earlier. */
  lemma CheckSees(s: Settings, env: Env, kept: bool, prepared: nat, log: seq<Event>, f: nat, i: nat)
    requires Lawful(s, env, kept, prepared, log) && StoredFrom(env, kept, prepared, f) && i < |log| && log[i].Checked?
    ensures log[i].saw <==> f <= prepared + i
  {
    assert Fits(s, env, kept, prepared, log, i);
    StoredIsFlag(env, kept, prepared, f, prepared + i);
  }

  /** With a stop stored from `f` on, a run that is over is STOPPED if and only if its flag was read at or after `f`. */
  lemma StoppedExactly(s: Settings, env: Env, kept: bool, prepared: nat, log: seq<Event>, f: nat)
    requires Lawful(s, env, kept, prepared, log) && Over(Due(s, log)) && StoredFrom(env, kept, prepared, f)
    ensures Due(s, log).Halt? <==> exists i :: 0 <= i < |log| && log[i].Checked? && f <= prepared + i
  {
    EndingsExactly(s, log);
    if Due(s, log).Halt? {
      CheckSees(s, env, kept, prepared, log, f, |log| - 1);
      assert log[|log| - 1].Checked? && f <= prepared + (|log| - 1);
    }
    if i :| 0 <= i < |log| && log[i].Checked? && f <= prepared + i {
      CheckSees(s, env, kept, prepared, log, f, i);
      NothingAfterStop(s, env, kept, prepared, log, i);
    }
  }

  /** A stop that is stored before some Codex phase returned ends the run with that phase: STOPPED if and only if the
      phase still exited 0, and FAILED if it did not, as when the stop killed it.  The run is never COMPLETED. */
  lemma StoppedOrKilled(s: Settings, env: Env, kept: bool, prepared: nat, log: seq<Event>, f: nat, i: nat)
    requires Lawful(s, env, kept, prepared, log) && Over(Due(s, log)) && StoredFrom(env, kept, prepared, f)
    requires i < |log| && log[i].Ran? && Codex(log[i].step.phase) && f <= prepared + i
    ensures Due(s, log) == if Clean(log[i].step.result) then Halt else Raise
  {
    CodexIsChecked(s, env, kept, prepared, log, i);
    if i + 1 < |log| {
      CheckSees(s, env, kept, prepared, log, f, i + 1);
      NothingAfterStop(s, env, kept, prepared, log, i + 1);
    }
  }

  // ---------- Completed runs ----------

  function Begun(architect: Result): seq<Event> {
    [Admitted(true), Ran(Step(Architect, architect))]
  }

  lemma DueAtFirst(s: Settings)
    ensures Due(s, [Admitted(true)]) == Run(Architect)
  {
    assert [Admitted(true)][..0] == [];
    assert Steps([Admitted(true)]) == [];
  }

  lemma DueAfterArchitect(s: Settings, architect: Result)
    ensures Due(s, Begun(architect)) == if Failing(s, Step(Architect, architect)) then Raise else Check
  {
  }

  lemma DueAfterFirstCheck(s: Settings, architect: Result)
    requires !Failing(s, Step(Architect, architect))
    ensures Due(s, Begun(architect) + [Checked(false)]) == Run(Executor)
  {
    var begun := Begun(architect);
    var log := begun + [Checked(false)];
    assert log[..2] == begun && begun[..1] == [Admitted(true)] && [Admitted(true)][..0] == [];
    assert Steps([Admitted(true)]) == [];
    assert Steps(begun) == [Step(Architect, architect)];
    assert Steps(log) == [Step(Architect, architect)];
  }

  /** How every admitted run begins. */
  lemma Opening(s: Settings, env: Env, kept: bool, prepared: nat, log: seq<Event>)
    requires Lawful(s, env, kept, prepared, log) && Over(Due(s, log)) && !env.rejected
    ensures |log| >= 2 && log[..2] == Begun(ResultOf(s, env, Architect, prepared + 1))
  {
    GoesOn(s, env, kept, prepared, log, 0);
    assert log[..1] == [Admitted(true)];
    DueAtFirst(s);
    GoesOn(s, env, kept, prepared, log, 1);
  }

  /** How it goes on if the architect does not fail. */
  lemma SecondAct(s: Settings, env: Env, kept: bool, prepared: nat, log: seq<Event>)
    requires Lawful(s, env, kept, prepared, log) && Over(Due(s, log)) && !env.rejected
    requires !Failing(s, Step(Architect, ResultOf(s, env, Architect, prepared + 1)))
    ensures |log| >= 3 && log[2] == Checked(Flag(env, kept, prepared, prepared + 2))
    ensures !log[2].saw ==> |log| >= 4 && log[3] == Ran(Step(Executor, ResultOf(s, env, Executor, prepared + 3)))
  {
    var architect := ResultOf(s, env, Architect, prepared + 1);
    Opening(s, env, kept, prepared, log);
    DueAfterArchitect(s, architect);
    GoesOn(s, env, kept, prepared, log, 2);
    if !log[2].saw {
      assert log[..3] == Begun(architect) + [Checked(false)];
      DueAfterFirstCheck(s, architect);
      GoesOn(s, env, kept, prepared, log, 3);
    }
  }

  /** A refused run, and one whose required architect fails, ends FAILED at once. */
  lemma FalseStart(s: Settings, env: Env, kept: bool, prepared: nat, log: seq<Event>)
    requires Lawful(s, env, kept, prepared, log) && Over(Due(s, log))
    requires env.rejected || Failing(s, Step(Architect, ResultOf(s, env, Architect, prepared + 1)))
    ensures Due(s, log).Raise?
  {
    if env.rejected {
      GoesOn(s, env, kept, prepared, log, 0);
      if 1 < |log| {
        NotOverYet(s, env, kept, prepared, log, 1);
      }
      assert log[..|log|] == log;
    } else {
      var architect := ResultOf(s, env, Architect, prepared + 1);
      Opening(s, env, kept, prepared, log);
      DueAfterArchitect(s, architect);
      if 2 < |log| {
        NotOverYet(s, env, kept, prepared, log, 2);
      }
      assert log[..|log|] == log;
    }
  }

  lemma {:induction false} LastStepHolds(s: Settings, env: Env, kept: bool, prepared: nat, log: seq<Event>)
    requires Lawful(s, env, kept, prepared, log) && !Due(s, log).Raise?
    ensures Steps(log) != [] ==> !Failing(s, Steps(log)[|Steps(log)| - 1])
  {
    if log != [] && !log[|log| - 1].Ran? {
      FrontIsLawful(s, env, kept, prepared, log);
      assert Fits(s, env, kept, prepared, log, |log| - 1);
      LastStepHolds(s, env, kept, prepared, log[..|log| - 1]);
    }
  }

  /** A plan that has nothing more to offer, and did not fail, is at its end. */
  lemma FinishCompletes(s: Settings, log: seq<Event>)
    requires Due(s, log).Finish? && (Steps(log) != [] ==> !Failing(s, Steps(log)[|Steps(log)| - 1]))
    ensures Completes(s, Steps(log))
  {
  }

  lemma UnstoppedAfter(s: Settings, env: Env, kept: bool, prepared: nat, log: seq<Event>, i: nat)
    requires Lawful(s, env, kept, prepared, log) && Due(s, log).Finish?
    requires i < |log| && log[i].Ran? && Codex(log[i].step.phase)
    ensures Clean(log[i].step.result) && !Requested(env.stopAt, prepared, prepared + i + 2)
  {
    CodexIsChecked(s, env, kept, prepared, log, i);
    assert Fits(s, env, kept, prepared, log, i + 1);
    if log[i + 1].saw {
      NothingAfterStop(s, env, kept, prepared, log, i + 1);
    }
  }

  /** A COMPLETED run had no stop stored when its flag was read after its last Codex phase; in particular the
      preparation had kept none.  All its Codex phases exited 0, and its plan is at its end. */
  lemma CompletedMeans(s: Settings, env: Env, kept: bool, prepared: nat, log: seq<Event>)
    requires Lawful(s, env, kept, prepared, log) && Due(s, log).Finish?
    ensures !kept && Completes(s, Steps(log))
    ensures forall i :: 0 <= i < |log| && log[i].Ran? && Codex(log[i].step.phase) ==>
              Clean(log[i].step.result) && !Requested(env.stopAt, prepared, prepared + i + 2)
  {
    if env.rejected || Failing(s, Step(Architect, ResultOf(s, env, Architect, prepared + 1))) {
      FalseStart(s, env, kept, prepared, log);
    } else {
      SecondAct(s, env, kept, prepared, log);
      if kept {
        NothingAfterStop(s, env, kept, prepared, log, 2);
      }
    }
    LastStepHolds(s, env, kept, prepared, log);
    FinishCompletes(s, log);
    forall i | 0 <= i < |log| && log[i].Ran? && Codex(log[i].step.phase)
      ensures Clean(log[i].step.result) && !Requested(env.stopAt, prepared, prepared + i + 2)
    {
      UnstoppedAfter(s, env, kept, prepared, log, i);
    }
  }
}
