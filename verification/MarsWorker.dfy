/**
  `execute_mars_run` against a database row that stop requests change concurrently.  Time is counted in the worker's
  awaits; a stop request may be served in any of them.  What the worker does is logged as it does it, and `MarsLog` says
  what such a log means.
 */
module MarsWorker {
  import opened Options
  import opened MarsLog
  import opened MarsPhases
  import opened MarsRuns

  datatype Status = Queued | Running | Completed | Failed | Stopped

  /** How many repairs, reviews and review repairs a trace has. */
  datatype Tally = Tally(repairs: nat, reviews: nat, reviewRepairs: nat)

  function TallyOf(trace: seq<Step>): Tally {
    Tally(Count(trace, Repair), Count(trace, Review), Count(trace, ReviewRepair))
  }

  function Bump(tally: Tally, phase: Phase): Tally {
    match phase
    case Repair => tally.(repairs := tally.repairs + 1)
    case Review => tally.(reviews := tally.reviews + 1)
    case ReviewRepair => tally.(reviewRepairs := tally.reviewRepairs + 1)
    case _ => tally
  }

  function StatusAfter(todo: Todo): Status {
    match todo
    case Finish => Completed
    case Halt => Stopped
    case Raise => Failed
    case _ => Running
  }

  /** Before the first review a verification is followed by a repair or, with git read in between, by the review. */
  lemma VerificationLeads(s: Settings, trace: seq<Step>, result: Result)
    requires trace != [] && trace[|trace| - 1] == Step(Verify, result) && !result.Crash? && Count(trace, Review) == 0
    ensures var repair := !result.Skipped? && !Clean(result) && Count(trace, Repair) < s.repairRounds;
            && NextPhase(s, trace) == Some(if repair then Repair else Review)
            && DueAfter(s, trace, Ran(Step(Verify, result))) == if repair then Run(Repair) else ReadGit
  {
  }

  /** The first `n` events make up this trace, and this is due after them. */
  ghost predicate Recalled(s: Settings, log: seq<Event>, n: nat, trace: seq<Step>, todo: Todo)
    requires n <= |log|
  {
    trace == Steps(log[..n]) && todo == Due(s, log[..n])
  }

  /** The same of the whole log, behind a quantifier that keeps the recursion out of proofs that need none of it. */
  ghost predicate Recalls(s: Settings, log: seq<Event>, trace: seq<Step>, todo: Todo) {
    forall n: nat :: n == |log| ==> Recalled(s, log, n, trace, todo)
  }

  lemma RecallsMeans(s: Settings, log: seq<Event>, trace: seq<Step>, todo: Todo)
    ensures Recalls(s, log, trace, todo) <==> trace == Steps(log) && todo == Due(s, log)
  {
    assert log[..|log|] == log;
    assert Recalled(s, log, |log|, trace, todo) <==> trace == Steps(log) && todo == Due(s, log);
  }

  /** The status that the last event gives. */
  lemma LastEventGivesStatus(s: Settings, env: Env, kept: bool, prepared: nat, log: seq<Event>)
    requires Lawful(s, env, kept, prepared, log) && Over(Due(s, log))
    ensures log != []
    ensures var status := StatusAfter(Due(s, log));
            && (status == Stopped <==> log[|log| - 1] == Checked(true))
            && (status == Completed <==>
                  log[|log| - 1].Ran? && (log[|log| - 1].step.phase.Review? || log[|log| - 1].step.phase.ReReview?))
            && (status == Stopped || status == Completed || status == Failed)
  {
    LastEventDecides(s, env, kept, prepared, log);
  }

  class MarsWorker {
    const s: Settings
    const env: Env

    /** The row of the run: its status, its stop flag and its test output; and the session it belongs to. */
    var status: Status
    var stop: bool
    var history: seq<Entry>
    var sessionCompleted: bool

    /** The statuses the worker has saved, in order. */
    var saved: seq<Status>

    /** Awaits so far, and what the worker has done since its preparation. */
    var now: nat
    var log: seq<Event>

    /** When the preparation was saved and with which flag, the phases run since, and what is due next. */
    ghost var prepared: nat
    ghost var kept: bool
    ghost var trace: seq<Step>
    ghost var todo: Todo

    constructor (s: Settings, env: Env)
      ensures this.s == s && this.env == env && now == 0 && log == [] && history == [] && saved == []
      ensures status == Queued && !stop && !sessionCompleted
    {
      this.s, this.env := s, env;
      status, stop, history, sessionCompleted, saved := Queued, false, [], false, [];
      now, log, prepared, kept, trace, todo := 0, [], 0, false, [], Admit;
    }

    /** The flag holds what the preparation kept and what came later: the worker never clears it. */
    ghost predicate FlagKept()
      reads `stop, `kept, `prepared, `now
    {
      stop <==> kept || Requested(env.stopAt, prepared, now)
    }

    ghost predicate Logged()
      reads `log, `kept, `prepared, `trace, `todo
    {
      Lawful(s, env, kept, prepared, log) && Recalls(s, log, trace, todo)
    }

    /** The worker is between two awaits, or it has just seen a stop. */
    ghost predicate Kept()
      reads `stop, `kept, `prepared, `now, `log, `trace, `todo, `status, `saved, `sessionCompleted
    {
      && FlagKept() && now == prepared + |log| && !sessionCompleted && Logged()
      && status == (if todo.Halt? then Stopped else Running)
      && saved == if todo.Halt? then [Running, Stopped] else [Running]
    }

    ghost predicate Good()
      reads this
    {
      Kept() && history == HistoryOf(trace)
    }

    /** `api_run_stop`. */
    method RequestStop()
      modifies this`stop, this`status
      ensures stop && status == if old(status) == Queued then Stopped else old(status)
    {
      stop := true;
      if status == Queued {
        status := Stopped;
      }
    }

    /** One await of the worker. */
    method Moment()
      modifies this`stop, this`status, this`now
      ensures now == old(now) + 1 && stop == (old(stop) || env.stopAt(old(now)))
      ensures status == if env.stopAt(old(now)) && old(status) == Queued then Stopped else old(status)
    {
      if env.stopAt(now) {
        RequestStop();
      }
      now := now + 1;
    }

    /** An await after the preparation: the flag shows what was stored up to its end. */
    method Pass()
      requires FlagKept() && prepared <= now && status != Queued
      modifies this`stop, this`status, this`now
      ensures FlagKept() && now == old(now) + 1 && status == old(status) && stop == Flag(env, kept, prepared, old(now))
    {
      Moment();
    }

    method Save(newStatus: Status)
      modifies this`status, this`saved
      ensures status == newStatus && saved == old(saved) + [newStatus]
    {
      status, saved := newStatus, saved + [newStatus];
    }

    method Log(event: Event)
      requires Logged() && Does(event, todo) && Shown(s, env, kept, prepared, event, prepared + |log|)
      modifies this`log, this`trace, this`todo
      ensures Logged() && log == old(log) + [event]
      ensures trace == if event.Ran? then old(trace) + [event.step] else old(trace)
      ensures todo == DueAfter(s, trace, event)
    {
      RecallsMeans(s, log, trace, todo);
      LogGrows(s, env, kept, prepared, log, event);
      DueGrows(s, log, event);
      log := log + [event];
      trace, todo := Steps(log), Due(s, log);
      RecallsMeans(s, log, trace, todo);
    }

    /** An await and what happened in it. */
    method Do(event: Event)
      requires Kept() && Does(event, todo) && Shown(s, env, kept, prepared, event, now) && !event.Checked?
      modifies this`stop, this`status, this`now, this`log, this`trace, this`todo
      ensures Kept() && log == old(log) + [event]
      ensures trace == if event.Ran? then old(trace) + [event.step] else old(trace)
      ensures todo == DueAfter(s, trace, event)
    {
      Pass();
      Log(event);
    }

    /** `_check_stop_and_finish`. */
    method CheckStop() returns (halted: bool)
      requires Good() && todo.Check?
      modifies this`stop, this`status, this`now, this`log, this`saved, this`trace, this`todo
      ensures Good() && log == old(log) + [Checked(halted)] && trace == old(trace) && halted == stop
      ensures todo == if halted then Halt else Onward(s, trace)
    {
      Pass();
      halted := stop || status == Stopped;
      Log(Checked(halted));
      if !halted {
        return;
      }
      Save(Stopped);
    }

    /** The checks of the workspace before the first phase. */
    method CheckWorkspace() returns (ok: bool)
      requires Good() && todo.Admit?
      modifies this`stop, this`status, this`now, this`log, this`trace, this`todo
      ensures Good() && log == old(log) + [Admitted(ok)] && trace == old(trace)
      ensures todo == if ok then Onward(s, trace) else Raise
    {
      ok := !env.rejected;
      Do(Admitted(ok));
    }

    method RunPhase(phase: Phase) returns (result: Result)
      requires Good() && todo == Run(phase) && !phase.Verify?
      modifies this`stop, this`status, this`now, this`log, this`trace, this`todo
      ensures Good() && log == old(log) + [Ran(Step(phase, result))] && trace == old(trace) + [Step(phase, result)]
      ensures todo == DueAfter(s, trace, Ran(Step(phase, result)))
      ensures result == if env.result(old(now)).Exit? then env.result(old(now)) else Crash
      ensures TallyOf(trace) == Bump(old(TallyOf(trace)), phase)
    {
      result := ResultOf(s, env, phase, now);
      StepGrows(trace, Step(phase, result));
      Do(Ran(Step(phase, result)));
    }

    /** `_run_verification` and the history entry appended after it. */
    method RunVerification() returns (result: Result)
      requires Good() && todo == Run(Verify)
      modifies this`stop, this`status, this`now, this`log, this`history, this`trace, this`todo
      ensures Good() && log == old(log) + [Ran(Step(Verify, result))] && trace == old(trace) + [Step(Verify, result)]
      ensures todo == DueAfter(s, trace, Ran(Step(Verify, result))) && TallyOf(trace) == old(TallyOf(trace))
      ensures result == if !s.hasTests then Skipped
                        else if env.result(old(now)).Exit? then env.result(old(now)) else Crash
    {
      result := ResultOf(s, env, Verify, now);
      StepGrows(trace, Step(Verify, result));
      if !result.Crash? {
        RecallsMeans(s, log, trace, todo);
        history := history + [Entry(OccasionAfter(Steps(log)), result)];
      }
      Do(Ran(Step(Verify, result)));
    }

    /** `git_status` after a round of changes. */
    method ReadGit() returns (ok: bool)
      requires Good() && todo.ReadGit?
      modifies this`stop, this`status, this`now, this`log, this`trace, this`todo
      ensures Good() && log == old(log) + [GitRead(ok)] && trace == old(trace) &&
              todo == DueAfter(s, trace, GitRead(ok))
    {
      ok := !env.gitFails(now);
      Do(GitRead(ok));
    }

    /** A Codex phase and the stop check after it. */
    method RunCodex(phase: Phase) returns (ending: Option<Todo>)
      requires Good() && todo == Run(phase) && Codex(phase)
      modifies this`stop, this`status, this`now, this`log, this`saved, this`trace, this`todo
      ensures Good() && TallyOf(trace) == Bump(old(TallyOf(trace)), phase)
      ensures ending.Some? ==> ending.value == todo && Over(todo)
      ensures ending == Some(Raise) <==> !(env.result(old(now)).Exit? && env.result(old(now)).code == 0)
      ensures ending == Some(Halt) <==> ending != Some(Raise) && stop
      ensures ending.None? ==>
              todo == Onward(s, trace) && trace != [] && trace[|trace| - 1].phase == phase &&
                Clean(trace[|trace| - 1].result)
    {
      var result := RunPhase(phase);
      if !Clean(result) {
        return Some(Raise);
      }
      var halted := CheckStop();
      return if halted then Some(Halt) else None;
    }

    /** The architect; a broken architect stops the run only where one is required. */
    method RunArchitect() returns (ending: Option<Todo>)
      requires Good() && todo == Run(Architect) && trace == []
      modifies this`stop, this`status, this`now, this`log, this`saved, this`trace, this`todo
      ensures Good() && TallyOf(trace) == Tally(0, 0, 0) && (ending.Some? ==> ending.value == todo && Over(todo))
      ensures ending == Some(Raise) <==> s.requireArchitect && !env.result(old(now)).Exit?
      ensures ending == Some(Halt) <==> ending != Some(Raise) && stop
      ensures ending.None? ==> todo == Run(Executor)
    {
      var architect := RunPhase(Architect);
      if architect.Crash? && s.requireArchitect {
        return Some(Raise);
      }
      var halted := CheckStop();
      return if halted then Some(Halt) else None;
    }

    /** The trace ends with this verification, `repairs` of the code came before it, and no review. */
    ghost predicate Verified(result: Result, repairs: nat)
      reads this
    {
      && Good() && trace != [] && trace[|trace| - 1] == Step(Verify, result) && TallyOf(trace) == Tally(repairs, 0, 0)
      && todo == DueAfter(s, trace, Ran(Step(Verify, result))) && (result.Skipped? <==> !s.hasTests)
    }

    /** Verification and the repairs it asks for. */
    method RepairLoop() returns (ending: Option<Todo>)
      requires Good() && todo == Run(Verify) && TallyOf(trace) == Tally(0, 0, 0)
      modifies this`stop, this`status, this`now, this`log, this`saved, this`history, this`trace, this`todo
      ensures Good() && (ending.Some? ==> ending.value == todo && Over(todo))
      ensures ending.None? ==> todo.ReadGit? && NextPhase(s, trace) == Some(Review)
      ensures ending.None? ==> TallyOf(trace).reviews == TallyOf(trace).reviewRepairs == 0
    {
      var result := RunVerification();
      if result.Crash? {
        return Some(Raise);
      }
      VerificationLeads(s, trace, result);
      if result.Skipped? || Clean(result) {
        return None;
      }
      ending := Repairs(result);
    }

    /** The loop over the repairs. */
    method Repairs(failed: Result) returns (ending: Option<Todo>)
      requires Verified(failed, 0) && failed.Exit? && !Clean(failed)
      modifies this`stop, this`status, this`now, this`log, this`saved, this`history, this`trace, this`todo
      ensures Good() && (ending.Some? ==> ending.value == todo && Over(todo))
      ensures ending.None? ==> todo.ReadGit? && NextPhase(s, trace) == Some(Review)
      ensures ending.None? ==> TallyOf(trace).reviews == TallyOf(trace).reviewRepairs == 0
    {
      var round, result := 1, failed;
      VerificationLeads(s, trace, result);
      while round <= s.repairRounds
        invariant 1 <= round <= s.repairRounds + 1 || s.repairRounds == 0
        invariant Verified(result, round - 1) && result.Exit? && !Clean(result)
        invariant if round <= s.repairRounds then todo == Run(Repair)
                  else todo.ReadGit? && NextPhase(s, trace) == Some(Review)
      {
        ending, result := RepairRound(round);
        if ending.Some? {
          return;
        }
        VerificationLeads(s, trace, result);
        if Clean(result) {
          break;
        }
        round := round + 1;
      }
      ending := None;
    }

    /** One repair and the verification after it. */
    method RepairRound(round: nat) returns (ending: Option<Todo>, result: Result)
      requires round >= 1 && Good() && todo == Run(Repair) && TallyOf(trace) == Tally(round - 1, 0, 0) && s.hasTests
      modifies this`stop, this`status, this`now, this`log, this`saved, this`history, this`trace, this`todo
      ensures Good() && (ending.Some? ==> ending.value == todo && Over(todo))
      ensures ending.None? ==> Verified(result, round) && !result.Crash?
    {
      result := Crash;
      ending := RunCodex(Repair);
      if ending.Some? {
        return;
      }
      result := RunVerification();
      ending := if result.Crash? then Some(Raise) else None;
    }

    /** Repair, verify where there are tests, review again. */
    method ReviewRound(round: nat) returns (ending: Option<Todo>, result: Result)
      requires Good() && todo == Run(ReviewRepair) && TallyOf(trace).reviews > 0
      requires round >= 1 && TallyOf(trace).reviewRepairs == round - 1
      modifies this`stop, this`status, this`now, this`log, this`saved, this`history, this`trace, this`todo
      ensures Good() && (ending.Some? ==> ending.value == todo && Over(todo))
      ensures ending.None? ==> Reviewed(result, round) && !result.Skipped?
    {
      result := Crash;
      ending := RepairAndTest();
      if ending.Some? {
        return;
      }
      var ok := ReadGit();
      if !ok {
        return Some(Raise), Crash;
      }
      result := RunPhase(ReReview);
    }

    method RepairAndTest() returns (ending: Option<Todo>)
      requires Good() && todo == Run(ReviewRepair) && TallyOf(trace).reviews > 0
      modifies this`stop, this`status, this`now, this`log, this`saved, this`history, this`trace, this`todo
      ensures Good() && (ending.Some? ==> ending.value == todo && Over(todo))
      ensures ending.None? ==> TallyOf(trace) == Bump(old(TallyOf(trace)), ReviewRepair)
      ensures ending.None? ==> todo.ReadGit? && NextPhase(s, trace) == Some(ReReview)
    {
      ending := RunCodex(ReviewRepair);
      if ending.None? && s.hasTests {
        var tested := RunVerification();
        ending := if tested.Crash? then Some(Raise) else None;
      }
    }

    /** The trace ends with this review, the first one or that of a repair round. */
    ghost predicate Reviewed(result: Result, rounds: nat)
      reads this
    {
      && Good() && trace != [] && trace[|trace| - 1] == Step(if rounds == 0 then Review else ReReview, result)
      && TallyOf(trace).reviewRepairs == rounds && TallyOf(trace).reviews > 0 && todo == Onward(s, trace)
    }

    /** The review and the repairs it asks for. */
    method ReviewLoop() returns (ending: Option<Todo>)
      requires Good() && todo == Run(Review) && TallyOf(trace).reviews == TallyOf(trace).reviewRepairs == 0
      modifies this`stop, this`status, this`now, this`log, this`saved, this`history, this`trace, this`todo
      ensures Good() && Over(todo) && todo == if ending.Some? then ending.value else Finish
    {
      var result := RunPhase(Review);
      if !Clean(result) || !result.changes {
        return None;
      }
      ending := ReviewRepairs(result);
    }

    /** The loop over the review repairs; a re-review counts whatever its exit code. */
    method ReviewRepairs(review: Result) returns (ending: Option<Todo>)
      requires Reviewed(review, 0) && Clean(review) && review.changes
      modifies this`stop, this`status, this`now, this`log, this`saved, this`history, this`trace, this`todo
      ensures Good() && Over(todo) && todo == if ending.Some? then ending.value else Finish
    {
      var round, result := 1, review;
      while round <= s.reviewRounds
        invariant 1 <= round <= s.reviewRounds + 1 || s.reviewRounds == 0
        invariant Reviewed(result, round - 1) && result.Exit? && result.changes && (round == 1 ==> Clean(result))
      {
        ending, result := ReviewRound(round);
        if ending.Some? {
          return;
        }
        if !(result.Exit? && result.changes) {
          break;
        }
        round := round + 1;
      }
      ending := None;
    }

    /** From the checks of the workspace to the last review. */
    method RunPhases() returns (ending: Todo)
      requires Good() && todo.Admit? && trace == []
      modifies this`stop, this`status, this`now, this`log, this`saved, this`history, this`trace, this`todo
      ensures Good() && Over(todo) && ending == todo
    {
      var ok := CheckWorkspace();
      if !ok {
        return Raise;
      }
      var early := RunArchitect();
      if early.None? {
        early := RunCodex(Executor);
      }
      if early.Some? {
        return early.value;
      }
      ending := RunChecks();
    }

    /** From the first verification to the last review. */
    method RunChecks() returns (ending: Todo)
      requires Good() && todo == Run(Verify) && TallyOf(trace) == Tally(0, 0, 0)
      modifies this`stop, this`status, this`now, this`log, this`saved, this`history, this`trace, this`todo
      ensures Good() && Over(todo) && ending == todo
    {
      var early := RepairLoop();
      if early.Some? {
        return early.value;
      }
      var ok := ReadGit();
      if !ok {
        return Raise;
      }
      early := ReviewLoop();
      return if early.Some? then early.value else Finish;
    }

    method Moments(count: nat)
      modifies this`stop, this`status, this`now
      ensures now == old(now) + count && (old(status) == Running ==> status == Running)
    {
      for i := 0 to count
        invariant now == old(now) + i && (old(status) == Running ==> status == Running)
      {
        Moment();
      }
    }

    /** The row is loaded and marked running. */
    method MarkRunning() returns (loaded: bool)
      requires saved == []
      modifies this`stop, this`status, this`now, this`saved
      ensures now == old(now) + 4 && status == Running && saved == [Running]
      ensures loaded == (old(stop) || env.stopAt(old(now)))
    {
      Moment();
      loaded := stop;
      Moments(1);
      Save(Running);
      Moments(2);
    }

    /** And its runtime control is written back as it was loaded. */
    method Prepare()
      requires log == [] && history == [] && saved == [] && !sessionCompleted
      modifies this`stop, this`status, this`now, this`saved, this`kept, this`prepared, this`trace, this`todo
      ensures Good() && todo.Admit? && trace == [] && prepared == now == old(now) + 4
      ensures kept <==> old(stop) || env.stopAt(old(now))
    {
      var loaded := MarkRunning();
      stop := loaded;
      kept, prepared, trace, todo := loaded, now, [], Admit;
      RecallsMeans(s, log, trace, todo);
    }

    /** The last saves: the run fails, or it and its session are completed.  A stopped run was saved by its check. */
    method Conclude(ending: Todo) returns (raised: bool)
      requires Good() && Over(todo) && ending == todo
      modifies this`stop, this`status, this`now, this`saved, this`sessionCompleted
      ensures FlagKept() && now >= old(now) && raised == todo.Raise?
      ensures status == StatusAfter(todo) && (sessionCompleted <==> todo.Finish?)
      ensures saved == [Running, StatusAfter(todo)]
    {
      if ending.Halt? {
        return false;
      }
      Pass();
      if ending.Raise? {
        Save(Failed);
        return true;
      }
      Save(Completed);
      Pass();
      sessionCompleted := true;
      return false;
    }

    /**
      `execute_mars_run`.  What the run did is the one lawful log of its environment, and that log decides how it ends:
      STOPPED if the flag was seen, FAILED if the workspace, git or a phase failed, COMPLETED otherwise.  The flag keeps
      exactly the requests served before the row was loaded or after the preparation was saved.
     */
    method Execute() returns (raised: bool)
      requires log == [] && history == [] && saved == [] && !sessionCompleted
      modifies this
      ensures prepared == old(now) + 4 && (kept <==> old(stop) || env.stopAt(old(now)))
      ensures Lawful(s, env, kept, prepared, log) && Over(Due(s, log)) && history == HistoryOf(Steps(log))
      ensures status == StatusAfter(Due(s, log)) && saved == [Running, status] && (raised <==> status == Failed)
      ensures now >= prepared + |log| && (stop <==> kept || Requested(env.stopAt, prepared, now))
      ensures sessionCompleted <==> status == Completed
      ensures log != [] && (status == Stopped <==> log[|log| - 1] == Checked(true))
      ensures status == Completed <==>
                log[|log| - 1].Ran? && (log[|log| - 1].step.phase.Review? || log[|log| - 1].step.phase.ReReview?)
      ensures status == Stopped || status == Completed || (status == Failed && raised)
    {
      Prepare();
      var ending := RunPhases();
      RecallsMeans(s, log, trace, todo);
      LastEventGivesStatus(s, env, kept, prepared, log);
      raised := Conclude(ending);
    }
  }

  /**
    A stop request served while the preparation runs is lost: the flag is overwritten and the run completes, although
    `api_run_stop` had stored it.  `Execute` says exactly which requests survive.
   */
  method LostStop() returns (w: MarsWorker)
    ensures w.env.stopAt(1) && w.status == Completed && !w.stop
  {
    var env := Env(k => k == 1, k => Exit(0, false), false, k => false);
    w := new MarsWorker(Settings(1, 1, false, true), env);
    var raised := w.Execute();
    RequestedMeans(env.stopAt, w.prepared, w.now);
    RequestedMeans(env.stopAt, w.prepared, w.prepared + |w.log|);
    EndingsExactly(w.s, w.log);
    assert Fits(w.s, env, w.kept, w.prepared, w.log, |w.log| - 1);
  }

  /** A stop request that is served while Codex runs, and kills it, ends the run FAILED and not STOPPED: the executor
      is in await 7.  `StoppedOrKilled` says exactly when a run with a stored stop ends which way. */
  method KilledByStop() returns (w: MarsWorker)
    ensures w.env.stopAt(7) && w.status == Failed && w.stop
  {
    var env := Env(k => k == 7, k => Exit(if k == 7 then -15 else 0, false), false, k => false);
    w := new MarsWorker(Settings(1, 1, false, true), env);
    var raised := w.Execute();
    assert StoredFrom(env, w.kept, w.prepared, 7);
    SecondAct(w.s, env, w.kept, w.prepared, w.log);
    RequestedMeans(env.stopAt, w.prepared, w.prepared + 3);
    StoppedOrKilled(w.s, env, w.kept, w.prepared, w.log, 7, 3);
    RequestedMeans(env.stopAt, w.prepared, w.now);
  }
}
