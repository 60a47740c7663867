/** What each outcome of an update means: the whole course of its worker, from its first step. */
module ExecutorTrail {
  import opened ExecutorMachine
  import opened Optional

  /** How the command or file of a step came out; notes of the phase may be either. */
  datatype Verdict = Yes | No | Either

  datatype Step = Step(at: Point, verdict: Verdict)

  predicate Fits(answer: Option<string>, verdict: Verdict) {
    match verdict case Yes => answer.Some? case No => answer.None? case Either => true
  }

  ghost predicate StepAt(log: seq<Entry>, i: nat, worker: nat, step: Step) {
    i < |log| && log[i].worker == worker && log[i].before.at == step.at && Fits(log[i].answer, step.verdict)
  }

  /** Right before entry `i`, its worker took these steps. */
  ghost predicate Took(log: seq<Entry>, i: nat, steps: seq<Step>) {
    && |steps| <= i < |log|
    && forall k: nat :: k < |steps| ==> StepAt(log, i - |steps| + k, log[i].worker, steps[k])
  }

  const PULLED := [Step(Resolve, Yes), Step(PullPhase, Either), Step(Pull, Yes)]
  const SWAPPED := PULLED + [Step(RestartPhase, Either), Step(SwapOverride, Yes), Step(VerifyPhase, Either)]
  const NOT_WRITTEN := PULLED + [Step(RestartPhase, Either), Step(SwapOverride, No)]
  const NOT_HEALTHY := SWAPPED + [Step(Up, No)]

  const LOOKED_BACK := [Step(RecoverPhase, Either), Step(Inspect, Either)]
  const STILL_DOWN := LOOKED_BACK + [Step(RecoverOverride, Yes), Step(RecoverUp, No)]

  /** The steps of a recovery with this outcome. */
  function RecoverySteps(o: Outcome): seq<Step> {
    match o
    case RollbackFailed => LOOKED_BACK + [Step(RecoverOverride, No)]
    case HealthyAgain => LOOKED_BACK + [Step(RecoverOverride, Yes), Step(RecoverUp, Yes)]
    case NoBackup => STILL_DOWN
    case StopFailed => STILL_DOWN + [Step(Stop, No)]
    case RestoreFailed => STILL_DOWN + [Step(Stop, Yes), Step(Restore, No)]
    case StillUnhealthy => STILL_DOWN + [Step(Stop, Yes), Step(Restore, Yes), Step(RestoredUp, No)]
    case HealthyAfterRestore => STILL_DOWN + [Step(Stop, Yes), Step(Restore, Yes), Step(RestoredUp, Yes)]
    case _ => []
  }

  /** All of the steps of a worker that ends with this outcome. */
  ghost predicate TookCourse(log: seq<Entry>, i: nat, o: Outcome) {
    match o
    case ReleaseFailed => Took(log, i, [Step(Resolve, No)])
    case PullFailed => Took(log, i, [Step(Resolve, Yes), Step(PullPhase, Either), Step(Pull, No)])
    case Success => Took(log, i, SWAPPED + [Step(Up, Yes)])
    case _ => Took(log, i, NOT_WRITTEN + RecoverySteps(o)) || Took(log, i, NOT_HEALTHY + RecoverySteps(o))
  }

  // ---- Going back step by step ----------------------------------------------------------------------

  lemma TookOne(log: seq<Entry>, i: nat, step: Step)
    requires 0 < i < |log| && StepAt(log, i - 1, log[i].worker, step)
    ensures Took(log, i, [step])
  {
  }

  /** One step more. */
  lemma TookMore(log: seq<Entry>, i: nat, steps: seq<Step>, step: Step)
    requires 0 < i < |log| && Took(log, i - 1, steps) && StepAt(log, i - 1, log[i].worker, step)
    ensures Took(log, i, steps + [step])
  {
    var all := steps + [step];
    forall k: nat | k < |all| ensures StepAt(log, i - |all| + k, log[i].worker, all[k]) {
      if k < |steps| { assert StepAt(log, i - 1 - |steps| + k, log[i - 1].worker, steps[k]); }
    }
  }

  /** The step before, of a point that is reached in one way only. */
  lemma Before(config: Config, log: seq<Entry>, i: nat, step: Step)
    requires LogOk(config, log) && i < |log| && log[i].before.at != Resolve
    requires forall w: Worker, answer :: NextPoint(w, answer) == log[i].before.at && w.at != Done && !w.at.Finish? ==>
               w.at == step.at && Fits(answer, step.verdict)
    ensures i > 0 && StepAt(log, i - 1, log[i].worker, step)
    ensures log[i - 1].before.at == step.at
  {
    CameFrom(config, log, i);
    assert Linked(config, log, i) && Linked(config, log, i - 1);
    assert NextPoint(log[i - 1].before, log[i - 1].answer) == log[i].before.at;
  }

  lemma AtRestart(config: Config, log: seq<Entry>, i: nat)
    requires LogOk(config, log) && i < |log| && log[i].before.at == RestartPhase
    ensures Took(log, i, PULLED)
  {
    Before(config, log, i, Step(Pull, Yes));
    Before(config, log, i - 1, Step(PullPhase, Either));
    Before(config, log, i - 2, Step(Resolve, Yes));
    TookOne(log, i - 2, Step(Resolve, Yes));
    TookMore(log, i - 1, [Step(Resolve, Yes)], Step(PullPhase, Either));
    TookMore(log, i, [Step(Resolve, Yes), Step(PullPhase, Either)], Step(Pull, Yes));
  }

  lemma AtSwap(config: Config, log: seq<Entry>, i: nat)
    requires LogOk(config, log) && i < |log| && log[i].before.at == SwapOverride
    ensures Took(log, i, PULLED + [Step(RestartPhase, Either)])
  {
    Before(config, log, i, Step(RestartPhase, Either));
    AtRestart(config, log, i - 1);
    TookMore(log, i, PULLED, Step(RestartPhase, Either));
  }

  lemma AtUp(config: Config, log: seq<Entry>, i: nat)
    requires LogOk(config, log) && i < |log| && log[i].before.at == Up
    ensures Took(log, i, SWAPPED)
  {
    var started := PULLED + [Step(RestartPhase, Either)];
    Before(config, log, i, Step(VerifyPhase, Either));
    Before(config, log, i - 1, Step(SwapOverride, Yes));
    AtSwap(config, log, i - 2);
    TookMore(log, i - 1, started, Step(SwapOverride, Yes));
    TookMore(log, i, started + [Step(SwapOverride, Yes)], Step(VerifyPhase, Either));
    assert SWAPPED == started + [Step(SwapOverride, Yes)] + [Step(VerifyPhase, Either)];
  }

  /** The recovery has taken these steps, after either of the failures that lead to it. */
  ghost predicate TookRecovery(log: seq<Entry>, i: nat, steps: seq<Step>) {
    Took(log, i, NOT_WRITTEN + steps) || Took(log, i, NOT_HEALTHY + steps)
  }

  lemma AtRecover(config: Config, log: seq<Entry>, i: nat)
    requires LogOk(config, log) && i < |log| && log[i].before.at == RecoverPhase
    ensures TookRecovery(log, i, [])
  {
    CameFrom(config, log, i);
    if log[i - 1].before.at == Up {
      AtUp(config, log, i - 1);
      TookMore(log, i, SWAPPED, Step(Up, No));
      assert NOT_HEALTHY + [] == SWAPPED + [Step(Up, No)];
    } else {
      AtSwap(config, log, i - 1);
      TookMore(log, i, PULLED + [Step(RestartPhase, Either)], Step(SwapOverride, No));
      assert NOT_WRITTEN + [] == PULLED + [Step(RestartPhase, Either)] + [Step(SwapOverride, No)];
    }
  }

  lemma RecoveryMore(log: seq<Entry>, i: nat, steps: seq<Step>, step: Step)
    requires 0 < i < |log| && TookRecovery(log, i - 1, steps) && StepAt(log, i - 1, log[i].worker, step)
    ensures TookRecovery(log, i, steps + [step])
  {
    if Took(log, i - 1, NOT_WRITTEN + steps) {
      TookMore(log, i, NOT_WRITTEN + steps, step);
      assert NOT_WRITTEN + steps + [step] == NOT_WRITTEN + (steps + [step]);
    } else {
      TookMore(log, i, NOT_HEALTHY + steps, step);
      assert NOT_HEALTHY + steps + [step] == NOT_HEALTHY + (steps + [step]);
    }
  }

  lemma AtRecoverOverride(config: Config, log: seq<Entry>, i: nat)
    requires LogOk(config, log) && i < |log| && log[i].before.at == RecoverOverride
    ensures TookRecovery(log, i, LOOKED_BACK)
  {
    Before(config, log, i, Step(Inspect, Either));
    Before(config, log, i - 1, Step(RecoverPhase, Either));
    AtRecover(config, log, i - 2);
    RecoveryMore(log, i - 1, [], Step(RecoverPhase, Either));
    var begun: seq<Step> := [] + [Step(RecoverPhase, Either)];
    RecoveryMore(log, i, begun, Step(Inspect, Either));
    assert begun + [Step(Inspect, Either)] == LOOKED_BACK;
  }

  const WRITTEN_BACK := LOOKED_BACK + [Step(RecoverOverride, Yes)]

  lemma AtRecoverUp(config: Config, log: seq<Entry>, i: nat)
    requires LogOk(config, log) && i < |log| && log[i].before.at == RecoverUp
    ensures TookRecovery(log, i, WRITTEN_BACK)
  {
    Before(config, log, i, Step(RecoverOverride, Yes));
    AtRecoverOverride(config, log, i - 1);
    RecoveryMore(log, i, LOOKED_BACK, Step(RecoverOverride, Yes));
  }

  lemma AtStop(config: Config, log: seq<Entry>, i: nat)
    requires LogOk(config, log) && i < |log| && log[i].before.at == Stop
    ensures TookRecovery(log, i, STILL_DOWN) && log[i].before.request.backup != ""
  {
    Before(config, log, i, Step(RecoverUp, No));
    CameFrom(config, log, i);
    AtRecoverUp(config, log, i - 1);
    RecoveryMore(log, i, WRITTEN_BACK, Step(RecoverUp, No));
    assert STILL_DOWN == WRITTEN_BACK + [Step(RecoverUp, No)];
  }

  lemma AtRestore(config: Config, log: seq<Entry>, i: nat)
    requires LogOk(config, log) && i < |log| && log[i].before.at == Restore
    ensures TookRecovery(log, i, STILL_DOWN + [Step(Stop, Yes)]) && log[i].before.request.backup != ""
  {
    Before(config, log, i, Step(Stop, Yes));
    CameFrom(config, log, i);
    AtStop(config, log, i - 1);
    RecoveryMore(log, i, STILL_DOWN, Step(Stop, Yes));
  }

  lemma AtRestoredUp(config: Config, log: seq<Entry>, i: nat)
    requires LogOk(config, log) && i < |log| && log[i].before.at == RestoredUp
    ensures TookRecovery(log, i, STILL_DOWN + [Step(Stop, Yes), Step(Restore, Yes)])
    ensures log[i].before.request.backup != ""
  {
    Before(config, log, i, Step(Restore, Yes));
    CameFrom(config, log, i);
    AtRestore(config, log, i - 1);
    RecoveryMore(log, i, STILL_DOWN + [Step(Stop, Yes)], Step(Restore, Yes));
    assert STILL_DOWN + [Step(Stop, Yes)] + [Step(Restore, Yes)] == STILL_DOWN + [Step(Stop, Yes), Step(Restore, Yes)];
  }

  // ---- What the outcomes mean ---------------------------------------------------------------------

  predicate UsesBackup(o: Outcome) { o in [StopFailed, RestoreFailed, StillUnhealthy, HealthyAfterRestore] }

  /** The last step before the end. */
  lemma LastStep(config: Config, log: seq<Entry>, i: nat, step: Step)
    requires LogOk(config, log) && i < |log| && log[i].before.at.Finish?
    requires forall w: Worker, answer :: NextPoint(w, answer) == log[i].before.at && w.at != Done && !w.at.Finish? ==>
               w.at == step.at && Fits(answer, step.verdict)
    ensures i > 0 && StepAt(log, i - 1, log[i].worker, step) && log[i - 1].before.at == step.at
    ensures log[i - 1].before.request == log[i].before.request
    ensures NextPoint(log[i - 1].before, log[i - 1].answer) == log[i].before.at
  {
    Before(config, log, i, step);
    CameFrom(config, log, i);
  }

  lemma UpdateCourse(config: Config, log: seq<Entry>, i: nat)
    requires LogOk(config, log) && i < |log| && log[i].before.at.Finish?
    requires log[i].before.at.outcome in [Success, ReleaseFailed, PullFailed]
    ensures TookCourse(log, i, log[i].before.at.outcome)
  {
    match log[i].before.at.outcome
    case Success =>
      LastStep(config, log, i, Step(Up, Yes));
      AtUp(config, log, i - 1);
      TookMore(log, i, SWAPPED, Step(Up, Yes));
    case ReleaseFailed =>
      LastStep(config, log, i, Step(Resolve, No));
      TookOne(log, i, Step(Resolve, No));
    case PullFailed =>
      LastStep(config, log, i, Step(Pull, No));
      Before(config, log, i - 1, Step(PullPhase, Either));
      Before(config, log, i - 2, Step(Resolve, Yes));
      TookOne(log, i - 2, Step(Resolve, Yes));
      TookMore(log, i - 1, [Step(Resolve, Yes)], Step(PullPhase, Either));
      TookMore(log, i, [Step(Resolve, Yes), Step(PullPhase, Either)], Step(Pull, No));
  }

  lemma RollbackCourse(config: Config, log: seq<Entry>, i: nat)
    requires LogOk(config, log) && i < |log| && log[i].before.at.Finish?
    requires log[i].before.at.outcome in [RollbackFailed, HealthyAgain, NoBackup]
    ensures TookCourse(log, i, log[i].before.at.outcome)
    ensures log[i].before.at.outcome == NoBackup ==> log[i].before.request.backup == ""
  {
    match log[i].before.at.outcome
    case RollbackFailed =>
      LastStep(config, log, i, Step(RecoverOverride, No));
      AtRecoverOverride(config, log, i - 1);
      RecoveryMore(log, i, LOOKED_BACK, Step(RecoverOverride, No));
    case HealthyAgain =>
      LastStep(config, log, i, Step(RecoverUp, Yes));
      AtRecoverUp(config, log, i - 1);
      RecoveryMore(log, i, WRITTEN_BACK, Step(RecoverUp, Yes));
      assert RecoverySteps(HealthyAgain) == WRITTEN_BACK + [Step(RecoverUp, Yes)];
    case NoBackup =>
      LastStep(config, log, i, Step(RecoverUp, No));
      AtRecoverUp(config, log, i - 1);
      RecoveryMore(log, i, WRITTEN_BACK, Step(RecoverUp, No));
      assert STILL_DOWN == WRITTEN_BACK + [Step(RecoverUp, No)];
  }

  lemma BackupCourse(config: Config, log: seq<Entry>, i: nat)
    requires LogOk(config, log) && i < |log| && log[i].before.at.Finish? && UsesBackup(log[i].before.at.outcome)
    ensures TookCourse(log, i, log[i].before.at.outcome) && log[i].before.request.backup != ""
  {
    match log[i].before.at.outcome
    case StopFailed =>
      LastStep(config, log, i, Step(Stop, No));
      AtStop(config, log, i - 1);
      RecoveryMore(log, i, STILL_DOWN, Step(Stop, No));
    case RestoreFailed =>
      LastStep(config, log, i, Step(Restore, No));
      AtRestore(config, log, i - 1);
      RecoveryMore(log, i, STILL_DOWN + [Step(Stop, Yes)], Step(Restore, No));
      assert RecoverySteps(RestoreFailed) == STILL_DOWN + [Step(Stop, Yes)] + [Step(Restore, No)];
    case StillUnhealthy =>
      LastStep(config, log, i, Step(RestoredUp, No));
      AtRestoredUp(config, log, i - 1);
      RecoveryMore(log, i, STILL_DOWN + [Step(Stop, Yes), Step(Restore, Yes)], Step(RestoredUp, No));
      assert RecoverySteps(StillUnhealthy) ==
             STILL_DOWN + [Step(Stop, Yes), Step(Restore, Yes)] + [Step(RestoredUp, No)];
    case HealthyAfterRestore =>
      LastStep(config, log, i, Step(RestoredUp, Yes));
      AtRestoredUp(config, log, i - 1);
      RecoveryMore(log, i, STILL_DOWN + [Step(Stop, Yes), Step(Restore, Yes)], Step(RestoredUp, Yes));
      assert RecoverySteps(HealthyAfterRestore) ==
             STILL_DOWN + [Step(Stop, Yes), Step(Restore, Yes)] + [Step(RestoredUp, Yes)];
  }

  /** Every update that ends took the course of its outcome, from its first step; and whether a backup was
      named decides what follows when the previous image does not come up either. */
  lemma OutcomeMeans(config: Config, log: seq<Entry>, i: nat)
    requires LogOk(config, log) && i < |log| && log[i].before.at.Finish?
    ensures TookCourse(log, i, log[i].before.at.outcome)
    ensures log[i].before.at.outcome == NoBackup ==> log[i].before.request.backup == ""
    ensures UsesBackup(log[i].before.at.outcome) ==> log[i].before.request.backup != ""
  {
    match log[i].before.at.outcome
    case Success | ReleaseFailed | PullFailed => UpdateCourse(config, log, i);
    case RollbackFailed | HealthyAgain | NoBackup => RollbackCourse(config, log, i);
    case _ => BackupCourse(config, log, i);
  }

  /** A course begins with the first step of its worker. */
  lemma ResolveIsFirst(config: Config, log: seq<Entry>, i: nat, k: nat)
    requires LogOk(config, log) && k < i < |log| && log[i].before.at == Resolve
    ensures log[k].worker < log[i].worker
  {
    assert Linked(config, log, i) && Linked(config, log, i - 1);
    InOrder(config, log, k, i - 1);
  }

  /** What a recovery writes is what the container reported as its image, or the stable tag if it
      reported none. */
  lemma RecoversReportedImage(config: Config, log: seq<Entry>, i: nat)
    requires LogOk(config, log) && i < |log| && log[i].before.at == RecoverOverride
    ensures i > 0 && log[i - 1].worker == log[i].worker && log[i - 1].before.at == Inspect
    ensures log[i - 1].answer in {None, Some("")} ==> log[i].before.image == config.stable
    ensures log[i - 1].answer !in {None, Some("")} ==> log[i - 1].answer == Some(log[i].before.image)
  {
    Before(config, log, i, Step(Inspect, Either));
    CameFrom(config, log, i);
  }

  // ---- What the status shows ------------------------------------------------------------------------

  /** The phases that may be shown while a worker is about to take this step. */
  function Shows(at: Point): set<Phase> {
    match at
    case Resolve => {Queued}
    case PullPhase => {Queued}
    case Pull => {Pulling}
    case RestartPhase => {Pulling}
    case SwapOverride => {Restarting}
    case VerifyPhase => {Restarting}
    case Up => {VerifyingHealth}
    case RecoverPhase => {Restarting, VerifyingHealth}
    case Inspect => {Recovering}
    case RecoverOverride => {Recovering}
    case RecoverUp => {Recovering}
    case Stop => {Recovering}
    case Restore => {Recovering}
    case RestoredUp => {Recovering}
    case Finish(o) =>
      if o == ReleaseFailed then {Queued} else if o == PullFailed then {Pulling}
      else if o == Success then {VerifyingHealth} else {Recovering}
    case Done => {Queued}
  }

  ghost predicate PhaseOk(s: State) {
    if s.workers == [] then s.status.phase == Queued
    else s.status.phase in Shows(s.workers[|s.workers| - 1].at)
  }

  lemma WorkShows(status: Status, w: Worker, answer: Option<string>)
    requires status.phase in Shows(w.at) && w.at != Done
    ensures StatusAfter(status, w).phase in Shows(NextPoint(w, answer))
  {
    match w.at {
      case RecoverUp =>
      case _ =>
    }
  }

  lemma PhaseStarts(config: Config, s: State, s': State, request: Request)
    requires Starts(config, s, s', request)
    ensures PhaseOk(s')
  {
    assert s'.workers[|s.workers|].at == Resolve;
  }

  lemma PhaseWorks(config: Config, s: State, s': State, id: nat, answer: Option<string>)
    requires Works(config, s, s', id, answer) && PhaseOk(s) && id == |s.workers| - 1
    ensures PhaseOk(s')
  {
    WorkShows(s.status, s.workers[id], answer);
    assert s'.workers[id] == Advance(config, s.workers[id], answer);
  }

  lemma PhaseStays(config: Config, s: State, s': State)
    requires Inv(config, s) && PhaseOk(s) && Next(config, s, s')
    ensures PhaseOk(s')
  {
    if request :| Starts(config, s, s', request) {
      PhaseStarts(config, s, s', request);
    } else {
      var id: nat, answer :| Works(config, s, s', id, answer);
      WorkKeeps(config, s, s', id, answer);
      PhaseWorks(config, s, s', id, answer);
    }
  }

  /** In every run the status shows the phase that the current update is in. */
  lemma {:induction false} PhaseIsShown(config: Config, run: seq<State>, k: nat)
    requires IsRun(config, run) && k < |run|
    ensures PhaseOk(run[k])
  {
    if k > 0 {
      PhaseIsShown(config, run, k - 1);
      RunKeepsInv(config, run, k - 1);
      assert Follows(config, run, k - 1);
      PhaseStays(config, run[k - 1], run[k]);
    }
  }
}
