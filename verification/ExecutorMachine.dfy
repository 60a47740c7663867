/** The update executor as a state machine: any number of start requests against the worker each
    accepted request spawns. One step is one command, one file written, or one locked section. */
module ExecutorMachine {
  import opened Optional

  /** What the executor is configured with; the version pattern is kept abstract. */
  datatype Config = Config(valid: string -> bool, stable: string)

  datatype Request = Request(version: string, backup: string)

  datatype Outcome =
    | Success | ReleaseFailed | PullFailed | RollbackFailed | HealthyAgain | NoBackup | StopFailed | RestoreFailed
    | StillUnhealthy | HealthyAfterRestore

  /** Where a worker is: what it does next. */
  datatype Point =
    | Resolve | PullPhase | Pull
    | RestartPhase | SwapOverride | VerifyPhase | Up
    | RecoverPhase | Inspect | RecoverOverride | RecoverUp | Stop | Restore | RestoredUp
    | Finish(outcome: Outcome) | Done

  datatype Worker = Worker(request: Request, at: Point, image: string)

  datatype Activity = Idle | Running | Succeeded | Failed
  datatype Phase = Queued | Pulling | Restarting | VerifyingHealth | Recovering
  datatype Status = Status(activity: Activity, phase: Phase, target: string)

  /** A worker takes a step; `answer` is what the command, the file system or GitHub answers. */
  datatype Entry = Entry(worker: nat, before: Worker, answer: Option<string>)

  datatype State = State(status: Status, override: string, workers: seq<Worker>, log: seq<Entry>)

  function Branch(answer: Option<string>, good: Point, bad: Point): Point {
    if answer.Some? then good else bad
  }

  function NextPoint(w: Worker, answer: Option<string>): Point {
    match w.at
    case Resolve => Branch(answer, PullPhase, Finish(ReleaseFailed))
    case PullPhase => Pull
    case Pull => Branch(answer, RestartPhase, Finish(PullFailed))
    case RestartPhase => SwapOverride
    case SwapOverride => Branch(answer, VerifyPhase, RecoverPhase)
    case VerifyPhase => Up
    case Up => Branch(answer, Finish(Success), RecoverPhase)
    case RecoverPhase => Inspect
    case Inspect => RecoverOverride
    case RecoverOverride => Branch(answer, RecoverUp, Finish(RollbackFailed))
    case RecoverUp => Branch(answer, Finish(HealthyAgain), if w.request.backup == "" then Finish(NoBackup) else Stop)
    case Stop => Branch(answer, Restore, Finish(StopFailed))
    case Restore => Branch(answer, RestoredUp, Finish(RestoreFailed))
    case RestoredUp => Branch(answer, Finish(HealthyAfterRestore), Finish(StillUnhealthy))
    case Finish(_) => Done
    case Done => Done
  }

  /** The image a worker is to write: the resolved one, and for a rollback the one reported by the
      container, or the stable tag if nothing is. */
  function NextImage(config: Config, w: Worker, answer: Option<string>): string {
    match w.at
    case Resolve => if answer.Some? then answer.value else w.image
    case Inspect => if answer.Some? && answer.value != "" then answer.value else config.stable
    case _ => w.image
  }

  function Advance(config: Config, w: Worker, answer: Option<string>): Worker {
    Worker(w.request, NextPoint(w, answer), NextImage(config, w, answer))
  }

  function StatusAfter(status: Status, w: Worker): Status {
    match w.at
    case PullPhase => status.(phase := Pulling)
    case RestartPhase => status.(phase := Restarting)
    case VerifyPhase => status.(phase := VerifyingHealth)
    case RecoverPhase => status.(phase := Recovering)
    case Finish(o) => Status(if o == Success then Succeeded else Failed, Queued, w.request.version)
    case _ => status
  }

  /** A failed write leaves any content behind. */
  ghost predicate OverrideAfter(before: string, after: string, w: Worker, answer: Option<string>) {
    if w.at == SwapOverride || w.at == RecoverOverride then answer.Some? ==> after == w.image else after == before
  }

  const INITIAL_STATUS := Status(Idle, Queued, "")

  ghost predicate Init(s: State) {
    s.status == INITIAL_STATUS && s.workers == [] && s.log == []
  }

  /** A request is refused, without effect, while the status is running. */
  ghost predicate Starts(config: Config, s: State, s': State, request: Request) {
    && config.valid(request.version) && s.status.activity != Running
    && s' == State(Status(Running, Queued, request.version), s.override,
                   s.workers + [Worker(request, Resolve, "")], s.log)
  }

  ghost predicate Works(config: Config, s: State, s': State, id: nat, answer: Option<string>) {
    && id < |s.workers| && s.workers[id].at != Done
    && OverrideAfter(s.override, s'.override, s.workers[id], answer)
    && s' == State(StatusAfter(s.status, s.workers[id]), s'.override,
                   s.workers[id := Advance(config, s.workers[id], answer)],
                   s.log + [Entry(id, s.workers[id], answer)])
  }

  ghost predicate Next(config: Config, s: State, s': State) {
    || (exists request :: Starts(config, s, s', request))
    || (exists id: nat, answer :: Works(config, s, s', id, answer))
  }

  ghost predicate Follows(config: Config, run: seq<State>, i: nat) {
    i + 1 < |run| ==> Next(config, run[i], run[i + 1])
  }

  ghost predicate IsRun(config: Config, run: seq<State>) {
    run != [] && Init(run[0]) && forall i: nat :: Follows(config, run, i)
  }

  // ---- The invariant ---------------------------------------------------------------------------------

  /** Only the last worker may be unfinished, and the status is running exactly while it is. */
  ghost predicate SingleFlight(s: State) {
    && (forall id :: 0 <= id < |s.workers| - 1 ==> s.workers[id].at == Done)
    && (s.status.activity == Running <==> s.workers != [] && s.workers[|s.workers| - 1].at != Done)
  }

  function First(request: Request): Worker { Worker(request, Resolve, "") }

  /** `e` continues the log: the same worker one step on, or the next worker after the previous one
      finished. */
  ghost predicate Continues(config: Config, p: Entry, e: Entry) {
    || (e.worker == p.worker && e.before == Advance(config, p.before, p.answer) && !p.before.at.Finish?)
    || (e.worker == p.worker + 1 && e.before == First(e.before.request) && p.before.at.Finish?)
  }

  ghost predicate Linked(config: Config, log: seq<Entry>, i: nat)
    requires i < |log|
  {
    && log[i].before.at != Done
    && if i == 0 then log[i].worker == 0 && log[i].before == First(log[i].before.request)
       else Continues(config, log[i - 1], log[i])
  }

  ghost predicate LogOk(config: Config, log: seq<Entry>) {
    forall i: nat :: i < |log| ==> Linked(config, log, i)
  }

  /** The last worker stands right after its last entry, or has made none. */
  ghost predicate TailOk(config: Config, workers: seq<Worker>, log: seq<Entry>) {
    if workers == [] then log == []
    else
      var last, w := |workers| - 1, workers[|workers| - 1];
      if log != [] && log[|log| - 1].worker == last
      then w == Advance(config, log[|log| - 1].before, log[|log| - 1].answer)
      else
        w == First(w.request) &&
        if log == [] then last == 0 else log[|log| - 1].worker == last - 1 && log[|log| - 1].before.at.Finish?
  }

  /** A write succeeded and none was tried since. */
  predicate Written(at: Point) {
    || at in [VerifyPhase, Up, RecoverUp, Stop, Restore, RestoredUp]
    || (at.Finish? && at.outcome !in [ReleaseFailed, PullFailed, RollbackFailed])
  }

  /** The status names the last request; the override file holds the image written last; and a
      success is reported only for a worker that ended in one. */
  ghost predicate ReportOk(s: State) {
    && (s.workers != [] ==>
          var w := s.workers[|s.workers| - 1];
          s.status.target == w.request.version && (Written(w.at) ==> s.override == w.image))
    && (s.status.activity == Succeeded ==>
          && s.workers != [] && s.log != []
          && var e := s.log[|s.log| - 1];
             e.worker == |s.workers| - 1 && e.before.at == Finish(Success) && s.override == e.before.image)
  }

  ghost predicate Inv(config: Config, s: State) {
    SingleFlight(s) && LogOk(config, s.log) && TailOk(config, s.workers, s.log) && ReportOk(s)
  }

  lemma PointOnlyDone(w: Worker, answer: Option<string>)
    ensures NextPoint(w, answer) == Done <==> w.at.Finish? || w.at == Done
  {
  }

  /** A finished last worker has logged its end. */
  lemma LastIsDone(config: Config, workers: seq<Worker>, log: seq<Entry>)
    requires LogOk(config, log) && TailOk(config, workers, log) && workers != [] && workers[|workers| - 1].at == Done
    ensures log != [] && log[|log| - 1].worker == |workers| - 1 && log[|log| - 1].before.at.Finish?
  {
    if log != [] {
      assert Linked(config, log, |log| - 1);
      PointOnlyDone(log[|log| - 1].before, log[|log| - 1].answer);
    }
  }

  lemma StartKeeps(config: Config, s: State, s': State, request: Request)
    requires Inv(config, s) && Starts(config, s, s', request)
    ensures Inv(config, s')
  {
    if s.workers != [] { LastIsDone(config, s.workers, s.log); }
  }

  lemma LogGrows(config: Config, log: seq<Entry>, e: Entry)
    requires LogOk(config, log) && e.before.at != Done
    requires if log == [] then e.worker == 0 && e.before == First(e.before.request)
             else Continues(config, log[|log| - 1], e)
    ensures LogOk(config, log + [e])
  {
    forall i: nat | i < |log + [e]| ensures Linked(config, log + [e], i) {
      if i < |log| { assert Linked(config, log, i); }
    }
  }

  lemma WorkerContinues(config: Config, workers: seq<Worker>, log: seq<Entry>, answer: Option<string>)
    requires LogOk(config, log) && TailOk(config, workers, log) && workers != []
    requires workers[|workers| - 1].at != Done
    ensures var e := Entry(|workers| - 1, workers[|workers| - 1], answer);
            if log == [] then e.worker == 0 && e.before == First(e.before.request)
            else Continues(config, log[|log| - 1], e)
  {
    if log != [] { PointOnlyDone(log[|log| - 1].before, log[|log| - 1].answer); }
  }

  lemma WorkKeeps(config: Config, s: State, s': State, id: nat, answer: Option<string>)
    requires Inv(config, s) && Works(config, s, s', id, answer)
    ensures id == |s.workers| - 1 && Inv(config, s')
  {
    var e := Entry(id, s.workers[id], answer);
    WorkerContinues(config, s.workers, s.log, answer);
    LogGrows(config, s.log, e);
    PointOnlyDone(s.workers[id], answer);
    ReportKeeps(config, s, s', id, answer);
  }

  lemma ReportKeeps(config: Config, s: State, s': State, id: nat, answer: Option<string>)
    requires SingleFlight(s) && ReportOk(s) && Works(config, s, s', id, answer)
    ensures ReportOk(s')
  {
  }

  lemma NextKeepsInv(config: Config, s: State, s': State)
    requires Inv(config, s) && Next(config, s, s')
    ensures Inv(config, s')
  {
    if request :| Starts(config, s, s', request) {
      StartKeeps(config, s, s', request);
    } else {
      var id: nat, answer :| Works(config, s, s', id, answer);
      WorkKeeps(config, s, s', id, answer);
    }
  }

  lemma {:induction false} RunKeepsInv(config: Config, run: seq<State>, i: nat)
    requires IsRun(config, run) && i < |run|
    ensures Inv(config, run[i])
  {
    if i > 0 {
      RunKeepsInv(config, run, i - 1);
      assert Follows(config, run, i - 1);
      NextKeepsInv(config, run[i - 1], run[i]);
    }
  }

  /** While an update runs, the only steps there are are those of its worker. */
  lemma OnlyTheWorkerSteps(config: Config, run: seq<State>, k: nat) returns (answer: Option<string>)
    requires IsRun(config, run) && k + 1 < |run| && run[k].status.activity == Running
    ensures run[k].workers != [] && Works(config, run[k], run[k + 1], |run[k].workers| - 1, answer)
  {
    RunKeepsInv(config, run, k);
    assert Follows(config, run, k);
    var id: nat, a :| Works(config, run[k], run[k + 1], id, a);
    WorkKeeps(config, run[k], run[k + 1], id, a);
    answer := a;
  }

  lemma RunExtends(config: Config, run: seq<State>, s': State)
    requires IsRun(config, run) && Next(config, run[|run| - 1], s')
    ensures IsRun(config, run + [s'])
  {
    var run' := run + [s'];
    forall i: nat ensures Follows(config, run', i) {
      if i + 1 < |run| { assert Follows(config, run, i); }
    }
  }

  // ---- What every log says -----------------------------------------------------------------------------

  /** Updates do not interleave: the log is the log of the first worker, then of the second, and so on. */
  lemma {:induction false} InOrder(config: Config, log: seq<Entry>, i: nat, j: nat)
    requires LogOk(config, log) && i <= j < |log|
    ensures log[i].worker <= log[j].worker
  {
    if i < j {
      InOrder(config, log, i, j - 1);
      assert Linked(config, log, j);
    }
  }

  lemma NoneBetween(config: Config, log: seq<Entry>, i: nat, k: nat, j: nat)
    requires LogOk(config, log) && i <= k <= j < |log| && log[i].worker == log[j].worker
    ensures log[k].worker == log[i].worker
  {
    InOrder(config, log, i, k);
    InOrder(config, log, k, j);
  }

  /** Finishing is the last thing a worker does, so it finishes once. */
  lemma FinishIsLast(config: Config, log: seq<Entry>, i: nat, j: nat)
    requires LogOk(config, log) && i < j < |log| && log[i].before.at.Finish?
    ensures log[j].worker > log[i].worker
  {
    assert Linked(config, log, i + 1);
    InOrder(config, log, i + 1, j);
  }

  ghost predicate FinishedIn(log: seq<Entry>, id: nat) {
    exists i :: 0 <= i < |log| && log[i].worker == id && log[i].before.at.Finish?
  }

  lemma {:induction false} EarlierFinished(config: Config, log: seq<Entry>, j: nat, id: nat)
    requires LogOk(config, log) && j < |log| && id < log[j].worker
    ensures FinishedIn(log[..j], id)
  {
    assert Linked(config, log, j);
    var p := log[j - 1];
    if p.worker == id {
      assert log[..j][j - 1] == p;
    } else {
      EarlierFinished(config, log, j - 1, id);
      var i :| 0 <= i < j - 1 && log[..j - 1][i].worker == id && log[..j - 1][i].before.at.Finish?;
      assert log[..j][i] == log[i];
    }
  }

  /** Every accepted request has finished exactly once, but for the one that is running. */
  lemma FinishedExactly(config: Config, s: State, id: nat)
    requires Inv(config, s) && id < |s.workers|
    ensures FinishedIn(s.log, id) <==> !(id == |s.workers| - 1 && s.status.activity == Running)
    ensures forall i, j :: 0 <= i < j < |s.log| && s.log[i].worker == s.log[j].worker == id ==>
            !s.log[i].before.at.Finish?
  {
    forall i, j | 0 <= i < j < |s.log| && s.log[i].worker == s.log[j].worker == id ensures !s.log[i].before.at.Finish? {
      if s.log[i].before.at.Finish? { FinishIsLast(config, s.log, i, j); }
    }
    if id == |s.workers| - 1 {
      LastFinished(config, s);
    } else {
      PreviousFinished(config, s, id);
    }
  }

  lemma LastFinished(config: Config, s: State)
    requires Inv(config, s) && s.workers != []
    ensures FinishedIn(s.log, |s.workers| - 1) <==> s.status.activity != Running
  {
    var last := |s.workers| - 1;
    if s.workers[last].at == Done { LastIsDone(config, s.workers, s.log); }
    if i :| 0 <= i < |s.log| && s.log[i].worker == last && s.log[i].before.at.Finish? {
      InOrder(config, s.log, i, |s.log| - 1);
      if i < |s.log| - 1 { FinishIsLast(config, s.log, i, |s.log| - 1); }
      PointOnlyDone(s.log[i].before, s.log[i].answer);
    }
  }

  lemma PreviousFinished(config: Config, s: State, id: nat)
    requires Inv(config, s) && id < |s.workers| - 1
    ensures FinishedIn(s.log, id)
  {
    var n := |s.log| - 1;
    if s.log[n].worker == id {
      assert s.log[n].before.at.Finish?;
    } else {
      EarlierFinished(config, s.log, n, id);
      var i :| 0 <= i < n && s.log[..n][i].worker == id && s.log[..n][i].before.at.Finish?;
      assert s.log[i].worker == id;
    }
  }

  /** The steps a worker has left at most. */
  function Rank(at: Point): nat {
    match at
    case Resolve => 15 case PullPhase => 14 case Pull => 13 case RestartPhase => 12 case SwapOverride => 11
    case VerifyPhase => 10 case Up => 9 case RecoverPhase => 8 case Inspect => 7 case RecoverOverride => 6
    case RecoverUp => 5 case Stop => 4 case Restore => 3 case RestoredUp => 2 case Finish(_) => 1 case Done => 0
  }

  /** A worker that keeps stepping finishes within fifteen steps. */
  lemma {:induction false} FinishesInTime(config: Config, log: seq<Entry>, i: nat, j: nat)
    requires LogOk(config, log) && i <= j < |log| && log[i].worker == log[j].worker
    ensures j - i <= Rank(log[i].before.at) - Rank(log[j].before.at) < 15
  {
    assert Linked(config, log, j) && log[j].before.at != Done;
    if i < j {
      NoneBetween(config, log, i, j - 1, j);
      FinishesInTime(config, log, i, j - 1);
    }
  }

  /** What came before, for every point a worker reaches on one way only. */
  lemma CameFrom(config: Config, log: seq<Entry>, i: nat)
    requires LogOk(config, log) && i < |log| && log[i].before.at != Resolve
    ensures i > 0
    ensures var p, e := log[i - 1], log[i];
            p.worker == e.worker && e.before == Advance(config, p.before, p.answer)
  {
    assert Linked(config, log, i);
  }

  /** A backup is restored only when the service was stopped just before, after the previous image
      failed to come up, and only when the request names a backup. */
  lemma RestoreOnlyWhenStopped(config: Config, log: seq<Entry>, i: nat)
    requires LogOk(config, log) && i < |log| && log[i].before.at == Restore
    ensures i >= 2 && log[i].before.request.backup != ""
    ensures log[i - 1] == Entry(log[i].worker, log[i].before.(at := Stop), log[i - 1].answer) && log[i - 1].answer.Some?
    ensures log[i - 2] == Entry(log[i].worker, log[i].before.(at := RecoverUp), None)
  {
    CameFrom(config, log, i);
    CameFrom(config, log, i - 1);
  }

  /** Only an image that GitHub's manifest named and that was pulled is deployed. */
  lemma DeploysResolvedImage(config: Config, log: seq<Entry>, i: nat)
    requires LogOk(config, log) && i < |log| && log[i].before.at == SwapOverride
    ensures i >= 4
    ensures log[i - 4].worker == log[i].worker && log[i - 4].before.at == Resolve &&
            log[i - 4].answer == Some(log[i].before.image)
    ensures log[i - 2].worker == log[i].worker && log[i - 2].before.at == Pull && log[i - 2].answer.Some?
  {
    CameFrom(config, log, i);
    CameFrom(config, log, i - 1);
    CameFrom(config, log, i - 2);
    CameFrom(config, log, i - 3);
  }

  predicate Healthy(o: Outcome) { o in [Success, HealthyAgain, HealthyAfterRestore] }

  /** An update that ends with the service up and healthy says so, and only then. */
  lemma HealthyExactly(config: Config, log: seq<Entry>, i: nat)
    requires LogOk(config, log) && i < |log| && log[i].before.at.Finish?
    ensures i > 0 && log[i - 1].worker == log[i].worker
    ensures Healthy(log[i].before.at.outcome) <==>
            log[i - 1].before.at in [Up, RecoverUp, RestoredUp] && log[i - 1].answer.Some?
    ensures log[i].before.at.outcome == Success ==> log[i - 1].before.at == Up
  {
    CameFrom(config, log, i);
  }

  /** When the status says succeeded, the override file holds the image GitHub named for the last
      request, that image was pulled, and the service came up healthy with it. */
  lemma SuccessIsDeployed(config: Config, run: seq<State>, k: nat)
    requires IsRun(config, run) && k < |run| && run[k].status.activity == Succeeded
    ensures var s, n := run[k], |run[k].log|;
            && n >= 8 && s.workers != [] && s.status.target == s.workers[|s.workers| - 1].request.version
            && (forall i :: n - 8 <= i < n ==> s.log[i].worker == |s.workers| - 1)
            && s.log[n - 8].before.at == Resolve && s.log[n - 8].answer == Some(s.override)
            && s.log[n - 6].before.at == Pull && s.log[n - 6].answer.Some?
            && s.log[n - 4].before.at == SwapOverride && s.log[n - 4].answer.Some?
            && s.log[n - 2].before.at == Up && s.log[n - 2].answer.Some?
  {
    RunKeepsInv(config, run, k);
    SuccessTrail(config, run[k].log);
  }

  lemma SuccessTrail(config: Config, log: seq<Entry>)
    requires LogOk(config, log) && log != [] && log[|log| - 1].before.at == Finish(Success)
    ensures var n, last := |log|, log[|log| - 1];
            && n >= 8 && (forall i :: n - 8 <= i < n ==> log[i].worker == last.worker)
            && log[n - 8].before.at == Resolve && log[n - 8].answer == Some(last.before.image)
            && log[n - 6].before.at == Pull && log[n - 6].answer.Some?
            && log[n - 4].before.at == SwapOverride && log[n - 4].answer.Some?
            && log[n - 2].before.at == Up && log[n - 2].answer.Some?
  {
    var n := |log|;
    CameFrom(config, log, n - 1);
    CameFrom(config, log, n - 2);
    CameFrom(config, log, n - 3);
    DeploysResolvedImage(config, log, n - 4);
    NoneBetweenAll(config, log, n - 8, n - 4);
  }

  lemma NoneBetweenAll(config: Config, log: seq<Entry>, i: nat, j: nat)
    requires LogOk(config, log) && i <= j < |log| && log[i].worker == log[j].worker
    ensures forall k :: i <= k <= j ==> log[k].worker == log[j].worker
  {
    forall k | i <= k <= j ensures log[k].worker == log[j].worker { NoneBetween(config, log, i, k, j); }
  }
}
