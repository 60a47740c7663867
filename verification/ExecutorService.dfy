/** The executor's own code. Every locked section, command and written file is one step of the update
    machine, recorded in a run; what the machine's theorems say holds of every state a reader or a
    second request can meet. */
module ExecutorService {
  import opened ExecutorMachine
  import opened Optional

  datatype StartResult = Accepted | InvalidVersion | UpdateRunning

  ghost function Last(run: seq<State>): State
    requires run != []
  {
    run[|run| - 1]
  }

  class Service {
    const config: Config
    var status: Status
    var override: string
    ghost var run: seq<State>

    ghost predicate Valid()
      reads this
    {
      IsRun(config, run) && Last(run).status == status && Last(run).override == override
    }

    /** Worker `id` is about to do what `w` says. */
    ghost predicate At(id: nat, w: Worker)
      reads this
    {
      Valid() && id < |Last(run).workers| && Last(run).workers[id] == w
    }

    /** Worker `id` has carried out its request. */
    ghost predicate Ended(id: nat, request: Request)
      reads this
    {
      Valid() && id < |Last(run).workers| && Last(run).workers[id].at == Done &&
        Last(run).workers[id].request == request
    }

    constructor (config: Config, override: string)
      ensures Valid() && this.config == config && this.override == override && status == INITIAL_STATUS
    {
      this.config, this.override, status := config, override, INITIAL_STATUS;
      run := [State(INITIAL_STATUS, override, [], [])];
    }

    /** Accepts a request exactly if its version is well formed and no update is running. */
    method Start(request: Request) returns (r: StartResult)
      requires Valid()
      modifies this
      ensures r == if !config.valid(request.version) then InvalidVersion
                   else if old(status).activity == Running then UpdateRunning else Accepted
      ensures Valid()
      ensures r != Accepted ==> run == old(run) && status == old(status) && override == old(override)
      ensures r == Accepted ==> run == old(run) + [Last(run)] && Starts(config, Last(old(run)), Last(run), request)
      ensures r == Accepted ==> At(|Last(old(run)).workers|, First(request)) && override == old(override)
    {
      if !config.valid(request.version) { return InvalidVersion; }
      if status.activity == Running { return UpdateRunning; }
      ghost var before := Last(run);
      status := Status(Running, Queued, request.version);
      ghost var after := State(status, override, before.workers + [First(request)], before.log);
      assert Starts(config, before, after, request);
      RunExtends(config, run, after);
      run := run + [after];
      r := Accepted;
    }

    ghost method Record(id: nat, w: Worker, answer: Option<string>, before: string)
      requires IsRun(config, run) && id < |Last(run).workers| && Last(run).workers[id] == w && w.at != Done
      requires Last(run).override == before && OverrideAfter(before, override, w, answer)
      requires status == StatusAfter(Last(run).status, w)
      modifies this`run
      ensures At(id, Advance(config, w, answer)) && old(run) <= run
    {
      var s := Last(run);
      var s' := State(status, override, s.workers[id := Advance(config, w, answer)], s.log + [Entry(id, w, answer)]);
      assert Works(config, s, s', id, answer);
      RunExtends(config, run, s');
      run := run + [s'];
    }

    method SetPhase(phase: Phase, ghost id: nat, ghost w: Worker)
      requires At(id, w) && w.at in [PullPhase, RestartPhase, VerifyPhase, RecoverPhase]
      requires phase == StatusAfter(status, w).phase
      modifies this`status, this`run
      ensures At(id, Advance(config, w, None)) && old(run) <= run
    {
      status := status.(phase := phase);
      Record(id, w, None, override);
    }

    /** A command, a download or an inspection, which may answer anything. */
    method Ask(ghost id: nat, ghost w: Worker) returns (answer: Option<string>)
      requires At(id, w) && w.at in [Resolve, Pull, Up, Inspect, RecoverUp, Stop, Restore, RestoredUp]
      modifies this`run
      ensures At(id, Advance(config, w, answer)) && old(run) <= run
    {
      answer := *;
      Record(id, w, answer, override);
    }

    method WriteOverride(image: string, ghost id: nat, ghost w: Worker) returns (answer: Option<string>)
      requires At(id, w) && w.at in [SwapOverride, RecoverOverride] && w.image == image
      modifies this`override, this`run
      ensures At(id, Advance(config, w, answer)) && old(run) <= run
      ensures answer.Some? ==> override == image
    {
      answer := *;
      ghost var before := override;
      override := *;
      if answer.Some? { override := image; }
      Record(id, w, answer, before);
    }

    method Finish(request: Request, outcome: Outcome, ghost id: nat, ghost w: Worker)
      requires At(id, w) && w.at == Point.Finish(outcome) && w.request == request
      modifies this`status, this`run
      ensures At(id, Worker(request, Done, w.image)) && old(run) <= run
      ensures status == Status(if outcome == Success then Succeeded else Failed, Queued, request.version)
    {
      status := Status(if outcome == Success then Succeeded else Failed, Queued, request.version);
      Record(id, w, None, override);
    }

    /** Writes the image and brings the service up with it. */
    method Swap(image: string, ghost id: nat, ghost request: Request) returns (up: bool)
      requires At(id, Worker(request, RestartPhase, image))
      modifies this
      ensures At(id, Worker(request, if up then Point.Finish(Success) else RecoverPhase, image)) && old(run) <= run
      ensures up ==> override == image
    {
      SetPhase(Restarting, id, Worker(request, RestartPhase, image));
      var written := WriteOverride(image, id, Worker(request, SwapOverride, image));
      if written.None? { return false; }
      SetPhase(VerifyingHealth, id, Worker(request, VerifyPhase, image));
      var answer := Ask(id, Worker(request, Up, image));
      up := answer.Some?;
    }

    /** Goes back to the previous image, and if that does not come up, to the backup. */
    method Recover(request: Request, ghost id: nat, ghost image: string)
      requires At(id, Worker(request, RecoverPhase, image))
      modifies this
      ensures Ended(id, request) && old(run) <= run
      ensures status == Status(Failed, Queued, request.version)
    {
      SetPhase(Recovering, id, Worker(request, RecoverPhase, image));
      var previous := PreviousImage(id, Worker(request, Inspect, image));
      var written := WriteOverride(previous, id, Worker(request, RecoverOverride, previous));
      if written.None? {
        Finish(request, RollbackFailed, id, Worker(request, Point.Finish(RollbackFailed), previous));
        return;
      }
      BringBack(request, id, previous);
    }

    /** The previous image is written; the backup is tried if it does not come up. */
    method BringBack(request: Request, ghost id: nat, ghost image: string)
      requires At(id, Worker(request, RecoverUp, image))
      modifies this
      ensures Ended(id, request) && old(run) <= run
      ensures status == Status(Failed, Queued, request.version)
    {
      var up := Ask(id, Worker(request, RecoverUp, image));
      if up.Some? {
        Finish(request, HealthyAgain, id, Worker(request, Point.Finish(HealthyAgain), image));
        return;
      }
      if request.backup == "" {
        Finish(request, NoBackup, id, Worker(request, Point.Finish(NoBackup), image));
        return;
      }
      RestoreBackup(request, id, image);
    }

    method PreviousImage(ghost id: nat, ghost w: Worker) returns (image: string)
      requires At(id, w) && w.at == Inspect
      modifies this`run
      ensures At(id, Worker(w.request, RecoverOverride, image)) && old(run) <= run
    {
      var output := Ask(id, w);
      image := if output.Some? && output.value != "" then output.value else config.stable;
    }

    /** The service is stopped before the backup is restored, and started again afterwards. */
    method RestoreBackup(request: Request, ghost id: nat, ghost image: string)
      requires At(id, Worker(request, Stop, image))
      modifies this
      ensures Ended(id, request) && old(run) <= run
      ensures status == Status(Failed, Queued, request.version)
    {
      var stopped := Ask(id, Worker(request, Stop, image));
      if stopped.None? {
        Finish(request, StopFailed, id, Worker(request, Point.Finish(StopFailed), image));
        return;
      }
      var restored := Ask(id, Worker(request, Restore, image));
      if restored.None? {
        Finish(request, RestoreFailed, id, Worker(request, Point.Finish(RestoreFailed), image));
        return;
      }
      StartRestored(request, id, image);
    }

    method StartRestored(request: Request, ghost id: nat, ghost image: string)
      requires At(id, Worker(request, RestoredUp, image))
      modifies this
      ensures Ended(id, request) && old(run) <= run
      ensures status == Status(Failed, Queued, request.version)
    {
      var up := Ask(id, Worker(request, RestoredUp, image));
      var outcome := if up.Some? then HealthyAfterRestore else StillUnhealthy;
      Finish(request, outcome, id, Worker(request, Point.Finish(outcome), image));
    }

    method Deploy(request: Request, ghost id: nat, image: string)
      requires At(id, Worker(request, RestartPhase, image))
      modifies this
      ensures Ended(id, request) && old(run) <= run
      ensures status == Status(status.activity, Queued, request.version) && status.activity in [Succeeded, Failed]
    {
      var up := Swap(image, id, request);
      if !up {
        Recover(request, id, image);
        return;
      }
      Finish(request, Success, id, Worker(request, Point.Finish(Success), image));
    }

    /** Finds out the image and pulls it; a failure ends the update. */
    method Fetch(request: Request, ghost id: nat) returns (image: Option<string>)
      requires At(id, First(request))
      modifies this
      ensures old(run) <= run
      ensures image.Some? ==> At(id, Worker(request, RestartPhase, image.value))
      ensures image.None? ==> Ended(id, request) && status == Status(Failed, Queued, request.version)
    {
      image := Ask(id, First(request));
      if image.None? {
        Finish(request, ReleaseFailed, id, Worker(request, Point.Finish(ReleaseFailed), ""));
        return;
      }
      var pulled := PullImage(request, id, image.value);
      if !pulled { image := None; }
    }

    method PullImage(request: Request, ghost id: nat, ghost image: string) returns (pulled: bool)
      requires At(id, Worker(request, PullPhase, image))
      modifies this
      ensures old(run) <= run
      ensures pulled ==> At(id, Worker(request, RestartPhase, image))
      ensures !pulled ==> Ended(id, request) && status == Status(Failed, Queued, request.version)
    {
      SetPhase(Pulling, id, Worker(request, PullPhase, image));
      var answer := Ask(id, Worker(request, Pull, image));
      pulled := answer.Some?;
      if !pulled { Finish(request, PullFailed, id, Worker(request, Point.Finish(PullFailed), image)); }
    }

    /** Carries out an accepted request to its end. */
    method Perform(request: Request, ghost id: nat)
      requires At(id, First(request))
      modifies this
      ensures Ended(id, request) && old(run) <= run
      ensures status == Status(status.activity, Queued, request.version) && status.activity in [Succeeded, Failed]
    {
      var image := Fetch(request, id);
      if image.Some? { Deploy(request, id, image.value); }
    }
  }
}
