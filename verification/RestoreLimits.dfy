/** Runs that show which hypotheses the restore theorems need. */
module RestoreLimits {
  import opened RestoreMachine

  const OLD_DB := File([1])
  const NEW_DB := File([2])
  const OLD_UPLOADS := Folder(map["a.png" := []])

  const BEFORE: Files := map[
    Active(Db) := OLD_DB, Active(Uploads) := OLD_UPLOADS,
    Staged(0, Db) := NEW_DB, Staged(0, Uploads) := Folder(map[])]

  const READY := State(BEFORE, {0}, {0}, Serving, 0, 0, map[], true, 0, 0, false, 0, {}, Serving, true)

  const BEGUN := READY.(pc := Swapping(0), start := BEFORE, settled := false)

  const DATABASE_STAGED: Files := map[
    Rollback(0, Db) := OLD_DB, Active(Uploads) := OLD_UPLOADS,
    Staged(0, Db) := NEW_DB, Staged(0, Uploads) := Folder(map[])]

  const ALL_STAGED: Files := map[
    Rollback(0, Db) := OLD_DB, Rollback(0, Uploads) := OLD_UPLOADS,
    Staged(0, Db) := NEW_DB, Staged(0, Uploads) := Folder(map[])]

  function AtStep(n: nat): State { BEGUN.(files := DATABASE_STAGED, staged := n, pc := Swapping(n)) }

  /** One more step at the end of a run. */
  lemma Then(run: seq<State>, s: State, s': State) returns (run': seq<State>)
    requires IsRun(run) && run[|run| - 1] == s && Next(s, s')
    ensures IsRun(run') && run'[|run'| - 1] == s'
  {
    RunExtends(run, s');
    run' := run + [s'];
  }

  lemma FirstSteps()
    ensures Next(READY, BEGUN) && Next(BEGUN, AtStep(1))
  {
    assert Begin(READY, BEGUN);
    assert Renamed(BEFORE, Active(Db), Rollback(0, Db)) == DATABASE_STAGED;
    assert SwapStep(BEGUN, AtStep(1), 0);
  }

  lemma CompanionSteps()
    ensures Next(AtStep(1), AtStep(2)) && Next(AtStep(2), AtStep(3))
  {
    assert SwapStep(AtStep(1), AtStep(2), 1);
    assert SwapStep(AtStep(2), AtStep(3), 2);
  }

  /** The swap up to the point where only the uploads remain to be staged. */
  lemma StartedRun() returns (run: seq<State>)
    ensures IsRun(run) && run[|run| - 1] == AtStep(3)
  {
    FirstSteps();
    CompanionSteps();
    run := Then([READY], READY, BEGUN);
    run := Then(run, BEGUN, AtStep(1));
    run := Then(run, AtStep(1), AtStep(2));
    run := Then(run, AtStep(2), AtStep(3));
  }

  function UndoAt(n: nat): State { AtStep(3).(pc := Undoing(n), failedAt := 3) }

  lemma UndoBegins()
    ensures Next(AtStep(3), UndoAt(0)) && Next(UndoAt(0), UndoAt(1))
  {
    assert SwapStep(AtStep(3), UndoAt(0), 3);
    assert UndoStep(UndoAt(0), UndoAt(1), 0);
  }

  lemma NothingAside(n: nat)
    requires 1 <= n < 4
    ensures Next(UndoAt(n), UndoAt(n + 1))
  {
    assert MoveSucceeds(UndoAt(n), UndoAt(n + 1), Active(ORDER[n - 1]), Failed(0, ORDER[n - 1]), Undoing(n + 1));
    assert UndoStep(UndoAt(n), UndoAt(n + 1), n);
  }

  lemma UndoRun() returns (run: seq<State>)
    ensures IsRun(run) && run[|run| - 1] == UndoAt(4)
  {
    UndoBegins();
    run := StartedRun();
    run := Then(run, AtStep(3), UndoAt(0));
    run := Then(run, UndoAt(0), UndoAt(1));
    for n := 1 to 4
      invariant IsRun(run) && run[|run| - 1] == UndoAt(n)
    {
      NothingAside(n);
      run := Then(run, UndoAt(n), UndoAt(n + 1));
    }
  }

  function Stuck(): State { UndoAt(4).(pc := Cleaning, undoFailed := true, undoFailedAt := 4) }

  function Emptied(): State {
    Stuck().(files := map[Active(Uploads) := OLD_UPLOADS], rollbacks := {}, workspaces := {},
             pc := Serving, settled := true)
  }

  lemma RemovalSteps()
    ensures Next(UndoAt(4), Stuck()) && Next(Stuck(), Emptied())
  {
    assert UndoStep(UndoAt(4), Stuck(), 4);
    assert CleanStep(Stuck(), Emptied());
  }

  /** When staging the uploads fails and the rollback cannot move the database back, the deferred
      removal of the rollback directory deletes the only copy of the old database. */
  lemma FailingRollbackLosesDatabase() returns (run: seq<State>)
    ensures IsRun(run)
    ensures var last := run[|run| - 1];
            last.pc == Serving && Active(Db) in last.start &&
            forall p :: p in last.files ==> last.files[p] != last.start[Active(Db)]
  {
    RemovalSteps();
    run := UndoRun();
    run := Then(run, UndoAt(4), Stuck());
    run := Then(run, Stuck(), Emptied());
  }

  const SWEPT: Files := map[Rollback(0, Db) := OLD_DB, Rollback(0, Uploads) := OLD_UPLOADS]
  const DATABASE_BACK_ONLY: Files := map[Active(Db) := OLD_DB, Rollback(0, Uploads) := OLD_UPLOADS]

  function Crashed(pc: Pc): State {
    AtStep(4).(files := ALL_STAGED, pc := pc, died := if pc == Swapping(4) then Serving else Swapping(4))
  }

  function SweptState(): State { Crashed(Sweeping).(files := SWEPT, workspaces := {}) }

  function RecoveringAt(n: nat): State {
    SweptState().(files := if n <= 3 then SWEPT else DATABASE_BACK_ONLY, pc := Recovering([0], n))
  }

  lemma CrashSteps()
    ensures Next(AtStep(3), Crashed(Swapping(4))) && Next(Crashed(Swapping(4)), Crashed(Down))
    ensures Next(Crashed(Down), Crashed(Sweeping))
  {
    assert Renamed(DATABASE_STAGED, Active(Uploads), Rollback(0, Uploads)) == ALL_STAGED;
    assert SwapStep(AtStep(3), Crashed(Swapping(4)), 3);
  }

  lemma SweepRemoves()
    ensures Next(Crashed(Sweeping), SweptState())
  {
    assert SweepStep(Crashed(Sweeping), SweptState());
  }

  lemma SweepFindsNothing()
    ensures Next(SweptState(), RecoveringAt(0))
  {
    assert IsQueue([0], {0});
    assert SweepStep(SweptState(), RecoveringAt(0));
  }

  lemma SweptRun() returns (run: seq<State>)
    ensures IsRun(run) && run[|run| - 1] == SweptState()
  {
    CrashSteps();
    SweepRemoves();
    run := StartedRun();
    run := Then(run, AtStep(3), Crashed(Swapping(4)));
    run := Then(run, Crashed(Swapping(4)), Crashed(Down));
    run := Then(run, Crashed(Down), Crashed(Sweeping));
    run := Then(run, Crashed(Sweeping), SweptState());
  }

  lemma CrashedRun() returns (run: seq<State>)
    ensures IsRun(run) && run[|run| - 1] == RecoveringAt(0)
  {
    SweepFindsNothing();
    run := SweptRun();
    run := Then(run, SweptState(), RecoveringAt(0));
  }

  lemma RecoverySteps(n: nat)
    requires n < 4
    ensures Next(RecoveringAt(n), RecoveringAt(n + 1))
  {
    assert Renamed(SWEPT, Rollback(0, Db), Active(Db)) == DATABASE_BACK_ONLY;
    assert RecoverStep(RecoveringAt(n), RecoveringAt(n + 1), [0], n);
  }

  function Again(pc: Pc): State { RecoveringAt(4).(pc := pc, died := Recovering([0], 4)) }

  lemma SecondRecovery()
    ensures Next(RecoveringAt(4), Again(Down)) && Next(Again(Down), Again(Sweeping))
    ensures Next(Again(Sweeping), Again(Serving).(settled := true))
  {
    assert SweepStep(Again(Sweeping), Again(Serving).(settled := true));
  }

  lemma RecoveringRun() returns (run: seq<State>)
    ensures IsRun(run) && run[|run| - 1] == RecoveringAt(4)
  {
    run := CrashedRun();
    for n := 0 to 4
      invariant IsRun(run) && run[|run| - 1] == RecoveringAt(n)
    {
      RecoverySteps(n);
      run := Then(run, RecoveringAt(n), RecoveringAt(n + 1));
    }
  }

  lemma AgainRun() returns (run: seq<State>)
    ensures IsRun(run) && run[|run| - 1] == Again(Serving).(settled := true)
  {
    SecondRecovery();
    run := RecoveringRun();
    run := Then(run, RecoveringAt(4), Again(Down));
    run := Then(run, Again(Down), Again(Sweeping));
    run := Then(run, Again(Sweeping), Again(Serving).(settled := true));
  }

  /** A recovery that is itself cut after the database is never resumed: the next one sees a
      database and leaves the uploads in the rollback directory. Nothing is lost, but the
      application serves without them. */
  lemma InterruptedRecoveryStrandsUploads() returns (run: seq<State>)
    ensures IsRun(run)
    ensures var last := run[|run| - 1];
            last.pc == Serving && Active(Uploads) in last.start && Active(Uploads) !in last.files &&
            Kept(last, Uploads) && Intact(last, Db)
  {
    run := AgainRun();
  }

  // ---- A rollback that cannot even begin -----------------------------------------------------------

  function NotActivated(pc: Pc): State {
    Crashed(Swapping(4)).(pc := pc, failedAt := 4, undoFailed := pc == Cleaning)
  }

  const NOTHING_LEFT := NotActivated(Cleaning).(files := map[], rollbacks := {}, workspaces := {}, pc := Serving,
                                                settled := true)

  lemma NotActivatedSteps()
    ensures Next(Crashed(Swapping(4)), NotActivated(Undoing(0)))
    ensures Next(NotActivated(Undoing(0)), NotActivated(Cleaning))
  {
    assert SwapStep(Crashed(Swapping(4)), NotActivated(Undoing(0)), 4);
    assert UndoStep(NotActivated(Undoing(0)), NotActivated(Cleaning), 0);
  }

  lemma NothingLeftStep()
    ensures Next(NotActivated(Cleaning), NOTHING_LEFT)
  {
    assert CleanStep(NotActivated(Cleaning), NOTHING_LEFT);
  }

  /** When activating the database fails and the rollback cannot create its own directory, the deferred
      removal deletes the database and the uploads. */
  lemma FailingRollbackLosesBoth() returns (run: seq<State>)
    ensures IsRun(run)
    ensures var last := run[|run| - 1];
            last.pc == Serving && Active(Db) in last.start && Active(Uploads) in last.start && last.files == map[]
  {
    CrashSteps();
    NotActivatedSteps();
    NothingLeftStep();
    run := StartedRun();
    run := Then(run, AtStep(3), Crashed(Swapping(4)));
    run := Then(run, Crashed(Swapping(4)), NotActivated(Undoing(0)));
    run := Then(run, NotActivated(Undoing(0)), NotActivated(Cleaning));
    run := Then(run, NotActivated(Cleaning), NOTHING_LEFT);
  }

  // ---- A crash between the two activations -------------------------------------------------------

  const NEW_DATABASE_ONLY: Files := map[
    Active(Db) := NEW_DB, Rollback(0, Db) := OLD_DB, Rollback(0, Uploads) := OLD_UPLOADS,
    Staged(0, Uploads) := Folder(map[])]

  const NOTHING_STAGED: Files := map[Active(Db) := NEW_DB, Rollback(0, Db) := OLD_DB,
                                     Rollback(0, Uploads) := OLD_UPLOADS]

  function Half(pc: Pc): State {
    AtStep(4).(files := NEW_DATABASE_ONLY, pc := pc, died := if pc == Swapping(5) then Serving else Swapping(5))
  }

  function HalfSwept(pc: Pc): State { Half(Sweeping).(files := NOTHING_STAGED, workspaces := {}, pc := pc) }

  lemma HalfActivated()
    ensures Next(Crashed(Swapping(4)), Half(Swapping(5)))
  {
    assert Renamed(ALL_STAGED, Staged(0, Db), Active(Db)) == NEW_DATABASE_ONLY;
    assert SwapStep(Crashed(Swapping(4)), Half(Swapping(5)), 4);
  }

  lemma HalfDies()
    ensures Next(Half(Swapping(5)), Half(Down)) && Next(Half(Down), Half(Sweeping))
  {
  }

  lemma HalfSweepSteps()
    ensures Next(Half(Sweeping), HalfSwept(Sweeping)) && Next(HalfSwept(Sweeping), HalfSwept(Serving).(settled := true))
  {
    assert SweepStep(Half(Sweeping), HalfSwept(Sweeping));
    assert SweepStep(HalfSwept(Sweeping), HalfSwept(Serving).(settled := true));
  }

  lemma HalfRun() returns (run: seq<State>)
    ensures IsRun(run) && run[|run| - 1] == Half(Swapping(5))
  {
    CrashSteps();
    HalfActivated();
    run := StartedRun();
    run := Then(run, AtStep(3), Crashed(Swapping(4)));
    run := Then(run, Crashed(Swapping(4)), Half(Swapping(5)));
  }

  lemma HalfServingRun() returns (run: seq<State>)
    ensures IsRun(run) && run[|run| - 1] == HalfSwept(Serving).(settled := true)
  {
    HalfDies();
    HalfSweepSteps();
    run := HalfRun();
    run := Then(run, Half(Swapping(5)), Half(Down));
    run := Then(run, Half(Down), Half(Sweeping));
    run := Then(run, Half(Sweeping), HalfSwept(Sweeping));
    run := Then(run, HalfSwept(Sweeping), HalfSwept(Serving).(settled := true));
  }

  /** A process that dies after activating the database and before activating the uploads comes back
      with the new database and no uploads: the new ones were swept away, the old ones set aside. */
  lemma CrashBetweenActivationsDropsUploads() returns (run: seq<State>)
    ensures IsRun(run)
    ensures var last := run[|run| - 1];
            last.pc == Serving && IsNew(last, Db) && Active(Uploads) !in last.files &&
            (forall p :: p in last.files ==> !p.Staged?) && Kept(last, Uploads)
  {
    run := HalfServingRun();
  }

  // ---- A write-ahead log that is left --------------------------------------------------------------

  const LOG := File([3])

  const WITH_LOG: Files := BEFORE[Active(Wal) := LOG]

  const LOG_LEFT: Files := DATABASE_STAGED[Active(Wal) := LOG]

  const LOG_ASIDE: Files := DATABASE_STAGED[Failed(0, Wal) := LOG]

  const DATABASE_IS_BACK: Files := BEFORE[Failed(0, Wal) := LOG]

  const LOG_READY := READY.(files := WITH_LOG)

  const LOG_BEGUN := LOG_READY.(pc := Swapping(0), start := WITH_LOG, settled := false)

  const LOG_STAGED := LOG_BEGUN.(files := LOG_LEFT, staged := 1, pc := Swapping(1))

  function LogUndo(n: nat): State {
    LOG_STAGED.(files := if n <= 2 then LOG_LEFT else if n <= 4 then LOG_ASIDE else DATABASE_IS_BACK,
               pc := Undoing(n), failedAt := 1)
  }

  const LOG_CLEANING := LogUndo(9).(pc := Cleaning)

  const LOG_GONE := LOG_CLEANING.(files := map[Active(Db) := OLD_DB, Active(Uploads) := OLD_UPLOADS], rollbacks := {},
                                workspaces := {}, pc := Serving, settled := true)

  lemma LogBegins()
    ensures Next(LOG_READY, LOG_BEGUN)
  {
    assert NoLeftDatabase(WITH_LOG) && EmptyDir(WITH_LOG, 0);
    assert Begin(LOG_READY, LOG_BEGUN);
  }

  lemma LogStages()
    ensures Next(LOG_BEGUN, LOG_STAGED)
  {
    assert Renamed(WITH_LOG, Active(Db), Rollback(0, Db)) == LOG_LEFT;
    assert SwapStep(LOG_BEGUN, LOG_STAGED, 0);
  }

  lemma LogFailureSteps()
    ensures Next(LOG_STAGED, LogUndo(0)) && Next(LogUndo(0), LogUndo(1))
  {
    assert SwapStep(LOG_STAGED, LogUndo(0), 1);
    assert UndoStep(LogUndo(0), LogUndo(1), 0);
  }

  lemma LogAside()
    ensures Next(LogUndo(2), LogUndo(3))
  {
    assert Renamed(LOG_LEFT, Active(Wal), Failed(0, Wal)) == LOG_ASIDE;
    assert SetAside(LogUndo(2), LogUndo(3), Wal, Undoing(3));
    assert UndoStep(LogUndo(2), LogUndo(3), 2);
  }

  lemma LogNothingAside()
    ensures Next(LogUndo(1), LogUndo(2)) && Next(LogUndo(3), LogUndo(4))
  {
    assert UndoStep(LogUndo(1), LogUndo(2), 1);
    assert UndoStep(LogUndo(3), LogUndo(4), 3);
  }

  lemma LogDatabaseBack()
    ensures Next(LogUndo(4), LogUndo(5))
  {
    assert Renamed(LOG_ASIDE, Rollback(0, Db), Active(Db)) == DATABASE_IS_BACK;
    assert MoveSucceeds(LogUndo(4), LogUndo(5), Rollback(0, Db), Active(Db), Undoing(5));
    assert UndoStep(LogUndo(4), LogUndo(5), 4);
  }

  lemma NothingBack(n: nat)
    requires 5 <= n < 7
    ensures Next(LogUndo(n), LogUndo(n + 1))
  {
    assert Rollback(0, ORDER[n - 4]) !in DATABASE_IS_BACK;
    assert UndoStep(LogUndo(n), LogUndo(n + 1), n);
  }

  lemma LogReopens()
    ensures Next(LogUndo(7), LogUndo(9))
  {
    assert UndoStep(LogUndo(7), LogUndo(9), 7);
  }

  lemma LogReopened()
    ensures Next(LogUndo(9), LOG_CLEANING)
  {
    assert Reopened(LogUndo(9).files, LOG_CLEANING.files);
    assert UndoStep(LogUndo(9), LOG_CLEANING, 9);
  }

  lemma LogRemoved()
    ensures Next(LOG_CLEANING, LOG_GONE)
  {
    assert LOG_GONE.files == DATABASE_IS_BACK - {Failed(0, Wal), Staged(0, Db), Staged(0, Uploads)};
    assert CleanStep(LOG_CLEANING, LOG_GONE);
  }

  lemma LogStagingRun() returns (run: seq<State>)
    ensures IsRun(run) && run[|run| - 1] == LOG_STAGED
  {
    LogBegins();
    LogStages();
    run := Then([LOG_READY], LOG_READY, LOG_BEGUN);
    run := Then(run, LOG_BEGUN, LOG_STAGED);
  }

  lemma LogFailureRun() returns (run: seq<State>)
    ensures IsRun(run) && run[|run| - 1] == LogUndo(1)
  {
    LogFailureSteps();
    run := LogStagingRun();
    run := Then(run, LOG_STAGED, LogUndo(0));
    run := Then(run, LogUndo(0), LogUndo(1));
  }

  lemma LogRun() returns (run: seq<State>)
    ensures IsRun(run) && run[|run| - 1] == LogUndo(4)
  {
    LogAside();
    LogNothingAside();
    run := LogFailureRun();
    run := Then(run, LogUndo(1), LogUndo(2));
    run := Then(run, LogUndo(2), LogUndo(3));
    run := Then(run, LogUndo(3), LogUndo(4));
  }

  lemma LogRestoredRun() returns (run: seq<State>)
    ensures IsRun(run) && run[|run| - 1] == LogUndo(7)
  {
    LogDatabaseBack();
    NothingBack(5);
    NothingBack(6);
    run := LogRun();
    run := Then(run, LogUndo(4), LogUndo(5));
    run := Then(run, LogUndo(5), LogUndo(6));
    run := Then(run, LogUndo(6), LogUndo(7));
  }

  lemma LogGoneRun() returns (run: seq<State>)
    ensures IsRun(run) && run[|run| - 1] == LOG_GONE
  {
    LogReopens();
    LogReopened();
    LogRemoved();
    run := LogRestoredRun();
    run := Then(run, LogUndo(7), LogUndo(9));
    run := Then(run, LogUndo(9), LOG_CLEANING);
    run := Then(run, LOG_CLEANING, LOG_GONE);
  }

  /** Staging the log fails, the rollback succeeds, and the log is gone. */
  lemma FailingSwapLosesLog() returns (run: seq<State>)
    ensures IsRun(run)
    ensures var last := run[|run| - 1];
            last.pc == Serving && !last.undoFailed && Intact(last, Db) && Active(Wal) in last.start &&
            forall p :: p in last.files ==> last.files[p] != last.start[Active(Wal)]
  {
    run := LogGoneRun();
  }

  // ---- A staged log that a crash leaves behind --------------------------------------------------------

  const LOG_HELD: Files := DATABASE_STAGED[Rollback(0, Wal) := LOG]

  const LOG_STRANDED: Files := BEFORE[Rollback(0, Wal) := LOG]

  const LOG_SWEPT: Files := map[Active(Db) := OLD_DB, Active(Uploads) := OLD_UPLOADS, Rollback(0, Wal) := LOG]

  function Logged(n: nat): State { LOG_STAGED.(files := LOG_HELD, staged := n, pc := Swapping(n)) }

  function LoggedUndo(n: nat): State {
    Logged(3).(files := if n <= 4 then LOG_HELD else LOG_STRANDED, pc := Undoing(n), failedAt := 3)
  }

  function Stranded(pc: Pc): State { LoggedUndo(5).(pc := pc, died := Undoing(5)) }

  function StrandedSwept(pc: Pc): State {
    Stranded(pc).(files := LOG_SWEPT, workspaces := {}, settled := pc == Serving)
  }

  lemma LogIsStaged()
    ensures Next(LOG_STAGED, Logged(2))
  {
    assert Renamed(LOG_LEFT, Active(Wal), Rollback(0, Wal)) == LOG_HELD;
    assert SwapStep(LOG_STAGED, Logged(2), 1);
  }

  lemma NothingMoreStaged()
    ensures Next(Logged(2), Logged(3))
  {
    assert SwapStep(Logged(2), Logged(3), 2);
  }

  lemma LoggedFails()
    ensures Next(Logged(3), LoggedUndo(0)) && Next(LoggedUndo(0), LoggedUndo(1))
  {
    assert SwapStep(Logged(3), LoggedUndo(0), 3);
    assert UndoStep(LoggedUndo(0), LoggedUndo(1), 0);
  }

  lemma LoggedAside(n: nat)
    requires 1 <= n < 4
    ensures Next(LoggedUndo(n), LoggedUndo(n + 1))
  {
    assert Active(ORDER[n - 1]) !in LOG_HELD;
    assert SetAside(LoggedUndo(n), LoggedUndo(n + 1), ORDER[n - 1], Undoing(n + 1));
    assert UndoStep(LoggedUndo(n), LoggedUndo(n + 1), n);
  }

  lemma LoggedBack()
    ensures Next(LoggedUndo(4), LoggedUndo(5))
  {
    assert Renamed(LOG_HELD, Rollback(0, Db), Active(Db)) == LOG_STRANDED;
    assert MoveSucceeds(LoggedUndo(4), LoggedUndo(5), Rollback(0, Db), Active(Db), Undoing(5));
    assert UndoStep(LoggedUndo(4), LoggedUndo(5), 4);
  }

  lemma StrandedSteps()
    ensures Next(LoggedUndo(5), Stranded(Down)) && Next(Stranded(Down), Stranded(Sweeping))
  {
  }

  lemma StrandedSweep()
    ensures Next(Stranded(Sweeping), StrandedSwept(Sweeping))
  {
    assert LOG_SWEPT == LOG_STRANDED - {Staged(0, Db), Staged(0, Uploads)};
    assert SweepStep(Stranded(Sweeping), StrandedSwept(Sweeping));
  }

  lemma StrandedServes()
    ensures Next(StrandedSwept(Sweeping), StrandedSwept(Serving))
  {
    assert SweepStep(StrandedSwept(Sweeping), StrandedSwept(Serving));
  }

  lemma LoggedRun() returns (run: seq<State>)
    ensures IsRun(run) && run[|run| - 1] == Logged(3)
  {
    LogIsStaged();
    NothingMoreStaged();
    run := LogStagingRun();
    run := Then(run, LOG_STAGED, Logged(2));
    run := Then(run, Logged(2), Logged(3));
  }

  lemma LoggedFailureRun() returns (run: seq<State>)
    ensures IsRun(run) && run[|run| - 1] == LoggedUndo(1)
  {
    LoggedFails();
    run := LoggedRun();
    run := Then(run, Logged(3), LoggedUndo(0));
    run := Then(run, LoggedUndo(0), LoggedUndo(1));
  }

  lemma LoggedUndoRun() returns (run: seq<State>)
    ensures IsRun(run) && run[|run| - 1] == LoggedUndo(5)
  {
    run := LoggedFailureRun();
    for n := 1 to 4
      invariant IsRun(run) && run[|run| - 1] == LoggedUndo(n)
    {
      LoggedAside(n);
      run := Then(run, LoggedUndo(n), LoggedUndo(n + 1));
    }
    LoggedBack();
    run := Then(run, LoggedUndo(4), LoggedUndo(5));
  }

  lemma StrandedRun() returns (run: seq<State>)
    ensures IsRun(run) && run[|run| - 1] == StrandedSwept(Serving)
  {
    StrandedSteps();
    StrandedSweep();
    StrandedServes();
    run := LoggedUndoRun();
    run := Then(run, LoggedUndo(5), Stranded(Down));
    run := Then(run, Stranded(Down), Stranded(Sweeping));
    run := Then(run, Stranded(Sweeping), StrandedSwept(Sweeping));
    run := Then(run, StrandedSwept(Sweeping), StrandedSwept(Serving));
  }

  /** The log has been staged, staging the uploads fails, and the process dies when the rollback has put
      back the database. The old pair is served without its log, which stays aside. */
  lemma CrashInRollbackStrandsLog() returns (run: seq<State>)
    ensures IsRun(run)
    ensures var last := run[|run| - 1];
            last.pc == Serving && last.alone && !last.undoFailed && Intact(last, Db) && Intact(last, Uploads) &&
            Active(Wal) in last.start && Active(Wal) !in last.files && Kept(last, Wal)
  {
    run := StrandedRun();
  }

  // ---- A log of the new database beside the old one ---------------------------------------------------

  const BOTH_NEW: Files := map[
    Active(Db) := NEW_DB, Active(Uploads) := Folder(map[]), Rollback(0, Db) := OLD_DB,
    Rollback(0, Uploads) := OLD_UPLOADS]

  const NEW_LOG: Files := BOTH_NEW[Active(Wal) := LOG]

  const NEW_ASIDE: Files := map[
    Failed(0, Db) := NEW_DB, Active(Wal) := LOG, Active(Uploads) := Folder(map[]), Rollback(0, Db) := OLD_DB,
    Rollback(0, Uploads) := OLD_UPLOADS]

  const OLD_BESIDE_NEW: Files := map[
    Failed(0, Db) := NEW_DB, Active(Wal) := LOG, Active(Uploads) := Folder(map[]), Active(Db) := OLD_DB,
    Rollback(0, Uploads) := OLD_UPLOADS]

  const NEW_UPLOADS_ASIDE: Files := map[
    Failed(0, Db) := NEW_DB, Active(Wal) := LOG, Failed(0, Uploads) := Folder(map[]), Active(Db) := OLD_DB,
    Rollback(0, Uploads) := OLD_UPLOADS]

  const OLD_PAIR: Files := map[
    Failed(0, Db) := NEW_DB, Active(Wal) := LOG, Failed(0, Uploads) := Folder(map[]), Active(Db) := OLD_DB,
    Active(Uploads) := OLD_UPLOADS]

  function BothActive(): State { Half(Swapping(5)).(files := BOTH_NEW, pc := Swapping(6)) }

  function BesideFiles(n: nat): Files {
    if n <= 1 then NEW_LOG
    else if n <= 4 then NEW_ASIDE
    else if n <= 7 then OLD_BESIDE_NEW
    else if n == 8 then NEW_UPLOADS_ASIDE
    else OLD_PAIR
  }

  function Beside(n: nat): State {
    BothActive().(files := BesideFiles(n), pc := Undoing(n), failedAt := 6, notAside := if n <= 2 then {} else {Wal})
  }

  lemma BesideActivates()
    ensures Next(Half(Swapping(5)), BothActive())
  {
    assert Renamed(NEW_DATABASE_ONLY, Staged(0, Uploads), Active(Uploads)) == BOTH_NEW;
    assert SwapStep(Half(Swapping(5)), BothActive(), 5);
  }

  lemma BesideReopens()
    ensures Next(BothActive(), Beside(0))
  {
    assert Reopened(BOTH_NEW, NEW_LOG);
    assert SwapStep(BothActive(), Beside(0), 6);
  }

  lemma BesideBegins()
    ensures Next(Beside(0), Beside(1))
  {
    assert UndoStep(Beside(0), Beside(1), 0);
  }

  lemma NewDatabaseMoves()
    ensures Moves(NEW_LOG, NEW_ASIDE, Active(Db), Failed(0, Db))
  {
    assert Renamed(NEW_LOG, Active(Db), Failed(0, Db)) == NEW_ASIDE;
  }

  lemma BesideDatabaseAside()
    ensures Next(Beside(1), Beside(2))
  {
    NewDatabaseMoves();
    assert SetAside(Beside(1), Beside(2), Db, Undoing(2));
    assert UndoStep(Beside(1), Beside(2), 1);
  }

  lemma BesideLogNotAside()
    ensures Next(Beside(2), Beside(3))
  {
    assert SetAside(Beside(2), Beside(3), Wal, Undoing(3));
    assert UndoStep(Beside(2), Beside(3), 2);
  }

  lemma BesideNothingAside()
    ensures Next(Beside(3), Beside(4))
  {
    assert SetAside(Beside(3), Beside(4), Shm, Undoing(4));
    assert UndoStep(Beside(3), Beside(4), 3);
  }

  lemma BesideBack()
    ensures Next(Beside(4), Beside(5))
  {
    assert Renamed(NEW_ASIDE, Rollback(0, Db), Active(Db)) == OLD_BESIDE_NEW;
    assert MoveSucceeds(Beside(4), Beside(5), Rollback(0, Db), Active(Db), Undoing(5));
    assert UndoStep(Beside(4), Beside(5), 4);
  }

  lemma BesideNothingBack(n: nat)
    requires 5 <= n < 7
    ensures Next(Beside(n), Beside(n + 1))
  {
    assert Rollback(0, ORDER[n - 4]) !in OLD_BESIDE_NEW;
    assert UndoStep(Beside(n), Beside(n + 1), n);
  }

  lemma BesideUploadsAside()
    ensures Next(Beside(7), Beside(8))
  {
    assert Renamed(OLD_BESIDE_NEW, Active(Uploads), Failed(0, Uploads)) == NEW_UPLOADS_ASIDE;
    assert UndoStep(Beside(7), Beside(8), 7);
  }

  lemma BesideUploadsBack()
    ensures Next(Beside(8), Beside(9))
  {
    assert Renamed(NEW_UPLOADS_ASIDE, Rollback(0, Uploads), Active(Uploads)) == OLD_PAIR;
    assert MoveSucceeds(Beside(8), Beside(9), Rollback(0, Uploads), Active(Uploads), Undoing(9));
    assert UndoStep(Beside(8), Beside(9), 8);
  }

  lemma BesideFailureRun() returns (run: seq<State>)
    ensures IsRun(run) && run[|run| - 1] == Beside(1)
  {
    BesideActivates();
    BesideReopens();
    BesideBegins();
    run := HalfRun();
    run := Then(run, Half(Swapping(5)), BothActive());
    run := Then(run, BothActive(), Beside(0));
    run := Then(run, Beside(0), Beside(1));
  }

  lemma BesideAsideRun() returns (run: seq<State>)
    ensures IsRun(run) && run[|run| - 1] == Beside(4)
  {
    BesideDatabaseAside();
    BesideLogNotAside();
    BesideNothingAside();
    run := BesideFailureRun();
    run := Then(run, Beside(1), Beside(2));
    run := Then(run, Beside(2), Beside(3));
    run := Then(run, Beside(3), Beside(4));
  }

  lemma BesideDatabaseRun() returns (run: seq<State>)
    ensures IsRun(run) && run[|run| - 1] == Beside(7)
  {
    BesideBack();
    BesideNothingBack(5);
    BesideNothingBack(6);
    run := BesideAsideRun();
    run := Then(run, Beside(4), Beside(5));
    run := Then(run, Beside(5), Beside(6));
    run := Then(run, Beside(6), Beside(7));
  }

  lemma BesideRun() returns (run: seq<State>)
    ensures IsRun(run) && run[|run| - 1] == Beside(9)
  {
    BesideUploadsAside();
    BesideUploadsBack();
    run := BesideDatabaseRun();
    run := Then(run, Beside(7), Beside(8));
    run := Then(run, Beside(8), Beside(9));
  }

  /** Reopening fails after it has made a log, the rollback cannot set that log aside, goes on, and opens
      the old database beside it. */
  lemma OldDatabaseBesideNewLog() returns (run: seq<State>)
    ensures IsRun(run)
    ensures var last := run[|run| - 1];
            last.pc == Undoing(9) && !last.undoFailed && Intact(last, Db) && Intact(last, Uploads) && Foreign(last, Wal)
  {
    run := BesideRun();
  }
}
