/** What a crash and the restart after it leave active, in every run of the restore machine. */
module RestoreCrash {
  import opened RestoreMachine

  predicate Has(s: State, item: Item) { Active(item) in s.files }

  predicate Held(s: State, item: Item) { Rollback(s.dir, item) in s.files }

  /** An item that is active while the old one is held is the replacement. */
  ghost predicate OnlyReplaced(s: State, item: Item) {
    Held(s, item) && Has(s, item) ==> IsNew(s, item)
  }

  // ---- What is where, by the point the process has reached ------------------------------------------

  ghost predicate SwapMarks(s: State, n: nat) {
    s.staged == (if n < 4 then n else 4) && s.failedAt == 0
  }

  ghost predicate UndoMarks(s: State, n: nat) {
    && s.failedAt <= 6 && s.staged == (if s.failedAt < 4 then s.failedAt else 4)
    && (Held(s, Db) <==> s.staged > 0 && n <= 4)
    && (Held(s, Uploads) <==> s.staged == 4 && n <= 8)
    && (s.staged > 0 && n <= 1 ==> (Has(s, Db) <==> s.failedAt >= 5))
    && (s.staged > 0 && n <= 4 && Has(s, Db) ==> s.failedAt >= 5)
    && (n <= 7 && Held(s, Uploads) ==> (Has(s, Uploads) <==> s.failedAt == 6))
    && (n == 8 && Has(s, Uploads) ==> s.failedAt == 6)
    && OnlyReplaced(s, Db) && OnlyReplaced(s, Uploads)
  }

  /** A companion in the rollback directory: there exactly if it was staged, and as it was. */
  ghost predicate Waits(s: State, c: nat)
    requires c < 4
  {
    && (Held(s, ORDER[c]) <==> Active(ORDER[c]) in s.start && c < s.staged)
    && (Held(s, ORDER[c]) ==> Kept(s, ORDER[c]))
  }

  /** A companion after the recovery has dealt with it. */
  ghost predicate Returned(s: State, c: nat)
    requires c < 4
  {
    && (Has(s, ORDER[c]) <==> Active(ORDER[c]) in s.start && c < s.staged)
    && (Has(s, ORDER[c]) ==> Intact(s, ORDER[c]))
    && !Held(s, ORDER[c])
  }

  /** Before the recovery has reached the swap's directory. */
  ghost predicate Untouched(s: State) {
    !Has(s, Db) && Held(s, Db) && (Held(s, Uploads) <==> s.staged == 4) && Waits(s, 1) && Waits(s, 2)
  }

  /** After the recovery has left it. */
  ghost predicate Finished(s: State) {
    !Held(s, Db) && !Held(s, Uploads) && Returned(s, 1) && Returned(s, 2)
  }

  ghost predicate CompanionMarks(s: State, c: nat, n: nat)
    requires c < 4
  {
    && (n <= c + 3 ==> Waits(s, c))
    && (c < n <= c + 3 ==> !Has(s, ORDER[c]))
    && (n > c + 3 ==> Returned(s, c))
  }

  /** While the recovery works on the swap's directory. */
  ghost predicate WorkMarks(s: State, n: nat) {
    && (n <= 3 <==> Held(s, Db)) && (Has(s, Db) <==> n > 3)
    && (n <= 7 ==> (Held(s, Uploads) <==> s.staged == 4))
    && (n == 8 ==> !Held(s, Uploads))
    && (n == 7 ==> Held(s, Uploads) && !Has(s, Uploads))
    && CompanionMarks(s, 1, n) && CompanionMarks(s, 2, n)
  }

  ghost predicate RecoverMarks(s: State, queue: seq<nat>, n: nat) {
    if s.dir !in queue then Finished(s) else if queue[0] != s.dir then Untouched(s) else WorkMarks(s, n)
  }

  ghost predicate DiscardMarks(s: State, queue: seq<nat>) {
    if queue != [] && s.dir in queue && queue[0] != s.dir then Untouched(s) else Finished(s)
  }

  /** While the process is down, or sweeping: what was where it died. */
  ghost predicate DeathMarks(s: State) {
    && (!Has(s, Db) ==> Untouched(s))
    && match s.died
       case Swapping(n) =>
         && n <= 6 && (Held(s, Db) <==> n >= 1) && (Held(s, Uploads) <==> n >= 4)
         && (Has(s, Db) <==> n == 0 || n >= 5) && (Held(s, Uploads) ==> (Has(s, Uploads) <==> n == 6))
       case Undoing(n) => n <= 9 && UndoMarks(s, n)
       case Cleaning => !Held(s, Db) && !Held(s, Uploads)
       case Recovering(queue, n) =>
         if s.dir !in queue then !Held(s, Db) && !Held(s, Uploads)
         else if queue[0] != s.dir then !Has(s, Db)
         else
           && (Has(s, Db) <==> n > 3) && (Held(s, Db) <==> n <= 3) && n <= 8
           && (Held(s, Uploads) <==> n <= 7 && s.staged == 4)
       case Discarding(queue) =>
         if queue != [] && s.dir in queue && queue[0] != s.dir then !Has(s, Db) else !Held(s, Db) && !Held(s, Uploads)
       case _ => false
  }

  /** And the same for a companion. */
  ghost predicate DeathCompanion(s: State, c: nat)
    requires c < 4
  {
    match s.died
    case Swapping(n) => StagedUpTo(s, c, n)
    case Undoing(n) => CompanionInv(s, c, n)
    case Recovering(queue, n) =>
      if s.dir !in queue then Returned(s, c) else queue[0] == s.dir ==> CompanionMarks(s, c, n)
    case Discarding(queue) => (queue != [] && s.dir in queue && queue[0] != s.dir) || Returned(s, c)
    case _ => true
  }

  // ---- A rollback that fails --------------------------------------------------------------------------

  /** Only the rollback directory still has the item when the undo fails. */
  predicate AtRisk(s: State, item: Item) {
    if item == Uploads then s.staged == 4 else s.staged > 0 && s.undoFailedAt <= 4
  }

  ghost predicate SpoiltItem(s: State, item: Item) {
    && (!AtRisk(s, item) ==> Intact(s, item) && !Held(s, item))
    && (AtRisk(s, item) ==> (Held(s, item) ==> Kept(s, item)) && (Has(s, item) ==> IsNew(s, item)))
    && Active(item) in s.start && Staged(s.work, item) in s.start
  }

  /** The rollback has failed, and no recovery has begun. */
  ghost predicate Spoilt(s: State) { s.undoFailed && !s.settled && (s.pc == Cleaning || FirstRestart(s)) }

  ghost predicate Marks(s: State) {
    && (s.pc.Swapping? ==> SwapMarks(s, s.pc.n))
    && (s.pc.Undoing? ==> UndoMarks(s, s.pc.n) && Staged(s.work, Db) in s.start && Staged(s.work, Uploads) in s.start)
    && (Spoilt(s) ==> SpoiltItem(s, Db) && SpoiltItem(s, Uploads))
    && (Spoilt(s) && s.alone ==> OnlyOneDatabase(s))
    && (Tracked(s) && (s.pc == Down || s.pc == Sweeping) ==>
        DeathMarks(s) && DeathCompanion(s, 1) && DeathCompanion(s, 2))
    && (Pending(s) && s.pc.Recovering? ==> RecoverMarks(s, s.pc.queue, s.pc.n))
    && (Pending(s) && s.pc.Discarding? ==> DiscardMarks(s, s.pc.queue))
    && (Tracked(s) ==> OnlyReplaced(s, Db) && OnlyReplaced(s, Uploads))
  }

  // ---- Every step keeps the marks ----------------------------------------------------------------------

  lemma BeginMarks(s: State, s': State)
    requires Inv(s) && Begin(s, s')
    ensures Marks(s')
  {
  }

  lemma StageMarks(s: State, s': State, n: nat)
    requires Inv(s) && Marks(s) && s.pc == Swapping(n) && n < 4 && StageSucceeds(s, s', n)
    ensures Marks(s')
  {
    StageKeepsInv(s, s', n);
    assert StagedUpTo(s', 0, n + 1) && StagedUpTo(s', 3, n + 1);
  }

  lemma ActivateMarks(s: State, s': State, n: nat)
    requires Inv(s) && Marks(s) && s.pc == Swapping(n) && 4 <= n < 6 && SwapStep(s, s', n) && !SwapFails(s, s', n)
    ensures Marks(s')
  {
    ActivateKeepsInv(s, s', n);
    assert StagedUpTo(s', 0, n + 1) && StagedUpTo(s', 3, n + 1);
  }

  lemma SwapFailureMarks(s: State, s': State, n: nat)
    requires Inv(s) && Marks(s) && s.pc == Swapping(n) && SwapFails(s, s', n) && n <= 6
    ensures Marks(s')
  {
    assert StagedUpTo(s, 0, n) && StagedUpTo(s, 3, n);
  }

  lemma ReopenMarks(s: State, s': State)
    requires Inv(s) && Marks(s) && s.pc == Swapping(6) && SwapStep(s, s', 6)
    ensures Marks(s')
  {
    assert StagedUpTo(s, 0, 6) && StagedUpTo(s, 3, 6);
  }

  lemma UndoFailureMarks(s: State, s': State, n: nat)
    requires Inv(s) && Marks(s) && s.pc == Undoing(n) && n <= 8 && UndoFails(s, s', n)
    ensures Marks(s')
  {
  }

  lemma UndoStartMarks(s: State, s': State)
    requires Inv(s) && Marks(s) && s.pc == Undoing(0) && UndoStep(s, s', 0) && !s'.undoFailed
    ensures Marks(s')
  {
  }

  lemma SetAsideMarks(s: State, s': State, n: nat)
    requires Inv(s) && Marks(s) && s.pc == Undoing(n) && 1 <= n < 4 && SetAside(s, s', ORDER[n - 1], Undoing(n + 1))
    ensures Marks(s')
  {
  }

  lemma PutBackMarks(s: State, s': State, n: nat)
    requires Inv(s) && Marks(s) && s.pc == Undoing(n) && 4 <= n < 7
    requires MoveSucceeds(s, s', Rollback(s.dir, ORDER[n - 4]), Active(ORDER[n - 4]), Undoing(n + 1))
    ensures Marks(s')
  {
  }

  lemma UndoUploadsMarks(s: State, s': State, n: nat)
    requires Inv(s) && Marks(s) && s.pc == Undoing(n) && 7 <= n < 9 && UndoStep(s, s', n) && !s'.undoFailed
    ensures Marks(s')
  {
    if n == 7 { UploadsAsideMarks(s, s'); } else { UploadsBackMarks(s, s'); }
  }

  lemma UploadsAsideMarks(s: State, s': State)
    requires Inv(s) && Marks(s) && s.pc == Undoing(7) && UndoStep(s, s', 7)
    ensures Marks(s')
  {
  }

  lemma UploadsBackMarks(s: State, s': State)
    requires Inv(s) && Marks(s) && s.pc == Undoing(8) && UndoStep(s, s', 8) && !s'.undoFailed
    ensures Marks(s')
  {
  }

  lemma UndoReopenMarks(s: State, s': State)
    requires Inv(s) && Marks(s) && s.pc == Undoing(9) && UndoStep(s, s', 9)
    ensures Marks(s')
  {
  }

  lemma UndoStepMarks(s: State, s': State, n: nat)
    requires Inv(s) && Marks(s) && s.pc == Undoing(n) && UndoStep(s, s', n)
    ensures Marks(s')
  {
    if s'.undoFailed { UndoFailureMarks(s, s', n); }
    else if n == 0 { UndoStartMarks(s, s'); }
    else if n < 4 { SetAsideMarks(s, s', n); }
    else if n < 7 { PutBackMarks(s, s', n); }
    else if n < 9 { UndoUploadsMarks(s, s', n); }
    else { UndoReopenMarks(s, s'); }
  }

  lemma CleanMarks(s: State, s': State)
    requires Inv(s) && Marks(s) && s.pc == Cleaning && CleanStep(s, s')
    ensures Marks(s')
  {
  }

  // ---- While the process is down, or sweeping ---------------------------------------------------------------

  /** Only validating workspaces differ. */
  ghost predicate Alike(s: State, s': State) {
    && s' == s.(files := s'.files, workspaces := s'.workspaces, pc := s'.pc)
    && forall p: Path :: !p.Staged? ==>
         (p in s'.files <==> p in s.files) && (p in s.files ==> s'.files[p] == s.files[p])
  }

  lemma AlikeDeath(s: State, s': State)
    requires Alike(s, s') && DeathMarks(s)
    ensures DeathMarks(s')
  {
  }

  lemma AlikeCompanion(s: State, s': State, c: nat)
    requires Alike(s, s') && 1 <= c < 3 && DeathCompanion(s, c)
    ensures DeathCompanion(s', c)
  {
  }

  lemma AlikeReplaced(s: State, s': State, item: Item)
    requires Alike(s, s') && OnlyReplaced(s, item)
    ensures OnlyReplaced(s', item)
  {
  }

  lemma AlikeSpoilt(s: State, s': State, item: Item)
    requires Alike(s, s') && SpoiltItem(s, item)
    ensures SpoiltItem(s', item)
  {
  }

  lemma AlikeOnlyOne(s: State, s': State)
    requires Alike(s, s') && OnlyOneDatabase(s)
    ensures OnlyOneDatabase(s')
  {
  }

  lemma AlikeTracked(s: State, s': State)
    requires Alike(s, s') && Marks(s) && Tracked(s) && (s.pc == Down || s.pc == Sweeping)
    ensures DeathMarks(s') && DeathCompanion(s', 1) && DeathCompanion(s', 2)
    ensures OnlyReplaced(s', Db) && OnlyReplaced(s', Uploads)
  {
    AlikeDeath(s, s');
    AlikeCompanion(s, s', 1);
    AlikeCompanion(s, s', 2);
    AlikeReplaced(s, s', Db);
    AlikeReplaced(s, s', Uploads);
  }

  lemma RestingMarks(s: State)
    requires s.pc == Down || s.pc == Sweeping
    requires Spoilt(s) ==> SpoiltItem(s, Db) && SpoiltItem(s, Uploads) && (s.alone ==> OnlyOneDatabase(s))
    requires Tracked(s) ==> DeathMarks(s) && DeathCompanion(s, 1) && DeathCompanion(s, 2)
    requires Tracked(s) ==> OnlyReplaced(s, Db) && OnlyReplaced(s, Uploads)
    ensures Marks(s)
  {
  }

  lemma AlikeMarks(s: State, s': State)
    requires Alike(s, s') && Marks(s)
    requires (s.pc == Down || s.pc == Sweeping) && (s'.pc == Down || s'.pc == Sweeping)
    ensures Marks(s')
  {
    if Tracked(s) { AlikeTracked(s, s'); }
    if Spoilt(s) {
      AlikeSpoilt(s, s', Db);
      AlikeSpoilt(s, s', Uploads);
      if s.alone { AlikeOnlyOne(s, s'); }
    }
    RestingMarks(s');
  }

  // ---- Dying ---------------------------------------------------------------------------------------------

  lemma SwappingDeath(s: State, n: nat)
    requires SwapInv(s, n) && SwapMarks(s, n) && s.pc == Swapping(n)
    ensures DeathMarks(Dead(s)) && DeathCompanion(Dead(s), 1) && DeathCompanion(Dead(s), 2)
  {
    assert StagedUpTo(s, 0, n) && StagedUpTo(s, 1, n) && StagedUpTo(s, 2, n) && StagedUpTo(s, 3, n);
  }

  lemma SwappingReplaced(s: State, n: nat)
    requires SwapInv(s, n) && s.pc == Swapping(n)
    ensures OnlyReplaced(Dead(s), Db) && OnlyReplaced(Dead(s), Uploads)
  {
    assert StagedUpTo(s, 0, n) && StagedUpTo(s, 3, n);
  }

  lemma DeadSwapping(s: State, n: nat)
    requires Inv(s) && Marks(s) && s.pc == Swapping(n)
    ensures Marks(Dead(s))
  {
    SwappingDeath(s, n);
    SwappingReplaced(s, n);
    RestingMarks(Dead(s));
  }

  lemma UndoingDeath(s: State, n: nat)
    requires UndoMain(s, n) && UndoMarks(s, n) && s.pc == Undoing(n) && CompanionInv(s, 1, n) && CompanionInv(s, 2, n)
    ensures DeathMarks(Dead(s))
  {
  }

  lemma UndoingCompanion(s: State, n: nat, c: nat)
    requires 1 <= c < 3 && CompanionInv(s, c, n) && s.pc == Undoing(n)
    ensures DeathCompanion(Dead(s), c)
  {
  }

  lemma DeadUndoing(s: State, n: nat)
    requires Inv(s) && Marks(s) && s.pc == Undoing(n)
    ensures Marks(Dead(s))
  {
    UndoingDeath(s, n);
    UndoingCompanion(s, n, 1);
    UndoingCompanion(s, n, 2);
    RestingMarks(Dead(s));
  }

  lemma DeadCleaning(s: State)
    requires Inv(s) && Marks(s) && s.pc == Cleaning
    ensures Marks(Dead(s))
  {
  }

  lemma DeadRecovering(s: State, queue: seq<nat>, n: nat)
    requires Inv(s) && Marks(s) && s.pc == Recovering(queue, n)
    ensures Marks(Dead(s))
  {
  }

  lemma DeadDiscarding(s: State, queue: seq<nat>)
    requires Inv(s) && Marks(s) && s.pc == Discarding(queue)
    ensures Marks(Dead(s))
  {
  }

  lemma DeadIdle(s: State)
    requires Inv(s) && Marks(s) && (s.pc == Serving || s.pc == Down || s.pc == Sweeping)
    ensures Marks(Dead(s))
  {
    if s.pc != Serving { AlikeMarks(s, Dead(s)); } else { RestingMarks(Dead(s)); }
  }

  lemma DeadMarks(s: State)
    requires Inv(s) && Marks(s)
    ensures Marks(Dead(s))
  {
    match s.pc
    case Swapping(n) => DeadSwapping(s, n);
    case Undoing(n) => DeadUndoing(s, n);
    case Cleaning => DeadCleaning(s);
    case Recovering(queue, n) => DeadRecovering(s, queue, n);
    case Discarding(queue) => DeadDiscarding(s, queue);
    case _ => DeadIdle(s);
  }

  // ---- Recovering -----------------------------------------------------------------------------------------

  lemma SweepMarks(s: State, s': State)
    requires Inv(s) && Marks(s) && s.pc == Sweeping && SweepStep(s, s')
    ensures Marks(s')
  {
    if s'.pc == Sweeping { SweptMarks(s, s'); }
    else if Pending(s') { QueueMarks(s, s'); }
    else { NotPendingMarks(s'); }
  }

  lemma SweptMarks(s: State, s': State)
    requires Inv(s) && Marks(s) && s.pc == Sweeping && SweepStep(s, s') && s'.pc == Sweeping
    ensures Marks(s')
  {
    AlikeMarks(s, s');
  }

  lemma QueueMarks(s: State, s': State)
    requires Inv(s) && Marks(s) && s.pc == Sweeping && SweepStep(s, s') && s'.pc.Recovering? && Pending(s')
    ensures Marks(s')
  {
  }

  lemma InspectMarks(s: State, s': State, queue: seq<nat>, n: nat)
    requires Inv(s) && Marks(s) && s.pc == Recovering(queue, n) && RecoverStep(s, s', queue, n)
    requires queue == [] || n == 0
    ensures Marks(s')
  {
  }

  /** The work on the swap's own directory, one move at a time. */
  ghost predicate Working(s: State, n: nat) {
    WorkMarks(s, n) && OnlyReplaced(s, Db) && OnlyReplaced(s, Uploads)
  }

  lemma AsideWork(s: State, s': State, n: nat, pc: Pc)
    requires Working(s, n) && 1 <= n < 3
    requires MoveSucceeds(s, s', Active(ORDER[n]), Failed(s.dir, ORDER[n]), pc)
    ensures Working(s', n + 1)
  {
  }

  lemma DatabaseWork(s: State, s': State, pc: Pc)
    requires Working(s, 3) && MoveSucceeds(s, s', Rollback(s.dir, Db), Active(Db), pc)
    ensures Working(s', 4)
  {
  }

  lemma CompanionWork(s: State, s': State, n: nat, pc: Pc)
    requires Working(s, n) && 4 <= n < 6
    requires MoveSucceeds(s, s', Rollback(s.dir, ORDER[n - 3]), Active(ORDER[n - 3]), pc)
    ensures Working(s', n + 1)
  {
  }

  lemma UploadsWork(s: State, s': State, pc: Pc)
    requires Working(s, 7) && MoveSucceeds(s, s', Rollback(s.dir, Uploads), Active(Uploads), pc)
    ensures Working(s', 8)
  {
  }

  lemma SkipWork(s: State, s': State, pc: Pc)
    requires Working(s, 6) && !Held(s, Uploads) && Goes(s, s', s.files, pc)
    ensures Working(s', 8)
  {
  }

  lemma RoomWork(s: State, s': State, pc: Pc)
    requires Working(s, 6) && Held(s, Uploads) && Goes(s, s', s.files - {Active(Uploads)}, pc)
    ensures Working(s', 7)
  {
  }

  lemma MoveWork(s: State, s': State, queue: seq<nat>, n: nat)
    requires Working(s, n) && queue != [] && queue[0] == s.dir && s.pc == Recovering(queue, n) && 1 <= n < 6
    requires RecoverStep(s, s', queue, n)
    ensures s'.pc == Recovering(queue, n + 1) && Working(s', n + 1)
  {
    if n < 3 { AsideWork(s, s', n, Recovering(queue, n + 1)); }
    else if n == 3 { DatabaseWork(s, s', Recovering(queue, 4)); }
    else { CompanionWork(s, s', n, Recovering(queue, n + 1)); }
  }

  lemma MakeRoomWork(s: State, s': State, queue: seq<nat>)
    requires Working(s, 6) && queue != [] && queue[0] == s.dir && s.pc == Recovering(queue, 6)
    requires RecoverStep(s, s', queue, 6)
    ensures s'.pc.Recovering? && s'.pc.queue == queue && Working(s', s'.pc.n)
  {
    if !Held(s, Uploads) { SkipWork(s, s', Recovering(queue, 8)); }
    else {
      assert Has(s, Uploads) || s.files - {Active(Uploads)} == s.files;
      RoomWork(s, s', Recovering(queue, 7));
    }
  }

  /** One step on the head of the queue, which is the swap's directory. */
  lemma WorkStep(s: State, s': State, queue: seq<nat>, n: nat)
    requires Working(s, n) && queue != [] && queue[0] == s.dir && s.pc == Recovering(queue, n) && 1 <= n < 8
    requires RecoverStep(s, s', queue, n)
    ensures s'.pc.Recovering? && s'.pc.queue == queue && Working(s', s'.pc.n)
  {
    if n < 6 { MoveWork(s, s', queue, n); }
    else if n == 6 { MakeRoomWork(s, s', queue); }
    else { UploadsWork(s, s', Recovering(queue, 8)); }
  }

  /** Outside a swap that is pending nothing is claimed during a recovery. */
  lemma NotPendingMarks(s: State)
    requires !Pending(s) && (s.pc == Serving || s.pc.Recovering? || s.pc.Discarding?)
    ensures Marks(s)
  {
  }

  lemma RecoverStepMarks(s: State, s': State, queue: seq<nat>, n: nat)
    requires Inv(s) && Marks(s) && s.pc == Recovering(queue, n) && RecoverStep(s, s', queue, n)
    ensures Marks(s')
  {
    if !Pending(s) { RecoverNotPending(s, s', queue, n); }
    else if queue == [] || n == 0 { InspectMarks(s, s', queue, n); }
    else {
      assert queue[0] == s.dir && queue[0] in queue;
      if n < 8 { WorkStep(s, s', queue, n); } else { DoneMarks(s, s', queue, n); }
    }
  }

  lemma GoesNotPending(s: State, s': State, files: Files, pc: Pc)
    requires !Pending(s) && Goes(s, s', files, pc)
    ensures !Pending(s') && s'.pc == pc
  {
  }

  lemma MoveStaysNotPending(s: State, s': State, source: Path, target: Path, pc: Pc)
    requires !Pending(s) && MoveSucceeds(s, s', source, target, pc)
    ensures !Pending(s') && s'.pc == pc
  {
    GoesNotPending(s, s', s'.files, pc);
  }

  lemma StaysNotPending(s: State, s': State, queue: seq<nat>, n: nat)
    requires !Pending(s) && s.pc == Recovering(queue, n) && RecoverStep(s, s', queue, n)
    ensures !Pending(s') && (s'.pc == Serving || s'.pc.Recovering? || s'.pc.Discarding?)
  {
    if queue != [] {
      var d := queue[0];
      if 1 <= n < 3 {
        MoveStaysNotPending(s, s', Active(ORDER[n]), Failed(d, ORDER[n]), Recovering(queue, n + 1));
      } else if 3 <= n < 6 {
        MoveStaysNotPending(s, s', Rollback(d, ORDER[n - 3]), Active(ORDER[n - 3]), Recovering(queue, n + 1));
      } else if n == 7 {
        MoveStaysNotPending(s, s', Rollback(d, Uploads), Active(Uploads), Recovering(queue, 8));
      }
    }
  }

  lemma RecoverNotPending(s: State, s': State, queue: seq<nat>, n: nat)
    requires !Pending(s) && s.pc == Recovering(queue, n) && RecoverStep(s, s', queue, n)
    ensures Marks(s')
  {
    StaysNotPending(s, s', queue, n);
    NotPendingMarks(s');
  }

  lemma DoneMarks(s: State, s': State, queue: seq<nat>, n: nat)
    requires Inv(s) && Marks(s) && Pending(s) && s.pc == Recovering(queue, n) && queue != [] && queue[0] == s.dir &&
             n == 8
    requires RecoverStep(s, s', queue, n)
    ensures Marks(s')
  {
    assert queue[0] in queue;
  }

  lemma DiscardStepMarks(s: State, s': State, queue: seq<nat>)
    requires Inv(s) && Marks(s) && s.pc == Discarding(queue) && DiscardStep(s, s', queue)
    ensures Marks(s')
  {
  }

  lemma ServeMarks(s: State, s': State)
    requires Inv(s) && Marks(s) && s.pc == Serving && (Begin(s, s') || ServeStep(s, s'))
    ensures Marks(s')
  {
    if Begin(s, s') { BeginMarks(s, s'); } else { NotPendingMarks(s'); }
  }

  lemma DownMarks(s: State, s': State)
    requires Inv(s) && Marks(s) && s.pc == Down && Goes(s, s', s.files, Sweeping)
    ensures Marks(s')
  {
    AlikeMarks(s, s');
  }

  lemma AtRestMarks(s: State, s': State)
    requires Inv(s) && Marks(s) && Next(s, s') && s' != Dead(s) && (s.pc == Serving || s.pc == Cleaning)
    ensures Marks(s')
  {
    if s.pc == Serving { ServeMarks(s, s'); } else { CleanMarks(s, s'); }
  }

  lemma WorkingMarks(s: State, s': State)
    requires Inv(s) && Marks(s) && Next(s, s') && s' != Dead(s) && (s.pc.Swapping? || s.pc.Undoing?)
    ensures Marks(s')
  {
    if s.pc.Swapping? { SwapStepMarks(s, s', s.pc.n); } else { UndoStepMarks(s, s', s.pc.n); }
  }

  lemma RestartMarks(s: State, s': State)
    requires Inv(s) && Marks(s) && Next(s, s') && s' != Dead(s)
    requires s.pc == Down || s.pc == Sweeping || s.pc.Recovering? || s.pc.Discarding?
    ensures Marks(s')
  {
    match s.pc
    case Down => DownMarks(s, s');
    case Sweeping => SweepMarks(s, s');
    case Recovering(queue, n) => RecoverStepMarks(s, s', queue, n);
    case Discarding(queue) => DiscardStepMarks(s, s', queue);
  }

  lemma NextKeepsMarks(s: State, s': State)
    requires Inv(s) && Marks(s) && Next(s, s')
    ensures Marks(s')
  {
    if s' == Dead(s) { DeadMarks(s); }
    else if s.pc == Serving || s.pc == Cleaning { AtRestMarks(s, s'); }
    else if s.pc.Swapping? || s.pc.Undoing? { WorkingMarks(s, s'); }
    else { RestartMarks(s, s'); }
  }

  lemma SwapStepMarks(s: State, s': State, n: nat)
    requires Inv(s) && Marks(s) && s.pc == Swapping(n) && SwapStep(s, s', n)
    ensures Marks(s')
  {
    if n == 6 { ReopenMarks(s, s'); }
    else if SwapFails(s, s', n) { SwapFailureMarks(s, s', n); }
    else if n < 4 { StageMarks(s, s', n); }
    else { ActivateMarks(s, s', n); }
  }

  lemma InitMarks(s: State)
    requires Init(s)
    ensures Marks(s)
  {
    NotPendingMarks(s);
  }

  // Two neighbours of a run.
  lemma StepMarks(s: State, s': State)
    requires Inv(s) && Marks(s) && Next(s, s')
    ensures Inv(s') && Marks(s')
  {
    NextKeepsInv(s, s');
    NextKeepsMarks(s, s');
  }

  lemma {:induction false} RunKeepsMarks(run: seq<State>, i: nat)
    requires IsRun(run) && i < |run|
    ensures Inv(run[i]) && Marks(run[i])
  {
    if i == 0 {
      RunKeepsInv(run, 0);
      InitMarks(run[0]);
    } else {
      RunKeepsMarks(run, i - 1);
      assert Follows(run, i - 1);
      StepMarks(run[i - 1], run[i]);
    }
  }

  // ---- Restarts ---------------------------------------------------------------------------------------------

  ghost predicate BothOld(s: State) { Intact(s, Db) && Intact(s, Uploads) }

  ghost predicate BothNew(s: State) { IsNew(s, Db) && IsNew(s, Uploads) }

  /** The points at which dying leaves a database without the uploads that belong to it. */
  predicate Tears(s: State) {
    match s.died
    case Swapping(n) => n == 5
    case Undoing(n) => if n <= 4 then s.failedAt == 5 else n <= 8 && s.failedAt >= 4
    case Recovering(queue, n) => queue != [] && queue[0] == s.dir && 4 <= n <= 7 && s.staged == 4
    case _ => false
  }

  /** An active replacement that has the same contents as what it replaced. */
  ghost predicate SameAsOld(s: State, item: Item) {
    Has(s, item) && Active(item) in s.start && Staged(s.work, item) in s.start &&
    s.start[Active(item)] == s.start[Staged(s.work, item)]
  }

  lemma SweepServes(s: State)
    requires Inv(s) && Marks(s) && s.pc == Sweeping && Tracked(s) && Has(s, Db)
    ensures BothOld(s) || BothNew(s) <==>
            !Tears(s) || (Has(s, Uploads) && (SameAsOld(s, Db) || SameAsOld(s, Uploads)))
    ensures Tears(s) ==> Kept(s, Uploads) && (Has(s, Uploads) ==> IsNew(s, Uploads))
  {
  }

  /** A restart that finds a database after a pending swap serves the old pair or the new one if and
      only if the process did not die at one of the points that tear them apart, or the replacement
      that is active happens to equal what it replaced. After a tear the old uploads are still in the
      rollback directory, and nothing that was extracted is left. */
  lemma RestartServesExactly(run: seq<State>, i: nat)
    requires IsRun(run) && i + 1 < |run| && run[i].pc == Sweeping && Tracked(run[i]) && run[i + 1].pc == Serving
    ensures var s := run[i + 1];
            && (BothOld(s) || BothNew(s) <==>
                !Tears(s) || (Has(s, Uploads) && (SameAsOld(s, Db) || SameAsOld(s, Uploads))))
            && (Tears(s) ==> Kept(s, Uploads) && (Has(s, Uploads) ==> IsNew(s, Uploads)))
            && Located(s, Db) && Located(s, Uploads)
            && forall p :: p in s.files ==> !p.Staged?
  {
    RunKeepsMarks(run, i);
    assert Follows(run, i);
    assert SweepStep(run[i], run[i + 1]);
    SweepServes(run[i]);
  }

  /** A companion is as it was when the swap began, and none is left in the rollback directory. */
  ghost predicate Right(s: State, c: nat)
    requires c < 4
  {
    SameAsAtStart(s, ORDER[c]) && !Held(s, ORDER[c])
  }

  /** By the point where the process died: after a rollback that was cut, a staged companion has come
      back if the rollback had put it back, one that was never moved is there if it was not set aside
      either, and a foreign one is there if it could not be. A recovery that was cut has dropped what
      was not staged, and put back what it had reached. */
  predicate ComesBack(s: State, c: nat)
    requires c < 4
  {
    var was := Active(ORDER[c]) in s.start;
    match s.died
    case Undoing(n) =>
      s.failedAt == 0 ||
      if !was then ORDER[c] !in s.notAside else if c < s.failedAt then n > c + 4 else ORDER[c] in s.notAside
    case Recovering(queue, n) => was ==> c < s.staged && (s.dir in queue ==> n > c + 3)
    case Discarding(_) => was ==> c < s.staged
    case _ => true
  }

  lemma SweepServesCompanion(s: State, c: nat)
    requires Inv(s) && Marks(s) && s.pc == Sweeping && Tracked(s) && Has(s, Db) && 1 <= c < 3
    requires !Held(s, Db) && s.died != Cleaning
    ensures Right(s, c) <==> ComesBack(s, c)
    ensures Held(s, ORDER[c]) ==> Kept(s, ORDER[c])
  {
  }

  /** The companions of an old database that a restart finds, unless the rollback had come to its end
      and opened it: each is right exactly by where the process died. One that was staged and has not
      come back is still in the rollback directory, so the database is served without it. */
  lemma RestartServesCompanions(run: seq<State>, i: nat, c: nat)
    requires IsRun(run) && i + 1 < |run| && run[i].pc == Sweeping && Tracked(run[i]) && run[i + 1].pc == Serving
    requires !Held(run[i + 1], Db) && run[i + 1].died != Cleaning && 1 <= c <= 2
    ensures var s := run[i + 1];
            && Intact(s, Db)
            && (Right(s, c) <==> ComesBack(s, c))
            && (Held(s, ORDER[c]) ==> Kept(s, ORDER[c]))
  {
    RunKeepsMarks(run, i);
    assert Follows(run, i);
    assert SweepStep(run[i], run[i + 1]);
    SweepServesCompanion(run[i], c);
  }

  lemma SweepServesNewAlone(s: State, c: nat)
    requires Inv(s) && Marks(s) && s.pc == Sweeping && Tracked(s) && Has(s, Db) && 1 <= c < 3
    requires Held(s, Db)
    ensures Has(s, ORDER[c]) ==> s.died.Undoing? && s.failedAt == 6
    ensures (Held(s, ORDER[c]) <==> Active(ORDER[c]) in s.start) && (Held(s, ORDER[c]) ==> Kept(s, ORDER[c]))
  {
  }

  /** A new database that a restart finds is served without companions, but for those it made itself
      when it was opened; the old ones are in the rollback directory. */
  lemma RestartServesNewAlone(run: seq<State>, i: nat, c: nat)
    requires IsRun(run) && i + 1 < |run| && run[i].pc == Sweeping && Tracked(run[i]) && run[i + 1].pc == Serving
    requires Held(run[i + 1], Db) && 1 <= c <= 2
    ensures var s := run[i + 1];
            && (Has(s, ORDER[c]) ==> s.died.Undoing? && s.failedAt == 6)
            && (Held(s, ORDER[c]) <==> Active(ORDER[c]) in s.start) && (Held(s, ORDER[c]) ==> Kept(s, ORDER[c]))
  {
    RunKeepsMarks(run, i);
    assert Follows(run, i);
    assert SweepStep(run[i], run[i + 1]);
    SweepServesNewAlone(run[i], c);
  }

  /** A restart that finds no database puts the old pair back, and a companion exactly as it was if
      there was none or it had been staged. */
  lemma RecoveryReturnsExactly(run: seq<State>, i: nat, c: nat)
    requires IsRun(run) && i < |run| && run[i].pc.Recovering? && run[i].pc.queue == [] && Pending(run[i]) && 1 <= c <= 2
    ensures BothOld(run[i])
    ensures SameAsAtStart(run[i], ORDER[c]) <==> Active(ORDER[c]) !in run[i].start || c < run[i].staged
  {
    RunKeepsMarks(run, i);
    RecoveryIsComplete(run, i);
    assert Returned(run[i], 1) && Returned(run[i], 2);
  }

  // ---- Failing rollbacks ---------------------------------------------------------------------------------------

  ghost predicate Lost(s: State, item: Item) { !Intact(s, item) && !Kept(s, item) }

  /** When a rollback fails, at that moment nothing is lost: the database is active exactly if it was
      never staged or the failing move came after it was put back, and in the rollback directory
      otherwise; uploads that were staged are always still in the rollback directory. */
  lemma UndoFailureKeepsBoth(run: seq<State>, i: nat, item: Item)
    requires IsRun(run) && i + 1 < |run| && run[i].pc.Undoing? && run[i + 1].pc == Cleaning && run[i + 1].undoFailed
    requires item == Db || item == Uploads
    ensures if AtRisk(run[i + 1], item) then Kept(run[i + 1], item)
            else Intact(run[i + 1], item) && !Held(run[i + 1], item)
  {
    RunKeepsMarks(run, i);
    RunKeepsMarks(run, i + 1);
    assert Follows(run, i);
    UndoFailurePlaces(run[i], run[i + 1], item);
  }

  lemma UndoFailsOnce(s: State, s': State, n: nat)
    requires !s.undoFailed && s.pc == Undoing(n) && UndoStep(s, s', n) && s'.undoFailed
    ensures UndoFails(s, s', n) && n <= 8
  {
  }

  lemma FailurePlaces(s: State, s': State, item: Item, n: nat)
    requires Inv(s) && Marks(s) && s.pc == Undoing(n) && UndoFails(s, s', n) && n <= 8
    requires item == Db || item == Uploads
    ensures if AtRisk(s', item) then Kept(s', item) else Intact(s', item) && !Held(s', item)
  {
  }

  lemma UndoFailurePlaces(s: State, s': State, item: Item)
    requires Inv(s) && Marks(s) && s.pc.Undoing? && UndoStep(s, s', s.pc.n) && s'.undoFailed &&
             (item == Db || item == Uploads)
    ensures if AtRisk(s', item) then Kept(s', item) else Intact(s', item) && !Held(s', item)
  {
    UndoFailsOnce(s, s', s.pc.n);
    FailurePlaces(s, s', item, s.pc.n);
  }

  lemma SpoiltExactly(s: State, item: Item)
    requires SpoiltItem(s, item)
    ensures Intact(s, item) <==> !AtRisk(s, item) || SameAsOld(s, item)
    ensures Lost(s, item) <==> AtRisk(s, item) && !SameAsOld(s, item) && !Held(s, item)
  {
  }

  /** As long as the removals after a failed rollback go on, and if the process dies until the next one
      has swept: an item that was not at risk is active
      and intact; one that was is intact only if the active replacement equals it; and it is lost
      exactly if the removal has reached it. */
  lemma FailedRollbackLosesExactly(run: seq<State>, i: nat, item: Item)
    requires IsRun(run) && i < |run| && Spoilt(run[i]) && (item == Db || item == Uploads)
    ensures Intact(run[i], item) <==> !AtRisk(run[i], item) || SameAsOld(run[i], item)
    ensures Lost(run[i], item) <==> AtRisk(run[i], item) && !SameAsOld(run[i], item) && !Held(run[i], item)
  {
    RunKeepsMarks(run, i);
    SpoiltExactly(run[i], item);
  }

  lemma RemovalKeepsSpoilt(s: State, s': State, item: Item)
    requires SpoiltItem(s, item) && CleanStep(s, s')
    ensures SpoiltItem(s', item)
  {
  }

  /** The same holds when the application serves again, after the removals or after a restart that finds
      a database: what was at risk is lost for good exactly if the removal succeeded for it. */
  lemma ServesAfterFailedRollback(run: seq<State>, i: nat, item: Item)
    requires IsRun(run) && i + 1 < |run| && Spoilt(run[i]) && run[i + 1].pc == Serving
    requires item == Db || item == Uploads
    ensures var s := run[i + 1];
            && (Intact(s, item) <==> !AtRisk(s, item) || SameAsOld(s, item))
            && (Lost(s, item) <==> AtRisk(s, item) && !SameAsOld(s, item) && !Held(s, item))
  {
    RunKeepsMarks(run, i);
    assert Follows(run, i);
    if run[i].pc == Cleaning {
      assert CleanStep(run[i], run[i + 1]);
      RemovalKeepsSpoilt(run[i], run[i + 1], item);
    } else {
      assert SweepStep(run[i], run[i + 1]);
    }
    SpoiltExactly(run[i + 1], item);
  }
}
