/** Restore swap, rollback and crash recovery as a state machine over single renames.
    Any rename may fail and the process may die between any two steps. */
module RestoreMachine {

  datatype Item = Db | Wal | Shm | Uploads

  datatype Path =
    | Active(item: Item)                    // nav.db, nav.db-wal, nav.db-shm, uploads
    | Rollback(dir: nat, item: Item)        // the same names in .restore-rollback-<dir>
    | Failed(dir: nat, item: Item)          // and in its directory "failed"
    | Staged(dir: nat, item: Item)          // extracted in .restore-validating-<dir>

  datatype Content = File(bytes: seq<bv8>) | Folder(files: map<string, seq<bv8>>)

  type Files = map<Path, Content>

  /** Databases and companions are files, uploads are directories. */
  ghost predicate Typed(files: Files) {
    forall p :: p in files ==> (p.item == Uploads <==> files[p].Folder?)
  }

  /** A rename replaces a file, but never a directory. */
  predicate CanRename(files: Files, source: Path, target: Path) {
    source in files && (target in files ==> files[source].File? && files[target].File?)
  }

  function Renamed(files: Files, source: Path, target: Path): Files
    requires source in files
  {
    (files - {source})[target := files[source]]
  }

  datatype Pc =
    | Serving                               // the application is running
    | Swapping(n: nat)                      // 0-3 stage the active items, 4-5 activate, 6 reopen
    | Undoing(n: nat)                       // 0 mkdir, 1-3 set aside, 4-6 restore, 7-8 uploads, 9 reopen
    | Cleaning                              // the deferred removals
    | Down                                  // the process is dead
    | Sweeping                              // recovery removes validating workspaces
    | Recovering(queue: seq<nat>, n: nat)   // 0 inspect, 1-2 set aside, 3-5 restore, 6-7 uploads, 8 remove
    | Discarding(queue: seq<nat>)           // removing the rollback directory at the head of the queue

  datatype State = State(
    files: Files, rollbacks: set<nat>, workspaces: set<nat>, pc: Pc,
    dir: nat, work: nat,          // rollback directory and workspace of the latest swap
    start: Files,                 // the files when its first rename was about to happen
    alone: bool,                  // no rollback directory of an earlier swap held a database then
    staged: nat,                  // how many of the staging steps were done
    failedAt: nat,                // the forward step that failed
    undoFailed: bool,             // the rollback's own directory or restoring move failed
    undoFailedAt: nat,            // at this step of the undo
    notAside: set<Item>,          // the active files that the undo failed to set aside
    died: Pc,                     // where the process was when it last died at work
    settled: bool)                // both replacements active and reopened, or serving again

  const ORDER: seq<Item> := [Db, Wal, Shm, Uploads]

  /** Go on at `pc` with these files. */
  predicate Goes(s: State, s': State, files: Files, pc: Pc) {
    s' == s.(files := files, pc := pc)
  }

  /** The process dies. Dying again before the recovery has done anything changes nothing. */
  function Dead(s: State): State {
    s.(pc := Down, died := if s.pc == Down || s.pc == Sweeping then s.died else s.pc)
  }

  /** `moveIfExists`, when it succeeds. */
  function MovedIfExists(files: Files, source: Path, target: Path): Files {
    if source in files then Renamed(files, source, target) else files
  }

  predicate Moves(files: Files, files': Files, source: Path, target: Path) {
    (source in files ==> CanRename(files, source, target)) && files' == MovedIfExists(files, source, target)
  }

  predicate MoveSucceeds(s: State, s': State, source: Path, target: Path, pc: Pc) {
    Goes(s, s', s'.files, pc) && Moves(s.files, s'.files, source, target)
  }

  /** Opening the database may create or change its companions. */
  ghost predicate Reopened(files: Files, files': Files) {
    Typed(files') && forall p :: p != Active(Wal) && p != Active(Shm) ==>
      (p in files' <==> p in files) && (p in files ==> files'[p] == files[p])
  }

  /** Some of the paths that satisfy `gone` have been removed, and nothing else has changed. */
  ghost predicate Removes(files: Files, files': Files, gone: Path -> bool) {
    forall p :: (p in files' ==> p in files && files'[p] == files[p]) && (p in files && !gone(p) ==> p in files')
  }

  predicate InRollback(p: Path, dir: nat) {
    (p.Rollback? || p.Failed?) && p.dir == dir
  }

  /** Everything in a rollback directory is in one that exists. */
  ghost predicate Hosted(files: Files, rollbacks: set<nat>) {
    forall p :: p in files && (p.Rollback? || p.Failed?) ==> p.dir in rollbacks
  }

  ghost predicate EmptyDir(files: Files, dir: nat) {
    forall p :: p in files ==> !InRollback(p, dir)
  }

  // ---- Steps of a swap ---------------------------------------------------------------------

  ghost predicate NoLeftDatabase(files: Files) {
    forall dir :: Rollback(dir, Db) !in files
  }

  /** The database is open, so it and the uploads exist, and everything has been extracted. */
  ghost predicate Begin(s: State, s': State) {
    && s.pc == Serving && Typed(s.files)
    && Active(Db) in s.files && Active(Uploads) in s.files
    && (s'.alone <==> NoLeftDatabase(s.files))
    && s'.dir in s.rollbacks && EmptyDir(s.files, s'.dir)
    && Staged(s'.work, Db) in s.files && Staged(s'.work, Uploads) in s.files
    && s' == s.(pc := Swapping(0), dir := s'.dir, work := s'.work,
                start := s.files, alone := s'.alone, staged := 0, failedAt := 0, undoFailed := false, undoFailedAt := 0,
                notAside := {}, died := Serving, settled := false)
  }

  /** Staging step `n`, when it succeeds. */
  predicate StageSucceeds(s: State, s': State, n: nat)
    requires n < 4
  {
    && s' == s.(files := s'.files, staged := n + 1, pc := Swapping(n + 1))
    && Moves(s.files, s'.files, Active(ORDER[n]), Rollback(s.dir, ORDER[n]))
  }

  predicate SwapFails(s: State, s': State, n: nat) {
    s' == s.(pc := Undoing(0), failedAt := n)
  }

  // The steps that branch say which fields may change, and then how.
  ghost predicate SwapStep(s: State, s': State, n: nat) {
    && s' == s.(files := s'.files, pc := s'.pc, staged := s'.staged, failedAt := s'.failedAt, settled := s'.settled)
    && (s'.pc == Undoing(0) || s'.failedAt == s.failedAt)
    && (s'.pc == Undoing(0) ==> s'.failedAt == n)
    && if n < 4 then
         && s'.settled == s.settled
         && if s'.pc == Undoing(0) then Active(ORDER[n]) in s.files && s'.files == s.files && s'.staged == s.staged
            else Moves(s.files, s'.files, Active(ORDER[n]), Rollback(s.dir, ORDER[n])) && s'.staged == n + 1 &&
                 s'.pc == Swapping(n + 1)
       else if n < 6 then
         var item := if n == 4 then Db else Uploads;
         && s'.settled == s.settled && s'.staged == s.staged
         && if s'.pc == Undoing(0) then s'.files == s.files
            else CanRename(s.files, Staged(s.work, item), Active(item)) && s'.pc == Swapping(n + 1) &&
                 s'.files == Renamed(s.files, Staged(s.work, item), Active(item))
       else
         && Reopened(s.files, s'.files) && s'.staged == s.staged
         && if s'.pc == Undoing(0) then s'.settled == s.settled else s'.pc == Cleaning && s'.settled
  }

  /** A move whose error is ignored. */
  predicate SetAside(s: State, s': State, item: Item, pc: Pc) {
    && s' == s.(files := s'.files, pc := pc, notAside := s'.notAside)
    && (|| (s'.notAside == s.notAside && Moves(s.files, s'.files, Active(item), Failed(s.dir, item)))
        || (s'.notAside == s.notAside + {item} && Active(item) in s.files && s'.files == s.files))
  }

  predicate UndoFails(s: State, s': State, n: nat) {
    s' == s.(pc := Cleaning, undoFailed := true, undoFailedAt := n)
  }

  /** Step `n`, a move that must succeed for the rollback to succeed. */
  predicate PutBack(s: State, s': State, item: Item, n: nat) {
    if s'.pc == Cleaning then Rollback(s.dir, item) in s.files && UndoFails(s, s', n)
    else MoveSucceeds(s, s', Rollback(s.dir, item), Active(item), Undoing(n + 1))
  }

  ghost predicate UndoStep(s: State, s': State, n: nat) {
    if n == 0 then
      if s'.pc == Cleaning then UndoFails(s, s', n)
      else Goes(s, s', s.files, if Rollback(s.dir, Db) in s.files then Undoing(1) else Undoing(7))
    else if n < 4 then SetAside(s, s', ORDER[n - 1], Undoing(n + 1))
    else if n < 7 then PutBack(s, s', ORDER[n - 4], n)
    else if n == 7 then
      if Rollback(s.dir, Uploads) in s.files then SetAside(s, s', Uploads, Undoing(8))
      else Goes(s, s', s.files, Undoing(9))
    else if n == 8 then PutBack(s, s', Uploads, n)
    else Reopened(s.files, s'.files) && Goes(s, s', s'.files, Cleaning)
  }

  /** The deferred removals ignore errors: they may leave anything behind. */
  ghost predicate CleanStep(s: State, s': State) {
    && Removes(s.files, s'.files, (p: Path) => InRollback(p, s.dir) || (p.Staged? && p.dir == s.work))
    && (s'.rollbacks == s.rollbacks || (EmptyDir(s'.files, s.dir) && s'.rollbacks == s.rollbacks - {s.dir}))
    && s'.workspaces <= s.workspaces
    && s' == s.(files := s'.files, rollbacks := s'.rollbacks, workspaces := s'.workspaces,
                pc := s'.pc, settled := s'.settled)
    && ((s'.pc == Cleaning && s'.settled == s.settled) || (s'.pc == Serving && s'.settled))
  }

  // ---- Steps of the recovery -----------------------------------------------------------------

  ghost predicate IsQueue(queue: seq<nat>, rollbacks: set<nat>) {
    && (forall i, j :: 0 <= i < j < |queue| ==> queue[i] != queue[j])
    && (forall e :: e in queue <==> e in rollbacks)
  }

  /** Workspaces go first. A present database ends the recovery; otherwise every rollback
      directory is visited, in whatever order their modification times give. */
  ghost predicate SweepStep(s: State, s': State) {
    && s' == s.(files := s'.files, workspaces := s'.workspaces, pc := s'.pc, settled := s'.settled)
    && if s'.pc == Sweeping then
         && s'.settled == s.settled && s'.workspaces <= s.workspaces
         && Removes(s.files, s'.files, (p: Path) => p.Staged?)
       else
         && (forall p :: p in s.files ==> !p.Staged?) && s.workspaces == s'.workspaces == {} && s'.files == s.files
         && if Active(Db) in s.files then s'.pc == Serving && s'.settled
            else s'.pc.Recovering? && s'.pc.n == 0 && IsQueue(s'.pc.queue, s.rollbacks) && s'.settled == s.settled
  }

  /** One step on the directory at the head of the queue. A move that fails ends the process, which
      may die at any step. */
  ghost predicate RecoverMoves(files: Files, files': Files, queue: seq<nat>, n: nat, pc: Pc)
    requires queue != []
  {
    var d := queue[0];
    if n == 0 then
      files' == files && pc == if Rollback(d, Db) in files then Recovering(queue, 1) else Discarding(queue)
    else if n < 3 then Moves(files, files', Active(ORDER[n]), Failed(d, ORDER[n])) && pc == Recovering(queue, n + 1)
    else if n < 6 then
      Moves(files, files', Rollback(d, ORDER[n - 3]), Active(ORDER[n - 3])) && pc == Recovering(queue, n + 1)
    else if n == 6 then
      if Rollback(d, Uploads) !in files then files' == files && pc == Recovering(queue, 8)
      else
        && (Active(Uploads) in files ==> files[Active(Uploads)] == Folder(map[]))
        && files' == files - {Active(Uploads)} && pc == Recovering(queue, 7)
    else if n == 7 then Moves(files, files', Rollback(d, Uploads), Active(Uploads)) && pc == Recovering(queue, 8)
    else files' == files && pc == Discarding(queue)
  }

  ghost predicate RecoverStep(s: State, s': State, queue: seq<nat>, n: nat) {
    if queue == [] then s' == s.(pc := Serving, settled := true)
    else Goes(s, s', s'.files, s'.pc) && RecoverMoves(s.files, s'.files, queue, n, s'.pc)
  }

  ghost predicate DiscardStep(s: State, s': State, queue: seq<nat>) {
    && queue != []
    && s' == s.(files := s'.files, rollbacks := s'.rollbacks, pc := s'.pc)
    && if s'.pc == s.pc then
         s'.rollbacks == s.rollbacks && Removes(s.files, s'.files, (p: Path) => InRollback(p, queue[0]))
       else
         && EmptyDir(s.files, queue[0]) && s'.files == s.files
         && s'.rollbacks == s.rollbacks - {queue[0]} && s'.pc == Recovering(queue[1..], 0)
  }

  /** While serving, the application writes its own files, validates uploads into fresh
      workspaces, and the operator may delete leftover rollback directories. */
  ghost predicate ServeStep(s: State, s': State) {
    && s.settled && Typed(s'.files) && Hosted(s'.files, s'.rollbacks)
    && s' == s.(files := s'.files, rollbacks := s'.rollbacks, workspaces := s'.workspaces)
  }

  ghost predicate Next(s: State, s': State) {
    || s' == Dead(s)
    || match s.pc
       case Serving => Begin(s, s') || ServeStep(s, s')
       case Swapping(n) => SwapStep(s, s', n)
       case Undoing(n) => UndoStep(s, s', n)
       case Cleaning => CleanStep(s, s')
       case Down => Goes(s, s', s.files, Sweeping)
       case Sweeping => SweepStep(s, s')
       case Recovering(queue, n) => RecoverStep(s, s', queue, n)
       case Discarding(queue) => DiscardStep(s, s', queue)
  }

  // ---- The invariant ---------------------------------------------------------------------------

  /** The item as it was when the swap began, at the active path. */
  ghost predicate Intact(s: State, item: Item) {
    Active(item) in s.files && Active(item) in s.start && s.files[Active(item)] == s.start[Active(item)]
  }

  /** The item as it was when the swap began, in the swap's rollback directory. */
  ghost predicate Kept(s: State, item: Item) {
    Rollback(s.dir, item) in s.files && Active(item) in s.start &&
    s.files[Rollback(s.dir, item)] == s.start[Active(item)]
  }

  /** In the rollback directory if there is one there, otherwise still active. */
  ghost predicate Located(s: State, item: Item) {
    if Rollback(s.dir, item) in s.files then Kept(s, item) else Intact(s, item)
  }

  ghost predicate IsNew(s: State, item: Item) {
    Active(item) in s.files && Staged(s.work, item) in s.start && s.files[Active(item)] == s.start[Staged(s.work, item)]
  }

  /** The swap is neither settled nor spoilt by a failing rollback. */
  ghost predicate Unsettled(s: State) { !s.settled && !s.undoFailed }

  /** And a recovery will not meet the database of an earlier swap. */
  ghost predicate Pending(s: State) { Unsettled(s) && s.alone }

  /** The process has died at work on the swap and recovers for the first time. */
  predicate FirstRestart(s: State) {
    (s.pc == Down || s.pc == Sweeping) && (s.died.Swapping? || s.died.Undoing? || s.died == Cleaning)
  }

  ghost predicate Tracked(s: State) { Unsettled(s) && (s.alone || FirstRestart(s)) }

  ghost predicate OnlyOneDatabase(s: State) {
    forall e :: e != s.dir ==> Rollback(e, Db) !in s.files
  }

  /** Before step `n` of the swap, item `i` of the staging order has been moved exactly if `i < n`. */
  ghost predicate StagedUpTo(s: State, i: nat, n: nat)
    requires i < 4
  {
    var item := ORDER[i];
    if i < n then
      && (Rollback(s.dir, item) in s.files <==> Active(item) in s.start)
      && (Active(item) in s.start ==> Kept(s, item))
      && (if (item == Db && n > 4) || (item == Uploads && n > 5) then IsNew(s, item) else Active(item) !in s.files)
    else
      && Rollback(s.dir, item) !in s.files
      && (Active(item) in s.files <==> Active(item) in s.start)
      && (Active(item) in s.start ==> Intact(s, item))
  }

  ghost predicate SwapInv(s: State, n: nat) {
    && n <= 6 && !s.settled && !s.undoFailed && s.notAside == {} && s.dir in s.rollbacks
    && Active(Db) in s.start && Active(Uploads) in s.start
    && StagedUpTo(s, 0, n) && StagedUpTo(s, 1, n) && StagedUpTo(s, 2, n) && StagedUpTo(s, 3, n)
    && Staged(s.work, Db) in s.start && Staged(s.work, Uploads) in s.start
    && (n <= 4 ==> Staged(s.work, Db) in s.files && s.files[Staged(s.work, Db)] == s.start[Staged(s.work, Db)])
    && (n <= 5 ==>
        Staged(s.work, Uploads) in s.files && s.files[Staged(s.work, Uploads)] == s.start[Staged(s.work, Uploads)])
    && (forall item :: Failed(s.dir, item) !in s.files)
  }

  ghost predicate UndoInv(s: State, n: nat) {
    UndoMain(s, n) && CompanionInv(s, 1, n) && CompanionInv(s, 2, n)
  }

  /** What the undo knows of the database and the uploads. */
  ghost predicate UndoMain(s: State, n: nat) {
    && n <= 9 && s.failedAt <= 6 && Unsettled(s) && s.dir in s.rollbacks && Located(s, Db) && Located(s, Uploads)
    && (s.failedAt == 0 ==> n == 0 || n >= 7)
    && (s.failedAt == 0 ==> Rollback(s.dir, Db) !in s.files)
    && (s.failedAt > 0 && n <= 4 ==> Rollback(s.dir, Db) in s.files)
    && (n >= 5 ==> Rollback(s.dir, Db) !in s.files)
    && (n == 8 ==> Rollback(s.dir, Uploads) in s.files)
    && (n == 9 ==> Rollback(s.dir, Uploads) !in s.files)
  }

  /** The companion that was active when the swap began has been moved away. */
  predicate WasStaged(s: State, i: nat)
    requires i < 4
  {
    Active(ORDER[i]) in s.start && i < s.failedAt
  }

  /** A companion is put back exactly if it had been staged before the failing step. Any other one that
      is active, from step `i + 2` on, is there because it could not be set aside: the old one, which
      was never touched, or one that the new database made when it was opened. */
  ghost predicate CompanionInv(s: State, i: nat, n: nat)
    requires i < 4
  {
    var item := ORDER[i];
    if s.failedAt == 0 then
      && Rollback(s.dir, item) !in s.files && item !in s.notAside
      && (Active(item) in s.files <==> Active(item) in s.start)
      && (Active(item) in s.start ==> Intact(s, item))
    else
      && (Rollback(s.dir, item) in s.files <==> WasStaged(s, i) && n <= i + 4)
      && (WasStaged(s, i) ==> if n <= i + 4 then Kept(s, item) else Intact(s, item))
      && (n <= i + 1 ==> item !in s.notAside)
      && (i + 1 < n && !(WasStaged(s, i) && n > i + 4) ==> (Active(item) in s.files <==> item in s.notAside))
      && UntouchedCompanion(s, i, n)
  }

  ghost predicate UntouchedCompanion(s: State, i: nat, n: nat)
    requires i < 4
  {
    var item := ORDER[i];
    if Active(item) in s.start && i >= s.failedAt then
      (n <= i + 1 ==> Active(item) in s.files) && (Active(item) in s.files ==> Intact(s, item))
    else
      s.failedAt < 6 ==> item !in s.notAside && (n <= i + 4 ==> Active(item) !in s.files)
  }

  ghost predicate Restored(s: State) {
    && Intact(s, Db) && Intact(s, Uploads)
    && Rollback(s.dir, Db) !in s.files && Rollback(s.dir, Uploads) !in s.files
  }

  ghost predicate RecoverInv(s: State, queue: seq<nat>, n: nat) {
    && n <= 8
    && (s.dir !in queue ==> Restored(s))
    && (queue != [] && queue[0] != s.dir ==> n == 0)
    && (s.dir in queue && (queue[0] != s.dir || n <= 3) ==> Rollback(s.dir, Db) in s.files)
    && (s.dir in queue && queue[0] == s.dir && n > 3 ==> Rollback(s.dir, Db) !in s.files)
    && (s.dir in queue && queue[0] == s.dir && n == 7 ==> Rollback(s.dir, Uploads) in s.files)
    && (s.dir in queue && queue[0] == s.dir && n == 8 ==> Restored(s))
  }

  ghost predicate DiscardInv(s: State, queue: seq<nat>) {
    && queue != []
    && (s.dir !in queue || queue[0] == s.dir ==> Restored(s))
    && (s.dir in queue && queue[0] != s.dir ==> Rollback(s.dir, Db) in s.files)
  }

  /** Holds in every reachable state. */
  ghost predicate Inv(s: State) {
    && Typed(s.files) && Hosted(s.files, s.rollbacks)
    && (s.pc.Recovering? || s.pc.Discarding? ==> IsQueue(s.pc.queue, s.rollbacks) && s.workspaces == {})
    && (s.pc.Serving? ==> s.settled)
    && (s.pc.Swapping? ==> SwapInv(s, s.pc.n))
    && (s.pc.Undoing? ==> UndoInv(s, s.pc.n))
    && (s.pc.Cleaning? && s.settled ==> IsNew(s, Db) && IsNew(s, Uploads))
    && (s.pc.Cleaning? && Unsettled(s) ==> Restored(s))
    && (Pending(s) ==> OnlyOneDatabase(s))
    && (Tracked(s) ==> Located(s, Db) && Located(s, Uploads))
    && (Pending(s) && s.pc.Recovering? ==> RecoverInv(s, s.pc.queue, s.pc.n))
    && (Pending(s) && s.pc.Discarding? ==> DiscardInv(s, s.pc.queue))
  }

  // What every step of a swap or an undo keeps, apart from the progress it makes.
  ghost predicate Shape(s: State) {
    Typed(s.files) && Hosted(s.files, s.rollbacks) && (s.alone ==> OnlyOneDatabase(s))
  }

  lemma UndoingInv(s: State, n: nat)
    requires Shape(s) && s.pc == Undoing(n) && UndoInv(s, n)
    ensures Inv(s)
  {
  }

  lemma SwapLocated(s: State, n: nat)
    requires SwapInv(s, n)
    ensures Located(s, Db) && Located(s, Uploads)
  {
    assert StagedUpTo(s, 0, n) && StagedUpTo(s, 3, n);
  }

  lemma SwappingInv(s: State, n: nat)
    requires Shape(s) && s.pc == Swapping(n) && SwapInv(s, n)
    ensures Inv(s)
  {
    SwapLocated(s, n);
  }

  lemma RenameShape(s: State, s': State, source: Path, target: Path)
    requires Shape(s) && s.dir in s.rollbacks && source in s.files && source.item == target.item
    requires s'.rollbacks == s.rollbacks && s'.dir == s.dir && s'.alone == s.alone
    requires s'.files == Renamed(s.files, source, target)
    requires target.Rollback? || target.Failed? ==> target.dir == s.dir
    ensures Shape(s')
  {
  }

  lemma BeginKeepsInv(s: State, s': State)
    requires Inv(s) && Begin(s, s')
    ensures Inv(s')
  {
  }

  lemma StageFailureKeepsInv(s: State, s': State, n: nat)
    requires Inv(s) && s.pc == Swapping(n) && n < 4 && Active(ORDER[n]) in s.files && SwapFails(s, s', n)
    ensures Inv(s')
  {
    assert StagedUpTo(s, 0, n) && StagedUpTo(s, 3, n);
    assert Located(s', Db) && Located(s', Uploads);
    assert CompanionInv(s', 1, 0) && CompanionInv(s', 2, 0);
  }

  lemma StagedStep(s: State, s': State, i: nat, n: nat)
    requires SwapInv(s, n) && n < 4 && i < 4
    requires StageSucceeds(s, s', n)
    ensures StagedUpTo(s', i, n + 1)
  {
    assert StagedUpTo(s, i, n) by {
      assert StagedUpTo(s, 0, n) && StagedUpTo(s, 1, n) && StagedUpTo(s, 2, n) && StagedUpTo(s, 3, n);
    }
    if i != n { assert ORDER[i] != ORDER[n]; }
  }

  lemma StageShape(s: State, s': State, n: nat)
    requires Shape(s) && s.dir in s.rollbacks && n < 4 && StageSucceeds(s, s', n)
    ensures Shape(s')
  {
    if Active(ORDER[n]) in s.files { RenameShape(s, s', Active(ORDER[n]), Rollback(s.dir, ORDER[n])); }
  }

  lemma StagedSwapInv(s: State, s': State, n: nat)
    requires SwapInv(s, n) && n < 4 && StageSucceeds(s, s', n)
    ensures SwapInv(s', n + 1)
  {
    StagedStep(s, s', 0, n);
    StagedStep(s, s', 1, n);
    StagedStep(s, s', 2, n);
    StagedStep(s, s', 3, n);
  }

  lemma StageKeepsInv(s: State, s': State, n: nat)
    requires Inv(s) && s.pc == Swapping(n) && n < 4 && SwapStep(s, s', n)
    ensures Inv(s')
  {
    if s'.pc == Undoing(0) {
      StageFailureKeepsInv(s, s', n);
    } else {
      StageShape(s, s', n);
      StagedSwapInv(s, s', n);
      SwappingInv(s', n + 1);
    }
  }

  lemma ActivateFailureKeepsInv(s: State, s': State, n: nat)
    requires Inv(s) && s.pc == Swapping(n) && 4 <= n < 6 && SwapFails(s, s', n)
    ensures Inv(s')
  {
  }

  lemma ActivatedSwapInv(s: State, s': State, n: nat)
    requires SwapInv(s, n) && 4 <= n < 6
    requires var item := if n == 4 then Db else Uploads;
             CanRename(s.files, Staged(s.work, item), Active(item)) &&
             Goes(s, s', Renamed(s.files, Staged(s.work, item), Active(item)), Swapping(n + 1))
    ensures SwapInv(s', n + 1)
  {
    assert StagedUpTo(s, 0, n) && StagedUpTo(s, 1, n) && StagedUpTo(s, 2, n) && StagedUpTo(s, 3, n);
  }

  lemma ActivateKeepsInv(s: State, s': State, n: nat)
    requires Inv(s) && s.pc == Swapping(n) && 4 <= n < 6 && SwapStep(s, s', n)
    ensures Inv(s')
  {
    if s'.pc == Undoing(0) {
      ActivateFailureKeepsInv(s, s', n);
    } else {
      var item := if n == 4 then Db else Uploads;
      ActivatedSwapInv(s, s', n);
      RenameShape(s, s', Staged(s.work, item), Active(item));
      SwappingInv(s', n + 1);
    }
  }

  lemma ReopenShape(s: State, s': State)
    requires Shape(s) && s.dir in s.rollbacks && Reopened(s.files, s'.files)
    requires s'.rollbacks == s.rollbacks && s'.dir == s.dir && s'.alone == s.alone
    ensures Shape(s')
  {
  }

  // Opening a database touches no companion in the rollback directory.
  lemma ReopenCompanion(s: State, s': State, i: nat)
    requires SwapInv(s, 6) && Reopened(s.files, s'.files) && 1 <= i < 3
    requires s' == s.(files := s'.files, pc := Undoing(0), failedAt := 6)
    ensures CompanionInv(s', i, 0)
  {
    assert StagedUpTo(s, 1, 6) && StagedUpTo(s, 2, 6);
  }

  lemma ReopenFailure(s: State, s': State)
    requires SwapInv(s, 6) && Reopened(s.files, s'.files)
    requires s' == s.(files := s'.files, pc := Undoing(0), failedAt := 6)
    ensures UndoInv(s', 0)
  {
    assert StagedUpTo(s, 0, 6) && StagedUpTo(s, 3, 6);
    ReopenCompanion(s, s', 1);
    ReopenCompanion(s, s', 2);
  }

  lemma ReopenSuccess(s: State, s': State)
    requires SwapInv(s, 6) && Reopened(s.files, s'.files)
    requires s' == s.(files := s'.files, pc := Cleaning, settled := true)
    ensures IsNew(s', Db) && IsNew(s', Uploads)
  {
    assert StagedUpTo(s, 0, 6) && StagedUpTo(s, 3, 6);
  }

  lemma ReopenKeepsInv(s: State, s': State)
    requires Inv(s) && s.pc == Swapping(6) && SwapStep(s, s', 6)
    ensures Inv(s')
  {
    ReopenShape(s, s');
    if s'.pc == Undoing(0) {
      ReopenFailure(s, s');
      UndoingInv(s', 0);
    } else {
      ReopenSuccess(s, s');
    }
  }

  lemma UndoStarted(s: State, s': State)
    requires UndoInv(s, 0)
    requires Goes(s, s', s.files, if Rollback(s.dir, Db) in s.files then Undoing(1) else Undoing(7))
    ensures UndoInv(s', s'.pc.n)
  {
  }

  lemma UndoStartKeepsInv(s: State, s': State)
    requires Inv(s) && s.pc == Undoing(0) && UndoStep(s, s', 0)
    ensures Inv(s')
  {
    if s'.pc == Cleaning {
      PutBackFailureKeepsInv(s, s', 0);
    } else {
      UndoStarted(s, s');
      assert Shape(s');
      UndoingInv(s', s'.pc.n);
    }
  }

  lemma SetAsideShape(s: State, s': State, item: Item, pc: Pc)
    requires Shape(s) && s.dir in s.rollbacks && SetAside(s, s', item, pc)
    ensures Shape(s')
  {
  }

  // Setting a file aside leaves the rollback copies and the uploads alone.
  lemma SetAsideLeaves(s: State, s': State, item: Item, pc: Pc)
    requires item != Uploads && SetAside(s, s', item, pc)
    ensures Active(Uploads) in s'.files <==> Active(Uploads) in s.files
    ensures Active(Uploads) in s.files ==> s'.files[Active(Uploads)] == s.files[Active(Uploads)]
    ensures forall i :: (Rollback(s.dir, i) in s'.files <==> Rollback(s.dir, i) in s.files) &&
                        (Rollback(s.dir, i) in s.files ==> s'.files[Rollback(s.dir, i)] == s.files[Rollback(s.dir, i)])
    ensures s' == s.(files := s'.files, pc := pc, notAside := s'.notAside)
  {
  }

  lemma SetAsideMain(s: State, s': State, n: nat)
    requires UndoMain(s, n) && 1 <= n < 4 && SetAside(s, s', ORDER[n - 1], Undoing(n + 1))
    requires s.failedAt > 0
    ensures UndoMain(s', n + 1)
  {
    SetAsideLeaves(s, s', ORDER[n - 1], Undoing(n + 1));
  }

  lemma SetAsideCompanion(s: State, s': State, n: nat, i: nat)
    requires 1 <= n < 4 && 1 <= i < 3 && CompanionInv(s, i, n) && s.failedAt > 0
    requires SetAside(s, s', ORDER[n - 1], Undoing(n + 1))
    ensures CompanionInv(s', i, n + 1)
  {
  }

  lemma SetAsideKeepsInv(s: State, s': State, n: nat)
    requires Inv(s) && s.pc == Undoing(n) && 1 <= n < 4 && SetAside(s, s', ORDER[n - 1], Undoing(n + 1))
    ensures Inv(s')
  {
    SetAsideShape(s, s', ORDER[n - 1], Undoing(n + 1));
    SetAsideMain(s, s', n);
    SetAsideCompanion(s, s', n, 1);
    SetAsideCompanion(s, s', n, 2);
    UndoingInv(s', n + 1);
  }

  lemma PutBackFailureKeepsInv(s: State, s': State, n: nat)
    requires Inv(s) && s.pc == Undoing(n) && UndoFails(s, s', n)
    ensures Inv(s')
  {
  }

  lemma PutBackShape(s: State, s': State, item: Item, pc: Pc)
    requires Shape(s) && MoveSucceeds(s, s', Rollback(s.dir, item), Active(item), pc)
    ensures Shape(s')
  {
  }

  lemma PutBackMain(s: State, s': State, n: nat)
    requires UndoMain(s, n) && 4 <= n < 7 && s.failedAt > 0
    requires MoveSucceeds(s, s', Rollback(s.dir, ORDER[n - 4]), Active(ORDER[n - 4]), Undoing(n + 1))
    ensures UndoMain(s', n + 1)
  {
  }

  lemma PutBackCompanion(s: State, s': State, n: nat, i: nat)
    requires 4 <= n < 7 && 1 <= i < 3 && CompanionInv(s, i, n) && s.failedAt > 0
    requires MoveSucceeds(s, s', Rollback(s.dir, ORDER[n - 4]), Active(ORDER[n - 4]), Undoing(n + 1))
    ensures CompanionInv(s', i, n + 1)
  {
  }

  lemma PutBackKeepsInv(s: State, s': State, n: nat)
    requires Inv(s) && s.pc == Undoing(n) && 4 <= n < 7
    requires MoveSucceeds(s, s', Rollback(s.dir, ORDER[n - 4]), Active(ORDER[n - 4]), Undoing(n + 1))
    ensures Inv(s')
  {
    PutBackShape(s, s', ORDER[n - 4], Undoing(n + 1));
    PutBackMain(s, s', n);
    PutBackCompanion(s, s', n, 1);
    PutBackCompanion(s, s', n, 2);
    UndoingInv(s', n + 1);
  }

  // Moving the uploads is nothing to the companions.
  lemma SameCompanion(s: State, s': State, n: nat, n': nat, i: nat)
    requires 7 <= n <= n' && 1 <= i < 3 && CompanionInv(s, i, n)
    requires s' == s.(files := s'.files, pc := s'.pc, notAside := s'.notAside)
    requires forall p: Path :: p.item == ORDER[i] ==>
               (p in s'.files <==> p in s.files) && (p in s.files ==> s'.files[p] == s.files[p])
    requires ORDER[i] in s'.notAside <==> ORDER[i] in s.notAside
    ensures CompanionInv(s', i, n')
  {
  }

  lemma SameCompanions(s: State, s': State, n: nat, n': nat)
    requires CompanionInv(s, 1, n) && CompanionInv(s, 2, n) && 7 <= n <= n'
    requires s' == s.(files := s'.files, pc := s'.pc, notAside := s'.notAside)
    requires forall p: Path :: p.item == Wal || p.item == Shm ==>
               (p in s'.files <==> p in s.files) && (p in s.files ==> s'.files[p] == s.files[p])
    requires forall item :: item != Uploads ==> (item in s'.notAside <==> item in s.notAside)
    ensures CompanionInv(s', 1, n') && CompanionInv(s', 2, n')
  {
    SameCompanion(s, s', n, n', 1);
    SameCompanion(s, s', n, n', 2);
  }

  lemma UploadsAsideMain(s: State, s': State)
    requires UndoMain(s, 7) && Rollback(s.dir, Uploads) in s.files && SetAside(s, s', Uploads, Undoing(8))
    ensures UndoMain(s', 8)
  {
  }

  lemma UploadsAsideKeepsInv(s: State, s': State)
    requires Inv(s) && s.pc == Undoing(7) && UndoStep(s, s', 7)
    ensures Inv(s')
  {
    if Rollback(s.dir, Uploads) in s.files {
      SetAsideShape(s, s', Uploads, Undoing(8));
      UploadsAsideMain(s, s');
      SameCompanions(s, s', 7, 8);
      UndoingInv(s', 8);
    } else {
      SameCompanions(s, s', 7, 9);
      UndoingInv(s', 9);
    }
  }

  lemma UploadsBackMain(s: State, s': State)
    requires UndoMain(s, 8) && MoveSucceeds(s, s', Rollback(s.dir, Uploads), Active(Uploads), Undoing(9))
    ensures UndoMain(s', 9)
  {
  }

  lemma UploadsBackKeepsInv(s: State, s': State)
    requires Inv(s) && s.pc == Undoing(8) && PutBack(s, s', Uploads, 8)
    ensures Inv(s')
  {
    if s'.undoFailed {
      PutBackFailureKeepsInv(s, s', 8);
    } else {
      PutBackShape(s, s', Uploads, Undoing(9));
      UploadsBackMain(s, s');
      SameCompanions(s, s', 8, 9);
      UndoingInv(s', 9);
    }
  }

  lemma UndoReopenKeepsInv(s: State, s': State)
    requires Inv(s) && s.pc == Undoing(9) && UndoStep(s, s', 9)
    ensures Inv(s')
  {
  }

  lemma UndoKeepsInv(s: State, s': State, n: nat)
    requires Inv(s) && s.pc == Undoing(n) && UndoStep(s, s', n)
    ensures Inv(s')
  {
    if n == 0 { UndoStartKeepsInv(s, s'); }
    else if n < 4 { SetAsideKeepsInv(s, s', n); }
    else if n < 7 && !s'.undoFailed { PutBackKeepsInv(s, s', n); }
    else if n < 7 { PutBackFailureKeepsInv(s, s', n); }
    else if n == 7 { UploadsAsideKeepsInv(s, s'); }
    else if n == 8 { UploadsBackKeepsInv(s, s'); }
    else { UndoReopenKeepsInv(s, s'); }
  }

  lemma CleanKeepsInv(s: State, s': State)
    requires Inv(s) && s.pc == Cleaning && CleanStep(s, s')
    ensures Inv(s')
  {
  }

  lemma SweepKeepsInv(s: State, s': State)
    requires Inv(s) && s.pc == Sweeping && SweepStep(s, s')
    ensures Inv(s')
  {
  }

  lemma InspectKeepsInv(s: State, s': State, queue: seq<nat>, n: nat)
    requires Inv(s) && Pending(s) && s.pc == Recovering(queue, n) && RecoverStep(s, s', queue, n)
    requires queue == [] || n == 0 || n >= 8
    ensures Inv(s')
  {
    assert queue != [] ==> queue[0] in queue;
  }

  lemma RecoverAsideKeepsInv(s: State, s': State, queue: seq<nat>, n: nat)
    requires Inv(s) && Pending(s) && s.pc == Recovering(queue, n) && queue != [] && 1 <= n < 3
    requires MoveSucceeds(s, s', Active(ORDER[n]), Failed(queue[0], ORDER[n]), Recovering(queue, n + 1))
    ensures Inv(s')
  {
    assert queue[0] in queue;
  }

  lemma RecoverDatabaseKeepsInv(s: State, s': State, queue: seq<nat>)
    requires Inv(s) && Pending(s) && s.pc == Recovering(queue, 3) && queue != []
    requires MoveSucceeds(s, s', Rollback(queue[0], Db), Active(Db), Recovering(queue, 4))
    ensures Inv(s')
  {
    assert queue[0] in queue;
  }

  lemma DownKeepsInv(s: State, s': State)
    requires Inv(s) && s' == Dead(s)
    ensures Inv(s')
  {
  }

  lemma RecoverCompanionKeepsInv(s: State, s': State, queue: seq<nat>, n: nat)
    requires Inv(s) && Pending(s) && s.pc == Recovering(queue, n) && queue != [] && 4 <= n < 6
    requires MoveSucceeds(s, s', Rollback(queue[0], ORDER[n - 3]), Active(ORDER[n - 3]), Recovering(queue, n + 1))
    ensures Inv(s')
  {
    assert queue[0] in queue;
  }

  lemma MakeRoomKeepsInv(s: State, s': State, queue: seq<nat>)
    requires Inv(s) && Pending(s) && s.pc == Recovering(queue, 6) && RecoverStep(s, s', queue, 6) && queue != []
    ensures Inv(s')
  {
    assert queue[0] in queue;
  }

  lemma UploadsMovedKeepsInv(s: State, s': State, queue: seq<nat>)
    requires Inv(s) && Pending(s) && s.pc == Recovering(queue, 7) && queue != []
    requires MoveSucceeds(s, s', Rollback(queue[0], Uploads), Active(Uploads), Recovering(queue, 8))
    ensures Inv(s')
  {
    assert queue[0] in queue;
  }

  // Of a swap that is no longer pending, or that was not alone, only the shape of the directory is kept.
  lemma NotPendingInv(s: State)
    requires Typed(s.files) && Hosted(s.files, s.rollbacks) && !Pending(s)
    requires if s.pc == Serving then s.settled
             else (s.pc.Recovering? || s.pc.Discarding?) && IsQueue(s.pc.queue, s.rollbacks) && s.workspaces == {}
    ensures Inv(s)
  {
  }

  lemma MovedWithin(s: State, s': State, source: Path, target: Path, pc: Pc)
    requires Typed(s.files) && Hosted(s.files, s.rollbacks) && MoveSucceeds(s, s', source, target, pc)
    requires source.item == target.item && (target.Rollback? || target.Failed? ==> target.dir in s.rollbacks)
    ensures Typed(s'.files) && Hosted(s'.files, s'.rollbacks)
  {
  }

  lemma RecoverFreelyMoves(s: State, s': State, queue: seq<nat>, n: nat)
    requires Inv(s) && !Pending(s) && s.pc == Recovering(queue, n) && queue != [] && 1 <= n < 8 && n != 6
    requires RecoverStep(s, s', queue, n)
    ensures Inv(s')
  {
    var d := queue[0];
    assert d in queue;
    if n < 3 { MovedWithin(s, s', Active(ORDER[n]), Failed(d, ORDER[n]), s'.pc); }
    else if n < 6 { MovedWithin(s, s', Rollback(d, ORDER[n - 3]), Active(ORDER[n - 3]), s'.pc); }
    else { MovedWithin(s, s', Rollback(d, Uploads), Active(Uploads), s'.pc); }
    NotPendingInv(s');
  }

  lemma RecoverFreely(s: State, s': State, queue: seq<nat>, n: nat)
    requires Inv(s) && !Pending(s) && s.pc == Recovering(queue, n) && RecoverStep(s, s', queue, n)
    ensures Inv(s')
  {
    if queue != [] && 1 <= n < 8 && n != 6 { RecoverFreelyMoves(s, s', queue, n); }
    else { NotPendingInv(s'); }
  }

  lemma RecoverKeepsInv(s: State, s': State, queue: seq<nat>, n: nat)
    requires Inv(s) && s.pc == Recovering(queue, n) && RecoverStep(s, s', queue, n)
    ensures Inv(s')
  {
    if !Pending(s) { RecoverFreely(s, s', queue, n); }
    else if queue == [] || n == 0 || n >= 8 { InspectKeepsInv(s, s', queue, n); }
    else if n < 3 { RecoverAsideKeepsInv(s, s', queue, n); }
    else if n == 3 { RecoverDatabaseKeepsInv(s, s', queue); }
    else if n < 6 { RecoverCompanionKeepsInv(s, s', queue, n); }
    else if n == 6 { MakeRoomKeepsInv(s, s', queue); }
    else { UploadsMovedKeepsInv(s, s', queue); }
  }

  lemma DiscardedKeepsInv(s: State, s': State, queue: seq<nat>)
    requires Inv(s) && s.pc == Discarding(queue) && queue != [] && EmptyDir(s.files, queue[0])
    requires s' == s.(rollbacks := s.rollbacks - {queue[0]}, pc := Recovering(queue[1..], 0))
    ensures Inv(s')
  {
  }

  lemma DiscardKeepsInv(s: State, s': State, queue: seq<nat>)
    requires Inv(s) && s.pc == Discarding(queue) && DiscardStep(s, s', queue)
    ensures Inv(s')
  {
    if s'.pc.Recovering? { DiscardedKeepsInv(s, s', queue); }
  }

  lemma ServeKeepsInv(s: State, s': State)
    requires Inv(s) && s.pc == Serving && ServeStep(s, s')
    ensures Inv(s')
  {
  }

  lemma WakeKeepsInv(s: State, s': State)
    requires Inv(s) && s.pc == Down && Goes(s, s', s.files, Sweeping)
    ensures Inv(s')
  {
  }

  lemma SwapKeepsInv(s: State, s': State, n: nat)
    requires Inv(s) && s.pc == Swapping(n) && SwapStep(s, s', n)
    ensures Inv(s')
  {
    if n < 4 { StageKeepsInv(s, s', n); }
    else if n < 6 { ActivateKeepsInv(s, s', n); }
    else { ReopenKeepsInv(s, s'); }
  }

  lemma WorkingKeepsInv(s: State, s': State)
    requires Inv(s) && Next(s, s') && s' != Dead(s)
    requires s.pc == Serving || s.pc.Swapping? || s.pc.Undoing? || s.pc == Cleaning
    ensures Inv(s')
  {
    match s.pc
    case Serving => if Begin(s, s') { BeginKeepsInv(s, s'); } else { ServeKeepsInv(s, s'); }
    case Swapping(n) => SwapKeepsInv(s, s', n);
    case Undoing(n) => UndoKeepsInv(s, s', n);
    case Cleaning => CleanKeepsInv(s, s');
  }

  lemma RestartKeepsInv(s: State, s': State)
    requires Inv(s) && Next(s, s') && s' != Dead(s)
    requires s.pc == Down || s.pc == Sweeping || s.pc.Recovering? || s.pc.Discarding?
    ensures Inv(s')
  {
    match s.pc
    case Down => WakeKeepsInv(s, s');
    case Sweeping => SweepKeepsInv(s, s');
    case Recovering(queue, n) => RecoverKeepsInv(s, s', queue, n);
    case Discarding(queue) => DiscardKeepsInv(s, s', queue);
  }

  lemma NextKeepsInv(s: State, s': State)
    requires Inv(s) && Next(s, s')
    ensures Inv(s')
  {
    if s' == Dead(s) { DownKeepsInv(s, s'); }
    else if s.pc == Serving || s.pc.Swapping? || s.pc.Undoing? || s.pc == Cleaning { WorkingKeepsInv(s, s'); }
    else { RestartKeepsInv(s, s'); }
  }

  // ---- Whole runs --------------------------------------------------------------------------------

  ghost predicate Init(s: State) {
    s.pc == Serving && s.settled && Typed(s.files) && Hosted(s.files, s.rollbacks)
  }

  /** Any sequence of swaps, crashes and recoveries. */
  ghost predicate IsRun(run: seq<State>) {
    run != [] && Init(run[0]) && forall i :: 0 <= i < |run| - 1 ==> Follows(run, i)
  }

  ghost predicate Follows(run: seq<State>, i: nat)
    requires i < |run| - 1
  {
    Next(run[i], run[i + 1])
  }

  lemma {:induction false} RunKeepsInv(run: seq<State>, i: nat)
    requires IsRun(run) && i < |run|
    ensures Inv(run[i])
  {
    if i > 0 {
      RunKeepsInv(run, i - 1);
      assert Follows(run, i - 1);
      NextKeepsInv(run[i - 1], run[i]);
    }
  }

  lemma RunExtends(run: seq<State>, s': State)
    requires IsRun(run) && Next(run[|run| - 1], s')
    ensures IsRun(run + [s'])
  {
    var run' := run + [s'];
    forall i | 0 <= i < |run'| - 1 ensures Follows(run', i) {
      if i < |run| - 1 { assert Follows(run, i); }
    }
  }

  /** Wherever any number of crashes fall, until both replacements are active and reopened or the
      application serves again, the database and the uploads that were active when the latest swap
      began are each still at the active path or in that swap's rollback directory. A database that an
      earlier swap left in its own rollback directory matters only to a recovery after a crash. */
  lemma NoDataLost(run: seq<State>, i: nat)
    requires IsRun(run) && i < |run| && Unsettled(run[i])
    requires run[i].alone || run[i].pc.Swapping? || run[i].pc.Undoing? || run[i].pc.Cleaning? || FirstRestart(run[i])
    ensures Located(run[i], Db) && Located(run[i], Uploads)
  {
    RunKeepsInv(run, i);
  }

  /** When a swap has run to its end, either both replacements are active, or both old ones. */
  lemma SwapIsAllOrNothing(run: seq<State>, i: nat)
    requires IsRun(run) && i < |run| && run[i].pc == Cleaning && !run[i].undoFailed
    ensures if run[i].settled then IsNew(run[i], Db) && IsNew(run[i], Uploads)
            else Intact(run[i], Db) && Intact(run[i], Uploads)
  {
    RunKeepsInv(run, i);
  }

  /** A replacement database is never opened next to companions of the old one. */
  lemma NewDatabaseOpensAlone(run: seq<State>, i: nat)
    requires IsRun(run) && i < |run| && run[i].pc == Swapping(6)
    ensures IsNew(run[i], Db) && Active(Wal) !in run[i].files && Active(Shm) !in run[i].files
  {
    RunKeepsInv(run, i);
    assert StagedUpTo(run[i], 1, 6) && StagedUpTo(run[i], 2, 6);
  }

  ghost predicate SameAsAtStart(s: State, item: Item) {
    && (Active(item) in s.files <==> Active(item) in s.start)
    && (Active(item) in s.start ==> Intact(s, item))
  }

  /** Before the old database is reopened, a companion that existed is as it was exactly if the failing
      step came before the database was staged or after the companion was, or if the companion was
      never moved and could not be set aside either. Where there was none there is none, unless one
      could not be set aside. */
  lemma CompanionsAfterRollback(run: seq<State>, i: nat, c: nat)
    requires IsRun(run) && i < |run| && run[i].pc == Undoing(9) && 1 <= c <= 2
    ensures var s := run[i];
            SameAsAtStart(s, ORDER[c]) <==>
              if Active(ORDER[c]) in s.start then s.failedAt == 0 || c < s.failedAt || ORDER[c] in s.notAside
              else ORDER[c] !in s.notAside
  {
    RunKeepsInv(run, i);
    assert CompanionInv(run[i], 1, 9) && CompanionInv(run[i], 2, 9);
  }

  /** A companion that the old database did not have when the swap began. */
  ghost predicate Foreign(s: State, item: Item) {
    Active(item) in s.files && !Intact(s, item)
  }

  /** The old database is reopened beside a foreign companion exactly if none had been there, one was
      made, which only the reopening of the new database does, and it could not be set aside. */
  lemma ForeignCompanionExactly(run: seq<State>, i: nat, c: nat)
    requires IsRun(run) && i < |run| && run[i].pc == Undoing(9) && 1 <= c <= 2
    ensures var s := run[i];
            && (Foreign(s, ORDER[c]) <==> Active(ORDER[c]) !in s.start && ORDER[c] in s.notAside)
            && (Foreign(s, ORDER[c]) ==> s.failedAt == 6)
  {
    RunKeepsInv(run, i);
    assert CompanionInv(run[i], 1, 9) && CompanionInv(run[i], 2, 9);
  }

  /** A recovery that visits the rollback directories and finishes has put the old state back and
      left no rollback directory and no workspace behind. */
  lemma RecoveryIsComplete(run: seq<State>, i: nat)
    requires IsRun(run) && i < |run| && run[i].pc.Recovering? && run[i].pc.queue == [] && Pending(run[i])
    ensures Intact(run[i], Db) && Intact(run[i], Uploads)
    ensures run[i].rollbacks == {} && run[i].workspaces == {}
  {
    RunKeepsInv(run, i);
    assert forall e :: e in run[i].pc.queue <==> e in run[i].rollbacks;
  }
}
