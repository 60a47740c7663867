/** The swap, its rollback and the recovery as they run on the data directory. Each step is
    recorded in a trace, and every trace is a run of the restore state machine: its theorems
    hold of the directory after any step, which is where a crash would leave it. */
module RestoreProcess {
  import opened RestoreMachine
  import opened RestoreSwap

  datatype SwapResult =
    | Done
    | Refused            // before the first rename
    | RolledBack         // failed, and the rollback reported success
    | RollbackFailed     // failed, and the rollback reported an error

  ghost function Now(trace: seq<State>): State
    requires trace != []
  {
    trace[|trace| - 1]
  }

  lemma InvariantHolds(trace: seq<State>)
    requires IsRun(trace)
    ensures Inv(Now(trace))
  {
    RunKeepsInv(trace, |trace| - 1);
  }

  /** Still the same swap. */
  ghost predicate SameSwap(s: State, s': State) {
    s'.dir == s.dir && s'.work == s.work && s'.start == s.start
  }

  /** And it failed in the same way, whatever the rollback has done since. */
  ghost predicate SameFailure(s: State, s': State) {
    SameSwap(s, s') && s'.failedAt == s.failedAt && s'.settled == s.settled
  }

  /** Nothing of this swap has been set aside or given up. */
  ghost predicate FreshSwap(s: State, rollback: nat) {
    && s.dir == rollback && rollback in s.rollbacks && s.notAside == {} && !s.undoFailed && !s.settled
    && forall item :: Failed(rollback, item) !in s.files
  }

  lemma SwappingIsFresh(trace: seq<State>)
    requires IsRun(trace) && Now(trace).pc.Swapping?
    ensures FreshSwap(Now(trace), Now(trace).dir)
  {
    InvariantHolds(trace);
  }

  lemma PutAsideNext(s: State, s': State, item: Item, n: nat, ok: bool)
    requires s.pc == Undoing(n)
    requires (1 <= n < 4 && item == ORDER[n - 1]) || (n == 7 && item == Uploads && Rollback(s.dir, Uploads) in s.files)
    requires ok ==> Moves(s.files, s'.files, Active(item), Failed(s.dir, item)) &&
                    s' == s.(files := s'.files, pc := Undoing(n + 1))
    requires !ok ==> Active(item) in s.files && s' == s.(pc := Undoing(n + 1), notAside := s.notAside + {item})
    ensures Next(s, s')
  {
    assert SetAside(s, s', item, Undoing(n + 1));
    assert UndoStep(s, s', n);
  }

  lemma BringBackNext(s: State, s': State, item: Item, n: nat, ok: bool)
    requires s.pc == Undoing(n) && ((4 <= n < 7 && item == ORDER[n - 4]) || (n == 8 && item == Uploads))
    requires ok ==> MoveSucceeds(s, s', Rollback(s.dir, item), Active(item), Undoing(n + 1))
    requires !ok ==> Rollback(s.dir, item) in s.files && UndoFails(s, s', n)
    ensures Next(s, s')
  {
    assert PutBack(s, s', item, n);
    assert UndoStep(s, s', n);
  }

  function AfterPutAside(s: State, files: Files, item: Item, n: nat, ok: bool): State {
    s.(files := files, pc := Undoing(n + 1), notAside := if ok then s.notAside else s.notAside + {item})
  }

  function AfterBringBack(s: State, files: Files, n: nat, ok: bool): State {
    if ok then s.(files := files, pc := Undoing(n + 1)) else s.(pc := Cleaning, undoFailed := true, undoFailedAt := n)
  }

  predicate GivenUp(s: State, n: nat) { s.pc == Cleaning && s.undoFailed && s.undoFailedAt == n }

  /** The rollback ended at the new uploads, which it had failed to set aside. */
  predicate UploadsInTheWay(s: State) { GivenUp(s, 8) && Uploads in s.notAside }

  /** How often the system refused something in a swap with this end: the refusal that stopped it, one
      for every file that could not be set aside, and the one that stopped the rollback, unless the
      uploads not set aside did. */
  function Refusals(s: State, r: SwapResult): nat {
    match r
    case Done => 0
    case Refused => 1
    case RolledBack => 1 + |s.notAside|
    case RollbackFailed => 1 + |s.notAside| + if UploadsInTheWay(s) then 0 else 1
  }

  /** The attempts to open a database: the new one if nothing failed before, and the old one if the
      rollback came that far. */
  function Openings(s: State, r: SwapResult): seq<bool> {
    match r
    case Done => [true]
    case Refused => []
    case _ => (if s.failedAt == 6 then [false] else []) + (if s.undoFailed then [] else [r == RolledBack])
  }

  /** Nothing is in the way of a move of the rollback but uploads that could not be set aside. */
  lemma UndoCanRename(trace: seq<State>, n: nat)
    requires IsRun(trace) && Now(trace).pc == Undoing(n) && (4 <= n < 7 || n == 8)
    ensures var s, item := Now(trace), if n == 8 then Uploads else ORDER[n - 4];
            && (n == 8 ==> Rollback(s.dir, item) in s.files)
            && (Rollback(s.dir, item) in s.files ==>
                  (CanRename(s.files, Rollback(s.dir, item), Active(item)) <==>
                   !(n == 8 && Active(item) in s.files)))
  {
    InvariantHolds(trace);
    var s := Now(trace);
    if n < 7 && Rollback(s.dir, ORDER[n - 4]) in s.files {
      FileCanRename(s.files, Rollback(s.dir, ORDER[n - 4]), Active(ORDER[n - 4]));
    }
  }

  /** The steps of one directory add up to `RecoverDir`. */
  lemma RecoverDirSteps(files: Files, d: nat, back: Files, replaced: Files, done: Files)
    requires Rollback(d, Db) in files && back == DatabaseBack(files, d) && done == Without(replaced, d)
    requires if Rollback(d, Uploads) in back
             then (Active(Uploads) in back ==> back[Active(Uploads)] == Folder(map[])) &&
                  replaced == Renamed(back, Rollback(d, Uploads), Active(Uploads))
             else replaced == back
    ensures RecoverDir(files, d) == Recovery(done, true)
  {
  }

  // ---- Which recorded states follow each other -----------------------------------------------

  function Activated(n: nat): Item { if n == 4 then Db else Uploads }

  lemma StageNext(s: State, s': State, n: nat, ok: bool)
    requires s.pc == Swapping(n) && n < 4
    requires if ok then StageSucceeds(s, s', n) else Active(ORDER[n]) in s.files && SwapFails(s, s', n)
    ensures Next(s, s')
  {
    assert SwapStep(s, s', n);
  }

  lemma ActivateNext(s: State, s': State, n: nat, ok: bool)
    requires s.pc == Swapping(n) && 4 <= n < 6
    requires ok ==> CanRename(s.files, Staged(s.work, Activated(n)), Active(Activated(n)))
    requires ok ==> s' == s.(files := Renamed(s.files, Staged(s.work, Activated(n)), Active(Activated(n))),
                             pc := Swapping(n + 1))
    requires !ok ==> SwapFails(s, s', n)
    ensures Next(s, s')
  {
    assert SwapStep(s, s', n);
  }

  lemma ReopenNext(s: State, s': State, ok: bool)
    requires s.pc == Swapping(6) && Reopened(s.files, s'.files)
    requires ok ==> s' == s.(files := s'.files, pc := Cleaning, settled := true)
    requires !ok ==> s' == s.(files := s'.files, pc := Undoing(0), failedAt := 6)
    ensures Next(s, s')
  {
    assert SwapStep(s, s', 6);
  }

  ghost function Begun(s: State, rollback: nat, work: nat): State {
    s.(pc := Swapping(0), dir := rollback, work := work, start := s.files, alone := NoLeftDatabase(s.files),
       staged := 0, failedAt := 0, undoFailed := false, undoFailedAt := 0, notAside := {},
       died := Serving, settled := false)
  }

  lemma BeginNext(s: State, rollback: nat, work: nat)
    requires s.pc == Serving && Typed(s.files) && Active(Db) in s.files && Active(Uploads) in s.files
    requires rollback in s.rollbacks && EmptyDir(s.files, rollback)
    requires Staged(work, Db) in s.files && Staged(work, Uploads) in s.files
    ensures Next(s, Begun(s, rollback, work))
  {
    assert Begin(s, Begun(s, rollback, work));
  }

  function WithoutWorkspace(files: Files, work: nat): Files {
    map p | p in files && !(p.Staged? && p.dir == work) :: files[p]
  }

  lemma SweepNext(s: State, s': State, work: nat)
    requires s.pc == Sweeping && s' == s.(workspaces := s.workspaces - {work})
    ensures Next(s, s')
  {
    assert SweepStep(s, s');
  }

  // All workspaces but those in `left` have been removed.
  ghost predicate SweptBut(files: Files, before: Files, left: set<nat>) {
    && (forall p :: p in before && !p.Staged? ==> p in files && files[p] == before[p])
    && (forall p :: p in files ==> p in before && files[p] == before[p] && (p.Staged? ==> p.dir in left))
  }

  lemma SweptMore(files: Files, before: Files, left: set<nat>, work: nat)
    requires SweptBut(files, before, left)
    ensures SweptBut(WithoutWorkspace(files, work), before, left - {work})
  {
  }

  lemma SweptAll(files: Files, before: Files)
    requires SweptBut(files, before, {})
    ensures files == WithoutWorkspaces(before)
  {
  }

  // ---- Removing a directory ------------------------------------------------------------------

  datatype Directory = RollbackDirectory(dir: nat) | Workspace(work: nat)

  predicate Inside(p: Path, directory: Directory) {
    match directory
    case RollbackDirectory(dir) => InRollback(p, dir)
    case Workspace(work) => p.Staged? && p.dir == work
  }

  /** The removals of a clean-up, a sweep and a recovery. */
  ghost predicate MayRemove(s: State, directory: Directory) {
    match s.pc
    case Cleaning => directory == RollbackDirectory(s.dir)
    case Sweeping => directory.Workspace?
    case Discarding(queue) => queue != [] && directory == RollbackDirectory(queue[0])
    case _ => false
  }

  lemma RemoveNext(s: State, p: Path, directory: Directory)
    requires MayRemove(s, directory) && Inside(p, directory)
    ensures Next(s, s.(files := s.files - {p}))
  {
    var s' := s.(files := s.files - {p});
    match s.pc
    case Cleaning => assert CleanStep(s, s');
    case Sweeping => assert SweepStep(s, s');
    case Discarding(queue) => assert DiscardStep(s, s', queue);
  }

  ghost predicate RemovedFrom(before: Files, after: Files, directory: Directory) {
    && (forall p :: p in after ==> p in before && after[p] == before[p])
    && (forall p :: p in before && !Inside(p, directory) ==> p in after)
  }

  lemma RemovedMore(before: Files, after: Files, directory: Directory, p: Path)
    requires RemovedFrom(before, after, directory) && Inside(p, directory)
    ensures RemovedFrom(before, after - {p}, directory)
  {
  }

  lemma FewerFiles(files: Files, p: Path)
    requires p in files
    ensures |files - {p}| < |files|
  {
    assert (files - {p}).Keys == files.Keys - {p};
  }

  ghost predicate IsGone(files: Files, directory: Directory) {
    forall p :: p in files ==> !Inside(p, directory)
  }

  lemma RollbackGone(before: Files, after: Files, dir: nat)
    requires RemovedFrom(before, after, RollbackDirectory(dir)) && IsGone(after, RollbackDirectory(dir))
    ensures after == Without(before, dir) && EmptyDir(after, dir)
  {
    assert forall p :: InRollback(p, dir) <==> Inside(p, RollbackDirectory(dir));
  }

  lemma WorkspaceGone(before: Files, after: Files, work: nat)
    requires RemovedFrom(before, after, Workspace(work)) && IsGone(after, Workspace(work))
    ensures after == WithoutWorkspace(before, work)
  {
    assert forall p: Path :: (p.Staged? && p.dir == work) <==> Inside(p, Workspace(work));
  }

  lemma CleanNext(s: State)
    requires s.pc == Cleaning && EmptyDir(s.files, s.dir)
    ensures Next(s, s.(rollbacks := s.rollbacks - {s.dir}))
  {
    assert CleanStep(s, s.(rollbacks := s.rollbacks - {s.dir}));
  }

  // ---- Renames that nothing but a fault can stop ----------------------------------------------

  lemma StageCanRename(trace: seq<State>, n: nat)
    requires IsRun(trace) && Now(trace).pc == Swapping(n) && n < 4
    ensures var s := Now(trace);
            Active(ORDER[n]) in s.files ==> CanRename(s.files, Active(ORDER[n]), Rollback(s.dir, ORDER[n]))
  {
    InvariantHolds(trace);
    var s := Now(trace);
    assert StagedUpTo(s, 0, n) && StagedUpTo(s, 1, n) && StagedUpTo(s, 2, n) && StagedUpTo(s, 3, n);
  }

  lemma ActivateCanRename(trace: seq<State>, n: nat)
    requires IsRun(trace) && Now(trace).pc == Swapping(n) && 4 <= n < 6
    ensures var s := Now(trace); CanRename(s.files, Staged(s.work, Activated(n)), Active(Activated(n)))
  {
    InvariantHolds(trace);
    assert StagedUpTo(Now(trace), 0, n) && StagedUpTo(Now(trace), 3, n);
  }

  lemma FilesTyped(trace: seq<State>)
    requires IsRun(trace)
    ensures Typed(Now(trace).files)
  {
    InvariantHolds(trace);
  }

  lemma MakeDirectoryNext(trace: seq<State>, rollback: nat)
    requires IsRun(trace) && Now(trace).pc == Serving && Now(trace).settled
    ensures Next(Now(trace), Now(trace).(rollbacks := Now(trace).rollbacks + {rollback}))
  {
    InvariantHolds(trace);
    assert ServeStep(Now(trace), Now(trace).(rollbacks := Now(trace).rollbacks + {rollback}));
  }

  lemma UnusedIsEmpty(trace: seq<State>, rollback: nat)
    requires IsRun(trace) && rollback !in Now(trace).rollbacks
    ensures EmptyDir(Now(trace).files, rollback)
  {
    InvariantHolds(trace);
  }

  predicate IsRecoverMove(source: Path, target: Path, d: nat, n: nat) {
    1 <= n < 6 && (source, target) == if n < 3 then (Active(ORDER[n]), Failed(d, ORDER[n]))
                                      else (Rollback(d, ORDER[n - 3]), Active(ORDER[n - 3]))
  }

  lemma RecoverNext(s: State, s': State, source: Path, target: Path, queue: seq<nat>, n: nat)
    requires s.pc == Recovering(queue, n) && queue != [] && IsRecoverMove(source, target, queue[0], n)
    requires MoveSucceeds(s, s', source, target, Recovering(queue, n + 1))
    ensures Next(s, s')
  {
    assert RecoverStep(s, s', queue, n);
  }

  lemma FileCanRename(files: Files, source: Path, target: Path)
    requires Typed(files) && source in files && source.item == target.item && source.item != Uploads
    ensures CanRename(files, source, target)
  {
  }

  /** The steps of a directory whose uploads are refused add up to it too. */
  lemma RefusedDirSteps(files: Files, d: nat, back: Files)
    requires Rollback(d, Db) in files && back == DatabaseBack(files, d)
    requires Rollback(d, Uploads) in back && Active(Uploads) in back && back[Active(Uploads)] != Folder(map[])
    ensures RecoverDir(files, d) == Recovery(back, false)
  {
  }

  class DataRoot {
    var files: Files
    var rollbacks: set<nat>
    var workspaces: set<nat>
    ghost var trace: seq<State>
    var open: bool                 // whether the application has the database open
    ghost var faults: nat          // how often the system refused what it could have done
    ghost var attempts: seq<bool>    // the outcome of each attempt to open the database

    constructor (files: Files)
      requires Typed(files) && forall p :: p in files ==> p.Active?
      ensures Valid() && this.files == files && rollbacks == {} && workspaces == {}
      ensures Now(trace).pc == Serving && open && faults == 0 && attempts == []
    {
      this.files, rollbacks, workspaces, open, faults, attempts := files, {}, {}, true, 0, [];
      trace := [State(files, {}, {}, Serving, 0, 0, map[], true, 0, 0, false, 0, {}, Serving, true)];
    }

    /** The last recorded state is the directory as it is. */
    ghost predicate Valid()
      reads this
    {
      && IsRun(trace)
      && Now(trace).files == files && Now(trace).rollbacks == rollbacks && Now(trace).workspaces == workspaces
      && forall p :: p in files && p.Staged? ==> p.dir in workspaces
    }

    /** The refusals that were not swallowed. */
    ghost function Heeded(): int
      requires trace != []
      reads this
    {
      faults - |Now(trace).notAside|
    }

    /** Whatever was recorded stays recorded. */
    ghost method Record(s': State)
      requires IsRun(trace) && Next(Now(trace), s')
      requires s'.files == files && s'.rollbacks == rollbacks && s'.workspaces == workspaces
      requires forall p :: p in files && p.Staged? ==> p.dir in workspaces
      modifies this`trace
      ensures Valid() && trace == old(trace) + [s']
    {
      RunExtends(trace, s');
      trace := trace + [s'];
    }

    /** A call of the operating system may fail for any reason. */
    method Fails() returns (failed: bool)
      modifies this`faults
      ensures faults == old(faults) + if failed then 1 else 0
    {
      failed := *;
      if failed { faults := faults + 1; }
    }

    /** A rename that may fail. */
    method Rename(source: Path, target: Path) returns (ok: bool)
      modifies this`files, this`faults
      ensures ok ==> CanRename(old(files), source, target) && files == Renamed(old(files), source, target)
      ensures !ok ==> files == old(files)
      ensures faults == old(faults) + if !ok && CanRename(old(files), source, target) then 1 else 0
    {
      if !CanRename(files, source, target) { return false; }
      var failed := Fails();
      ok := !failed;
      if ok { files := Renamed(files, source, target); }
    }

    method MoveIfExists(source: Path, target: Path) returns (ok: bool)
      modifies this`files, this`faults
      ensures ok ==> (source in old(files) ==> CanRename(old(files), source, target)) &&
                     files == MovedIfExists(old(files), source, target)
      ensures !ok ==> source in old(files) && files == old(files)
      ensures faults == old(faults) + if !ok && CanRename(old(files), source, target) then 1 else 0
    {
      if source !in files { return true; }
      ok := Rename(source, target);
    }

    /** `os.RemoveAll`: the entries in any order, until one is refused. */
    method RemoveAll(directory: Directory) returns (ok: bool)
      requires Valid() && MayRemove(Now(trace), directory)
      modifies this`files, this`trace, this`faults
      ensures Valid() && old(trace) <= trace && Now(trace) == old(Now(trace)).(files := files)
      ensures RemovedFrom(old(files), files, directory) && (ok ==> IsGone(files, directory))
      ensures faults == old(faults) + if ok then 0 else 1
    {
      ghost var s := Now(trace);
      while exists p :: p in files && Inside(p, directory)
        invariant Valid() && old(trace) <= trace && Now(trace) == s.(files := files)
        invariant RemovedFrom(old(files), files, directory) && faults == old(faults)
        decreases |files|
      {
        var p :| p in files && Inside(p, directory);
        RemovedMore(old(files), files, directory, p);
        ok := RemoveEntry(p, directory);
        if !ok { return; }
      }
      ok := true;
    }

    method RemoveEntry(p: Path, ghost directory: Directory) returns (ok: bool)
      requires Valid() && MayRemove(Now(trace), directory) && p in files && Inside(p, directory)
      modifies this`files, this`trace, this`faults
      ensures Valid() && old(trace) <= trace && Now(trace) == old(Now(trace)).(files := files)
      ensures files == if ok then old(files) - {p} else old(files)
      ensures ok ==> |files| < |old(files)|
      ensures faults == old(faults) + if ok then 0 else 1
    {
      var failed := Fails();
      if failed { return false; }
      RemoveNext(Now(trace), p, directory);
      FewerFiles(files, p);
      files := files - {p};
      Record(Now(trace).(files := files));
      ok := true;
    }

    /** Opening the database may create or change its companions, and may fail. */
    method Reopen() returns (ok: bool)
      requires Typed(files)
      modifies this`files, this`faults, this`open, this`attempts
      ensures Reopened(old(files), files)
      ensures (if ok then open else open == old(open)) && attempts == old(attempts) + [ok]
      ensures faults == old(faults) + if ok then 0 else 1
    {
      var wal: seq<bv8>, shm: seq<bv8>, walLeft: bool, shmLeft: bool := *, *, *, *;
      files := if walLeft then files[Active(Wal) := File(wal)] else files - {Active(Wal)};
      files := if shmLeft then files[Active(Shm) := File(shm)] else files - {Active(Shm)};
      var failed := Fails();
      ok := !failed;
      if ok { open := true; }
      attempts := attempts + [ok];
    }

    // ---- The swap ---------------------------------------------------------------------------

    /** The rollback can begin: nothing has been set aside yet. */
    ghost predicate ReadyToUndo(rollback: nat)
      requires trace != []
      reads this
    {
      Now(trace).pc == Undoing(0) && FreshSwap(Now(trace), rollback)
    }

    /** Step `n`: one active item moves into the rollback directory. */
    method Stage(rollback: nat, n: nat) returns (ok: bool)
      requires Valid() && n < 4 && Now(trace).pc == Swapping(n) && Now(trace).dir == rollback
      modifies this`files, this`trace, this`faults
      ensures Valid() && old(trace) < trace && SameSwap(old(Now(trace)), Now(trace))
      ensures if ok then Now(trace).pc == Swapping(n + 1) else ReadyToUndo(rollback) && Now(trace).failedAt == n
      ensures faults == old(faults) + if ok then 0 else 1
    {
      ghost var s := Now(trace);
      StageCanRename(trace, n);
      SwappingIsFresh(trace);
      ok := MoveIfExists(Active(ORDER[n]), Rollback(rollback, ORDER[n]));
      ghost var s' := if ok then s.(files := files, staged := n + 1, pc := Swapping(n + 1))
                      else s.(pc := Undoing(0), failedAt := n);
      StageNext(s, s', n, ok);
      Record(s');
    }

    /** Step `n`: one staged item becomes active. */
    method Activate(rollback: nat, work: nat, n: nat) returns (ok: bool)
      requires Valid() && 4 <= n < 6 && Now(trace).pc == Swapping(n)
      requires Now(trace).dir == rollback && Now(trace).work == work
      modifies this`files, this`trace, this`faults
      ensures Valid() && old(trace) < trace && SameSwap(old(Now(trace)), Now(trace))
      ensures if ok then Now(trace).pc == Swapping(n + 1) else ReadyToUndo(rollback) && Now(trace).failedAt == n
      ensures faults == old(faults) + if ok then 0 else 1
    {
      ghost var s := Now(trace);
      var item := Activated(n);
      ActivateCanRename(trace, n);
      SwappingIsFresh(trace);
      ok := Rename(Staged(work, item), Active(item));
      ghost var s' := if ok then s.(files := files, pc := Swapping(n + 1)) else s.(pc := Undoing(0), failedAt := n);
      ActivateNext(s, s', n, ok);
      Record(s');
    }

    /** `rollback` is the unused name the system picked for the new directory. On success both
        replacements are active; after a reported rollback both old items are. The answer follows
        from what the system refused: nothing else fails, and no refusal is swallowed but of setting
        a file aside and of the removal at the end. */
    method Swap(rollback: nat, work: nat) returns (r: SwapResult)
      requires Valid() && Now(trace).pc == Serving && Now(trace).settled
      requires rollback !in rollbacks
      requires Active(Db) in files && Active(Uploads) in files
      requires Staged(work, Db) in files && Staged(work, Uploads) in files
      modifies this
      ensures Valid() && old(trace) <= trace
      ensures Now(trace).pc == if r == Refused then Serving else Cleaning
      ensures r == Refused ==> Active(Uploads) in files && files[Active(Uploads)] == old(files[Active(Uploads)])
      ensures r == Done ==>
        && Active(Db) in files && files[Active(Db)] == old(files[Staged(work, Db)])
        && Active(Uploads) in files && files[Active(Uploads)] == old(files[Staged(work, Uploads)])
      ensures r == RolledBack ==>
        && Intact(Now(trace), Db)
        && Active(Uploads) in files && files[Active(Uploads)] == old(files[Active(Uploads)])
      ensures r == RollbackFailed && !Now(trace).undoFailed ==> Intact(Now(trace), Db) && Intact(Now(trace), Uploads)
      ensures attempts == old(attempts) + Openings(Now(trace), r)
      ensures r != Refused ==> (open <==> r == Done || r == RolledBack)
      ensures rollbacks - {rollback} == old(rollbacks) && workspaces == old(workspaces)
      ensures faults == old(faults) + Refusals(Now(trace), r) + if rollback in rollbacks then 1 else 0
    {
      var ok := Prepare(rollback);
      if !ok { return Refused; }
      r := Exchange(rollback, work);
    }

    /** The empty rollback directory, and the database closed. */
    method Prepare(rollback: nat) returns (ok: bool)
      requires Valid() && Now(trace).pc == Serving && Now(trace).settled
      requires rollback !in rollbacks && Active(Db) in files
      modifies this
      ensures Valid() && old(trace) <= trace && Now(trace).pc == Serving && Now(trace).settled
      ensures ok ==> Active(Db) in files && rollback in rollbacks && EmptyDir(files, rollback) && !open
      ensures forall p :: p !in {Active(Db), Active(Wal), Active(Shm)} ==>
        (p in files <==> p in old(files)) && (p in files ==> files[p] == old(files)[p])
      ensures attempts == old(attempts) && rollbacks - {rollback} == old(rollbacks) && workspaces == old(workspaces)
      ensures faults == old(faults) + if ok then 0 else if rollback in rollbacks then 2 else 1
    {
      UnusedIsEmpty(trace, rollback);
      var failed := Fails();
      if failed { return false; }
      MakeDirectoryNext(trace, rollback);
      rollbacks := rollbacks + {rollback};
      Record(Now(trace).(rollbacks := rollbacks));
      assert EmptyDir(files, rollback);
      ok := CloseDatabase();
      if !ok { RemoveUnused(rollback); }
    }

    /** The swap once the database is closed. */
    method Exchange(rollback: nat, work: nat) returns (r: SwapResult)
      requires Valid() && Now(trace).pc == Serving && rollback in rollbacks && EmptyDir(files, rollback) && !open
      requires Active(Db) in files && Active(Uploads) in files
      requires Staged(work, Db) in files && Staged(work, Uploads) in files
      modifies this
      ensures Valid() && old(trace) < trace && Now(trace).pc == Cleaning && r != Refused
      ensures r == Done ==>
        && Active(Db) in files && files[Active(Db)] == old(files[Staged(work, Db)])
        && Active(Uploads) in files && files[Active(Uploads)] == old(files[Staged(work, Uploads)])
      ensures r != Done && !Now(trace).undoFailed ==>
        && Intact(Now(trace), Db) && Intact(Now(trace), Uploads)
        && Active(Uploads) in files && files[Active(Uploads)] == old(files[Active(Uploads)])
      ensures r == RolledBack ==> !Now(trace).undoFailed
      ensures Ends(r, rollback, old(attempts), old(faults)) && (open <==> r == Done || r == RolledBack)
      ensures rollbacks - {rollback} == old(rollbacks) - {rollback} && workspaces == old(workspaces)
    {
      InvariantHolds(trace);
      BeginNext(Now(trace), rollback, work);
      Record(Begun(Now(trace), rollback, work));
      r := RenameAll(rollback, work);
      InvariantHolds(trace);
    }

    /** What was opened and what was refused on the way to the answer `r`. */
    ghost predicate Ends(r: SwapResult, rollback: nat, attemptsBefore: seq<bool>, faultsBefore: nat)
      requires trace != []
      reads this
    {
      && attempts == attemptsBefore + Openings(Now(trace), r)
      && faults == faultsBefore + Refusals(Now(trace), r) + if rollback in rollbacks then 1 else 0
    }

    /** The deferred removal when the swap has not begun: the new directory is empty. */
    method RemoveUnused(rollback: nat)
      requires Valid() && Now(trace).pc == Serving && Now(trace).settled && EmptyDir(files, rollback)
      requires rollback in rollbacks
      modifies this`rollbacks, this`trace, this`faults
      ensures Valid() && old(trace) < trace && Now(trace).pc == Serving && Now(trace).settled
      ensures rollbacks == old(rollbacks) || rollbacks == old(rollbacks) - {rollback}
      ensures faults == old(faults) + if rollback in rollbacks then 1 else 0
    {
      InvariantHolds(trace);
      var failed := Fails();
      if !failed { rollbacks := rollbacks - {rollback}; }
      Record(Now(trace).(rollbacks := rollbacks));
    }

    /** Closing may fold the write-ahead log into the database, or leave it; a failed attempt may leave
        the database open or closed. */
    method CloseDatabase() returns (ok: bool)
      requires Valid() && Now(trace).pc == Serving && Now(trace).settled && Active(Db) in files
      modifies this`files, this`trace, this`faults, this`open
      ensures Valid() && old(trace) < trace && Now(trace).pc == Serving && Now(trace).settled
      ensures Active(Db) in files && (ok ==> !open)
      ensures forall p :: p !in {Active(Db), Active(Wal), Active(Shm)} ==>
        (p in files <==> p in old(files)) && (p in files ==> files[p] == old(files)[p])
      ensures faults == old(faults) + if ok then 0 else 1
    {
      InvariantHolds(trace);
      ghost var s := Now(trace);
      var bytes: seq<bv8>, checkpointed: bool, stillOpen: bool := *, *, *;
      if checkpointed { files := (files - {Active(Wal), Active(Shm)})[Active(Db) := File(bytes)]; }
      Record(s.(files := files));
      var failed := Fails();
      ok := !failed;
      open := failed && stillOpen;
    }

    /** The chain of renames, with the rollback on the first failure and the deferred removal. */
    method RenameAll(rollback: nat, work: nat) returns (r: SwapResult)
      requires Valid() && Now(trace).pc == Swapping(0) && Now(trace).dir == rollback && Now(trace).work == work
      requires !open
      modifies this
      ensures Valid() && old(trace) < trace && Now(trace).pc == Cleaning && SameSwap(old(Now(trace)), Now(trace))
      ensures r != Refused && (r == Done <==> Now(trace).settled)
      ensures r == RolledBack ==> !Now(trace).undoFailed
      ensures Ends(r, rollback, old(attempts), old(faults)) && (open <==> r == Done || r == RolledBack)
      ensures rollbacks - {rollback} == old(rollbacks) - {rollback} && workspaces == old(workspaces)
    {
      ghost var begun := Now(trace);
      var ok := Stage(rollback, 0);
      if !ok { r := RollBack(rollback, old(attempts), old(faults)); return; }
      for n := 1 to 3
        invariant Valid() && old(trace) < trace && Now(trace).pc == Swapping(n) && SameSwap(begun, Now(trace))
        invariant faults == old(faults) && !open && attempts == old(attempts)
        invariant rollbacks == old(rollbacks) && workspaces == old(workspaces)
      {
        ok := Stage(rollback, n);
        if !ok { r := RollBack(rollback, old(attempts), old(faults)); return; }
      }
      ok := Stage(rollback, 3);
      if !ok { r := RollBack(rollback, old(attempts), old(faults)); return; }
      r := ActivateAll(rollback, work);
    }

    /** The second half of the chain: both replacements, and the database reopened. */
    method ActivateAll(rollback: nat, work: nat) returns (r: SwapResult)
      requires Valid() && Now(trace).pc == Swapping(4) && Now(trace).dir == rollback && Now(trace).work == work
      requires !open
      modifies this
      ensures Valid() && old(trace) < trace && Now(trace).pc == Cleaning && SameSwap(old(Now(trace)), Now(trace))
      ensures r != Refused && (r == Done <==> Now(trace).settled)
      ensures r == RolledBack ==> !Now(trace).undoFailed
      ensures Ends(r, rollback, old(attempts), old(faults)) && (open <==> r == Done || r == RolledBack)
      ensures rollbacks - {rollback} == old(rollbacks) - {rollback} && workspaces == old(workspaces)
    {
      var ok := Activate(rollback, work, 4);
      if !ok { r := RollBack(rollback, old(attempts), old(faults)); return; }
      ok := Activate(rollback, work, 5);
      if !ok { r := RollBack(rollback, old(attempts), old(faults)); return; }
      ok := ReopenNew(rollback);
      if !ok { r := RollBack(rollback, old(attempts), old(faults)); return; }
      RemoveRollback(rollback);
      r := Done;
    }

    method ReopenNew(rollback: nat) returns (ok: bool)
      requires Valid() && Now(trace).pc == Swapping(6) && Now(trace).dir == rollback && !open
      modifies this`files, this`trace, this`faults, this`open, this`attempts
      ensures Valid() && old(trace) < trace && SameSwap(old(Now(trace)), Now(trace))
      ensures if ok then Now(trace).pc == Cleaning && Now(trace).settled && rollback in rollbacks
              else ReadyToUndo(rollback) && Now(trace).failedAt == 6
      ensures attempts == old(attempts) + [ok] && (open <==> ok) && faults == old(faults) + if ok then 0 else 1
    {
      FilesTyped(trace);
      SwappingIsFresh(trace);
      ghost var s := Now(trace);
      ok := Reopen();
      ghost var s' := if ok then s.(files := files, pc := Cleaning, settled := true)
                      else s.(files := files, pc := Undoing(0), failedAt := 6);
      ReopenNext(s, s', ok);
      Record(s');
    }

    method RollBack(rollback: nat, ghost attemptsBefore: seq<bool>, ghost faultsBefore: nat) returns (r: SwapResult)
      requires Valid() && ReadyToUndo(rollback) && !open && faults == faultsBefore + 1
      requires attempts == attemptsBefore + if Now(trace).failedAt == 6 then [false] else []
      modifies this
      ensures Valid() && old(trace) < trace && Now(trace).pc == Cleaning && SameFailure(old(Now(trace)), Now(trace))
      ensures !Now(trace).settled && (r == RolledBack || r == RollbackFailed)
      ensures r == RolledBack ==> !Now(trace).undoFailed
      ensures Ends(r, rollback, attemptsBefore, faultsBefore) && (open <==> r == RolledBack)
      ensures rollbacks - {rollback} == old(rollbacks) - {rollback} && workspaces == old(workspaces)
    {
      var ok := RollbackSwap(rollback);
      RemoveRollback(rollback);
      r := if ok then RolledBack else RollbackFailed;
    }

    /** The deferred removal, whose error is ignored: it may leave anything. */
    method RemoveRollback(rollback: nat)
      requires Valid() && Now(trace).pc == Cleaning && Now(trace).dir == rollback && rollback in rollbacks
      modifies this`files, this`rollbacks, this`trace, this`faults
      ensures Valid() && old(trace) < trace && Now(trace) == old(Now(trace)).(files := files, rollbacks := rollbacks)
      ensures RemovedFrom(old(files), files, RollbackDirectory(rollback))
      ensures rollbacks == old(rollbacks) || (rollbacks == old(rollbacks) - {rollback} && EmptyDir(files, rollback))
      ensures faults == old(faults) + if rollback in rollbacks then 1 else 0
    {
      Record(Now(trace));
      var ok := RemoveAll(RollbackDirectory(rollback));
      if !ok { return; }
      RollbackGone(old(files), files, rollback);
      RemoveEmptied(rollback);
    }

    method RemoveEmptied(rollback: nat)
      requires Valid() && Now(trace).pc == Cleaning && Now(trace).dir == rollback && EmptyDir(files, rollback)
      requires rollback in rollbacks
      modifies this`rollbacks, this`trace, this`faults
      ensures Valid() && old(trace) <= trace && Now(trace) == old(Now(trace)).(rollbacks := rollbacks)
      ensures rollbacks == old(rollbacks) || rollbacks == old(rollbacks) - {rollback}
      ensures faults == old(faults) + if rollback in rollbacks then 1 else 0
    {
      var failed := Fails();
      if failed { return; }
      CleanNext(Now(trace));
      rollbacks := rollbacks - {rollback};
      Record(Now(trace).(rollbacks := rollbacks));
    }

    /** A move whose error is ignored: undo steps 1 to 3, and 7. */
    method PutAside(rollback: nat, item: Item, ghost n: nat) returns (ghost aside: bool)
      requires Valid() && Now(trace).pc == Undoing(n) && Now(trace).dir == rollback
      requires (1 <= n < 4 && item == ORDER[n - 1]) ||
               (n == 7 && item == Uploads && Rollback(rollback, Uploads) in files)
      requires item !in Now(trace).notAside && Failed(rollback, item) !in files
      modifies this`files, this`trace, this`faults
      ensures Valid() && old(trace) < trace && Now(trace) == AfterPutAside(old(Now(trace)), files, item, n, aside)
      ensures files == if aside then MovedIfExists(old(files), Active(item), Failed(rollback, item)) else old(files)
      ensures !aside ==> Active(item) in files
      ensures Heeded() == old(Heeded())
    {
      ghost var s := Now(trace);
      var ok := MoveIfExists(Active(item), Failed(rollback, item));
      aside := ok;
      PutAsideNext(s, AfterPutAside(s, files, item, n, ok), item, n, ok);
      Record(AfterPutAside(s, files, item, n, ok));
    }

    /** A move the rollback depends on: undo steps 4 to 6, and 8, where uploads that could not be set
        aside are in the way. */
    method BringBack(rollback: nat, item: Item, ghost n: nat) returns (ok: bool)
      requires Valid() && Now(trace).pc == Undoing(n) && Now(trace).dir == rollback
      requires (4 <= n < 7 && item == ORDER[n - 4]) || (n == 8 && item == Uploads)
      modifies this`files, this`trace, this`faults
      ensures Valid() && old(trace) < trace && Now(trace) == AfterBringBack(old(Now(trace)), files, n, ok)
      ensures Failed(rollback, Uploads) in files ==> Failed(rollback, Uploads) in old(files)
      ensures faults == old(faults) + if ok || (n == 8 && Active(Uploads) in old(files)) then 0 else 1
    {
      UndoCanRename(trace, n);
      ghost var s := Now(trace);
      ok := MoveIfExists(Rollback(rollback, item), Active(item));
      BringBackNext(s, AfterBringBack(s, files, n, ok), item, n, ok);
      Record(AfterBringBack(s, files, n, ok));
    }

    /** The database and its companions: set aside what is active, then put the old ones back. */
    method UndoDatabase(rollback: nat) returns (ok: bool)
      requires Valid() && Now(trace).pc == Undoing(1) && FreshSwap(Now(trace), rollback)
      modifies this`files, this`trace, this`faults
      ensures Valid() && old(trace) < trace && SameFailure(old(Now(trace)), Now(trace))
      ensures Uploads !in Now(trace).notAside && Failed(rollback, Uploads) !in files
      ensures if ok then Now(trace).pc == Undoing(7)
              else Now(trace).undoFailedAt < 7 && GivenUp(Now(trace), Now(trace).undoFailedAt)
      ensures Heeded() == old(Heeded()) + if ok then 0 else 1
    {
      ghost var s := Now(trace);
      for n := 1 to 4
        invariant Valid() && old(trace) <= trace && Now(trace).pc == Undoing(n) && SameFailure(s, Now(trace))
        invariant Heeded() == old(Heeded())
        invariant forall i :: n - 1 <= i < 4 ==>
          ORDER[i] !in Now(trace).notAside && Failed(rollback, ORDER[i]) !in files
      {
        ghost var aside := PutAside(rollback, ORDER[n - 1], n);
      }
      assert ORDER[3] == Uploads;
      for n := 4 to 7
        invariant Valid() && old(trace) < trace && Now(trace).pc == Undoing(n) && SameFailure(s, Now(trace))
        invariant Heeded() == old(Heeded())
        invariant Uploads !in Now(trace).notAside && Failed(rollback, Uploads) !in files
      {
        ok := BringBack(rollback, ORDER[n - 4], n);
        if !ok { return; }
      }
      ok := true;
    }

    /** The database is only put back if it was moved away. */
    method UndoIfStaged(rollback: nat) returns (ok: bool)
      requires Valid() && ReadyToUndo(rollback)
      modifies this`files, this`trace, this`faults
      ensures Valid() && old(trace) < trace && SameFailure(old(Now(trace)), Now(trace))
      ensures Uploads !in Now(trace).notAside && Failed(rollback, Uploads) !in files
      ensures if ok then Now(trace).pc == Undoing(7)
              else Now(trace).undoFailedAt < 7 && GivenUp(Now(trace), Now(trace).undoFailedAt)
      ensures Heeded() == old(Heeded()) + if ok then 0 else 1
    {
      if Rollback(rollback, Db) in files {
        Record(Now(trace).(pc := Undoing(1)));
        ok := UndoDatabase(rollback);
      } else {
        Record(Now(trace).(pc := Undoing(7)));
        ok := true;
      }
    }

    method UndoUploads(rollback: nat) returns (ok: bool)
      requires Valid() && Now(trace).pc == Undoing(7) && Now(trace).dir == rollback
      requires Uploads !in Now(trace).notAside && Failed(rollback, Uploads) !in files
      modifies this`files, this`trace, this`faults
      ensures Valid() && old(trace) < trace && SameFailure(old(Now(trace)), Now(trace))
      ensures if ok then Now(trace).pc == Undoing(9) else GivenUp(Now(trace), 8)
      ensures Heeded() == old(Heeded()) + if ok || Uploads in Now(trace).notAside then 0 else 1
    {
      if Rollback(rollback, Uploads) in files {
        ghost var aside := PutAside(rollback, Uploads, 7);
        ok := BringBack(rollback, Uploads, 8);
      } else {
        Record(Now(trace).(pc := Undoing(9)));
        ok := true;
      }
    }

    method ReopenOld() returns (ok: bool)
      requires Valid() && Now(trace).pc == Undoing(9) && !open
      modifies this`files, this`trace, this`faults, this`open, this`attempts
      ensures Valid() && old(trace) < trace && SameFailure(old(Now(trace)), Now(trace)) && Now(trace).pc == Cleaning
      ensures !Now(trace).undoFailed && Heeded() == old(Heeded()) + if ok then 0 else 1
      ensures attempts == old(attempts) + [ok] && (open <==> ok)
    {
      InvariantHolds(trace);
      ghost var s := Now(trace);
      ok := Reopen();
      ghost var s' := s.(files := files, pc := Cleaning);
      assert UndoStep(s, s', 9);
      Record(s');
    }

    method MakeUndoDirectory(rollback: nat) returns (ok: bool)
      requires Valid() && ReadyToUndo(rollback)
      modifies this`trace, this`faults
      ensures Valid() && old(trace) <= trace && SameFailure(old(Now(trace)), Now(trace))
      ensures if ok then ReadyToUndo(rollback) else GivenUp(Now(trace), 0) && old(trace) < trace
      ensures Heeded() == old(Heeded()) + if ok then 0 else 1
    {
      var failed := Fails();
      ok := !failed;
      if failed { Record(Now(trace).(pc := Cleaning, undoFailed := true, undoFailedAt := 0)); }
    }

    method RollbackSwap(rollback: nat) returns (ok: bool)
      requires Valid() && ReadyToUndo(rollback) && !open
      modifies this`files, this`trace, this`faults, this`open, this`attempts
      ensures Valid() && old(trace) < trace && Now(trace).pc == Cleaning && SameFailure(old(Now(trace)), Now(trace))
      ensures ok ==> !Now(trace).undoFailed
      ensures attempts == old(attempts) + (if Now(trace).undoFailed then [] else [ok]) && (open <==> ok)
      ensures Heeded() == old(Heeded()) + if ok || UploadsInTheWay(Now(trace)) then 0 else 1
    {
      ok := MakeUndoDirectory(rollback);
      if !ok { return; }
      ok := UndoIfStaged(rollback);
      if !ok { return; }
      ok := UndoUploads(rollback);
      if !ok { return; }
      ok := ReopenOld();
    }

    // ---- Recovery -----------------------------------------------------------------------------

    /** The process starts again after a crash. */
    method Restart()
      requires Valid()
      modifies this`trace, this`open
      ensures Valid() && old(trace) < trace && Now(trace).pc == Sweeping && !open
    {
      open := false;
      Record(Dead(Now(trace)));
      Record(Now(trace).(pc := Sweeping));
    }

    /** The recovery gives up; the process ends. */
    method GiveUp() returns (ok: bool)
      requires Valid()
      modifies this`trace
      ensures Valid() && old(trace) < trace && !ok && Now(trace).pc == Down
    {
      Record(Dead(Now(trace)));
      ok := false;
    }

    method SweepWorkspaces() returns (ok: bool)
      requires Valid() && Now(trace).pc == Sweeping
      modifies this
      ensures Valid() && old(trace) <= trace && Now(trace).pc == if ok then Sweeping else Down
      ensures ok ==> files == WithoutWorkspaces(old(files)) && workspaces == {} && rollbacks == old(rollbacks)
      ensures faults == old(faults) + if ok then 0 else 1
    {
      while exists w :: w in workspaces
        invariant Valid() && old(trace) <= trace && Now(trace).pc == Sweeping && rollbacks == old(rollbacks)
        invariant SweptBut(files, old(files), workspaces) && faults == old(faults)
        decreases |workspaces|
      {
        var w :| w in workspaces;
        SweptMore(files, old(files), workspaces, w);
        ghost var before := files;
        ok := RemoveAll(Workspace(w));
        if !ok { ok := GiveUp(); return; }
        WorkspaceGone(before, files, w);
        workspaces := workspaces - {w};
        ghost var s' := Now(trace).(workspaces := workspaces);
        SweepNext(Now(trace), s', w);
        Record(s');
      }
      assert workspaces == {};
      SweptAll(files, old(files));
      ok := true;
    }

    /** Without an active database every rollback directory is visited, in the order given by the
        modification times; with one, nothing but the workspaces is touched. */
    method RecoverInterrupted(order: seq<nat>) returns (ok: bool)
      requires Valid() && Now(trace).pc == Sweeping && IsQueue(order, rollbacks)
      modifies this
      ensures Valid() && old(trace) < trace && Now(trace).pc == if ok then Serving else Down
      ensures ok && Active(Db) in old(files) ==> files == WithoutWorkspaces(old(files)) && rollbacks == old(rollbacks)
      ensures ok && Active(Db) !in old(files) ==>
        RecoverAll(WithoutWorkspaces(old(files)), order) == Recovery(files, true) && rollbacks == {}
      ensures ok ==> workspaces == {}
      ensures if ok then faults == old(faults) else old(faults) <= faults <= old(faults) + 1
      ensures !ok && faults == old(faults) ==>
        Active(Db) !in old(files) && RecoverAll(WithoutWorkspaces(old(files)), order) == Recovery(files, false)
    {
      ok := SweepWorkspaces();
      if !ok { return; }
      if Active(Db) in files {
        Record(Now(trace).(pc := Serving, settled := true));
        return;
      }
      ok := RecoverDirectories(order);
    }

    method RecoverDirectories(order: seq<nat>) returns (ok: bool)
      requires Valid() && Now(trace).pc == Sweeping && IsQueue(order, rollbacks) && workspaces == {}
      requires Active(Db) !in files && forall p :: p in files ==> !p.Staged?
      modifies this
      ensures Valid() && old(trace) < trace && Now(trace).pc == if ok then Serving else Down
      ensures ok ==> RecoverAll(old(files), order) == Recovery(files, true) && rollbacks == {} && workspaces == {}
      ensures if ok then faults == old(faults) else old(faults) <= faults <= old(faults) + 1
      ensures !ok && faults == old(faults) ==> RecoverAll(old(files), order) == Recovery(files, false)
    {
      Record(Now(trace).(pc := Recovering(order, 0)));
      var i := 0;
      while i < |order|
        invariant i <= |order| && Valid() && old(trace) < trace && Now(trace).pc == Recovering(order[i..], 0)
        invariant RecoverAll(files, order[i..]) == RecoverAll(old(files), order)
        invariant IsQueue(order[i..], rollbacks) && workspaces == {} && faults == old(faults)
      {
        assert order[i..][0] == order[i] && order[i..][1..] == order[i + 1..];
        ok := RecoverRollbackDirectory(order[i], order[i..]);
        if !ok { return; }
        i := i + 1;
      }
      assert order[i..] == [];
      Record(Now(trace).(pc := Serving, settled := true));
      ok := true;
    }

    /** One rollback directory, the head of the queue. */
    method RecoverRollbackDirectory(d: nat, ghost queue: seq<nat>) returns (ok: bool)
      requires Valid() && queue != [] && queue[0] == d && Now(trace).pc == Recovering(queue, 0)
      requires IsQueue(queue, rollbacks)
      modifies this
      ensures Valid() && old(trace) < trace && Now(trace).pc == if ok then Recovering(queue[1..], 0) else Down
      ensures ok ==> RecoverDir(old(files), d) == Recovery(files, true) && IsQueue(queue[1..], rollbacks)
      ensures workspaces == old(workspaces)
      ensures if ok then faults == old(faults) else old(faults) <= faults <= old(faults) + 1
      ensures !ok && faults == old(faults) ==> RecoverDir(old(files), d) == Recovery(files, false)
    {
      if Rollback(d, Db) in files {
        ok := RecoverHeldDirectory(d, queue);
      } else {
        Record(Now(trace).(pc := Discarding(queue)));
        ok := Discard(d, queue);
      }
    }

    /** One that holds a database. */
    method RecoverHeldDirectory(d: nat, ghost queue: seq<nat>) returns (ok: bool)
      requires Valid() && queue != [] && queue[0] == d && Now(trace).pc == Recovering(queue, 0)
      requires IsQueue(queue, rollbacks) && Rollback(d, Db) in files
      modifies this
      ensures Valid() && old(trace) < trace && Now(trace).pc == if ok then Recovering(queue[1..], 0) else Down
      ensures ok ==> RecoverDir(old(files), d) == Recovery(files, true) && IsQueue(queue[1..], rollbacks)
      ensures workspaces == old(workspaces)
      ensures if ok then faults == old(faults) else old(faults) <= faults <= old(faults) + 1
      ensures !ok && faults == old(faults) ==> RecoverDir(old(files), d) == Recovery(files, false)
    {
      ok := MakeFailedDirectory(d, queue);
      if !ok { return; }
      ok := RecoverDatabase(d, queue);
      if !ok { return; }
      ghost var back := files;
      ok := ReplaceUploads(d, queue);
      if !ok {
        if faults == old(faults) { RefusedDirSteps(old(files), d, back); }
        return;
      }
      ghost var replaced := files;
      ok := Discard(d, queue);
      if ok { RecoverDirSteps(old(files), d, back, replaced, files); }
    }

    method MakeFailedDirectory(d: nat, ghost queue: seq<nat>) returns (ok: bool)
      requires Valid() && queue != [] && queue[0] == d && Now(trace).pc == Recovering(queue, 0)
      requires Rollback(d, Db) in files
      modifies this`trace, this`faults
      ensures Valid() && old(trace) < trace && Now(trace).pc == if ok then Recovering(queue, 1) else Down
      ensures faults == old(faults) + if ok then 0 else 1
    {
      var failed := Fails();
      if failed { ok := GiveUp(); return; }
      Record(Now(trace).(pc := Recovering(queue, 1)));
      ok := true;
    }

    method RecoverMoveStep(source: Path, target: Path, ghost queue: seq<nat>, ghost n: nat) returns (ok: bool)
      requires Valid() && queue != [] && Now(trace).pc == Recovering(queue, n)
      requires IsRecoverMove(source, target, queue[0], n)
      modifies this`files, this`trace, this`faults
      ensures Valid() && old(trace) < trace && Now(trace).pc == if ok then Recovering(queue, n + 1) else Down
      ensures ok ==> files == MovedIfExists(old(files), source, target)
      ensures faults == old(faults) + if ok then 0 else 1
    {
      ghost var s := Now(trace);
      FilesTyped(trace);
      if source in files { FileCanRename(files, source, target); }
      ok := MoveIfExists(source, target);
      if !ok { ok := GiveUp(); return; }
      ghost var s' := s.(files := files, pc := Recovering(queue, n + 1));
      RecoverNext(s, s', source, target, queue, n);
      Record(s');
    }

    method SetCompanionsAside(d: nat, ghost queue: seq<nat>) returns (ok: bool)
      requires Valid() && queue != [] && queue[0] == d && Now(trace).pc == Recovering(queue, 1)
      modifies this`files, this`trace, this`faults
      ensures Valid() && old(trace) < trace && Now(trace).pc == if ok then Recovering(queue, 3) else Down
      ensures ok ==> files == CompanionsAside(old(files), d)
      ensures faults == old(faults) + if ok then 0 else 1
    {
      ok := RecoverMoveStep(Active(Wal), Failed(d, Wal), queue, 1);
      if !ok { return; }
      ok := RecoverMoveStep(Active(Shm), Failed(d, Shm), queue, 2);
    }

    method RecoverDatabase(d: nat, ghost queue: seq<nat>) returns (ok: bool)
      requires Valid() && queue != [] && queue[0] == d && Now(trace).pc == Recovering(queue, 1)
      modifies this`files, this`trace, this`faults
      ensures Valid() && old(trace) < trace && Now(trace).pc == if ok then Recovering(queue, 6) else Down
      ensures ok ==> files == DatabaseBack(old(files), d)
      ensures faults == old(faults) + if ok then 0 else 1
    {
      ok := SetCompanionsAside(d, queue);
      if !ok { return; }
      ok := RecoverMoveStep(Rollback(d, Db), Active(Db), queue, 3);
      if !ok { return; }
      ok := RecoverMoveStep(Rollback(d, Wal), Active(Wal), queue, 4);
      if !ok { return; }
      ok := RecoverMoveStep(Rollback(d, Shm), Active(Shm), queue, 5);
    }

    /** Uploads only replace an absent or empty directory. */
    method ReplaceUploads(d: nat, ghost queue: seq<nat>) returns (ok: bool)
      requires Valid() && queue != [] && queue[0] == d && Now(trace).pc == Recovering(queue, 6)
      modifies this`files, this`trace, this`faults
      ensures Valid() && old(trace) < trace && Now(trace).pc == if ok then Discarding(queue) else Down
      ensures ok ==>
        if Rollback(d, Uploads) in old(files)
        then (Active(Uploads) in old(files) ==> old(files)[Active(Uploads)] == Folder(map[])) &&
             files == Renamed(old(files), Rollback(d, Uploads), Active(Uploads))
        else files == old(files)
      ensures if ok then faults == old(faults) else old(faults) <= faults <= old(faults) + 1
      ensures !ok && faults == old(faults) ==>
        files == old(files) && Rollback(d, Uploads) in files && Active(Uploads) in files &&
        files[Active(Uploads)] != Folder(map[])
    {
      if Rollback(d, Uploads) !in files {
        Record(Now(trace).(pc := Recovering(queue, 8)));
        Record(Now(trace).(pc := Discarding(queue)));
        return true;
      }
      ok := MakeRoom(d, queue);
      if !ok { return; }
      ok := ActivateUploads(d, queue);
    }

    method MakeRoom(d: nat, ghost queue: seq<nat>) returns (ok: bool)
      requires Valid() && queue != [] && queue[0] == d && Now(trace).pc == Recovering(queue, 6)
      requires Rollback(d, Uploads) in files
      modifies this`files, this`trace, this`faults
      ensures Valid() && old(trace) < trace && Now(trace).pc == if ok then Recovering(queue, 7) else Down
      ensures ok ==> files == old(files) - {Active(Uploads)} &&
                     (Active(Uploads) in old(files) ==> old(files)[Active(Uploads)] == Folder(map[]))
      ensures if ok then faults == old(faults) else old(faults) <= faults <= old(faults) + 1
      ensures !ok && faults == old(faults) ==>
        files == old(files) && Rollback(d, Uploads) in files && Active(Uploads) in files &&
        files[Active(Uploads)] != Folder(map[])
    {
      ghost var s := Now(trace);
      if Active(Uploads) in files {
        var failed := Fails();
        if files[Active(Uploads)] != Folder(map[]) || failed { ok := GiveUp(); return; }
      }
      files := files - {Active(Uploads)};
      ghost var s' := s.(files := files, pc := Recovering(queue, 7));
      assert RecoverStep(s, s', queue, 6);
      Record(s');
      ok := true;
    }

    method ActivateUploads(d: nat, ghost queue: seq<nat>) returns (ok: bool)
      requires Valid() && queue != [] && queue[0] == d && Now(trace).pc == Recovering(queue, 7)
      requires Rollback(d, Uploads) in files && Active(Uploads) !in files
      modifies this`files, this`trace, this`faults
      ensures Valid() && old(trace) < trace && Now(trace).pc == if ok then Discarding(queue) else Down
      ensures ok ==> Rollback(d, Uploads) in old(files) &&
                     files == Renamed(old(files), Rollback(d, Uploads), Active(Uploads))
      ensures faults == old(faults) + if ok then 0 else 1
    {
      ghost var s := Now(trace);
      ok := Rename(Rollback(d, Uploads), Active(Uploads));
      if !ok { ok := GiveUp(); return; }
      ghost var s' := s.(files := files, pc := Recovering(queue, 8));
      assert MoveSucceeds(s, s', Rollback(d, Uploads), Active(Uploads), Recovering(queue, 8));
      Record(s');
      Record(Now(trace).(pc := Discarding(queue)));
    }

    method Discard(d: nat, ghost queue: seq<nat>) returns (ok: bool)
      requires Valid() && queue != [] && queue[0] == d && Now(trace).pc == Discarding(queue)
      requires IsQueue(queue, rollbacks)
      modifies this
      ensures Valid() && old(trace) < trace && Now(trace).pc == if ok then Recovering(queue[1..], 0) else Down
      ensures ok ==> files == Without(old(files), d) && IsQueue(queue[1..], rollbacks)
      ensures workspaces == old(workspaces)
      ensures faults == old(faults) + if ok then 0 else 1
    {
      ok := RemoveAll(RollbackDirectory(d));
      if !ok { ok := GiveUp(); return; }
      RollbackGone(old(files), files, d);
      rollbacks := rollbacks - {d};
      ghost var s' := Now(trace).(rollbacks := rollbacks, pc := Recovering(queue[1..], 0));
      assert DiscardStep(Now(trace), s', queue);
      Record(s');
    }
  }
}
