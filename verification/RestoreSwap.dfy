/** What recovery does with the rollback directories it finds, when no step of it fails. */
module RestoreSwap {
  import opened Optional
  import opened RestoreMachine

  // ---- What recovery does when nothing fails ------------------------------------------------

  function Without(files: Files, dir: nat): Files {
    map p | p in files && !InRollback(p, dir) :: files[p]
  }

  function WithoutWorkspaces(files: Files): Files {
    map p | p in files && !p.Staged? :: files[p]
  }

  function CompanionsAside(files: Files, d: nat): Files {
    MovedIfExists(MovedIfExists(files, Active(Wal), Failed(d, Wal)), Active(Shm), Failed(d, Shm))
  }

  function DatabaseBack(files: Files, d: nat): Files {
    var f1 := MovedIfExists(CompanionsAside(files, d), Rollback(d, Db), Active(Db));
    var f2 := MovedIfExists(f1, Rollback(d, Wal), Active(Wal));
    MovedIfExists(f2, Rollback(d, Shm), Active(Shm))
  }

  /** The files a recovery leaves; not ok when it stopped because uploads met a non-empty directory. */
  datatype Recovery = Recovery(files: Files, ok: bool)

  /** One rollback directory. A refusal comes after the database has been moved. */
  function RecoverDir(files: Files, d: nat): Recovery {
    if Rollback(d, Db) !in files then Recovery(Without(files, d), true)
    else
      var back := DatabaseBack(files, d);
      if Rollback(d, Uploads) !in back then Recovery(Without(back, d), true)
      else if Active(Uploads) in back && back[Active(Uploads)] != Folder(map[]) then Recovery(back, false)
      else Recovery(Without(Renamed(back, Rollback(d, Uploads), Active(Uploads)), d), true)
  }

  function RecoverAll(files: Files, queue: seq<nat>): Recovery
    decreases |queue|
  {
    if queue == [] then Recovery(files, true)
    else
      var first := RecoverDir(files, queue[0]);
      if first.ok then RecoverAll(first.files, queue[1..]) else first
  }

  /** The item is at the active path exactly as it was in the rollback directory. */
  ghost predicate CameBack(files: Files, files': Files, d: nat, item: Item) {
    && (Active(item) in files' <==> Rollback(d, item) in files)
    && (Rollback(d, item) in files ==> files'[Active(item)] == files[Rollback(d, item)])
  }

  ghost predicate Elsewhere(p: Path, d: nat) { !p.Active? && !InRollback(p, d) }

  ghost predicate SameAt(files: Files, files': Files, p: Path) {
    (p in files' <==> p in files) && (p in files ==> files'[p] == files[p])
  }

  lemma DatabaseBackRestores(files: Files, d: nat)
    requires Rollback(d, Db) in files
    ensures var back := DatabaseBack(files, d);
            && CameBack(files, back, d, Db) && CameBack(files, back, d, Wal) && CameBack(files, back, d, Shm)
            && SameAt(files, back, Active(Uploads)) && SameAt(files, back, Rollback(d, Uploads))
            && forall p :: Elsewhere(p, d) ==> SameAt(files, back, p)
  {
  }

  /** A directory with a database: database and companions come back, stray companions do not
      survive, uploads come back if there are any, and the directory is gone. */
  lemma RecoverDirRestores(files: Files, d: nat)
    requires Rollback(d, Db) in files && RecoverDir(files, d).ok
    ensures var files' := RecoverDir(files, d).files;
            && CameBack(files, files', d, Db) && CameBack(files, files', d, Wal) && CameBack(files, files', d, Shm)
            && (Rollback(d, Uploads) in files ==> CameBack(files, files', d, Uploads))
            && (Rollback(d, Uploads) !in files ==> SameAt(files, files', Active(Uploads)))
            && EmptyDir(files', d)
            && (forall p :: Elsewhere(p, d) ==> SameAt(files, files', p))
  {
    DatabaseBackRestores(files, d);
  }

  /** A directory that is refused: its database and companions are active, its uploads are still in
      it, and the active uploads stay. */
  lemma RecoverDirRefuses(files: Files, d: nat)
    requires !RecoverDir(files, d).ok
    ensures var files' := RecoverDir(files, d).files;
            && Rollback(d, Db) in files && Rollback(d, Uploads) in files
            && CameBack(files, files', d, Db) && CameBack(files, files', d, Wal) && CameBack(files, files', d, Shm)
            && SameAt(files, files', Active(Uploads)) && SameAt(files, files', Rollback(d, Uploads))
            && (forall p :: Elsewhere(p, d) ==> SameAt(files, files', p))
  {
    DatabaseBackRestores(files, d);
  }

  // ---- Which database and which uploads end up active -----------------------------------------

  function At(files: Files, p: Path): Option<Content> { if p in files then Some(files[p]) else None }

  predicate HoldsDatabase(files: Files, d: nat) { Rollback(d, Db) in files }

  /** The directory's uploads meet a non-empty directory, where `uploads` are the active ones. */
  predicate Refuses(files: Files, d: nat, uploads: Option<Content>) {
    HoldsDatabase(files, d) && Rollback(d, Uploads) in files && uploads.Some? && uploads.value != Folder(map[])
  }

  function UploadsAfter(files: Files, d: nat, uploads: Option<Content>): Option<Content> {
    if HoldsDatabase(files, d) && Rollback(d, Uploads) in files then Some(files[Rollback(d, Uploads)]) else uploads
  }

  /** No directory of the queue refuses. */
  predicate Passes(files: Files, queue: seq<nat>, uploads: Option<Content>)
    decreases |queue|
  {
    queue == [] ||
    (!Refuses(files, queue[0], uploads) && Passes(files, queue[1..], UploadsAfter(files, queue[0], uploads)))
  }

  /** The last directory with a database that is visited: the first that refuses, or the last of all. */
  function LastReached(files: Files, queue: seq<nat>, uploads: Option<Content>): (last: Option<nat>)
    ensures last.Some? ==> last.value in queue && HoldsDatabase(files, last.value)
    decreases |queue|
  {
    if queue == [] then None
    else if Refuses(files, queue[0], uploads) then Some(queue[0])
    else
      var later := LastReached(files, queue[1..], UploadsAfter(files, queue[0], uploads));
      if later.Some? then later else if HoldsDatabase(files, queue[0]) then Some(queue[0]) else None
  }

  function FinalUploads(files: Files, queue: seq<nat>, uploads: Option<Content>): Option<Content>
    decreases |queue|
  {
    if queue == [] || Refuses(files, queue[0], uploads) then uploads
    else FinalUploads(files, queue[1..], UploadsAfter(files, queue[0], uploads))
  }

  /** The same databases and uploads in the directories of the queue. */
  ghost predicate SameHeld(files: Files, files': Files, queue: seq<nat>) {
    forall e :: e in queue ==> SameAt(files, files', Rollback(e, Db)) && SameAt(files, files', Rollback(e, Uploads))
  }

  lemma {:induction false} SameHeldSameOutcome(files: Files, files': Files, queue: seq<nat>, uploads: Option<Content>)
    requires SameHeld(files, files', queue)
    ensures Passes(files', queue, uploads) == Passes(files, queue, uploads)
    ensures LastReached(files', queue, uploads) == LastReached(files, queue, uploads)
    ensures FinalUploads(files', queue, uploads) == FinalUploads(files, queue, uploads)
    decreases |queue|
  {
    if queue != [] {
      assert queue[0] in queue && forall e :: e in queue[1..] ==> e in queue;
      SameHeldSameOutcome(files, files', queue[1..], UploadsAfter(files, queue[0], uploads));
    }
  }

  predicate Distinct(queue: seq<nat>) { forall i, j :: 0 <= i < j < |queue| ==> queue[i] != queue[j] }

  /** What one directory changes of what is active. */
  lemma RecoverDirActive(files: Files, d: nat)
    ensures var r := RecoverDir(files, d);
            && (r.ok <==> !Refuses(files, d, At(files, Active(Uploads))))
            && At(r.files, Active(Db)) ==
               (if HoldsDatabase(files, d) then At(files, Rollback(d, Db)) else At(files, Active(Db)))
            && At(r.files, Active(Uploads)) ==
               (if r.ok then UploadsAfter(files, d, At(files, Active(Uploads))) else At(files, Active(Uploads)))
  {
    if HoldsDatabase(files, d) {
      DatabaseBackRestores(files, d);
      if RecoverDir(files, d).ok { RecoverDirRestores(files, d); } else { RecoverDirRefuses(files, d); }
    }
  }

  lemma RecoverDirElsewhere(files: Files, d: nat, rest: seq<nat>)
    requires d !in rest
    ensures SameHeld(files, RecoverDir(files, d).files, rest)
  {
    if HoldsDatabase(files, d) {
      if RecoverDir(files, d).ok { RecoverDirRestores(files, d); } else { RecoverDirRefuses(files, d); }
      forall e | e in rest
        ensures SameAt(files, RecoverDir(files, d).files, Rollback(e, Db)) &&
                SameAt(files, RecoverDir(files, d).files, Rollback(e, Uploads))
      {
        assert Elsewhere(Rollback(e, Db), d) && Elsewhere(Rollback(e, Uploads), d);
      }
    }
  }

  /** For every set of files and every visiting order, the loop does not stop at its first success:
      the last directory reached decides which database is active, also when that directory is then
      refused; and whether one is refused depends on the uploads of the directories before it. */
  lemma {:induction false} LastDatabaseWins(files: Files, queue: seq<nat>)
    requires Distinct(queue)
    ensures var r, uploads := RecoverAll(files, queue), At(files, Active(Uploads));
            && (r.ok <==> Passes(files, queue, uploads))
            && At(r.files, Active(Uploads)) == FinalUploads(files, queue, uploads)
            && At(r.files, Active(Db)) == match LastReached(files, queue, uploads)
                                          case None => At(files, Active(Db))
                                          case Some(d) => At(files, Rollback(d, Db))
    decreases |queue|
  {
    if queue != [] {
      var d, rest, uploads := queue[0], queue[1..], At(files, Active(Uploads));
      var first := RecoverDir(files, d);
      RecoverDirActive(files, d);
      RecoverDirElsewhere(files, d, rest);
      if first.ok {
        LastDatabaseWins(first.files, rest);
        SameHeldSameOutcome(files, first.files, rest, UploadsAfter(files, d, uploads));
        var later := LastReached(files, rest, UploadsAfter(files, d, uploads));
        assert later.Some? ==> SameAt(files, first.files, Rollback(later.value, Db));
      }
    }
  }

  // ---- One database ------------------------------------------------------------------------------

  /** At most `keep` holds a database. */
  ghost predicate OnlyDatabase(files: Files, keep: nat) {
    forall e :: e != keep ==> Rollback(e, Db) !in files
  }

  ghost predicate SameActive(files: Files, files': Files) {
    forall item :: SameAt(files, files', Active(item))
  }

  lemma {:induction false} RecoverNothingLeft(files: Files, queue: seq<nat>)
    requires forall e :: e in queue ==> Rollback(e, Db) !in files
    ensures RecoverAll(files, queue).ok && SameActive(files, RecoverAll(files, queue).files)
    ensures forall e :: e in queue ==> EmptyDir(RecoverAll(files, queue).files, e)
    ensures RecoverAll(files, queue).files.Keys <= files.Keys
  {
    if queue != [] {
      assert queue[0] in queue;
      assert forall e :: e in queue[1..] ==> e in queue;
      RecoverNothingLeft(Without(files, queue[0]), queue[1..]);
    }
  }

  /** Whatever the visiting order: when exactly one rollback directory holds a database, and its
      uploads, if it has any, meet an absent or empty directory, its database, companions and uploads
      become active, and every visited rollback directory is gone. Without uploads in it, the active
      ones stay. */
  lemma {:induction false} RecoveryRestores(files: Files, queue: seq<nat>, d: nat)
    requires d in queue && Rollback(d, Db) in files && OnlyDatabase(files, d) && Distinct(queue)
    requires Rollback(d, Uploads) in files && Active(Uploads) in files ==> files[Active(Uploads)] == Folder(map[])
    ensures RecoverAll(files, queue).ok
    ensures var done := RecoverAll(files, queue).files;
            && CameBack(files, done, d, Db) && CameBack(files, done, d, Wal) && CameBack(files, done, d, Shm)
            && (if Rollback(d, Uploads) in files then CameBack(files, done, d, Uploads)
                else SameAt(files, done, Active(Uploads)))
            && forall e :: e in queue ==> EmptyDir(done, e)
  {
    var first, rest := queue[0], queue[1..];
    if first == d {
      RecoverDirActive(files, d);
      RecoverDirRestores(files, d);
      var next := RecoverDir(files, d).files;
      forall e | e in rest ensures Rollback(e, Db) !in next {
        assert e != d;
        assert Elsewhere(Rollback(e, Db), d);
      }
      RecoverNothingLeft(next, rest);
      RecoverShrinks(next, rest);
    } else {
      var next := Without(files, first);
      RecoveryRestores(next, rest, d);
      RecoverShrinks(next, rest);
    }
  }

  lemma {:induction false} RecoverShrinks(files: Files, queue: seq<nat>)
    requires RecoverAll(files, queue).ok
    ensures forall e :: EmptyDir(files, e) && e !in queue ==> EmptyDir(RecoverAll(files, queue).files, e)
    decreases |queue|
  {
    if queue != [] {
      var next := RecoverDir(files, queue[0]).files;
      forall e | EmptyDir(files, e) && e !in queue ensures EmptyDir(next, e) {
        assert e != queue[0];
        forall p | p in next ensures !InRollback(p, e) {
          if Rollback(queue[0], Db) in files {
            RecoverDirRestores(files, queue[0]);
            assert Elsewhere(p, queue[0]) || !InRollback(p, e);
          }
        }
      }
      assert forall e :: e !in queue ==> e !in queue[1..];
      RecoverShrinks(next, queue[1..]);
    }
  }

  // ---- More than one database ------------------------------------------------------------------

  /** The newest database: directories are visited newest first. */
  function FirstHolder(files: Files, queue: seq<nat>): Option<nat> {
    if queue == [] then None
    else if HoldsDatabase(files, queue[0]) then Some(queue[0])
    else FirstHolder(files, queue[1..])
  }

  ghost predicate OtherHolder(files: Files, queue: seq<nat>, d: nat) {
    exists e :: e in queue && e != d && HoldsDatabase(files, e)
  }

  lemma {:induction false} ReachesSomeHolder(files: Files, queue: seq<nat>, uploads: Option<Content>)
    ensures LastReached(files, queue, uploads).Some? <==> exists e :: e in queue && HoldsDatabase(files, e)
    decreases |queue|
  {
    if queue != [] {
      ReachesSomeHolder(files, queue[1..], UploadsAfter(files, queue[0], uploads));
      assert queue[0] in queue && forall e :: e in queue <==> e == queue[0] || e in queue[1..];
    }
  }

  /** The newest database is the last one reached exactly if its own uploads are refused or no other
      directory holds a database. */
  lemma {:induction false} StopsAtNewest(files: Files, queue: seq<nat>, newest: nat, uploads: Option<Content>)
    requires Distinct(queue) && FirstHolder(files, queue) == Some(newest)
    ensures LastReached(files, queue, uploads) == Some(newest) <==>
            Refuses(files, newest, uploads) || !OtherHolder(files, queue, newest)
  {
    var rest := queue[1..];
    assert forall e :: e in queue <==> e == queue[0] || e in rest;
    FirstHolderHolds(files, queue);
    if queue[0] == newest {
      ReachesSomeHolder(files, rest, UploadsAfter(files, newest, uploads));
      assert newest !in rest;
      if e :| e in rest && HoldsDatabase(files, e) { assert e in queue && e != newest; }
      if OtherHolder(files, queue, newest) {
        var e :| e in queue && e != newest && HoldsDatabase(files, e);
        assert e in rest;
      }
    } else {
      StopsAtNewest(files, rest, newest, uploads);
    }
  }

  /** The newest database ends up active if and only if its own uploads are refused, no other
      directory holds a database, or the last one reached has the same contents. */
  lemma NewestWinsExactly(files: Files, queue: seq<nat>, newest: nat)
    requires Distinct(queue) && FirstHolder(files, queue) == Some(newest)
    ensures var uploads := At(files, Active(Uploads));
            var last := LastReached(files, queue, uploads);
            At(RecoverAll(files, queue).files, Active(Db)) == At(files, Rollback(newest, Db)) <==>
              || Refuses(files, newest, uploads) || !OtherHolder(files, queue, newest)
              || (last.Some? && At(files, Rollback(last.value, Db)) == At(files, Rollback(newest, Db)))
  {
    LastDatabaseWins(files, queue);
    StopsAtNewest(files, queue, newest, At(files, Active(Uploads)));
    FirstHolderHolds(files, queue);
    ReachesSomeHolder(files, queue, At(files, Active(Uploads)));
  }

  lemma {:induction false} FirstHolderHolds(files: Files, queue: seq<nat>)
    ensures var first := FirstHolder(files, queue);
            first.Some? ==> first.value in queue && HoldsDatabase(files, first.value)
  {
    if queue != [] { FirstHolderHolds(files, queue[1..]); }
  }

  /** Two directories with a database and uploads: the newer one is recovered, then the older
      database replaces it, and only then is the recovery refused, with uploads that do not match. */
  lemma OlderDatabaseWins(older: nat, newer: nat, a: Content, b: Content, u: Content, v: Content)
    requires older != newer && a.File? && b.File? && u.Folder? && v.Folder? && v != Folder(map[])
    ensures var files := map[Rollback(older, Db) := a, Rollback(older, Uploads) := u,
                             Rollback(newer, Db) := b, Rollback(newer, Uploads) := v];
            var r := RecoverAll(files, [newer, older]);
            !r.ok && At(r.files, Active(Db)) == Some(a) && At(r.files, Active(Uploads)) == Some(v)
  {
    var files := map[Rollback(older, Db) := a, Rollback(older, Uploads) := u,
                     Rollback(newer, Db) := b, Rollback(newer, Uploads) := v];
    var queue := [newer, older];
    assert queue[1..] == [older] && Distinct(queue);
    LastDatabaseWins(files, queue);
    assert Refuses(files, older, Some(v)) && !Refuses(files, newer, None);
    assert LastReached(files, [older], Some(v)) == Some(older);
    assert FinalUploads(files, [older], Some(v)) == Some(v) && !Passes(files, [older], Some(v));
  }
}
