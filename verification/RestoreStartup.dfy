/** The program's own start: the data directories are created before the recovery looks at them. */
module RestoreStartup {
  import opened Optional
  import opened RestoreMachine
  import opened RestoreSwap
  import opened RestoreCrash
  import opened RestoreAftermath
  import opened RestoreLimits

  /** The directories below the uploads; in a folder a name that ends in a slash is a directory. */
  const UPLOAD_FOLDERS: map<string, seq<bv8>> := map["logos/" := [], "backgrounds/" := [], "site/" := []]

  /** Missing directories are created, and what is there is left alone. */
  function Prepared(files: Files): Files {
    var uploads := Active(Uploads);
    if uploads in files && files[uploads].Folder? then files[uploads := Folder(UPLOAD_FOLDERS + files[uploads].files)]
    else if uploads in files then files
    else files[uploads := Folder(UPLOAD_FOLDERS)]
  }

  lemma PreparedIsNotEmpty(files: Files)
    requires Typed(files)
    ensures Active(Uploads) in Prepared(files) && Prepared(files)[Active(Uploads)] != Folder(map[])
    ensures forall p :: p != Active(Uploads) ==> SameAt(files, Prepared(files), p)
  {
    assert "logos/" in UPLOAD_FOLDERS;
    if Active(Uploads) in files { assert "logos/" in UPLOAD_FOLDERS + files[Active(Uploads)].files; }
  }

  lemma {:induction false} RefusedKeepsUploads(files: Files, queue: seq<nat>, d: nat)
    requires OnlyHolder(files, d) && d in queue && Distinct(queue)
    requires Refuses(files, d, At(files, Active(Uploads)))
    ensures SameAt(files, RecoverAll(files, queue).files, Rollback(d, Uploads))
  {
    var first, rest := queue[0], queue[1..];
    RecoverDirActive(files, first);
    if first == d {
      RecoverDirRefuses(files, d);
    } else {
      assert !HoldsDatabase(files, first) && d in rest;
      var next := Without(files, first);
      forall e ensures HoldsDatabase(next, e) <==> e == d { assert HoldsDatabase(files, e) <==> e == d; }
      RefusedKeepsUploads(next, rest, d);
    }
  }

  /** For every data directory with one database set aside, in whatever order the directories are
      visited: the database comes back, but the recovery succeeds exactly if no uploads were set aside
      with it. Otherwise it fails, and they stay there, with fresh directories in their place. */
  lemma StartRecoversExactly(files: Files, queue: seq<nat>, d: nat)
    requires Typed(files) && OnlyHolder(files, d) && d in queue && Distinct(queue)
    ensures var r := RecoverAll(Prepared(files), queue);
            && (r.ok <==> Rollback(d, Uploads) !in files)
            && At(r.files, Active(Db)) == At(files, Rollback(d, Db))
            && At(r.files, Active(Uploads)) == At(Prepared(files), Active(Uploads))
            && (!r.ok ==> SameAt(files, r.files, Rollback(d, Uploads)))
  {
    var prepared := Prepared(files);
    PreparedIsNotEmpty(files);
    assert SameAt(files, prepared, Rollback(d, Db)) && SameAt(files, prepared, Rollback(d, Uploads));
    assert OnlyHolder(prepared, d) by {
      forall e ensures HoldsDatabase(prepared, e) <==> e == d {
        assert SameAt(files, prepared, Rollback(e, Db)) && (HoldsDatabase(files, e) <==> e == d);
      }
    }
    LastDatabaseWins(prepared, queue);
    OneHolderOutcome(prepared, queue, d, At(prepared, Active(Uploads)));
    if Rollback(d, Uploads) in files { RefusedKeepsUploads(prepared, queue, d); }
  }

  lemma CrashLeavesOneHolder(s: State)
    requires Inv(s) && Marks(s) && s.pc == Sweeping && Pending(s) && !Has(s, Db)
    ensures OnlyHolder(WithoutWorkspaces(s.files), s.dir) && s.dir in s.rollbacks
    ensures Rollback(s.dir, Uploads) in WithoutWorkspaces(s.files) <==> s.staged == 4
    ensures Kept(s, Db) && At(WithoutWorkspaces(s.files), Rollback(s.dir, Db)) == At(s.files, Rollback(s.dir, Db))
  {
    HolderIs(s);
    SameOutside(s.files, Rollback(s.dir, Db));
  }

  lemma WithoutWorkspacesTyped(files: Files)
    requires Typed(files)
    ensures Typed(WithoutWorkspaces(files))
  {
  }

  /** A swap is cut by a crash that leaves no database active. The program's next start then recovers
      exactly if the uploads had not been staged. Otherwise it ends with an error after it has put the
      old database back, and since a database is then there, no later start looks at the uploads again. */
  lemma StartAfterCrash(run: seq<State>, i: nat, queue: seq<nat>)
    requires IsRun(run) && i < |run| && run[i].pc == Sweeping && Pending(run[i]) && !Has(run[i], Db)
    requires IsQueue(queue, run[i].rollbacks)
    ensures var s, r := run[i], RecoverAll(Prepared(WithoutWorkspaces(run[i].files)), queue);
            && (r.ok <==> s.staged != 4)
            && At(r.files, Active(Db)) == At(s.start, Active(Db))
            && (!r.ok ==> At(r.files, Rollback(s.dir, Uploads)) == At(s.start, Active(Uploads)))
  {
    var s, files := run[i], WithoutWorkspaces(run[i].files);
    RunKeepsMarks(run, i);
    CrashLeavesOneHolder(s);
    WithoutWorkspacesTyped(s.files);
    StartRecoversExactly(files, queue, s.dir);
    SameOutside(s.files, Rollback(s.dir, Uploads));
  }

  /** Such a crash: when everything has been staged and nothing activated. */
  lemma StartFailsOnce() returns (run: seq<State>)
    ensures IsRun(run)
    ensures var s := run[|run| - 1];
            var r := RecoverAll(Prepared(WithoutWorkspaces(s.files)), [s.dir]);
            s.pc == Sweeping && s.rollbacks == {s.dir} && !r.ok && At(r.files, Active(Db)) == At(s.start, Active(Db))
  {
    run := SweptRun();
    var s := run[|run| - 1];
    assert IsQueue([s.dir], s.rollbacks);
    StartAfterCrash(run, |run| - 1, [s.dir]);
  }
}
