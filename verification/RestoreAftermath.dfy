/** What the next start makes of a rollback that failed, when the process died before the removals
    that follow it were done. */
module RestoreAftermath {
  import opened Optional
  import opened RestoreMachine
  import opened RestoreSwap
  import opened RestoreCrash

  ghost predicate OnlyHolder(files: Files, d: nat) {
    forall e :: HoldsDatabase(files, e) <==> e == d
  }

  ghost predicate NoHolder(files: Files) {
    forall e :: !HoldsDatabase(files, e)
  }

  lemma {:induction false} NoHolderOutcome(files: Files, queue: seq<nat>, uploads: Option<Content>)
    requires NoHolder(files)
    ensures Passes(files, queue, uploads) && LastReached(files, queue, uploads) == None
    ensures FinalUploads(files, queue, uploads) == uploads
  {
    if queue != [] {
      assert !HoldsDatabase(files, queue[0]);
      NoHolderOutcome(files, queue[1..], uploads);
    }
  }

  lemma {:induction false} DoneHolderOutcome(files: Files, queue: seq<nat>, d: nat, uploads: Option<Content>)
    requires OnlyHolder(files, d) && d !in queue
    ensures Passes(files, queue, uploads) && LastReached(files, queue, uploads) == None
    ensures FinalUploads(files, queue, uploads) == uploads
  {
    if queue != [] {
      assert queue[0] in queue && !HoldsDatabase(files, queue[0]);
      DoneHolderOutcome(files, queue[1..], d, uploads);
    }
  }

  /** With one database, what matters is how its directory fares. */
  lemma {:induction false} OneHolderOutcome(files: Files, queue: seq<nat>, d: nat, uploads: Option<Content>)
    requires OnlyHolder(files, d) && d in queue && Distinct(queue)
    ensures LastReached(files, queue, uploads) == Some(d)
    ensures Passes(files, queue, uploads) <==> !Refuses(files, d, uploads)
    ensures FinalUploads(files, queue, uploads) ==
            if Refuses(files, d, uploads) then uploads else UploadsAfter(files, d, uploads)
  {
    var rest := queue[1..];
    if queue[0] == d {
      assert d !in rest;
      DoneHolderOutcome(files, rest, d, UploadsAfter(files, d, uploads));
    } else {
      assert !HoldsDatabase(files, queue[0]) && d in rest;
      OneHolderOutcome(files, rest, d, uploads);
    }
  }

  lemma HolderIs(s: State)
    requires OnlyOneDatabase(s)
    ensures var files := WithoutWorkspaces(s.files);
            if Held(s, Db) then OnlyHolder(files, s.dir) else NoHolder(files)
  {
  }

  lemma SameOutside(files: Files, p: Path)
    requires !p.Staged?
    ensures At(WithoutWorkspaces(files), p) == At(files, p)
  {
  }

  /** The database is still in the rollback directory: it comes back, and with it the uploads, if they
      are there too, unless they meet a directory that is not empty. */
  lemma HeldDatabaseComesBack(s: State, queue: seq<nat>)
    requires Inv(s) && Marks(s) && Spoilt(s) && s.alone && s.pc == Sweeping && IsQueue(queue, s.rollbacks)
    requires !Has(s, Db) && Held(s, Db)
    ensures var r := RecoverAll(WithoutWorkspaces(s.files), queue);
            && At(r.files, Active(Db)) == At(s.start, Active(Db))
            && (r.ok <==> Held(s, Uploads) && Has(s, Uploads) ==> s.files[Active(Uploads)] == Folder(map[]))
            && At(r.files, Active(Uploads)) ==
               if Held(s, Uploads) && r.ok then At(s.start, Active(Uploads)) else At(s.files, Active(Uploads))
  {
    var files := WithoutWorkspaces(s.files);
    HolderIs(s);
    SameOutside(s.files, Active(Uploads));
    SameOutside(s.files, Rollback(s.dir, Db));
    SameOutside(s.files, Rollback(s.dir, Uploads));
    LastDatabaseWins(files, queue);
    OneHolderOutcome(files, queue, s.dir, At(files, Active(Uploads)));
  }

  /** The removal had taken the database: the recovery only removes what is left of the directory. */
  lemma NothingComesBack(s: State, queue: seq<nat>)
    requires Inv(s) && Marks(s) && Spoilt(s) && s.alone && s.pc == Sweeping && IsQueue(queue, s.rollbacks)
    requires !Has(s, Db) && !Held(s, Db)
    ensures var r := RecoverAll(WithoutWorkspaces(s.files), queue);
            && r.ok && At(r.files, Active(Db)) == None && At(r.files, Active(Uploads)) == At(s.files, Active(Uploads))
            && forall e :: e in s.rollbacks ==> EmptyDir(r.files, e)
  {
    var files := WithoutWorkspaces(s.files);
    HolderIs(s);
    SameOutside(s.files, Active(Db));
    SameOutside(s.files, Active(Uploads));
    LastDatabaseWins(files, queue);
    NoHolderOutcome(files, queue, At(files, Active(Uploads)));
    assert forall e :: e in queue ==> !HoldsDatabase(files, e);
    RecoverNothingLeft(files, queue);
  }

  /** A rollback has failed, the process has died before or during the removal of its directory, and the
      next start finds no database. The old one comes back exactly if the removal had not reached it;
      then the old uploads are active exactly if they were put back, or left alone, or can be moved
      back now. */
  lemma RecoveryAfterFailedRollback(run: seq<State>, i: nat, queue: seq<nat>)
    requires IsRun(run) && i < |run| && Spoilt(run[i]) && run[i].alone && run[i].pc == Sweeping
    requires IsQueue(queue, run[i].rollbacks) && !Has(run[i], Db)
    ensures var s, r := run[i], RecoverAll(WithoutWorkspaces(run[i].files), queue);
            if Held(s, Db) then
              && At(r.files, Active(Db)) == At(s.start, Active(Db))
              && (r.ok <==> Held(s, Uploads) && Has(s, Uploads) ==> s.files[Active(Uploads)] == Folder(map[]))
              && At(r.files, Active(Uploads)) ==
                 if Held(s, Uploads) && r.ok then At(s.start, Active(Uploads)) else At(s.files, Active(Uploads))
            else
              && r.ok && At(r.files, Active(Db)) == None
              && At(r.files, Active(Uploads)) == At(s.files, Active(Uploads))
              && forall e :: e in s.rollbacks ==> EmptyDir(r.files, e)
  {
    RunKeepsMarks(run, i);
    if Held(run[i], Db) { HeldDatabaseComesBack(run[i], queue); } else { NothingComesBack(run[i], queue); }
  }
}
