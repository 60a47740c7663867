/** Which backups a restore accepts, and what it gives back. */
module BackupRestore {
  import opened Strings
  import opened Sets
  import opened Archive
  import opened ArchiveNames
  import opened Optional
  import opened ArchiveExtract
  import opened Backup

  // ---- Which backups can be restored ------------------------------------------------------------

  function UploadSize(kept: seq<Walked>): nat {
    if kept == [] then 0
    else
      var last := kept[|kept| - 1];
      UploadSize(kept[..|kept| - 1]) + if last.kind == Directory then 0 else |last.data|
  }

  ghost predicate NamesAllowed(kept: seq<Walked>) {
    forall i :: 0 <= i < |kept| ==> AllowedPath(UploadName(kept[i]), kept[i].kind == Directory)
  }

  ghost predicate NamesDistinct(kept: seq<Walked>) {
    forall i, j :: 0 <= i < j < |kept| ==> Lower(UploadName(kept[i])) != Lower(UploadName(kept[j]))
  }

  ghost predicate Restorable(c: Codec, snapshot: Bytes, kept: seq<Walked>, origin: Origin) {
    var manifest := |c.encode(ManifestOf(c, snapshot, kept, origin))|;
    && NamesAllowed(kept) && NamesDistinct(kept)
    && |snapshot| + UploadSize(kept) + manifest <= MAX_EXTRACTED && manifest <= MAX_MANIFEST
    && origin.applicationVersion != "" && origin.createdAt != 0
  }

  ghost predicate IsKept(kept: seq<Walked>) {
    forall i :: 0 <= i < |kept| ==> IsRelative(kept[i].relative) && kept[i].kind != Other
  }

  lemma KeptIsKept(tree: seq<Walked>)
    requires IsWalk(tree)
    ensures IsKept(Kept(tree))
  {
    KeptMembers(tree);
    forall i | 0 <= i < |Kept(tree)| ensures IsRelative(Kept(tree)[i].relative) && Kept(tree)[i].kind != Other {
      var w := Kept(tree)[i];
      assert w in Kept(tree);
    }
  }

  // ---- What inspection sees in each entry -----------------------------------------------------------

  ghost predicate IsPlain(name: string) {
    '/' !in name && '\\' !in name && |name| > 2 && Lower(name) == name
  }

  lemma PlainIsSafe(name: string, data: Bytes)
    requires IsPlain(name)
    ensures Clean(name) == name && SafeName(name) && !FileEntry(name, data).IsDir()
  {
    CleanOne(name);
    assert name[0] in name && name[2] in name && name[|name| - 1] in name;
  }

  lemma FixedCheck(name: string, data: Bytes)
    requires IsPlain(name) && KnownName(name) && AllowedPath(name, false)
    ensures Check(FileEntry(name, data)) == Checked(true, name, name, |data|)
  {
    PlainIsSafe(name, data);
  }

  lemma PlainNames()
    ensures IsPlain(DATABASE) && IsPlain(MANIFEST_NAME) && Lower(UPLOADS_NAME) == UPLOADS_NAME
  {
  }

  lemma UploadsCheck()
    ensures Check(DirectoryEntry(UPLOADS_NAME)) == Checked(true, UPLOADS_NAME, UPLOADS_NAME, 0)
  {
    RootIsSafe();
    PlainNames();
  }

  lemma UploadCheck(w: Walked)
    requires IsRelative(w.relative) && w.kind != Other
    ensures var check := Check(UploadEntry(w));
            && check.allowed == AllowedPath(UploadName(w), w.kind == Directory)
            && (check.allowed ==> check.clean == UploadName(w) && check.folded == Lower(UploadName(w)))
            && check.size == if w.kind == Directory then 0 else |w.data|
  {
    var name := UploadName(w);
    assert name[|name| - 1] == w.relative[|w.relative| - 1];
    if w.kind == Directory { DirectoryEntryAllowed(name); } else { FileEntryAllowed(name, w.data); }
  }

  /** Uploads never fold to a fixed name. */
  lemma UploadFold(w: Walked)
    requires w.relative != ""
    ensures Lower(UploadName(w)) !in [DATABASE, UPLOADS_NAME, MANIFEST_NAME]
  {
    assert Lower(UploadName(w))[7] == '/' && MANIFEST_NAME[7] == 't';
  }

  /** What a check of an upload says, with the name only where it is allowed. */
  ghost predicate Sees(check: Checked, w: Walked) {
    && check.allowed == AllowedPath(UploadName(w), w.kind == Directory)
    && (check.allowed ==> check.clean == UploadName(w) && check.folded == Lower(UploadName(w)))
    && check.size == if w.kind == Directory then 0 else |w.data|
  }

  /** The checks of a backup: the database, the directory, the uploads, the manifest. */
  ghost predicate IsLayout(checks: seq<Checked>, kept: seq<Walked>, snapshot: nat, manifest: nat) {
    && |checks| == |kept| + 3
    && checks[0] == Checked(true, DATABASE, DATABASE, snapshot)
    && checks[1] == Checked(true, UPLOADS_NAME, UPLOADS_NAME, 0)
    && (forall i :: 0 <= i < |kept| ==> Sees(checks[i + 2], kept[i]))
    && checks[|kept| + 2] == Checked(true, MANIFEST_NAME, MANIFEST_NAME, manifest)
  }

  lemma ArchivedAt(c: Codec, snapshot: Bytes, kept: seq<Walked>, origin: Origin)
    ensures var archive := Archived(c, snapshot, kept, origin);
            && |archive| == |kept| + 3
            && archive[0] == FileEntry(DATABASE, snapshot) && archive[1] == DirectoryEntry(UPLOADS_NAME)
            && (forall i :: 0 <= i < |kept| ==> archive[i + 2] == UploadEntry(kept[i]))
            && archive[|kept| + 2] == FileEntry(MANIFEST_NAME, c.encode(ManifestOf(c, snapshot, kept, origin)))
  {
  }

  lemma ArchivedLayout(c: Codec, snapshot: Bytes, kept: seq<Walked>, origin: Origin)
    requires IsKept(kept)
    ensures IsLayout(CheckAll(Archived(c, snapshot, kept, origin)), kept, |snapshot|,
                     |c.encode(ManifestOf(c, snapshot, kept, origin))|)
  {
    ArchivedAt(c, snapshot, kept, origin);
    PlainNames();
    FixedCheck(DATABASE, snapshot);
    FixedCheck(MANIFEST_NAME, c.encode(ManifestOf(c, snapshot, kept, origin)));
    UploadsCheck();
    forall i | 0 <= i < |kept| ensures Sees(Check(UploadEntry(kept[i])), kept[i]) { UploadCheck(kept[i]); }
  }

  lemma {:induction false} LayoutSize(checks: seq<Checked>, kept: seq<Walked>, snapshot: nat, manifest: nat, n: nat)
    requires IsLayout(checks, kept, snapshot, manifest) && n <= |kept|
    ensures TotalSize(checks[..n + 2]) == snapshot + UploadSize(kept[..n])
  {
    if n == 0 {
      assert checks[..2][..1] == [checks[0]] && [checks[0]][..0] == [] && kept[..0] == [];
      assert TotalSize([checks[0]]) == snapshot;
    } else {
      LayoutSize(checks, kept, snapshot, manifest, n - 1);
      assert checks[..n + 2][..n + 1] == checks[..n + 1] && kept[..n][..n - 1] == kept[..n - 1];
      assert Sees(checks[n - 1 + 2], kept[n - 1]);
    }
  }

  lemma LayoutTotal(checks: seq<Checked>, kept: seq<Walked>, snapshot: nat, manifest: nat)
    requires IsLayout(checks, kept, snapshot, manifest)
    ensures TotalSize(checks) == snapshot + UploadSize(kept) + manifest
  {
    LayoutSize(checks, kept, snapshot, manifest, |kept|);
    assert kept[..|kept|] == kept && checks[..|checks| - 1] == checks[..|kept| + 2];
  }

  lemma LayoutFolds(checks: seq<Checked>, kept: seq<Walked>, snapshot: nat, manifest: nat, i: nat, j: nat)
    requires IsLayout(checks, kept, snapshot, manifest) && IsKept(kept) && NamesAllowed(kept) && NamesDistinct(kept)
    requires i < j < |checks|
    ensures checks[i].folded != checks[j].folded
  {
    if 2 <= i < |kept| + 2 {
      assert Sees(checks[i - 2 + 2], kept[i - 2]);
      UploadFold(kept[i - 2]);
    }
    if 2 <= j < |kept| + 2 {
      assert Sees(checks[j - 2 + 2], kept[j - 2]);
      UploadFold(kept[j - 2]);
    }
  }

  lemma LayoutWellFormed(checks: seq<Checked>, kept: seq<Walked>, snapshot: nat, manifest: nat)
    requires IsLayout(checks, kept, snapshot, manifest) && IsKept(kept)
    ensures WellFormed(checks) <==>
            NamesAllowed(kept) && NamesDistinct(kept) && snapshot + UploadSize(kept) + manifest <= MAX_EXTRACTED
  {
    LayoutTotal(checks, kept, snapshot, manifest);
    if WellFormed(checks) { WellFormedNames(checks, kept, snapshot, manifest); }
    if NamesAllowed(kept) && NamesDistinct(kept) {
      forall i | 0 <= i < |checks| ensures checks[i].allowed {
        if 2 <= i < |kept| + 2 { assert Sees(checks[i - 2 + 2], kept[i - 2]); }
      }
      forall i, j | 0 <= i < j < |checks| ensures checks[i].folded != checks[j].folded {
        LayoutFolds(checks, kept, snapshot, manifest, i, j);
      }
    }
  }

  lemma WellFormedNames(checks: seq<Checked>, kept: seq<Walked>, snapshot: nat, manifest: nat)
    requires IsLayout(checks, kept, snapshot, manifest) && WellFormed(checks)
    ensures NamesAllowed(kept) && NamesDistinct(kept)
  {
    forall i | 0 <= i < |kept|
      ensures AllowedPath(UploadName(kept[i]), kept[i].kind == Directory) &&
              checks[i + 2].folded == Lower(UploadName(kept[i]))
    {
      assert Sees(checks[i + 2], kept[i]) && checks[i + 2].allowed;
    }
    forall i, j | 0 <= i < j < |kept| ensures Lower(UploadName(kept[i])) != Lower(UploadName(kept[j])) {
      assert checks[i + 2].folded != checks[j + 2].folded;
    }
  }

  // ---- The two theorems ---------------------------------------------------------------------------

  lemma ReadsBack(c: Codec, snapshot: Bytes, kept: seq<Walked>, origin: Origin)
    requires c.Lawful()
    ensures var manifest := ManifestOf(c, snapshot, kept, origin);
            var read := ReadManifest(c, FileEntry(MANIFEST_NAME, c.encode(manifest)));
            && (read.Ok? <==>
                |c.encode(manifest)| <= MAX_MANIFEST && origin.applicationVersion != "" && origin.createdAt != 0)
            && (read.Ok? ==> read.value == manifest)
  {
    var manifest := ManifestOf(c, snapshot, kept, origin);
    assert c.decode(c.encode(manifest)) == Some(manifest);
  }

  /** A backup is accepted exactly if every upload has an allowed name, no two names are equal
      ignoring case, and everything fits; the manifest read is then the one that was written. */
  lemma BackupAccepted(c: Codec, snapshot: Bytes, kept: seq<Walked>, origin: Origin, m: Manifest)
    requires c.Lawful() && IsKept(kept)
    ensures Acceptable(c, Archived(c, snapshot, kept, origin), m) <==>
            Restorable(c, snapshot, kept, origin) && m == ManifestOf(c, snapshot, kept, origin)
  {
    var archive := Archived(c, snapshot, kept, origin);
    ArchivedLayout(c, snapshot, kept, origin);
    ArchivedAt(c, snapshot, kept, origin);
    ChecksFolded(archive);
    ReadsBack(c, snapshot, kept, origin);
    LayoutAccepted(c, archive, CheckAll(archive), kept, |snapshot|, |c.encode(ManifestOf(c, snapshot, kept, origin))|,
                   m);
  }

  /** An archive with the layout of a backup is accepted exactly with the manifest in its last entry. */
  lemma LayoutAccepted(c: Codec, archive: seq<Entry>, checks: seq<Checked>, kept: seq<Walked>, snapshot: nat,
                       manifest: nat, m: Manifest)
    requires IsLayout(checks, kept, snapshot, manifest) && IsKept(kept) && |archive| == |checks| && FoldedOk(checks)
    ensures AcceptableBy(c, archive, checks, m) <==>
            && NamesAllowed(kept) && NamesDistinct(kept) && snapshot + UploadSize(kept) + manifest <= MAX_EXTRACTED
            && ReadManifest(c, archive[|kept| + 2]) == Ok(m)
  {
    LayoutWellFormed(checks, kept, snapshot, manifest);
    LayoutHasEntries(checks, kept, snapshot, manifest);
    if WellFormed(checks) { ManifestExactly(c, archive, checks, |kept| + 2, m); }
  }

  lemma LayoutHasEntries(checks: seq<Checked>, kept: seq<Walked>, snapshot: nat, manifest: nat)
    requires IsLayout(checks, kept, snapshot, manifest)
    ensures HasName(checks, DATABASE) && HasName(checks, UPLOADS_NAME) && checks[|kept| + 2].clean == MANIFEST_NAME
  {
    assert checks[0].clean == DATABASE && checks[1].clean == UPLOADS_NAME;
  }

  lemma ManifestExactly(c: Codec, archive: seq<Entry>, checks: seq<Checked>, k: nat, m: Manifest)
    requires WellFormed(checks) && FoldedOk(checks) && |archive| == |checks| && k < |checks|
    requires checks[k].clean == MANIFEST_NAME
    ensures HasManifest(c, archive, checks, m) <==> ReadManifest(c, archive[k]) == Ok(m)
  {
    if HasManifest(c, archive, checks, m) { UniqueManifest(c, archive, checks, k, m); }
  }

  lemma {:induction false} RecordOf(c: Codec, kept: seq<Walked>, r: FileIntegrity)
    ensures r in UploadRecords(c, kept) <==>
            exists i :: 0 <= i < |kept| && kept[i].kind == Regular && r == Record(c, UploadName(kept[i]), kept[i].data)
  {
    if kept != [] {
      var last := |kept| - 1;
      RecordOf(c, kept[..last], r);
      assert forall i :: 0 <= i < last ==> kept[..last][i] == kept[i];
    }
  }

  /** The records name distinct uploads. */
  lemma {:induction false} RecordsDistinct(c: Codec, kept: seq<Walked>)
    requires NamesDistinct(kept)
    ensures NoDuplicates(Paths(UploadRecords(c, kept)))
  {
    if kept != [] {
      var last := |kept| - 1;
      var before, w := UploadRecords(c, kept[..last]), kept[last];
      RecordsDistinct(c, kept[..last]);
      if w.kind == Regular {
        forall i | 0 <= i < |before| ensures before[i].path != UploadName(w) { RecordNotLast(c, kept, i); }
        assert Paths(UploadRecords(c, kept)) == Paths(before) + [UploadName(w)];
      } else {
        assert UploadRecords(c, kept) == before;
      }
    }
  }

  lemma RecordNotLast(c: Codec, kept: seq<Walked>, i: nat)
    requires NamesDistinct(kept) && kept != [] && i < |UploadRecords(c, kept[..|kept| - 1])|
    ensures UploadRecords(c, kept[..|kept| - 1])[i].path != UploadName(kept[|kept| - 1])
  {
    var r := UploadRecords(c, kept[..|kept| - 1])[i];
    assert r in UploadRecords(c, kept[..|kept| - 1]);
    RecordOf(c, kept[..|kept| - 1], r);
    var k :| 0 <= k < |kept| - 1 && r == Record(c, UploadName(kept[..|kept| - 1][k]), kept[..|kept| - 1][k].data);
    assert Lower(UploadName(kept[k])) != Lower(UploadName(kept[|kept| - 1]));
  }

  lemma WrittenRecords(c: Codec, snapshot: Bytes, kept: seq<Walked>)
    requires c.Lawful() && IsKept(kept) && NamesDistinct(kept)
    ensures UsableManifest([Record(c, DATABASE, snapshot)] + UploadRecords(c, kept))
  {
    var first, rest := Record(c, DATABASE, snapshot), UploadRecords(c, kept);
    RecordsDistinct(c, kept);
    forall i | 0 <= i < |rest| ensures UsableRecord(rest[i]) && rest[i].path != DATABASE {
      var r := rest[i];
      assert r in rest;
      RecordOf(c, kept, r);
      var k :| 0 <= k < |kept| && kept[k].kind == Regular && r == Record(c, UploadName(kept[k]), kept[k].data);
      assert |DATABASE| == 6 && UploadName(kept[k])[0] == 'u' && |UploadName(kept[k])| > 6 && MANIFEST_NAME[0] == 'm';
      assert |c.digest(kept[k].data)| == DIGEST_LENGTH;
    }
    assert |c.digest(snapshot)| == DIGEST_LENGTH && |MANIFEST_NAME| != 6;
    assert Paths([first] + rest) == [DATABASE] + Paths(rest);
  }

  lemma {:induction false} SizeAt(kept: seq<Walked>, i: nat)
    requires i < |kept| && kept[i].kind != Directory
    ensures |kept[i].data| <= UploadSize(kept)
  {
    if i < |kept| - 1 { SizeAt(kept[..|kept| - 1], i); }
  }

  ghost predicate IsItems(items: seq<Item>, snapshot: Bytes, kept: seq<Walked>) {
    && |items| == |kept| + 3
    && items[0] == Item(DATABASE, FileEntry(DATABASE, snapshot))
    && items[1] == Item(UPLOADS_NAME, DirectoryEntry(UPLOADS_NAME))
    && (forall i :: 0 <= i < |kept| ==> items[i + 2] == Item(UploadName(kept[i]), UploadEntry(kept[i])))
    && items[|kept| + 2].name == MANIFEST_NAME
  }

  lemma LayoutNames(checks: seq<Checked>, kept: seq<Walked>, snapshot: nat, manifest: nat)
    requires IsLayout(checks, kept, snapshot, manifest) && NamesAllowed(kept)
    ensures forall i :: 0 <= i < |kept| ==> checks[i + 2].clean == UploadName(kept[i])
  {
    forall i | 0 <= i < |kept| ensures checks[i + 2].clean == UploadName(kept[i]) {
      assert Sees(checks[i + 2], kept[i]);
    }
  }

  lemma ItemAt(archive: seq<Entry>, i: nat)
    requires i < |archive|
    ensures Items(archive)[i] == Item(CheckAll(archive)[i].clean, archive[i])
  {
  }

  lemma ItemsOf(c: Codec, snapshot: Bytes, kept: seq<Walked>, origin: Origin)
    requires IsKept(kept) && NamesAllowed(kept)
    ensures IsItems(Items(Archived(c, snapshot, kept, origin)), snapshot, kept)
  {
    var archive := Archived(c, snapshot, kept, origin);
    var checks, items := CheckAll(archive), Items(archive);
    var manifest := |c.encode(ManifestOf(c, snapshot, kept, origin))|;
    ArchivedLayout(c, snapshot, kept, origin);
    ArchivedAt(c, snapshot, kept, origin);
    forall i | 0 <= i < |archive| ensures items[i] == Item(checks[i].clean, archive[i]) { ItemAt(archive, i); }
    ItemsOfLayout(checks, archive, items, snapshot, kept, manifest);
  }

  lemma ItemsOfLayout(checks: seq<Checked>, archive: seq<Entry>, items: seq<Item>, snapshot: Bytes, kept: seq<Walked>,
                      manifest: nat)
    requires IsLayout(checks, kept, |snapshot|, manifest) && NamesAllowed(kept) && |archive| == |items| == |checks|
    requires forall i :: 0 <= i < |items| ==> items[i] == Item(checks[i].clean, archive[i])
    requires archive[0] == FileEntry(DATABASE, snapshot) && archive[1] == DirectoryEntry(UPLOADS_NAME)
    requires forall i :: 0 <= i < |kept| ==> archive[i + 2] == UploadEntry(kept[i])
    ensures IsItems(items, snapshot, kept)
  {
    LayoutNames(checks, kept, |snapshot|, manifest);
  }

  /** The saved files, by path. */
  ghost predicate IsSaved(files: map<string, Bytes>, snapshot: Bytes, kept: seq<Walked>) {
    && (forall path :: path in files <==> path == DATABASE || IsUpload(kept, path))
    && files[DATABASE] == snapshot
    && (forall i :: 0 <= i < |kept| && kept[i].kind == Regular ==>
          UploadName(kept[i]) in files && files[UploadName(kept[i])] == kept[i].data)
  }

  ghost predicate IsUpload(kept: seq<Walked>, path: string) {
    exists i :: 0 <= i < |kept| && kept[i].kind == Regular && path == UploadName(kept[i])
  }

  lemma IsFileExactly(items: seq<Item>, snapshot: Bytes, kept: seq<Walked>, i: nat)
    requires IsItems(items, snapshot, kept) && IsKept(kept) && i < |items|
    ensures IsFile(items[i]) <==> i == 0 || (2 <= i < |kept| + 2 && kept[i - 2].kind == Regular)
  {
    if 2 <= i < |kept| + 2 {
      var w := kept[i - 2];
      assert items[i - 2 + 2] == Item(UploadName(w), UploadEntry(w)) && IsRelative(w.relative);
      assert UploadName(w)[|UploadName(w)| - 1] == w.relative[|w.relative| - 1];
      assert UploadName(w)[0] == 'u' && MANIFEST_NAME[0] == 'm';
    }
  }

  lemma FileAt(items: seq<Item>, snapshot: Bytes, kept: seq<Walked>, i: nat)
    requires IsItems(items, snapshot, kept) && IsKept(kept) && i < |kept| && kept[i].kind == Regular
    requires |snapshot| + UploadSize(kept) <= MAX_EXTRACTED
    ensures items[i + 2] == Item(UploadName(kept[i]), FileEntry(UploadName(kept[i]), kept[i].data))
    ensures IsFile(items[i + 2]) && |kept[i].data| <= MAX_EXTRACTED
  {
    IsFileExactly(items, snapshot, kept, i + 2);
    SizeAt(kept, i);
  }

  lemma SavedKeys(items: seq<Item>, snapshot: Bytes, kept: seq<Walked>, path: string)
    requires IsItems(items, snapshot, kept) && IsKept(kept) && |snapshot| + UploadSize(kept) <= MAX_EXTRACTED
    ensures path in FilesOf(items) <==> path == DATABASE || IsUpload(kept, path)
  {
    FilesOfKeys(items);
    IsFileExactly(items, snapshot, kept, 0);
    if path in FilesOf(items) {
      var k :| 0 <= k < |items| && IsFile(items[k]) && items[k].name == path;
      IsFileExactly(items, snapshot, kept, k);
      if k > 0 { FileAt(items, snapshot, kept, k - 2); }
    }
    if IsUpload(kept, path) {
      var i :| 0 <= i < |kept| && kept[i].kind == Regular && path == UploadName(kept[i]);
      FileAt(items, snapshot, kept, i);
    }
  }

  lemma Saved(items: seq<Item>, snapshot: Bytes, kept: seq<Walked>)
    requires IsItems(items, snapshot, kept) && IsKept(kept) && |snapshot| + UploadSize(kept) <= MAX_EXTRACTED
    requires DistinctItems(items)
    ensures IsSaved(FilesOf(items), snapshot, kept)
  {
    forall path ensures path in FilesOf(items) <==> path == DATABASE || IsUpload(kept, path) {
      SavedKeys(items, snapshot, kept, path);
    }
    IsFileExactly(items, snapshot, kept, 0);
    FilesOfAt(items, 0);
    forall i | 0 <= i < |kept| && kept[i].kind == Regular
      ensures UploadName(kept[i]) in FilesOf(items) && FilesOf(items)[UploadName(kept[i])] == kept[i].data
    {
      FileAt(items, snapshot, kept, i);
      FilesOfAt(items, i + 2);
    }
  }

  lemma RecordedPaths(c: Codec, snapshot: Bytes, kept: seq<Walked>, path: string)
    ensures path in Paths([Record(c, DATABASE, snapshot)] + UploadRecords(c, kept)) <==>
            path == DATABASE || IsUpload(kept, path)
  {
    var records := UploadRecords(c, kept);
    var files := [Record(c, DATABASE, snapshot)] + records;
    assert Paths(files) == [DATABASE] + Paths(records);
    if path in Paths(records) {
      var k :| 0 <= k < |records| && Paths(records)[k] == path;
      var r := records[k];
      assert r in records;
      RecordOf(c, kept, r);
    }
    if IsUpload(kept, path) {
      var i :| 0 <= i < |kept| && kept[i].kind == Regular && path == UploadName(kept[i]);
      var r := Record(c, path, kept[i].data);
      RecordOf(c, kept, r);
      var k :| 0 <= k < |records| && records[k] == r;
      assert Paths(records)[k] == path;
    }
  }

  lemma EachExpected(c: Codec, items: seq<Item>, snapshot: Bytes, kept: seq<Walked>, k: nat)
    requires IsItems(items, snapshot, kept) && IsKept(kept) && |snapshot| + UploadSize(kept) <= MAX_EXTRACTED
    requires k < |items| && IsFile(items[k])
    ensures Expected(c, items[k], [Record(c, DATABASE, snapshot)] + UploadRecords(c, kept))
  {
    var records := UploadRecords(c, kept);
    var files := [Record(c, DATABASE, snapshot)] + records;
    IsFileExactly(items, snapshot, kept, k);
    if k == 0 {
      assert files[0].path == items[0].name && Matches(c, items[0].entry, files[0]);
    } else {
      FileAt(items, snapshot, kept, k - 2);
      var r := Record(c, UploadName(kept[k - 2]), kept[k - 2].data);
      RecordOf(c, kept, r);
      var i :| 0 <= i < |records| && records[i] == r;
      assert files[i + 1] == r && Matches(c, items[k].entry, files[i + 1]);
    }
  }

  /** An accepted backup is extracted, and gives back exactly what was saved. */
  lemma BackupRestoresExactly(c: Codec, snapshot: Bytes, kept: seq<Walked>, origin: Origin)
    requires c.Lawful() && IsKept(kept) && Restorable(c, snapshot, kept, origin)
    ensures var items := Items(Archived(c, snapshot, kept, origin));
            && DistinctItems(items) && Extractable(c, items, ManifestOf(c, snapshot, kept, origin).files)
            && IsSaved(FilesOf(items), snapshot, kept)
            && forall path :: path in DirectoriesOf(items) + {UPLOADS_NAME} <==>
               path == UPLOADS_NAME || IsFolder(kept, path)
  {
    var m := ManifestOf(c, snapshot, kept, origin);
    var items := Items(Archived(c, snapshot, kept, origin));
    BackupAccepted(c, snapshot, kept, origin, m);
    ChecksFolded(Archived(c, snapshot, kept, origin));
    AcceptedItemsDistinct(items, CheckAll(Archived(c, snapshot, kept, origin)));
    ItemsOf(c, snapshot, kept, origin);
    SavedExtractable(c, items, snapshot, kept);
    Saved(items, snapshot, kept);
    forall path
      ensures path in DirectoriesOf(items) + {UPLOADS_NAME} <==> path == UPLOADS_NAME || IsFolder(kept, path)
    {
      SavedFolders(items, snapshot, kept, path);
    }
  }

  lemma SavedExtractable(c: Codec, items: seq<Item>, snapshot: Bytes, kept: seq<Walked>)
    requires c.Lawful() && IsItems(items, snapshot, kept) && IsKept(kept) && NamesDistinct(kept) && DistinctItems(items)
    requires |snapshot| + UploadSize(kept) <= MAX_EXTRACTED
    ensures Extractable(c, items, [Record(c, DATABASE, snapshot)] + UploadRecords(c, kept))
  {
    var files := [Record(c, DATABASE, snapshot)] + UploadRecords(c, kept);
    WrittenRecords(c, snapshot, kept);
    forall k | 0 <= k < |items| && IsFile(items[k]) ensures Expected(c, items[k], files) {
      EachExpected(c, items, snapshot, kept, k);
    }
    forall path ensures path in FilesOf(items).Keys <==> path in Elements(Paths(files)) {
      SavedKeys(items, snapshot, kept, path);
      RecordedPaths(c, snapshot, kept, path);
    }
    assert FilesOf(items).Keys == Elements(Paths(files));
    DistinctCount(Paths(files));
  }

  ghost predicate IsFolder(kept: seq<Walked>, path: string) {
    exists i :: 0 <= i < |kept| && kept[i].kind == Directory && path == UploadName(kept[i])
  }

  lemma SavedFolders(items: seq<Item>, snapshot: Bytes, kept: seq<Walked>, path: string)
    requires IsItems(items, snapshot, kept) && IsKept(kept)
    ensures path in DirectoriesOf(items) + {UPLOADS_NAME} <==> path == UPLOADS_NAME || IsFolder(kept, path)
  {
    DirectoriesOfMembers(items, path);
    if k :| 0 <= k < |items| && IsDirectory(items[k]) && items[k].name == path {
      IsFileExactly(items, snapshot, kept, k);
      if 2 <= k < |kept| + 2 { assert items[k - 2 + 2] == Item(UploadName(kept[k - 2]), UploadEntry(kept[k - 2])); }
    }
    if i :| 0 <= i < |kept| && kept[i].kind == Directory && path == UploadName(kept[i]) {
      assert items[i + 2] == Item(path, DirectoryEntry(path)) && path[0] == 'u' && MANIFEST_NAME[0] == 'm';
      assert (path + "/")[|path|] == '/';
    }
  }

  // ---- A backup that is written and then refused ------------------------------------------------

  /** An extension ends as its name does. */
  lemma ExtensionEnds(name: string)
    requires name != ""
    ensures Extension(name) == "" || Extension(name)[|Extension(name)| - 1] == name[|name| - 1]
  {
  }

  lemma PictureEnds(kind: string, filename: string)
    requires AllowedFile(kind, filename)
    ensures filename != "" && LowerChar(filename[|filename| - 1]) == 'g'
  {
    ExtensionEnds(filename);
    var extension := Extension(filename);
    assert Lower(extension) == ".png" || Lower(extension) == ".jpg";
    assert |extension| == 4 && Lower(extension)[3] == LowerChar(extension[3]);
  }

  lemma ThreePartsEnd(name: string)
    requires |Split(name)| == 3 && Split(name)[2] != ""
    ensures var last := Split(name)[2]; name != "" && name[|name| - 1] == last[|last| - 1]
  {
    JoinSplit(name);
    var parts := Split(name);
    assert parts[1..][1..] == [parts[2]];
    assert Join(parts[1..]) == parts[1] + "/" + parts[2];
  }

  /** Every upload that a restore allows ends in a g: it is a PNG or a JPG picture. */
  lemma AllowedUploadsEnd(name: string)
    requires name !in [DATABASE, MANIFEST_NAME] && AllowedPath(name, false)
    ensures name != "" && LowerChar(name[|name| - 1]) == 'g'
  {
    var parts := Split(name);
    PictureEnds(parts[1], parts[2]);
    ThreePartsEnd(name);
  }

  function GifWalk(): seq<Walked> { [Walked("logos", Directory, []), Walked("logos/a.gif", Regular, [])] }

  lemma GifIsKept()
    ensures IsWalk(GifWalk()) && Kept(GifWalk()) == GifWalk() && IsKept(GifWalk())
  {
    var tree := GifWalk();
    assert tree[..1][..0] == [];
    assert Kept(tree[..1]) == tree[..1];
    assert tree[1].relative[|tree[1].relative| - 1] == 'f' && tree[0].relative[|tree[0].relative| - 1] == 's';
  }

  lemma GifIsNotAllowed()
    ensures !AllowedPath("uploads/logos/a.gif", false)
  {
    var name := "uploads/logos/a.gif";
    assert name[|name| - 1] == 'f' && name[0] == 'u';
    if AllowedPath(name, false) { AllowedUploadsEnd(name); }
  }

  /** One upload under a name that is not allowed is written, and spoils the archive. */
  lemma UploadIsRefused(c: Codec, snapshot: Bytes, kept: seq<Walked>, origin: Origin, m: Manifest, i: nat)
    requires i < |kept| && kept[i].kind == Regular && IsRelative(kept[i].relative)
    requires !AllowedPath(UploadName(kept[i]), false)
    ensures var archive := Archived(c, snapshot, kept, origin);
            && |archive| == |kept| + 3 && archive[i + 2] == FileEntry(UploadName(kept[i]), kept[i].data)
            && !Acceptable(c, archive, m)
  {
    var archive := Archived(c, snapshot, kept, origin);
    ArchivedAt(c, snapshot, kept, origin);
    UploadCheck(kept[i]);
    assert !CheckAll(archive)[i + 2].allowed;
  }

  lemma GifName()
    ensures var gif := GifWalk()[1];
            gif.kind == Regular && gif.data == [] && IsRelative(gif.relative) &&
            UploadName(gif) == "uploads/logos/a.gif"
  {
    assert GifWalk()[1].relative[10] == 'f';
  }

  /** A GIF among the uploads goes into the archive, and no restore accepts that archive. */
  lemma GifIsWrittenAndRefused(c: Codec, snapshot: Bytes, origin: Origin, m: Manifest)
    ensures IsWalk(GifWalk())
    ensures var archive := Archived(c, snapshot, Kept(GifWalk()), origin);
            |archive| == 5 && archive[3] == FileEntry("uploads/logos/a.gif", []) && !Acceptable(c, archive, m)
  {
    GifIsKept();
    GifIsNotAllowed();
    GifName();
    UploadIsRefused(c, snapshot, GifWalk(), origin, m, 1);
  }

  // ---- Photos --------------------------------------------------------------------------------------

  function PhotoWalk(kind: string, data: Bytes): seq<Walked> {
    [Walked(kind, Directory, []), Walked(kind + "/" + PHOTO, Regular, data)]
  }

  lemma PhotoIsKept(kind: string, data: Bytes)
    requires kind in ["backgrounds", "logos", "site"]
    ensures IsWalk(PhotoWalk(kind, data)) && Kept(PhotoWalk(kind, data)) == PhotoWalk(kind, data)
    ensures IsKept(PhotoWalk(kind, data)) && UploadSize(PhotoWalk(kind, data)) == |data|
  {
    var tree := PhotoWalk(kind, data);
    assert tree[..1][..0] == [];
    assert Kept(tree[..1]) == tree[..1] && UploadSize(tree[..1]) == 0;
    assert tree[1].relative[|tree[1].relative| - 1] == 'g' && kind[|kind| - 1] != '/';
  }

  const PHOTO := "photo.jpg"

  lemma PhotoIsPicture(kind: string)
    requires kind in ["backgrounds", "logos", "site"]
    ensures IsPicture(kind, PHOTO) <==> kind == "backgrounds"
  {
    assert EndsJpg(PHOTO) && !EndsPng(PHOTO);
    assert forall i :: 0 <= i < |PHOTO| ==> IsPermitted(PHOTO[i]);
  }

  lemma PhotoUploadNames(kind: string, data: Bytes)
    ensures var tree := PhotoWalk(kind, data);
            UploadName(tree[0]) == "uploads/" + kind && UploadName(tree[1]) == "uploads/" + kind + "/" + PHOTO
  {
    assert "uploads/" + (kind + "/" + PHOTO) == "uploads/" + kind + "/" + PHOTO;
  }

  lemma KindIsDirectory(kind: string)
    requires kind in ["backgrounds", "logos", "site"]
    ensures AllowedPath("uploads/" + kind, true)
  {
    var path := "uploads/" + kind;
    assert kind == "backgrounds" ==> path == "uploads/backgrounds";
    assert kind == "logos" ==> path == "uploads/logos";
    assert kind == "site" ==> path == "uploads/site";
    AllowedPathExactly(path);
  }

  lemma PhotoNamesAllowed(kind: string, data: Bytes)
    requires kind in ["backgrounds", "logos", "site"]
    ensures NamesAllowed(PhotoWalk(kind, data)) <==> kind == "backgrounds"
  {
    var tree := PhotoWalk(kind, data);
    PhotoUploadNames(kind, data);
    UploadAllowedExactly(kind, PHOTO);
    PhotoIsPicture(kind);
    KindIsDirectory(kind);
    assert NamesAllowed(tree) <==> AllowedPath(UploadName(tree[1]), false);
  }

  lemma PhotoNamesDistinct(kind: string, data: Bytes)
    ensures NamesDistinct(PhotoWalk(kind, data))
  {
    var tree := PhotoWalk(kind, data);
    PhotoUploadNames(kind, data);
    var a, b := UploadName(tree[0]), UploadName(tree[1]);
    assert |Lower(a)| == |a| < |b| == |Lower(b)|;
  }

  /** A JPEG among the uploads can be restored exactly if it is a background. */
  lemma PhotoRestoredExactly(c: Codec, snapshot: Bytes, origin: Origin, kind: string, data: Bytes)
    requires c.Lawful() && kind in ["backgrounds", "logos", "site"]
    requires origin.applicationVersion != "" && origin.createdAt != 0
    ensures var tree := PhotoWalk(kind, data);
            var m := ManifestOf(c, snapshot, Kept(tree), origin);
            |c.encode(m)| <= MAX_MANIFEST && |snapshot| + |data| + |c.encode(m)| <= MAX_EXTRACTED ==>
              (Acceptable(c, Archived(c, snapshot, Kept(tree), origin), m) <==> kind == "backgrounds")
  {
    var tree := PhotoWalk(kind, data);
    PhotoIsKept(kind, data);
    PhotoNamesAllowed(kind, data);
    PhotoNamesDistinct(kind, data);
    BackupAccepted(c, snapshot, tree, origin, ManifestOf(c, snapshot, tree, origin));
  }
}
