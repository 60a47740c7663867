/** Writing a backup archive, and which backups can be restored. */
module Backup {
  import opened Strings
  import opened Archive

  datatype Kind = Directory | Regular | Other   // "other": links, sockets and the like

  /** One step of the walk over the uploads; `relative` uses forward slashes. */
  datatype Walked = Walked(relative: string, kind: Kind, data: Bytes)

  /** What the process adds to the manifest. */
  datatype Origin = Origin(applicationVersion: string, schemaVersion: int, createdAt: int)

  /** A walk reports a path relative to its root, which is not reported itself. */
  ghost predicate IsWalk(tree: seq<Walked>) {
    forall i :: 0 <= i < |tree| ==> IsRelative(tree[i].relative)
  }

  predicate IsRelative(relative: string) {
    relative != "" && relative[|relative| - 1] != '/'
  }

  function UploadName(w: Walked): string { "uploads/" + w.relative }

  function FileEntry(name: string, data: Bytes): Entry { Entry(name, false, |data|, data) }

  function DirectoryEntry(name: string): Entry { Entry(name + "/", false, 0, []) }

  function UploadEntry(w: Walked): Entry {
    if w.kind == Directory then DirectoryEntry(UploadName(w)) else FileEntry(UploadName(w), w.data)
  }

  function Record(c: Codec, name: string, data: Bytes): FileIntegrity { FileIntegrity(name, |data|, c.digest(data)) }

  /** The files and directories, in walk order. */
  function Kept(tree: seq<Walked>): seq<Walked> {
    if tree == [] then []
    else
      var last := tree[|tree| - 1];
      Kept(tree[..|tree| - 1]) + if last.kind == Other then [] else [last]
  }

  function UploadEntries(kept: seq<Walked>): seq<Entry> {
    seq(|kept|, i requires 0 <= i < |kept| => UploadEntry(kept[i]))
  }

  function UploadRecords(c: Codec, kept: seq<Walked>): seq<FileIntegrity> {
    if kept == [] then []
    else
      var last := kept[|kept| - 1];
      UploadRecords(c, kept[..|kept| - 1]) +
      if last.kind == Regular then [Record(c, UploadName(last), last.data)] else []
  }

  function ManifestOf(c: Codec, snapshot: Bytes, kept: seq<Walked>, origin: Origin): Manifest {
    Manifest(MANIFEST_FORMAT, MANIFEST_VERSION, origin.applicationVersion, origin.schemaVersion, origin.createdAt,
             [Record(c, DATABASE, snapshot)] + UploadRecords(c, kept))
  }

  function Body(snapshot: Bytes, kept: seq<Walked>): seq<Entry> {
    [FileEntry(DATABASE, snapshot), DirectoryEntry(UPLOADS_NAME)] + UploadEntries(kept)
  }

  function Archived(c: Codec, snapshot: Bytes, kept: seq<Walked>, origin: Origin): seq<Entry> {
    Body(snapshot, kept) + [FileEntry(MANIFEST_NAME, c.encode(ManifestOf(c, snapshot, kept, origin)))]
  }

  /** The database, the uploads in walk order, and the manifest that records each file. */
  method WriteArchive(c: Codec, snapshot: Bytes, tree: seq<Walked>, origin: Origin) returns (archive: seq<Entry>)
    ensures archive == Archived(c, snapshot, Kept(tree), origin)
  {
    archive := [FileEntry(DATABASE, snapshot)];
    var manifest := Manifest(MANIFEST_FORMAT, MANIFEST_VERSION, origin.applicationVersion, origin.schemaVersion,
                             origin.createdAt, [Record(c, DATABASE, snapshot)]);
    archive := archive + [DirectoryEntry(UPLOADS_NAME)];
    for n := 0 to |tree|
      invariant archive == Body(snapshot, Kept(tree[..n]))
      invariant manifest == ManifestOf(c, snapshot, Kept(tree[..n]), origin)
    {
      var entry := tree[n];
      assert tree[..n + 1][..n] == tree[..n];
      ghost var kept := Kept(tree[..n]);
      assert Kept(tree[..n + 1]) == if entry.kind == Other then kept else kept + [entry];
      match entry.kind {
        case Directory =>
          BodyStep(c, snapshot, kept, entry, origin);
          archive := archive + [DirectoryEntry(UploadName(entry))];
        case Regular =>
          BodyStep(c, snapshot, kept, entry, origin);
          archive := archive + [FileEntry(UploadName(entry), entry.data)];
          manifest := manifest.(files := manifest.files + [Record(c, UploadName(entry), entry.data)]);
        case Other =>
      }
    }
    assert tree[..|tree|] == tree;
    archive := archive + [FileEntry(MANIFEST_NAME, c.encode(manifest))];
  }

  lemma BodyStep(c: Codec, snapshot: Bytes, kept: seq<Walked>, next: Walked, origin: Origin)
    ensures Body(snapshot, kept + [next]) == Body(snapshot, kept) + [UploadEntry(next)]
    ensures var before := ManifestOf(c, snapshot, kept, origin);
            ManifestOf(c, snapshot, kept + [next], origin) ==
              if next.kind != Regular then before
              else before.(files := before.files + [Record(c, UploadName(next), next.data)])
  {
    assert (kept + [next])[..|kept|] == kept;
    var records := [Record(c, DATABASE, snapshot)];
    if next.kind == Regular {
      assert records + UploadRecords(c, kept + [next]) ==
        records + UploadRecords(c, kept) + [Record(c, UploadName(next), next.data)];
    }
    assert UploadEntries(kept + [next]) == UploadEntries(kept) + [UploadEntry(next)];
  }

  lemma {:induction false} KeptMembers(tree: seq<Walked>)
    ensures forall w :: w in Kept(tree) <==> w in tree && w.kind != Other
  {
    if tree != [] {
      var last := |tree| - 1;
      KeptMembers(tree[..last]);
      forall w ensures w in Kept(tree) <==> w in tree && w.kind != Other {
        assert tree == tree[..last] + [tree[last]];
      }
    }
  }

  lemma {:induction false} UploadRecordsExactly(c: Codec, kept: seq<Walked>)
    ensures forall f :: f in UploadRecords(c, kept) <==>
              exists w :: w in kept && w.kind == Regular &&
                          f == FileIntegrity("uploads/" + w.relative, |w.data|, c.digest(w.data))
  {
    if kept != [] {
      var last := |kept| - 1;
      UploadRecordsExactly(c, kept[..last]);
      assert kept == kept[..last] + [kept[last]];
    }
  }

  /** The manifest names its format, what the process adds, and every file with its size and digest. */
  lemma ManifestRecordsExactly(c: Codec, snapshot: Bytes, kept: seq<Walked>, origin: Origin)
    ensures var m := ManifestOf(c, snapshot, kept, origin);
            && m.format == "iiiu-nav-backup" && m.version == 1 && m.createdAt == origin.createdAt
            && m.applicationVersion == origin.applicationVersion && m.schemaVersion == origin.schemaVersion
            && forall f :: f in m.files <==>
                 f == FileIntegrity("nav.db", |snapshot|, c.digest(snapshot)) ||
                 exists w :: w in kept && w.kind == Regular &&
                             f == FileIntegrity("uploads/" + w.relative, |w.data|, c.digest(w.data))
  {
    UploadRecordsExactly(c, kept);
  }

  // ---- Names ----------------------------------------------------------------------------------

  lemma CleanOne(name: string)
    requires '/' !in name && name !in ["", ".", ".."]
    ensures Clean(name) == name
  {
    SplitPlain(name);
    CleanPlain(name);
  }

  lemma CleanTwo(a: string, b: string)
    requires '/' !in a && '/' !in b && a !in ["", ".", ".."] && b !in ["", ".", ".."]
    ensures Clean(a + "/" + b) == a + "/" + b
  {
    SplitTwo(a, b);
    CleanPlain(a + "/" + b);
  }

  lemma ThreeParts(name: string)
    requires |Split(name)| == 3
    ensures var parts := Split(name);
            name == parts[0] + "/" + (parts[1] + "/" + parts[2]) &&
            forall c :: c in name ==> c in parts[0] || c == '/' || c in parts[1] || c in parts[2]
  {
    JoinSplit(name);
    var parts := Split(name);
    var tail := parts[1..];
    assert Join(parts) == parts[0] + "/" + Join(tail) && Join(tail) == parts[1] + "/" + Join(tail[1..]);
    assert tail[1..] == [parts[2]];
  }

  /** The name of an allowed file is already clean. */
  lemma AllowedFileIsSafe(name: string)
    requires StartsWith(name, "uploads/") && AllowedPath(name, false)
    ensures Clean(name) == name && SafeName(name) && KnownName(name)
  {
    var parts := Split(name);
    assert name != DATABASE && name != MANIFEST_NAME;
    assert parts[1] in ["backgrounds", "logos", "site"];
    CleanPlain(name);
    ThreeParts(name);
    forall c | c in name ensures c != '\\' {
      assert c in parts[0] || c == '/' || c in parts[1] || c in parts[2];
    }
    assert name[0] == 'u';
  }

  lemma SafeDirectory(name: string)
    requires Clean(name) == name && name != "" && '\\' !in name && name[0] != '/' && name[0] != '.'
    ensures Clean(name + "/") == name && SafeName(name + "/")
  {
    CleanTrailing(name);
    assert (name + "/")[0] == name[0];
  }

  ghost predicate SafeUploads(name: string) {
    Clean(name + "/") == name && SafeName(name + "/") && KnownName(name)
  }

  /** One plain part of a path. */
  ghost predicate IsPart(b: string) {
    '/' !in b && '\\' !in b && b !in ["", ".", ".."]
  }

  lemma SubdirectoryIsSafe(b: string, name: string)
    requires IsPart(b) && name == "uploads/" + b
    ensures SafeUploads(name)
  {
    CleanTwo("uploads", b);
    assert "uploads" + "/" + b == name;
    SafeDirectory(name);
  }

  lemma RootIsSafe()
    ensures SafeUploads("uploads")
  {
    CleanOne("uploads");
    SafeDirectory("uploads");
  }

  lemma KnownSubdirectory(name: string) returns (b: string)
    requires name in UPLOAD_DIRECTORIES && name != "uploads"
    ensures name == "uploads/" + b && IsPart(b)
  {
    b := name[8..];
  }

  lemma DirectoryIsSafe(name: string)
    requires name in UPLOAD_DIRECTORIES
    ensures SafeUploads(name)
  {
    if name == "uploads" {
      RootIsSafe();
    } else {
      var b := KnownSubdirectory(name);
      SubdirectoryIsSafe(b, name);
    }
  }

  lemma {:induction false} SplitTwo(a: string, b: string)
    requires '/' !in a && '/' !in b
    ensures Split(a + "/" + b) == [a, b]
  {
    if a == "" {
      assert a + "/" + b == "/" + b && ("/" + b)[1..] == b;
      SplitPlain(b);
    } else {
      assert a[0] in a && forall c :: c in a[1..] ==> c in a;
      SplitTwo(a[1..], b);
      assert (a + "/" + b)[1..] == a[1..] + "/" + b && (a + "/" + b)[0] == a[0];
      assert [a[0]] + a[1..] == a;
    }
  }

  /** A file entry is accepted exactly if its path is allowed. */
  lemma FileEntryAllowed(name: string, data: Bytes)
    requires StartsWith(name, "uploads/") && name[|name| - 1] != '/'
    ensures EntryAllowed(FileEntry(name, data)) <==> AllowedPath(name, false)
    ensures AllowedPath(name, false) ==> Clean(name) == name
  {
    if AllowedPath(name, false) { AllowedFileIsSafe(name); }
    assert (Clean(name) + "/")[|Clean(name)|] == '/';
  }

  /** A directory entry is accepted exactly if it is one of the known directories. */
  lemma DirectoryEntryAllowed(name: string)
    requires StartsWith(name, "uploads/")
    ensures EntryAllowed(Entry(name + "/", false, 0, [])) <==> AllowedPath(name, true)
    ensures AllowedPath(name, true) ==> Clean(name + "/") == name
  {
    if AllowedPath(name, true) { DirectoryIsSafe(name); }
    if SafeName(name + "/") && AllowedPath(Clean(name + "/"), true) { AllowedFolder(name); }
  }

  lemma NoSlashAtEnd(directory: string)
    requires directory in UPLOAD_DIRECTORIES
    ensures directory[|directory| - 1] != '/'
  {
  }

  lemma AllowedFolder(name: string)
    requires SafeName(name + "/") && AllowedPath(Clean(name + "/"), true)
    ensures Clean(name + "/") == name
  {
    var clean := Clean(name + "/");
    NoSlashAtEnd(clean);
    assert (name + "/")[|name|] == '/' && (name + "/")[..|name|] == name;
    assert (clean + "/")[..|clean|] == clean;
  }
}
