/** Extracting an inspected archive against its manifest. */
module ArchiveExtract {
  import opened Strings
  import opened Sets
  import opened Archive
  import opened ArchiveNames
  import opened Optional

  /** The extracted files by path, and the directories. */
  datatype Extracted = Extracted(files: map<string, Bytes>, directories: set<string>)

  predicate IsFile(item: Item) { item.name != MANIFEST_NAME && !item.entry.IsDir() }

  /** What reaches the disk: at most one byte more than the limit. */
  function Written(e: Entry): Bytes {
    if |e.data| > MAX_EXTRACTED + 1 then e.data[..MAX_EXTRACTED + 1] else e.data
  }

  predicate Matches(c: Codec, e: Entry, f: FileIntegrity) {
    && e.Readable() && |Written(e)| == f.size && |Written(e)| == e.declared
    && Lower(c.digest(Written(e))) == Lower(f.sha256)
  }

  /** A file that passed inspection matches its record exactly if it is as long as both say and has the
      recorded digest, in letters of either case; then all its bytes are written. */
  lemma MatchesExactly(c: Codec, e: Entry, f: FileIntegrity)
    requires e.declared <= MAX_EXTRACTED
    ensures Matches(c, e, f) <==>
            && |e.data| == e.declared == f.size && |c.digest(e.data)| == |f.sha256|
            && forall i :: 0 <= i < |f.sha256| ==> SameLetter(c.digest(e.data)[i], f.sha256[i])
    ensures Matches(c, e, f) ==> Written(e) == e.data
  {
    CollideExactly(c.digest(e.data), f.sha256);
    if |e.data| == e.declared { assert Written(e) == e.data; }
  }

  predicate UsableRecord(f: FileIntegrity) {
    f.path != MANIFEST_NAME && f.size >= 0 && |f.sha256| == DIGEST_LENGTH
  }

  function Paths(files: seq<FileIntegrity>): seq<string> {
    seq(|files|, i requires 0 <= i < |files| => files[i].path)
  }

  ghost predicate UsableManifest(files: seq<FileIntegrity>) {
    NoDuplicates(Paths(files)) && forall i :: 0 <= i < |files| ==> UsableRecord(files[i])
  }

  ghost predicate Expected(c: Codec, item: Item, files: seq<FileIntegrity>) {
    exists i :: 0 <= i < |files| && files[i].path == item.name && Matches(c, item.entry, files[i])
  }

  function FilesOf(items: seq<Item>): map<string, Bytes> {
    if items == [] then map[]
    else
      var last := items[|items| - 1];
      var before := FilesOf(items[..|items| - 1]);
      if IsFile(last) then before[last.name := Written(last.entry)] else before
  }

  function DirectoriesOf(items: seq<Item>): set<string> {
    if items == [] then {}
    else
      var last := items[|items| - 1];
      DirectoriesOf(items[..|items| - 1]) + (if IsDirectory(last) then {last.name} else {})
  }

  /** Every file is recorded and matches its record, and no record is left over. */
  ghost predicate Extractable(c: Codec, items: seq<Item>, files: seq<FileIntegrity>) {
    && UsableManifest(files)
    && (forall i :: 0 <= i < |items| && IsFile(items[i]) ==> Expected(c, items[i], files))
    && |FilesOf(items).Keys| == |files|
  }

  lemma {:induction false} FilesOfKeys(items: seq<Item>)
    ensures forall name :: name in FilesOf(items) <==>
            exists i :: 0 <= i < |items| && IsFile(items[i]) && items[i].name == name
  {
    if items != [] {
      var last := |items| - 1;
      FilesOfKeys(items[..last]);
      forall name
        ensures name in FilesOf(items) <==> exists i :: 0 <= i < |items| && IsFile(items[i]) && items[i].name == name
      {
        if i :| 0 <= i < last && IsFile(items[i]) && items[i].name == name { assert items[..last][i] == items[i]; }
        if i :| 0 <= i < last && IsFile(items[..last][i]) && items[..last][i].name == name {
          assert items[i].name == name;
        }
      }
    }
  }

  predicate IsDirectory(item: Item) { item.name != MANIFEST_NAME && item.entry.IsDir() }

  lemma {:induction false} DirectoriesOfMembers(items: seq<Item>, name: string)
    ensures name in DirectoriesOf(items) <==>
            exists i :: 0 <= i < |items| && IsDirectory(items[i]) && items[i].name == name
  {
    if items != [] {
      var last := |items| - 1;
      DirectoriesOfMembers(items[..last], name);
      assert forall i :: 0 <= i < last ==> items[..last][i] == items[i];
    }
  }

  ghost predicate DistinctItems(items: seq<Item>) {
    forall i, j :: 0 <= i < j < |items| ==> items[i].name != items[j].name
  }

  lemma {:induction false} FilesOfAt(items: seq<Item>, i: nat)
    requires DistinctItems(items) && i < |items| && IsFile(items[i])
    ensures items[i].name in FilesOf(items) && FilesOf(items)[items[i].name] == Written(items[i].entry)
  {
    var last := |items| - 1;
    if i < last { FilesOfAt(items[..last], i); }
  }

  /** Succeeds exactly on extractable archives; the caller has checked that names are distinct,
      so no file is written twice. */
  method Extract(c: Codec, items: seq<Item>, files: seq<FileIntegrity>) returns (r: Option<Extracted>)
    requires DistinctItems(items)
    ensures r.Some? <==> Extractable(c, items, files)
    ensures r.Some? ==> r.value == Extracted(FilesOf(items), DirectoriesOf(items) + {UPLOADS_NAME})
  {
    var expected := ReadRecords(files);
    if expected == None { return None; }
    var verified: set<string> := {};
    var output: map<string, Bytes> := map[];
    var directories: set<string> := {};
    for n := 0 to |items|
      invariant verified == output.Keys && output == FilesOf(items[..n]) && directories == DirectoriesOf(items[..n])
      invariant forall i :: 0 <= i < n && IsFile(items[i]) ==> Expected(c, items[i], files)
    {
      var item := items[n];
      assert items[..n + 1][..n] == items[..n];
      if item.name == MANIFEST_NAME { continue; }
      if item.entry.IsDir() {
        directories := directories + {item.name};
        continue;
      }
      assert IsFile(item);
      if item.name !in expected.value { return None; }
      var index := expected.value[item.name];
      if !Matches(c, item.entry, files[index]) {
        NotExpected(c, item, files, index);
        return None;
      }
      output := output[item.name := Written(item.entry)];
      verified := verified + {item.name};
    }
    assert items[..|items|] == items;
    RecordCount(files, expected.value);
    if |verified| != |expected.value| { return None; }
    r := Some(Extracted(output, directories + {UPLOADS_NAME}));
  }

  /** Each path leads to its record. */
  ghost predicate IsRecordMap(files: seq<FileIntegrity>, n: nat, expected: map<string, nat>)
    requires n <= |files|
  {
    && (forall path :: path in expected ==> expected[path] < n && files[expected[path]].path == path)
    && (forall i :: 0 <= i < n ==> files[i].path in expected && expected[files[i].path] == i)
  }

  /** The records by path, unless one is unusable or a path is recorded twice. */
  method ReadRecords(files: seq<FileIntegrity>) returns (r: Option<map<string, nat>>)
    ensures r.Some? <==> UsableManifest(files)
    ensures r.Some? ==> IsRecordMap(files, |files|, r.value)
  {
    var expected: map<string, nat> := map[];
    for n := 0 to |files|
      invariant IsRecordMap(files, n, expected)
      invariant forall i :: 0 <= i < n ==> UsableRecord(files[i])
      invariant forall i, j :: 0 <= i < j < n ==> files[i].path != files[j].path
    {
      var file := files[n];
      if file.path in expected || !UsableRecord(file) {
        assert file.path in expected ==> Paths(files)[expected[file.path]] == Paths(files)[n];
        return None;
      }
      expected := expected[file.path := n];
    }
    r := Some(expected);
  }

  lemma NotExpected(c: Codec, item: Item, files: seq<FileIntegrity>, index: nat)
    requires UsableManifest(files) && index < |files| && files[index].path == item.name
    requires !Matches(c, item.entry, files[index])
    ensures !Expected(c, item, files)
  {
    forall i | 0 <= i < |files| && files[i].path == item.name ensures i == index {
      assert Paths(files)[i] == Paths(files)[index];
    }
  }

  lemma RecordCount(files: seq<FileIntegrity>, expected: map<string, nat>)
    requires UsableManifest(files) && IsRecordMap(files, |files|, expected)
    ensures |expected| == |files|
  {
    DistinctCount(Paths(files));
    assert expected.Keys == Elements(Paths(files)) by {
      forall path ensures path in expected.Keys <==> path in Elements(Paths(files)) {
        if path in expected { assert Paths(files)[expected[path]] == path; }
        if path in Paths(files) {
          var i :| 0 <= i < |files| && Paths(files)[i] == path;
          assert files[i].path in expected;
        }
      }
    }
  }

  lemma ExtractedPaths(c: Codec, items: seq<Item>, files: seq<FileIntegrity>)
    requires Extractable(c, items, files)
    ensures FilesOf(items).Keys == Elements(Paths(files))
  {
    FilesOfKeys(items);
    DistinctCount(Paths(files));
    forall name | name in FilesOf(items) ensures name in Elements(Paths(files)) {
      var i :| 0 <= i < |items| && IsFile(items[i]) && items[i].name == name;
      assert Expected(c, items[i], files);
      var k :| 0 <= k < |files| && files[k].path == name && Matches(c, items[i].entry, files[k]);
      assert Paths(files)[k] == name;
    }
    SubsetOfSameSize(FilesOf(items).Keys, Elements(Paths(files)));
  }

  ghost predicate Holds(c: Codec, extracted: map<string, Bytes>, f: FileIntegrity) {
    && f.path in extracted && |extracted[f.path]| == f.size
    && Lower(c.digest(extracted[f.path])) == Lower(f.sha256)
  }

  /** What is expected of a file is what the one record of its path says. */
  lemma ExpectedAt(c: Codec, item: Item, files: seq<FileIntegrity>, i: nat)
    requires NoDuplicates(Paths(files)) && Expected(c, item, files) && i < |files| && files[i].path == item.name
    ensures Matches(c, item.entry, files[i])
  {
    var r :| 0 <= r < |files| && files[r].path == item.name && Matches(c, item.entry, files[r]);
    assert Paths(files)[r] == Paths(files)[i];
  }

  lemma FileForPath(items: seq<Item>, name: string) returns (k: nat)
    requires name in FilesOf(items)
    ensures k < |items| && IsFile(items[k]) && items[k].name == name
  {
    FilesOfKeys(items);
    k :| 0 <= k < |items| && IsFile(items[k]) && items[k].name == name;
  }

  lemma FileForRecord(c: Codec, items: seq<Item>, files: seq<FileIntegrity>, i: nat) returns (k: nat)
    requires Extractable(c, items, files) && i < |files|
    ensures k < |items| && IsFile(items[k]) && items[k].name == files[i].path && Matches(c, items[k].entry, files[i])
  {
    ExtractedPaths(c, items, files);
    assert Paths(files)[i] in Elements(Paths(files));
    k := FileForPath(items, files[i].path);
    ExpectedAt(c, items[k], files, i);
  }

  lemma ExtractedRecord(c: Codec, items: seq<Item>, files: seq<FileIntegrity>, i: nat)
    requires DistinctItems(items) && Extractable(c, items, files) && i < |files|
    ensures Holds(c, FilesOf(items), files[i])
  {
    var k := FileForRecord(c, items, files, i);
    FilesOfAt(items, k);
  }

  /** An archive that is extracted is exact: its files are the recorded paths one to one, each of
      the recorded size and digest. */
  lemma ExtractedIsExact(c: Codec, items: seq<Item>, files: seq<FileIntegrity>)
    requires DistinctItems(items) && Extractable(c, items, files)
    ensures FilesOf(items).Keys == Elements(Paths(files)) && |FilesOf(items).Keys| == |files|
    ensures forall i :: 0 <= i < |files| ==> Holds(c, FilesOf(items), files[i])
  {
    ExtractedPaths(c, items, files);
    forall i | 0 <= i < |files| ensures Holds(c, FilesOf(items), files[i]) {
      ExtractedRecord(c, items, files, i);
    }
  }

  /** What inspection accepts has distinct clean names. */
  lemma AcceptedItemsDistinct(items: seq<Item>, checks: seq<Checked>)
    requires WellFormed(checks) && FoldedOk(checks) && |checks| == |items|
    requires forall i :: 0 <= i < |items| ==> checks[i].clean == items[i].name
    ensures DistinctItems(items)
  {
    forall i, j | 0 <= i < j < |items| ensures items[i].name != items[j].name {
      assert checks[i].folded != checks[j].folded;
    }
  }
}
