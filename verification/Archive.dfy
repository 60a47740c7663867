/** Backup archives: writing them, and inspecting and extracting them for a restore. */
module Archive {
  import opened Optional
  import opened Strings

  type Bytes = seq<bv8>

  /** A ZIP entry. A name that ends in a slash is a directory whatever its attributes say. */
  datatype Entry = Entry(name: string, directoryFlag: bool, declared: nat, data: Bytes) {
    predicate IsDir() { directoryFlag || (name != "" && name[|name| - 1] == '/') }

    /** The archive reader reports an error when an entry is not as long as it declares. */
    predicate Readable() { |data| == declared }
  }

  datatype FileIntegrity = FileIntegrity(path: string, size: int, sha256: string)
  datatype Manifest = Manifest(
    format: string, version: int, applicationVersion: string, schemaVersion: int, createdAt: int,
    files: seq<FileIntegrity>)

  datatype Error = Invalid | TooLarge | Incompatible
  datatype Result<+T> = Ok(value: T) | Err(error: Error)

  /** JSON and SHA-256, kept abstract. */
  datatype Codec = Codec(encode: Manifest -> Bytes, decode: Bytes -> Option<Manifest>, digest: Bytes -> string) {
    ghost predicate Lawful() {
      && (forall m: Manifest :: decode(encode(m)) == Some(m))
      && (forall b: Bytes :: |digest(b)| == DIGEST_LENGTH)
    }
  }

  const DIGEST_LENGTH := 64
  const MANIFEST_FORMAT := "iiiu-nav-backup"
  const MANIFEST_VERSION := 1
  const MAX_EXTRACTED := 536870912
  const MAX_MANIFEST := 1048576

  const DATABASE := "nav.db"
  const MANIFEST_NAME := "manifest.json"
  const UPLOADS_NAME := "uploads"

  // ---- Allowed names ------------------------------------------------------------------------

  predicate IsNameChar(c: char) {
    'a' <= c <= 'z' || 'A' <= c <= 'Z' || '0' <= c <= '9' || c == '-' || c == '_' || c == '.'
  }

  /** `filepath.Ext`: from the last dot on. */
  function Extension(name: string): string {
    if name == "" then ""
    else if name[|name| - 1] == '.' then "."
    else
      var before := Extension(name[..|name| - 1]);
      if before == "" then "" else before + [name[|name| - 1]]
  }

  predicate AllowedFile(kind: string, filename: string) {
    var extension := Lower(Extension(filename));
    && filename != "" && filename[0] != '.'
    && ((kind == "backgrounds" && extension in [".png", ".jpg"]) || (kind in ["logos", "site"] && extension == ".png"))
    && forall c :: c in filename ==> IsNameChar(c)
  }

  const UPLOAD_DIRECTORIES := ["uploads", "uploads/logos", "uploads/backgrounds", "uploads/site"]

  predicate AllowedPath(name: string, directory: bool) {
    if name == DATABASE || name == MANIFEST_NAME then !directory
    else if name in UPLOAD_DIRECTORIES then directory
    else
      var parts := Split(name);
      !directory && |parts| == 3 && parts[0] == "uploads" && AllowedFile(parts[1], parts[2])
  }

  predicate StartsWith(s: string, prefix: string) { prefix <= s }

  /** Relative, free of backslashes, and already clean up to a trailing slash. */
  predicate SafeName(name: string) {
    && name != "" && '\\' !in name && name[0] != '/'
    && Clean(name) != "." && Clean(name) != ".." && !StartsWith(Clean(name), "../")
    && (name == Clean(name) || name == Clean(name) + "/")
  }

  predicate KnownName(clean: string) {
    clean == DATABASE || clean == MANIFEST_NAME || clean == UPLOADS_NAME || StartsWith(clean, "uploads/")
  }

  predicate EntryAllowed(e: Entry) {
    SafeName(e.name) && KnownName(Clean(e.name)) && AllowedPath(Clean(e.name), e.IsDir())
  }

  // ---- Inspection ---------------------------------------------------------------------------

  /** What inspection looks at in one entry. */
  datatype Checked = Checked(allowed: bool, clean: string, folded: string, size: nat)

  function Check(e: Entry): Checked {
    Checked(EntryAllowed(e), Clean(e.name), Lower(Clean(e.name)), if e.IsDir() then 0 else e.declared)
  }

  function CheckAll(archive: seq<Entry>): seq<Checked> {
    seq(|archive|, i requires 0 <= i < |archive| => Check(archive[i]))
  }

  function TotalSize(checks: seq<Checked>): nat {
    if checks == [] then 0 else TotalSize(checks[..|checks| - 1]) + checks[|checks| - 1].size
  }

  /** Every entry allowed, no two names equal ignoring case, and not too much in total. */
  ghost predicate WellFormed(checks: seq<Checked>) {
    && (forall i :: 0 <= i < |checks| ==> checks[i].allowed)
    && (forall i, j :: 0 <= i < j < |checks| ==> checks[i].folded != checks[j].folded)
    && TotalSize(checks) <= MAX_EXTRACTED
  }

  ghost predicate HasName(checks: seq<Checked>, clean: string) {
    exists i :: 0 <= i < |checks| && checks[i].clean == clean
  }

  function ReadManifest(c: Codec, e: Entry): Result<Manifest> {
    if e.declared > MAX_MANIFEST || !e.Readable() || c.decode(e.data) == None then Err(Invalid)
    else
      var m := c.decode(e.data).value;
      if m.format != MANIFEST_FORMAT || m.version != MANIFEST_VERSION || m.applicationVersion == "" || m.createdAt == 0
      then Err(Incompatible)
      else Ok(m)
  }

  ghost predicate HasManifest(c: Codec, archive: seq<Entry>, checks: seq<Checked>, m: Manifest)
    requires |checks| == |archive|
  {
    exists i :: 0 <= i < |archive| && checks[i].clean == MANIFEST_NAME && ReadManifest(c, archive[i]) == Ok(m)
  }

  ghost predicate Acceptable(c: Codec, archive: seq<Entry>, m: Manifest) {
    AcceptableBy(c, archive, CheckAll(archive), m)
  }

  ghost predicate AcceptableBy(c: Codec, archive: seq<Entry>, checks: seq<Checked>, m: Manifest) {
    && |checks| == |archive| && WellFormed(checks)
    && HasName(checks, DATABASE) && HasName(checks, UPLOADS_NAME) && HasManifest(c, archive, checks, m)
  }

  ghost predicate FoldedOk(checks: seq<Checked>) {
    forall i :: 0 <= i < |checks| ==> checks[i].folded == Lower(checks[i].clean)
  }

  lemma {:induction false} TotalSizeMonotone(checks: seq<Checked>, n: nat)
    requires n <= |checks|
    ensures TotalSize(checks[..n]) <= TotalSize(checks)
  {
    if n < |checks| {
      TotalSizeMonotone(checks[..|checks| - 1], n);
      assert checks[..|checks| - 1][..n] == checks[..n];
    } else {
      assert checks[..n] == checks;
    }
  }

  lemma PrefixWellFormed(checks: seq<Checked>, n: nat)
    requires n <= |checks| && WellFormed(checks)
    ensures WellFormed(checks[..n])
  {
    TotalSizeMonotone(checks, n);
  }

  /** One more entry is accepted exactly under the three conditions. */
  lemma WellFormedStep(checks: seq<Checked>, n: nat)
    requires n < |checks| && WellFormed(checks[..n])
    ensures WellFormed(checks[..n + 1]) <==>
      && checks[n].allowed
      && (forall i :: 0 <= i < n ==> checks[i].folded != checks[n].folded)
      && TotalSize(checks[..n]) + checks[n].size <= MAX_EXTRACTED
    ensures TotalSize(checks[..n + 1]) == TotalSize(checks[..n]) + checks[n].size
  {
    var next := checks[..n + 1];
    assert next[..n] == checks[..n] && next[n] == checks[n];
    if checks[n].allowed && (forall i :: 0 <= i < n ==> checks[i].folded != checks[n].folded) {
      forall i, j | 0 <= i < j < n + 1 ensures next[i].folded != next[j].folded {
        assert next[i] == checks[..n][i];
        if j < n { assert next[j] == checks[..n][j]; }
      }
      forall i | 0 <= i < n + 1 ensures next[i].allowed {
        if i < n { assert next[i] == checks[..n][i]; }
      }
    }
    if WellFormed(next) {
      forall i | 0 <= i < n ensures checks[i].folded != checks[n].folded { assert next[i].folded != next[n].folded; }
    }
  }

  lemma UniqueManifest(c: Codec, archive: seq<Entry>, checks: seq<Checked>, k: nat, m: Manifest)
    requires |checks| == |archive| && WellFormed(checks) && HasManifest(c, archive, checks, m)
    requires FoldedOk(checks) && k < |archive| && checks[k].clean == MANIFEST_NAME
    ensures ReadManifest(c, archive[k]) == Ok(m)
  {
    var i :| 0 <= i < |archive| && checks[i].clean == MANIFEST_NAME && ReadManifest(c, archive[i]) == Ok(m);
    assert checks[i].folded == checks[k].folded;
  }

  /** An entry under its clean name. */
  datatype Item = Item(name: string, entry: Entry)

  function Items(archive: seq<Entry>): seq<Item> {
    seq(|archive|, i requires 0 <= i < |archive| => Item(Clean(archive[i].name), archive[i]))
  }

  lemma ItemsStep(archive: seq<Entry>, n: nat)
    requires n < |archive|
    ensures Items(archive)[..n + 1] == Items(archive)[..n] + [Item(Clean(archive[n].name), archive[n])]
  {
  }

  datatype Inspection = Inspection(entries: seq<Item>, manifest: Manifest, extracted: nat)

  /** The state of the inspection after `n` entries; `manifestAt` is the size while none was seen. */
  ghost predicate Scanned(checks: seq<Checked>, n: nat, seen: set<string>, seenFolded: set<string>, manifestAt: nat,
                          extracted: nat)
    requires n <= |checks|
  {
    && WellFormed(checks[..n])
    && extracted == TotalSize(checks[..n])
    && (forall name :: name in seen <==> HasName(checks[..n], name))
    && (forall name :: name in seenFolded <==> HasFolded(checks, n, name))
    && manifestAt <= |checks| && (manifestAt < |checks| ==> checks[manifestAt].clean == MANIFEST_NAME)
    && (MANIFEST_NAME in seen <==> manifestAt < |checks|)
  }

  ghost predicate HasFolded(checks: seq<Checked>, n: nat, folded: string)
    requires n <= |checks|
  {
    exists i :: 0 <= i < n && checks[i].folded == folded
  }

  lemma ScanStep(checks: seq<Checked>, n: nat, seen: set<string>, seenFolded: set<string>, manifestAt: nat,
                 extracted: nat)
    requires n < |checks| && Scanned(checks, n, seen, seenFolded, manifestAt, extracted)
    requires checks[n].allowed && checks[n].folded !in seenFolded && extracted + checks[n].size <= MAX_EXTRACTED
    ensures Scanned(checks, n + 1, seen + {checks[n].clean}, seenFolded + {checks[n].folded},
                    if checks[n].clean == MANIFEST_NAME then n else manifestAt, extracted + checks[n].size)
  {
    WellFormedStep(checks, n);
    NamesStep(checks, n);
    forall i | 0 <= i < n ensures checks[i].folded != checks[n].folded {
      assert HasFolded(checks, n, checks[i].folded);
    }
    forall name ensures name in seenFolded + {checks[n].folded} <==> HasFolded(checks, n + 1, name) {
      assert HasFolded(checks, n + 1, name) <==> HasFolded(checks, n, name) || checks[n].folded == name;
    }
  }

  /** The loop's variables. */
  datatype Scan = Scan(seen: set<string>, seenFolded: set<string>, manifestAt: nat, extracted: nat) {
    ghost predicate After(checks: seq<Checked>, n: nat)
      requires n <= |checks|
    {
      Scanned(checks, n, seen, seenFolded, manifestAt, extracted) && extracted <= MAX_EXTRACTED
    }
  }

  /** Entry `n` is the first one that spoils the archive, for this reason. */
  ghost predicate SpoiltAt(checks: seq<Checked>, n: nat, error: Error) {
    && n < |checks| && WellFormed(checks[..n]) && !WellFormed(checks[..n + 1]) && error in {Invalid, TooLarge}
    && (error == TooLarge <==> checks[n].allowed && !HasFolded(checks, n, checks[n].folded))
  }

  /** A manifest that can be read, whether or not it is of the known format. */
  predicate Decodes(c: Codec, e: Entry) { e.declared <= MAX_MANIFEST && e.Readable() && c.decode(e.data) != None }

  /** Why an archive is refused: its first bad entry, a missing one, or its manifest. */
  ghost predicate Explains(c: Codec, archive: seq<Entry>, checks: seq<Checked>, error: Error)
    requires |checks| == |archive|
  {
    if !WellFormed(checks) then exists n :: SpoiltAt(checks, n, error)
    else if !(HasName(checks, DATABASE) && HasName(checks, UPLOADS_NAME) && HasName(checks, MANIFEST_NAME))
    then error == Invalid
    else
      && error in {Invalid, Incompatible}
      && exists i :: 0 <= i < |checks| && checks[i].clean == MANIFEST_NAME &&
                     (error == Incompatible <==> Decodes(c, archive[i]))
  }

  /** An entry that fails a check makes the whole archive unacceptable. */
  lemma Refused(checks: seq<Checked>, n: nat, scan: Scan)
    requires n < |checks| && FoldedOk(checks) && scan.After(checks, n)
    requires !checks[n].allowed || checks[n].clean in scan.seen || checks[n].folded in scan.seenFolded ||
             scan.extracted + checks[n].size > MAX_EXTRACTED
    ensures !WellFormed(checks)
    ensures SpoiltAt(checks, n, if !checks[n].allowed || checks[n].clean in scan.seen ||
                                   checks[n].folded in scan.seenFolded then Invalid else TooLarge)
  {
    WellFormedStep(checks, n);
    if checks[n].clean in scan.seen { SeenIsFolded(checks, n, checks[n].clean); }
    if WellFormed(checks) { PrefixWellFormed(checks, n + 1); }
  }

  /** One entry: refused if nothing that follows can make the archive acceptable, otherwise taken in. */
  method InspectEntry(file: Entry, ghost checks: seq<Checked>, n: nat, scan: Scan) returns (r: Result<Scan>)
    requires n < |checks| && FoldedOk(checks) && scan.After(checks, n) && checks[n] == Check(file)
    ensures r.Err? ==> !WellFormed(checks) && SpoiltAt(checks, n, r.error)
    ensures r.Ok? ==> r.value.After(checks, n + 1)
  {
    var clean, folded := Clean(file.name), Lower(Clean(file.name));
    if !EntryAllowed(file) || clean in scan.seen || folded in scan.seenFolded {
      Refused(checks, n, scan);
      return Err(Invalid);
    }
    if !file.IsDir() && (file.declared > MAX_EXTRACTED || scan.extracted > MAX_EXTRACTED - file.declared) {
      Refused(checks, n, scan);
      return Err(TooLarge);
    }
    ScanStep(checks, n, scan.seen, scan.seenFolded, scan.manifestAt, scan.extracted);
    r := Ok(Scan(scan.seen + {clean}, scan.seenFolded + {folded}, if clean == MANIFEST_NAME then n else scan.manifestAt,
                 scan.extracted + if file.IsDir() then 0 else file.declared));
  }

  /** Accepts exactly the acceptable archives; the running total never exceeds the limit, so the
      machine integer it is kept in cannot overflow. */
  method Inspect(c: Codec, archive: seq<Entry>) returns (r: Result<Inspection>)
    ensures r.Err? ==> (forall m :: !Acceptable(c, archive, m)) && Explains(c, archive, CheckAll(archive), r.error)
    ensures r.Ok? ==>
      && r.value.entries == Items(archive) && Acceptable(c, archive, r.value.manifest)
      && r.value.extracted == TotalSize(CheckAll(archive)) <= MAX_EXTRACTED
  {
    ghost var checks := CheckAll(archive);
    ChecksFolded(archive);
    var scan := Scan({}, {}, |archive|, 0);
    var entries: seq<Item> := [];
    for n := 0 to |archive|
      invariant scan.After(checks, n)
      invariant entries == Items(archive)[..n]
    {
      CheckAt(archive, n);
      var next := InspectEntry(archive[n], checks, n, scan);
      if next.Err? { return Err(next.error); }
      scan := next.value;
      ItemsStep(archive, n);
      entries := entries + [Item(Clean(archive[n].name), archive[n])];
    }
    AllScanned(checks, scan);
    assert Items(archive)[..|archive|] == Items(archive);
    var manifest := RequireEntries(c, archive, checks, scan);
    if manifest.Err? { return Err(manifest.error); }
    r := Ok(Inspection(entries, manifest.value, scan.extracted));
  }

  lemma CheckAt(archive: seq<Entry>, n: nat)
    requires n < |archive|
    ensures CheckAll(archive)[n] == Check(archive[n])
  {
  }

  lemma ChecksFolded(archive: seq<Entry>)
    ensures FoldedOk(CheckAll(archive))
  {
  }

  /** What the loop has seen when it ends. */
  lemma AllScanned(checks: seq<Checked>, scan: Scan)
    requires scan.After(checks, |checks|)
    ensures WellFormed(checks) && scan.extracted == TotalSize(checks)
    ensures forall name :: name in scan.seen <==> HasName(checks, name)
  {
    assert checks[..|checks|] == checks;
  }

  lemma ManifestNamed(c: Codec, archive: seq<Entry>, checks: seq<Checked>, m: Manifest)
    requires AcceptableBy(c, archive, checks, m)
    ensures HasName(checks, MANIFEST_NAME)
  {
  }

  lemma EntriesMissing(c: Codec, archive: seq<Entry>, checks: seq<Checked>, scan: Scan)
    requires scan.After(checks, |checks|)
    requires DATABASE !in scan.seen || UPLOADS_NAME !in scan.seen || scan.manifestAt == |checks|
    ensures forall m :: !AcceptableBy(c, archive, checks, m)
  {
    AllScanned(checks, scan);
    forall m | AcceptableBy(c, archive, checks, m) ensures false { ManifestNamed(c, archive, checks, m); }
  }

  lemma ManifestRefused(c: Codec, archive: seq<Entry>, checks: seq<Checked>, k: nat)
    requires FoldedOk(checks) && k < |checks| && checks[k].clean == MANIFEST_NAME
    requires |checks| == |archive| && ReadManifest(c, archive[k]).Err?
    ensures forall m :: !AcceptableBy(c, archive, checks, m)
  {
    forall m | AcceptableBy(c, archive, checks, m) ensures false { UniqueManifest(c, archive, checks, k, m); }
  }

  /** The checks after the loop: the required entries, and the manifest. */
  method RequireEntries(c: Codec, archive: seq<Entry>, ghost checks: seq<Checked>, scan: Scan)
    returns (r: Result<Manifest>)
    requires |checks| == |archive| && FoldedOk(checks) && scan.After(checks, |checks|)
    ensures r.Err? ==> (forall m :: !AcceptableBy(c, archive, checks, m)) && Explains(c, archive, checks, r.error)
    ensures r.Ok? ==> AcceptableBy(c, archive, checks, r.value)
  {
    AllScanned(checks, scan);
    if DATABASE !in scan.seen || UPLOADS_NAME !in scan.seen || scan.manifestAt == |archive| {
      EntriesMissing(c, archive, checks, scan);
      return Err(Invalid);
    }
    r := ReadManifest(c, archive[scan.manifestAt]);
    if r.Err? {
      ManifestRefused(c, archive, checks, scan.manifestAt);
    } else {
      assert HasManifest(c, archive, checks, r.value);
    }
  }

  lemma NamesStep(checks: seq<Checked>, n: nat)
    requires n < |checks|
    ensures forall name :: HasName(checks[..n + 1], name) <==> HasName(checks[..n], name) || name == checks[n].clean
  {
    forall name ensures HasName(checks[..n + 1], name) <==> HasName(checks[..n], name) || name == checks[n].clean {
      if HasName(checks[..n], name) {
        var i :| 0 <= i < n && checks[..n][i].clean == name;
        assert checks[..n + 1][i].clean == name;
      }
      if name == checks[n].clean { assert checks[..n + 1][n].clean == name; }
      if HasName(checks[..n + 1], name) {
        var i :| 0 <= i < n + 1 && checks[..n + 1][i].clean == name;
        if i < n { assert checks[..n][i].clean == name; }
      }
    }
  }

  lemma SeenIsFolded(checks: seq<Checked>, n: nat, clean: string)
    requires FoldedOk(checks) && n < |checks| && HasName(checks[..n], clean)
    ensures exists i :: 0 <= i < n && checks[i].folded == Lower(clean)
  {
    var i :| 0 <= i < n && checks[..n][i].clean == clean;
    assert checks[i].clean == clean;
  }
}
