/** Which names a restore accepts, character by character. */
module ArchiveNames {
  import opened Strings
  import opened Archive
  import opened Backup
  import opened Optional

  const SMALL := "abcdefghijklmnopqrstuvwxyz"
  const CAPITAL := "ABCDEFGHIJKLMNOPQRSTUVWXYZ"
  const OTHERS := "0123456789-_."

  predicate IsPermitted(c: char) { c in SMALL || c in CAPITAL || c in OTHERS }

  /** A picture may be stored under this name. */
  predicate IsPicture(kind: string, name: string) {
    && kind in ["backgrounds", "logos", "site"]
    && name != "" && name[0] != '.' && (forall c :: c in name ==> IsPermitted(c))
    && (EndsPng(name) || (kind == "backgrounds" && EndsJpg(name)))
  }

  ghost predicate IsPicturePath(path: string) {
    exists kind, name :: IsPicture(kind, name) && path == "uploads/" + kind + "/" + name
  }

  // ---- Extensions ------------------------------------------------------------------------------------

  /** An extension is the end of the name, and starts at its last dot. */
  lemma {:induction false} ExtensionIsSuffix(name: string)
    ensures var e := Extension(name);
            && |e| <= |name| && e == name[|name| - |e|..]
            && (e != "" ==> e[0] == '.' && forall i :: 0 < i < |e| ==> e[i] != '.')
  {
    if name != "" && name[|name| - 1] != '.' {
      var before := name[..|name| - 1];
      ExtensionIsSuffix(before);
      var e := Extension(before);
      if e != "" { assert name[|name| - 1 - |e|..] == before[|before| - |e|..] + [name[|name| - 1]]; }
    }
  }

  lemma {:induction false} LastDotLength(name: string, k: nat)
    requires k < |name| && name[k] == '.' && forall i :: k < i < |name| ==> name[i] != '.'
    ensures |Extension(name)| == |name| - k
  {
    if k < |name| - 1 { LastDotLength(name[..|name| - 1], k); }
  }

  lemma LastDot(name: string, k: nat)
    requires k < |name| && name[k] == '.' && forall i :: k < i < |name| ==> name[i] != '.'
    ensures Extension(name) == name[k..]
  {
    LastDotLength(name, k);
    ExtensionIsSuffix(name);
  }

  /** An extension of four characters is the end of a name with a dot before three others. */
  lemma FourExactly(name: string)
    ensures |Extension(name)| == 4 <==>
            var n := |name|;
            n >= 4 && name[n - 4] == '.' && name[n - 3] != '.' && name[n - 2] != '.' && name[n - 1] != '.'
    ensures |Extension(name)| == 4 ==>
            |name| >= 4 && forall i :: 0 <= i < 4 ==> Extension(name)[i] == name[|name| - 4 + i]
  {
    var n := |name|;
    ExtensionIsSuffix(name);
    if n >= 4 && name[n - 4] == '.' && name[n - 3] != '.' && name[n - 2] != '.' && name[n - 1] != '.' {
      LastDot(name, n - 4);
    }
  }

  lemma PngExactly(name: string)
    ensures Lower(Extension(name)) == ".png" <==> EndsPng(name)
  {
    FourExactly(name);
    LowerFour(Extension(name), ".png");
    forall c { Letters(c); }
  }

  lemma JpgExactly(name: string)
    ensures Lower(Extension(name)) == ".jpg" <==> EndsJpg(name)
  {
    FourExactly(name);
    LowerFour(Extension(name), ".jpg");
    forall c { Letters(c); }
  }

  lemma SmallExactly(c: char)
    ensures 'a' <= c <= 'z' <==> c in SMALL
  {
    assert forall i :: 0 <= i < 26 ==> SMALL[i] as int == 'a' as int + i;
    if 'a' <= c <= 'z' { assert SMALL[c as int - 'a' as int] == c; }
  }

  lemma CapitalExactly(c: char)
    ensures 'A' <= c <= 'Z' <==> c in CAPITAL
  {
    assert forall i :: 0 <= i < 26 ==> CAPITAL[i] as int == 'A' as int + i;
    if 'A' <= c <= 'Z' { assert CAPITAL[c as int - 'A' as int] == c; }
  }

  lemma NameCharExactly(c: char)
    ensures IsNameChar(c) <==> IsPermitted(c)
  {
    SmallExactly(c);
    CapitalExactly(c);
  }

  lemma AllowedFileExactly(kind: string, name: string)
    ensures AllowedFile(kind, name) <==> IsPicture(kind, name)
  {
    PngExactly(name);
    JpgExactly(name);
    forall c ensures IsNameChar(c) <==> IsPermitted(c) { NameCharExactly(c); }
  }

  // ---- Paths -----------------------------------------------------------------------------------------

  lemma {:induction false} SplitThree(a: string, b: string, c: string)
    requires '/' !in a && '/' !in b && '/' !in c
    ensures Split(a + "/" + b + "/" + c) == [a, b, c]
  {
    var s := a + "/" + b + "/" + c;
    if a == "" {
      assert s[1..] == b + "/" + c;
      SplitTwo(b, c);
    } else {
      assert a[0] in a && forall d :: d in a[1..] ==> d in a;
      SplitThree(a[1..], b, c);
      assert s[1..] == a[1..] + "/" + b + "/" + c && s[0] == a[0];
      assert [a[0]] + a[1..] == a;
    }
  }

  lemma PictureParts(path: string, kind: string, name: string)
    requires IsPicture(kind, name) && path == "uploads/" + kind + "/" + name
    ensures Split(path) == ["uploads", kind, name]
  {
    assert forall c :: c in name ==> IsPermitted(c);
    NameCharExactly('/');
    assert path == "uploads" + "/" + kind + "/" + name;
    SplitThree("uploads", kind, name);
  }

  lemma FewParts(path: string)
    requires path in UPLOAD_DIRECTORIES || path == DATABASE || path == MANIFEST_NAME
    ensures |Split(path)| < 3
  {
    if '/' !in path {
      SplitPlain(path);
    } else {
      assert path == "uploads" + "/" + path[8..];
      SplitTwo("uploads", path[8..]);
    }
  }

  lemma PicturePath(path: string, kind: string, name: string)
    requires IsPicture(kind, name) && path == "uploads/" + kind + "/" + name
    ensures AllowedPath(path, false)
  {
    AllowedFileExactly(kind, name);
    PictureParts(path, kind, name);
    if path in UPLOAD_DIRECTORIES || path == DATABASE || path == MANIFEST_NAME { FewParts(path); }
  }

  lemma AllowedIsPicture(path: string)
    requires AllowedPath(path, false) && path != DATABASE && path != MANIFEST_NAME
    ensures IsPicturePath(path)
  {
    var parts := Split(path);
    AllowedFileExactly(parts[1], parts[2]);
    ThreeParts(path);
    assert path == "uploads/" + parts[1] + "/" + parts[2];
  }

  lemma PictureIsAllowed(path: string)
    requires IsPicturePath(path)
    ensures AllowedPath(path, false)
  {
    var kind, name :| IsPicture(kind, name) && path == "uploads/" + kind + "/" + name;
    PicturePath(path, kind, name);
  }

  /** A file path is allowed exactly if it is one of the two fixed names or the path of a picture. */
  lemma AllowedPathExactly(path: string)
    ensures AllowedPath(path, false) <==> path == "nav.db" || path == "manifest.json" || IsPicturePath(path)
    ensures AllowedPath(path, true) <==>
            path in ["uploads", "uploads/logos", "uploads/backgrounds", "uploads/site"]
  {
    if IsPicturePath(path) { PictureIsAllowed(path); }
    if AllowedPath(path, false) && path != DATABASE && path != MANIFEST_NAME { AllowedIsPicture(path); }
  }

  /** The path of an upload is allowed exactly if it is the path of a picture of its own directory. */
  lemma UploadAllowedExactly(kind: string, name: string)
    requires '/' !in kind && '/' !in name
    ensures AllowedPath("uploads/" + kind + "/" + name, false) <==> IsPicture(kind, name)
  {
    var path := "uploads/" + kind + "/" + name;
    assert path == "uploads" + "/" + kind + "/" + name;
    SplitThree("uploads", kind, name);
    if AllowedPath(path, false) {
      if path == DATABASE || path == MANIFEST_NAME { FewParts(path); }
      AllowedFileExactly(kind, name);
    }
    if IsPicture(kind, name) { PicturePath(path, kind, name); }
  }

  // ---- Entries ---------------------------------------------------------------------------------------

  lemma OnePartIsSafe(path: string)
    requires |path| > 2 && '/' !in path && '\\' !in path
    ensures Clean(path) == path && SafeName(path)
  {
    CleanOne(path);
    assert path[0] in path && path[2] in path;
  }

  lemma FixedIsSafe(path: string)
    requires path == "nav.db" || path == "manifest.json"
    ensures Clean(path) == path && SafeName(path) && KnownName(path)
  {
    OnePartIsSafe(path);
  }

  lemma AllowedIsClean(path: string)
    requires AllowedPath(path, false)
    ensures Clean(path) == path && SafeName(path) && KnownName(path)
  {
    AllowedPathExactly(path);
    if path == "nav.db" || path == "manifest.json" {
      FixedIsSafe(path);
    } else {
      var kind, name :| IsPicture(kind, name) && path == "uploads/" + kind + "/" + name;
      AllowedFileIsSafe(path);
    }
  }

  lemma NotDirectory(e: Entry)
    requires !e.IsDir() && (e.name == Clean(e.name) || e.name == Clean(e.name) + "/")
    ensures e.name == Clean(e.name)
  {
    assert (Clean(e.name) + "/")[|Clean(e.name)|] == '/';
  }

  /** A file is accepted exactly under one of these names, spelled just so. */
  lemma FileAllowedExactly(e: Entry)
    requires !e.IsDir()
    ensures EntryAllowed(e) <==> e.name == "nav.db" || e.name == "manifest.json" || IsPicturePath(e.name)
  {
    AllowedPathExactly(e.name);
    if EntryAllowed(e) { NotDirectory(e); }
    if AllowedPath(e.name, false) { AllowedIsClean(e.name); }
  }

  /** A directory is accepted exactly if it is one of the four, with a slash behind it or not. */
  lemma DirectoryAllowedExactly(e: Entry)
    requires e.IsDir()
    ensures EntryAllowed(e) <==>
            exists path :: path in ["uploads", "uploads/logos", "uploads/backgrounds", "uploads/site"] &&
                           (e.name == path || e.name == path + "/")
  {
    if EntryAllowed(e) {
      AllowedPathExactly(Clean(e.name));
    }
    if path :| path in ["uploads", "uploads/logos", "uploads/backgrounds", "uploads/site"] &&
               (e.name == path || e.name == path + "/") {
      DirectoryIsSafe(path);
      CleanTrailing(path);
      AllowedPathExactly(path);
    }
  }

  /** A small letter and its capital. */
  predicate IsPair(small: char, capital: char) {
    small in SMALL && capital in CAPITAL && small as int - 'a' as int == capital as int - 'A' as int
  }

  predicate SameLetter(a: char, b: char) { a == b || IsPair(a, b) || IsPair(b, a) }

  lemma FoldByRange(a: char, b: char)
    ensures LowerChar(a) == LowerChar(b) <==>
            || a == b
            || ('a' <= a <= 'z' && 'A' <= b <= 'Z' && a as int - 'a' as int == b as int - 'A' as int)
            || ('a' <= b <= 'z' && 'A' <= a <= 'Z' && b as int - 'a' as int == a as int - 'A' as int)
  {
  }

  lemma PairExactly(small: char, capital: char)
    ensures IsPair(small, capital) <==>
            'a' <= small <= 'z' && 'A' <= capital <= 'Z' && small as int - 'a' as int == capital as int - 'A' as int
  {
    SmallExactly(small);
    CapitalExactly(capital);
  }

  lemma FoldExactly(a: char, b: char)
    ensures LowerChar(a) == LowerChar(b) <==> SameLetter(a, b)
  {
    FoldByRange(a, b);
    PairExactly(a, b);
    PairExactly(b, a);
  }

  /** Names collide exactly if they differ in nothing but the case of letters. */
  lemma CollideExactly(a: string, b: string)
    ensures Lower(a) == Lower(b) <==> |a| == |b| && forall i :: 0 <= i < |a| ==> SameLetter(a[i], b[i])
  {
    forall i | 0 <= i < |a| && i < |b| ensures LowerChar(a[i]) == LowerChar(b[i]) <==> SameLetter(a[i], b[i]) {
      FoldExactly(a[i], b[i]);
    }
    if |a| == |b| && forall i :: 0 <= i < |a| ==> SameLetter(a[i], b[i]) {
      forall i | 0 <= i < |a| ensures Lower(a)[i] == Lower(b)[i] { assert SameLetter(a[i], b[i]); }
      assert |Lower(a)| == |Lower(b)|;
    }
    if Lower(a) == Lower(b) {
      assert |Lower(a)| == |a| && |Lower(b)| == |b|;
      forall i | 0 <= i < |a| ensures SameLetter(a[i], b[i]) {
        assert Lower(a)[i] == LowerChar(a[i]) && Lower(b)[i] == LowerChar(b[i]);
      }
    }
  }

  // ---- Whole archives --------------------------------------------------------------------------------

  /** A directory by its attributes, or by a slash at the end of its name. */
  predicate IsFolder(e: Entry) { e.directoryFlag || (|e.name| > 0 && e.name[|e.name| - 1] == '/') }

  ghost predicate IsPermittedEntry(e: Entry) {
    if IsFolder(e) then
      exists path :: path in ["uploads", "uploads/logos", "uploads/backgrounds", "uploads/site"] &&
                     (e.name == path || e.name == path + "/")
    else e.name == "nav.db" || e.name == "manifest.json" || IsPicturePath(e.name)
  }

  /** The name without a slash at its end. */
  function Bare(name: string): string {
    if name != "" && name[|name| - 1] == '/' then name[..|name| - 1] else name
  }

  predicate Collide(a: string, b: string) {
    |a| == |b| && forall i :: 0 <= i < |a| ==> SameLetter(a[i], b[i])
  }

  /** The declared sizes of the files together. */
  function SizeOf(archive: seq<Entry>): nat {
    if archive == [] then 0
    else
      var last := archive[|archive| - 1];
      SizeOf(archive[..|archive| - 1]) + if IsFolder(last) then 0 else last.declared
  }

  ghost predicate Contains(archive: seq<Entry>, path: string) {
    exists i :: 0 <= i < |archive| && Bare(archive[i].name) == path
  }

  /** A manifest that is not too long, can be read, and is of the one known format. */
  predicate IsManifest(c: Codec, e: Entry, m: Manifest) {
    && |e.data| == e.declared <= 1048576 && c.decode(e.data) == Some(m)
    && m.format == "iiiu-nav-backup" && m.version == 1 && m.applicationVersion != "" && m.createdAt != 0
  }

  ghost predicate HasManifestFile(c: Codec, archive: seq<Entry>, m: Manifest) {
    exists i :: 0 <= i < |archive| && Bare(archive[i].name) == "manifest.json" && IsManifest(c, archive[i], m)
  }

  lemma EntryAllowedExactly(e: Entry)
    ensures EntryAllowed(e) <==> IsPermittedEntry(e)
    ensures EntryAllowed(e) ==> Clean(e.name) == Bare(e.name)
  {
    if IsFolder(e) {
      DirectoryAllowedExactly(e);
      if EntryAllowed(e) { FolderIsBare(e); }
    } else {
      FileAllowedExactly(e);
      if EntryAllowed(e) { NotDirectory(e); }
    }
  }

  lemma FolderIsBare(e: Entry)
    requires EntryAllowed(e) && IsFolder(e)
    ensures Clean(e.name) == Bare(e.name)
  {
    var path := Clean(e.name);
    AllowedPathExactly(path);
    assert path[|path| - 1] != '/';
    if e.name != path {
      assert e.name == path + "/";
      assert (path + "/")[|path|] == '/' && (path + "/")[..|path|] == path;
    }
  }

  lemma ManifestExactly(c: Codec, e: Entry, m: Manifest)
    ensures ReadManifest(c, e) == Ok(m) <==> IsManifest(c, e, m)
  {
  }

  lemma {:induction false} SizeIsTotal(archive: seq<Entry>)
    ensures TotalSize(CheckAll(archive)) == SizeOf(archive)
  {
    if archive != [] {
      var last := |archive| - 1;
      SizeIsTotal(archive[..last]);
      assert CheckAll(archive)[..last] == CheckAll(archive[..last]);
    }
  }

  ghost predicate AllAllowed(archive: seq<Entry>) {
    forall i :: 0 <= i < |archive| ==> EntryAllowed(archive[i])
  }

  ghost predicate AllBare(archive: seq<Entry>) {
    forall i :: 0 <= i < |archive| ==> Clean(archive[i].name) == Bare(archive[i].name)
  }

  ghost predicate AllPermitted(archive: seq<Entry>) {
    forall i :: 0 <= i < |archive| ==> IsPermittedEntry(archive[i])
  }

  ghost predicate NoneCollide(archive: seq<Entry>) {
    forall i, j :: 0 <= i < j < |archive| ==> !Collide(Bare(archive[i].name), Bare(archive[j].name))
  }

  lemma AllowedExactly(archive: seq<Entry>)
    ensures AllAllowed(archive) <==> AllPermitted(archive)
    ensures AllAllowed(archive) ==> AllBare(archive)
  {
    forall i | 0 <= i < |archive|
      ensures EntryAllowed(archive[i]) <==> IsPermittedEntry(archive[i])
      ensures EntryAllowed(archive[i]) ==> Clean(archive[i].name) == Bare(archive[i].name)
    {
      EntryAllowedExactly(archive[i]);
    }
  }

  lemma FoldedExactly(archive: seq<Entry>)
    requires AllBare(archive)
    ensures (forall i, j :: 0 <= i < j < |archive| ==> CheckAll(archive)[i].folded != CheckAll(archive)[j].folded) <==>
            NoneCollide(archive)
  {
    forall i, j | 0 <= i < j < |archive|
      ensures CheckAll(archive)[i].folded != CheckAll(archive)[j].folded <==>
              !Collide(Bare(archive[i].name), Bare(archive[j].name))
    {
      CollideExactly(Bare(archive[i].name), Bare(archive[j].name));
    }
  }

  lemma ContainsExactly(archive: seq<Entry>, path: string)
    requires AllBare(archive)
    ensures HasName(CheckAll(archive), path) <==> Contains(archive, path)
  {
    var checks := CheckAll(archive);
    assert forall i :: 0 <= i < |archive| ==> checks[i].clean == Bare(archive[i].name);
    if HasName(checks, path) {
      var i :| 0 <= i < |checks| && checks[i].clean == path;
      assert Bare(archive[i].name) == path;
    }
  }

  lemma ManifestFileExactly(c: Codec, archive: seq<Entry>, m: Manifest)
    requires AllBare(archive)
    ensures HasManifest(c, archive, CheckAll(archive), m) <==> HasManifestFile(c, archive, m)
  {
    forall i | 0 <= i < |archive| ensures ReadManifest(c, archive[i]) == Ok(m) <==> IsManifest(c, archive[i], m) {
      ManifestExactly(c, archive[i], m);
    }
    if HasManifest(c, archive, CheckAll(archive), m) {
      var i :| 0 <= i < |archive| && CheckAll(archive)[i].clean == MANIFEST_NAME &&
               ReadManifest(c, archive[i]) == Ok(m);
      assert Bare(archive[i].name) == "manifest.json" && IsManifest(c, archive[i], m);
    }
    if HasManifestFile(c, archive, m) {
      var i :| 0 <= i < |archive| && Bare(archive[i].name) == "manifest.json" && IsManifest(c, archive[i], m);
      assert CheckAll(archive)[i].clean == MANIFEST_NAME && ReadManifest(c, archive[i]) == Ok(m);
    }
  }

  lemma WellFormedExactly(archive: seq<Entry>)
    ensures WellFormed(CheckAll(archive)) <==>
            AllPermitted(archive) && NoneCollide(archive) && SizeOf(archive) <= 536870912
  {
    var checks := CheckAll(archive);
    assert forall i :: 0 <= i < |archive| ==> checks[i].allowed == EntryAllowed(archive[i]);
    assert AllAllowed(archive) ==> forall i :: 0 <= i < |checks| ==> checks[i].allowed;
    AllowedExactly(archive);
    SizeIsTotal(archive);
    if AllAllowed(archive) { FoldedExactly(archive); }
  }

  /** Which archives a restore accepts, and with which manifest: all names permitted, none colliding but
      for the case of letters, not too much in total, and the three entries that it needs. */
  lemma AcceptedExactly(c: Codec, archive: seq<Entry>, m: Manifest)
    ensures Acceptable(c, archive, m) <==>
            && AllPermitted(archive) && NoneCollide(archive) && SizeOf(archive) <= 536870912
            && Contains(archive, "nav.db") && Contains(archive, "uploads") && HasManifestFile(c, archive, m)
  {
    WellFormedExactly(archive);
    AllowedExactly(archive);
    if AllPermitted(archive) {
      ContainsExactly(archive, "nav.db");
      ContainsExactly(archive, "uploads");
      ManifestFileExactly(c, archive, m);
    }
  }
}
