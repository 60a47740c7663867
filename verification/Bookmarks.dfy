/** Bookmark batches: normalising and merging them. */
module Bookmarks {
  import opened Navigation
  import opened Strings

  /** Unicode and URL library calls, kept abstract. */
  datatype Text = Text(
    normalize: string -> string,    // trim, then Unicode NFC
    trim: string -> string,
    key: string -> string,          // case-folded category key
    canonical: string -> string,    // canonical form of a URL
    webUrl: string -> bool)         // an http(s) URL with a host and no user
  {
    /** The only facts assumed of the libraries. */
    ghost predicate Lawful() {
      && (forall s: string :: normalize(normalize(s)) == normalize(s))
      && (forall s: string :: trim(trim(s)) == trim(s))
      && (forall a: string, b: string :: key(a) == key(b) ==> ValidCategoryName(a) == ValidCategoryName(b))
    }
  }

  datatype BookmarkLink = BookmarkLink(fields: LinkFields, problem: string)
  datatype BookmarkCategory = BookmarkCategory(
    name: string, iconName: string, visibility: string, links: seq<BookmarkLink>)

  predicate ValidCategoryName(name: string) { name != "" && |name| <= 80 }

  const GENERATED := "generated"
  const LOGO_PREFIX := "/uploads/logos/"

  predicate ValidLogoPath(value: string) {
    && LOGO_PREFIX < value
    && (forall c :: c in value[|LOGO_PREFIX|..] ==> c != '/' && c != '\\')
    && |value| >= |LOGO_PREFIX| + 4
    && Lower(value[|value| - 4..]) == ".png"
  }

  function LinkProblem(x: Text, fields: LinkFields, categoryName: string): string {
    if !ValidCategoryName(categoryName) then "category_name_invalid"
    else if fields.name == "" || |fields.name| > 120 then "name_invalid"
    else if |fields.description| > 300 then "description_invalid"
    else if !x.webUrl(fields.url) then "url_invalid"
    else if fields.iconSource !in ["auto", "url", "upload", GENERATED] then "icon_invalid"
    else if fields.iconSource == GENERATED then (if |fields.iconValue| > 3 then "icon_invalid" else "")
    else if !ValidLogoPath(fields.iconValue) then "icon_invalid"
    else ""
  }

  predicate IsLogoName(name: string) { '/' !in name && '\\' !in name && EndsPng(name) }

  lemma LogoName(value: string, name: string)
    requires value == LOGO_PREFIX + name
    ensures ValidLogoPath(value) <==> IsLogoName(name)
  {
    assert value[|LOGO_PREFIX|..] == name;
    if |name| >= 4 { PngSuffix(value); }
  }

  /** A logo is a PNG directly in its directory. */
  lemma LogoExactly(value: string)
    ensures ValidLogoPath(value) <==> exists name :: IsLogoName(name) && value == "/uploads/logos/" + name
  {
    if ValidLogoPath(value) {
      var name := value[|LOGO_PREFIX|..];
      LogoName(value, name);
      assert IsLogoName(name) && value == "/uploads/logos/" + name;
    }
    if name :| IsLogoName(name) && value == "/uploads/logos/" + name { LogoName(value, name); }
  }

  ghost predicate IsIcon(source: string, value: string) {
    || (source == "generated" && |value| <= 3)
    || (source in ["auto", "url", "upload"] &&
        exists name :: IsLogoName(name) && value == "/uploads/logos/" + name)
  }

  /** What the problem of a link is: none exactly if everything about it is in order, and otherwise the
      first of these that is not, in this sequence: category, name, description, address, icon. */
  lemma ProblemExactly(x: Text, f: LinkFields, category: string)
    ensures var names, name := 1 <= |category| <= 80, 1 <= |f.name| <= 120;
            var description, icon := |f.description| <= 300, IsIcon(f.iconSource, f.iconValue);
            LinkProblem(x, f, category) ==
              if names && name && description && x.webUrl(f.url) && icon then ""
              else if names && name && description && x.webUrl(f.url) then "icon_invalid"
              else if names && name && description then "url_invalid"
              else if names && name then "description_invalid"
              else if names then "name_invalid"
              else "category_name_invalid"
  {
    LogoExactly(f.iconValue);
  }

  function NormalizeLink(x: Text, link: BookmarkLink, categoryName: string): BookmarkLink {
    var f := link.fields;
    var name := x.normalize(f.name);
    var fields := LinkFields(
      name, x.trim(f.description), x.trim(f.url),
      if f.iconSource == "" then GENERATED else f.iconSource,
      if f.iconValue == "" && name != "" then name[..1] else f.iconValue);
    BookmarkLink(fields, LinkProblem(x, fields, categoryName))
  }

  function NormalizeLinks(x: Text, links: seq<BookmarkLink>, categoryName: string): seq<BookmarkLink> {
    seq(|links|, i requires 0 <= i < |links| => NormalizeLink(x, links[i], categoryName))
  }

  function NormalizeCategory(x: Text, category: BookmarkCategory): BookmarkCategory {
    var name := x.normalize(category.name);
    category.(name := name, links := NormalizeLinks(x, category.links, name))
  }

  function NormalizeCategories(x: Text, categories: seq<BookmarkCategory>): seq<BookmarkCategory> {
    seq(|categories|, i requires 0 <= i < |categories| => NormalizeCategory(x, categories[i]))
  }

  // ---- The stable merge ------------------------------------------------------------------

  /** All links of the categories with key `k`, in input order. */
  function Gathered(key: string -> string, categories: seq<BookmarkCategory>, k: string): seq<BookmarkLink> {
    if categories == [] then []
    else
      var last := |categories| - 1;
      Gathered(key, categories[..last], k) +
      (if key(categories[last].name) == k then categories[last].links else [])
  }

  /** Position of the first category with key `k`. */
  function FirstAt(key: string -> string, categories: seq<BookmarkCategory>, k: string): (i: nat)
    ensures i <= |categories|
    ensures i < |categories| ==> key(categories[i].name) == k
    ensures forall j :: 0 <= j < i ==> key(categories[j].name) != k
  {
    if categories == [] || key(categories[0].name) == k then 0
    else 1 + FirstAt(key, categories[1..], k)
  }

  /** `merged` is the stable merge of `categories` by `key`: one category per key, placed where
      the key first occurs and named as it is there, with every link of that key in input order. */
  ghost predicate IsMerge(key: string -> string, categories: seq<BookmarkCategory>, merged: seq<BookmarkCategory>) {
    && (forall i, j :: 0 <= i < j < |merged| ==>
          FirstAt(key, categories, key(merged[i].name)) < FirstAt(key, categories, key(merged[j].name)))
    && (forall c :: 0 <= c < |categories| ==> HasKey(key, merged, key(categories[c].name)))
    && (forall i :: 0 <= i < |merged| ==> IsMergedCategory(key, categories, merged[i]))
  }

  ghost predicate IsMergedCategory(key: string -> string, categories: seq<BookmarkCategory>, m: BookmarkCategory) {
    var first := FirstAt(key, categories, key(m.name));
    first < |categories| && m == categories[first].(links := Gathered(key, categories, key(m.name)))
  }

  ghost predicate HasKey(key: string -> string, merged: seq<BookmarkCategory>, k: string) {
    exists i :: 0 <= i < |merged| && key(merged[i].name) == k
  }

  ghost predicate UniqueKeys(key: string -> string, categories: seq<BookmarkCategory>) {
    forall i, j :: 0 <= i < j < |categories| ==> key(categories[i].name) != key(categories[j].name)
  }

  function MergeOne(key: string -> string, merged: seq<BookmarkCategory>, c: BookmarkCategory): seq<BookmarkCategory> {
    var i := FirstAt(key, merged, key(c.name));
    if i < |merged| then merged[i := merged[i].(links := merged[i].links + c.links)] else merged + [c]
  }

  function Merge(key: string -> string, categories: seq<BookmarkCategory>): seq<BookmarkCategory> {
    if categories == [] then []
    else
      var last := |categories| - 1;
      MergeOne(key, Merge(key, categories[..last]), categories[last])
  }

  function Normalize(x: Text, categories: seq<BookmarkCategory>): seq<BookmarkCategory> {
    Merge(x.key, NormalizeCategories(x, categories))
  }

  lemma {:induction false} FirstAtAppend(key: string -> string, cats: seq<BookmarkCategory>, c: BookmarkCategory,
                                         k: string)
    ensures FirstAt(key, cats + [c], k) ==
            if FirstAt(key, cats, k) < |cats| then FirstAt(key, cats, k)
            else if key(c.name) == k then |cats| else |cats| + 1
  {
    var i, j := FirstAt(key, cats + [c], k), FirstAt(key, cats, k);
    assert forall n :: 0 <= n < |cats| ==> (cats + [c])[n] == cats[n];
    assert (cats + [c])[|cats|] == c;
  }

  lemma GatheredAppend(key: string -> string, cats: seq<BookmarkCategory>, c: BookmarkCategory, k: string)
    ensures Gathered(key, cats + [c], k) == Gathered(key, cats, k) + (if key(c.name) == k then c.links else [])
  {
    assert (cats + [c])[..|cats|] == cats;
  }

  lemma {:induction false} GatheredAbsent(key: string -> string, cats: seq<BookmarkCategory>, k: string)
    requires forall i :: 0 <= i < |cats| ==> key(cats[i].name) != k
    ensures Gathered(key, cats, k) == []
  {
    if cats != [] { GatheredAbsent(key, cats[..|cats| - 1], k); }
  }

  lemma MergeOneNames(key: string -> string, merged: seq<BookmarkCategory>, c: BookmarkCategory)
    ensures |merged| <= |MergeOne(key, merged, c)|
    ensures forall i :: 0 <= i < |merged| ==> MergeOne(key, merged, c)[i].name == merged[i].name
  {
  }

  lemma MergedCategoryStep(key: string -> string, cats: seq<BookmarkCategory>, m: BookmarkCategory, c: BookmarkCategory)
    requires IsMergedCategory(key, cats, m)
    ensures IsMergedCategory(key, cats + [c], if key(m.name) == key(c.name) then m.(links := m.links + c.links) else m)
  {
    FirstAtAppend(key, cats, c, key(m.name));
    GatheredAppend(key, cats, c, key(m.name));
    assert (cats + [c])[FirstAt(key, cats, key(m.name))] == cats[FirstAt(key, cats, key(m.name))];
    assert m.links + [] == m.links;
  }

  lemma NewCategoryStep(key: string -> string, cats: seq<BookmarkCategory>, c: BookmarkCategory)
    requires forall i :: 0 <= i < |cats| ==> key(cats[i].name) != key(c.name)
    ensures IsMergedCategory(key, cats + [c], c)
  {
    FirstAtAppend(key, cats, c, key(c.name));
    GatheredAppend(key, cats, c, key(c.name));
    GatheredAbsent(key, cats, key(c.name));
    assert [] + c.links == c.links;
  }

  lemma DistinctKeys(key: string -> string, cats: seq<BookmarkCategory>, merged: seq<BookmarkCategory>, i: nat, j: nat)
    requires IsMerge(key, cats, merged) && i < |merged| && j < |merged| && i != j
    ensures key(merged[i].name) != key(merged[j].name)
  {
    if i < j {
      assert FirstAt(key, cats, key(merged[i].name)) < FirstAt(key, cats, key(merged[j].name));
    } else {
      assert FirstAt(key, cats, key(merged[j].name)) < FirstAt(key, cats, key(merged[i].name));
    }
  }

  lemma MergeStepCategory(key: string -> string, cats: seq<BookmarkCategory>, merged: seq<BookmarkCategory>,
                          c: BookmarkCategory, i: nat)
    requires IsMerge(key, cats, merged) && i < |MergeOne(key, merged, c)|
    ensures IsMergedCategory(key, cats + [c], MergeOne(key, merged, c)[i])
  {
    var at := FirstAt(key, merged, key(c.name));
    if i < |merged| {
      assert IsMergedCategory(key, cats, merged[i]);
      MergedCategoryStep(key, cats, merged[i], c);
      if at < |merged| && i != at { DistinctKeys(key, cats, merged, i, at); }
    } else {
      forall j | 0 <= j < |cats| ensures key(cats[j].name) != key(c.name) {
        assert HasKey(key, merged, key(cats[j].name));
      }
      NewCategoryStep(key, cats, c);
    }
  }

  lemma MergeStepOrder(key: string -> string, cats: seq<BookmarkCategory>, merged: seq<BookmarkCategory>,
                       c: BookmarkCategory, i: nat, j: nat)
    requires IsMerge(key, cats, merged) && i < j < |MergeOne(key, merged, c)|
    ensures var merged' := MergeOne(key, merged, c);
            FirstAt(key, cats + [c], key(merged'[i].name)) < FirstAt(key, cats + [c], key(merged'[j].name))
  {
    var merged' := MergeOne(key, merged, c);
    MergeOneNames(key, merged, c);
    FirstAtAppend(key, cats, c, key(merged'[i].name));
    FirstAtAppend(key, cats, c, key(merged'[j].name));
    assert IsMergedCategory(key, cats, merged[i]);
    if j < |merged| {
      assert FirstAt(key, cats, key(merged[i].name)) < FirstAt(key, cats, key(merged[j].name));
      assert IsMergedCategory(key, cats, merged[j]);
    } else {
      assert FirstAt(key, cats, key(c.name)) == |cats| by {
        forall n | 0 <= n < |cats| ensures key(cats[n].name) != key(c.name) {
          assert HasKey(key, merged, key(cats[n].name));
        }
      }
    }
  }

  lemma MergeStepKey(key: string -> string, cats: seq<BookmarkCategory>, merged: seq<BookmarkCategory>,
                     c: BookmarkCategory, n: nat)
    requires IsMerge(key, cats, merged) && n <= |cats|
    ensures HasKey(key, MergeOne(key, merged, c), key((cats + [c])[n].name))
  {
    var merged', at := MergeOne(key, merged, c), FirstAt(key, merged, key(c.name));
    MergeOneNames(key, merged, c);
    if n < |cats| {
      assert HasKey(key, merged, key(cats[n].name));
      var i :| 0 <= i < |merged| && key(merged[i].name) == key(cats[n].name);
      assert key(merged'[i].name) == key(cats[n].name);
    } else {
      assert key(merged'[if at < |merged| then at else |merged|].name) == key(c.name);
    }
  }

  lemma MergeStep(key: string -> string, cats: seq<BookmarkCategory>, merged: seq<BookmarkCategory>,
                  c: BookmarkCategory)
    requires IsMerge(key, cats, merged)
    ensures IsMerge(key, cats + [c], MergeOne(key, merged, c))
  {
    var merged' := MergeOne(key, merged, c);
    forall i | 0 <= i < |merged'| ensures IsMergedCategory(key, cats + [c], merged'[i]) {
      MergeStepCategory(key, cats, merged, c, i);
    }
    forall i, j | 0 <= i < j < |merged'|
      ensures FirstAt(key, cats + [c], key(merged'[i].name)) < FirstAt(key, cats + [c], key(merged'[j].name))
    {
      MergeStepOrder(key, cats, merged, c, i, j);
    }
    forall n | 0 <= n < |cats + [c]| ensures HasKey(key, merged', key((cats + [c])[n].name)) {
      MergeStepKey(key, cats, merged, c, n);
    }
  }

  /** Merging is stable: one category per key, in order of first occurrence, no link lost,
      added or moved past another of the same key. */
  lemma {:induction false} MergeIsStable(key: string -> string, cats: seq<BookmarkCategory>)
    ensures IsMerge(key, cats, Merge(key, cats))
    ensures UniqueKeys(key, Merge(key, cats))
  {
    if cats != [] {
      var last := |cats| - 1;
      MergeIsStable(key, cats[..last]);
      MergeStep(key, cats[..last], Merge(key, cats[..last]), cats[last]);
      assert cats[..last] + [cats[last]] == cats;
    }
    KeysUnique(key, cats, Merge(key, cats));
  }

  lemma KeysUnique(key: string -> string, cats: seq<BookmarkCategory>, merged: seq<BookmarkCategory>)
    requires IsMerge(key, cats, merged)
    ensures UniqueKeys(key, merged)
  {
    forall i, j | 0 <= i < j < |merged| ensures key(merged[i].name) != key(merged[j].name) {
      DistinctKeys(key, cats, merged, i, j);
    }
  }

  /** A stable merge is unique, so the three conditions describe it completely. */
  lemma MergeUnique(key: string -> string, cats: seq<BookmarkCategory>, a: seq<BookmarkCategory>,
                    b: seq<BookmarkCategory>)
    requires IsMerge(key, cats, a) && IsMerge(key, cats, b)
    ensures a == b
    decreases |a|
  {
    forall i | 0 <= i < |a| && i < |b| ensures a[i] == b[i] { MergeUniqueAt(key, cats, a, b, i); }
    if |a| < |b| {
      MergeLength(key, cats, a, b);
    } else if |b| < |a| {
      MergeLength(key, cats, b, a);
    }
  }

  lemma MergeLength(key: string -> string, cats: seq<BookmarkCategory>, a: seq<BookmarkCategory>,
                    b: seq<BookmarkCategory>)
    requires IsMerge(key, cats, a) && IsMerge(key, cats, b)
    requires forall i :: 0 <= i < |a| && i < |b| ==> a[i] == b[i]
    ensures |a| >= |b|
  {
    if |a| < |b| {
      var m := b[|a|];
      assert IsMergedCategory(key, cats, m);
      assert HasKey(key, a, key(cats[FirstAt(key, cats, key(m.name))].name));
      var i :| 0 <= i < |a| && key(a[i].name) == key(m.name);
      DistinctKeys(key, cats, b, i, |a|);
    }
  }

  lemma {:induction false} MergeUniqueAt(key: string -> string, cats: seq<BookmarkCategory>, a: seq<BookmarkCategory>,
                                         b: seq<BookmarkCategory>, i: nat)
    requires IsMerge(key, cats, a) && IsMerge(key, cats, b)
    requires i < |a| && i < |b|
    ensures a[i] == b[i]
    decreases i
  {
    forall j | 0 <= j < i ensures a[j] == b[j] { MergeUniqueAt(key, cats, a, b, j); }
    assert IsMergedCategory(key, cats, a[i]) && IsMergedCategory(key, cats, b[i]);
    var fa, fb := FirstAt(key, cats, key(a[i].name)), FirstAt(key, cats, key(b[i].name));
    NotLater(key, cats, a, b, i);
    NotLater(key, cats, b, a, i);
    assert fa == fb;
  }

  /** What stands at `i` in one merge does not stand earlier in another that agrees so far. */
  lemma StandsLater(key: string -> string, cats: seq<BookmarkCategory>, a: seq<BookmarkCategory>,
                    b: seq<BookmarkCategory>, i: nat)
    returns (j: nat)
    requires IsMerge(key, cats, a) && IsMerge(key, cats, b) && i < |b| && i <= |a|
    requires forall j :: 0 <= j < i ==> a[j] == b[j]
    ensures i <= j < |a| && key(a[j].name) == key(b[i].name)
  {
    assert IsMergedCategory(key, cats, b[i]);
    var first := FirstAt(key, cats, key(b[i].name));
    assert HasKey(key, a, key(cats[first].name));
    var k :| 0 <= k < |a| && key(a[k].name) == key(cats[first].name);
    forall n | 0 <= n < i ensures key(a[n].name) != key(b[i].name) { DistinctKeys(key, cats, b, n, i); }
    j := k;
  }

  lemma NotLater(key: string -> string, cats: seq<BookmarkCategory>, a: seq<BookmarkCategory>,
                 b: seq<BookmarkCategory>, i: nat)
    requires IsMerge(key, cats, a) && IsMerge(key, cats, b)
    requires i < |a| && i < |b|
    requires forall j :: 0 <= j < i ==> a[j] == b[j]
    ensures FirstAt(key, cats, key(a[i].name)) <= FirstAt(key, cats, key(b[i].name))
  {
    var j := StandsLater(key, cats, a, b, i);
    InFirstOrder(key, cats, a, i, j);
  }

  lemma InFirstOrder(key: string -> string, cats: seq<BookmarkCategory>, merged: seq<BookmarkCategory>, i: nat, j: nat)
    requires IsMerge(key, cats, merged) && i <= j < |merged|
    ensures FirstAt(key, cats, key(merged[i].name)) <= FirstAt(key, cats, key(merged[j].name))
  {
  }

  /** Categories with distinct keys are already merged. */
  lemma {:induction false} MergeDistinct(key: string -> string, cats: seq<BookmarkCategory>)
    requires UniqueKeys(key, cats)
    ensures Merge(key, cats) == cats
  {
    if cats != [] {
      var last := |cats| - 1;
      MergeDistinct(key, cats[..last]);
      assert cats[..last] + [cats[last]] == cats;
    }
  }

  // ---- Normalising twice -------------------------------------------------------------------

  lemma NormalizeLinkTwice(x: Text, link: BookmarkLink, a: string, b: string)
    requires x.Lawful() && ValidCategoryName(a) == ValidCategoryName(b)
    ensures NormalizeLink(x, NormalizeLink(x, link, a), b) == NormalizeLink(x, link, a)
  {
  }

  /** Every link of a gathered key was normalised in a category of that key. */
  lemma {:induction false} GatheredNormalized(x: Text, cats: seq<BookmarkCategory>, k: string, i: nat)
    requires i < |Gathered(x.key, NormalizeCategories(x, cats), k)|
    ensures exists link: BookmarkLink, name: string ::
              x.key(name) == k && Gathered(x.key, NormalizeCategories(x, cats), k)[i] == NormalizeLink(x, link, name)
  {
    if cats != [] {
      var last, normalized := |cats| - 1, NormalizeCategories(x, cats);
      assert normalized[..last] == NormalizeCategories(x, cats[..last]);
      var before := Gathered(x.key, normalized[..last], k);
      if i < |before| {
        GatheredNormalized(x, cats[..last], k, i);
      } else {
        var name := x.normalize(cats[last].name);
        assert normalized[last].links[i - |before|] == NormalizeLink(x, cats[last].links[i - |before|], name);
      }
    }
  }

  lemma NormalizeMergedTwice(x: Text, cats: seq<BookmarkCategory>, m: BookmarkCategory)
    requires x.Lawful() && IsMergedCategory(x.key, NormalizeCategories(x, cats), m)
    ensures NormalizeCategory(x, m) == m
  {
    var normalized := NormalizeCategories(x, cats);
    var first := FirstAt(x.key, normalized, x.key(m.name));
    assert m.name == x.normalize(cats[first].name);
    forall i | 0 <= i < |m.links| ensures NormalizeLink(x, m.links[i], m.name) == m.links[i] {
      GatheredNormalized(x, cats, x.key(m.name), i);
      var link: BookmarkLink, name: string :|
        x.key(name) == x.key(m.name) && m.links[i] == NormalizeLink(x, link, name);
      NormalizeLinkTwice(x, link, name, m.name);
    }
    assert NormalizeLinks(x, m.links, m.name) == m.links;
  }

  /** A second normalisation pass changes nothing. */
  lemma NormalizeIdempotent(x: Text, cats: seq<BookmarkCategory>)
    requires x.Lawful()
    ensures Normalize(x, Normalize(x, cats)) == Normalize(x, cats)
  {
    var normalized, merged := NormalizeCategories(x, cats), Normalize(x, cats);
    MergeIsStable(x.key, normalized);
    forall i | 0 <= i < |merged| ensures NormalizeCategory(x, merged[i]) == merged[i] {
      assert IsMergedCategory(x.key, normalized, merged[i]);
      NormalizeMergedTwice(x, cats, merged[i]);
    }
    assert NormalizeCategories(x, merged) == merged;
    MergeDistinct(x.key, merged);
  }

  /** What an import may rely on: distinct keys, and no usable link under an unusable name. */
  ghost predicate IsNormalized(x: Text, cats: seq<BookmarkCategory>) {
    && UniqueKeys(x.key, cats)
    && forall i, j :: 0 <= i < |cats| && 0 <= j < |cats[i].links| && !ValidCategoryName(cats[i].name) ==>
         cats[i].links[j].problem != ""
  }

  lemma NormalizeEstablishes(x: Text, cats: seq<BookmarkCategory>)
    requires x.Lawful()
    ensures IsNormalized(x, Normalize(x, cats))
  {
    var normalized, merged := NormalizeCategories(x, cats), Normalize(x, cats);
    MergeIsStable(x.key, normalized);
    forall i, j | 0 <= i < |merged| && 0 <= j < |merged[i].links| && !ValidCategoryName(merged[i].name)
      ensures merged[i].links[j].problem != ""
    {
      assert IsMergedCategory(x.key, normalized, merged[i]);
      GatheredNormalized(x, cats, x.key(merged[i].name), j);
    }
  }

  /** What a link of a normalised batch looks like. */
  ghost predicate IsNormalLink(x: Text, link: BookmarkLink, category: string) {
    var f := link.fields;
    && x.normalize(f.name) == f.name && x.trim(f.description) == f.description && x.trim(f.url) == f.url
    && f.iconSource != "" && (f.name != "" ==> f.iconValue != "")
    && link.problem == LinkProblem(x, f, category)
  }

  /** Each field is brought into that form, and a field that has it stays. */
  lemma NormalizedFields(x: Text, raw: BookmarkLink, category: string)
    requires x.Lawful()
    ensures var link := NormalizeLink(x, raw, category);
            var f, r := link.fields, raw.fields;
            && IsNormalLink(x, link, category)
            && f.name == x.normalize(r.name) && f.description == x.trim(r.description) && f.url == x.trim(r.url)
            && (r.iconSource != "" ==> f.iconSource == r.iconSource)
            && (r.iconSource == "" ==> f.iconSource == "generated")
            && (r.iconValue != "" || f.name == "" ==> f.iconValue == r.iconValue)
            && (r.iconValue == "" && f.name != "" ==> f.iconValue == [f.name[0]])
  {
  }

  /** Every name and every link of a normalised batch has its normal form, with the problem it has under
      the name of its category. */
  lemma NormalizedLinks(x: Text, cats: seq<BookmarkCategory>, i: nat, j: nat)
    requires x.Lawful() && i < |Normalize(x, cats)| && j < |Normalize(x, cats)[i].links|
    ensures var category := Normalize(x, cats)[i];
            x.normalize(category.name) == category.name && IsNormalLink(x, category.links[j], category.name)
  {
    var normalized, merged := NormalizeCategories(x, cats), Normalize(x, cats);
    MergeIsStable(x.key, normalized);
    assert IsMergedCategory(x.key, normalized, merged[i]);
    NormalizeMergedTwice(x, cats, merged[i]);
    assert merged[i].links[j] == NormalizeLinks(x, merged[i].links, merged[i].name)[j];
  }

  /** The fields of one category, edited where they stand. */
  method NormalizeInPlace(x: Text, raw: BookmarkCategory) returns (category: BookmarkCategory)
    ensures category == NormalizeCategory(x, raw)
  {
    category := raw.(name := x.normalize(raw.name));
    for l := 0 to |category.links|
      invariant category == raw.(name := x.normalize(raw.name), links := category.links)
      invariant |category.links| == |raw.links|
      invariant forall i :: 0 <= i < l ==> category.links[i] == NormalizeLink(x, raw.links[i], category.name)
      invariant forall i :: l <= i < |category.links| ==> category.links[i] == raw.links[i]
    {
      var fields := category.links[l].fields;
      fields := fields.(name := x.normalize(fields.name));
      fields := fields.(description := x.trim(fields.description));
      fields := fields.(url := x.trim(fields.url));
      if fields.iconSource == "" { fields := fields.(iconSource := GENERATED); }
      if fields.iconValue == "" && fields.name != "" { fields := fields.(iconValue := fields.name[..1]); }
      var problem := LinkProblem(x, fields, category.name);
      category := category.(links := category.links[l := BookmarkLink(fields, problem)]);
    }
    assert category.links == NormalizeLinks(x, raw.links, category.name);
  }

  /** Categories with equal keys are folded together through a map from key to position. */
  method MergeByKey(x: Text, categories: seq<BookmarkCategory>) returns (result: seq<BookmarkCategory>)
    ensures result == Merge(x.key, categories)
  {
    result := [];
    var indexes: map<string, int> := map[];
    for c := 0 to |categories|
      invariant result == Merge(x.key, categories[..c])
      invariant IsKeyIndex(x.key, result, indexes)
    {
      var category := categories[c];
      assert categories[..c + 1][..c] == categories[..c];
      var key := x.key(category.name);
      PositionStep(x.key, result, category, indexes);
      if key in indexes {
        var index := indexes[key];
        result := result[index := result[index].(links := result[index].links + category.links)];
      } else {
        indexes := indexes[key := |result|];
        result := result + [category];
      }
    }
    assert categories[..|categories|] == categories;
  }

  /** Fields are normalised, then equal keys are merged. */
  method NormalizeBatch(x: Text, batch: seq<BookmarkCategory>) returns (result: seq<BookmarkCategory>)
    ensures result == Normalize(x, batch)
  {
    var categories := batch;
    for c := 0 to |categories|
      invariant |categories| == |batch|
      invariant forall i :: 0 <= i < c ==> categories[i] == NormalizeCategory(x, batch[i])
      invariant forall i :: c <= i < |batch| ==> categories[i] == batch[i]
    {
      var category := NormalizeInPlace(x, categories[c]);
      categories := categories[c := category];
    }
    assert categories == NormalizeCategories(x, batch);
    result := MergeByKey(x, categories);
  }

  ghost predicate IsKeyIndex(key: string -> string, merged: seq<BookmarkCategory>, indexes: map<string, int>) {
    && (forall k :: k in indexes <==> FirstAt(key, merged, k) < |merged|)
    && (forall k :: k in indexes ==> indexes[k] == FirstAt(key, merged, k))
  }

  lemma PositionStep(key: string -> string, merged: seq<BookmarkCategory>, c: BookmarkCategory,
                     indexes: map<string, int>)
    requires IsKeyIndex(key, merged, indexes)
    ensures IsKeyIndex(key, MergeOne(key, merged, c),
                       if key(c.name) in indexes then indexes else indexes[key(c.name) := |merged|])
    ensures key(c.name) in indexes ==>
      var i := indexes[key(c.name)];
      0 <= i < |merged| && MergeOne(key, merged, c) == merged[i := merged[i].(links := merged[i].links + c.links)]
    ensures key(c.name) !in indexes ==> MergeOne(key, merged, c) == merged + [c]
  {
    forall k { MergeOneFirstAt(key, merged, c, k); }
  }

  lemma MergeOneFirstAt(key: string -> string, merged: seq<BookmarkCategory>, c: BookmarkCategory, k: string)
    ensures var merged' := MergeOne(key, merged, c);
            FirstAt(key, merged', k) ==
            if FirstAt(key, merged, k) < |merged| then FirstAt(key, merged, k)
            else if key(c.name) == k then |merged| else |merged'|
  {
    var merged' := MergeOne(key, merged, c);
    assert forall i :: 0 <= i < |merged| ==> merged'[i].name == merged[i].name;
    assert |merged'| > |merged| ==> merged'[|merged|] == c;
  }
}
