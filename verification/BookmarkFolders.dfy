/** What the names of parsed categories say about the folders their links were in. */
module BookmarkFolders {
  import opened Navigation
  import opened Bookmarks
  import opened BookmarkParser

  const SEPARATOR := " / "

  // ---- Names of paths ------------------------------------------------------------------------------

  lemma JoinOne(name: string)
    ensures Join([name]) == name
  {
  }

  /** The names of a path, outermost first, with separators between them. */
  lemma {:induction false} JoinConcat(a: seq<string>, b: seq<string>)
    requires a != [] && b != []
    ensures Join(a + b) == Join(a) + SEPARATOR + Join(b)
  {
    var last := |b| - 1;
    if last == 0 {
      assert (a + b)[..|a|] == a && b == [b[0]];
    } else {
      JoinConcat(a, b[..last]);
      assert (a + b)[..|a| + last] == a + b[..last];
      assert Join(a) + SEPARATOR + Join(b[..last]) + SEPARATOR + b[last] ==
             Join(a) + SEPARATOR + (Join(b[..last]) + SEPARATOR + b[last]);
    }
  }

  ghost predicate NoSlash(path: seq<string>) {
    forall i :: 0 <= i < |path| ==> '/' !in path[i]
  }

  lemma JoinFirst(path: seq<string>)
    requires path != []
    ensures |path| == 1 ==> Join(path) == path[0]
    ensures |path| > 1 ==> Join(path) == path[0] + SEPARATOR + Join(path[1..])
  {
    if |path| > 1 {
      JoinConcat([path[0]], path[1..]);
      assert [path[0]] + path[1..] == path;
    }
  }

  /** Two texts that agree up to their first slash agree before and after it. */
  lemma SplitAtSlash(a: string, b: string, c: string, d: string)
    requires '/' !in a && '/' !in c && a + "/" + b == c + "/" + d
    ensures a == c && b == d
  {
    var s := a + "/" + b;
    assert s[|a|] == '/' && s[|c|] == '/';
    forall i | 0 <= i < |a| ensures s[i] != '/' { assert s[i] == a[i]; }
    forall i | 0 <= i < |c| ensures s[i] != '/' { assert s[i] == c[i]; }
    assert a == s[..|a|] == c && b == s[|a| + 1..] == d;
  }

  lemma JoinHasSlash(path: seq<string>)
    requires |path| > 1
    ensures Join(path) == (path[0] + " ") + "/" + (" " + Join(path[1..]))
  {
    JoinFirst(path);
    assert path[0] + SEPARATOR + Join(path[1..]) == (path[0] + " ") + "/" + (" " + Join(path[1..]));
  }

  lemma SlashBetween(path: seq<string>)
    requires path != [] && NoSlash(path)
    ensures '/' in Join(path) <==> |path| > 1
  {
    JoinFirst(path);
    if |path| > 1 { JoinHasSlash(path); }
  }

  /** Without slashes in the names, a name tells the path. */
  lemma {:induction false} JoinInjective(a: seq<string>, b: seq<string>)
    requires a != [] && b != [] && NoSlash(a) && NoSlash(b) && Join(a) == Join(b)
    ensures a == b
  {
    SlashBetween(a);
    SlashBetween(b);
    JoinFirst(a);
    JoinFirst(b);
    if |a| > 1 {
      JoinHasSlash(a);
      JoinHasSlash(b);
      SplitAtSlash(a[0] + " ", " " + Join(a[1..]), b[0] + " ", " " + Join(b[1..]));
      assert a[0] == (a[0] + " ")[..|a[0]|] == b[0];
      assert Join(a[1..]) == (" " + Join(a[1..]))[1..] == Join(b[1..]);
      JoinInjective(a[1..], b[1..]);
    }
    assert a == [a[0]] + a[1..] && b == [b[0]] + b[1..];
  }

  /** Outside of any folder, or in a top-level folder with the name that stands for that. */
  predicate IsUnfiled(path: seq<string>) { path == [] || path == [UNFILED_NAME] }

  /** Two paths whose names have no slash share a category exactly if they are the same, but for the
      unfiled one. */
  lemma SharedExactly(a: seq<string>, b: seq<string>)
    requires NoSlash(a) && NoSlash(b)
    ensures CategoryName(a) == CategoryName(b) <==> a == b || (IsUnfiled(a) && IsUnfiled(b))
  {
    JoinOne(UNFILED_NAME);
    assert NoSlash([UNFILED_NAME]);
    if CategoryName(a) == CategoryName(b) {
      JoinInjective(if a == [] then [UNFILED_NAME] else a, if b == [] then [UNFILED_NAME] else b);
    }
  }

  /** With a slash in a name they may: a folder, and two nested ones. */
  lemma SlashesCollide()
    ensures CategoryName(["a / b"]) == CategoryName(["a", "b"])
  {
    JoinOne("a");
    JoinOne("b");
    JoinConcat(["a"], ["b"]);
    assert ["a"] + ["b"] == ["a", "b"];
  }

  // ---- The links of a tree ---------------------------------------------------------------------------

  /** A link with the headings of all folders around it, outermost first. */
  datatype Leaf = Leaf(headings: seq<string>, text: string, href: string)

  function Leaves(f: Forest, headings: seq<string>): seq<Leaf> {
    match f
    case Empty => []
    case Folder(heading, _, inside, after) => Leaves(inside, headings + [Concat(heading)]) + Leaves(after, headings)
    case Anchor(href, text, after) => [Leaf(headings, Concat(text), href)] + Leaves(after, headings)
    case Noise(_, after) => Leaves(after, headings)
  }

  /** The names of the folders that have one. */
  function Path(x: Text, headings: seq<string>): seq<string> {
    if headings == [] then []
    else
      var name := x.normalize(headings[|headings| - 1]);
      Path(x, headings[..|headings| - 1]) + if name == "" then [] else [name]
  }

  /** The link in the batch. */
  function LinkOf(x: Text, leaf: Leaf): BookmarkLink {
    BookmarkLink(LinkFields(x.normalize(leaf.text), "", x.trim(leaf.href), "generated", ""), "")
  }

  /** One link under each name, in document order. */
  ghost predicate FiledAs(x: Text, items: seq<BookmarkCategory>, leaves: seq<Leaf>) {
    |items| == |leaves| && forall i :: 0 <= i < |leaves| ==>
      items[i].name == CategoryName(Path(x, leaves[i].headings)) && items[i].iconName == "" &&
      items[i].visibility == "" && items[i].links == [LinkOf(x, leaves[i])]
  }

  lemma PathInside(x: Text, headings: seq<string>, heading: seq<string>)
    ensures Path(x, headings + [Concat(heading)]) == Inside(x, Path(x, headings), heading)
  {
    assert (headings + [Concat(heading)])[..|headings|] == headings;
  }

  lemma {:induction false} FlattenedLeaves(x: Text, f: Forest, headings: seq<string>)
    ensures FiledAs(x, Flatten(x, f, Path(x, headings)), Leaves(f, headings))
    decreases f
  {
    match f
    case Empty =>
    case Folder(heading, _, inside, after) =>
      PathInside(x, headings, heading);
      FlattenedLeaves(x, inside, headings + [Concat(heading)]);
      FlattenedLeaves(x, after, headings);
    case Anchor(_, _, after) => FlattenedLeaves(x, after, headings);
    case Noise(_, after) => FlattenedLeaves(x, after, headings);
  }

  /** The links whose folders give this name, in document order. */
  function LinksUnder(x: Text, leaves: seq<Leaf>, name: string): seq<BookmarkLink> {
    if leaves == [] then []
    else
      var last := |leaves| - 1;
      LinksUnder(x, leaves[..last], name) +
      if CategoryName(Path(x, leaves[last].headings)) == name then [LinkOf(x, leaves[last])] else []
  }

  lemma {:induction false} GatheredLeaves(x: Text, items: seq<BookmarkCategory>, leaves: seq<Leaf>, name: string)
    requires FiledAs(x, items, leaves)
    ensures Gathered(Same, items, name) == LinksUnder(x, leaves, name)
  {
    if items != [] {
      var last := |items| - 1;
      GatheredLeaves(x, items[..last], leaves[..last], name);
      assert items[last].links == [LinkOf(x, leaves[last])];
    }
  }

  ghost predicate HasName(categories: seq<BookmarkCategory>, name: string) {
    exists i :: 0 <= i < |categories| && categories[i].name == name
  }

  ghost predicate IsFolder(x: Text, leaves: seq<Leaf>, category: BookmarkCategory) {
    && FirstUnder(x, leaves, category.name) < |leaves|
    && category == BookmarkCategory(category.name, "", "", LinksUnder(x, leaves, category.name))
  }

  /** The categories of a parsed tree: one for each name, in the order of first links, with exactly the
      links whose folders give that name, in document order. */
  ghost predicate IsFiling(x: Text, leaves: seq<Leaf>, categories: seq<BookmarkCategory>) {
    && (forall i, j :: 0 <= i < j < |categories| ==>
          FirstUnder(x, leaves, categories[i].name) < FirstUnder(x, leaves, categories[j].name))
    && (forall k :: 0 <= k < |leaves| ==> HasName(categories, CategoryName(Path(x, leaves[k].headings))))
    && (forall i :: 0 <= i < |categories| ==> IsFolder(x, leaves, categories[i]))
  }

  /** The first link whose folders give the name. */
  function FirstUnder(x: Text, leaves: seq<Leaf>, name: string): (k: nat)
    ensures k <= |leaves|
  {
    if leaves == [] || CategoryName(Path(x, leaves[0].headings)) == name then 0
    else 1 + FirstUnder(x, leaves[1..], name)
  }

  lemma {:induction false} FirstLeaf(x: Text, items: seq<BookmarkCategory>, leaves: seq<Leaf>, name: string)
    requires FiledAs(x, items, leaves)
    ensures FirstAt(Same, items, name) == FirstUnder(x, leaves, name)
  {
    if items != [] && items[0].name != name {
      assert FiledAs(x, items[1..], leaves[1..]) by {
        forall i | 0 <= i < |leaves[1..]| ensures items[1..][i] == items[i + 1] && leaves[1..][i] == leaves[i + 1] {}
      }
      FirstLeaf(x, items[1..], leaves[1..], name);
    }
  }

  lemma MergedFolder(x: Text, items: seq<BookmarkCategory>, leaves: seq<Leaf>, m: BookmarkCategory)
    requires FiledAs(x, items, leaves) && IsMergedCategory(Same, items, m)
    ensures IsFolder(x, leaves, m)
  {
    FirstLeaf(x, items, leaves, m.name);
    GatheredLeaves(x, items, leaves, m.name);
  }

  lemma MergeIsFiling(x: Text, items: seq<BookmarkCategory>, leaves: seq<Leaf>, merged: seq<BookmarkCategory>)
    requires FiledAs(x, items, leaves) && IsMerge(Same, items, merged)
    ensures IsFiling(x, leaves, merged)
  {
    forall i | 0 <= i < |merged| ensures IsFolder(x, leaves, merged[i]) { MergedFolder(x, items, leaves, merged[i]); }
    forall i, j | 0 <= i < j < |merged|
      ensures FirstUnder(x, leaves, merged[i].name) < FirstUnder(x, leaves, merged[j].name)
    {
      FirstLeaf(x, items, leaves, merged[i].name);
      FirstLeaf(x, items, leaves, merged[j].name);
    }
    forall k | 0 <= k < |leaves| ensures HasName(merged, CategoryName(Path(x, leaves[k].headings))) {
      assert HasKey(Same, merged, Same(items[k].name));
    }
  }

  /** A parsed bookmark file of any depth holds its links under the names of their folders. */
  lemma ParserFiles(x: Text, prologue: seq<Filler>, f: Forest, epilogue: seq<Filler>)
    ensures IsFiling(x, Leaves(f, []), Run(x, FRESH, Document(prologue, f, epilogue)).categories)
  {
    ParserFlattens(x, prologue, f, epilogue);
    FlattenedLeaves(x, f, []);
    MergeIsFiling(x, Flatten(x, f, []), Leaves(f, []), Run(x, FRESH, Document(prologue, f, epilogue)).categories);
  }

  /** The name a link is filed under: that of its folders, outermost first, without nameless ones; and
      outside of any folder the fixed one. */
  lemma FolderName(x: Text, headings: seq<string>, inner: string)
    ensures CategoryName(Path(x, [])) == UNFILED_NAME
    ensures x.normalize(inner) == "" ==> Path(x, headings + [inner]) == Path(x, headings)
    ensures x.normalize(inner) != "" ==>
            CategoryName(Path(x, headings + [inner])) ==
            if Path(x, headings) == [] then x.normalize(inner)
            else CategoryName(Path(x, headings)) + SEPARATOR + x.normalize(inner)
  {
    var name := x.normalize(inner);
    assert (headings + [inner])[..|headings|] == headings;
    JoinOne(name);
    if Path(x, headings) != [] && name != "" { JoinConcat(Path(x, headings), [name]); }
  }
}
