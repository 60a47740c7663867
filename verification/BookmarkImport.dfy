/** Importing a bookmark batch, as list operations on the navigation. */
module BookmarkImport {
  import opened Navigation
  import opened Bookmarks

  datatype Strategy = Skip | Update | Create

  datatype CommitResult = CommitResult(
    createdCategories: nat, createdLinks: nat, updatedLinks: nat, skippedLinks: nat, invalidLinks: nat,
    importedLinkIds: seq<int>)

  /** `slugs` is the random source: the slug drawn for the category that gets a given id. */
  datatype Options = Options(visibility: Visibility, duplicates: Strategy, slugs: int -> string)

  /** The navigation while it is being imported into, with the two lookup maps. */
  datatype ImportState = ImportState(
    nav: seq<Group>, lastCategoryId: int, lastLinkId: int,
    categories: map<string, int>,   // category key to category id
    links: map<string, int>,        // canonical URL to link id
    result: CommitResult)

  const NOTHING_YET := CommitResult(0, 0, 0, 0, 0, [])

  function CountInvalid(r: CommitResult, n: nat): CommitResult { r.(invalidLinks := r.invalidLinks + n) }

  function CountSkipped(r: CommitResult): CommitResult { r.(skippedLinks := r.skippedLinks + 1) }

  function CountUpdated(r: CommitResult, id: int): CommitResult {
    r.(updatedLinks := r.updatedLinks + 1, importedLinkIds := r.importedLinkIds + [id])
  }

  function CountCreated(r: CommitResult, id: int): CommitResult {
    r.(createdLinks := r.createdLinks + 1, importedLinkIds := r.importedLinkIds + [id])
  }

  function CountCategory(r: CommitResult): CommitResult { r.(createdCategories := r.createdCategories + 1) }

  function ImportLink(x: Text, st: ImportState, categoryId: int, link: BookmarkLink, strategy: Strategy): ImportState {
    var canonical := x.canonical(link.fields.url);
    if link.problem != "" then
      st.(result := CountInvalid(st.result, 1))
    else if canonical in st.links && strategy == Skip then
      st.(result := CountSkipped(st.result))
    else if canonical in st.links && strategy == Update then
      var id := st.links[canonical];
      st.(nav := AppendLink(RemoveLink(st.nav, id), categoryId, Link(id, link.fields)),
          result := CountUpdated(st.result, id))
    else
      var id := st.lastLinkId + 1;
      st.(nav := AppendLink(st.nav, categoryId, Link(id, link.fields)),
          lastLinkId := id, links := st.links[canonical := id],
          result := CountCreated(st.result, id))
  }

  function ImportLinks(x: Text, st: ImportState, categoryId: int, links: seq<BookmarkLink>,
                       strategy: Strategy): ImportState {
    if links == [] then st
    else
      var last := |links| - 1;
      ImportLink(x, ImportLinks(x, st, categoryId, links[..last], strategy), categoryId, links[last], strategy)
  }

  /** The group a category's links go to, appended if its key is not known yet. */
  function EnsureGroup(x: Text, st: ImportState, category: BookmarkCategory, options: Options): ImportState {
    var key := x.key(category.name);
    if key in st.categories then st
    else
      var id := st.lastCategoryId + 1;
      st.(nav := st.nav +
          [Group(Category(id, category.name, options.slugs(id), category.iconName, options.visibility), [])],
          lastCategoryId := id, categories := st.categories[key := id],
          result := CountCategory(st.result))
  }

  function ImportCategory(x: Text, st: ImportState, category: BookmarkCategory, options: Options): ImportState {
    if !ValidCategoryName(category.name) then
      st.(result := CountInvalid(st.result, |category.links|))
    else
      var grouped := EnsureGroup(x, st, category, options);
      ImportLinks(x, grouped, grouped.categories[x.key(category.name)], category.links, options.duplicates)
  }

  function Import(x: Text, st: ImportState, batch: seq<BookmarkCategory>, options: Options): ImportState {
    if batch == [] then st
    else ImportCategory(x, Import(x, st, batch[..|batch| - 1], options), batch[|batch| - 1], options)
  }

  // ---- The lookup maps -------------------------------------------------------------------

  ghost function AllLinks(nav: seq<Group>): set<Link> {
    set group, link | group in nav && link in group.links :: link
  }

  ghost predicate HasCategory(x: Text, nav: seq<Group>, id: int, key: string) {
    exists group :: group in nav && group.category.id == id && x.key(group.category.name) == key
  }

  ghost predicate HasLink(x: Text, all: set<Link>, id: int, canonical: string) {
    exists link :: link in all && link.id == id && x.canonical(link.fields.url) == canonical
  }

  /** Each key leads to a category with that key, and no category is missing. */
  ghost predicate IsCategoryIndex(x: Text, nav: seq<Group>, index: map<string, int>) {
    && (forall key :: key in index ==> HasCategory(x, nav, index[key], key))
    && (forall group :: group in nav ==> x.key(group.category.name) in index)
  }

  /** Each canonical URL leads to a link with that URL, and no link is missing. */
  ghost predicate IsLinkIndex(x: Text, all: set<Link>, index: map<string, int>) {
    && (forall canonical :: canonical in index ==> HasLink(x, all, index[canonical], canonical))
    && (forall link :: link in all ==> x.canonical(link.fields.url) in index)
  }

  ghost predicate UniqueIds(all: set<Link>, last: int) {
    && (forall link :: link in all ==> link.id <= last)
    && (forall a, b :: a in all && b in all && a.id == b.id ==> a == b)
  }

  ghost predicate Consistent(x: Text, st: ImportState) {
    && IsCategoryIndex(x, st.nav, st.categories)
    && IsLinkIndex(x, AllLinks(st.nav), st.links)
    && UniqueIds(AllLinks(st.nav), st.lastLinkId)
  }

  lemma {:induction false} DropLinkMembers(links: seq<Link>, id: int)
    ensures forall link :: link in DropLink(links, id) <==> link in links && link.id != id
  {
    if links != [] {
      DropLinkMembers(links[1..], id);
      assert links == [links[0]] + links[1..];
    }
  }

  lemma RemoveLinkMembers(nav: seq<Group>, id: int)
    ensures forall link :: link in AllLinks(RemoveLink(nav, id)) <==> link in AllLinks(nav) && link.id != id
  {
    var nav' := RemoveLink(nav, id);
    forall link | link in AllLinks(nav') ensures link in AllLinks(nav) && link.id != id {
      var i :| 0 <= i < |nav'| && link in nav'[i].links;
      DropLinkMembers(nav[i].links, id);
      assert nav[i] in nav;
    }
    forall link | link in AllLinks(nav) && link.id != id ensures link in AllLinks(nav') {
      var i :| 0 <= i < |nav| && link in nav[i].links;
      DropLinkMembers(nav[i].links, id);
      assert nav'[i] in nav';
    }
  }

  ghost predicate HasGroup(nav: seq<Group>, id: int) {
    exists i :: 0 <= i < |nav| && nav[i].category.id == id
  }

  lemma AppendLinkMembers(nav: seq<Group>, categoryId: int, link: Link)
    requires HasGroup(nav, categoryId)
    ensures AllLinks(AppendLink(nav, categoryId, link)) == AllLinks(nav) + {link}
  {
    var nav' := AppendLink(nav, categoryId, link);
    forall l | l in AllLinks(nav') ensures l in AllLinks(nav) + {link} {
      var i :| 0 <= i < |nav'| && l in nav'[i].links;
      if l in nav[i].links { assert nav[i] in nav; }
    }
    forall l | l in AllLinks(nav) ensures l in AllLinks(nav') {
      var i :| 0 <= i < |nav| && l in nav[i].links;
      assert nav'[i] in nav' && l in nav'[i].links;
    }
    var i :| 0 <= i < |nav| && nav[i].category.id == categoryId;
    assert nav'[i] in nav' && link in nav'[i].links;
  }

  /** `a` and `b` list the same categories; only links differ. */
  ghost predicate SameCategories(a: seq<Group>, b: seq<Group>) {
    |a| == |b| && forall i :: 0 <= i < |a| ==> a[i].category == b[i].category
  }

  lemma SameCategoriesIndex(x: Text, a: seq<Group>, b: seq<Group>, index: map<string, int>)
    requires SameCategories(a, b) && IsCategoryIndex(x, a, index)
    ensures IsCategoryIndex(x, b, index)
  {
    forall key | key in index ensures HasCategory(x, b, index[key], key) {
      assert HasCategory(x, a, index[key], key);
      var i :| 0 <= i < |a| && a[i].category.id == index[key] && x.key(a[i].category.name) == key;
      assert b[i] in b;
    }
    forall group | group in b ensures x.key(group.category.name) in index {
      var i :| 0 <= i < |b| && b[i] == group;
      assert a[i] in a;
    }
  }

  /** The links once `link` is placed: it replaces any link with its id. */
  ghost function Placed(all: set<Link>, link: Link): set<Link> {
    (set other | other in all && other.id != link.id) + {link}
  }

  lemma PlacedMembers(nav: seq<Group>, categoryId: int, link: Link, updating: bool)
    requires HasGroup(nav, categoryId)
    requires updating || forall other :: other in AllLinks(nav) ==> other.id != link.id
    ensures var nav' := AppendLink(if updating then RemoveLink(nav, link.id) else nav, categoryId, link);
            AllLinks(nav') == Placed(AllLinks(nav), link) && SameCategories(nav, nav')
  {
    var base := if updating then RemoveLink(nav, link.id) else nav;
    RemoveLinkMembers(nav, link.id);
    SameHasGroup(nav, base, categoryId);
    AppendLinkMembers(base, categoryId, link);
  }

  lemma SameHasGroup(a: seq<Group>, b: seq<Group>, id: int)
    requires SameCategories(a, b) && HasGroup(a, id)
    ensures HasGroup(b, id)
  {
    var i :| 0 <= i < |a| && a[i].category.id == id;
    assert b[i].category.id == id;
  }

  lemma PlacedIndex(x: Text, all: set<Link>, index: map<string, int>, link: Link, last: int)
    requires IsLinkIndex(x, all, index) && UniqueIds(all, last)
    requires forall other :: other in all && other.id == link.id ==>
               x.canonical(other.fields.url) == x.canonical(link.fields.url)
    ensures IsLinkIndex(x, Placed(all, link), index[x.canonical(link.fields.url) := link.id])
    ensures UniqueIds(Placed(all, link), if link.id > last then link.id else last)
  {
    var canonical := x.canonical(link.fields.url);
    var index' := index[canonical := link.id];
    forall c | c in index' ensures HasLink(x, Placed(all, link), index'[c], c) {
      if c == canonical {
        assert link in Placed(all, link);
      } else {
        assert HasLink(x, all, index[c], c);
        var other :| other in all && other.id == index[c] && x.canonical(other.fields.url) == c;
        assert other in Placed(all, link);
      }
    }
  }

  /** Whether the link is put somewhere, as which id, and whether that id is already taken. */
  predicate Places(x: Text, st: ImportState, link: BookmarkLink, strategy: Strategy) {
    link.problem == "" && !(x.canonical(link.fields.url) in st.links && strategy == Skip)
  }

  predicate Updates(x: Text, st: ImportState, link: BookmarkLink, strategy: Strategy) {
    x.canonical(link.fields.url) in st.links && strategy == Update
  }

  function PlacedId(x: Text, st: ImportState, link: BookmarkLink, strategy: Strategy): int {
    if Updates(x, st, link, strategy) then st.links[x.canonical(link.fields.url)] else st.lastLinkId + 1
  }

  lemma ImportLinkPlaces(x: Text, st: ImportState, categoryId: int, link: BookmarkLink, strategy: Strategy)
    requires Consistent(x, st) && HasGroup(st.nav, categoryId) && Places(x, st, link, strategy)
    ensures var st', id := ImportLink(x, st, categoryId, link, strategy), PlacedId(x, st, link, strategy);
            AllLinks(st'.nav) == Placed(AllLinks(st.nav), Link(id, link.fields)) && SameCategories(st.nav, st'.nav)
    ensures forall other :: other in AllLinks(st.nav) && other.id == PlacedId(x, st, link, strategy) ==>
              x.canonical(other.fields.url) == x.canonical(link.fields.url)
  {
    var id, updating := PlacedId(x, st, link, strategy), Updates(x, st, link, strategy);
    PlacedMembers(st.nav, categoryId, Link(id, link.fields), updating);
    if updating { assert HasLink(x, AllLinks(st.nav), id, x.canonical(link.fields.url)); }
  }

  lemma ImportLinkMaps(x: Text, st: ImportState, categoryId: int, link: BookmarkLink, strategy: Strategy)
    requires IsLinkIndex(x, AllLinks(st.nav), st.links) && UniqueIds(AllLinks(st.nav), st.lastLinkId)
    ensures var st', id := ImportLink(x, st, categoryId, link, strategy), PlacedId(x, st, link, strategy);
            && st'.categories == st.categories
            && if Places(x, st, link, strategy)
               then st'.links == st.links[x.canonical(link.fields.url) := id] &&
                    st'.lastLinkId == if id > st.lastLinkId then id else st.lastLinkId
               else st' == st.(result := st'.result) &&
                    (link.problem == "" ==> x.canonical(link.fields.url) in st.links)
  {
    var canonical := x.canonical(link.fields.url);
    if Updates(x, st, link, strategy) {
      assert HasLink(x, AllLinks(st.nav), st.links[canonical], canonical);
      assert st.links[canonical := st.links[canonical]] == st.links;
    }
  }

  lemma ImportLinkConsistent(x: Text, st: ImportState, categoryId: int, link: BookmarkLink, strategy: Strategy)
    requires Consistent(x, st) && HasGroup(st.nav, categoryId)
    ensures var st' := ImportLink(x, st, categoryId, link, strategy);
            Consistent(x, st') && SameCategories(st.nav, st'.nav) && st'.categories == st.categories
    ensures link.problem == "" ==> x.canonical(link.fields.url) in ImportLink(x, st, categoryId, link, strategy).links
    ensures st.links.Keys <= ImportLink(x, st, categoryId, link, strategy).links.Keys
  {
    ImportLinkMaps(x, st, categoryId, link, strategy);
    if Places(x, st, link, strategy) {
      var st', id := ImportLink(x, st, categoryId, link, strategy), PlacedId(x, st, link, strategy);
      ImportLinkPlaces(x, st, categoryId, link, strategy);
      PlacedIndex(x, AllLinks(st.nav), st.links, Link(id, link.fields), st.lastLinkId);
      SameCategoriesIndex(x, st.nav, st'.nav, st.categories);
    }
  }

  ghost predicate KnowsLinks(x: Text, st: ImportState, links: seq<BookmarkLink>) {
    forall i :: 0 <= i < |links| && links[i].problem == "" ==> x.canonical(links[i].fields.url) in st.links
  }

  lemma KnowsLast(x: Text, st: ImportState, st': ImportState, links: seq<BookmarkLink>)
    requires links != [] && KnowsLinks(x, st, links[..|links| - 1]) && st.links.Keys <= st'.links.Keys
    requires links[|links| - 1].problem == "" ==> x.canonical(links[|links| - 1].fields.url) in st'.links
    ensures KnowsLinks(x, st', links)
  {
    var last := |links| - 1;
    forall i | 0 <= i < |links| && links[i].problem == "" ensures x.canonical(links[i].fields.url) in st'.links {
      if i < last {
        assert links[..last][i] == links[i];
        assert x.canonical(links[i].fields.url) in st.links.Keys;
      }
    }
  }

  lemma {:induction false} ImportLinksConsistent(x: Text, st: ImportState, categoryId: int, links: seq<BookmarkLink>,
                                                 strategy: Strategy)
    requires Consistent(x, st) && HasGroup(st.nav, categoryId)
    ensures var st' := ImportLinks(x, st, categoryId, links, strategy);
            Consistent(x, st') && SameCategories(st.nav, st'.nav) && st'.categories == st.categories &&
            st.links.Keys <= st'.links.Keys && KnowsLinks(x, st', links)
  {
    if links != [] {
      var last := |links| - 1;
      ImportLinksConsistent(x, st, categoryId, links[..last], strategy);
      var before := ImportLinks(x, st, categoryId, links[..last], strategy);
      SameHasGroup(st.nav, before.nav, categoryId);
      ImportLinkConsistent(x, before, categoryId, links[last], strategy);
      KnowsLast(x, before, ImportLinks(x, st, categoryId, links, strategy), links);
    }
  }

  lemma EnsureGroupConsistent(x: Text, st: ImportState, category: BookmarkCategory, options: Options)
    requires Consistent(x, st)
    ensures var st' := EnsureGroup(x, st, category, options);
            Consistent(x, st') && HasGroup(st'.nav, st'.categories[x.key(category.name)]) &&
            st'.links == st.links && st.categories.Keys <= st'.categories.Keys &&
            AllLinks(st'.nav) == AllLinks(st.nav)
  {
    var st', key := EnsureGroup(x, st, category, options), x.key(category.name);
    if key !in st.categories {
      var group := st'.nav[|st.nav|];
      assert st'.nav == st.nav + [group];
      assert AllLinks(st'.nav) == AllLinks(st.nav);
      forall k | k in st'.categories ensures HasCategory(x, st'.nav, st'.categories[k], k) {
        if k == key { assert group in st'.nav; } else { assert HasCategory(x, st.nav, st.categories[k], k); }
      }
      forall c | c in st'.links ensures HasLink(x, AllLinks(st'.nav), st'.links[c], c) {
        assert HasLink(x, AllLinks(st.nav), st.links[c], c);
      }
      assert st'.nav[|st.nav|].category.id == st'.categories[key];
    } else {
      assert HasCategory(x, st.nav, st.categories[key], key);
    }
  }

  /** Importing keeps both maps exact, and afterwards knows every usable category and link. */
  lemma ImportCategoryConsistent(x: Text, st: ImportState, category: BookmarkCategory, options: Options)
    requires Consistent(x, st)
    ensures var st' := ImportCategory(x, st, category, options);
            Consistent(x, st') && Knows(x, st', category) &&
            st.links.Keys <= st'.links.Keys && st.categories.Keys <= st'.categories.Keys
  {
    if ValidCategoryName(category.name) {
      EnsureGroupConsistent(x, st, category, options);
      var started := EnsureGroup(x, st, category, options);
      ImportLinksConsistent(x, started, started.categories[x.key(category.name)], category.links, options.duplicates);
    }
  }

  ghost predicate Knows(x: Text, st: ImportState, category: BookmarkCategory) {
    ValidCategoryName(category.name) ==>
      && x.key(category.name) in st.categories
      && KnowsLinks(x, st, category.links)
  }

  lemma {:induction false} ImportConsistent(x: Text, st: ImportState, batch: seq<BookmarkCategory>, options: Options)
    requires Consistent(x, st)
    ensures var st' := Import(x, st, batch, options);
            Consistent(x, st') && (forall i :: 0 <= i < |batch| ==> Knows(x, st', batch[i])) &&
            st.links.Keys <= st'.links.Keys && st.categories.Keys <= st'.categories.Keys
  {
    if batch != [] {
      var last := |batch| - 1;
      ImportConsistent(x, st, batch[..last], options);
      var before := Import(x, st, batch[..last], options);
      ImportCategoryConsistent(x, before, batch[last], options);
      forall i | 0 <= i < last ensures Knows(x, Import(x, st, batch, options), batch[i]) {
        assert Knows(x, before, batch[..last][i]);
      }
    }
  }

  // ---- Importing again -------------------------------------------------------------------

  /** An import that starts from a list; the lookup maps are rebuilt from it. */
  ghost predicate IsStart(x: Text, st: ImportState, nav: seq<Group>) {
    st.nav == nav && st.result == NOTHING_YET && Consistent(x, st)
  }

  lemma SameKeys(x: Text, a: ImportState, b: ImportState)
    requires Consistent(x, a) && Consistent(x, b) && a.nav == b.nav
    ensures a.links.Keys == b.links.Keys && a.categories.Keys == b.categories.Keys
  {
    forall c | c in a.links ensures c in b.links { assert HasLink(x, AllLinks(a.nav), a.links[c], c); }
    forall c | c in b.links ensures c in a.links { assert HasLink(x, AllLinks(b.nav), b.links[c], c); }
    forall k | k in a.categories ensures k in b.categories { assert HasCategory(x, a.nav, a.categories[k], k); }
    forall k | k in b.categories ensures k in a.categories { assert HasCategory(x, b.nav, b.categories[k], k); }
  }

  lemma {:induction false} SkipKnownLinks(x: Text, st: ImportState, categoryId: int, links: seq<BookmarkLink>)
    requires KnowsLinks(x, st, links)
    ensures var st' := ImportLinks(x, st, categoryId, links, Skip);
            st' == st.(result := st'.result) && st'.result.createdLinks == st.result.createdLinks &&
            st'.result.createdCategories == st.result.createdCategories
  {
    if links != [] {
      var last := |links| - 1;
      forall i | 0 <= i < last ensures links[..last][i] == links[i] {}
      SkipKnownLinks(x, st, categoryId, links[..last]);
    }
  }

  lemma {:induction false} SkipKnown(x: Text, st: ImportState, batch: seq<BookmarkCategory>, options: Options)
    requires options.duplicates == Skip
    requires forall i :: 0 <= i < |batch| ==> Knows(x, st, batch[i])
    ensures var st' := Import(x, st, batch, options);
            st' == st.(result := st'.result) && st'.result.createdLinks == st.result.createdLinks &&
            st'.result.createdCategories == st.result.createdCategories
  {
    if batch != [] {
      var last := |batch| - 1;
      forall i | 0 <= i < last ensures batch[..last][i] == batch[i] {}
      SkipKnown(x, st, batch[..last], options);
      var before := Import(x, st, batch[..last], options);
      assert Knows(x, before, batch[last]) by { assert Knows(x, st, batch[last]); }
      if ValidCategoryName(batch[last].name) {
        SkipKnownLinks(x, before, before.categories[x.key(batch[last].name)], batch[last].links);
      }
    }
  }

  /** After an import with any strategy, skip-importing the same batch creates nothing and
      leaves the navigation as it is. */
  lemma ReimportCreatesNothing(x: Text, first: ImportState, second: ImportState, batch: seq<BookmarkCategory>,
                               options: Options, again: Options)
    requires Consistent(x, first) && again.duplicates == Skip
    requires IsStart(x, second, Import(x, first, batch, options).nav)
    ensures var done := Import(x, second, batch, again);
            done.nav == second.nav && done.result.createdLinks == 0 && done.result.createdCategories == 0
  {
    ImportConsistent(x, first, batch, options);
    var st := Import(x, first, batch, options);
    SameKeys(x, st, second);
    forall i | 0 <= i < |batch| ensures Knows(x, second, batch[i]) { assert Knows(x, st, batch[i]); }
    SkipKnown(x, second, batch, again);
  }

  // ---- Canonical URLs stay unique ----------------------------------------------------------

  ghost predicate UniqueUrls(x: Text, nav: seq<Group>) { UniqueIn(x, AllLinks(nav)) }

  ghost predicate UniqueIn(x: Text, all: set<Link>) {
    forall a, b :: a in all && b in all && x.canonical(a.fields.url) == x.canonical(b.fields.url) ==> a == b
  }

  /** A link that replaces the only one with its URL, if there is one, keeps URLs unique. */
  lemma PlacedUnique(x: Text, all: set<Link>, link: Link)
    requires UniqueIn(x, all)
    requires forall other :: other in all && x.canonical(other.fields.url) == x.canonical(link.fields.url) ==>
             other.id == link.id
    ensures UniqueIn(x, Placed(all, link))
  {
  }

  lemma SameUrlIsReplaced(x: Text, st: ImportState, link: BookmarkLink, strategy: Strategy, other: Link)
    requires Consistent(x, st) && strategy != Create && UniqueUrls(x, st.nav) && Places(x, st, link, strategy)
    requires other in AllLinks(st.nav) && x.canonical(other.fields.url) == x.canonical(link.fields.url)
    ensures other.id == PlacedId(x, st, link, strategy)
  {
    var canonical := x.canonical(link.fields.url);
    assert HasLink(x, AllLinks(st.nav), st.links[canonical], canonical);
  }

  lemma ImportLinkUnique(x: Text, st: ImportState, categoryId: int, link: BookmarkLink, strategy: Strategy)
    requires Consistent(x, st) && HasGroup(st.nav, categoryId) && strategy != Create && UniqueUrls(x, st.nav)
    ensures UniqueUrls(x, ImportLink(x, st, categoryId, link, strategy).nav)
  {
    if Places(x, st, link, strategy) {
      ImportLinkPlaces(x, st, categoryId, link, strategy);
      var all, id := AllLinks(st.nav), PlacedId(x, st, link, strategy);
      forall other | other in all && x.canonical(other.fields.url) == x.canonical(link.fields.url)
        ensures other.id == id
      {
        SameUrlIsReplaced(x, st, link, strategy, other);
      }
      PlacedUnique(x, all, Link(id, link.fields));
    }
  }

  lemma {:induction false} ImportLinksUnique(x: Text, st: ImportState, categoryId: int, links: seq<BookmarkLink>,
                                             strategy: Strategy)
    requires Consistent(x, st) && HasGroup(st.nav, categoryId) && strategy != Create && UniqueUrls(x, st.nav)
    ensures UniqueUrls(x, ImportLinks(x, st, categoryId, links, strategy).nav)
  {
    if links != [] {
      var last := |links| - 1;
      ImportLinksUnique(x, st, categoryId, links[..last], strategy);
      ImportLinksConsistent(x, st, categoryId, links[..last], strategy);
      var before := ImportLinks(x, st, categoryId, links[..last], strategy);
      SameHasGroup(st.nav, before.nav, categoryId);
      ImportLinkUnique(x, before, categoryId, links[last], strategy);
    }
  }

  lemma ImportCategoryUnique(x: Text, st: ImportState, category: BookmarkCategory, options: Options)
    requires Consistent(x, st) && options.duplicates != Create && UniqueUrls(x, st.nav)
    ensures UniqueUrls(x, ImportCategory(x, st, category, options).nav)
  {
    if ValidCategoryName(category.name) {
      EnsureGroupConsistent(x, st, category, options);
      var started := EnsureGroup(x, st, category, options);
      ImportLinksUnique(x, started, started.categories[x.key(category.name)], category.links, options.duplicates);
    }
  }

  /** Skip and update never introduce a second link with the same canonical URL. */
  lemma {:induction false} ImportKeepsUrlsUnique(x: Text, st: ImportState, batch: seq<BookmarkCategory>,
                                                 options: Options)
    requires Consistent(x, st) && options.duplicates != Create && UniqueUrls(x, st.nav)
    ensures UniqueUrls(x, Import(x, st, batch, options).nav)
  {
    if batch != [] {
      var last := |batch| - 1;
      ImportKeepsUrlsUnique(x, st, batch[..last], options);
      ImportConsistent(x, st, batch[..last], options);
      ImportCategoryUnique(x, Import(x, st, batch[..last], options), batch[last], options);
    }
  }

  // ---- Conservation --------------------------------------------------------------------------

  function Counted(r: CommitResult): nat { r.createdLinks + r.updatedLinks + r.skippedLinks + r.invalidLinks }

  function LinkCount(batch: seq<BookmarkCategory>): nat {
    if batch == [] then 0 else LinkCount(batch[..|batch| - 1]) + |batch[|batch| - 1].links|
  }

  /** `n` more links were counted, and one id reported for each created or updated one. */
  predicate CountedUp(before: CommitResult, after: CommitResult, n: nat) {
    && Counted(after) == Counted(before) + n
    && |after.importedLinkIds| - after.createdLinks - after.updatedLinks ==
       |before.importedLinkIds| - before.createdLinks - before.updatedLinks
  }

  lemma {:induction false} ImportLinksCounts(x: Text, st: ImportState, categoryId: int, links: seq<BookmarkLink>,
                                             strategy: Strategy)
    ensures CountedUp(st.result, ImportLinks(x, st, categoryId, links, strategy).result, |links|)
  {
    if links != [] { ImportLinksCounts(x, st, categoryId, links[..|links| - 1], strategy); }
  }

  lemma ImportCategoryCounts(x: Text, st: ImportState, category: BookmarkCategory, options: Options)
    ensures CountedUp(st.result, ImportCategory(x, st, category, options).result, |category.links|)
  {
    if ValidCategoryName(category.name) {
      var started := EnsureGroup(x, st, category, options);
      ImportLinksCounts(x, started, started.categories[x.key(category.name)], category.links, options.duplicates);
    }
  }

  lemma CountedUpTwice(a: CommitResult, b: CommitResult, c: CommitResult, m: nat, n: nat)
    requires CountedUp(a, b, m) && CountedUp(b, c, n)
    ensures CountedUp(a, c, m + n)
  {
  }

  /** Every link of the batch is counted once, and each created or updated one is reported. */
  lemma {:induction false} ImportCountsEveryLink(x: Text, st: ImportState, batch: seq<BookmarkCategory>,
                                                 options: Options)
    ensures CountedUp(st.result, Import(x, st, batch, options).result, LinkCount(batch))
  {
    if batch != [] {
      var last := |batch| - 1;
      var before := Import(x, st, batch[..last], options);
      var after := ImportCategory(x, before, batch[last], options);
      ImportCountsEveryLink(x, st, batch[..last], options);
      ImportCategoryCounts(x, before, batch[last], options);
      CountedUpTwice(st.result, before.result, after.result, LinkCount(batch[..last]), |batch[last].links|);
    }
  }

  predicate AddsUp(r: CommitResult, n: nat) {
    && r.createdLinks + r.updatedLinks + r.skippedLinks + r.invalidLinks == n
    && |r.importedLinkIds| == r.createdLinks + r.updatedLinks
  }

  lemma CountedFromNothing(before: CommitResult, r: CommitResult, n: nat)
    requires before == NOTHING_YET && CountedUp(before, r, n)
    ensures AddsUp(r, n)
  {
  }

  /** What an import reports: its counters add up to the links of the batch, and there is one id for
      each created or updated link. */
  lemma ImportReport(x: Text, st: ImportState, batch: seq<BookmarkCategory>, options: Options)
    requires st.result == NOTHING_YET
    ensures AddsUp(Import(x, st, batch, options).result, LinkCount(batch))
  {
    ImportCountsEveryLink(x, st, batch, options);
    CountedFromNothing(st.result, Import(x, st, batch, options).result, LinkCount(batch));
  }

  // ---- Only appends ----------------------------------------------------------------------------

  /** Every old category keeps its place and its links, to which new ones may only be appended;
      new categories come after all old ones. */
  ghost predicate Extends(before: seq<Group>, after: seq<Group>) {
    && |before| <= |after|
    && forall i :: 0 <= i < |before| ==> after[i].category == before[i].category && before[i].links <= after[i].links
  }

  lemma {:induction false} ImportLinksAppend(x: Text, st: ImportState, categoryId: int, links: seq<BookmarkLink>,
                                             strategy: Strategy)
    requires strategy != Update
    ensures Extends(st.nav, ImportLinks(x, st, categoryId, links, strategy).nav)
  {
    if links != [] { ImportLinksAppend(x, st, categoryId, links[..|links| - 1], strategy); }
  }

  /** Skip and create leave everything that was there where it was. */
  lemma {:induction false} ImportOnlyAppends(x: Text, st: ImportState, batch: seq<BookmarkCategory>, options: Options)
    requires options.duplicates != Update
    ensures Extends(st.nav, Import(x, st, batch, options).nav)
  {
    if batch != [] {
      var last := |batch| - 1;
      ImportOnlyAppends(x, st, batch[..last], options);
      var before, category := Import(x, st, batch[..last], options), batch[last];
      if ValidCategoryName(category.name) {
        var started := EnsureGroup(x, before, category, options);
        ImportLinksAppend(x, started, started.categories[x.key(category.name)], category.links, options.duplicates);
      }
    }
  }

  // ---- What is left in place, whatever the strategy ---------------------------------------------

  /** The links whose canonical URL is not among `named`, in their order. */
  function Others(x: Text, links: seq<Link>, named: set<string>): seq<Link> {
    if links == [] then []
    else (if x.canonical(links[0].fields.url) in named then [] else [links[0]]) + Others(x, links[1..], named)
  }

  /** Every old category keeps its place, and the links that are not named neither vanish nor change,
      move or reappear elsewhere. */
  ghost predicate LeavesOthers(x: Text, before: seq<Group>, after: seq<Group>, named: set<string>) {
    && |before| <= |after|
    && SameCategories(before, after[..|before|])
    && (forall i :: 0 <= i < |before| ==> Others(x, after[i].links, named) == Others(x, before[i].links, named))
    && (forall i :: |before| <= i < |after| ==> Others(x, after[i].links, named) == [])
  }

  /** The valid links of the batch have their URLs in `named`. */
  ghost predicate NamesLinks(x: Text, links: seq<BookmarkLink>, named: set<string>) {
    forall i :: 0 <= i < |links| && links[i].problem == "" ==> x.canonical(links[i].fields.url) in named
  }

  lemma {:induction false} OthersAppend(x: Text, links: seq<Link>, link: Link, named: set<string>)
    requires x.canonical(link.fields.url) in named
    ensures Others(x, links + [link], named) == Others(x, links, named)
  {
    if links == [] {
      assert [link][1..] == [];
    } else {
      assert (links + [link])[1..] == links[1..] + [link];
      OthersAppend(x, links[1..], link, named);
    }
  }

  lemma {:induction false} OthersDrop(x: Text, links: seq<Link>, id: int, named: set<string>)
    requires forall link :: link in links && link.id == id ==> x.canonical(link.fields.url) in named
    ensures Others(x, DropLink(links, id), named) == Others(x, links, named)
  {
    if links != [] {
      assert forall link :: link in links[1..] ==> link in links;
      OthersDrop(x, links[1..], id, named);
      assert links[0] in links;
      if links[0].id != id { assert ([links[0]] + DropLink(links[1..], id))[1..] == DropLink(links[1..], id); }
    }
  }

  lemma RemoveLeavesOthers(x: Text, nav: seq<Group>, id: int, named: set<string>)
    requires forall link :: link in AllLinks(nav) && link.id == id ==> x.canonical(link.fields.url) in named
    ensures LeavesOthers(x, nav, RemoveLink(nav, id), named) && |RemoveLink(nav, id)| == |nav|
  {
    forall i | 0 <= i < |nav| ensures Others(x, RemoveLink(nav, id)[i].links, named) == Others(x, nav[i].links, named) {
      assert nav[i] in nav;
      assert forall link :: link in nav[i].links ==> link in AllLinks(nav);
      OthersDrop(x, nav[i].links, id, named);
    }
  }

  lemma AppendLeavesOthers(x: Text, nav: seq<Group>, categoryId: int, link: Link, named: set<string>)
    requires x.canonical(link.fields.url) in named
    ensures LeavesOthers(x, nav, AppendLink(nav, categoryId, link), named) &&
            |AppendLink(nav, categoryId, link)| == |nav|
  {
    forall i | 0 <= i < |nav|
      ensures Others(x, AppendLink(nav, categoryId, link)[i].links, named) == Others(x, nav[i].links, named)
    {
      OthersAppend(x, nav[i].links, link, named);
    }
  }

  lemma LeavesTwice(x: Text, a: seq<Group>, b: seq<Group>, c: seq<Group>, named: set<string>)
    requires LeavesOthers(x, a, b, named) && LeavesOthers(x, b, c, named)
    ensures LeavesOthers(x, a, c, named)
  {
  }

  lemma ImportLinkLeaves(x: Text, st: ImportState, categoryId: int, link: BookmarkLink, strategy: Strategy,
                         named: set<string>)
    requires Consistent(x, st) && (link.problem == "" ==> x.canonical(link.fields.url) in named)
    ensures LeavesOthers(x, st.nav, ImportLink(x, st, categoryId, link, strategy).nav, named)
  {
    if Places(x, st, link, strategy) {
      var id, canonical := PlacedId(x, st, link, strategy), x.canonical(link.fields.url);
      var base := st.nav;
      if Updates(x, st, link, strategy) {
        assert HasLink(x, AllLinks(st.nav), id, canonical);
        RemoveLeavesOthers(x, st.nav, id, named);
        base := RemoveLink(st.nav, id);
      }
      AppendLeavesOthers(x, base, categoryId, Link(id, link.fields), named);
      LeavesTwice(x, st.nav, base, AppendLink(base, categoryId, Link(id, link.fields)), named);
    }
  }

  lemma {:induction false} ImportLinksLeave(x: Text, st: ImportState, categoryId: int, links: seq<BookmarkLink>,
                                            strategy: Strategy, named: set<string>)
    requires Consistent(x, st) && HasGroup(st.nav, categoryId) && NamesLinks(x, links, named)
    ensures LeavesOthers(x, st.nav, ImportLinks(x, st, categoryId, links, strategy).nav, named)
  {
    if links != [] {
      var last := |links| - 1;
      var before := ImportLinks(x, st, categoryId, links[..last], strategy);
      ImportLinksLeave(x, st, categoryId, links[..last], strategy, named);
      ImportLinksConsistent(x, st, categoryId, links[..last], strategy);
      ImportLinkLeaves(x, before, categoryId, links[last], strategy, named);
      LeavesTwice(x, st.nav, before.nav, ImportLinks(x, st, categoryId, links, strategy).nav, named);
    }
  }

  lemma EnsureGroupLeaves(x: Text, st: ImportState, category: BookmarkCategory, options: Options, named: set<string>)
    ensures LeavesOthers(x, st.nav, EnsureGroup(x, st, category, options).nav, named)
  {
  }

  lemma EnsuredGroup(x: Text, st: ImportState, category: BookmarkCategory, options: Options)
    requires Consistent(x, st)
    ensures var started := EnsureGroup(x, st, category, options);
            Consistent(x, started) && HasGroup(started.nav, started.categories[x.key(category.name)])
  {
    EnsureGroupConsistent(x, st, category, options);
  }

  lemma ImportCategoryLeaves(x: Text, st: ImportState, category: BookmarkCategory, options: Options, named: set<string>)
    requires Consistent(x, st) && (ValidCategoryName(category.name) ==> NamesLinks(x, category.links, named))
    ensures LeavesOthers(x, st.nav, ImportCategory(x, st, category, options).nav, named)
  {
    if ValidCategoryName(category.name) {
      EnsuredGroup(x, st, category, options);
      EnsureGroupLeaves(x, st, category, options, named);
      var started := EnsureGroup(x, st, category, options);
      var id := started.categories[x.key(category.name)];
      ImportLinksLeave(x, started, id, category.links, options.duplicates, named);
      LeavesTwice(x, st.nav, started.nav, ImportLinks(x, started, id, category.links, options.duplicates).nav, named);
    }
  }

  /** Whatever the strategy, an import leaves every category where it was, and every link whose URL
      no valid link of the batch has stays in its category, unchanged and in the same order. */
  lemma {:induction false} ImportLeavesOthers(x: Text, st: ImportState, batch: seq<BookmarkCategory>,
                                              options: Options, named: set<string>)
    requires Consistent(x, st)
    requires forall i :: 0 <= i < |batch| && ValidCategoryName(batch[i].name) ==> NamesLinks(x, batch[i].links, named)
    ensures LeavesOthers(x, st.nav, Import(x, st, batch, options).nav, named)
  {
    if batch != [] {
      var last := |batch| - 1;
      var before := Import(x, st, batch[..last], options);
      ImportLeavesOthers(x, st, batch[..last], options, named);
      ImportConsistent(x, st, batch[..last], options);
      ImportCategoryLeaves(x, before, batch[last], options, named);
      LeavesTwice(x, st.nav, before.nav, Import(x, st, batch, options).nav, named);
    }
  }
}
