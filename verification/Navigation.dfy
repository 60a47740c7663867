/** The navigation tables, the ordered nested list they stand for, and what each row
    operation does to that list. */
module Navigation {
  import opened Listings

  datatype Visibility = Public | Private

  /** The user-visible columns of a link. */
  datatype LinkFields = LinkFields(
    name: string, description: string, url: string, iconSource: string, iconValue: string)

  datatype CategoryRow = CategoryRow(
    name: string, slug: string, iconName: string, visibility: Visibility, sortOrder: int)
  datatype LinkRow = LinkRow(categoryId: int, fields: LinkFields, sortOrder: int)

  /** Both tables; the `last` fields are the AUTOINCREMENT counters. */
  datatype Tables = Tables(
    categories: map<int, CategoryRow>, links: map<int, LinkRow>,
    lastCategoryId: int, lastLinkId: int)

  // The abstract object: categories in order, each with its links in order.
  datatype Category = Category(
    id: int, name: string, slug: string, iconName: string, visibility: Visibility)
  datatype Link = Link(id: int, fields: LinkFields)
  datatype Group = Group(category: Category, links: seq<Link>)

  const EMPTY_TABLES := Tables(map[], map[], 0, 0)

  function CategoryOrders(t: Tables): map<int, int> {
    map id | id in t.categories :: t.categories[id].sortOrder
  }

  function LinkOrders(t: Tables, categoryId: int): map<int, int> {
    map id | id in t.links && t.links[id].categoryId == categoryId :: t.links[id].sortOrder
  }

  function CategoryAt(t: Tables, id: int): Category
    requires id in t.categories
  {
    var row := t.categories[id];
    Category(id, row.name, row.slug, row.iconName, row.visibility)
  }

  /** What every reachable pair of tables satisfies. */
  ghost predicate Invariant(t: Tables) {
    && ValidCategories(t)
    && ValidLinks(t)
  }

  /** Positive ids and orders, and no two categories at the same place. */
  ghost predicate ValidCategories(t: Tables) {
    && 0 <= t.lastCategoryId
    && (forall id :: id in t.categories ==> 0 < id <= t.lastCategoryId && 0 < t.categories[id].sortOrder)
    && (forall a, b :: a in t.categories && b in t.categories && a != b ==>
          t.categories[a].sortOrder != t.categories[b].sortOrder)
  }

  /** Every link has a category, and no two links of one category are at the same place. */
  ghost predicate ValidLinks(t: Tables) {
    && 0 <= t.lastLinkId
    && (forall id :: id in t.links ==> 0 < id <= t.lastLinkId && 0 < t.links[id].sortOrder &&
                                       t.links[id].categoryId in t.categories)
    && (forall a, b :: a in t.links && b in t.links && a != b && t.links[a].categoryId == t.links[b].categoryId ==>
          t.links[a].sortOrder != t.links[b].sortOrder)
  }

  function CategoryIds(nav: seq<Group>): seq<int> {
    seq(|nav|, i requires 0 <= i < |nav| => nav[i].category.id)
  }

  function LinkIds(links: seq<Link>): seq<int> {
    seq(|links|, i requires 0 <= i < |links| => links[i].id)
  }

  ghost predicate IsLinkView(t: Tables, categoryId: int, links: seq<Link>) {
    && IsListing(LinkOrders(t, categoryId), LinkIds(links))
    && forall i :: 0 <= i < |links| ==> links[i].id in t.links && links[i].fields == t.links[links[i].id].fields
  }

  /** `nav` is what the tables stand for. */
  ghost predicate IsView(t: Tables, nav: seq<Group>) {
    && IsListing(CategoryOrders(t), CategoryIds(nav))
    && forall i :: 0 <= i < |nav| ==> IsGroupView(t, nav[i])
  }

  ghost predicate IsGroupView(t: Tables, group: Group) {
    && group.category.id in t.categories
    && group.category == CategoryAt(t, group.category.id)
    && IsLinkView(t, group.category.id, group.links)
  }

  ghost function LinkView(t: Tables, categoryId: int): (links: seq<Link>)
    ensures IsLinkView(t, categoryId, links)
  {
    var ids := Listing(LinkOrders(t, categoryId));
    assert forall i :: 0 <= i < |ids| ==> var id := ids[i]; id in ids;
    var links := seq(|ids|, i requires 0 <= i < |ids| && ids[i] in t.links => Link(ids[i], t.links[ids[i]].fields));
    assert LinkIds(links) == ids;
    links
  }

  ghost function GroupAt(t: Tables, id: int): (group: Group)
    requires id in t.categories
    ensures IsGroupView(t, group) && group.category.id == id
  {
    Group(CategoryAt(t, id), LinkView(t, id))
  }

  lemma ViewExists(t: Tables)
    ensures exists nav :: IsView(t, nav)
  {
    var ids := Listing(CategoryOrders(t));
    assert forall i :: 0 <= i < |ids| ==> var id := ids[i]; id in ids;
    var nav := seq(|ids|, i requires 0 <= i < |ids| && ids[i] in t.categories => GroupAt(t, ids[i]));
    assert CategoryIds(nav) == ids;
    assert IsView(t, nav);
  }

  /** The nested list the tables stand for. */
  ghost function View(t: Tables): (nav: seq<Group>)
    ensures IsView(t, nav)
  {
    ViewExists(t);
    var nav :| IsView(t, nav);
    nav
  }

  lemma LinkViewUnique(t: Tables, categoryId: int, a: seq<Link>, b: seq<Link>)
    requires IsLinkView(t, categoryId, a) && IsLinkView(t, categoryId, b)
    ensures a == b
  {
    ListingUnique(LinkOrders(t, categoryId), LinkIds(a), LinkIds(b));
    assert |a| == |LinkIds(a)| == |b|;
    forall i | 0 <= i < |a| ensures a[i] == b[i] {
      assert LinkIds(a)[i] == LinkIds(b)[i];
    }
  }

  /** The tables stand for one list only. */
  lemma ViewUnique(t: Tables, nav: seq<Group>)
    requires IsView(t, nav)
    ensures nav == View(t)
  {
    ListingUnique(CategoryOrders(t), CategoryIds(nav), CategoryIds(View(t)));
    assert |nav| == |CategoryIds(nav)| == |View(t)|;
    forall i | 0 <= i < |nav| ensures nav[i] == View(t)[i] {
      assert CategoryIds(nav)[i] == CategoryIds(View(t))[i];
      assert IsGroupView(t, nav[i]) && IsGroupView(t, View(t)[i]);
      LinkViewUnique(t, nav[i].category.id, nav[i].links, View(t)[i].links);
    }
  }

  // ---- List operations -------------------------------------------------------------

  function AppendLink(nav: seq<Group>, categoryId: int, link: Link): seq<Group> {
    seq(|nav|, i requires 0 <= i < |nav| =>
      if nav[i].category.id == categoryId then Group(nav[i].category, nav[i].links + [link]) else nav[i])
  }

  /** Rename, re-icon and re-publish a category in place; its slug and links stay. */
  function EditCategory(nav: seq<Group>, id: int, name: string, iconName: string, visibility: Visibility): seq<Group> {
    seq(|nav|, i requires 0 <= i < |nav| =>
      if nav[i].category.id == id
      then Group(Category(id, name, nav[i].category.slug, iconName, visibility), nav[i].links)
      else nav[i])
  }

  function EditLinks(links: seq<Link>, id: int, fields: LinkFields): seq<Link> {
    seq(|links|, i requires 0 <= i < |links| => if links[i].id == id then Link(id, fields) else links[i])
  }

  /** New fields for a link, which keeps its place. */
  function EditLink(nav: seq<Group>, id: int, fields: LinkFields): seq<Group> {
    seq(|nav|, i requires 0 <= i < |nav| => Group(nav[i].category, EditLinks(nav[i].links, id, fields)))
  }

  function DropLink(links: seq<Link>, id: int): seq<Link> {
    if links == [] then []
    else if links[0].id == id then DropLink(links[1..], id)
    else [links[0]] + DropLink(links[1..], id)
  }

  function RemoveLink(nav: seq<Group>, id: int): seq<Group> {
    seq(|nav|, i requires 0 <= i < |nav| => Group(nav[i].category, DropLink(nav[i].links, id)))
  }

  function RemoveGroup(nav: seq<Group>, id: int): seq<Group> {
    if nav == [] then []
    else if nav[0].category.id == id then RemoveGroup(nav[1..], id)
    else [nav[0]] + RemoveGroup(nav[1..], id)
  }

  function LinksOf(nav: seq<Group>, id: int): seq<Link> {
    if nav == [] then []
    else if nav[0].category.id == id then nav[0].links
    else LinksOf(nav[1..], id)
  }

  /** The links of `source` follow those of `target`, in their old order. */
  function MergeLinks(nav: seq<Group>, source: int, target: int): seq<Group> {
    seq(|nav|, i requires 0 <= i < |nav| =>
      if nav[i].category.id == target
      then Group(nav[i].category, nav[i].links + LinksOf(nav, source))
      else nav[i])
  }

  /** Every group of `nav` once, in the order `ids` asks for. */
  ghost predicate IsGroupPermutation(nav: seq<Group>, ids: seq<int>, result: seq<Group>) {
    && CategoryIds(result) == ids
    && |result| == |nav|
    && forall group :: group in result <==> group in nav
  }

  ghost predicate GroupReordered(before: Group, after: Group, categoryId: int, ids: seq<int>) {
    && after.category == before.category
    && if before.category.id == categoryId
       then LinkIds(after.links) == ids && |after.links| == |before.links|
            && forall link :: link in after.links <==> link in before.links
       else after.links == before.links
  }

  /** Every link of one category once, in the order `ids` asks for; the rest as before. */
  ghost predicate IsLinkPermutation(nav: seq<Group>, categoryId: int, ids: seq<int>, result: seq<Group>) {
    && |result| == |nav|
    && forall i :: 0 <= i < |nav| ==> GroupReordered(nav[i], result[i], categoryId, ids)
  }

  // ---- Selections --------------------------------------------------------------------

  predicate Ascends(at: seq<nat>) { forall i, j :: 0 <= i < j < |at| ==> at[i] < at[j] }

  /** `selected` are the groups at these places, in order. */
  ghost predicate AreAt(nav: seq<Group>, at: seq<nat>, selected: seq<Group>) {
    |at| == |selected| && Ascends(at) && forall i :: 0 <= i < |at| ==> at[i] < |nav| && selected[i] == nav[at[i]]
  }

  ghost predicate AreShown(nav: seq<Group>, shown: set<Visibility>, at: seq<nat>) {
    forall g: nat :: g in at <==> g < |nav| && nav[g].category.visibility in shown
  }

  /** `selected` is the groups with one of these visibilities, all of them, in the order of `nav`. */
  ghost predicate IsSelection(nav: seq<Group>, shown: set<Visibility>, selected: seq<Group>) {
    exists at :: AreAt(nav, at, selected) && AreShown(nav, shown, at)
  }

  lemma SelectedToo(nav: seq<Group>, shown: set<Visibility>, at: seq<nat>, selected: seq<Group>, group: Group)
    requires AreAt(nav, at, selected) && AreShown(nav, shown, at) && group.category.visibility in shown
    ensures AreAt(nav + [group], at + [|nav|], selected + [group])
    ensures AreShown(nav + [group], shown, at + [|nav|])
  {
  }

  lemma NotSelected(nav: seq<Group>, shown: set<Visibility>, at: seq<nat>, selected: seq<Group>, group: Group)
    requires AreAt(nav, at, selected) && AreShown(nav, shown, at) && group.category.visibility !in shown
    ensures AreAt(nav + [group], at, selected) && AreShown(nav + [group], shown, at)
  {
  }

  lemma SelectionStep(nav: seq<Group>, shown: set<Visibility>, selected: seq<Group>, group: Group)
    requires IsSelection(nav, shown, selected)
    ensures IsSelection(nav + [group], shown, selected + if group.category.visibility in shown then [group] else [])
  {
    var at :| AreAt(nav, at, selected) && AreShown(nav, shown, at);
    if group.category.visibility in shown {
      SelectedToo(nav, shown, at, selected, group);
    } else {
      NotSelected(nav, shown, at, selected, group);
      assert selected + [] == selected;
    }
  }

  lemma NothingSelected(shown: set<Visibility>)
    ensures IsSelection([], shown, [])
  {
    assert AreAt([], [], []) && AreShown([], shown, []);
  }

  lemma {:induction false} AscendingUnique(a: seq<nat>, b: seq<nat>)
    requires Ascends(a) && Ascends(b) && forall g: nat :: g in a <==> g in b
    ensures a == b
  {
    if a != [] { assert a[0] in a; }
    if b != [] { assert b[0] in b; }
    if a != [] && b != [] {
      var m, n := |a| - 1, |b| - 1;
      assert a[m] in b && b[n] in a;
      assert a[m] == b[n];
      forall g: nat ensures g in a[..m] <==> g in b[..n] {
        assert g in a <==> g in a[..m] || g == a[m] by { assert a == a[..m] + [a[m]]; }
        assert g in b <==> g in b[..n] || g == b[n] by { assert b == b[..n] + [b[n]]; }
      }
      AscendingUnique(a[..m], b[..n]);
      assert a == a[..m] + [a[m]] && b == b[..n] + [b[n]];
    }
  }

  /** There is only one such selection. */
  lemma SelectionUnique(nav: seq<Group>, shown: set<Visibility>, a: seq<Group>, b: seq<Group>)
    requires IsSelection(nav, shown, a) && IsSelection(nav, shown, b)
    ensures a == b
  {
    var p :| AreAt(nav, p, a) && AreShown(nav, shown, p);
    var q :| AreAt(nav, q, b) && AreShown(nav, shown, q);
    AscendingUnique(p, q);
  }
}
