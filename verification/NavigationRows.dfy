/** Row operations on the navigation tables, each proved to be one list operation. */
module NavigationRows {
  import opened Listings
  import opened Navigation
  import opened Sets

  // ---- Lists with distinct ids ------------------------------------------------------

  lemma {:induction false} DropLinkAt(links: seq<Link>, k: nat)
    requires k < |links|
    requires forall i, j :: 0 <= i < j < |links| ==> links[i].id != links[j].id
    ensures DropLink(links, links[k].id) == links[..k] + links[k + 1..]
  {
    if k == 0 {
      DropAbsentLink(links[1..], links[0].id);
    } else {
      DropLinkAt(links[1..], k - 1);
      assert links[..k] + links[k + 1..] == [links[0]] + (links[1..][..k - 1] + links[1..][k..]);
    }
  }

  lemma {:induction false} DropAbsentLink(links: seq<Link>, id: int)
    requires forall i :: 0 <= i < |links| ==> links[i].id != id
    ensures DropLink(links, id) == links
  {
    if links != [] { DropAbsentLink(links[1..], id); }
  }

  lemma {:induction false} RemoveGroupAt(nav: seq<Group>, k: nat)
    requires k < |nav|
    requires forall i, j :: 0 <= i < j < |nav| ==> nav[i].category.id != nav[j].category.id
    ensures RemoveGroup(nav, nav[k].category.id) == nav[..k] + nav[k + 1..]
  {
    if k == 0 {
      RemoveAbsentGroup(nav[1..], nav[0].category.id);
    } else {
      RemoveGroupAt(nav[1..], k - 1);
      assert nav[..k] + nav[k + 1..] == [nav[0]] + (nav[1..][..k - 1] + nav[1..][k..]);
    }
  }

  lemma {:induction false} RemoveAbsentGroup(nav: seq<Group>, id: int)
    requires forall i :: 0 <= i < |nav| ==> nav[i].category.id != id
    ensures RemoveGroup(nav, id) == nav
  {
    if nav != [] { RemoveAbsentGroup(nav[1..], id); }
  }

  lemma {:induction false} LinksOfAt(nav: seq<Group>, k: nat)
    requires k < |nav|
    requires forall i, j :: 0 <= i < j < |nav| ==> nav[i].category.id != nav[j].category.id
    ensures LinksOf(nav, nav[k].category.id) == nav[k].links
  {
    if k > 0 { LinksOfAt(nav[1..], k - 1); }
  }

  /** Ids are distinct in a view, and every row has its place there. */
  lemma ViewIds(t: Tables, nav: seq<Group>)
    requires IsView(t, nav)
    ensures forall i, j :: 0 <= i < j < |nav| ==> nav[i].category.id != nav[j].category.id
    ensures forall id :: id in t.categories <==> exists i :: 0 <= i < |nav| && nav[i].category.id == id
  {
    var ids := CategoryIds(nav);
    ListingDistinct(CategoryOrders(t), ids);
    forall i, j | 0 <= i < j < |nav| ensures nav[i].category.id != nav[j].category.id {
      assert ids[i] != ids[j];
    }
    forall id | id in t.categories ensures exists i :: 0 <= i < |nav| && nav[i].category.id == id {
      assert id in CategoryOrders(t).Keys;
      assert id in ids;
    }
  }

  lemma LinkViewIds(t: Tables, categoryId: int, links: seq<Link>)
    requires IsLinkView(t, categoryId, links)
    ensures forall i, j :: 0 <= i < j < |links| ==> links[i].id != links[j].id
    ensures forall i :: 0 <= i < |links| ==> links[i].id in t.links && t.links[links[i].id].categoryId == categoryId
    ensures forall id :: id in t.links && t.links[id].categoryId == categoryId ==>
              exists i :: 0 <= i < |links| && links[i].id == id
  {
    var ids := LinkIds(links);
    ListingDistinct(LinkOrders(t, categoryId), ids);
    forall i, j | 0 <= i < j < |links| ensures links[i].id != links[j].id {
      assert ids[i] != ids[j];
    }
    forall i | 0 <= i < |links| ensures t.links[links[i].id].categoryId == categoryId {
      var id := ids[i];
      assert id in ids && id in LinkOrders(t, categoryId).Keys;
    }
    forall id | id in t.links && t.links[id].categoryId == categoryId
      ensures exists i :: 0 <= i < |links| && links[i].id == id
    {
      assert id in LinkOrders(t, categoryId).Keys;
      assert id in ids;
    }
  }

  // ---- What a row operation leaves alone ------------------------------------------------

  lemma IdsRemoved(nav: seq<Group>, k: nat)
    requires k < |nav|
    ensures CategoryIds(nav[..k] + nav[k + 1..]) == CategoryIds(nav)[..k] + CategoryIds(nav)[k + 1..]
  {
  }

  lemma LinkIdsRemoved(links: seq<Link>, k: nat)
    requires k < |links|
    ensures LinkIds(links[..k] + links[k + 1..]) == LinkIds(links)[..k] + LinkIds(links)[k + 1..]
  {
  }

  lemma RemovedAt<T>(s: seq<T>, k: nat, i: nat)
    requires k < |s| && i < |s| - 1
    ensures (s[..k] + s[k + 1..])[i] == s[if i < k then i else i + 1]
  {
  }

  /** A group's view only depends on its own category row and its own link rows. */
  lemma GroupUnaffected(t: Tables, t': Tables, group: Group)
    requires IsGroupView(t, group)
    requires group.category.id in t'.categories
    requires CategoryAt(t', group.category.id) == CategoryAt(t, group.category.id)
    requires forall id :: id in t.links && t.links[id].categoryId == group.category.id ==>
               id in t'.links && t'.links[id] == t.links[id]
    requires forall id :: id in t'.links && t'.links[id].categoryId == group.category.id ==>
               id in t.links && t.links[id] == t'.links[id]
    ensures IsGroupView(t', group)
  {
    var c := group.category.id;
    forall id ensures id in LinkOrders(t', c) <==> id in LinkOrders(t, c) {
      assert id in t.links && t.links[id].categoryId == c ==> id in t'.links && t'.links[id] == t.links[id];
      assert id in t'.links && t'.links[id].categoryId == c ==> id in t.links && t.links[id] == t'.links[id];
    }
    forall id | id in LinkOrders(t', c) ensures LinkOrders(t', c)[id] == LinkOrders(t, c)[id] {
      assert id in LinkOrders(t, c);
    }
    assert LinkOrders(t', c) == LinkOrders(t, c);
    LinkViewIds(t, c, group.links);
  }

  lemma CategoryOrdersDropped(t: Tables, t': Tables, id: int)
    requires id in t.categories && t'.categories == t.categories - {id}
    ensures CategoryOrders(t') == CategoryOrders(t) - {id}
  {
  }

  // ---- Categories ---------------------------------------------------------------------

  function InsertCategory(t: Tables, row: CategoryRow): Tables {
    t.(categories := t.categories[t.lastCategoryId + 1 := row], lastCategoryId := t.lastCategoryId + 1)
  }

  lemma InsertCategoryIsView(t: Tables, nav: seq<Group>, row: CategoryRow)
    requires Invariant(t) && IsView(t, nav)
    requires forall id :: id in t.categories ==> t.categories[id].sortOrder < row.sortOrder
    ensures var t' := InsertCategory(t, row);
            IsView(t', nav + [Group(CategoryAt(t', t.lastCategoryId + 1), [])])
  {
    var t', id := InsertCategory(t, row), t.lastCategoryId + 1;
    var group := Group(CategoryAt(t', id), []);
    assert CategoryOrders(t') == CategoryOrders(t)[id := row.sortOrder];
    ListingAppend(CategoryOrders(t), CategoryIds(nav), id, row.sortOrder);
    assert CategoryIds(nav + [group]) == CategoryIds(nav) + [id];
    forall i | 0 <= i < |nav| ensures IsGroupView(t', nav[i]) {
      assert IsGroupView(t, nav[i]);
      GroupUnaffected(t, t', nav[i]);
    }
    assert forall l :: l in t'.links ==> t'.links[l].categoryId != id;
    assert LinkOrders(t', id) == map[];
    assert IsGroupView(t', group);
  }

  lemma InsertCategoryInvariant(t: Tables, row: CategoryRow)
    requires Invariant(t)
    requires 0 < row.sortOrder && forall id :: id in t.categories ==> t.categories[id].sortOrder < row.sortOrder
    ensures Invariant(InsertCategory(t, row))
  {
  }

  /** A category behind every other one becomes the last, empty group. */
  lemma InsertCategoryView(t: Tables, row: CategoryRow)
    requires Invariant(t)
    requires 0 < row.sortOrder && forall id :: id in t.categories ==> t.categories[id].sortOrder < row.sortOrder
    ensures Invariant(InsertCategory(t, row))
    ensures View(InsertCategory(t, row)) ==
            View(t) + [Group(CategoryAt(InsertCategory(t, row), t.lastCategoryId + 1), [])]
  {
    InsertCategoryInvariant(t, row);
    InsertCategoryIsView(t, View(t), row);
    ViewUnique(InsertCategory(t, row), View(t) + [Group(CategoryAt(InsertCategory(t, row), t.lastCategoryId + 1), [])]);
  }

  function UpdateCategory(t: Tables, id: int, name: string, iconName: string, visibility: Visibility): Tables
    requires id in t.categories
  {
    var row := t.categories[id];
    t.(categories := t.categories[id := CategoryRow(name, row.slug, iconName, visibility, row.sortOrder)])
  }

  /** A category is renamed, re-iconed and re-published where it stands. */
  lemma UpdateCategoryView(t: Tables, id: int, name: string, iconName: string, visibility: Visibility)
    requires Invariant(t) && id in t.categories
    ensures Invariant(UpdateCategory(t, id, name, iconName, visibility))
    ensures View(UpdateCategory(t, id, name, iconName, visibility)) ==
            EditCategory(View(t), id, name, iconName, visibility)
  {
    var t', nav := UpdateCategory(t, id, name, iconName, visibility), View(t);
    var nav' := EditCategory(nav, id, name, iconName, visibility);
    assert CategoryOrders(t') == CategoryOrders(t);
    assert CategoryIds(nav') == CategoryIds(nav);
    forall i | 0 <= i < |nav'| ensures IsGroupView(t', nav'[i]) {
      assert IsGroupView(t, nav[i]);
      assert LinkOrders(t', nav[i].category.id) == LinkOrders(t, nav[i].category.id);
    }
    ViewUnique(t', nav');
  }

  // ---- Links --------------------------------------------------------------------------

  function PutLink(t: Tables, id: int, row: LinkRow): Tables {
    t.(links := t.links[id := row], lastLinkId := if id > t.lastLinkId then id else t.lastLinkId)
  }

  /** The row comes after every link of its category. */
  ghost predicate IsLastIn(t: Tables, row: LinkRow) {
    && 0 < row.sortOrder
    && forall id :: id in t.links && t.links[id].categoryId == row.categoryId ==> t.links[id].sortOrder < row.sortOrder
  }

  lemma PutNewLinkIsView(t: Tables, nav: seq<Group>, id: int, row: LinkRow)
    requires IsView(t, nav) && id !in t.links && IsLastIn(t, row)
    ensures IsView(PutLink(t, id, row), AppendLink(nav, row.categoryId, Link(id, row.fields)))
  {
    var t' := PutLink(t, id, row);
    var nav' := AppendLink(nav, row.categoryId, Link(id, row.fields));
    assert CategoryOrders(t') == CategoryOrders(t);
    assert CategoryIds(nav') == CategoryIds(nav);
    forall i | 0 <= i < |nav'| ensures IsGroupView(t', nav'[i]) {
      assert IsGroupView(t, nav[i]);
      if nav[i].category.id == row.categoryId {
        AppendedLinkView(t, row.categoryId, nav[i].links, id, row);
      } else {
        GroupUnaffected(t, t', nav[i]);
      }
    }
  }

  lemma AppendedLinkView(t: Tables, c: int, links: seq<Link>, id: int, row: LinkRow)
    requires IsLinkView(t, c, links) && id !in t.links && IsLastIn(t, row) && row.categoryId == c
    ensures IsLinkView(PutLink(t, id, row), c, links + [Link(id, row.fields)])
  {
    var t' := PutLink(t, id, row);
    assert LinkOrders(t', c) == LinkOrders(t, c)[id := row.sortOrder];
    ListingAppend(LinkOrders(t, c), LinkIds(links), id, row.sortOrder);
    assert LinkIds(links + [Link(id, row.fields)]) == LinkIds(links) + [id];
  }

  /** A link behind every other one of its category is appended to that category. */
  lemma PutNewLinkView(t: Tables, id: int, row: LinkRow)
    requires Invariant(t) && 0 < id && id !in t.links && row.categoryId in t.categories && IsLastIn(t, row)
    ensures Invariant(PutLink(t, id, row))
    ensures View(PutLink(t, id, row)) == AppendLink(View(t), row.categoryId, Link(id, row.fields))
  {
    PutNewLinkIsView(t, View(t), id, row);
    ViewUnique(PutLink(t, id, row), AppendLink(View(t), row.categoryId, Link(id, row.fields)));
  }

  lemma EditedLinkView(t: Tables, c: int, links: seq<Link>, id: int, fields: LinkFields)
    requires IsLinkView(t, c, links) && id in t.links
    ensures IsLinkView(PutLink(t, id, t.links[id].(fields := fields)), c, EditLinks(links, id, fields))
  {
    assert LinkOrders(PutLink(t, id, t.links[id].(fields := fields)), c) == LinkOrders(t, c);
    assert LinkIds(EditLinks(links, id, fields)) == LinkIds(links);
  }

  /** New fields in the same place. */
  lemma EditLinkView(t: Tables, id: int, fields: LinkFields)
    requires Invariant(t) && id in t.links
    ensures var t' := PutLink(t, id, t.links[id].(fields := fields));
            Invariant(t') && View(t') == EditLink(View(t), id, fields)
  {
    var t', nav := PutLink(t, id, t.links[id].(fields := fields)), View(t);
    var nav' := EditLink(nav, id, fields);
    assert CategoryOrders(t') == CategoryOrders(t);
    assert CategoryIds(nav') == CategoryIds(nav);
    forall i | 0 <= i < |nav'| ensures IsGroupView(t', nav'[i]) {
      assert IsGroupView(t, nav[i]);
      EditedLinkView(t, nav[i].category.id, nav[i].links, id, fields);
    }
    ViewUnique(t', nav');
  }

  function DeleteLink(t: Tables, id: int): Tables {
    t.(links := t.links - {id})
  }

  lemma DropLinkView(t: Tables, c: int, links: seq<Link>, id: int)
    requires IsLinkView(t, c, links)
    ensures IsLinkView(DeleteLink(t, id), c, DropLink(links, id))
  {
    LinkOrdersDropped(t, c, id);
    if k :| 0 <= k < |links| && links[k].id == id {
      DropPresentLink(t, c, links, k);
    } else {
      DropMissingLink(t, c, links, id);
    }
  }

  lemma LinkOrdersDropped(t: Tables, c: int, id: int)
    ensures LinkOrders(DeleteLink(t, id), c) == LinkOrders(t, c) - {id}
  {
  }

  lemma DropPresentLink(t: Tables, c: int, links: seq<Link>, k: nat)
    requires IsLinkView(t, c, links) && k < |links|
    ensures IsLinkView(DeleteLink(t, links[k].id), c, DropLink(links, links[k].id))
  {
    LinkViewIds(t, c, links);
    LinkOrdersDropped(t, c, links[k].id);
    DropLinkAt(links, k);
    ListingRemove(LinkOrders(t, c), LinkIds(links), k);
    LinkIdsRemoved(links, k);
  }

  lemma DropMissingLink(t: Tables, c: int, links: seq<Link>, id: int)
    requires IsLinkView(t, c, links) && forall k :: 0 <= k < |links| ==> links[k].id != id
    ensures IsLinkView(DeleteLink(t, id), c, DropLink(links, id))
  {
    LinkViewIds(t, c, links);
    LinkOrdersDropped(t, c, id);
    DropAbsentLink(links, id);
    assert LinkOrders(t, c) - {id} == LinkOrders(t, c);
  }

  lemma DeleteLinkView(t: Tables, id: int)
    requires Invariant(t)
    ensures Invariant(DeleteLink(t, id))
    ensures View(DeleteLink(t, id)) == RemoveLink(View(t), id)
  {
    var t', nav := DeleteLink(t, id), View(t);
    var nav' := RemoveLink(nav, id);
    assert CategoryOrders(t') == CategoryOrders(t);
    assert CategoryIds(nav') == CategoryIds(nav);
    forall i | 0 <= i < |nav'| ensures IsGroupView(t', nav'[i]) {
      assert IsGroupView(t, nav[i]);
      DropLinkView(t, nav[i].category.id, nav[i].links, id);
    }
    ViewUnique(t', nav');
  }

  /** A link that changes category, or place, leaves its old one and is appended to the new one. */
  lemma MoveLinkView(t: Tables, id: int, row: LinkRow)
    requires Invariant(t) && id in t.links && row.categoryId in t.categories && IsLastIn(t, row)
    ensures Invariant(PutLink(t, id, row))
    ensures View(PutLink(t, id, row)) ==
            AppendLink(RemoveLink(View(t), id), row.categoryId, Link(id, row.fields))
  {
    DeleteLinkView(t, id);
    PutNewLinkView(DeleteLink(t, id), id, row);
    DeleteThenPut(t, id, row);
  }

  lemma DeleteThenPut(t: Tables, id: int, row: LinkRow)
    ensures PutLink(DeleteLink(t, id), id, row) == PutLink(t, id, row)
  {
    assert (t.links - {id})[id := row] == t.links[id := row];
  }

  // ---- Deleting a category --------------------------------------------------------------

  function DeleteLinksOf(t: Tables, categoryId: int): Tables {
    t.(links := map id | id in t.links && t.links[id].categoryId != categoryId :: t.links[id])
  }

  function MoveLinksOf(t: Tables, source: int, target: int, shift: int): Tables {
    t.(links := map id | id in t.links ::
      if t.links[id].categoryId == source
      then LinkRow(target, t.links[id].fields, t.links[id].sortOrder + shift)
      else t.links[id])
  }

  function DropCategory(t: Tables, id: int): Tables {
    t.(categories := t.categories - {id})
  }

  /** The listing of the categories that remain. */
  lemma DropCategoryListing(t: Tables, t': Tables, nav: seq<Group>, k: nat)
    requires IsView(t, nav) && k < |nav|
    requires t'.categories == t.categories - {nav[k].category.id}
    ensures IsListing(CategoryOrders(t'), CategoryIds(nav[..k] + nav[k + 1..]))
  {
    assert IsGroupView(t, nav[k]);
    CategoryOrdersDropped(t, t', nav[k].category.id);
    ListingRemove(CategoryOrders(t), CategoryIds(nav), k);
    IdsRemoved(nav, k);
  }

  lemma DeleteCategoryIsView(t: Tables, nav: seq<Group>, k: nat)
    requires IsView(t, nav) && k < |nav|
    ensures var id := nav[k].category.id;
            IsView(DropCategory(DeleteLinksOf(t, id), id), nav[..k] + nav[k + 1..])
  {
    var id := nav[k].category.id;
    var t', nav' := DropCategory(DeleteLinksOf(t, id), id), nav[..k] + nav[k + 1..];
    ViewIds(t, nav);
    DropCategoryListing(t, t', nav, k);
    forall i | 0 <= i < |nav'| ensures IsGroupView(t', nav'[i]) {
      RemovedAt(nav, k, i);
      assert IsGroupView(t, nav[if i < k then i else i + 1]);
      GroupUnaffected(t, t', nav'[i]);
    }
  }

  lemma DeleteCategoryAt(t: Tables, nav: seq<Group>, k: nat)
    requires Invariant(t) && IsView(t, nav) && k < |nav|
    ensures var t' := DropCategory(DeleteLinksOf(t, nav[k].category.id), nav[k].category.id);
            Invariant(t') && View(t') == nav[..k] + nav[k + 1..]
  {
    var id := nav[k].category.id;
    var t' := DropCategory(DeleteLinksOf(t, id), id);
    DeleteCategoryIsView(t, nav, k);
    ViewUnique(t', nav[..k] + nav[k + 1..]);
  }

  /** Dropping a category and its links removes its group and nothing else. */
  lemma DeleteCategoryView(t: Tables, id: int)
    requires Invariant(t) && id in t.categories
    ensures var t' := DropCategory(DeleteLinksOf(t, id), id);
            Invariant(t') && View(t') == RemoveGroup(View(t), id)
  {
    var nav := View(t);
    ViewIds(t, nav);
    var k :| 0 <= k < |nav| && nav[k].category.id == id;
    RemoveGroupAt(nav, k);
    DeleteCategoryAt(t, nav, k);
  }

  /** `shift` is at or beyond every place taken in the target category. */
  ghost predicate IsShift(t: Tables, target: int, shift: int) {
    && 0 <= shift
    && forall id :: id in t.links && t.links[id].categoryId == target ==> t.links[id].sortOrder <= shift
  }

  lemma MergedLinksView(t: Tables, t': Tables, source: int, a: seq<Link>, target: int, b: seq<Link>, shift: int)
    requires ValidLinks(t) && source != target && IsShift(t, target, shift)
    requires t'.links == MoveLinksOf(t, source, target, shift).links
    requires IsLinkView(t, target, a) && IsLinkView(t, source, b)
    ensures IsLinkView(t', target, a + b)
  {
    ListingConcat(LinkOrders(t, target), LinkIds(a), LinkOrders(t, source), LinkIds(b), shift, LinkOrders(t', target));
    assert LinkIds(a + b) == LinkIds(a) + LinkIds(b);
    LinkViewIds(t, target, a);
    LinkViewIds(t, source, b);
  }

  lemma MoveLinksIsView(t: Tables, nav: seq<Group>, k: nat, target: int, shift: int)
    requires ValidLinks(t) && IsView(t, nav) && k < |nav| && nav[k].category.id != target && IsShift(t, target, shift)
    ensures var source := nav[k].category.id;
            var merged := MergeLinks(nav, source, target);
            IsView(DropCategory(MoveLinksOf(t, source, target, shift), source), merged[..k] + merged[k + 1..])
  {
    var source := nav[k].category.id;
    var t' := DropCategory(MoveLinksOf(t, source, target, shift), source);
    var merged := MergeLinks(nav, source, target);
    var nav' := merged[..k] + merged[k + 1..];
    ViewIds(t, nav);
    LinksOfAt(nav, k);
    DropCategoryListing(t, t', nav, k);
    assert CategoryIds(merged) == CategoryIds(nav);
    IdsRemoved(nav, k);
    IdsRemoved(merged, k);
    forall i | 0 <= i < |nav'| ensures IsGroupView(t', nav'[i]) {
      RemovedAt(merged, k, i);
      var j := if i < k then i else i + 1;
      assert IsGroupView(t, nav[j]) && IsGroupView(t, nav[k]);
      if nav[j].category.id == target {
        MergedLinksView(t, t', source, nav[j].links, target, nav[k].links, shift);
      } else {
        GroupUnaffected(t, t', nav[j]);
      }
    }
  }

  lemma MoveLinksInvariant(t: Tables, source: int, target: int, shift: int)
    requires Invariant(t) && target in t.categories && source != target && IsShift(t, target, shift)
    ensures Invariant(DropCategory(MoveLinksOf(t, source, target, shift), source))
  {
  }

  /** Moving the links away first appends them, in order, to the target group. */
  lemma MoveLinksView(t: Tables, source: int, target: int, shift: int)
    requires Invariant(t) && source in t.categories && target in t.categories && source != target
    requires IsShift(t, target, shift)
    ensures var t' := DropCategory(MoveLinksOf(t, source, target, shift), source);
            Invariant(t') && View(t') == RemoveGroup(MergeLinks(View(t), source, target), source)
  {
    MoveLinksInvariant(t, source, target, shift);
    MergedRemoved(t, View(t), source, target, shift);
    ViewUnique(DropCategory(MoveLinksOf(t, source, target, shift), source),
               RemoveGroup(MergeLinks(View(t), source, target), source));
  }

  lemma MergedRemoved(t: Tables, nav: seq<Group>, source: int, target: int, shift: int)
    requires ValidLinks(t) && IsView(t, nav) && source in t.categories && source != target && IsShift(t, target, shift)
    ensures IsView(DropCategory(MoveLinksOf(t, source, target, shift), source),
                   RemoveGroup(MergeLinks(nav, source, target), source))
  {
    ViewIds(t, nav);
    var k :| 0 <= k < |nav| && nav[k].category.id == source;
    MoveLinksIsView(t, nav, k, target, shift);
    RemoveGroupAt(MergeLinks(nav, source, target), k);
  }

  // ---- Reordering -------------------------------------------------------------------------

  /** `ids` holds every key exactly once. */
  ghost predicate IsPermutation(ids: seq<int>, keys: set<int>) {
    NoDuplicates(ids) && forall id :: id in ids <==> id in keys
  }

  /** Pigeonhole: as many distinct existing ids as rows means every row is named. */
  lemma Pigeonhole(ids: seq<int>, keys: set<int>)
    requires NoDuplicates(ids) && |ids| == |keys|
    requires forall i :: 0 <= i < |ids| ==> ids[i] in keys
    ensures IsPermutation(ids, keys)
  {
    DistinctCount(ids);
    SubsetOfSameSize(Elements(ids), keys);
    forall id ensures id in ids <==> id in keys {
      assert id in ids <==> id in Elements(ids);
    }
  }

  lemma PermutationCount(ids: seq<int>, keys: set<int>)
    requires IsPermutation(ids, keys)
    ensures |ids| == |keys| && forall i :: 0 <= i < |ids| ==> ids[i] in keys
  {
    DistinctCount(ids);
    assert Elements(ids) == keys by {
      forall id ensures id in Elements(ids) <==> id in keys { assert id in ids <==> id in Elements(ids); }
    }
    forall i | 0 <= i < |ids| ensures ids[i] in keys {
      var id := ids[i];
      assert id in ids;
    }
  }

  /** `t'` is `t` with the categories renumbered 10, 20, … in the order of `ids`. */
  ghost predicate CategoriesReordered(t: Tables, t': Tables, ids: seq<int>) {
    && t' == t.(categories := t'.categories)
    && t'.categories.Keys == t.categories.Keys
    && forall i :: 0 <= i < |ids| ==> ids[i] in t.categories &&
                                      t'.categories[ids[i]] == t.categories[ids[i]].(sortOrder := (i + 1) * 10)
  }

  lemma ReorderCategoriesInvariant(t: Tables, t': Tables, ids: seq<int>)
    requires Invariant(t) && IsPermutation(ids, t.categories.Keys) && CategoriesReordered(t, t', ids)
    ensures Invariant(t')
  {
    forall a, b | a in t'.categories && b in t'.categories && a != b
      ensures t'.categories[a].sortOrder != t'.categories[b].sortOrder
    {
      assert a in ids && b in ids;
    }
    forall id | id in t'.categories ensures 0 < t'.categories[id].sortOrder {
      assert id in ids;
    }
  }

  lemma ReorderCategoriesIsView(t: Tables, nav: seq<Group>, t': Tables, nav': seq<Group>, ids: seq<int>)
    requires IsPermutation(ids, t.categories.Keys) && CategoriesReordered(t, t', ids)
    requires IsView(t, nav) && IsView(t', nav')
    ensures IsGroupPermutation(nav, ids, nav')
  {
    assert CategoryOrders(t').Keys == CategoryOrders(t).Keys == t.categories.Keys;
    PermutationCount(ids, t.categories.Keys);
    ListingRenumber(CategoryOrders(t'), ids);
    ListingUnique(CategoryOrders(t'), ids, CategoryIds(nav'));
    ListingCount(CategoryOrders(t), CategoryIds(nav));
    ViewIds(t, nav);
    ViewIds(t', nav');
    forall i | 0 <= i < |nav'| ensures nav'[i] in nav {
      assert IsGroupView(t', nav'[i]);
      var k :| 0 <= k < |nav| && nav[k].category.id == nav'[i].category.id;
      assert IsGroupView(t, nav[k]);
      SameGroup(t, t', nav[k], nav'[i], ids);
    }
    forall k | 0 <= k < |nav| ensures nav[k] in nav' {
      assert IsGroupView(t, nav[k]);
      var i :| 0 <= i < |nav'| && nav'[i].category.id == nav[k].category.id;
      assert IsGroupView(t', nav'[i]);
      SameGroup(t, t', nav[k], nav'[i], ids);
    }
  }

  lemma SameGroup(t: Tables, t': Tables, group: Group, group': Group, ids: seq<int>)
    requires IsPermutation(ids, t.categories.Keys) && CategoriesReordered(t, t', ids)
    requires IsGroupView(t, group) && IsGroupView(t', group') && group.category.id == group'.category.id
    ensures group == group'
  {
    assert group.category.id in ids;
    var i :| 0 <= i < |ids| && ids[i] == group.category.id;
    assert LinkOrders(t', group.category.id) == LinkOrders(t, group.category.id);
    LinkViewUnique(t, group.category.id, group.links, group'.links);
  }

  lemma ListingCount(orders: map<int, int>, ids: seq<int>)
    requires IsListing(orders, ids)
    ensures |ids| == |orders.Keys|
  {
    ListingDistinct(orders, ids);
    PermutationCount(ids, orders.Keys);
  }

  /** `t'` is `t` with the links of one category renumbered in the order of `ids`. */
  ghost predicate LinksReordered(t: Tables, t': Tables, categoryId: int, ids: seq<int>) {
    && t' == t.(links := t'.links)
    && t'.links.Keys == t.links.Keys
    && (forall id :: id in t.links && t.links[id].categoryId != categoryId ==> t'.links[id] == t.links[id])
    && forall i :: 0 <= i < |ids| ==> ids[i] in t.links &&
                                      t'.links[ids[i]] == t.links[ids[i]].(sortOrder := (i + 1) * 10)
  }

  lemma ReorderedOrders(t: Tables, t': Tables, categoryId: int, ids: seq<int>)
    requires IsPermutation(ids, LinkOrders(t, categoryId).Keys) && LinksReordered(t, t', categoryId, ids)
    ensures LinkOrders(t', categoryId).Keys == LinkOrders(t, categoryId).Keys
    ensures forall id :: id in t.links ==>
              t'.links[id] == t.links[id] ||
              (id in ids && t'.links[id] == t.links[id].(sortOrder := t'.links[id].sortOrder))
    ensures forall i :: 0 <= i < |ids| ==> ids[i] in LinkOrders(t', categoryId) &&
                                           LinkOrders(t', categoryId)[ids[i]] == (i + 1) * 10
  {
    forall id | id in t.links
      ensures t'.links[id] == t.links[id] ||
              (id in ids && t'.links[id] == t.links[id].(sortOrder := t'.links[id].sortOrder))
    {
      if t.links[id].categoryId == categoryId {
        assert id in LinkOrders(t, categoryId).Keys;
        assert id in ids;
      }
    }
    PermutationCount(ids, LinkOrders(t, categoryId).Keys);
  }

  lemma ReorderLinksInvariant(t: Tables, t': Tables, categoryId: int, ids: seq<int>)
    requires Invariant(t) && IsPermutation(ids, LinkOrders(t, categoryId).Keys)
    requires LinksReordered(t, t', categoryId, ids)
    ensures Invariant(t')
  {
    ReorderedOrders(t, t', categoryId, ids);
    forall id | id in t'.links
      ensures 0 < t'.links[id].sortOrder && t'.links[id].categoryId in t'.categories
    {
      assert t'.links[id] == t.links[id] || id in ids;
    }
    forall a, b | a in t'.links && b in t'.links && a != b && t'.links[a].categoryId == t'.links[b].categoryId
      ensures t'.links[a].sortOrder != t'.links[b].sortOrder
    {
      if t'.links[a].categoryId == categoryId {
        assert a in LinkOrders(t', categoryId).Keys && b in LinkOrders(t', categoryId).Keys;
        assert a in ids && b in ids;
      }
    }
  }

  lemma ReorderLinksIsView(t: Tables, nav: seq<Group>, t': Tables, nav': seq<Group>, categoryId: int, ids: seq<int>)
    requires IsPermutation(ids, LinkOrders(t, categoryId).Keys) && LinksReordered(t, t', categoryId, ids)
    requires IsView(t, nav) && IsView(t', nav')
    ensures IsLinkPermutation(nav, categoryId, ids, nav')
  {
    assert CategoryOrders(t') == CategoryOrders(t);
    ListingUnique(CategoryOrders(t), CategoryIds(nav), CategoryIds(nav'));
    assert |CategoryIds(nav)| == |nav| == |nav'|;
    ReorderedOrders(t, t', categoryId, ids);
    forall i | 0 <= i < |nav| ensures GroupReordered(nav[i], nav'[i], categoryId, ids) {
      assert CategoryIds(nav)[i] == CategoryIds(nav')[i];
      assert IsGroupView(t, nav[i]) && IsGroupView(t', nav'[i]);
      var c := nav[i].category.id;
      if c != categoryId {
        GroupUnaffected(t, t', nav[i]);
        LinkViewUnique(t', c, nav[i].links, nav'[i].links);
      } else {
        ListingRenumber(LinkOrders(t', c), ids);
        ListingUnique(LinkOrders(t', c), ids, LinkIds(nav'[i].links));
        SameLinks(t, t', c, nav[i].links, nav'[i].links, ids);
      }
    }
  }

  lemma SameLinks(t: Tables, t': Tables, c: int, links: seq<Link>, links': seq<Link>, ids: seq<int>)
    requires IsPermutation(ids, LinkOrders(t, c).Keys) && LinksReordered(t, t', c, ids)
    requires IsLinkView(t, c, links) && IsLinkView(t', c, links') && LinkIds(links') == ids
    ensures |links| == |links'| && forall link :: link in links' <==> link in links
  {
    LinkViewIds(t, c, links);
    ListingCount(LinkOrders(t, c), LinkIds(links));
    PermutationCount(ids, LinkOrders(t, c).Keys);
    forall i | 0 <= i < |links'| ensures links'[i] in links {
      assert links'[i].id == ids[i];
      var k :| 0 <= k < |links| && links[k].id == ids[i];
    }
    forall k | 0 <= k < |links| ensures links[k] in links' {
      assert links[k].id in LinkOrders(t, c).Keys;
      var i :| 0 <= i < |ids| && ids[i] == links[k].id;
      assert links'[i].id == ids[i];
    }
  }
}
