/** The store's methods. Each transaction works on its own copy of the tables and publishes
    it on commit; any SQL statement may fail, which leaves the tables as they were. */
module NavigationStore {
  import opened Navigation
  import opened NavigationRows
  import opened Sets

  datatype Error =
    | Sql                   // a statement or the commit failed
    | ReadBack              // the row could not be read again after the commit
    | CategoryHasLinks
    | CategoryNotFound
    | InvalidCategoryMove
    | InvalidCategoryOrder
    | LinkNotFound
    | InvalidLinkOrder

  datatype Result<+T> = Ok(value: T) | Err(error: Error)

  datatype DeleteMode = DeleteLinks | MoveLinks | NoMode

  /** The connection to the database. Any statement may fail: which ones do is any function of the
      number of statements before. */
  class Connection {
    const fails: nat -> bool
    var statements: nat
    ghost var failures: nat

    constructor (fails: nat -> bool)
      ensures this.fails == fails && statements == 0
    {
      this.fails, statements, failures := fails, 0, 0;
    }

    method Fails() returns (failed: bool)
      modifies this
      ensures failed == fails(old(statements)) && statements == old(statements) + 1
      ensures failures == old(failures) + if failed then 1 else 0
    {
      failed := fails(statements);
      statements := statements + 1;
      if failed { failures := failures + 1; }
    }
  }

  /** `SELECT COALESCE(MAX(sort_order), 0)`. */
  method MaxSortOrder(orders: map<int, int>) returns (max: int)
    requires forall id :: id in orders ==> 0 < orders[id]
    ensures 0 <= max
    ensures forall id :: id in orders ==> orders[id] <= max
    ensures max == 0 || exists id :: id in orders && orders[id] == max
  {
    max := 0;
    var left := orders.Keys;
    while exists id :: id in left
      invariant left <= orders.Keys && 0 <= max
      invariant forall id :: id in orders && id !in left ==> orders[id] <= max
      invariant max == 0 || exists id :: id in orders && orders[id] == max
      decreases |left|
    {
      var id :| id in left;
      left := left - {id};
      if orders[id] > max { max := orders[id]; }
    }
  }

  // ---- The navigation query -------------------------------------------------------------

  datatype JoinRow = Joined(category: Category, link: Link) | Alone(category: Category)

  /** The rows of one category in `categories LEFT JOIN links`. */
  function RowsOf(group: Group): seq<JoinRow> {
    if group.links == [] then [Alone(group.category)]
    else seq(|group.links|, i requires 0 <= i < |group.links| => Joined(group.category, group.links[i]))
  }

  /** The ordered rows of the join. */
  function JoinRows(nav: seq<Group>): seq<JoinRow> {
    if nav == [] then [] else JoinRows(nav[..|nav| - 1]) + RowsOf(nav[|nav| - 1])
  }

  /** The `WHERE` clause: only public categories, unless private ones are asked for. */
  function Visible(nav: seq<Group>, includePrivate: bool): seq<Group> {
    if nav == [] then []
    else
      var last := |nav| - 1;
      Visible(nav[..last], includePrivate) +
      if includePrivate || nav[last].category.visibility == Public then [nav[last]] else []
  }

  lemma {:induction false} VisibleIsSelection(nav: seq<Group>, includePrivate: bool)
    ensures IsSelection(nav, if includePrivate then {Public, Private} else {Public}, Visible(nav, includePrivate))
  {
    var shown := if includePrivate then {Public, Private} else {Public};
    if nav == [] {
      NothingSelected(shown);
    } else {
      var last := |nav| - 1;
      VisibleIsSelection(nav[..last], includePrivate);
      assert nav[last].category.visibility.Public? || nav[last].category.visibility.Private?;
      SelectionStep(nav[..last], shown, Visible(nav[..last], includePrivate), nav[last]);
      assert nav[..last] + [nav[last]] == nav;
    }
  }

  ghost predicate DistinctGroups(nav: seq<Group>) {
    forall i, j :: 0 <= i < j < |nav| ==> nav[i].category.id != nav[j].category.id
  }

  lemma {:induction false} VisibleDistinct(nav: seq<Group>, includePrivate: bool)
    requires DistinctGroups(nav)
    ensures DistinctGroups(Visible(nav, includePrivate))
    ensures forall group :: group in Visible(nav, includePrivate) <==>
              group in nav && (includePrivate || group.category.visibility == Public)
  {
    if nav != [] {
      VisibleDistinct(nav[..|nav| - 1], includePrivate);
      assert nav == nav[..|nav| - 1] + [nav[|nav| - 1]];
    }
  }

  lemma {:induction false} JoinPrefix(nav: seq<Group>, g: nat)
    requires g <= |nav|
    ensures JoinRows(nav[..g]) <= JoinRows(nav)
  {
    if g == |nav| {
      assert nav[..g] == nav;
    } else {
      JoinPrefix(nav[..|nav| - 1], g);
      assert nav[..|nav| - 1][..g] == nav[..g];
    }
  }

  lemma JoinNext(nav: seq<Group>, g: nat)
    requires g < |nav|
    ensures JoinRows(nav[..g + 1]) == JoinRows(nav[..g]) + RowsOf(nav[g])
  {
    assert nav[..g + 1][..g] == nav[..g];
  }

  lemma RowAt(nav: seq<Group>, g: nat, n: nat)
    requires g < |nav| && n < |RowsOf(nav[g])|
    ensures |JoinRows(nav[..g])| + n < |JoinRows(nav)|
    ensures JoinRows(nav)[|JoinRows(nav[..g])| + n] == RowsOf(nav[g])[n]
  {
    RowsBefore(nav, g);
    InPrefix(JoinRows(nav[..g]), RowsOf(nav[g]), JoinRows(nav), n);
  }

  lemma RowsBefore(nav: seq<Group>, g: nat)
    requires g < |nav|
    ensures JoinRows(nav[..g]) + RowsOf(nav[g]) <= JoinRows(nav)
  {
    JoinPrefix(nav, g + 1);
    JoinNext(nav, g);
  }

  lemma InPrefix<T>(a: seq<T>, b: seq<T>, all: seq<T>, n: nat)
    requires a + b <= all && n < |b|
    ensures |a| + n < |all| && all[|a| + n] == b[n]
  {
    assert (a + b)[|a| + n] == b[n];
  }

  /** The groups built once `n` rows of group `g` have been read. */
  ghost function Partial(nav: seq<Group>, g: nat, n: nat): seq<Group>
    requires g < |nav| && 0 < n
  {
    nav[..g] + [Group(nav[g].category, if n < |nav[g].links| then nav[g].links[..n] else nav[g].links)]
  }

  /** `n` rows of group `g` have been read; `g` may be past the end. */
  ghost predicate IsPosition(nav: seq<Group>, g: nat, n: nat) {
    g <= |nav| && if g < |nav| then n < |RowsOf(nav[g])| else n == 0
  }

  ghost function Built(nav: seq<Group>, g: nat, n: nat): seq<Group>
    requires IsPosition(nav, g, n)
  {
    if n == 0 then nav[..g] else Partial(nav, g, n)
  }

  lemma PositionInside(nav: seq<Group>, g: nat, n: nat)
    requires IsPosition(nav, g, n) && |JoinRows(nav[..g])| + n < |JoinRows(nav)|
    ensures g < |nav|
  {
    assert nav[..|nav|] == nav;
  }

  lemma PositionAtEnd(nav: seq<Group>, g: nat, n: nat)
    requires IsPosition(nav, g, n) && |JoinRows(nav[..g])| + n == |JoinRows(nav)|
    ensures Built(nav, g, n) == nav
  {
    if g < |nav| { RowAt(nav, g, n); } else { assert nav[..g] == nav; }
  }

  lemma GroupDone(nav: seq<Group>, g: nat)
    requires g < |nav|
    ensures Partial(nav, g, |RowsOf(nav[g])|) == nav[..g + 1]
    ensures |JoinRows(nav[..g + 1])| == |JoinRows(nav[..g])| + |RowsOf(nav[g])|
  {
    assert nav[..g + 1][..g] == nav[..g];
  }

  lemma PartialStep(nav: seq<Group>, g: nat, n: nat)
    requires g < |nav| && n < |RowsOf(nav[g])|
    ensures var links := if RowsOf(nav[g])[n].Joined? then [RowsOf(nav[g])[n].link] else [];
            Partial(nav, g, n + 1) ==
            nav[..g] + [Group(nav[g].category, (if n == 0 then [] else nav[g].links[..n]) + links)]
  {
    if nav[g].links != [] {
      var links := nav[g].links;
      assert links[..n + 1] == links[..n] + [links[n]];
      assert links[..|links|] == links;
      assert links[..0] == [];
      assert [] + [links[n]] == [links[n]];
      assert (if n == 0 then [] else links[..n]) == links[..n];
      assert (if n + 1 < |links| then links[..n + 1] else links) == links[..n] + [links[n]];
      assert RowsOf(nav[g])[n] == Joined(nav[g].category, links[n]);
    } else {
      assert nav[g].links + [] == nav[g].links;
    }
  }

  /** The category of the last group built. */
  ghost predicate IsCurrent(nav: seq<Group>, g: nat, n: nat, current: int)
    requires IsPosition(nav, g, n)
  {
    if n > 0 then current == nav[g].category.id else g > 0 ==> current == nav[g - 1].category.id
  }

  /** A row starts a new group exactly if it is the first row of its category. */
  lemma RowStarts(nav: seq<Group>, g: nat, n: nat, groups: seq<Group>, current: int, row: JoinRow)
    requires g < |nav| && n < |RowsOf(nav[g])| && row == RowsOf(nav[g])[n] && DistinctGroups(nav)
    requires groups == Built(nav, g, n) && IsCurrent(nav, g, n, current)
    ensures row.category == nav[g].category && (groups == [] || current != row.category.id <==> n == 0)
    ensures n == 0 ==> groups == nav[..g]
    ensures n > 0 ==> groups == nav[..g] + [Group(nav[g].category, nav[g].links[..n])]
  {
  }

  lemma ReplaceLast<T>(before: seq<T>, last: T, next: T)
    ensures var s := before + [last];
            s[|s| - 1] == last && s[..|s| - 1] + [next] == before + [next]
  {
    assert (before + [last])[..|before|] == before;
  }

  /** One turn of the loop: the row starts a group or continues the last one. */
  method AddRow(groups0: seq<Group>, current0: int, row: JoinRow, ghost nav: seq<Group>, ghost g: nat, ghost n: nat)
    returns (groups: seq<Group>, currentCategoryId: int)
    requires g < |nav| && n < |RowsOf(nav[g])| && row == RowsOf(nav[g])[n] && DistinctGroups(nav)
    requires groups0 == Built(nav, g, n) && IsCurrent(nav, g, n, current0)
    ensures groups == Partial(nav, g, n + 1) && currentCategoryId == nav[g].category.id
  {
    groups, currentCategoryId := groups0, current0;
    RowStarts(nav, g, n, groups, currentCategoryId, row);
    if groups == [] || currentCategoryId != row.category.id {
      groups := groups + [Group(row.category, [])];
      currentCategoryId := row.category.id;
    }
    ghost var begun := Group(nav[g].category, if n == 0 then [] else nav[g].links[..n]);
    assert groups == nav[..g] + [begun];
    if row.Joined? {
      var last := |groups| - 1;
      ReplaceLast(nav[..g], begun, Group(begun.category, begun.links + [row.link]));
      groups := groups[..last] + [Group(groups[last].category, groups[last].links + [row.link])];
    }
    PartialStep(nav, g, n);
  }

  /** One row on: the next row of the group, or the first of the next group. */
  lemma NextPosition(nav: seq<Group>, g: nat, n: nat, current: int) returns (g': nat, n': nat)
    requires g < |nav| && n < |RowsOf(nav[g])| && current == nav[g].category.id
    ensures IsPosition(nav, g', n') && IsCurrent(nav, g', n', current) && Built(nav, g', n') == Partial(nav, g, n + 1)
    ensures |JoinRows(nav[..g'])| + n' == |JoinRows(nav[..g])| + n + 1
  {
    g', n' := g, n + 1;
    if n' == |RowsOf(nav[g])| {
      GroupDone(nav, g);
      g', n' := g + 1, 0;
      FirstRow(nav, g');
    }
  }

  lemma FirstRow(nav: seq<Group>, g: nat)
    requires g <= |nav|
    ensures IsPosition(nav, g, 0)
  {
  }

  /** The join-and-group loop gives back exactly the listed groups, empty ones included. */
  method GroupRows(rows: seq<JoinRow>, ghost nav: seq<Group>) returns (groups: seq<Group>)
    requires rows == JoinRows(nav) && DistinctGroups(nav)
    ensures groups == nav
  {
    groups := [];
    var currentCategoryId := 0;
    ghost var g: nat, n: nat := 0, 0;
    for k := 0 to |rows|
      invariant IsPosition(nav, g, n) && IsCurrent(nav, g, n, currentCategoryId)
      invariant k == |JoinRows(nav[..g])| + n
      invariant groups == Built(nav, g, n)
    {
      PositionInside(nav, g, n);
      RowAt(nav, g, n);
      groups, currentCategoryId := AddRow(groups, currentCategoryId, rows[k], nav, g, n);
      g, n := NextPosition(nav, g, n, currentCategoryId);
    }
    PositionAtEnd(nav, g, n);
  }

  ghost predicate MovesLinks(t: Tables, id: int, mode: DeleteMode) { LinkOrders(t, id) != map[] && mode == MoveLinks }

  /** What is left of the list when the category goes. */
  ghost function WithoutCategory(t: Tables, id: int, mode: DeleteMode, targetId: int): seq<Group> {
    if MovesLinks(t, id, mode) then RemoveGroup(MergeLinks(View(t), id, targetId), id) else RemoveGroup(View(t), id)
  }

  ghost predicate Cleared(t: Tables, t': Tables, id: int, mode: DeleteMode, targetId: int) {
    Invariant(DropCategory(t', id)) && View(DropCategory(t', id)) == WithoutCategory(t, id, mode, targetId)
  }

  lemma ClearByDeleting(t: Tables, id: int, mode: DeleteMode, targetId: int)
    requires Invariant(t) && id in t.categories && !MovesLinks(t, id, mode)
    ensures Cleared(t, DeleteLinksOf(t, id), id, mode, targetId)
    ensures LinkOrders(t, id) == map[] ==> DeleteLinksOf(t, id) == t
  {
    if LinkOrders(t, id) == map[] { NoLinksToDelete(t, id); }
    DeleteCategoryView(t, id);
  }

  lemma ClearByMoving(t: Tables, id: int, mode: DeleteMode, targetId: int, max: int)
    requires Invariant(t) && id in t.categories && MovesLinks(t, id, mode) && targetId in t.categories && targetId != id
    requires 0 <= max && forall l :: l in LinkOrders(t, targetId) ==> LinkOrders(t, targetId)[l] <= max
    ensures Cleared(t, MoveLinksOf(t, id, targetId, max + 10), id, mode, targetId)
  {
    ShiftAfterMax(t, targetId, max);
    MoveLinksView(t, id, targetId, max + 10);
  }

  lemma PositiveOrders(t: Tables, categoryId: int)
    requires Invariant(t)
    ensures forall l :: l in LinkOrders(t, categoryId) ==> 0 < LinkOrders(t, categoryId)[l]
  {
  }

  /** What becomes of the links before their category is deleted. */
  method ClearCategory(t: Tables, id: int, mode: DeleteMode, targetId: int) returns (r: Result<Tables>)
    requires Invariant(t) && id in t.categories
    ensures r.Ok? ==> Cleared(t, r.value, id, mode, targetId)
    ensures r.Ok? <==> LinkOrders(t, id) == map[] || mode == DeleteLinks ||
                       (mode == MoveLinks && targetId != 0 && targetId in t.categories && targetId != id)
    ensures r.Err? ==> r.error == if mode == NoMode then CategoryHasLinks else InvalidCategoryMove
  {
    if LinkOrders(t, id) == map[] {
      ClearByDeleting(t, id, mode, targetId);
      return Ok(t);
    }
    match mode {
      case DeleteLinks =>
        ClearByDeleting(t, id, mode, targetId);
        r := Ok(DeleteLinksOf(t, id));
      case MoveLinks =>
        if targetId == 0 || targetId == id || targetId !in t.categories { return Err(InvalidCategoryMove); }
        PositiveOrders(t, targetId);
        var max := MaxSortOrder(LinkOrders(t, targetId));
        ClearByMoving(t, id, mode, targetId, max);
        r := Ok(MoveLinksOf(t, id, targetId, max + 10));
      case NoMode =>
        r := Err(CategoryHasLinks);
    }
  }

  class Store {
    var tables: Tables
    const connection: Connection

    constructor (fails: nat -> bool)
      ensures Valid() && List() == [] && fresh(connection) && connection.fails == fails && connection.statements == 0
      ensures tables.lastCategoryId == 0
    {
      tables := EMPTY_TABLES;
      connection := new Connection(fails);
      new;
      ViewUnique(tables, []);
    }

    ghost predicate Valid()
      reads this
    {
      Invariant(tables)
    }

    /** The ordered list the store presents, private categories included. */
    ghost function List(): seq<Group>
      reads this
    {
      View(tables)
    }

    /** `rows` is the answer of the join query. */
    method Navigation(includePrivate: bool, rows: seq<JoinRow>) returns (groups: seq<Group>)
      requires Valid() && rows == JoinRows(Visible(List(), includePrivate))
      ensures groups == Visible(List(), includePrivate)
      ensures IsSelection(List(), if includePrivate then {Public, Private} else {Public}, groups)
    {
      VisibleIsSelection(View(tables), includePrivate);
      ViewIds(tables, View(tables));
      VisibleDistinct(View(tables), includePrivate);
      groups := GroupRows(rows, Visible(List(), includePrivate));
    }

    method CreateCategory(name: string, slug: string, iconName: string, visibility: Visibility)
      returns (r: Result<Category>)
      requires Valid()
      modifies this, connection
      ensures Valid()
      ensures connection.failures == old(connection.failures) + if r == Err(Sql) then 1 else 0
      ensures r.Err? ==> r.error == Sql && tables == old(tables)
      ensures r.Ok? ==>
        && List() == old(List()) + [Group(r.value, [])]
        && r.value == Category(old(tables.lastCategoryId) + 1, name, slug, iconName, visibility)
      ensures var n := old(connection.statements);
              && (r.Err? <==> connection.fails(n) || connection.fails(n + 1))
              && (r.Ok? ==> connection.statements == n + 2)
    {
      var failed := connection.Fails();
      if failed { return Err(Sql); }
      var max := MaxSortOrder(CategoryOrders(tables));
      var row := CategoryRow(name, slug, iconName, visibility, max + 10);
      assert forall id :: id in tables.categories ==> id in CategoryOrders(tables);
      InsertCategoryView(tables, row);
      var transaction := InsertCategory(tables, row);
      failed := connection.Fails();
      if failed { return Err(Sql); }
      tables := transaction;
      r := Ok(CategoryAt(tables, tables.lastCategoryId));
    }

    method UpdateCategory(id: int, name: string, iconName: string, visibility: Visibility)
      returns (r: Result<Category>)
      requires Valid()
      modifies this, connection
      ensures Valid()
      ensures connection.failures == old(connection.failures) + if r == Err(Sql) || r == Err(ReadBack) then 1 else 0
      ensures r.Err? && r.error != ReadBack ==> tables == old(tables)
      ensures r.Ok? || r.error == ReadBack ==>
        id in old(tables).categories && List() == EditCategory(old(List()), id, name, iconName, visibility)
      ensures r.Ok? ==> r.value == Category(id, name, old(tables).categories[id].slug, iconName, visibility)
      ensures r.Err? ==> r.error in {Sql, ReadBack, CategoryNotFound}
      ensures r == Err(CategoryNotFound) ==> id !in old(tables).categories
      ensures var n := old(connection.statements);
              r == Err(ReadBack) <==> id in old(tables).categories && !connection.fails(n) && connection.fails(n + 1)
    {
      var failed := connection.Fails();
      if failed { return Err(Sql); }
      if id !in tables.categories { return Err(CategoryNotFound); }
      UpdateCategoryView(tables, id, name, iconName, visibility);
      tables := NavigationRows.UpdateCategory(tables, id, name, iconName, visibility);
      failed := connection.Fails();
      if failed { return Err(ReadBack); }
      r := Ok(CategoryAt(tables, id));
    }

    method CreateLink(categoryId: int, fields: LinkFields) returns (r: Result<Link>)
      requires Valid()
      modifies this, connection
      ensures Valid()
      ensures connection.failures == old(connection.failures) + if r == Err(Sql) then 1 else 0
      ensures r.Err? ==> tables == old(tables) && r.error in {Sql, CategoryNotFound}
      ensures r == Err(CategoryNotFound) ==> categoryId !in old(tables).categories
      ensures r.Ok? ==>
        && categoryId in old(tables).categories
        && r.value == Link(old(tables.lastLinkId) + 1, fields)
        && List() == AppendLink(old(List()), categoryId, r.value)
    {
      var failed := connection.Fails();
      if failed { return Err(Sql); }
      if categoryId !in tables.categories { return Err(CategoryNotFound); }
      var max := MaxSortOrder(LinkOrders(tables, categoryId));
      LastAfterMax(tables, LinkRow(categoryId, fields, max + 10), max);
      PutNewLinkView(tables, tables.lastLinkId + 1, LinkRow(categoryId, fields, max + 10));
      var transaction := PutLink(tables, tables.lastLinkId + 1, LinkRow(categoryId, fields, max + 10));
      failed := connection.Fails();
      if failed { return Err(Sql); }
      tables := transaction;
      r := Ok(Link(tables.lastLinkId, fields));
    }

    /** A link edited within its category keeps its place; one that changes category goes last. */
    method UpdateLink(id: int, categoryId: int, fields: LinkFields) returns (r: Result<Link>)
      requires Valid()
      modifies this, connection
      ensures Valid()
      ensures connection.failures == old(connection.failures) + if r == Err(Sql) || r == Err(ReadBack) then 1 else 0
      ensures r.Err? && r.error != ReadBack ==> tables == old(tables)
      ensures r.Err? ==> r.error in {Sql, ReadBack, LinkNotFound, CategoryNotFound}
      ensures r == Err(LinkNotFound) ==> id !in old(tables).links
      ensures r == Err(CategoryNotFound) ==> id in old(tables).links && categoryId !in old(tables).categories
      ensures r.Ok? || r.error == ReadBack ==>
        && id in old(tables).links
        && List() == if old(tables).links[id].categoryId == categoryId
                     then EditLink(old(List()), id, fields)
                     else AppendLink(RemoveLink(old(List()), id), categoryId, Link(id, fields))
      ensures r.Ok? ==> r.value == Link(id, fields)
      ensures var n := old(connection.statements);
              r == Err(ReadBack) <==>
                && id in old(tables).links
                && (old(tables).links[id].categoryId == categoryId || categoryId in old(tables).categories)
                && !connection.fails(n) && !connection.fails(n + 1) && connection.fails(n + 2)
    {
      var failed := connection.Fails();
      if failed { return Err(Sql); }
      if id !in tables.links { return Err(LinkNotFound); }
      var order := tables.links[id].sortOrder;
      if tables.links[id].categoryId != categoryId {
        if categoryId !in tables.categories { return Err(CategoryNotFound); }
        var max := MaxSortOrder(LinkOrders(tables, categoryId));
        order := max + 10;
        LastAfterMax(tables, LinkRow(categoryId, fields, order), max);
        MoveLinkView(tables, id, LinkRow(categoryId, fields, order));
      } else {
        EditLinkView(tables, id, fields);
      }
      var transaction := PutLink(tables, id, LinkRow(categoryId, fields, order));
      failed := connection.Fails();
      if failed { return Err(Sql); }
      tables := transaction;
      failed := connection.Fails();
      if failed { return Err(ReadBack); }
      r := Ok(Link(id, tables.links[id].fields));
    }

    method DeleteLink(id: int) returns (r: Result<()>)
      requires Valid()
      modifies this, connection
      ensures Valid()
      ensures connection.failures == old(connection.failures) + if r == Err(Sql) then 1 else 0
      ensures r.Err? ==> tables == old(tables) && r.error in {Sql, LinkNotFound}
      ensures r == Err(LinkNotFound) ==> id !in old(tables).links
      ensures r.Ok? ==> id in old(tables).links && List() == RemoveLink(old(List()), id)
    {
      var failed := connection.Fails();
      if failed { return Err(Sql); }
      if id !in tables.links { return Err(LinkNotFound); }
      DeleteLinkView(tables, id);
      tables := NavigationRows.DeleteLink(tables, id);
      r := Ok(());
    }

    /** The mode only matters when the category has links. */
    method DeleteCategory(id: int, mode: DeleteMode, targetId: int) returns (r: Result<()>)
      requires Valid()
      modifies this, connection
      ensures Valid()
      ensures connection.failures == old(connection.failures) + if r == Err(Sql) then 1 else 0
      ensures r.Err? ==> tables == old(tables)
      ensures r.Ok? ==>
        && id in old(tables).categories
        && List() == WithoutCategory(old(tables), id, mode, targetId)
      ensures r.Ok? && LinkOrders(old(tables), id) != map[] ==>
        mode == DeleteLinks || (mode == MoveLinks && targetId in old(tables).categories && targetId != id)
      ensures r.Err? ==> r.error in {Sql, CategoryNotFound, CategoryHasLinks, InvalidCategoryMove}
      ensures r == Err(CategoryNotFound) ==> id !in old(tables).categories
      ensures r == Err(CategoryHasLinks) ==> LinkOrders(old(tables), id) != map[] && mode == NoMode
      ensures r == Err(InvalidCategoryMove) ==>
        LinkOrders(old(tables), id) != map[] && mode == MoveLinks &&
        (targetId == id || targetId !in old(tables).categories)
    {
      var failed := connection.Fails();
      if failed { return Err(Sql); }
      if id !in tables.categories { return Err(CategoryNotFound); }
      var cleared := ClearCategory(tables, id, mode, targetId);
      if cleared.Err? { return Err(cleared.error); }
      failed := connection.Fails();
      if failed { return Err(Sql); }
      tables := DropCategory(cleared.value, id);
      r := Ok(());
    }

    /** Accepts exactly the permutations of the stored categories. */
    method ReorderCategories(ids: seq<int>) returns (r: Result<()>)
      requires Valid()
      modifies this, connection
      ensures Valid()
      ensures connection.failures == old(connection.failures) + if r == Err(Sql) then 1 else 0
      ensures r.Err? ==> tables == old(tables) && r.error in {Sql, InvalidCategoryOrder}
      ensures r != Err(Sql) ==> (r.Ok? <==> IsPermutation(ids, old(tables).categories.Keys))
      ensures r.Ok? ==> IsGroupPermutation(old(List()), ids, List())
    {
      var failed := connection.Fails();
      if failed { return Err(Sql); }
      if |tables.categories.Keys| != |ids| {
        if IsPermutation(ids, tables.categories.Keys) { PermutationCount(ids, tables.categories.Keys); }
        return Err(InvalidCategoryOrder);
      }
      var stored := tables.categories;
      var rows := stored;
      var seen: set<int> := {};
      for index := 0 to |ids|
        invariant tables == old(tables) && connection.failures == old(connection.failures)
        invariant CategoriesNumbered(stored, rows, ids[..index]) && IsSeen(ids[..index], seen)
      {
        var id := ids[index];
        failed := connection.Fails();
        if failed { return Err(Sql); }
        if id in seen || id !in rows {
          NotPermutation(ids, index, seen, stored.Keys);
          return Err(InvalidCategoryOrder);
        }
        SeenStep(ids, index, seen);
        NumberCategory(stored, rows, ids[..index], id);
        seen := seen + {id};
        rows := rows[id := rows[id].(sortOrder := (index + 1) * 10)];
      }
      failed := connection.Fails();
      if failed { return Err(Sql); }
      assert ids[..|ids|] == ids;
      PublishCategories(tables, rows, ids);
      tables := tables.(categories := rows);
      r := Ok(());
    }

    /** Accepts exactly the permutations of the links of one category. */
    method ReorderLinks(categoryId: int, ids: seq<int>) returns (r: Result<()>)
      requires Valid()
      modifies this, connection
      ensures Valid()
      ensures connection.failures == old(connection.failures) + if r == Err(Sql) then 1 else 0
      ensures r.Err? ==> tables == old(tables) && r.error in {Sql, InvalidLinkOrder}
      ensures r != Err(Sql) ==> (r.Ok? <==> IsPermutation(ids, LinkOrders(old(tables), categoryId).Keys))
      ensures r.Ok? ==> IsLinkPermutation(old(List()), categoryId, ids, List())
    {
      var failed := connection.Fails();
      if failed { return Err(Sql); }
      ghost var named := LinkOrders(tables, categoryId).Keys;
      if |LinkOrders(tables, categoryId).Keys| != |ids| {
        if IsPermutation(ids, named) { PermutationCount(ids, named); }
        return Err(InvalidLinkOrder);
      }
      var stored := tables.links;
      var rows := stored;
      var seen: set<int> := {};
      for index := 0 to |ids|
        invariant tables == old(tables) && connection.failures == old(connection.failures)
        invariant LinksNumbered(stored, rows, categoryId, ids[..index]) && IsSeen(ids[..index], seen)
      {
        var id := ids[index];
        failed := connection.Fails();
        if failed { return Err(Sql); }
        if id in seen || !(id in rows && rows[id].categoryId == categoryId) {
          NamedLinks(tables, rows, categoryId, ids[..index], id);
          NotPermutation(ids, index, seen, named);
          return Err(InvalidLinkOrder);
        }
        SeenStep(ids, index, seen);
        NumberLink(stored, rows, categoryId, ids[..index], id);
        seen := seen + {id};
        rows := rows[id := rows[id].(sortOrder := (index + 1) * 10)];
      }
      failed := connection.Fails();
      if failed { return Err(Sql); }
      assert ids[..|ids|] == ids;
      PublishLinks(tables, rows, categoryId, ids);
      tables := tables.(links := rows);
      r := Ok(());
    }
  }

  lemma ListedCategory(t: Tables, category: Category)
    requires View(t) == [Group(category, [])]
    ensures category.id in t.categories
  {
    assert IsGroupView(t, View(t)[0]);
  }

  /** The fourth statement fails: it reads the category again after the new name was committed. */
  method CommittedThenError() returns (store: Store, before: Result<Category>, r: Result<Category>)
    ensures fresh(store) && store.Valid()
    ensures before == Ok(Category(1, "old", "slug", "icon", Public)) && r == Err(ReadBack)
    ensures store.List() == [Group(Category(1, "new", "slug", "icon", Public), [])]
  {
    store := new Store(n => n == 3);
    before := store.CreateCategory("old", "slug", "icon", Public);
    ListedCategory(store.tables, before.value);
    r := store.UpdateCategory(1, "new", "icon", Public);
  }

  // ---- Renumbering ----------------------------------------------------------------------------------

  ghost predicate IsSeen(ids: seq<int>, seen: set<int>) {
    NoDuplicates(ids) && forall id :: id in seen <==> id in ids
  }

  lemma SeenStep(ids: seq<int>, index: nat, seen: set<int>)
    requires index < |ids| && IsSeen(ids[..index], seen) && ids[index] !in seen
    ensures ids[..index + 1] == ids[..index] + [ids[index]] && IsSeen(ids[..index + 1], seen + {ids[index]})
  {
    var before := ids[..index];
    assert ids[..index + 1] == before + [ids[index]];
    forall i | 0 <= i < index ensures before[i] != ids[index] { assert before[i] in before; }
  }

  lemma NotPermutation(ids: seq<int>, index: nat, seen: set<int>, keys: set<int>)
    requires index < |ids| && IsSeen(ids[..index], seen) && (ids[index] in seen || ids[index] !in keys)
    ensures !IsPermutation(ids, keys)
  {
    var id := ids[index];
    assert id in ids;
    if id in seen {
      var i :| 0 <= i < index && ids[..index][i] == id;
      assert ids[i] == ids[index];
    }
  }

  /** The categories named so far are numbered 10, 20, …; the others are as stored. */
  ghost predicate CategoriesNumbered(stored: map<int, CategoryRow>, rows: map<int, CategoryRow>, ids: seq<int>) {
    && rows.Keys == stored.Keys
    && (forall j :: 0 <= j < |ids| ==> ids[j] in stored && rows[ids[j]] == stored[ids[j]].(sortOrder := (j + 1) * 10))
    && (forall id :: id in stored && id !in ids ==> rows[id] == stored[id])
  }

  lemma NumberCategory(stored: map<int, CategoryRow>, rows: map<int, CategoryRow>, ids: seq<int>, id: int)
    requires CategoriesNumbered(stored, rows, ids) && id in stored && id !in ids
    ensures CategoriesNumbered(stored, rows[id := rows[id].(sortOrder := (|ids| + 1) * 10)], ids + [id])
  {
    assert forall j :: 0 <= j < |ids| ==> ids[j] in ids;
    assert forall other :: other !in ids + [id] ==> other !in ids && other != id;
  }

  ghost predicate LinksNumbered(stored: map<int, LinkRow>, rows: map<int, LinkRow>, categoryId: int, ids: seq<int>) {
    && rows.Keys == stored.Keys
    && (forall j :: 0 <= j < |ids| ==>
          ids[j] in stored && stored[ids[j]].categoryId == categoryId &&
          rows[ids[j]] == stored[ids[j]].(sortOrder := (j + 1) * 10))
    && (forall id :: id in stored && id !in ids ==> rows[id] == stored[id])
  }

  lemma NumberLink(stored: map<int, LinkRow>, rows: map<int, LinkRow>, categoryId: int, ids: seq<int>, id: int)
    requires LinksNumbered(stored, rows, categoryId, ids) && id in stored && rows[id].categoryId == categoryId &&
             id !in ids
    ensures LinksNumbered(stored, rows[id := rows[id].(sortOrder := (|ids| + 1) * 10)], categoryId, ids + [id])
  {
    assert forall j :: 0 <= j < |ids| ==> ids[j] in ids;
    assert forall other :: other !in ids + [id] ==> other !in ids && other != id;
  }

  /** Renumbering moves no link to another category. */
  lemma NamedLinks(t: Tables, rows: map<int, LinkRow>, categoryId: int, ids: seq<int>, id: int)
    requires LinksNumbered(t.links, rows, categoryId, ids)
    ensures id in LinkOrders(t, categoryId).Keys <==> id in rows && rows[id].categoryId == categoryId
  {
    if id in ids {
      var j :| 0 <= j < |ids| && ids[j] == id;
    }
  }

  lemma PublishCategories(t: Tables, rows: map<int, CategoryRow>, ids: seq<int>)
    requires Invariant(t) && NoDuplicates(ids) && |ids| == |t.categories.Keys|
    requires CategoriesNumbered(t.categories, rows, ids)
    ensures var t' := t.(categories := rows);
            Invariant(t') && IsPermutation(ids, t.categories.Keys) && IsGroupPermutation(View(t), ids, View(t'))
  {
    var t' := t.(categories := rows);
    Pigeonhole(ids, t.categories.Keys);
    ReorderCategoriesInvariant(t, t', ids);
    ReorderCategoriesIsView(t, View(t), t', View(t'), ids);
  }

  lemma PublishLinks(t: Tables, rows: map<int, LinkRow>, categoryId: int, ids: seq<int>)
    requires Invariant(t) && NoDuplicates(ids) && |ids| == |LinkOrders(t, categoryId).Keys|
    requires LinksNumbered(t.links, rows, categoryId, ids)
    ensures var t' := t.(links := rows);
            Invariant(t') && IsPermutation(ids, LinkOrders(t, categoryId).Keys) &&
            IsLinkPermutation(View(t), categoryId, ids, View(t'))
  {
    var t' := t.(links := rows);
    Pigeonhole(ids, LinkOrders(t, categoryId).Keys);
    forall id | id in t.links && t.links[id].categoryId != categoryId ensures rows[id] == t.links[id] {
      assert id !in LinkOrders(t, categoryId).Keys;
    }
    ReorderLinksInvariant(t, t', categoryId, ids);
    ReorderLinksIsView(t, View(t), t', View(t'), categoryId, ids);
  }

  lemma LastAfterMax(t: Tables, row: LinkRow, max: int)
    requires 0 <= max && row.sortOrder == max + 10
    requires forall id :: id in LinkOrders(t, row.categoryId) ==> LinkOrders(t, row.categoryId)[id] <= max
    ensures IsLastIn(t, row)
  {
    forall id | id in t.links && t.links[id].categoryId == row.categoryId
      ensures t.links[id].sortOrder < row.sortOrder
    {
      assert id in LinkOrders(t, row.categoryId);
    }
  }

  lemma ShiftAfterMax(t: Tables, target: int, max: int)
    requires 0 <= max
    requires forall id :: id in LinkOrders(t, target) ==> LinkOrders(t, target)[id] <= max
    ensures IsShift(t, target, max + 10)
  {
    forall id | id in t.links && t.links[id].categoryId == target ensures t.links[id].sortOrder <= max {
      assert id in LinkOrders(t, target);
    }
  }

  lemma NoLinksToDelete(t: Tables, id: int)
    requires LinkOrders(t, id) == map[]
    ensures DeleteLinksOf(t, id) == t
  {
    forall l | l in t.links ensures t.links[l].categoryId != id {
      assert l in LinkOrders(t, id) <==> t.links[l].categoryId == id;
    }
    assert DeleteLinksOf(t, id).links == t.links;
  }
}
