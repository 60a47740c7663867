/** The transactional import, run on the tables. */
module BookmarkCommit {
  import opened Navigation
  import opened NavigationRows
  import opened NavigationStore
  import opened Bookmarks
  import opened BookmarkImport
  import opened ImportLedger

  /** Each key leads to one of the categories with that key. */
  ghost predicate IsCategoryMap(x: Text, t: Tables, index: map<string, int>) {
    && (forall key :: key in index ==> index[key] in t.categories && x.key(t.categories[index[key]].name) == key)
    && (forall id :: id in t.categories ==> x.key(t.categories[id].name) in index)
  }

  /** Each canonical URL leads to the oldest link with that URL. */
  ghost predicate IsLinkMap(x: Text, t: Tables, index: map<string, int>) {
    && (forall c :: c in index ==> index[c] in t.links && x.canonical(t.links[index[c]].fields.url) == c)
    && (forall id :: id in t.links ==> x.canonical(t.links[id].fields.url) in index &&
                                       index[x.canonical(t.links[id].fields.url)] <= id)
  }

  lemma {:induction false} LeastExists(ids: set<int>, pick: int) returns (least: int)
    requires pick in ids
    ensures least in ids && forall id :: id in ids ==> least <= id
    decreases |ids|
  {
    least := pick;
    if id :| id in ids && id < pick {
      least := LeastExists(ids - {pick}, id);
      forall other | other in ids ensures least <= other {
        assert other == pick || other in ids - {pick};
      }
    }
  }

  /** The categories, read in no particular order. */
  method ReadCategories(x: Text, t: Tables) returns (index: map<string, int>, maximumOrder: int)
    ensures IsCategoryMap(x, t, index)
    ensures 0 <= maximumOrder && forall id :: id in t.categories ==> t.categories[id].sortOrder <= maximumOrder
  {
    index, maximumOrder := map[], 0;
    var left := t.categories.Keys;
    while exists id :: id in left
      invariant left <= t.categories.Keys && 0 <= maximumOrder
      invariant forall key :: key in index ==> index[key] in t.categories && x.key(t.categories[index[key]].name) == key
      invariant forall id :: id in t.categories && id !in left ==>
        x.key(t.categories[id].name) in index && t.categories[id].sortOrder <= maximumOrder
      decreases |left|
    {
      var id :| id in left;
      left := left - {id};
      index := index[x.key(t.categories[id].name) := id];
      if t.categories[id].sortOrder > maximumOrder { maximumOrder := t.categories[id].sortOrder; }
    }
  }

  /** A missing entry of the Go map reads as zero. */
  function OrderOf(orders: map<int, int>, categoryId: int): int {
    if categoryId in orders then orders[categoryId] else 0
  }

  /** No link of a category is beyond its entry. */
  ghost predicate Covers(t: Tables, orders: map<int, int>) {
    && (forall c :: c in orders ==> 0 <= orders[c])
    && (forall id :: id in t.links ==> t.links[id].sortOrder <= OrderOf(orders, t.links[id].categoryId))
  }

  // The rows outside `left` have been read.
  ghost predicate LinksRead(x: Text, t: Tables, left: set<int>, index: map<string, int>) {
    && (forall c :: c in index ==>
          index[c] in t.links && index[c] !in left && x.canonical(t.links[index[c]].fields.url) == c)
    && (forall id :: id in t.links && id !in left ==>
          x.canonical(t.links[id].fields.url) in index && index[x.canonical(t.links[id].fields.url)] <= id)
  }

  ghost predicate OrdersRead(t: Tables, left: set<int>, orders: map<int, int>) {
    && (forall c :: c in orders ==> 0 <= orders[c])
    && (forall id :: id in t.links && id !in left ==>
          t.links[id].sortOrder <= OrderOf(orders, t.links[id].categoryId))
  }

  lemma LinksReadStep(x: Text, t: Tables, left: set<int>, index: map<string, int>, id: int)
    requires LinksRead(x, t, left, index) && id in left && id in t.links
    requires forall other :: other in t.links && other !in left ==> other < id
    ensures var c := x.canonical(t.links[id].fields.url);
            LinksRead(x, t, left - {id}, if c in index then index else index[c := id])
  {
  }

  lemma OrdersReadStep(t: Tables, left: set<int>, orders: map<int, int>, id: int)
    requires OrdersRead(t, left, orders) && id in t.links
    ensures var row := t.links[id];
            row.sortOrder <= OrderOf(orders, row.categoryId) ==> OrdersRead(t, left - {id}, orders)
    ensures var row := t.links[id];
            row.sortOrder > OrderOf(orders, row.categoryId) ==>
              OrdersRead(t, left - {id}, orders[row.categoryId := row.sortOrder])
  {
  }

  // What has been read is older than what is left.
  ghost predicate ReadInOrder(t: Tables, left: set<int>) {
    left <= t.links.Keys && forall a, b :: a in t.links && a !in left && b in left ==> a < b
  }

  predicate IsOldest(left: set<int>, id: int) {
    id in left && forall other :: other in left ==> id <= other
  }

  lemma OldestExists(left: set<int>)
    requires exists id :: id in left
    ensures exists id :: IsOldest(left, id)
  {
    var pick :| pick in left;
    var least := LeastExists(left, pick);
    assert IsOldest(left, least);
  }

  lemma ReadInOrderStep(t: Tables, left: set<int>, id: int)
    requires ReadInOrder(t, left) && IsOldest(left, id)
    ensures ReadInOrder(t, left - {id})
    ensures id in t.links && forall other :: other in t.links && other !in left ==> other < id
  {
  }

  /** The links, read in the order of their ids. */
  method ReadLinks(x: Text, t: Tables) returns (index: map<string, int>, orders: map<int, int>)
    requires Invariant(t)
    ensures IsLinkMap(x, t, index) && Covers(t, orders)
  {
    index, orders := map[], map[];
    var left := t.links.Keys;
    while exists id :: id in left
      invariant ReadInOrder(t, left) && LinksRead(x, t, left, index) && OrdersRead(t, left, orders)
      decreases |left|
    {
      OldestExists(left);
      var id :| id in left && IsOldest(left, id);
      ReadInOrderStep(t, left, id);
      LinksReadStep(x, t, left, index, id);
      OrdersReadStep(t, left, orders, id);
      var row := t.links[id];
      if x.canonical(row.fields.url) !in index { index := index[x.canonical(row.fields.url) := id]; }
      if row.sortOrder > OrderOf(orders, row.categoryId) { orders := orders[row.categoryId := row.sortOrder]; }
      left := left - {id};
    }
  }

  /** Where an import of the tables starts from. */
  ghost function Start(t: Tables, categories: map<string, int>, links: map<string, int>): ImportState {
    ImportState(View(t), t.lastCategoryId, t.lastLinkId, categories, links, NOTHING_YET)
  }

  /** The tables and counters of the loop stand for the list-level state. */
  ghost predicate Tracks(t: Tables, nextCategoryOrder: int, nextLinkOrder: map<int, int>, st: ImportState) {
    && Invariant(t) && View(t) == st.nav
    && t.lastCategoryId == st.lastCategoryId && t.lastLinkId == st.lastLinkId
    && (forall key :: key in st.categories ==> st.categories[key] in t.categories)
    && (forall c :: c in st.links ==> st.links[c] in t.links)
    && 0 <= nextCategoryOrder
    && (forall id :: id in t.categories ==> t.categories[id].sortOrder <= nextCategoryOrder)
    && Covers(t, nextLinkOrder)
  }

  lemma TrackCategory(x: Text, t: Tables, order: int, orders: map<int, int>, st: ImportState,
                      category: BookmarkCategory, options: Options)
    requires Tracks(t, order, orders, st) && x.key(category.name) !in st.categories
    ensures var row := CategoryRow(category.name, options.slugs(t.lastCategoryId + 1), category.iconName,
                                   options.visibility, order + 10);
            Tracks(InsertCategory(t, row), order + 10, orders, EnsureGroup(x, st, category, options))
  {
    InsertCategoryView(t, CategoryRow(category.name, options.slugs(t.lastCategoryId + 1), category.iconName,
                                      options.visibility, order + 10));
  }

  /** The row behind every other one of its category. */
  function NextRow(orders: map<int, int>, categoryId: int, fields: LinkFields): LinkRow {
    LinkRow(categoryId, fields, OrderOf(orders, categoryId) + 10)
  }

  lemma CoversNext(t: Tables, orders: map<int, int>, id: int, categoryId: int, fields: LinkFields)
    requires Covers(t, orders)
    ensures IsLastIn(t, NextRow(orders, categoryId, fields))
    ensures Covers(PutLink(t, id, NextRow(orders, categoryId, fields)),
                   orders[categoryId := OrderOf(orders, categoryId) + 10])
  {
  }

  lemma TrackLink(x: Text, t: Tables, order: int, orders: map<int, int>, st: ImportState, categoryId: int,
                  link: BookmarkLink, strategy: Strategy)
    requires Tracks(t, order, orders, st) && categoryId in t.categories && Places(x, st, link, strategy)
    ensures Tracks(PutLink(t, PlacedId(x, st, link, strategy), NextRow(orders, categoryId, link.fields)), order,
                   orders[categoryId := OrderOf(orders, categoryId) + 10],
                   ImportLink(x, st, categoryId, link, strategy))
  {
    var id, row := PlacedId(x, st, link, strategy), NextRow(orders, categoryId, link.fields);
    CoversNext(t, orders, id, categoryId, link.fields);
    if Updates(x, st, link, strategy) {
      MoveLinkView(t, id, row);
    } else {
      PutNewLinkView(t, id, row);
    }
  }

  /** The links of the tables, whatever their order. */
  ghost predicate AreTableLinks(t: Tables, all: set<Link>) {
    && (forall link :: link in all ==> link.id in t.links && t.links[link.id].fields == link.fields)
    && (forall id :: id in t.links ==> Link(id, t.links[id].fields) in all)
  }

  lemma LinkListed(t: Tables, nav: seq<Group>, id: int)
    requires Invariant(t) && IsView(t, nav) && id in t.links
    ensures Link(id, t.links[id].fields) in AllLinks(nav)
  {
    ViewIds(t, nav);
    var i :| 0 <= i < |nav| && nav[i].category.id == t.links[id].categoryId;
    assert IsGroupView(t, nav[i]);
    LinkViewIds(t, nav[i].category.id, nav[i].links);
    var j :| 0 <= j < |nav[i].links| && nav[i].links[j].id == id;
    assert nav[i] in nav && nav[i].links[j] in nav[i].links;
  }

  lemma TableLinks(t: Tables, nav: seq<Group>)
    requires Invariant(t) && IsView(t, nav)
    ensures AreTableLinks(t, AllLinks(nav))
  {
    forall link | link in AllLinks(nav) ensures link.id in t.links && t.links[link.id].fields == link.fields {
      var i, j :| 0 <= i < |nav| && 0 <= j < |nav[i].links| && nav[i].links[j] == link;
      assert IsGroupView(t, nav[i]);
    }
    forall id | id in t.links ensures Link(id, t.links[id].fields) in AllLinks(nav) { LinkListed(t, nav, id); }
  }

  lemma CategoriesIndexed(x: Text, t: Tables, nav: seq<Group>, categories: map<string, int>)
    requires IsView(t, nav) && IsCategoryMap(x, t, categories)
    ensures IsCategoryIndex(x, nav, categories)
  {
    ViewIds(t, nav);
    forall i | 0 <= i < |nav|
      ensures nav[i].category.id in t.categories && nav[i].category == CategoryAt(t, nav[i].category.id)
    {
      assert IsGroupView(t, nav[i]);
    }
    forall key | key in categories ensures HasCategory(x, nav, categories[key], key) {
      var i :| 0 <= i < |nav| && nav[i].category.id == categories[key];
      assert nav[i] in nav;
    }
  }

  lemma LinksIndexed(x: Text, t: Tables, all: set<Link>, links: map<string, int>)
    requires ValidLinks(t) && AreTableLinks(t, all) && IsLinkMap(x, t, links)
    ensures IsLinkIndex(x, all, links) && UniqueIds(all, t.lastLinkId)
  {
    forall c | c in links ensures HasLink(x, all, links[c], c) {
      assert Link(links[c], t.links[links[c]].fields) in all;
    }
    forall a, b | a in all && b in all && a.id == b.id ensures a == b {
      assert a.fields == b.fields;
    }
  }

  /** The maps read from the tables are exact, so every theorem about imports applies. */
  lemma StartIsConsistent(x: Text, t: Tables, categories: map<string, int>, links: map<string, int>)
    requires Invariant(t) && IsCategoryMap(x, t, categories) && IsLinkMap(x, t, links)
    ensures IsStart(x, Start(t, categories, links), View(t))
  {
    TableLinks(t, View(t));
    CategoriesIndexed(x, t, View(t), categories);
    LinksIndexed(x, t, AllLinks(View(t)), links);
  }

  lemma StartIdsBelow(t: Tables)
    requires Invariant(t)
    ensures IdsBelow(View(t), t.lastCategoryId)
  {
    forall i | 0 <= i < |View(t)| ensures View(t)[i].category.id <= t.lastCategoryId {
      assert IsGroupView(t, View(t)[i]);
    }
  }

  /** So the closed form applies to an import into the tables. */
  lemma ImportedIntoTables(x: Text, t: Tables, categories: map<string, int>, links: map<string, int>,
                           batch: seq<BookmarkCategory>, options: Options)
    requires Invariant(t) && IsCategoryMap(x, t, categories) && IsLinkMap(x, t, links)
    ensures var st := Start(t, categories, links);
            var done := Import(x, st, batch, options);
            IsImported(x, st, batch, options, done.nav, done.result)
  {
    StartIsConsistent(x, t, categories, links);
    StartIdsBelow(t);
    ImportIsLedger(x, Start(t, categories, links), batch, options);
  }

  /** The loop's variables: the transaction's tables, the lookup maps, the orders and the counters. */
  datatype Progress = Progress(
    tables: Tables, categories: map<string, int>, links: map<string, int>,
    nextCategoryOrder: int, nextLinkOrder: map<int, int>, result: CommitResult)
  {
    ghost predicate At(st: ImportState) {
      && Tracks(tables, nextCategoryOrder, nextLinkOrder, st)
      && categories == st.categories && links == st.links && result == st.result
    }
  }

  lemma CountsAt(p: Progress, st: ImportState, result: CommitResult)
    requires p.At(st)
    ensures p.(result := result).At(st.(result := result))
  {
  }

  lemma LinkAt(x: Text, p: Progress, st: ImportState, categoryId: int, link: BookmarkLink, strategy: Strategy,
               result: CommitResult)
    requires p.At(st) && categoryId in p.tables.categories && Places(x, st, link, strategy)
    requires result == ImportLink(x, st, categoryId, link, strategy).result
    ensures var id := PlacedId(x, st, link, strategy);
            p.(tables := PutLink(p.tables, id, NextRow(p.nextLinkOrder, categoryId, link.fields)),
               links := if Updates(x, st, link, strategy) then p.links else p.links[x.canonical(link.fields.url) := id],
               nextLinkOrder := p.nextLinkOrder[categoryId := OrderOf(p.nextLinkOrder, categoryId) + 10],
               result := result).At(ImportLink(x, st, categoryId, link, strategy))
  {
    TrackLink(x, p.tables, p.nextCategoryOrder, p.nextLinkOrder, st, categoryId, link, strategy);
  }

  lemma CategoryAdded(x: Text, p: Progress, st: ImportState, category: BookmarkCategory, options: Options)
    requires p.At(st) && x.key(category.name) !in st.categories
    ensures var row := CategoryRow(category.name, options.slugs(p.tables.lastCategoryId + 1), category.iconName,
                                   options.visibility, p.nextCategoryOrder + 10);
            p.(tables := InsertCategory(p.tables, row), nextCategoryOrder := p.nextCategoryOrder + 10,
               categories := p.categories[x.key(category.name) := p.tables.lastCategoryId + 1],
               result := CountCategory(p.result)).At(EnsureGroup(x, st, category, options))
  {
    TrackCategory(x, p.tables, p.nextCategoryOrder, p.nextLinkOrder, st, category, options);
  }

  /** One link; `st` is the list-level state before it. */
  method ImportOneLink(x: Text, before: Progress, categoryId: int, link: BookmarkLink, strategy: Strategy,
                       connection: Connection, ghost st: ImportState) returns (failed: bool, p: Progress)
    requires before.At(st) && categoryId in before.tables.categories
    modifies connection
    ensures connection.failures == old(connection.failures) + if failed then 1 else 0
    ensures !failed ==>
            p.At(ImportLink(x, st, categoryId, link, strategy)) && p.tables.categories == before.tables.categories
  {
    failed, p := false, before;
    if link.problem != "" {
      CountsAt(p, st, CountInvalid(p.result, 1));
      p := p.(result := CountInvalid(p.result, 1));
      return;
    }
    var canonical := x.canonical(link.fields.url);
    if canonical in p.links && strategy == Skip {
      CountsAt(p, st, CountSkipped(p.result));
      p := p.(result := CountSkipped(p.result));
      return;
    }
    failed := connection.Fails();
    if failed { return; }
    var row := NextRow(p.nextLinkOrder, categoryId, link.fields);
    var orders := p.nextLinkOrder[categoryId := OrderOf(p.nextLinkOrder, categoryId) + 10];
    if canonical in p.links && strategy == Update {
      var existingId := p.links[canonical];
      LinkAt(x, p, st, categoryId, link, strategy, CountUpdated(p.result, existingId));
      p := p.(tables := PutLink(p.tables, existingId, row), nextLinkOrder := orders,
              result := CountUpdated(p.result, existingId));
      return;
    }
    var linkId := p.tables.lastLinkId + 1;
    LinkAt(x, p, st, categoryId, link, strategy, CountCreated(p.result, linkId));
    p := p.(tables := PutLink(p.tables, linkId, row), nextLinkOrder := orders, links := p.links[canonical := linkId],
            result := CountCreated(p.result, linkId));
  }

  /** One category's links. */
  method ImportCategoryLinks(x: Text, before: Progress, categoryId: int, bookmarks: seq<BookmarkLink>,
                             strategy: Strategy, connection: Connection, ghost st: ImportState)
    returns (failed: bool, p: Progress)
    requires before.At(st) && categoryId in before.tables.categories
    modifies connection
    ensures connection.failures == old(connection.failures) + if failed then 1 else 0
    ensures !failed ==> p.At(ImportLinks(x, st, categoryId, bookmarks, strategy))
  {
    failed, p := false, before;
    ghost var current := st;
    for j := 0 to |bookmarks|
      invariant connection.failures == old(connection.failures) && !failed && categoryId in p.tables.categories
      invariant current == ImportLinks(x, st, categoryId, bookmarks[..j], strategy)
      invariant p.At(current)
    {
      assert bookmarks[..j + 1][..j] == bookmarks[..j];
      failed, p := ImportOneLink(x, p, categoryId, bookmarks[j], strategy, connection, current);
      if failed { return; }
      current := ImportLink(x, current, categoryId, bookmarks[j], strategy);
    }
    assert bookmarks[..|bookmarks|] == bookmarks;
  }

  /** One category: found or created by its key, then its links. */
  method ImportOneCategory(x: Text, before: Progress, category: BookmarkCategory, options: Options,
                           connection: Connection, ghost st: ImportState) returns (failed: bool, p: Progress)
    requires before.At(st)
    modifies connection
    ensures connection.failures == old(connection.failures) + if failed then 1 else 0
    ensures !failed ==> p.At(ImportCategory(x, st, category, options))
  {
    failed, p := false, before;
    if !ValidCategoryName(category.name) {
      CountsAt(p, st, CountInvalid(p.result, |category.links|));
      p := p.(result := CountInvalid(p.result, |category.links|));
      return;
    }
    var key := x.key(category.name);
    if key !in p.categories {
      failed := connection.Fails();
      if failed { return; }
      CategoryAdded(x, p, st, category, options);
      var id, order := p.tables.lastCategoryId + 1, p.nextCategoryOrder + 10;
      p := p.(tables := InsertCategory(p.tables, CategoryRow(category.name, options.slugs(id), category.iconName,
                                                             options.visibility, order)),
              nextCategoryOrder := order, categories := p.categories[key := id], result := CountCategory(p.result));
    }
    failed, p := ImportCategoryLinks(x, p, p.categories[key], category.links, options.duplicates, connection,
                                     EnsureGroup(x, st, category, options));
  }

  /** The outer loop. */
  method ImportBatch(x: Text, before: Progress, batch: seq<BookmarkCategory>, options: Options,
                     connection: Connection, ghost st: ImportState) returns (failed: bool, p: Progress)
    requires before.At(st)
    modifies connection
    ensures connection.failures == old(connection.failures) + if failed then 1 else 0
    ensures !failed ==> p.At(Import(x, st, batch, options))
  {
    failed, p := false, before;
    ghost var current := st;
    for i := 0 to |batch|
      invariant connection.failures == old(connection.failures) && !failed
      invariant current == Import(x, st, batch[..i], options)
      invariant p.At(current)
    {
      assert batch[..i + 1][..i] == batch[..i];
      failed, p := ImportOneCategory(x, p, batch[i], options, connection, current);
      if failed { return; }
      current := ImportCategory(x, current, batch[i], options);
    }
    assert batch[..|batch|] == batch;
  }

  /** On success the store presents the imported list; on any error the tables are untouched. */
  method ImportBookmarks(x: Text, store: Store, batch: seq<BookmarkCategory>, options: Options)
    returns (r: Result<CommitResult>, ghost startCategories: map<string, int>, ghost startLinks: map<string, int>)
    requires store.Valid()
    modifies store, store.connection
    ensures store.Valid()
    ensures r.Err? ==> r.error == Sql && store.tables == old(store.tables)
    ensures store.connection.failures == old(store.connection.failures) + if r.Err? then 1 else 0
    ensures IsCategoryMap(x, old(store.tables), startCategories) && IsLinkMap(x, old(store.tables), startLinks)
    ensures r.Ok? ==>
      var done := Import(x, Start(old(store.tables), startCategories, startLinks), batch, options);
      store.List() == done.nav && r.value == done.result
    ensures r.Ok? ==>
      IsImported(x, Start(old(store.tables), startCategories, startLinks), batch, options, store.List(), r.value)
  {
    var categories, nextCategoryOrder := ReadCategories(x, store.tables);
    var links, nextLinkOrder := ReadLinks(x, store.tables);
    startCategories, startLinks := categories, links;
    var failed := store.connection.Fails();
    if failed { return Err(Sql), categories, links; }
    var p := Progress(store.tables, categories, links, nextCategoryOrder, nextLinkOrder, NOTHING_YET);
    failed, p := ImportBatch(x, p, batch, options, store.connection, Start(store.tables, categories, links));
    if failed { return Err(Sql), categories, links; }
    failed := store.connection.Fails();
    if failed { return Err(Sql), categories, links; }
    ImportedIntoTables(x, store.tables, categories, links, batch, options);
    store.tables := p.tables;
    r := Ok(p.result);
  }
}
