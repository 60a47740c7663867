/** An import in closed form: which categories and links it makes, under which ids, where they end up,
    and which ids it reports. */
module ImportLedger {
  import opened Navigation
  import opened Bookmarks
  import opened BookmarkImport

  // ---- Numbers -----------------------------------------------------------------------------------

  /** Name `k` gets a number of its own: it is not stored, and none before it is the same. */
  predicate IsNew(all: bool, stored: map<string, int>, names: seq<string>, k: nat)
    requires k < |names|
  {
    all || (names[k] !in stored && names[k] !in names[..k])
  }

  /** How many of the first `n` names do. */
  function News(all: bool, stored: map<string, int>, names: seq<string>, n: nat): nat
    requires n <= |names|
  {
    if n == 0 then 0 else News(all, stored, names, n - 1) + if IsNew(all, stored, names, n - 1) then 1 else 0
  }

  /** Where a name occurs first. */
  function First(names: seq<string>, name: string): (e: nat)
    ensures e <= |names| && (e < |names| ==> names[e] == name)
    ensures forall i :: 0 <= i < e ==> names[i] != name
  {
    if names == [] || names[0] == name then 0 else 1 + First(names[1..], name)
  }

  /** The stored number of a name, or the next free one where it occurs first. */
  function Number(all: bool, stored: map<string, int>, last: int, names: seq<string>, k: nat): int
    requires k < |names|
  {
    if all then last + News(all, stored, names, k + 1)
    else if names[k] in stored then stored[names[k]]
    else
      last + News(all, stored, names, First(names, names[k]) + 1)
  }

  lemma {:induction false} NewsPrefix(all: bool, stored: map<string, int>, names: seq<string>, name: string, n: nat)
    requires n <= |names|
    ensures News(all, stored, names + [name], n) == News(all, stored, names, n)
  {
    if n > 0 {
      NewsPrefix(all, stored, names, name, n - 1);
      assert (names + [name])[..n - 1] == names[..n - 1];
    }
  }

  lemma {:induction false} AllNew(stored: map<string, int>, names: seq<string>, n: nat)
    requires n <= |names|
    ensures News(true, stored, names, n) == n
  {
    if n > 0 { AllNew(stored, names, n - 1); }
  }

  lemma {:induction false} FirstPrefix(names: seq<string>, more: seq<string>, name: string)
    requires name in names
    ensures First(names + more, name) == First(names, name)
  {
    assert (names + more)[0] == names[0];
    if names[0] != name {
      assert (names + more)[1..] == names[1..] + more;
      FirstPrefix(names[1..], more, name);
    }
  }

  lemma {:induction false} FirstAtEnd(names: seq<string>, name: string)
    requires name !in names
    ensures First(names + [name], name) == |names|
  {
    if names == [] {
      assert names + [name] == [name];
    } else {
      assert (names + [name])[0] == names[0] && names[0] in names && (names + [name])[1..] == names[1..] + [name];
      FirstAtEnd(names[1..], name);
    }
  }

  lemma NumberPrefix(all: bool, stored: map<string, int>, last: int, names: seq<string>, name: string, k: nat)
    requires k < |names|
    ensures Number(all, stored, last, names + [name], k) == Number(all, stored, last, names, k)
    ensures IsNew(all, stored, names + [name], k) == IsNew(all, stored, names, k)
  {
    assert (names + [name])[k] == names[k] && (names + [name])[..k] == names[..k];
    FirstPrefix(names, [name], names[k]);
    NewsPrefix(all, stored, names, name, (if all then k else First(names, names[k])) + 1);
  }

  ghost predicate NumberedAt(stored: map<string, int>, last: int, names: seq<string>, known: map<string, int>,
                             k: nat) {
    k < |names| ==> names[k] in known && known[names[k]] == Number(false, stored, last, names, k)
  }

  /** `known` holds the number of every stored and every given name, and `next` is the last one used. */
  ghost predicate IsNumbering(stored: map<string, int>, last: int, names: seq<string>, known: map<string, int>,
                              next: int) {
    && (forall name :: name in known <==> name in stored || name in names)
    && (forall name :: name in stored ==> name in known && known[name] == stored[name])
    && (forall k: nat :: NumberedAt(stored, last, names, known, k))
    && next == last + News(false, stored, names, |names|)
  }

  lemma NumberNew(stored: map<string, int>, last: int, names: seq<string>, name: string)
    ensures var names' := names + [name];
            && (IsNew(false, stored, names', |names|) <==> name !in stored && name !in names)
            && News(false, stored, names', |names| + 1) ==
               News(false, stored, names, |names|) + (if name !in stored && name !in names then 1 else 0)
            && (name !in stored && name !in names ==>
                  Number(false, stored, last, names', |names|) == last + News(false, stored, names, |names|) + 1)
  {
    var names' := names + [name];
    assert names'[..|names|] == names && names'[|names|] == name;
    NewsPrefix(false, stored, names, name, |names|);
    if name !in names { FirstAtEnd(names, name); }
  }

  lemma NumberKnown(stored: map<string, int>, last: int, names: seq<string>, known: map<string, int>, next: int,
                    name: string)
    requires IsNumbering(stored, last, names, known, next) && name in known
    ensures Number(false, stored, last, names + [name], |names|) == known[name]
  {
    var names' := names + [name];
    assert names'[|names|] == name;
    if name !in stored {
      var k :| 0 <= k < |names| && names[k] == name;
      FirstPrefix(names, [name], name);
      NumberPrefix(false, stored, last, names, name, k);
      assert NumberedAt(stored, last, names, known, k) && names'[k] == name;
    }
  }

  /** A name that is not known yet gets the next number. */
  lemma NumberNext(stored: map<string, int>, last: int, names: seq<string>, known: map<string, int>, next: int,
                   name: string, names': seq<string>, known': map<string, int>)
    requires IsNumbering(stored, last, names, known, next) && names' == names + [name]
    requires known' == if name in known then known else known[name := next + 1]
    ensures IsNumbering(stored, last, names', known', if name in known then next else next + 1)
    ensures IsNew(false, stored, names', |names|) <==> name !in known
    ensures Number(false, stored, last, names', |names|) == known'[name]
  {
    NumberNew(stored, last, names, name);
    if name in known { NumberKnown(stored, last, names, known, next, name); }
    forall k: nat ensures NumberedAt(stored, last, names', known', k) {
      if k < |names| {
        NumberPrefix(false, stored, last, names, name, k);
        assert NumberedAt(stored, last, names, known, k) && names'[k] == names[k];
      }
    }
  }

  lemma NoNames(stored: map<string, int>, last: int)
    ensures IsNumbering(stored, last, [], stored, last)
  {
  }

  // ---- The ledger ----------------------------------------------------------------------------------

  /** The categories that can be imported into. */
  function Usable(batch: seq<BookmarkCategory>): seq<BookmarkCategory> {
    if batch == [] then []
    else
      var last := batch[|batch| - 1];
      Usable(batch[..|batch| - 1]) + if ValidCategoryName(last.name) then [last] else []
  }

  function Keys(x: Text, categories: seq<BookmarkCategory>): seq<string> {
    seq(|categories|, i requires 0 <= i < |categories| => x.key(categories[i].name))
  }

  /** A valid link of the batch, with the id of the category it is meant for. */
  datatype Offer = Offer(categoryId: int, fields: LinkFields)

  function OffersTo(categoryId: int, links: seq<BookmarkLink>): seq<Offer> {
    if links == [] then []
    else
      var last := links[|links| - 1];
      OffersTo(categoryId, links[..|links| - 1]) + if last.problem == "" then [Offer(categoryId, last.fields)] else []
  }

  /** The id of usable category `i`: categories are numbered by key. */
  function CategoryId(x: Text, st: ImportState, usable: seq<BookmarkCategory>, i: nat): int
    requires i < |usable|
  {
    Number(false, st.categories, st.lastCategoryId, Keys(x, usable), i)
  }

  function Offers(x: Text, st: ImportState, usable: seq<BookmarkCategory>): seq<Offer> {
    if usable == [] then []
    else
      var last := |usable| - 1;
      Offers(x, st, usable[..last]) + OffersTo(CategoryId(x, st, usable, last), usable[last].links)
  }

  function Urls(x: Text, offers: seq<Offer>): seq<string> {
    seq(|offers|, k requires 0 <= k < |offers| => x.canonical(offers[k].fields.url))
  }

  /** The id of the link that offer `k` becomes: links are numbered by canonical URL, unless
      duplicates are to be created. */
  function LinkId(x: Text, st: ImportState, strategy: Strategy, offers: seq<Offer>, k: nat): int
    requires k < |offers|
  {
    Number(strategy == Create, st.links, st.lastLinkId, Urls(x, offers), k)
  }

  predicate IsCreated(x: Text, st: ImportState, strategy: Strategy, offers: seq<Offer>, k: nat)
    requires k < |offers|
  {
    IsNew(strategy == Create, st.links, Urls(x, offers), k)
  }

  datatype Placing = Placing(categoryId: int, link: Link)

  /** The links that are placed, in order: all of them, but for skipped duplicates. */
  function Trail(x: Text, st: ImportState, strategy: Strategy, offers: seq<Offer>): seq<Placing> {
    if offers == [] then []
    else
      var k := |offers| - 1;
      Trail(x, st, strategy, offers[..k]) +
      if strategy != Skip || IsCreated(x, st, strategy, offers, k)
      then [Placing(offers[k].categoryId, Link(LinkId(x, st, strategy, offers, k), offers[k].fields))]
      else []
  }

  function Ids(trail: seq<Placing>): seq<int> {
    seq(|trail|, j requires 0 <= j < |trail| => trail[j].link.id)
  }

  /** The links that were not placed anew. */
  function Unmoved(links: seq<Link>, ids: seq<int>): seq<Link> {
    if links == [] then []
    else (if links[0].id in ids then [] else [links[0]]) + Unmoved(links[1..], ids)
  }

  /** The first placed link, if it went to the category and is not placed anew later. */
  function ArrivedFirst(trail: seq<Placing>, categoryId: int): seq<Link>
    requires trail != []
  {
    if trail[0].categoryId == categoryId && trail[0].link.id !in Ids(trail[1..]) then [trail[0].link] else []
  }

  /** The links placed in a category and not placed anew later. */
  function Arrived(trail: seq<Placing>, categoryId: int): seq<Link> {
    if trail == [] then [] else ArrivedFirst(trail, categoryId) + Arrived(trail[1..], categoryId)
  }

  function LinksAfter(before: seq<Link>, categoryId: int, trail: seq<Placing>): seq<Link> {
    Unmoved(before, Ids(trail)) + Arrived(trail, categoryId)
  }

  /** The category that is made for one of the batch, if its key is new. */
  function Made(category: BookmarkCategory, isNew: bool, id: int, options: Options): seq<Category> {
    if isNew then [Category(id, category.name, options.slugs(id), category.iconName, options.visibility)] else []
  }

  function NewCategories(x: Text, st: ImportState, usable: seq<BookmarkCategory>, options: Options): seq<Category> {
    if usable == [] then []
    else
      var i := |usable| - 1;
      var id := CategoryId(x, st, usable, i);
      NewCategories(x, st, usable[..i], options) +
      Made(usable[i], IsNew(false, st.categories, Keys(x, usable), i), id, options)
  }

  function CategoriesOf(nav: seq<Group>): seq<Category> {
    seq(|nav|, i requires 0 <= i < |nav| => nav[i].category)
  }

  function LinksBefore(nav: seq<Group>, i: nat): seq<Link> { if i < |nav| then nav[i].links else [] }

  ghost predicate ListsAfter(before: seq<Group>, after: seq<Group>, trail: seq<Placing>) {
    |before| <= |after| &&
    forall i :: 0 <= i < |after| ==>
      after[i].links == LinksAfter(LinksBefore(before, i), after[i].category.id, trail)
  }

  ghost predicate Reports(x: Text, st: ImportState, strategy: Strategy, offers: seq<Offer>, r: CommitResult) {
    var created := News(strategy == Create, st.links, Urls(x, offers), |offers|);
    var trail := Trail(x, st, strategy, offers);
    && r.importedLinkIds == st.result.importedLinkIds + Ids(trail)
    && r.createdLinks == st.result.createdLinks + created
    && r.updatedLinks == st.result.updatedLinks + |trail| - created
    && r.skippedLinks == st.result.skippedLinks + |offers| - |trail|
  }

  /** What an import of `batch` from `st` leaves and reports. */
  ghost predicate IsImported(x: Text, st: ImportState, batch: seq<BookmarkCategory>, options: Options,
                             nav: seq<Group>, result: CommitResult) {
    var usable := Usable(batch);
    var offers := Offers(x, st, usable);
    && CategoriesOf(nav) == CategoriesOf(st.nav) + NewCategories(x, st, usable, options)
    && ListsAfter(st.nav, nav, Trail(x, st, options.duplicates, offers))
    && Reports(x, st, options.duplicates, offers, result)
    && result.createdCategories == st.result.createdCategories + |NewCategories(x, st, usable, options)|
    && result.invalidLinks == st.result.invalidLinks + LinkCount(batch) - |offers|
  }

  // ---- Where links end up --------------------------------------------------------------------------

  lemma {:induction false} DropConcat(a: seq<Link>, b: seq<Link>, id: int)
    ensures DropLink(a + b, id) == DropLink(a, id) + DropLink(b, id)
  {
    if a == [] {
      assert a + b == b;
    } else {
      assert (a + b)[0] == a[0] && (a + b)[1..] == a[1..] + b;
      DropConcat(a[1..], b, id);
    }
  }

  lemma {:induction false} DropAbsent(links: seq<Link>, id: int)
    requires forall link :: link in links ==> link.id != id
    ensures DropLink(links, id) == links
  {
    if links != [] {
      assert links[0] in links && forall link :: link in links[1..] ==> link in links;
      DropAbsent(links[1..], id);
    }
  }

  lemma {:induction false} UnmovedNext(links: seq<Link>, ids: seq<int>, id: int)
    ensures Unmoved(links, ids + [id]) == DropLink(Unmoved(links, ids), id)
  {
    if links != [] {
      UnmovedNext(links[1..], ids, id);
      DropConcat(if links[0].id in ids then [] else [links[0]], Unmoved(links[1..], ids), id);
      DropOne(links[0], id);
    }
  }

  lemma DropOne(link: Link, id: int)
    ensures DropLink([link], id) == if link.id == id then [] else [link]
  {
    assert [link][1..] == [];
  }

  lemma IdsNext(trail: seq<Placing>, p: Placing)
    ensures Ids(trail + [p]) == Ids(trail) + [p.link.id]
  {
  }

  lemma ArrivedFirstNext(trail: seq<Placing>, p: Placing, categoryId: int)
    requires trail != []
    ensures ArrivedFirst(trail + [p], categoryId) == DropLink(ArrivedFirst(trail, categoryId), p.link.id)
  {
    assert (trail + [p])[0] == trail[0] && (trail + [p])[1..] == trail[1..] + [p];
    IdsNext(trail[1..], p);
    DropOne(trail[0].link, p.link.id);
  }

  lemma {:induction false} ArrivedNext(trail: seq<Placing>, p: Placing, more: seq<Placing>, categoryId: int)
    requires more == trail + [p]
    ensures Arrived(more, categoryId) ==
            DropLink(Arrived(trail, categoryId), p.link.id) + if p.categoryId == categoryId then [p.link] else []
  {
    if trail == [] {
      assert more == [p] && [p][1..] == [];
    } else {
      ArrivedNext(trail[1..], p, more[1..], categoryId);
      ArrivedFirstNext(trail, p, categoryId);
      var first, rest := ArrivedFirst(trail, categoryId), Arrived(trail[1..], categoryId);
      DropConcat(first, rest, p.link.id);
      Associative(DropLink(first, p.link.id), DropLink(rest, p.link.id),
                  if p.categoryId == categoryId then [p.link] else []);
    }
  }

  lemma Associative<T>(a: seq<T>, b: seq<T>, c: seq<T>)
    ensures a + b + c == a + (b + c)
  {
  }

  lemma LinksAfterNext(before: seq<Link>, categoryId: int, trail: seq<Placing>, p: Placing)
    ensures LinksAfter(before, categoryId, trail + [p]) ==
            DropLink(LinksAfter(before, categoryId, trail), p.link.id) +
            if p.categoryId == categoryId then [p.link] else []
  {
    IdsNext(trail, p);
    UnmovedNext(before, Ids(trail), p.link.id);
    ArrivedNext(trail, p, trail + [p], categoryId);
    DropConcat(Unmoved(before, Ids(trail)), Arrived(trail, categoryId), p.link.id);
  }

  /** Placing a link in the list adds it to the trail. */
  lemma ListsAfterNext(before: seq<Group>, nav: seq<Group>, nav': seq<Group>, trail: seq<Placing>, p: Placing,
                       moved: bool)
    requires ListsAfter(before, nav, trail)
    requires nav' == AppendLink(if moved then RemoveLink(nav, p.link.id) else nav, p.categoryId, p.link)
    requires moved || forall link :: link in AllLinks(nav) ==> link.id != p.link.id
    ensures ListsAfter(before, nav', trail + [p])
  {
    forall i | 0 <= i < |nav'|
      ensures nav'[i].links == LinksAfter(LinksBefore(before, i), nav'[i].category.id, trail + [p])
    {
      LinksAfterNext(LinksBefore(before, i), nav'[i].category.id, trail, p);
      if !moved {
        assert nav[i] in nav && forall link :: link in nav[i].links ==> link in AllLinks(nav);
        DropAbsent(nav[i].links, p.link.id);
      }
    }
  }

  lemma {:induction false} UnmovedNothing(links: seq<Link>)
    ensures Unmoved(links, []) == links
  {
    if links != [] { UnmovedNothing(links[1..]); }
  }

  lemma {:induction false} NobodyArrived(trail: seq<Placing>, categoryId: int)
    requires forall j :: 0 <= j < |trail| ==> trail[j].categoryId != categoryId
    ensures Arrived(trail, categoryId) == []
  {
    if trail != [] { NobodyArrived(trail[1..], categoryId); }
  }

  lemma ListsAfterNothing(nav: seq<Group>)
    ensures ListsAfter(nav, nav, [])
  {
    assert Ids([]) == [];
    forall i | 0 <= i < |nav| ensures nav[i].links == LinksAfter(nav[i].links, nav[i].category.id, []) {
      UnmovedNothing(nav[i].links);
    }
  }

  /** A new category is empty as long as nothing is offered to it. */
  lemma ListsAfterGroup(before: seq<Group>, nav: seq<Group>, group: Group, trail: seq<Placing>)
    requires ListsAfter(before, nav, trail) && group.links == []
    requires forall j :: 0 <= j < |trail| ==> trail[j].categoryId != group.category.id
    ensures ListsAfter(before, nav + [group], trail)
  {
    NobodyArrived(trail, group.category.id);
    assert LinksAfter([], group.category.id, trail) == [];
  }

  // ---- The links of an import ------------------------------------------------------------------------

  /** The numbers of the links known at `st`; with `Create` only how many there are matters. */
  ghost predicate LinksNumbered(x: Text, st0: ImportState, st: ImportState, offers: seq<Offer>, strategy: Strategy) {
    if strategy == Create then st.lastLinkId == st0.lastLinkId + |offers|
    else IsNumbering(st0.links, st0.lastLinkId, Urls(x, offers), st.links, st.lastLinkId)
  }

  /** The import has come from `st0` to `st` by placing `offers`. */
  ghost predicate Placed(x: Text, st0: ImportState, st: ImportState, offers: seq<Offer>, strategy: Strategy) {
    && LinksNumbered(x, st0, st, offers, strategy)
    && Reports(x, st0, strategy, offers, st.result)
    && ListsAfter(st0.nav, st.nav, Trail(x, st0, strategy, offers))
    && (forall k :: 0 <= k < |offers| ==> offers[k].categoryId <= st.lastCategoryId)
  }

  lemma UrlsNext(x: Text, offers: seq<Offer>, offer: Offer)
    ensures Urls(x, offers + [offer]) == Urls(x, offers) + [x.canonical(offer.fields.url)]
    ensures (offers + [offer])[..|offers|] == offers
  {
  }

  /** What one more offer does to numbers and counts. */
  lemma NumbersNext(x: Text, st0: ImportState, st: ImportState, offers: seq<Offer>, strategy: Strategy, offer: Offer,
                    st': ImportState)
    requires LinksNumbered(x, st0, st, offers, strategy)
    requires var canonical, known := x.canonical(offer.fields.url), x.canonical(offer.fields.url) in st.links;
             if known && strategy != Create then st'.links == st.links && st'.lastLinkId == st.lastLinkId
             else st'.links == st.links[canonical := st.lastLinkId + 1] && st'.lastLinkId == st.lastLinkId + 1
    ensures LinksNumbered(x, st0, st', offers + [offer], strategy)
    ensures var more, known := offers + [offer], x.canonical(offer.fields.url) in st.links;
            && (IsCreated(x, st0, strategy, more, |offers|) <==> strategy == Create || !known)
            && LinkId(x, st0, strategy, more, |offers|) ==
               if known && strategy != Create then st.links[x.canonical(offer.fields.url)] else st.lastLinkId + 1
  {
    UrlsNext(x, offers, offer);
    if strategy == Create {
      AllNew(st0.links, Urls(x, offers + [offer]), |offers| + 1);
    } else {
      NumberNext(st0.links, st0.lastLinkId, Urls(x, offers), st.links, st.lastLinkId, x.canonical(offer.fields.url),
                 Urls(x, offers + [offer]), st'.links);
    }
  }

  lemma TrailNext(x: Text, st0: ImportState, offers: seq<Offer>, strategy: Strategy, offer: Offer)
    ensures var more := offers + [offer];
            Trail(x, st0, strategy, more) == Trail(x, st0, strategy, offers) +
              if strategy != Skip || IsCreated(x, st0, strategy, more, |offers|)
              then [Placing(offer.categoryId, Link(LinkId(x, st0, strategy, more, |offers|), offer.fields))]
              else []
  {
    UrlsNext(x, offers, offer);
  }

  lemma CreatedNext(x: Text, st0: ImportState, offers: seq<Offer>, strategy: Strategy, offer: Offer)
    ensures var all, more := strategy == Create, offers + [offer];
            News(all, st0.links, Urls(x, more), |more|) == News(all, st0.links, Urls(x, offers), |offers|) +
              if IsCreated(x, st0, strategy, more, |offers|) then 1 else 0
  {
    UrlsNext(x, offers, offer);
    NewsPrefix(strategy == Create, st0.links, Urls(x, offers), x.canonical(offer.fields.url), |offers|);
  }

  lemma ReportsNext(x: Text, st0: ImportState, offers: seq<Offer>, strategy: Strategy, offer: Offer, r: CommitResult,
                    r': CommitResult)
    requires Reports(x, st0, strategy, offers, r)
    requires var more := offers + [offer];
             var id := LinkId(x, st0, strategy, more, |offers|);
             if IsCreated(x, st0, strategy, more, |offers|) then r' == CountCreated(r, id)
             else if strategy == Skip then r' == CountSkipped(r)
             else r' == CountUpdated(r, id)
    ensures Reports(x, st0, strategy, offers + [offer], r')
  {
    CreatedNext(x, st0, offers, strategy, offer);
    TrailNext(x, st0, offers, strategy, offer);
    var id := LinkId(x, st0, strategy, offers + [offer], |offers|);
    IdsNext(Trail(x, st0, strategy, offers), Placing(offer.categoryId, Link(id, offer.fields)));
  }

  /** What importing a valid link does, in terms of the next number. */
  lemma ImportedLink(x: Text, st0: ImportState, st: ImportState, offers: seq<Offer>, categoryId: int,
                     link: BookmarkLink, strategy: Strategy)
    requires LinksNumbered(x, st0, st, offers, strategy) && link.problem == ""
    ensures var st', offer := ImportLink(x, st, categoryId, link, strategy), Offer(categoryId, link.fields);
            var more, canonical := offers + [offer], x.canonical(link.fields.url);
            var id, created := LinkId(x, st0, strategy, more, |offers|), IsCreated(x, st0, strategy, more, |offers|);
            && LinksNumbered(x, st0, st', more, strategy)
            && (created ==> id == st.lastLinkId + 1) && st'.lastCategoryId == st.lastCategoryId
            && st'.result == (if created then CountCreated(st.result, id)
                              else if strategy == Skip then CountSkipped(st.result) else CountUpdated(st.result, id))
            && st'.nav == (if created then AppendLink(st.nav, categoryId, Link(id, link.fields))
                           else if strategy == Skip then st.nav
                           else AppendLink(RemoveLink(st.nav, id), categoryId, Link(id, link.fields)))
  {
    NumbersNext(x, st0, st, offers, strategy, Offer(categoryId, link.fields),
                ImportLink(x, st, categoryId, link, strategy));
  }

  lemma PlacedLists(x: Text, st0: ImportState, st: ImportState, offers: seq<Offer>, categoryId: int,
                    link: BookmarkLink, strategy: Strategy)
    requires LinksNumbered(x, st0, st, offers, strategy) && UniqueIds(AllLinks(st.nav), st.lastLinkId)
    requires ListsAfter(st0.nav, st.nav, Trail(x, st0, strategy, offers)) && link.problem == ""
    ensures ListsAfter(st0.nav, ImportLink(x, st, categoryId, link, strategy).nav,
                       Trail(x, st0, strategy, offers + [Offer(categoryId, link.fields)]))
  {
    var st', offer := ImportLink(x, st, categoryId, link, strategy), Offer(categoryId, link.fields);
    var trail := Trail(x, st0, strategy, offers);
    var p := Placing(categoryId, Link(LinkId(x, st0, strategy, offers + [offer], |offers|), link.fields));
    ImportedLink(x, st0, st, offers, categoryId, link, strategy);
    TrailNext(x, st0, offers, strategy, offer);
    if IsCreated(x, st0, strategy, offers + [offer], |offers|) {
      ListsAfterNext(st0.nav, st.nav, st'.nav, trail, p, false);
    } else if strategy == Skip {
      assert trail + [] == trail;
    } else {
      ListsAfterNext(st0.nav, st.nav, st'.nav, trail, p, true);
    }
  }

  /** One valid link. */
  lemma PlacedNext(x: Text, st0: ImportState, st: ImportState, offers: seq<Offer>, categoryId: int, link: BookmarkLink,
                   strategy: Strategy)
    requires Placed(x, st0, st, offers, strategy) && UniqueIds(AllLinks(st.nav), st.lastLinkId)
    requires link.problem == "" && categoryId <= st.lastCategoryId
    ensures Placed(x, st0, ImportLink(x, st, categoryId, link, strategy), offers + [Offer(categoryId, link.fields)],
                   strategy)
  {
    ImportedLink(x, st0, st, offers, categoryId, link, strategy);
    ReportsNext(x, st0, offers, strategy, Offer(categoryId, link.fields), st.result,
                ImportLink(x, st, categoryId, link, strategy).result);
    PlacedLists(x, st0, st, offers, categoryId, link, strategy);
  }

  lemma OffersToNext(offers: seq<Offer>, categoryId: int, links: seq<BookmarkLink>)
    requires links != []
    ensures var before, link := links[..|links| - 1], links[|links| - 1];
            offers + OffersTo(categoryId, links) ==
              (offers + OffersTo(categoryId, before)) +
              (if link.problem == "" then [Offer(categoryId, link.fields)] else [])
  {
  }

  lemma LinkPlaced(x: Text, st0: ImportState, st: ImportState, offers: seq<Offer>, categoryId: int, link: BookmarkLink,
                   strategy: Strategy)
    requires Placed(x, st0, st, offers, strategy) && UniqueIds(AllLinks(st.nav), st.lastLinkId)
    requires categoryId <= st.lastCategoryId
    ensures Placed(x, st0, ImportLink(x, st, categoryId, link, strategy),
                   offers + (if link.problem == "" then [Offer(categoryId, link.fields)] else []), strategy)
  {
    if link.problem == "" {
      PlacedNext(x, st0, st, offers, categoryId, link, strategy);
    } else {
      assert offers + [] == offers;
    }
  }

  /** What importing links leaves alone, and how many of them are invalid. */
  lemma {:induction false} LinksCounted(x: Text, st: ImportState, categoryId: int, links: seq<BookmarkLink>,
                                        strategy: Strategy)
    ensures var st' := ImportLinks(x, st, categoryId, links, strategy);
            st'.lastCategoryId == st.lastCategoryId && st'.categories == st.categories &&
            st'.result.createdCategories == st.result.createdCategories &&
            st'.result.invalidLinks == st.result.invalidLinks + |links| - |OffersTo(categoryId, links)|
  {
    if links != [] { LinksCounted(x, st, categoryId, links[..|links| - 1], strategy); }
  }

  lemma NumbersAfter(x: Text, st: ImportState, categoryId: int, links: seq<BookmarkLink>, strategy: Strategy)
    requires Consistent(x, st) && HasGroup(st.nav, categoryId)
    ensures var st' := ImportLinks(x, st, categoryId, links, strategy);
            UniqueIds(AllLinks(st'.nav), st'.lastLinkId) && st'.lastCategoryId == st.lastCategoryId
  {
    ImportLinksConsistent(x, st, categoryId, links, strategy);
    LinksCounted(x, st, categoryId, links, strategy);
  }

  lemma LastLinkPlaced(x: Text, st0: ImportState, st: ImportState, st1: ImportState, offers: seq<Offer>,
                       categoryId: int, links: seq<BookmarkLink>, strategy: Strategy)
    requires links != [] && st1 == ImportLinks(x, st, categoryId, links[..|links| - 1], strategy)
    requires Placed(x, st0, st1, offers + OffersTo(categoryId, links[..|links| - 1]), strategy)
    requires UniqueIds(AllLinks(st1.nav), st1.lastLinkId) && categoryId <= st1.lastCategoryId
    ensures Placed(x, st0, ImportLinks(x, st, categoryId, links, strategy), offers + OffersTo(categoryId, links),
                   strategy)
  {
    OffersToNext(offers, categoryId, links);
    LinkPlaced(x, st0, st1, offers + OffersTo(categoryId, links[..|links| - 1]), categoryId, links[|links| - 1],
               strategy);
  }

  lemma NoLinksPlaced(x: Text, st0: ImportState, st: ImportState, offers: seq<Offer>, categoryId: int,
                      links: seq<BookmarkLink>, strategy: Strategy)
    requires Placed(x, st0, st, offers, strategy) && links == []
    ensures Placed(x, st0, ImportLinks(x, st, categoryId, links, strategy), offers + OffersTo(categoryId, links),
                   strategy)
  {
    assert offers + OffersTo(categoryId, links) == offers;
  }

  lemma {:induction false} LinksPlaced(x: Text, st0: ImportState, st: ImportState, offers: seq<Offer>, categoryId: int,
                                       links: seq<BookmarkLink>, strategy: Strategy)
    requires Placed(x, st0, st, offers, strategy) && Consistent(x, st) && HasGroup(st.nav, categoryId)
    requires categoryId <= st.lastCategoryId
    ensures Placed(x, st0, ImportLinks(x, st, categoryId, links, strategy), offers + OffersTo(categoryId, links),
                   strategy)
  {
    if links == [] {
      NoLinksPlaced(x, st0, st, offers, categoryId, links, strategy);
    } else {
      var before := links[..|links| - 1];
      LinksPlaced(x, st0, st, offers, categoryId, before, strategy);
      NumbersAfter(x, st, categoryId, before, strategy);
      LastLinkPlaced(x, st0, st, ImportLinks(x, st, categoryId, before, strategy), offers, categoryId, links, strategy);
    }
  }

  // ---- The categories of an import -------------------------------------------------------------------

  /** The import has come from `st0` to `st` by making the categories of `usable` that were missing. */
  ghost predicate Grouped(x: Text, st0: ImportState, st: ImportState, usable: seq<BookmarkCategory>, options: Options) {
    var made := NewCategories(x, st0, usable, options);
    && IsNumbering(st0.categories, st0.lastCategoryId, Keys(x, usable), st.categories, st.lastCategoryId)
    && CategoriesOf(st.nav) == CategoriesOf(st0.nav) + made
    && st.result.createdCategories == st0.result.createdCategories + |made|
  }

  lemma KeysNext(x: Text, usable: seq<BookmarkCategory>, category: BookmarkCategory)
    ensures Keys(x, usable + [category]) == Keys(x, usable) + [x.key(category.name)]
    ensures (usable + [category])[..|usable|] == usable
  {
  }

  /** The next number is that of the category. */
  lemma KeyNumbered(x: Text, st0: ImportState, st: ImportState, usable: seq<BookmarkCategory>,
                    category: BookmarkCategory, more: seq<BookmarkCategory>, st': ImportState)
    requires IsNumbering(st0.categories, st0.lastCategoryId, Keys(x, usable), st.categories, st.lastCategoryId)
    requires more == usable + [category]
    requires var key, id := x.key(category.name), st.lastCategoryId + 1;
             if key in st.categories then st'.categories == st.categories && st'.lastCategoryId == st.lastCategoryId
             else st'.categories == st.categories[key := id] && st'.lastCategoryId == id
    ensures IsNumbering(st0.categories, st0.lastCategoryId, Keys(x, more), st'.categories, st'.lastCategoryId)
    ensures x.key(category.name) in st'.categories &&
            CategoryId(x, st0, more, |usable|) == st'.categories[x.key(category.name)]
    ensures IsNew(false, st0.categories, Keys(x, more), |usable|) <==> x.key(category.name) !in st.categories
  {
    KeysNext(x, usable, category);
    NumberNext(st0.categories, st0.lastCategoryId, Keys(x, usable), st.categories, st.lastCategoryId,
               x.key(category.name), Keys(x, more), st'.categories);
  }

  lemma CategoriesNext(before: seq<Category>, made: seq<Category>, nav: seq<Group>, nav': seq<Group>,
                       more: seq<Category>, made': seq<Category>)
    requires CategoriesOf(nav) == before + made && CategoriesOf(nav') == CategoriesOf(nav) + more
    requires made' == made + more
    ensures CategoriesOf(nav') == before + made'
  {
    Associative(before, made, more);
  }

  /** What making a missing category does to the list and the counter. */
  lemma EnsuredCategories(x: Text, st: ImportState, category: BookmarkCategory, options: Options)
    ensures var st' := EnsureGroup(x, st, category, options);
            var made := Made(category, x.key(category.name) !in st.categories, st.lastCategoryId + 1, options);
            CategoriesOf(st'.nav) == CategoriesOf(st.nav) + made &&
            st'.result.createdCategories == st.result.createdCategories + |made|
  {
    assert CategoriesOf(st.nav) + [] == CategoriesOf(st.nav);
  }

  lemma NewCategoriesNext(x: Text, st0: ImportState, usable: seq<BookmarkCategory>, category: BookmarkCategory,
                          more: seq<BookmarkCategory>, options: Options)
    requires more == usable + [category]
    ensures NewCategories(x, st0, more, options) ==
            NewCategories(x, st0, usable, options) +
            Made(category, IsNew(false, st0.categories, Keys(x, more), |usable|), CategoryId(x, st0, more, |usable|),
                 options)
  {
    assert more[..|usable|] == usable;
  }

  lemma ListedNext(x: Text, st0: ImportState, st: ImportState, usable: seq<BookmarkCategory>,
                   category: BookmarkCategory, more: seq<BookmarkCategory>, options: Options)
    requires CategoriesOf(st.nav) == CategoriesOf(st0.nav) + NewCategories(x, st0, usable, options)
    requires more == usable + [category]
    requires var isNew := x.key(category.name) !in st.categories;
             (IsNew(false, st0.categories, Keys(x, more), |usable|) <==> isNew) &&
               (isNew ==> CategoryId(x, st0, more, |usable|) == st.lastCategoryId + 1)
    ensures var st' := EnsureGroup(x, st, category, options);
            var made, made' := NewCategories(x, st0, usable, options), NewCategories(x, st0, more, options);
            CategoriesOf(st'.nav) == CategoriesOf(st0.nav) + made' &&
            st'.result.createdCategories == st.result.createdCategories + |made'| - |made|
  {
    NewCategoriesNext(x, st0, usable, category, more, options);
    EnsuredCategories(x, st, category, options);
    var made := Made(category, x.key(category.name) !in st.categories, st.lastCategoryId + 1, options);
    CategoriesNext(CategoriesOf(st0.nav), NewCategories(x, st0, usable, options), st.nav,
                   EnsureGroup(x, st, category, options).nav, made, NewCategories(x, st0, more, options));
  }

  lemma GroupedNext(x: Text, st0: ImportState, st: ImportState, usable: seq<BookmarkCategory>,
                    category: BookmarkCategory, more: seq<BookmarkCategory>, options: Options)
    requires Grouped(x, st0, st, usable, options) && more == usable + [category]
    ensures Grouped(x, st0, EnsureGroup(x, st, category, options), more, options)
    ensures CategoryId(x, st0, more, |usable|) == EnsureGroup(x, st, category, options).categories[x.key(category.name)]
  {
    KeyNumbered(x, st0, st, usable, category, more, EnsureGroup(x, st, category, options));
    ListedNext(x, st0, st, usable, category, more, options);
  }

  lemma SameGrouped(x: Text, st0: ImportState, st: ImportState, st': ImportState, usable: seq<BookmarkCategory>,
                    options: Options)
    requires Grouped(x, st0, st, usable, options) && SameCategories(st.nav, st'.nav)
    requires st'.categories == st.categories && st'.lastCategoryId == st.lastCategoryId
    requires st'.result.createdCategories == st.result.createdCategories
    ensures Grouped(x, st0, st', usable, options)
  {
    assert CategoriesOf(st'.nav) == CategoriesOf(st.nav);
  }

  lemma {:induction false} TrailCategories(x: Text, st0: ImportState, strategy: Strategy, offers: seq<Offer>, last: int)
    requires forall k :: 0 <= k < |offers| ==> offers[k].categoryId <= last
    ensures forall j :: 0 <= j < |Trail(x, st0, strategy, offers)| ==>
              Trail(x, st0, strategy, offers)[j].categoryId <= last
  {
    if offers != [] { TrailCategories(x, st0, strategy, offers[..|offers| - 1], last); }
  }

  /** A new category changes nothing about links. */
  lemma PlacedGroup(x: Text, st0: ImportState, st: ImportState, offers: seq<Offer>, category: BookmarkCategory,
                    options: Options)
    requires Placed(x, st0, st, offers, options.duplicates)
    ensures Placed(x, st0, EnsureGroup(x, st, category, options), offers, options.duplicates)
  {
    var st' := EnsureGroup(x, st, category, options);
    if x.key(category.name) !in st.categories {
      var trail := Trail(x, st0, options.duplicates, offers);
      TrailCategories(x, st0, options.duplicates, offers, st.lastCategoryId);
      ListsAfterGroup(st0.nav, st.nav, st'.nav[|st.nav|], trail);
    }
  }

  ghost predicate IdsBelow(nav: seq<Group>, last: int) {
    forall i :: 0 <= i < |nav| ==> nav[i].category.id <= last
  }

  lemma EnsuredBelow(x: Text, st: ImportState, category: BookmarkCategory, options: Options)
    requires Consistent(x, st) && IdsBelow(st.nav, st.lastCategoryId)
    ensures var st' := EnsureGroup(x, st, category, options);
            IdsBelow(st'.nav, st'.lastCategoryId) && st'.categories[x.key(category.name)] <= st'.lastCategoryId
  {
    var key := x.key(category.name);
    if key in st.categories { assert HasCategory(x, st.nav, st.categories[key], key); }
  }

  /** The import has come from `st0` to `st` by way of categories with `total` links, `usable` among them. */
  ghost predicate Reached(x: Text, st0: ImportState, st: ImportState, usable: seq<BookmarkCategory>, total: nat,
                          options: Options) {
    && Consistent(x, st) && IdsBelow(st.nav, st.lastCategoryId)
    && Grouped(x, st0, st, usable, options)
    && Placed(x, st0, st, Offers(x, st0, usable), options.duplicates)
    && st.result.invalidLinks == st0.result.invalidLinks + total - |Offers(x, st0, usable)|
  }

  lemma OffersNext(x: Text, st0: ImportState, usable: seq<BookmarkCategory>, category: BookmarkCategory)
    ensures Offers(x, st0, usable + [category]) ==
            Offers(x, st0, usable) +
            OffersTo(CategoryId(x, st0, usable + [category], |usable|), category.links)
  {
    assert (usable + [category])[..|usable|] == usable;
  }

  lemma SameBelow(a: seq<Group>, b: seq<Group>, last: int)
    requires SameCategories(a, b) && IdsBelow(a, last)
    ensures IdsBelow(b, last)
  {
  }

  lemma ReachedUsable(x: Text, st0: ImportState, st: ImportState, usable: seq<BookmarkCategory>, total: nat,
                      category: BookmarkCategory, options: Options)
    requires Reached(x, st0, st, usable, total, options) && ValidCategoryName(category.name)
    ensures Reached(x, st0, ImportCategory(x, st, category, options), usable + [category], total + |category.links|,
                    options)
  {
    var started := EnsureGroup(x, st, category, options);
    var id, st' := started.categories[x.key(category.name)], ImportCategory(x, st, category, options);
    EnsureGroupConsistent(x, st, category, options);
    EnsuredBelow(x, st, category, options);
    GroupedNext(x, st0, st, usable, category, usable + [category], options);
    PlacedGroup(x, st0, st, Offers(x, st0, usable), category, options);
    LinksPlaced(x, st0, started, Offers(x, st0, usable), id, category.links, options.duplicates);
    LinksCounted(x, started, id, category.links, options.duplicates);
    ImportLinksConsistent(x, started, id, category.links, options.duplicates);
    SameGrouped(x, st0, started, st', usable + [category], options);
    SameBelow(started.nav, st'.nav, started.lastCategoryId);
    OffersNext(x, st0, usable, category);
  }

  lemma ReachedUnusable(x: Text, st0: ImportState, st: ImportState, usable: seq<BookmarkCategory>, total: nat,
                        category: BookmarkCategory, options: Options)
    requires Reached(x, st0, st, usable, total, options) && !ValidCategoryName(category.name)
    ensures Reached(x, st0, ImportCategory(x, st, category, options), usable, total + |category.links|, options)
  {
  }

  lemma GroupedNothing(x: Text, st: ImportState, options: Options)
    ensures Grouped(x, st, st, [], options)
  {
    assert Keys(x, []) == [];
    assert CategoriesOf(st.nav) + [] == CategoriesOf(st.nav);
  }

  lemma PlacedNothing(x: Text, st: ImportState, strategy: Strategy)
    ensures Placed(x, st, st, [], strategy)
  {
    assert Urls(x, []) == [] && Ids([]) == [];
    ListsAfterNothing(st.nav);
  }

  lemma ReachedNothing(x: Text, st: ImportState, options: Options)
    requires Consistent(x, st) && IdsBelow(st.nav, st.lastCategoryId)
    ensures Reached(x, st, st, [], 0, options)
  {
    GroupedNothing(x, st, options);
    PlacedNothing(x, st, options.duplicates);
  }

  lemma ImportLast(x: Text, st: ImportState, batch: seq<BookmarkCategory>, options: Options)
    requires batch != []
    ensures var before, last := batch[..|batch| - 1], batch[|batch| - 1];
            && Import(x, st, batch, options) == ImportCategory(x, Import(x, st, before, options), last, options)
            && Usable(batch) == (if ValidCategoryName(last.name) then Usable(before) + [last] else Usable(before))
            && LinkCount(batch) == LinkCount(before) + |last.links|
  {
  }

  lemma {:induction false} ImportReaches(x: Text, st: ImportState, batch: seq<BookmarkCategory>, options: Options)
    requires Consistent(x, st) && IdsBelow(st.nav, st.lastCategoryId)
    ensures Reached(x, st, Import(x, st, batch, options), Usable(batch), LinkCount(batch), options)
  {
    if batch == [] {
      ReachedNothing(x, st, options);
      assert Import(x, st, batch, options) == st;
    } else {
      var before, last := batch[..|batch| - 1], batch[|batch| - 1];
      ImportReaches(x, st, before, options);
      ImportLast(x, st, batch, options);
      var st1 := Import(x, st, before, options);
      if ValidCategoryName(last.name) {
        ReachedUsable(x, st, st1, Usable(before), LinkCount(before), last, options);
      } else {
        ReachedUnusable(x, st, st1, Usable(before), LinkCount(before), last, options);
      }
    }
  }

  /** What an import does, for every strategy: the categories it makes, the links it places and under
      which ids, where every link ends up, and what it reports. */
  lemma ImportIsLedger(x: Text, st: ImportState, batch: seq<BookmarkCategory>, options: Options)
    requires Consistent(x, st) && IdsBelow(st.nav, st.lastCategoryId)
    ensures var done := Import(x, st, batch, options); IsImported(x, st, batch, options, done.nav, done.result)
  {
    ImportReaches(x, st, batch, options);
  }

  // ---- What the reported ids are ---------------------------------------------------------------------

  /** The links that are made are numbered upwards from the last id used before. */
  lemma {:induction false} CreatedAscend(x: Text, st: ImportState, strategy: Strategy, offers: seq<Offer>, k: nat,
                                         later: nat)
    requires k <= later < |offers| && IsCreated(x, st, strategy, offers, k) && IsCreated(x, st, strategy, offers, later)
    ensures st.lastLinkId < LinkId(x, st, strategy, offers, k)
    ensures k < later ==> LinkId(x, st, strategy, offers, k) < LinkId(x, st, strategy, offers, later)
  {
    var all, urls := strategy == Create, Urls(x, offers);
    FirstIsSelf(all, st.links, urls, k);
    FirstIsSelf(all, st.links, urls, later);
    NewsMonotone(all, st.links, urls, k + 1, later + 1);
    if k < later { NewsMonotone(all, st.links, urls, k + 1, later); }
  }

  lemma FirstIsSelf(all: bool, stored: map<string, int>, names: seq<string>, k: nat)
    requires k < |names| && IsNew(all, stored, names, k)
    ensures all || First(names, names[k]) == k
  {
    assert forall i :: 0 <= i < k ==> names[..k][i] == names[i];
  }

  lemma {:induction false} NewsMonotone(all: bool, stored: map<string, int>, names: seq<string>, m: nat, n: nat)
    requires m <= n <= |names|
    ensures News(all, stored, names, m) <= News(all, stored, names, n)
  {
    if m < n { NewsMonotone(all, stored, names, m, n - 1); }
  }

  /** Every number between is given to one of them. */
  lemma {:induction false} CreatedFill(x: Text, st: ImportState, strategy: Strategy, offers: seq<Offer>, n: nat,
                                       id: int) returns (k: nat)
    requires n <= |offers|
    requires st.lastLinkId < id <= st.lastLinkId + News(strategy == Create, st.links, Urls(x, offers), n)
    ensures k < n && IsCreated(x, st, strategy, offers, k) && LinkId(x, st, strategy, offers, k) == id
  {
    var all, urls := strategy == Create, Urls(x, offers);
    if IsNew(all, st.links, urls, n - 1) && id == st.lastLinkId + News(all, st.links, urls, n) {
      k := n - 1;
      FirstIsSelf(all, st.links, urls, k);
    } else {
      k := CreatedFill(x, st, strategy, offers, n - 1, id);
    }
  }

  /** A link that is not made has the id of the stored link with its URL, or of the link made before
      for the same URL. */
  lemma DuplicateId(x: Text, st: ImportState, strategy: Strategy, offers: seq<Offer>, k: nat)
    requires Consistent(x, st) && k < |offers| && !IsCreated(x, st, strategy, offers, k)
    ensures var id, url := LinkId(x, st, strategy, offers, k), x.canonical(offers[k].fields.url);
            if url in st.links then id == st.links[url] && HasLink(x, AllLinks(st.nav), id, url)
            else exists e :: 0 <= e < k && x.canonical(offers[e].fields.url) == url &&
                             IsCreated(x, st, strategy, offers, e) && LinkId(x, st, strategy, offers, e) == id
  {
    var urls := Urls(x, offers);
    if urls[k] in st.links {
      assert HasLink(x, AllLinks(st.nav), st.links[urls[k]], urls[k]);
    } else {
      var e := First(urls, urls[k]);
      assert urls[e] == urls[k] == x.canonical(offers[e].fields.url) && First(urls, urls[e]) == e;
      assert e < k by { var i :| 0 <= i < k && urls[..k][i] == urls[k]; }
      assert IsCreated(x, st, strategy, offers, e);
    }
  }

  ghost predicate MeantFor(x: Text, st: ImportState, usable: seq<BookmarkCategory>, categoryId: int) {
    exists i :: 0 <= i < |usable| && CategoryId(x, st, usable, i) == categoryId
  }

  lemma {:induction false} OffersTarget(categoryId: int, links: seq<BookmarkLink>)
    ensures forall k :: 0 <= k < |OffersTo(categoryId, links)| ==>
              OffersTo(categoryId, links)[k].categoryId == categoryId
  {
    if links != [] { OffersTarget(categoryId, links[..|links| - 1]); }
  }

  lemma CategoryIdPrefix(x: Text, st: ImportState, usable: seq<BookmarkCategory>, i: nat)
    requires i < |usable| - 1
    ensures CategoryId(x, st, usable, i) == CategoryId(x, st, usable[..|usable| - 1], i)
  {
    var last := |usable| - 1;
    assert Keys(x, usable) == Keys(x, usable[..last]) + [x.key(usable[last].name)];
    NumberPrefix(false, st.categories, st.lastCategoryId, Keys(x, usable[..last]), x.key(usable[last].name), i);
  }

  ghost predicate AllMeant(x: Text, st: ImportState, usable: seq<BookmarkCategory>, offers: seq<Offer>) {
    forall k :: 0 <= k < |offers| ==> MeantFor(x, st, usable, offers[k].categoryId)
  }

  lemma MeantPrefix(x: Text, st: ImportState, usable: seq<BookmarkCategory>, categoryId: int)
    requires usable != [] && MeantFor(x, st, usable[..|usable| - 1], categoryId)
    ensures MeantFor(x, st, usable, categoryId)
  {
    var before := usable[..|usable| - 1];
    var i :| 0 <= i < |before| && CategoryId(x, st, before, i) == categoryId;
    CategoryIdPrefix(x, st, usable, i);
  }

  lemma {:induction false} OffersMeant(x: Text, st: ImportState, usable: seq<BookmarkCategory>, offers: seq<Offer>)
    requires offers == Offers(x, st, usable)
    ensures AllMeant(x, st, usable, offers)
  {
    if usable != [] {
      var last := |usable| - 1;
      var before, id := Offers(x, st, usable[..last]), CategoryId(x, st, usable, last);
      OffersMeant(x, st, usable[..last], before);
      OffersTarget(id, usable[last].links);
      assert offers == before + OffersTo(id, usable[last].links);
      forall k | 0 <= k < |offers| ensures MeantFor(x, st, usable, offers[k].categoryId) {
        if k < |before| { MeantPrefix(x, st, usable, before[k].categoryId); }
      }
    }
  }

  ghost predicate TrailIsMeant(x: Text, st: ImportState, usable: seq<BookmarkCategory>, trail: seq<Placing>) {
    forall j :: 0 <= j < |trail| ==> MeantFor(x, st, usable, trail[j].categoryId)
  }

  lemma {:induction false} TrailMeant(x: Text, st: ImportState, strategy: Strategy, offers: seq<Offer>,
                                      usable: seq<BookmarkCategory>, trail: seq<Placing>)
    requires AllMeant(x, st, usable, offers) && trail == Trail(x, st, strategy, offers)
    ensures TrailIsMeant(x, st, usable, trail)
  {
    if offers != [] {
      var k := |offers| - 1;
      var before := Trail(x, st, strategy, offers[..k]);
      TrailMeant(x, st, strategy, offers[..k], usable, before);
      assert MeantFor(x, st, usable, offers[k].categoryId);
      if |trail| > |before| { assert trail == before + [trail[|before|]]; } else { assert trail == before; }
    }
  }

  lemma {:induction false} LastPlacing(trail: seq<Placing>, j: nat, n: nat) returns (l: nat)
    requires j < n <= |trail|
    ensures j <= l < n && trail[l].link.id == trail[j].link.id
    ensures forall later :: l < later < n ==> trail[later].link.id != trail[l].link.id
  {
    if trail[n - 1].link.id == trail[j].link.id { return n - 1; }
    l := LastPlacing(trail, j, n - 1);
  }

  lemma {:induction false} ArrivedHas(trail: seq<Placing>, l: nat)
    requires l < |trail| && forall later :: l < later < |trail| ==> trail[later].link.id != trail[l].link.id
    ensures trail[l].link in Arrived(trail, trail[l].categoryId)
  {
    if l > 0 {
      assert trail[1..][l - 1] == trail[l];
      ArrivedHas(trail[1..], l - 1);
    } else {
      assert trail[0].link.id !in Ids(trail[1..]);
    }
  }

  /** The link is in its category. */
  ghost predicate Lies(nav: seq<Group>, p: Placing) {
    exists i :: 0 <= i < |nav| && nav[i].category.id == p.categoryId && p.link in nav[i].links
  }

  /** The category that a link was meant for is there, under the key of its name in the batch. */
  lemma TargetExists(x: Text, st0: ImportState, st: ImportState, usable: seq<BookmarkCategory>, options: Options,
                     categoryId: int) returns (g: nat)
    requires Consistent(x, st) && Grouped(x, st0, st, usable, options) && MeantFor(x, st0, usable, categoryId)
    ensures g < |st.nav| && st.nav[g].category.id == categoryId
    ensures exists i :: 0 <= i < |usable| && CategoryId(x, st0, usable, i) == categoryId &&
                        x.key(st.nav[g].category.name) == x.key(usable[i].name)
  {
    var i :| 0 <= i < |usable| && CategoryId(x, st0, usable, i) == categoryId;
    var key := Keys(x, usable)[i];
    assert NumberedAt(st0.categories, st0.lastCategoryId, Keys(x, usable), st.categories, i);
    assert HasCategory(x, st.nav, st.categories[key], key);
    g :| 0 <= g < |st.nav| && st.nav[g].category.id == categoryId && x.key(st.nav[g].category.name) == key;
  }

  /** A placing that no later one replaces is in the list. */
  lemma PlacingLies(x: Text, st0: ImportState, st: ImportState, usable: seq<BookmarkCategory>, options: Options,
                    trail: seq<Placing>, l: nat)
    requires Consistent(x, st) && Grouped(x, st0, st, usable, options) && ListsAfter(st0.nav, st.nav, trail)
    requires l < |trail| && MeantFor(x, st0, usable, trail[l].categoryId)
    requires forall later :: l < later < |trail| ==> trail[later].link.id != trail[l].link.id
    ensures Lies(st.nav, trail[l])
  {
    var g := TargetExists(x, st0, st, usable, options, trail[l].categoryId);
    ArrivedHas(trail, l);
    assert st.nav[g].links == LinksAfter(LinksBefore(st0.nav, g), trail[l].categoryId, trail);
  }

  lemma ReportedFrom(x: Text, st0: ImportState, st: ImportState, usable: seq<BookmarkCategory>, total: nat,
                     options: Options, trail: seq<Placing>, j: nat) returns (l: nat)
    requires Reached(x, st0, st, usable, total, options) && j < |trail|
    requires trail == Trail(x, st0, options.duplicates, Offers(x, st0, usable))
    ensures j <= l < |trail| && trail[l].link.id == trail[j].link.id && Lies(st.nav, trail[l])
    ensures forall later :: l < later < |trail| ==> trail[later].link.id != trail[l].link.id
  {
    l := LastPlacing(trail, j, |trail|);
    OffersMeant(x, st0, usable, Offers(x, st0, usable));
    TrailMeant(x, st0, options.duplicates, Offers(x, st0, usable), usable, trail);
    PlacingLies(x, st0, st, usable, options, trail, l);
  }

  lemma ReportedIds(x: Text, st0: ImportState, st: ImportState, usable: seq<BookmarkCategory>, total: nat,
                    options: Options)
    requires Reached(x, st0, st, usable, total, options) && st0.result == NOTHING_YET
    ensures st.result.importedLinkIds == Ids(Trail(x, st0, options.duplicates, Offers(x, st0, usable)))
  {
    var ids := Ids(Trail(x, st0, options.duplicates, Offers(x, st0, usable)));
    assert [] + ids == ids;
  }

  /** Each reported id is that of the link which its link of the batch became, and that link is in the
      list with the fields of the last link of the batch that was placed under this id. */
  lemma ReportedLinks(x: Text, st: ImportState, batch: seq<BookmarkCategory>, options: Options, j: nat)
    returns (l: nat)
    requires Consistent(x, st) && IdsBelow(st.nav, st.lastCategoryId) && st.result == NOTHING_YET
    requires j < |Import(x, st, batch, options).result.importedLinkIds|
    ensures var done := Import(x, st, batch, options);
            var trail := Trail(x, st, options.duplicates, Offers(x, st, Usable(batch)));
            && done.result.importedLinkIds == Ids(trail)
            && j <= l < |trail| && trail[l].link.id == trail[j].link.id == done.result.importedLinkIds[j]
            && (forall later :: l < later < |trail| ==> trail[later].link.id != trail[l].link.id)
            && Lies(done.nav, trail[l])
  {
    var done, usable := Import(x, st, batch, options), Usable(batch);
    ImportReaches(x, st, batch, options);
    ReportedIds(x, st, done, usable, LinkCount(batch), options);
    l := ReportedFrom(x, st, done, usable, LinkCount(batch), options,
                      Trail(x, st, options.duplicates, Offers(x, st, usable)), j);
  }
}
