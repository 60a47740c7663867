/** The dry-run preview of an import, and why the commit does what it announces. */
module BookmarkPreview {
  import opened Navigation
  import opened Bookmarks
  import opened BookmarkImport

  datatype Status = New | Duplicate | Invalid
  datatype PreviewLink = PreviewLink(name: string, url: string, status: Status, problem: string, duplicateOf: string)
  datatype PreviewCategory = PreviewCategory(name: string, isNew: bool, existingId: int, links: seq<PreviewLink>)
  datatype Summary = Summary(unseen: nat, duplicates: nat, invalid: nat, newCategories: nat, existingCategories: nat)
  datatype Preview = Preview(summary: Summary, categories: seq<PreviewCategory>)

  /** The running state of the dry run: `known` maps a canonical URL to a link name. */
  datatype LinkRun = LinkRun(known: map<string, string>, summary: Summary, entries: seq<PreviewLink>)
  datatype Run = Run(known: map<string, string>, summary: Summary, items: seq<PreviewCategory>)

  const NOTHING_SEEN := Summary(0, 0, 0, 0, 0)

  function PreviewOne(x: Text, run: LinkRun, link: BookmarkLink): LinkRun {
    var f, s, canonical := link.fields, run.summary, x.canonical(link.fields.url);
    if link.problem != "" then
      LinkRun(run.known, s.(invalid := s.invalid + 1),
              run.entries + [PreviewLink(f.name, f.url, Invalid, link.problem, "")])
    else if canonical in run.known then
      LinkRun(run.known, s.(duplicates := s.duplicates + 1),
              run.entries + [PreviewLink(f.name, f.url, Duplicate, "", run.known[canonical])])
    else
      LinkRun(run.known[canonical := f.name], s.(unseen := s.unseen + 1),
              run.entries + [PreviewLink(f.name, f.url, New, "", "")])
  }

  function PreviewLinks(x: Text, known: map<string, string>, summary: Summary, links: seq<BookmarkLink>): LinkRun {
    if links == [] then LinkRun(known, summary, [])
    else PreviewOne(x, PreviewLinks(x, known, summary, links[..|links| - 1]), links[|links| - 1])
  }

  function PreviewCategoryOne(x: Text, existing: map<string, int>, run: Run, category: BookmarkCategory): Run {
    var key, s := x.key(category.name), run.summary;
    var isNew := key !in existing;
    var counted := if isNew then s.(newCategories := s.newCategories + 1)
                   else s.(existingCategories := s.existingCategories + 1);
    var links := PreviewLinks(x, run.known, counted, category.links);
    Run(links.known, links.summary,
        run.items + [PreviewCategory(category.name, isNew, if isNew then 0 else existing[key], links.entries)])
  }

  function PreviewAll(x: Text, existing: map<string, int>, known: map<string, string>,
                      batch: seq<BookmarkCategory>): Run {
    if batch == [] then Run(known, NOTHING_SEEN, [])
    else PreviewCategoryOne(x, existing, PreviewAll(x, existing, known, batch[..|batch| - 1]), batch[|batch| - 1])
  }

  // ---- The stored names and URLs ------------------------------------------------------------------

  /** All links, in the order of the groups. */
  function InOrder(groups: seq<Group>): seq<Link> {
    if groups == [] then [] else InOrder(groups[..|groups| - 1]) + groups[|groups| - 1].links
  }

  predicate IsLastLink(x: Text, links: seq<Link>, canonical: string, l: nat) {
    && l < |links| && x.canonical(links[l].fields.url) == canonical
    && forall later :: l < later < |links| ==> x.canonical(links[later].fields.url) != canonical
  }

  predicate IsLastGroup(x: Text, groups: seq<Group>, key: string, g: nat) {
    && g < |groups| && x.key(groups[g].category.name) == key
    && forall later :: g < later < |groups| ==> x.key(groups[later].category.name) != key
  }

  ghost predicate NamesLast(x: Text, links: seq<Link>, canonical: string, name: string) {
    exists l: nat :: IsLastLink(x, links, canonical, l) && links[l].fields.name == name
  }

  ghost predicate FindsLast(x: Text, groups: seq<Group>, key: string, id: int) {
    exists g: nat :: IsLastGroup(x, groups, key, g) && groups[g].category.id == id
  }

  /** Each canonical URL leads to the name of the last link with that URL, and no link is missing. */
  ghost predicate IsNameIndex(x: Text, links: seq<Link>, known: map<string, string>) {
    && (forall c :: c in known ==> NamesLast(x, links, c, known[c]))
    && (forall l :: 0 <= l < |links| ==> x.canonical(links[l].fields.url) in known)
  }

  /** Each key leads to the last category with that key, and no category is missing. */
  ghost predicate IsGroupIndex(x: Text, groups: seq<Group>, existing: map<string, int>) {
    && (forall key :: key in existing ==> FindsLast(x, groups, key, existing[key]))
    && (forall g :: 0 <= g < |groups| ==> x.key(groups[g].category.name) in existing)
  }

  lemma NameIndexStep(x: Text, links: seq<Link>, known: map<string, string>, link: Link)
    requires IsNameIndex(x, links, known)
    ensures IsNameIndex(x, links + [link], known[x.canonical(link.fields.url) := link.fields.name])
  {
    var links', known' := links + [link], known[x.canonical(link.fields.url) := link.fields.name];
    forall c | c in known' ensures NamesLast(x, links', c, known'[c]) {
      if c == x.canonical(link.fields.url) {
        assert IsLastLink(x, links', c, |links|);
      } else {
        assert NamesLast(x, links, c, known[c]);
        var l: nat :| IsLastLink(x, links, c, l) && links[l].fields.name == known[c];
        assert IsLastLink(x, links', c, l);
      }
    }
  }

  lemma GroupIndexStep(x: Text, groups: seq<Group>, existing: map<string, int>, group: Group)
    requires IsGroupIndex(x, groups, existing)
    ensures IsGroupIndex(x, groups + [group], existing[x.key(group.category.name) := group.category.id])
  {
    var groups', existing' := groups + [group], existing[x.key(group.category.name) := group.category.id];
    forall key | key in existing' ensures FindsLast(x, groups', key, existing'[key]) {
      if key == x.key(group.category.name) {
        assert IsLastGroup(x, groups', key, |groups|);
      } else {
        assert FindsLast(x, groups, key, existing[key]);
        var g: nat :| IsLastGroup(x, groups, key, g) && groups[g].category.id == existing[key];
        assert IsLastGroup(x, groups', key, g);
      }
    }
  }

  method IndexLinks(x: Text, links: seq<Link>, known0: map<string, string>, ghost before: seq<Link>)
    returns (known: map<string, string>)
    requires IsNameIndex(x, before, known0)
    ensures IsNameIndex(x, before + links, known)
  {
    known := known0;
    assert before + links[..0] == before;
    for l := 0 to |links|
      invariant IsNameIndex(x, before + links[..l], known)
    {
      NameIndexStep(x, before + links[..l], known, links[l]);
      assert before + links[..l + 1] == before + links[..l] + [links[l]];
      known := known[x.canonical(links[l].fields.url) := links[l].fields.name];
    }
    assert links[..|links|] == links;
  }

  /** The stored category keys and link URLs; of several with one key or URL, the last. */
  method IndexGroups(x: Text, groups: seq<Group>) returns (existing: map<string, int>, known: map<string, string>)
    ensures IsGroupIndex(x, groups, existing) && IsNameIndex(x, InOrder(groups), known)
  {
    existing, known := map[], map[];
    for g := 0 to |groups|
      invariant IsGroupIndex(x, groups[..g], existing) && IsNameIndex(x, InOrder(groups[..g]), known)
    {
      var group := groups[g];
      assert groups[..g + 1] == groups[..g] + [group] && groups[..g + 1][..g] == groups[..g];
      GroupIndexStep(x, groups[..g], existing, group);
      existing := existing[x.key(group.category.name) := group.category.id];
      known := IndexLinks(x, group.links, known, InOrder(groups[..g]));
    }
    assert groups[..|groups|] == groups;
  }

  /** So there is only one such index. */
  lemma IndexesUnique(x: Text, groups: seq<Group>, e1: map<string, int>, k1: map<string, string>,
                      e2: map<string, int>, k2: map<string, string>)
    requires IsGroupIndex(x, groups, e1) && IsNameIndex(x, InOrder(groups), k1)
    requires IsGroupIndex(x, groups, e2) && IsNameIndex(x, InOrder(groups), k2)
    ensures e1 == e2 && k1 == k2
  {
    forall key ensures key in e1 <==> key in e2 {
      if key in e1 { assert FindsLast(x, groups, key, e1[key]); }
      if key in e2 { assert FindsLast(x, groups, key, e2[key]); }
    }
    forall key | key in e1 ensures e1[key] == e2[key] {
      assert FindsLast(x, groups, key, e1[key]) && FindsLast(x, groups, key, e2[key]);
    }
    var links := InOrder(groups);
    forall c ensures c in k1 <==> c in k2 {
      if c in k1 { assert NamesLast(x, links, c, k1[c]); }
      if c in k2 { assert NamesLast(x, links, c, k2[c]); }
    }
    forall c | c in k1 ensures k1[c] == k2[c] {
      assert NamesLast(x, links, c, k1[c]) && NamesLast(x, links, c, k2[c]);
    }
  }

  // ---- What a preview says of each link -----------------------------------------------------------

  /** The links of a batch, in order. */
  function Links(batch: seq<BookmarkCategory>): seq<BookmarkLink> {
    if batch == [] then [] else Links(batch[..|batch| - 1]) + batch[|batch| - 1].links
  }

  function Entries(items: seq<PreviewCategory>): seq<PreviewLink> {
    if items == [] then [] else Entries(items[..|items| - 1]) + items[|items| - 1].links
  }

  ghost predicate IsStored(x: Text, stored: seq<Link>, canonical: string) {
    exists l :: 0 <= l < |stored| && x.canonical(stored[l].fields.url) == canonical
  }

  predicate IsValidAt(x: Text, links: seq<BookmarkLink>, canonical: string, k: nat) {
    k < |links| && links[k].problem == "" && x.canonical(links[k].fields.url) == canonical
  }

  ghost predicate IsFirstValid(x: Text, links: seq<BookmarkLink>, canonical: string, k: nat) {
    IsValidAt(x, links, canonical, k) && forall e: nat :: e < k ==> !IsValidAt(x, links, canonical, e)
  }

  /** The first valid link with that URL has this name. */
  ghost predicate NamesFirst(x: Text, links: seq<BookmarkLink>, canonical: string, name: string) {
    exists k: nat :: IsFirstValid(x, links, canonical, k) && links[k].fields.name == name
  }

  ghost predicate HasValid(x: Text, links: seq<BookmarkLink>, canonical: string) {
    exists k: nat :: IsValidAt(x, links, canonical, k)
  }

  /** What is said of a link that comes after `earlier`: it is invalid if it has a problem; a duplicate if
      its URL is stored, or belongs to an earlier valid link; and otherwise new. */
  ghost predicate IsEntry(x: Text, stored: seq<Link>, earlier: seq<BookmarkLink>, link: BookmarkLink,
                          entry: PreviewLink) {
    var canonical := x.canonical(link.fields.url);
    && entry.name == link.fields.name && entry.url == link.fields.url && entry.problem == link.problem
    && (entry.status == Invalid <==> link.problem != "")
    && (entry.status == Duplicate <==>
          link.problem == "" && (IsStored(x, stored, canonical) || HasValid(x, earlier, canonical)))
    && if entry.status != Duplicate then entry.duplicateOf == ""
       else if IsStored(x, stored, canonical) then NamesLast(x, stored, canonical, entry.duplicateOf)
       else NamesFirst(x, earlier, canonical, entry.duplicateOf)
  }

  ghost predicate AreEntries(x: Text, stored: seq<Link>, links: seq<BookmarkLink>, entries: seq<PreviewLink>) {
    |entries| == |links| && forall k :: 0 <= k < |links| ==> IsEntry(x, stored, links[..k], links[k], entries[k])
  }

  function Count(entries: seq<PreviewLink>, status: Status): nat {
    if entries == [] then 0
    else Count(entries[..|entries| - 1], status) + if entries[|entries| - 1].status == status then 1 else 0
  }

  function CountNew(items: seq<PreviewCategory>): nat {
    if items == [] then 0 else CountNew(items[..|items| - 1]) + if items[|items| - 1].isNew then 1 else 0
  }

  ghost predicate IsItem(x: Text, groups: seq<Group>, category: BookmarkCategory, item: PreviewCategory) {
    var key := x.key(category.name);
    && item.name == category.name && |item.links| == |category.links|
    && (item.isNew <==> forall g :: 0 <= g < |groups| ==> x.key(groups[g].category.name) != key)
    && if item.isNew then item.existingId == 0 else FindsLast(x, groups, key, item.existingId)
  }

  ghost predicate AreItems(x: Text, groups: seq<Group>, batch: seq<BookmarkCategory>, items: seq<PreviewCategory>) {
    |items| == |batch| && forall c :: 0 <= c < |batch| ==> IsItem(x, groups, batch[c], items[c])
  }

  /** What a preview of `batch` beside `groups` says, category by category and link by link. */
  ghost predicate Announces(x: Text, batch: seq<BookmarkCategory>, groups: seq<Group>, preview: Preview) {
    var items, s := preview.categories, preview.summary;
    && AreItems(x, groups, batch, items)
    && AreEntries(x, InOrder(groups), Links(batch), Entries(items))
    && CountsEntries(s, Entries(items)) && s.newCategories == CountNew(items)
    && s.existingCategories == |items| - CountNew(items)
  }

  ghost predicate CountsEntries(s: Summary, entries: seq<PreviewLink>) {
    s.unseen == Count(entries, New) && s.duplicates == Count(entries, Duplicate) && s.invalid == Count(entries, Invalid)
  }

  /** `known` holds the stored URLs and those of the valid links `seen`, each with the name to report. */
  ghost predicate IsKnown(x: Text, stored: seq<Link>, seen: seq<BookmarkLink>, known: map<string, string>) {
    && (forall c :: c in known <==> IsStored(x, stored, c) || HasValid(x, seen, c))
    && (forall c :: c in known ==>
          if IsStored(x, stored, c) then NamesLast(x, stored, c, known[c]) else NamesFirst(x, seen, c, known[c]))
  }

  lemma KnownFromIndex(x: Text, stored: seq<Link>, known: map<string, string>)
    requires IsNameIndex(x, stored, known)
    ensures IsKnown(x, stored, [], known)
  {
    forall c ensures c in known <==> IsStored(x, stored, c) {
      if c in known { assert NamesLast(x, stored, c, known[c]); }
    }
  }

  lemma HasValidNext(x: Text, seen: seq<BookmarkLink>, link: BookmarkLink, canonical: string)
    ensures HasValid(x, seen + [link], canonical) <==>
            HasValid(x, seen, canonical) || (link.problem == "" && x.canonical(link.fields.url) == canonical)
  {
    var more := seen + [link];
    if k: nat :| IsValidAt(x, seen, canonical, k) { assert IsValidAt(x, more, canonical, k); }
    if link.problem == "" && x.canonical(link.fields.url) == canonical {
      assert IsValidAt(x, more, canonical, |seen|);
    }
    if k: nat :| IsValidAt(x, more, canonical, k) { assert k < |seen| ==> IsValidAt(x, seen, canonical, k); }
  }

  lemma NamesFirstStays(x: Text, seen: seq<BookmarkLink>, link: BookmarkLink, canonical: string, name: string)
    requires NamesFirst(x, seen, canonical, name)
    ensures NamesFirst(x, seen + [link], canonical, name)
  {
    var k: nat :| IsFirstValid(x, seen, canonical, k) && seen[k].fields.name == name;
    forall e: nat | e < k ensures !IsValidAt(x, seen + [link], canonical, e) {
      assert !IsValidAt(x, seen, canonical, e);
    }
    assert IsFirstValid(x, seen + [link], canonical, k);
  }

  lemma NamesFirstStarts(x: Text, seen: seq<BookmarkLink>, link: BookmarkLink)
    requires link.problem == "" && !HasValid(x, seen, x.canonical(link.fields.url))
    ensures NamesFirst(x, seen + [link], x.canonical(link.fields.url), link.fields.name)
  {
    var canonical := x.canonical(link.fields.url);
    forall e: nat | e < |seen| ensures !IsValidAt(x, seen + [link], canonical, e) {
      assert !IsValidAt(x, seen, canonical, e);
    }
    assert IsFirstValid(x, seen + [link], canonical, |seen|);
  }

  lemma KnownNext(x: Text, stored: seq<Link>, seen: seq<BookmarkLink>, known: map<string, string>, link: BookmarkLink)
    requires IsKnown(x, stored, seen, known)
    ensures var canonical := x.canonical(link.fields.url);
            IsKnown(x, stored, seen + [link],
                    if link.problem != "" || canonical in known then known else known[canonical := link.fields.name])
  {
    var canonical := x.canonical(link.fields.url);
    var known' := if link.problem != "" || canonical in known then known else known[canonical := link.fields.name];
    forall c ensures c in known' <==> IsStored(x, stored, c) || HasValid(x, seen + [link], c) {
      HasValidNext(x, seen, link, c);
    }
    forall c | c in known' && !IsStored(x, stored, c) ensures NamesFirst(x, seen + [link], c, known'[c]) {
      if c in known {
        NamesFirstStays(x, seen, link, c, known[c]);
      } else {
        NamesFirstStarts(x, seen, link);
      }
    }
  }

  lemma EntryIs(x: Text, stored: seq<Link>, seen: seq<BookmarkLink>, run: LinkRun, link: BookmarkLink)
    requires IsKnown(x, stored, seen, run.known)
    ensures var entries := PreviewOne(x, run, link).entries;
            |entries| == |run.entries| + 1 && entries[..|run.entries|] == run.entries &&
            IsEntry(x, stored, seen, link, entries[|run.entries|])
  {
  }

  lemma EntriesNext(x: Text, stored: seq<Link>, links: seq<BookmarkLink>, entries: seq<PreviewLink>,
                    link: BookmarkLink, entry: PreviewLink)
    requires AreEntries(x, stored, links, entries) && IsEntry(x, stored, links, link, entry)
    ensures AreEntries(x, stored, links + [link], entries + [entry])
  {
    forall k | 0 <= k < |links| + 1
      ensures IsEntry(x, stored, (links + [link])[..k], (links + [link])[k], (entries + [entry])[k])
    {
      assert (links + [link])[..k] == links[..k];
    }
  }

  lemma CountNext(entries: seq<PreviewLink>, entry: PreviewLink, status: Status)
    ensures Count(entries + [entry], status) == Count(entries, status) + if entry.status == status then 1 else 0
  {
    assert (entries + [entry])[..|entries|] == entries;
  }

  /** The dry run has come so far: it has entries for the links `seen`. */
  ghost predicate Listed(x: Text, stored: seq<Link>, seen: seq<BookmarkLink>, entries: seq<PreviewLink>,
                         known: map<string, string>, s: Summary) {
    IsKnown(x, stored, seen, known) && AreEntries(x, stored, seen, entries) && CountsEntries(s, entries)
  }

  lemma CountsNext(x: Text, before: seq<PreviewLink>, run: LinkRun, link: BookmarkLink, entry: PreviewLink)
    requires CountsEntries(run.summary, before + run.entries)
    requires |PreviewOne(x, run, link).entries| == |run.entries| + 1
    requires entry == PreviewOne(x, run, link).entries[|run.entries|]
    ensures CountsEntries(PreviewOne(x, run, link).summary, before + run.entries + [entry])
    ensures SameCategoryCounts(run.summary, PreviewOne(x, run, link).summary)
  {
    CountNext(before + run.entries, entry, New);
    CountNext(before + run.entries, entry, Duplicate);
    CountNext(before + run.entries, entry, Invalid);
  }

  lemma ListedNext(x: Text, stored: seq<Link>, seen: seq<BookmarkLink>, before: seq<PreviewLink>, run: LinkRun,
                   link: BookmarkLink)
    requires Listed(x, stored, seen, before + run.entries, run.known, run.summary)
    ensures var run' := PreviewOne(x, run, link);
            Listed(x, stored, seen + [link], before + run'.entries, run'.known, run'.summary) &&
            |run'.entries| == |run.entries| + 1 && SameCategoryCounts(run.summary, run'.summary)
  {
    var run' := PreviewOne(x, run, link);
    KnownNext(x, stored, seen, run.known, link);
    EntryIs(x, stored, seen, run, link);
    var entry := run'.entries[|run.entries|];
    assert run'.entries == run.entries + [entry];
    EntriesNext(x, stored, seen, before + run.entries, link, entry);
    CountsNext(x, before, run, link, entry);
    assert before + run'.entries == before + run.entries + [entry];
  }

  lemma {:induction false} LinksListed(x: Text, stored: seq<Link>, seen: seq<BookmarkLink>, before: seq<PreviewLink>,
                                       known: map<string, string>, s: Summary, links: seq<BookmarkLink>)
    requires Listed(x, stored, seen, before, known, s)
    ensures var run := PreviewLinks(x, known, s, links);
            Listed(x, stored, seen + links, before + run.entries, run.known, run.summary) &&
            |run.entries| == |links| && SameCategoryCounts(s, run.summary)
  {
    if links == [] {
      NoLinksListed(x, stored, seen, before, known, s);
    } else {
      var last := |links| - 1;
      LinksListed(x, stored, seen, before, known, s, links[..last]);
      ListedNext(x, stored, seen + links[..last], before, PreviewLinks(x, known, s, links[..last]), links[last]);
      assert seen + links[..last] + [links[last]] == seen + links;
    }
  }

  lemma NoLinksListed(x: Text, stored: seq<Link>, seen: seq<BookmarkLink>, before: seq<PreviewLink>,
                      known: map<string, string>, s: Summary)
    requires Listed(x, stored, seen, before, known, s)
    ensures var run := PreviewLinks(x, known, s, []);
            Listed(x, stored, seen + [], before + run.entries, run.known, run.summary)
  {
    assert seen + [] == seen && before + [] == before;
  }

  /** The dry run has come so far: it has items for the categories `batch`. */
  ghost predicate Itemized(x: Text, groups: seq<Group>, batch: seq<BookmarkCategory>, run: Run) {
    && Listed(x, InOrder(groups), Links(batch), Entries(run.items), run.known, run.summary)
    && AreItems(x, groups, batch, run.items)
    && run.summary.newCategories == CountNew(run.items)
    && run.summary.existingCategories == |run.items| - CountNew(run.items)
  }

  lemma ItemIs(x: Text, groups: seq<Group>, existing: map<string, int>, category: BookmarkCategory,
               item: PreviewCategory)
    requires IsGroupIndex(x, groups, existing) && item.name == category.name && |item.links| == |category.links|
    requires var key := x.key(category.name);
             item.isNew == (key !in existing) && item.existingId == if key in existing then existing[key] else 0
    ensures IsItem(x, groups, category, item)
  {
    var key := x.key(category.name);
    if key in existing { assert FindsLast(x, groups, key, existing[key]); }
  }

  lemma ItemsNext(batch: seq<BookmarkCategory>, items: seq<PreviewCategory>, category: BookmarkCategory,
                  item: PreviewCategory)
    ensures Links(batch + [category]) == Links(batch) + category.links
    ensures Entries(items + [item]) == Entries(items) + item.links
    ensures CountNew(items + [item]) == CountNew(items) + if item.isNew then 1 else 0
  {
    assert (batch + [category])[..|batch|] == batch && (items + [item])[..|items|] == items;
  }

  lemma AreItemsNext(x: Text, groups: seq<Group>, batch: seq<BookmarkCategory>, items: seq<PreviewCategory>,
                     category: BookmarkCategory, item: PreviewCategory)
    requires AreItems(x, groups, batch, items) && IsItem(x, groups, category, item)
    ensures AreItems(x, groups, batch + [category], items + [item])
  {
  }

  lemma ListedSame(x: Text, stored: seq<Link>, seen: seq<BookmarkLink>, entries: seq<PreviewLink>, run: LinkRun,
                   seen': seq<BookmarkLink>, entries': seq<PreviewLink>)
    requires Listed(x, stored, seen, entries, run.known, run.summary) && seen' == seen && entries' == entries
    ensures Listed(x, stored, seen', entries', run.known, run.summary)
  {
  }

  lemma CategoryListed(x: Text, stored: seq<Link>, batch: seq<BookmarkCategory>, items: seq<PreviewCategory>,
                       known: map<string, string>, counted: Summary, category: BookmarkCategory, item: PreviewCategory,
                       links: LinkRun)
    requires Listed(x, stored, Links(batch), Entries(items), known, counted)
    requires links == PreviewLinks(x, known, counted, category.links) && item.links == links.entries
    ensures Listed(x, stored, Links(batch + [category]), Entries(items + [item]), links.known, links.summary)
    ensures SameCategoryCounts(counted, links.summary) && |item.links| == |category.links|
  {
    LinksListed(x, stored, Links(batch), Entries(items), known, counted, category.links);
    ItemsNext(batch, items, category, item);
    ListedSame(x, stored, Links(batch) + category.links, Entries(items) + item.links, links,
               Links(batch + [category]), Entries(items + [item]));
  }

  lemma ItemizedNext(x: Text, groups: seq<Group>, existing: map<string, int>, batch: seq<BookmarkCategory>, run: Run,
                     category: BookmarkCategory)
    requires IsGroupIndex(x, groups, existing) && Itemized(x, groups, batch, run)
    ensures Itemized(x, groups, batch + [category], PreviewCategoryOne(x, existing, run, category))
  {
    var run' := PreviewCategoryOne(x, existing, run, category);
    var item := run'.items[|run.items|];
    assert run'.items == run.items + [item];
    var counted := CountedCategory(existing, x.key(category.name), run.summary);
    CategoryListed(x, InOrder(groups), batch, run.items, run.known, counted, category, item,
                   PreviewLinks(x, run.known, counted, category.links));
    ItemIs(x, groups, existing, category, item);
    AreItemsNext(x, groups, batch, run.items, category, item);
    ItemsNext(batch, run.items, category, item);
  }

  lemma {:induction false} BatchItemized(x: Text, groups: seq<Group>, existing: map<string, int>,
                                         known: map<string, string>, batch: seq<BookmarkCategory>)
    requires IsGroupIndex(x, groups, existing) && IsNameIndex(x, InOrder(groups), known)
    ensures Itemized(x, groups, batch, PreviewAll(x, existing, known, batch))
  {
    if batch == [] {
      NothingItemized(x, groups, known);
    } else {
      var last := |batch| - 1;
      BatchItemized(x, groups, existing, known, batch[..last]);
      assert batch[..last] + [batch[last]] == batch;
      ItemizedNext(x, groups, existing, batch[..last], PreviewAll(x, existing, known, batch[..last]), batch[last]);
    }
  }

  lemma NothingItemized(x: Text, groups: seq<Group>, known: map<string, string>)
    requires IsNameIndex(x, InOrder(groups), known)
    ensures Itemized(x, groups, [], Run(known, NOTHING_SEEN, []))
  {
    KnownFromIndex(x, InOrder(groups), known);
  }

  /** A preview says of every category and every link of the batch what it is. */
  lemma PreviewAnnounces(x: Text, batch: seq<BookmarkCategory>, groups: seq<Group>, preview: Preview)
    requires IsPreview(x, batch, groups, preview)
    ensures Announces(x, batch, groups, preview)
  {
    var existing, known :| IsPreviewFrom(x, batch, groups, preview, existing, known);
    BatchItemized(x, groups, existing, known, batch);
  }

  /** The links of one category, walked against the URLs known so far. */
  method WalkLinks(x: Text, known0: map<string, string>, summary0: Summary, links: seq<BookmarkLink>)
    returns (known: map<string, string>, summary: Summary, entries: seq<PreviewLink>)
    ensures LinkRun(known, summary, entries) == PreviewLinks(x, known0, summary0, links)
  {
    known, summary, entries := known0, summary0, [];
    for l := 0 to |links|
      invariant LinkRun(known, summary, entries) == PreviewLinks(x, known0, summary0, links[..l])
    {
      var link := links[l];
      assert links[..l + 1][..l] == links[..l];
      var canonical := x.canonical(link.fields.url);
      var entry := PreviewLink(link.fields.name, link.fields.url, New, link.problem, "");
      if link.problem != "" {
        entry := entry.(status := Invalid);
        summary := summary.(invalid := summary.invalid + 1);
      } else if canonical in known {
        entry := entry.(status := Duplicate, duplicateOf := known[canonical]);
        summary := summary.(duplicates := summary.duplicates + 1);
      } else {
        known := known[canonical := link.fields.name];
        summary := summary.(unseen := summary.unseen + 1);
      }
      entries := entries + [entry];
    }
    assert links[..|links|] == links;
  }

  /** The batch walked against exact indexes of the stored names and URLs. */
  ghost predicate IsPreviewFrom(x: Text, batch: seq<BookmarkCategory>, groups: seq<Group>, preview: Preview,
                                existing: map<string, int>, known: map<string, string>) {
    && IsGroupIndex(x, groups, existing) && IsNameIndex(x, InOrder(groups), known)
    && var run := PreviewAll(x, existing, known, batch);
       preview == Preview(run.summary, run.items)
  }

  ghost predicate IsPreview(x: Text, batch: seq<BookmarkCategory>, groups: seq<Group>, preview: Preview) {
    exists existing, known :: IsPreviewFrom(x, batch, groups, preview, existing, known)
  }

  lemma IsPreviewOf(x: Text, batch: seq<BookmarkCategory>, groups: seq<Group>, preview: Preview,
                    existing: map<string, int>, known: map<string, string>)
    requires IsPreviewFrom(x, batch, groups, preview, existing, known)
    ensures IsPreview(x, batch, groups, preview) && Announces(x, batch, groups, preview)
  {
    PreviewAnnounces(x, batch, groups, preview);
  }

  /** The categories of the batch, walked against the indexes. */
  method WalkBatch(x: Text, batch: seq<BookmarkCategory>, existing: map<string, int>, known: map<string, string>)
    returns (preview: Preview)
    ensures var run := PreviewAll(x, existing, known, batch); preview == Preview(run.summary, run.items)
  {
    var summary, knownUrls := NOTHING_SEEN, known;
    var items: seq<PreviewCategory> := [];
    for c := 0 to |batch|
      invariant Run(knownUrls, summary, items) == PreviewAll(x, existing, known, batch[..c])
    {
      var category := batch[c];
      assert batch[..c + 1][..c] == batch[..c];
      var key := x.key(category.name);
      var item := PreviewCategory(category.name, true, 0, []);
      if key in existing {
        item := item.(isNew := false, existingId := existing[key]);
        summary := summary.(existingCategories := summary.existingCategories + 1);
      } else {
        summary := summary.(newCategories := summary.newCategories + 1);
      }
      var entries;
      knownUrls, summary, entries := WalkLinks(x, knownUrls, summary, category.links);
      items := items + [item.(links := entries)];
    }
    assert batch[..|batch|] == batch;
    preview := Preview(summary, items);
  }

  /** First the stored names and URLs are indexed, then the batch is walked against them. */
  method BuildPreview(x: Text, batch: seq<BookmarkCategory>, groups: seq<Group>) returns (preview: Preview)
    ensures IsPreview(x, batch, groups, preview) && Announces(x, batch, groups, preview)
  {
    var existing, known := IndexGroups(x, groups);
    preview := WalkBatch(x, batch, existing, known);
    IsPreviewOf(x, batch, groups, preview, existing, known);
  }

  /** The list and the batch determine the preview. */
  lemma PreviewUnique(x: Text, batch: seq<BookmarkCategory>, groups: seq<Group>, a: Preview, b: Preview)
    requires IsPreview(x, batch, groups, a) && IsPreview(x, batch, groups, b)
    ensures a == b
  {
    var e1, k1 :| IsPreviewFrom(x, batch, groups, a, e1, k1);
    var e2, k2 :| IsPreviewFrom(x, batch, groups, b, e2, k2);
    IndexesUnique(x, groups, e1, k1, e2, k2);
  }

  // ---- The preview predicts the commit -----------------------------------------------------

  /** The commit's link counters, moved on by `after - before`, are what the preview counted. */
  ghost predicate Agrees(strategy: Strategy, commit: CommitResult, commit': CommitResult, s: Summary, s': Summary) {
    && commit'.invalidLinks - commit.invalidLinks == s'.invalid - s.invalid
    && match strategy
       case Skip =>
         && commit'.createdLinks - commit.createdLinks == s'.unseen - s.unseen
         && commit'.skippedLinks - commit.skippedLinks == s'.duplicates - s.duplicates
         && commit'.updatedLinks == commit.updatedLinks
       case Update =>
         && commit'.createdLinks - commit.createdLinks == s'.unseen - s.unseen
         && commit'.updatedLinks - commit.updatedLinks == s'.duplicates - s.duplicates
         && commit'.skippedLinks == commit.skippedLinks
       case Create =>
         && commit'.createdLinks - commit.createdLinks == s'.unseen - s.unseen + s'.duplicates - s.duplicates
         && commit'.updatedLinks == commit.updatedLinks && commit'.skippedLinks == commit.skippedLinks
  }

  ghost predicate SameCategoryCounts(s: Summary, s': Summary) {
    s'.newCategories == s.newCategories && s'.existingCategories == s.existingCategories
  }

  /** One link moves the counters of both on alike. */
  lemma LinkAgrees(x: Text, first: CommitResult, st: ImportState, categoryId: int, s: Summary, run: LinkRun,
                   link: BookmarkLink, strategy: Strategy)
    requires Agrees(strategy, first, st.result, s, run.summary) && run.known.Keys == st.links.Keys
    ensures var done, run' := ImportLink(x, st, categoryId, link, strategy), PreviewOne(x, run, link);
            Agrees(strategy, first, done.result, s, run'.summary) && SameCategoryCounts(run.summary, run'.summary) &&
            run'.known.Keys == done.links.Keys && done.categories == st.categories &&
            done.result.createdCategories == st.result.createdCategories
  {
    if link.problem == "" {
      if x.canonical(link.fields.url) in st.links {
        DuplicateAgrees(x, first, st, categoryId, s, run, link, strategy);
      } else {
        NewAgrees(x, first, st, categoryId, s, run, link, strategy);
      }
    }
  }

  lemma DuplicateAgrees(x: Text, first: CommitResult, st: ImportState, categoryId: int, s: Summary, run: LinkRun,
                        link: BookmarkLink, strategy: Strategy)
    requires Agrees(strategy, first, st.result, s, run.summary) && run.known.Keys == st.links.Keys
    requires link.problem == "" && x.canonical(link.fields.url) in st.links
    ensures var done, run' := ImportLink(x, st, categoryId, link, strategy), PreviewOne(x, run, link);
            Agrees(strategy, first, done.result, s, run'.summary) && run'.known.Keys == done.links.Keys
  {
    assert x.canonical(link.fields.url) in run.known.Keys;
  }

  lemma NewAgrees(x: Text, first: CommitResult, st: ImportState, categoryId: int, s: Summary, run: LinkRun,
                  link: BookmarkLink, strategy: Strategy)
    requires Agrees(strategy, first, st.result, s, run.summary) && run.known.Keys == st.links.Keys
    requires link.problem == "" && x.canonical(link.fields.url) !in st.links
    ensures var done, run' := ImportLink(x, st, categoryId, link, strategy), PreviewOne(x, run, link);
            Agrees(strategy, first, done.result, s, run'.summary) && run'.known.Keys == done.links.Keys
  {
    assert x.canonical(link.fields.url) !in run.known.Keys;
  }

  lemma {:induction false} LinksAgree(x: Text, st: ImportState, categoryId: int, known: map<string, string>,
                                      s: Summary, links: seq<BookmarkLink>, strategy: Strategy)
    requires known.Keys == st.links.Keys
    ensures var done, run := ImportLinks(x, st, categoryId, links, strategy), PreviewLinks(x, known, s, links);
            Agrees(strategy, st.result, done.result, s, run.summary) && SameCategoryCounts(s, run.summary) &&
            run.known.Keys == done.links.Keys && done.categories == st.categories &&
            done.result.createdCategories == st.result.createdCategories
  {
    if links != [] {
      LinksAgree(x, st, categoryId, known, s, links[..|links| - 1], strategy);
      LinkAgrees(x, st.result, ImportLinks(x, st, categoryId, links[..|links| - 1], strategy), categoryId, s,
                 PreviewLinks(x, known, s, links[..|links| - 1]), links[|links| - 1], strategy);
    }
  }

  lemma {:induction false} InvalidLinksCounted(x: Text, known: map<string, string>, s: Summary,
                                               links: seq<BookmarkLink>)
    requires forall i :: 0 <= i < |links| ==> links[i].problem != ""
    ensures var run := PreviewLinks(x, known, s, links);
            run.known == known && run.summary == s.(invalid := s.invalid + |links|)
  {
    if links != [] { InvalidLinksCounted(x, known, s, links[..|links| - 1]); }
  }

  /** Categories the preview calls new although no link can ever be put in them. */
  function UnusableNew(x: Text, stored: set<string>, batch: seq<BookmarkCategory>): nat {
    if batch == [] then 0
    else
      var category := batch[|batch| - 1];
      UnusableNew(x, stored, batch[..|batch| - 1]) +
      (if x.key(category.name) !in stored && !ValidCategoryName(category.name) then 1 else 0)
  }

  /** Keys the commit knows: the stored ones and those of the usable categories seen so far. */
  ghost predicate KnowsKeys(x: Text, categories: map<string, int>, existing: map<string, int>,
                            seen: seq<BookmarkCategory>) {
    forall key :: key in categories <==>
      key in existing || exists i :: 0 <= i < |seen| && ValidCategoryName(seen[i].name) && x.key(seen[i].name) == key
  }

  ghost predicate Predicts(x: Text, stored: set<string>, batch: seq<BookmarkCategory>, strategy: Strategy,
                           commit: CommitResult, s: Summary) {
    && Agrees(strategy, NOTHING_YET, commit, NOTHING_SEEN, s)
    && commit.createdCategories + UnusableNew(x, stored, batch) == s.newCategories
    && s.newCategories + s.existingCategories == |batch|
  }

  function CountedCategory(existing: map<string, int>, key: string, s: Summary): Summary {
    if key !in existing then s.(newCategories := s.newCategories + 1)
    else s.(existingCategories := s.existingCategories + 1)
  }

  lemma KnowsKeysStep(x: Text, categories: map<string, int>, categories': map<string, int>,
                      existing: map<string, int>, seen: seq<BookmarkCategory>, category: BookmarkCategory)
    requires KnowsKeys(x, categories, existing, seen)
    requires categories'.Keys ==
             categories.Keys + (if ValidCategoryName(category.name) then {x.key(category.name)} else {})
    ensures KnowsKeys(x, categories', existing, seen + [category])
  {
    var batch := seen + [category];
    forall key ensures key in categories' <==>
      key in existing || exists i :: 0 <= i < |batch| && ValidCategoryName(batch[i].name) && x.key(batch[i].name) == key
    {
      assert key in categories'.Keys <==>
             key in categories || (ValidCategoryName(category.name) && key == x.key(category.name));
      if i :| 0 <= i < |seen| && ValidCategoryName(seen[i].name) && x.key(seen[i].name) == key {
        assert batch[i] == seen[i];
      }
      if ValidCategoryName(category.name) && key == x.key(category.name) {
        assert batch[|seen|] == category;
      }
    }
  }

  /** With distinct keys, a key is known before its category exactly if it was stored. */
  lemma KeyIsStored(x: Text, categories: map<string, int>, existing: map<string, int>, seen: seq<BookmarkCategory>,
                    category: BookmarkCategory)
    requires KnowsKeys(x, categories, existing, seen) && UniqueKeys(x.key, seen + [category])
    ensures x.key(category.name) in categories <==> x.key(category.name) in existing
  {
    var batch := seen + [category];
    forall i | 0 <= i < |seen| ensures x.key(seen[i].name) != x.key(category.name) {
      assert batch[i] == seen[i] && batch[|seen|] == category;
    }
  }

  lemma PredictLinks(x: Text, st: ImportState, existing: map<string, int>, run: Run, category: BookmarkCategory,
                     options: Options)
    requires run.known.Keys == st.links.Keys
    requires x.key(category.name) in st.categories <==> x.key(category.name) in existing
    requires !ValidCategoryName(category.name) ==>
             forall i :: 0 <= i < |category.links| ==> category.links[i].problem != ""
    ensures var st', key := ImportCategory(x, st, category, options), x.key(category.name);
            var run' := PreviewCategoryOne(x, existing, run, category);
            && Agrees(options.duplicates, st.result, st'.result, run.summary, run'.summary)
            && SameCategoryCounts(CountedCategory(existing, key, run.summary), run'.summary)
            && run'.known.Keys == st'.links.Keys
            && st'.categories.Keys == st.categories.Keys + (if ValidCategoryName(category.name) then {key} else {})
            && st'.result.createdCategories ==
               st.result.createdCategories + (if key !in existing && ValidCategoryName(category.name) then 1 else 0)
  {
    var key := x.key(category.name);
    var counted := CountedCategory(existing, key, run.summary);
    if ValidCategoryName(category.name) {
      var grouped := EnsureGroup(x, st, category, options);
      LinksAgree(x, grouped, grouped.categories[key], run.known, counted, category.links, options.duplicates);
    } else {
      InvalidLinksCounted(x, run.known, counted, category.links);
    }
  }

  lemma PredictCategory(x: Text, st: ImportState, existing: map<string, int>, run: Run, seen: seq<BookmarkCategory>,
                        category: BookmarkCategory, options: Options)
    requires Predicts(x, existing.Keys, seen, options.duplicates, st.result, run.summary)
    requires run.known.Keys == st.links.Keys && KnowsKeys(x, st.categories, existing, seen)
    requires IsNormalized(x, seen + [category])
    ensures var st', run' := ImportCategory(x, st, category, options), PreviewCategoryOne(x, existing, run, category);
            Predicts(x, existing.Keys, seen + [category], options.duplicates, st'.result, run'.summary) &&
            run'.known.Keys == st'.links.Keys && KnowsKeys(x, st'.categories, existing, seen + [category])
  {
    var batch := seen + [category];
    assert batch[..|seen|] == seen && batch[|seen|] == category;
    KeyIsStored(x, st.categories, existing, seen, category);
    PredictLinks(x, st, existing, run, category, options);
    KnowsKeysStep(x, st.categories, ImportCategory(x, st, category, options).categories, existing, seen, category);
  }

  lemma {:induction false} PreviewPredictsFrom(x: Text, st: ImportState, existing: map<string, int>,
                                               known: map<string, string>, batch: seq<BookmarkCategory>,
                                               options: Options)
    requires st.result == NOTHING_YET && existing.Keys == st.categories.Keys && known.Keys == st.links.Keys
    requires IsNormalized(x, batch)
    ensures var done, run := Import(x, st, batch, options), PreviewAll(x, existing, known, batch);
            Predicts(x, existing.Keys, batch, options.duplicates, done.result, run.summary) &&
            run.known.Keys == done.links.Keys && KnowsKeys(x, done.categories, existing, batch)
  {
    if batch != [] {
      var last := |batch| - 1;
      assert IsNormalized(x, batch[..last]) by {
        forall i | 0 <= i < last ensures batch[..last][i] == batch[i] {}
      }
      PreviewPredictsFrom(x, st, existing, known, batch[..last], options);
      assert batch[..last] + [batch[last]] == batch;
      PredictCategory(x, Import(x, st, batch[..last], options), existing, PreviewAll(x, existing, known, batch[..last]),
                      batch[..last], batch[last], options);
    }
  }

  lemma CategoryKeys(x: Text, nav: seq<Group>, a: map<string, int>, b: map<string, int>)
    requires IsCategoryIndex(x, nav, a) && IsCategoryIndex(x, nav, b)
    ensures a.Keys <= b.Keys
  {
    forall key | key in a ensures key in b { assert HasCategory(x, nav, a[key], key); }
  }

  lemma {:induction false} InOrderMembers(groups: seq<Group>)
    ensures forall link :: link in InOrder(groups) <==> link in AllLinks(groups)
  {
    if groups != [] {
      var last := |groups| - 1;
      InOrderMembers(groups[..last]);
      assert groups == groups[..last] + [groups[last]];
    }
  }

  lemma UrlKeys(x: Text, groups: seq<Group>, links: map<string, int>, known: map<string, string>)
    requires IsLinkIndex(x, AllLinks(groups), links) && IsNameIndex(x, InOrder(groups), known)
    ensures known.Keys == links.Keys
  {
    InOrderMembers(groups);
    forall c | c in known ensures c in links {
      assert NamesLast(x, InOrder(groups), c, known[c]);
      var l: nat :| IsLastLink(x, InOrder(groups), c, l);
      assert InOrder(groups)[l] in AllLinks(groups);
    }
    forall c | c in links ensures c in known {
      assert HasLink(x, AllLinks(groups), links[c], c);
      var link :| link in AllLinks(groups) && link.id == links[c] && x.canonical(link.fields.url) == c;
      assert link in InOrder(groups);
    }
  }

  lemma GroupKeys(x: Text, groups: seq<Group>, existing: map<string, int>)
    requires IsGroupIndex(x, groups, existing)
    ensures IsCategoryIndex(x, groups, existing)
  {
    forall key | key in existing ensures HasCategory(x, groups, existing[key], key) {
      assert FindsLast(x, groups, key, existing[key]);
      var g: nat :| IsLastGroup(x, groups, key, g) && groups[g].category.id == existing[key];
      assert groups[g] in groups;
    }
  }

  /** The preview and the commit know the same keys and URLs. */
  lemma PreviewKeys(x: Text, nav: seq<Group>, st: ImportState, existing: map<string, int>, known: map<string, string>)
    requires IsStart(x, st, nav) && IsGroupIndex(x, nav, existing) && IsNameIndex(x, InOrder(nav), known)
    ensures existing.Keys == st.categories.Keys && known.Keys == st.links.Keys
  {
    GroupKeys(x, nav, existing);
    CategoryKeys(x, nav, existing, st.categories);
    CategoryKeys(x, nav, st.categories, existing);
    UrlKeys(x, nav, st.links, known);
  }

  /** On the same list and a normalised batch, what the preview announces is what the commit does. */
  lemma PreviewPredictsCommit(x: Text, nav: seq<Group>, st: ImportState, preview: Preview, raw: seq<BookmarkCategory>,
                              options: Options)
    requires x.Lawful() && IsStart(x, st, nav) && IsPreview(x, Normalize(x, raw), nav, preview)
    ensures var batch := Normalize(x, raw);
            Predicts(x, st.categories.Keys, batch, options.duplicates, Import(x, st, batch, options).result,
                     preview.summary)
  {
    var existing, known :| IsPreviewFrom(x, Normalize(x, raw), nav, preview, existing, known);
    NormalizeEstablishes(x, raw);
    PreviewKeys(x, nav, st, existing, known);
    PreviewPredictsFrom(x, st, existing, known, Normalize(x, raw), options);
  }

  function NamelessBatch(): seq<BookmarkCategory> { [BookmarkCategory("", "", "", [])] }

  lemma NamelessPreview(x: Text)
    ensures PreviewAll(x, map[], map[], NamelessBatch()).summary == Summary(0, 0, 0, 1, 0)
  {
    assert NamelessBatch()[..0] == [];
  }

  lemma NamelessImport(x: Text, st: ImportState, options: Options)
    ensures Import(x, st, NamelessBatch(), options) == st
  {
    assert NamelessBatch()[..0] == [];
  }

  /** A category without a name, previewed and imported into nothing: announced as new, not created. */
  lemma NamelessCategoryIsAnnounced(x: Text, st: ImportState, preview: Preview, options: Options)
    requires IsStart(x, st, []) && IsPreview(x, NamelessBatch(), [], preview)
    ensures preview.summary.newCategories == 1
    ensures Import(x, st, NamelessBatch(), options).result.createdCategories == 0
  {
    var existing, known :| IsPreviewFrom(x, NamelessBatch(), [], preview, existing, known);
    IndexesUnique(x, [], existing, known, map[], map[]);
    NamelessPreview(x);
    NamelessImport(x, st, options);
  }
}
