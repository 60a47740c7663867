/** The two export formats, and what importing an export gives back. */
module BookmarkExport {
  import opened Navigation
  import opened Bookmarks
  import opened BookmarkCommit
  import opened BookmarkImport
  import ImportLedger
  import opened BookmarkParser

  datatype Scope = All | PublicOnly | PrivateOnly

  predicate InScope(group: Group, scope: Scope) {
    match scope
    case All => true
    case PublicOnly => group.category.visibility == Public
    case PrivateOnly => group.category.visibility == Private
  }

  function Scoped(groups: seq<Group>, scope: Scope): seq<Group> {
    if groups == [] then []
    else
      var last := |groups| - 1;
      Scoped(groups[..last], scope) + (if InScope(groups[last], scope) then [groups[last]] else [])
  }

  /** What each scope shows. */
  function Shown(scope: Scope): set<Visibility> {
    match scope
    case All => {Public, Private}
    case PublicOnly => {Public}
    case PrivateOnly => {Private}
  }

  lemma {:induction false} ScopedIsSelection(groups: seq<Group>, scope: Scope)
    ensures IsSelection(groups, Shown(scope), Scoped(groups, scope))
  {
    if groups == [] {
      NothingSelected(Shown(scope));
    } else {
      var last := |groups| - 1;
      ScopedIsSelection(groups[..last], scope);
      assert groups[last].category.visibility.Public? || groups[last].category.visibility.Private?;
      SelectionStep(groups[..last], Shown(scope), Scoped(groups[..last], scope), groups[last]);
      assert groups[..last] + [groups[last]] == groups;
    }
  }

  /** The groups of the scope, in their order. */
  method ExportGroups(groups: seq<Group>, scope: Scope) returns (filtered: seq<Group>)
    ensures filtered == Scoped(groups, scope)
    ensures scope == All ==> filtered == groups
    ensures scope == PublicOnly ==> IsSelection(groups, {Public}, filtered)
    ensures scope == PrivateOnly ==> IsSelection(groups, {Private}, filtered)
  {
    ScopedIsSelection(groups, scope);
    if scope == All {
      AllInScope(groups);
      return groups;
    }
    filtered := [];
    for i := 0 to |groups|
      invariant filtered == Scoped(groups[..i], scope)
    {
      assert groups[..i + 1][..i] == groups[..i];
      if InScope(groups[i], scope) { filtered := filtered + [groups[i]]; }
    }
    assert groups[..|groups|] == groups;
  }

  lemma {:induction false} AllInScope(groups: seq<Group>)
    ensures Scoped(groups, All) == groups
  {
    if groups != [] {
      var last := |groups| - 1;
      AllInScope(groups[..last]);
      assert groups[..last] + [groups[last]] == groups;
    }
  }

  // ---- JSON ----------------------------------------------------------------------------------

  function ExportedLinks(links: seq<Link>): seq<BookmarkLink> {
    seq(|links|, i requires 0 <= i < |links| => BookmarkLink(links[i].fields, ""))
  }

  function VisibilityName(visibility: Visibility): string {
    match visibility case Public => "public" case Private => "private"
  }

  function ExportedCategory(group: Group): BookmarkCategory {
    BookmarkCategory(group.category.name, group.category.iconName, VisibilityName(group.category.visibility),
                     ExportedLinks(group.links))
  }

  function Exported(groups: seq<Group>): seq<BookmarkCategory> {
    seq(|groups|, i requires 0 <= i < |groups| => ExportedCategory(groups[i]))
  }

  /** The category as it is in the list, with every link in order and no problem. */
  ghost predicate Describes(category: BookmarkCategory, group: Group) {
    && Carries(category, group)
    && category.visibility == if group.category.visibility == Private then "private" else "public"
  }

  /** The categories of the JSON document. */
  method ExportJson(groups: seq<Group>) returns (categories: seq<BookmarkCategory>)
    ensures categories == Exported(groups)
    ensures |categories| == |groups| && forall i :: 0 <= i < |groups| ==> Describes(categories[i], groups[i])
  {
    categories := [];
    for g := 0 to |groups|
      invariant |categories| == g && forall i :: 0 <= i < g ==> categories[i] == ExportedCategory(groups[i])
    {
      var group := groups[g];
      var links: seq<BookmarkLink> := [];
      for l := 0 to |group.links|
        invariant |links| == l && forall i :: 0 <= i < l ==> links[i] == BookmarkLink(group.links[i].fields, "")
      {
        links := links + [BookmarkLink(group.links[l].fields, "")];
      }
      assert links == ExportedLinks(group.links);
      categories := categories +
        [BookmarkCategory(group.category.name, group.category.iconName, VisibilityName(group.category.visibility),
                          links)];
    }
  }

  /** A stored link that was normalised when it was written and is still valid. */
  ghost predicate IsCleanLink(x: Text, fields: LinkFields, categoryName: string) {
    && x.normalize(fields.name) == fields.name && x.trim(fields.description) == fields.description
    && x.trim(fields.url) == fields.url && fields.iconSource != "" && fields.iconValue != ""
    && LinkProblem(x, fields, categoryName) == ""
  }

  ghost predicate IsCleanGroup(x: Text, group: Group) {
    && x.normalize(group.category.name) == group.category.name && ValidCategoryName(group.category.name)
    && forall i :: 0 <= i < |group.links| ==> IsCleanLink(x, group.links[i].fields, group.category.name)
  }

  ghost predicate IsClean(x: Text, nav: seq<Group>) {
    && (forall i :: 0 <= i < |nav| ==> IsCleanGroup(x, nav[i]))
    && (forall i, j :: 0 <= i < j < |nav| ==> x.key(nav[i].category.name) != x.key(nav[j].category.name))
  }

  /** Normalising an export changes nothing. */
  lemma ExportIsNormal(x: Text, nav: seq<Group>)
    requires IsClean(x, nav)
    ensures Normalize(x, Exported(nav)) == Exported(nav)
  {
    var categories := Exported(nav);
    forall i | 0 <= i < |categories| ensures NormalizeCategory(x, categories[i]) == categories[i] {
      assert IsCleanGroup(x, nav[i]);
      forall l | 0 <= l < |categories[i].links|
        ensures NormalizeLink(x, categories[i].links[l], categories[i].name) == categories[i].links[l]
      {
        assert IsCleanLink(x, nav[i].links[l].fields, nav[i].category.name);
      }
      assert NormalizeLinks(x, categories[i].links, categories[i].name) == categories[i].links;
    }
    assert NormalizeCategories(x, categories) == categories;
    MergeDistinct(x.key, categories);
  }

  /** `a` and `b` agree on everything but ids, slugs and visibility. */
  ghost predicate SameContent(a: Group, b: Group) {
    && a.category.name == b.category.name && a.category.iconName == b.category.iconName
    && SameFields(a.links, b.links)
  }

  ghost predicate SameFields(a: seq<Link>, b: seq<Link>) {
    |a| == |b| && forall i :: 0 <= i < |a| ==> a[i].fields == b[i].fields
  }

  /** Creating links in the last category appends them there and touches nothing else. */
  lemma {:induction false} CreateInLast(x: Text, st: ImportState, links: seq<BookmarkLink>)
    requires st.nav != []
    requires forall i :: 0 <= i < |st.nav| - 1 ==> st.nav[i].category.id != st.nav[|st.nav| - 1].category.id
    requires forall i :: 0 <= i < |links| ==> links[i].problem == ""
    ensures var last := |st.nav| - 1;
            var st' := ImportLinks(x, st, st.nav[last].category.id, links, Create);
            && |st'.nav| == |st.nav| && st'.nav[..last] == st.nav[..last]
            && st'.nav[last].category == st.nav[last].category
            && |st'.nav[last].links| == |st.nav[last].links| + |links|
            && st'.nav[last].links[..|st.nav[last].links|] == st.nav[last].links
            && (forall i :: 0 <= i < |links| ==>
                st'.nav[last].links[|st.nav[last].links| + i].fields == links[i].fields)
            && st'.lastCategoryId == st.lastCategoryId && st'.categories == st.categories
  {
    if links != [] {
      CreateInLast(x, st, links[..|links| - 1]);
    }
  }

  /** The state after the first `n` categories of an export have been imported into an empty store. */
  ghost predicate Rebuilt(x: Text, st: ImportState, nav: seq<Group>, n: nat, base: int) {
    && n <= |nav| && |st.nav| == n && st.lastCategoryId == base + n
    && (forall i :: 0 <= i < n ==> SameContent(st.nav[i], nav[i]))
    && (forall i :: 0 <= i < n ==> st.nav[i].category.id == base + i + 1)
    && (forall key :: key in st.categories ==> exists i :: 0 <= i < n && x.key(nav[i].category.name) == key)
  }

  /** What can be stored: valid names, no two with the same key. */
  ghost predicate IsStorable(x: Text, nav: seq<Group>) {
    && (forall i :: 0 <= i < |nav| ==> ValidCategoryName(nav[i].category.name))
    && (forall i, j :: 0 <= i < j < |nav| ==> x.key(nav[i].category.name) != x.key(nav[j].category.name))
  }

  lemma CleanIsStorable(x: Text, nav: seq<Group>)
    requires IsClean(x, nav)
    ensures IsStorable(x, nav)
  {
    forall i | 0 <= i < |nav| ensures ValidCategoryName(nav[i].category.name) { assert IsCleanGroup(x, nav[i]); }
  }

  /** The category holds the links of the group, all of them valid. */
  ghost predicate Carries(category: BookmarkCategory, group: Group) {
    && category.name == group.category.name && category.iconName == group.category.iconName
    && CarriesLinks(category.links, group.links)
  }

  ghost predicate CarriesLinks(a: seq<BookmarkLink>, b: seq<Link>) {
    |a| == |b| && forall i :: 0 <= i < |a| ==> a[i] == BookmarkLink(b[i].fields, "")
  }

  ghost predicate CarriesAll(batch: seq<BookmarkCategory>, nav: seq<Group>) {
    |batch| == |nav| && forall i :: 0 <= i < |batch| ==> Carries(batch[i], nav[i])
  }

  lemma CreatedContent(x: Text, grouped: ImportState, links: seq<BookmarkLink>, group: Group)
    requires grouped.nav != [] && CarriesLinks(links, group.links)
    requires forall i :: 0 <= i < |grouped.nav| - 1 ==>
             grouped.nav[i].category.id != grouped.nav[|grouped.nav| - 1].category.id
    requires var newest := grouped.nav[|grouped.nav| - 1];
             newest.links == [] && newest.category.name == group.category.name &&
               newest.category.iconName == group.category.iconName
    ensures var last := |grouped.nav| - 1;
            var done := ImportLinks(x, grouped, grouped.nav[last].category.id, links, Create);
            && |done.nav| == |grouped.nav| && done.nav[..last] == grouped.nav[..last]
            && SameContent(done.nav[last], group) && done.nav[last].category == grouped.nav[last].category
            && done.lastCategoryId == grouped.lastCategoryId && done.categories == grouped.categories
  {
    var last := |grouped.nav| - 1;
    CreateInLast(x, grouped, links);
    var done := ImportLinks(x, grouped, grouped.nav[last].category.id, links, Create);
    forall l | 0 <= l < |group.links| ensures done.nav[last].links[l].fields == group.links[l].fields {
      assert done.nav[last].links[0 + l].fields == links[l].fields;
    }
  }

  lemma NewKey(x: Text, st: ImportState, nav: seq<Group>, n: nat, base: int)
    requires IsStorable(x, nav) && n < |nav| && Rebuilt(x, st, nav, n, base)
    ensures x.key(nav[n].category.name) !in st.categories
  {
  }

  lemma RebuildOne(x: Text, st: ImportState, category: BookmarkCategory, nav: seq<Group>, n: nat, base: int,
                   options: Options)
    requires IsStorable(x, nav) && n < |nav| && Rebuilt(x, st, nav, n, base) && options.duplicates == Create
    requires Carries(category, nav[n])
    ensures Rebuilt(x, ImportCategory(x, st, category, options), nav, n + 1, base)
  {
    NewKey(x, st, nav, n, base);
    var grouped := EnsureGroup(x, st, category, options);
    assert grouped.nav[..n] == st.nav;
    CreatedContent(x, grouped, category.links, nav[n]);
    RebuiltStep(x, st, nav, n, base, ImportCategory(x, st, category, options));
  }

  lemma RebuiltStep(x: Text, st: ImportState, nav: seq<Group>, n: nat, base: int, st': ImportState)
    requires n < |nav| && Rebuilt(x, st, nav, n, base)
    requires |st'.nav| == n + 1 && st'.lastCategoryId == base + n + 1 && st'.nav[..n] == st.nav
    requires SameContent(st'.nav[n], nav[n]) && st'.nav[n].category.id == base + n + 1
    requires st'.categories.Keys == st.categories.Keys + {x.key(nav[n].category.name)}
    ensures Rebuilt(x, st', nav, n + 1, base)
  {
    forall i | 0 <= i < n ensures st'.nav[i] == st.nav[i] { assert st'.nav[i] == st'.nav[..n][i]; }
    forall key | key in st'.categories ensures exists i :: 0 <= i < n + 1 && x.key(nav[i].category.name) == key {
      assert key in st'.categories.Keys;
      if key in st.categories {
        var i :| 0 <= i < n && x.key(nav[i].category.name) == key;
      }
    }
  }

  lemma {:induction false} RebuildFrom(x: Text, empty: ImportState, batch: seq<BookmarkCategory>, nav: seq<Group>,
                                       n: nat, options: Options)
    requires IsStorable(x, nav) && CarriesAll(batch, nav) && n <= |nav|
    requires options.duplicates == Create && IsEmpty(empty)
    ensures Rebuilt(x, Import(x, empty, batch[..n], options), nav, n, empty.lastCategoryId)
  {
    if n > 0 {
      RebuildFrom(x, empty, batch, nav, n - 1, options);
      var prefix := batch[..n];
      assert prefix[..n - 1] == batch[..n - 1];
      ImportLedger.ImportLast(x, empty, prefix, options);
      RebuildOne(x, Import(x, empty, prefix[..n - 1], options), prefix[n - 1], nav, n - 1, empty.lastCategoryId,
                 options);
    }
  }

  /** Importing a batch that carries a list into an empty store gives that list. */
  lemma RebuildAll(x: Text, empty: ImportState, batch: seq<BookmarkCategory>, nav: seq<Group>, options: Options)
    requires IsStorable(x, nav) && CarriesAll(batch, nav) && options.duplicates == Create && IsEmpty(empty)
    ensures var restored := Import(x, empty, batch, options).nav;
            |restored| == |nav| && forall i :: 0 <= i < |nav| ==> SameContent(restored[i], nav[i])
  {
    RebuildFrom(x, empty, batch, nav, |nav|, options);
    assert batch[..|nav|] == batch;
  }

  /** Nothing stored; ids may have been used before. */
  ghost predicate IsEmpty(st: ImportState) {
    st.nav == [] && st.categories == map[] && st.links == map[]
  }

  /** An import into tables without rows starts from an empty state. */
  lemma EmptyStart(x: Text, t: Tables, categories: map<string, int>, links: map<string, int>)
    requires t.categories == map[] && t.links == map[] && IsCategoryMap(x, t, categories) && IsLinkMap(x, t, links)
    ensures IsEmpty(Start(t, categories, links))
  {
    assert IsView(t, []);
    ViewUnique(t, []);
    assert categories.Keys == {} && links.Keys == {};
  }

  /** Exporting everything as JSON and importing it into an empty store gives the same
      categories and links in the same order. */
  lemma JsonRoundTrip(x: Text, empty: ImportState, nav: seq<Group>, options: Options)
    requires IsClean(x, nav) && options.duplicates == Create && IsEmpty(empty)
    ensures var restored := Import(x, empty, Normalize(x, Exported(nav)), options).nav;
            |restored| == |nav| && forall i :: 0 <= i < |nav| ==> SameContent(restored[i], nav[i])
  {
    ExportIsNormal(x, nav);
    CleanIsStorable(x, nav);
    RebuildAll(x, empty, Exported(nav), nav, options);
  }

  // ---- HTML ----------------------------------------------------------------------------------

  // Literal text of the file: blanks, line ends and the title; every other tag is markup.
  const TITLE: seq<Filler> := [Markup, Blank("iiiu-nav Bookmarks"), Markup, Blank("\n")]

  const PROLOGUE: seq<Filler> := [Markup, Blank("\n"), Markup, Blank("\n")] + TITLE + TITLE

  /** The lines of the links of one folder, up to the indentation of its closing tag. */
  function ExportAnchors(links: seq<Link>): Forest {
    if links == [] then Noise(Blank("  "), Empty)
    else
      var fields, rest := links[0].fields, ExportAnchors(links[1..]);
      Noise(Blank("    "), Noise(Markup, Anchor(fields.url, [fields.name], Noise(Blank("\n"),
        if fields.description == "" then rest
        else Noise(Blank("    "), Noise(Markup, Noise(Blank(fields.description + "\n"), rest)))))))
  }

  function ExportForest(groups: seq<Group>): Forest {
    if groups == [] then Empty
    else
      var inside := Noise(Markup, Noise(Blank("\n"), ExportAnchors(groups[0].links)));
      var after := Noise(Markup, Noise(Blank("\n"), ExportForest(groups[1..])));
      Noise(Blank("  "), Noise(Markup, Folder([groups[0].category.name], [Blank("\n  ")], inside, after)))
  }

  function ExportHtml(groups: seq<Group>): seq<Token> {
    Document(PROLOGUE, Noise(Markup, Noise(Blank("\n"), ExportForest(groups))), [Markup, Blank("\n")])
  }

  function LinkLine(fields: LinkFields): seq<Token> {
    [TextRun("    "), OtherTag, StartA(fields.url), TextRun(fields.name), EndA, TextRun("\n")]
  }

  function DescriptionLine(description: string): seq<Token> {
    [TextRun("    "), OtherTag, TextRun(description + "\n")]
  }

  function FolderLines(name: string): seq<Token> {
    [TextRun("  "), OtherTag, StartH3, TextRun(name), EndH3, TextRun("\n  "), StartDl, OtherTag, TextRun("\n")]
  }

  const FOLDER_END: seq<Token> := [EndDl, OtherTag, TextRun("\n")]

  /** The writer, one piece of the file after the other. */
  method WriteHtml(groups: seq<Group>) returns (output: seq<Token>)
    ensures output == ExportHtml(groups)
  {
    output := FillerTokens(PROLOGUE) + [StartDl, OtherTag, TextRun("\n")];
    ghost var head := output;
    for g := 0 to |groups|
      invariant output + Tokens(ExportForest(groups[g..])) == head + Tokens(ExportForest(groups))
    {
      ForestTokens(groups[g..]);
      assert groups[g..][1..] == groups[g + 1..];
      output := WriteGroup(output, groups[g]);
    }
    output := output + FOLDER_END;
    DocumentTokens(groups);
  }

  method WriteGroup(before: seq<Token>, group: Group) returns (output: seq<Token>)
    ensures output == before + GroupTokens(group)
  {
    output := before + FolderLines(group.category.name);
    for l := 0 to |group.links|
      invariant output + Tokens(ExportAnchors(group.links[l..])) ==
                before + FolderLines(group.category.name) + Tokens(ExportAnchors(group.links))
    {
      AnchorLines(group.links[l..]);
      assert group.links[l..][1..] == group.links[l + 1..];
      var fields := group.links[l].fields;
      output := output + LinkLine(fields);
      if fields.description != "" { output := output + DescriptionLine(fields.description); }
    }
    assert group.links[|group.links|..] == [];
    NoAnchors();
    output := output + [TextRun("  ")] + FOLDER_END;
  }

  function GroupTokens(group: Group): seq<Token> {
    FolderLines(group.category.name) + Tokens(ExportAnchors(group.links)) + FOLDER_END
  }

  lemma NoAnchors()
    ensures Tokens(ExportAnchors([])) == [TextRun("  ")]
  {
    assert Tokens(Noise(Blank("  "), Empty)) == [TextRun("  ")] + Tokens(Empty);
  }

  lemma NoiseTokens(a: Filler, b: Filler, f: Forest)
    ensures Tokens(Noise(a, Noise(b, f))) == [FillerToken(a), FillerToken(b)] + Tokens(f)
  {
    assert Tokens(Noise(b, f)) == [FillerToken(b)] + Tokens(f);
  }

  lemma LinkTokens(href: string, name: string, end: Filler, f: Forest)
    ensures Tokens(Anchor(href, [name], Noise(end, f))) ==
            [StartA(href), TextRun(name), EndA, FillerToken(end)] + Tokens(f)
  {
    assert Tokens(Noise(end, f)) == [FillerToken(end)] + Tokens(f);
    assert TextTokens([name]) == [TextRun(name)];
  }

  lemma DescribedTokens(description: string, rest: Forest)
    ensures Tokens(Noise(Blank("    "), Noise(Markup, Noise(Blank(description + "\n"), rest)))) ==
            DescriptionLine(description) + Tokens(rest)
  {
    NoiseTokens(Blank("    "), Markup, Noise(Blank(description + "\n"), rest));
  }

  lemma AnchorLine(fields: LinkFields, tail: Forest)
    ensures Tokens(Noise(Blank("    "), Noise(Markup, Anchor(fields.url, [fields.name], Noise(Blank("\n"), tail))))) ==
            LinkLine(fields) + Tokens(tail)
  {
    LinkTokens(fields.url, fields.name, Blank("\n"), tail);
    NoiseTokens(Blank("    "), Markup, Anchor(fields.url, [fields.name], Noise(Blank("\n"), tail)));
  }

  lemma AnchorLines(links: seq<Link>)
    requires links != []
    ensures var fields := links[0].fields;
            Tokens(ExportAnchors(links)) ==
              LinkLine(fields) + (if fields.description == "" then [] else DescriptionLine(fields.description)) +
              Tokens(ExportAnchors(links[1..]))
  {
    var fields, rest := links[0].fields, ExportAnchors(links[1..]);
    DescribedTokens(fields.description, rest);
    AnchorLine(fields, if fields.description == "" then rest
                       else Noise(Blank("    "), Noise(Markup, Noise(Blank(fields.description + "\n"), rest))));
  }

  lemma FolderTokens(name: string, gap: Filler, inside: Forest, after: Forest)
    ensures Tokens(Folder([name], [gap], inside, after)) ==
            [StartH3, TextRun(name), EndH3, FillerToken(gap), StartDl] + Tokens(inside) + [EndDl] + Tokens(after)
  {
    assert TextTokens([name]) == [TextRun(name)] && FillerTokens([gap]) == [FillerToken(gap)];
    assert HeadTokens([name], [gap]) == [StartH3, TextRun(name), EndH3, FillerToken(gap), StartDl];
  }

  lemma GroupLines(name: string, anchors: Forest, others: Forest)
    ensures var inside, after := Noise(Markup, Noise(Blank("\n"), anchors)), Noise(Markup, Noise(Blank("\n"), others));
            Tokens(Noise(Blank("  "), Noise(Markup, Folder([name], [Blank("\n  ")], inside, after)))) ==
              FolderLines(name) + Tokens(anchors) + FOLDER_END + Tokens(others)
  {
    var inside, after := Noise(Markup, Noise(Blank("\n"), anchors)), Noise(Markup, Noise(Blank("\n"), others));
    NoiseTokens(Markup, Blank("\n"), anchors);
    NoiseTokens(Markup, Blank("\n"), others);
    FolderTokens(name, Blank("\n  "), inside, after);
    NoiseTokens(Blank("  "), Markup, Folder([name], [Blank("\n  ")], inside, after));
  }

  lemma ForestTokens(groups: seq<Group>)
    requires groups != []
    ensures Tokens(ExportForest(groups)) == GroupTokens(groups[0]) + Tokens(ExportForest(groups[1..]))
  {
    GroupLines(groups[0].category.name, ExportAnchors(groups[0].links), ExportForest(groups[1..]));
  }

  lemma DocumentTokens(groups: seq<Group>)
    ensures ExportHtml(groups) ==
            FillerTokens(PROLOGUE) + [StartDl, OtherTag, TextRun("\n")] + Tokens(ExportForest(groups)) + FOLDER_END
  {
    var forest := ExportForest(groups);
    assert Tokens(Noise(Blank("\n"), forest)) == [TextRun("\n")] + Tokens(forest);
    assert Tokens(Noise(Markup, Noise(Blank("\n"), forest))) == [OtherTag] + Tokens(Noise(Blank("\n"), forest));
    assert FillerTokens([Markup, Blank("\n")]) == [OtherTag, TextRun("\n")];
  }

  ghost predicate OccursAt(part: seq<Token>, tokens: seq<Token>, k: nat) {
    k + |part| <= |tokens| && tokens[k..k + |part|] == part
  }

  ghost predicate Occurs(part: seq<Token>, tokens: seq<Token>) { exists k: nat :: OccursAt(part, tokens, k) }

  lemma OccursWithin(part: seq<Token>, before: seq<Token>, tokens: seq<Token>, after: seq<Token>)
    requires Occurs(part, tokens)
    ensures Occurs(part, before + tokens + after)
  {
    var k: nat :| OccursAt(part, tokens, k);
    var all, m := before + tokens + after, |before| + k;
    assert all[m..m + |part|] == tokens[k..k + |part|];
    assert OccursAt(part, all, m);
  }

  /** A link in the file: its address and name, and a text with its description if it has one. */
  function LinkPart(fields: LinkFields): seq<Token> {
    [StartA(fields.url), TextRun(fields.name), EndA, TextRun("\n")] +
    if fields.description == "" then [] else [TextRun("    "), OtherTag, TextRun(fields.description + "\n")]
  }

  function Lines(fields: LinkFields): seq<Token> {
    LinkLine(fields) + if fields.description == "" then [] else DescriptionLine(fields.description)
  }

  lemma LinesHold(fields: LinkFields)
    ensures Occurs(LinkPart(fields), Lines(fields))
  {
    assert Lines(fields) == [TextRun("    "), OtherTag] + LinkPart(fields);
    assert OccursAt(LinkPart(fields), Lines(fields), 2);
  }

  lemma OccursFirst(part: seq<Token>, first: seq<Token>, rest: seq<Token>)
    requires Occurs(part, first)
    ensures Occurs(part, first + rest)
  {
    OccursWithin(part, [], first, rest);
    assert [] + first + rest == first + rest;
  }

  lemma OccursAfter(part: seq<Token>, first: seq<Token>, rest: seq<Token>)
    requires Occurs(part, rest)
    ensures Occurs(part, first + rest)
  {
    OccursWithin(part, first, rest, []);
    assert first + rest + [] == first + rest;
  }

  lemma {:induction false} LinkOccurs(links: seq<Link>, l: nat)
    requires l < |links|
    ensures Occurs(LinkPart(links[l].fields), Tokens(ExportAnchors(links)))
  {
    AnchorLines(links);
    var lines, rest := Lines(links[0].fields), Tokens(ExportAnchors(links[1..]));
    assert Tokens(ExportAnchors(links)) == lines + rest;
    if l == 0 {
      LinesHold(links[0].fields);
      OccursFirst(LinkPart(links[0].fields), lines, rest);
    } else {
      LinkOccurs(links[1..], l - 1);
      OccursAfter(LinkPart(links[l].fields), lines, rest);
    }
  }

  lemma {:induction false} GroupOccurs(groups: seq<Group>, g: nat, l: nat)
    requires g < |groups| && l < |groups[g].links|
    ensures Occurs(LinkPart(groups[g].links[l].fields), Tokens(ExportForest(groups)))
  {
    ForestTokens(groups);
    var part, rest := LinkPart(groups[g].links[l].fields), Tokens(ExportForest(groups[1..]));
    if g == 0 {
      LinkOccurs(groups[0].links, l);
      OccursWithin(part, FolderLines(groups[0].category.name), Tokens(ExportAnchors(groups[0].links)), FOLDER_END);
      OccursFirst(part, GroupTokens(groups[0]), rest);
    } else {
      GroupOccurs(groups[1..], g - 1, l);
      OccursAfter(part, GroupTokens(groups[0]), rest);
    }
  }

  /** Every link is in the file, with its address, its name and its description. */
  lemma HtmlHoldsLinks(groups: seq<Group>, g: nat, l: nat)
    requires g < |groups| && l < |groups[g].links|
    ensures Occurs(LinkPart(groups[g].links[l].fields), ExportHtml(groups))
  {
    GroupOccurs(groups, g, l);
    DocumentTokens(groups);
    OccursWithin(LinkPart(groups[g].links[l].fields), FillerTokens(PROLOGUE) + [StartDl, OtherTag, TextRun("\n")],
                 Tokens(ExportForest(groups)), FOLDER_END);
  }

  function HtmlLink(x: Text, fields: LinkFields): BookmarkLink {
    BookmarkLink(LinkFields(x.normalize(fields.name), "", x.trim(fields.url), GENERATED, ""), "")
  }

  function HtmlLinks(x: Text, links: seq<Link>): seq<BookmarkLink> {
    seq(|links|, i requires 0 <= i < |links| => HtmlLink(x, links[i].fields))
  }

  /** What an HTML file keeps: names and addresses of the links of non-empty categories. */
  function HtmlContent(x: Text, nav: seq<Group>): seq<BookmarkCategory> {
    if nav == [] then []
    else
      var last := nav[|nav| - 1];
      HtmlContent(x, nav[..|nav| - 1]) +
      (if last.links == [] then [] else [BookmarkCategory(last.category.name, "", "", HtmlLinks(x, last.links))])
  }

  ghost predicate HasDistinctNames(x: Text, nav: seq<Group>) {
    && (forall i :: 0 <= i < |nav| ==>
        nav[i].category.name != "" && x.normalize(nav[i].category.name) == nav[i].category.name)
    && (forall i, j :: 0 <= i < j < |nav| ==> nav[i].category.name != nav[j].category.name)
  }

  /** The links of one exported folder, each as its own item. */
  function Items(x: Text, name: string, links: seq<Link>): seq<BookmarkCategory> {
    seq(|links|, i requires 0 <= i < |links| => BookmarkCategory(name, "", "", [HtmlLink(x, links[i].fields)]))
  }

  function AllItems(x: Text, nav: seq<Group>): seq<BookmarkCategory> {
    if nav == [] then [] else Items(x, nav[0].category.name, nav[0].links) + AllItems(x, nav[1..])
  }

  lemma ConcatOne(text: string)
    ensures Concat([text]) == text
  {
    assert [text][..0] == [] && "" + text == text;
  }

  lemma FlattenNoise(x: Text, a: Filler, b: Filler, f: Forest, path: seq<string>)
    ensures Flatten(x, Noise(a, Noise(b, f)), path) == Flatten(x, f, path)
  {
    assert Flatten(x, Noise(b, f), path) == Flatten(x, f, path);
  }

  lemma {:induction false} FlattenAnchors(x: Text, links: seq<Link>, name: string)
    ensures Flatten(x, ExportAnchors(links), [name]) == Items(x, name, links)
  {
    if links != [] {
      FlattenAnchors(x, links[1..], name);
      var fields, rest := links[0].fields, ExportAnchors(links[1..]);
      var described := Noise(Blank(fields.description + "\n"), rest);
      FlattenNoise(x, Blank("    "), Markup, described, [name]);
      var tail := if fields.description == "" then rest else Noise(Blank("    "), Noise(Markup, described));
      assert Flatten(x, tail, [name]) == Flatten(x, rest, [name]);
      var anchor := Anchor(fields.url, [fields.name], Noise(Blank("\n"), tail));
      FlattenNoise(x, Blank("    "), Markup, anchor, [name]);
      ConcatOne(fields.name);
      assert Flatten(x, anchor, [name]) == [Filed(x, [name], fields.name, fields.url)] + Flatten(x, rest, [name]);
      assert Join([name]) == name;
      assert Items(x, name, links) == Items(x, name, links[..1]) + Items(x, name, links[1..]);
    }
  }

  lemma {:induction false} FlattenExport(x: Text, nav: seq<Group>)
    requires HasDistinctNames(x, nav)
    ensures Flatten(x, ExportForest(nav), []) == AllItems(x, nav)
  {
    if nav != [] {
      FlattenExport(x, nav[1..]);
      var name, anchors, others := nav[0].category.name, ExportAnchors(nav[0].links), ExportForest(nav[1..]);
      ConcatOne(name);
      assert [] + [name] == [name];
      FlattenAnchors(x, nav[0].links, name);
      FlattenNoise(x, Markup, Blank("\n"), anchors, [name]);
      FlattenNoise(x, Markup, Blank("\n"), others, []);
      var inside, after := Noise(Markup, Noise(Blank("\n"), anchors)), Noise(Markup, Noise(Blank("\n"), others));
      var folder := Folder([name], [Blank("\n  ")], inside, after);
      assert Inside(x, [], [name]) == [name];
      assert Flatten(x, folder, []) == Items(x, name, nav[0].links) + Flatten(x, after, []);
      FlattenNoise(x, Blank("  "), Markup, folder, []);
    }
  }

  lemma {:induction false} MergeItems(x: Text, before: seq<BookmarkCategory>, name: string, links: seq<Link>)
    requires FirstAt(Same, before, name) == |before|
    ensures MergeAll(before, Items(x, name, links)) ==
            before + (if links == [] then [] else [BookmarkCategory(name, "", "", HtmlLinks(x, links))])
  {
    if links == [] {
      assert before + [] == before;
    } else {
      var last := |links| - 1;
      MergeItems(x, before, name, links[..last]);
      assert Items(x, name, links)[..last] == Items(x, name, links[..last]);
      assert HtmlLinks(x, links) == HtmlLinks(x, links[..last]) + [HtmlLink(x, links[last].fields)];
      if last > 0 {
        FirstAtAppend(Same, before, BookmarkCategory(name, "", "", HtmlLinks(x, links[..last])), name);
      } else {
        assert HtmlLinks(x, links[..last]) == [] && before + [] == before;
        assert [] + [HtmlLink(x, links[last].fields)] == [HtmlLink(x, links[last].fields)];
      }
    }
  }

  lemma {:induction false} ContentNames(x: Text, nav: seq<Group>, name: string)
    requires forall i :: 0 <= i < |nav| ==> nav[i].category.name != name
    ensures FirstAt(Same, HtmlContent(x, nav), name) == |HtmlContent(x, nav)|
  {
    if nav != [] {
      var last := |nav| - 1;
      ContentNames(x, nav[..last], name);
      if nav[last].links != [] {
        FirstAtAppend(Same, HtmlContent(x, nav[..last]),
                      BookmarkCategory(nav[last].category.name, "", "", HtmlLinks(x, nav[last].links)), name);
      }
    }
  }

  lemma {:induction false} AllItemsLast(x: Text, nav: seq<Group>)
    requires nav != []
    ensures AllItems(x, nav) ==
            AllItems(x, nav[..|nav| - 1]) + Items(x, nav[|nav| - 1].category.name, nav[|nav| - 1].links)
  {
    if |nav| > 1 {
      AllItemsLast(x, nav[1..]);
      assert nav[1..][..|nav| - 2] == nav[..|nav| - 1][1..];
    }
  }

  lemma {:induction false} MergeExport(x: Text, nav: seq<Group>)
    requires HasDistinctNames(x, nav)
    ensures MergeAll([], AllItems(x, nav)) == HtmlContent(x, nav)
  {
    if nav != [] {
      var last := |nav| - 1;
      MergeExport(x, nav[..last]);
      AllItemsLast(x, nav);
      MergeAllConcat([], AllItems(x, nav[..last]), Items(x, nav[last].category.name, nav[last].links));
      ContentNames(x, nav[..last], nav[last].category.name);
      MergeItems(x, HtmlContent(x, nav[..last]), nav[last].category.name, nav[last].links);
    }
  }

  /** Parsing an HTML export gives back the non-empty categories in order, each with the names
      and addresses of its links in order; descriptions, icons and empty categories are lost. */
  lemma HtmlRoundTrip(x: Text, nav: seq<Group>)
    requires HasDistinctNames(x, nav)
    ensures Run(x, FRESH, ExportHtml(nav)).categories == HtmlContent(x, nav)
  {
    var forest := ExportForest(nav);
    ParserFlattens(x, PROLOGUE, Noise(Markup, Noise(Blank("\n"), forest)), [Markup, Blank("\n")]);
    FlattenNoise(x, Markup, Blank("\n"), forest, []);
    FlattenExport(x, nav);
    MergeAllFromNothing(AllItems(x, nav));
    MergeExport(x, nav);
  }

  /** The parser ends by normalising: categories whose names have the same key are merged as well. */
  lemma HtmlNormalizes(x: Text, nav: seq<Group>)
    requires HasDistinctNames(x, nav)
    ensures var parsed := Run(x, FRESH, ExportHtml(nav)).categories;
            IsMerge(x.key, NormalizeCategories(x, HtmlContent(x, nav)), Normalize(x, parsed))
  {
    HtmlRoundTrip(x, nav);
    MergeIsStable(x.key, NormalizeCategories(x, HtmlContent(x, nav)));
  }

  /** What the importer makes of a link of which only name and address are known. */
  function HtmlFields(fields: LinkFields): LinkFields {
    LinkFields(fields.name, "", fields.url, GENERATED, if fields.name == "" then "" else fields.name[..1])
  }

  function HtmlGroup(group: Group): Group {
    Group(group.category.(iconName := ""), seq(|group.links|, i requires 0 <= i < |group.links| =>
      Link(group.links[i].id, HtmlFields(group.links[i].fields))))
  }

  /** The list an HTML file stands for: the groups with links, without icons and descriptions. */
  function HtmlGroups(nav: seq<Group>): seq<Group> {
    if nav == [] then []
    else
      var last := |nav| - 1;
      HtmlGroups(nav[..last]) + (if nav[last].links == [] then [] else [HtmlGroup(nav[last])])
  }

  lemma HtmlLinkIsNormal(x: Text, fields: LinkFields, categoryName: string)
    requires IsCleanLink(x, fields, categoryName) && x.trim("") == ""
    ensures NormalizeLink(x, HtmlLink(x, fields), categoryName) == BookmarkLink(HtmlFields(fields), "")
  {
  }

  lemma HtmlCategoryIsNormal(x: Text, group: Group)
    requires IsCleanGroup(x, group) && x.trim("") == ""
    ensures Carries(NormalizeCategory(x, BookmarkCategory(group.category.name, "", "", HtmlLinks(x, group.links))),
                    HtmlGroup(group))
  {
    forall i | 0 <= i < |group.links|
      ensures NormalizeLink(x, HtmlLink(x, group.links[i].fields), group.category.name) ==
              BookmarkLink(HtmlFields(group.links[i].fields), "")
    {
      HtmlLinkIsNormal(x, group.links[i].fields, group.category.name);
    }
  }

  lemma {:induction false} HtmlContentIsNormal(x: Text, nav: seq<Group>)
    requires x.trim("") == "" && forall i :: 0 <= i < |nav| ==> IsCleanGroup(x, nav[i])
    ensures CarriesAll(NormalizeCategories(x, HtmlContent(x, nav)), HtmlGroups(nav))
  {
    if nav != [] {
      var last := |nav| - 1;
      HtmlContentIsNormal(x, nav[..last]);
      HtmlCategoryIsNormal(x, nav[last]);
    }
  }

  lemma {:induction false} HtmlGroupsAre(nav: seq<Group>, i: nat) returns (k: nat)
    requires i < |HtmlGroups(nav)|
    ensures k < |nav| && HtmlGroups(nav)[i] == HtmlGroup(nav[k])
  {
    var last := |nav| - 1;
    if i < |HtmlGroups(nav[..last])| { k := HtmlGroupsAre(nav[..last], i); } else { k := last; }
  }

  lemma {:induction false} HtmlGroupsStorable(x: Text, nav: seq<Group>)
    requires IsStorable(x, nav)
    ensures IsStorable(x, HtmlGroups(nav))
  {
    if nav != [] {
      var last := |nav| - 1;
      var before := HtmlGroups(nav[..last]);
      HtmlGroupsStorable(x, nav[..last]);
      forall i | 0 <= i < |before|
        ensures x.key(before[i].category.name) != x.key(nav[last].category.name)
      {
        var k := HtmlGroupsAre(nav[..last], i);
      }
    }
  }

  lemma CarriedKeys(x: Text, batch: seq<BookmarkCategory>, nav: seq<Group>)
    requires CarriesAll(batch, nav) && IsStorable(x, nav)
    ensures Merge(x.key, batch) == batch
  {
    forall i, j | 0 <= i < j < |batch| ensures x.key(batch[i].name) != x.key(batch[j].name) {
      assert Carries(batch[i], nav[i]) && Carries(batch[j], nav[j]);
    }
    MergeDistinct(x.key, batch);
  }

  lemma CleanNames(x: Text, nav: seq<Group>)
    requires IsClean(x, nav)
    ensures HasDistinctNames(x, nav)
  {
    forall i | 0 <= i < |nav|
      ensures nav[i].category.name != "" && x.normalize(nav[i].category.name) == nav[i].category.name
    {
      assert IsCleanGroup(x, nav[i]);
    }
  }

  /** Exporting everything as HTML, parsing it and importing it into an empty store gives the categories
      that have links, in order, each with the names and addresses of its links in order. */
  lemma HtmlImportRoundTrip(x: Text, empty: ImportState, nav: seq<Group>, options: Options)
    requires IsClean(x, nav) && x.trim("") == "" && options.duplicates == Create && IsEmpty(empty)
    ensures var batch := Normalize(x, Run(x, FRESH, ExportHtml(nav)).categories);
            var restored := Import(x, empty, batch, options).nav;
            |restored| == |HtmlGroups(nav)| &&
            forall i :: 0 <= i < |restored| ==> SameContent(restored[i], HtmlGroups(nav)[i])
  {
    CleanNames(x, nav);
    CleanIsStorable(x, nav);
    HtmlRoundTrip(x, nav);
    HtmlContentIsNormal(x, nav);
    HtmlGroupsStorable(x, nav);
    CarriedKeys(x, NormalizeCategories(x, HtmlContent(x, nav)), HtmlGroups(nav));
    RebuildAll(x, empty, NormalizeCategories(x, HtmlContent(x, nav)), HtmlGroups(nav), options);
  }
}
