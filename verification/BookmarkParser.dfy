/** The streaming parser for Netscape bookmark files, over the tokens of an HTML tokenizer. */
module BookmarkParser {
  import opened Navigation
  import opened Bookmarks

  datatype Token =
    | StartH3 | EndH3
    | StartA(href: string) | EndA
    | StartDl | EndDl
    | TextRun(text: string)
    | OtherTag

  const UNFILED_NAME := "未分类"

  datatype Parser = Parser(
    folders: seq<string>,       // names of the open folders
    frames: seq<bool>,          // one per open list: whether it pushed a folder
    pending: string,            // heading waiting for its list
    heading: string, inHeading: bool,
    linkText: string, inLink: bool, linkUrl: string,
    categories: seq<BookmarkCategory>)

  const FRESH := Parser([], [], "", "", false, "", false, "", [])

  function Join(names: seq<string>): string {
    if names == [] then ""
    else if |names| == 1 then names[0]
    else Join(names[..|names| - 1]) + " / " + names[|names| - 1]
  }

  function CategoryName(folders: seq<string>): string {
    if folders == [] then UNFILED_NAME else Join(folders)
  }

  function Same(name: string): string { name }

  /** One parsed link, filed under its category. */
  function Filed(x: Text, folders: seq<string>, text: string, url: string): BookmarkCategory {
    BookmarkCategory(CategoryName(folders), "", "",
                     [BookmarkLink(LinkFields(x.normalize(text), "", x.trim(url), GENERATED, ""), "")])
  }

  function Step(x: Text, p: Parser, token: Token): Parser {
    match token
    case StartH3 => p.(inHeading := true, heading := "")
    case StartA(href) => p.(inLink := true, linkText := "", linkUrl := href)
    case StartDl =>
      if p.pending != ""
      then p.(folders := p.folders + [p.pending], frames := p.frames + [true], pending := "")
      else p.(frames := p.frames + [false])
    case TextRun(text) =>
      p.(heading := if p.inHeading then p.heading + text else p.heading,
         linkText := if p.inLink then p.linkText + text else p.linkText)
    case EndH3 => p.(inHeading := false, pending := x.normalize(p.heading))
    case EndA =>
      p.(inLink := false, categories := MergeOne(Same, p.categories, Filed(x, p.folders, p.linkText, p.linkUrl)))
    case EndDl =>
      if p.frames == [] then p
      else
        var last := |p.frames| - 1;
        p.(folders := if p.frames[last] && p.folders != [] then p.folders[..|p.folders| - 1] else p.folders,
           frames := p.frames[..last])
    case OtherTag => p
  }

  function Run(x: Text, p: Parser, tokens: seq<Token>): Parser {
    if tokens == [] then p else Step(x, Run(x, p, tokens[..|tokens| - 1]), tokens[|tokens| - 1])
  }

  lemma {:induction false} RunConcat(x: Text, p: Parser, a: seq<Token>, b: seq<Token>)
    ensures Run(x, p, a + b) == Run(x, Run(x, p, a), b)
  {
    if b == [] {
      assert a + b == a;
    } else {
      assert (a + b)[..|a + b| - 1] == a + b[..|b| - 1];
      RunConcat(x, p, a, b[..|b| - 1]);
    }
  }

  lemma RunOne(x: Text, p: Parser, token: Token)
    ensures Run(x, p, [token]) == Step(x, p, token)
  {
    assert [token][..0] == [];
  }

  // ---- Whatever the input ----------------------------------------------------------------

  function Pushed(frames: seq<bool>): nat {
    if frames == [] then 0 else Pushed(frames[..|frames| - 1]) + (if frames[|frames| - 1] then 1 else 0)
  }

  ghost predicate Balanced(p: Parser) {
    |p.folders| == Pushed(p.frames) && forall i :: 0 <= i < |p.folders| ==> p.folders[i] != ""
  }

  lemma StepBalanced(x: Text, p: Parser, token: Token)
    requires Balanced(p)
    ensures Balanced(Step(x, p, token))
  {
    if token.StartDl? {
      PushedMore(p.frames, true);
      PushedMore(p.frames, false);
    } else if token.EndDl? {
      ClosedBalanced(x, p);
    }
  }

  lemma PushedMore(frames: seq<bool>, added: bool)
    ensures Pushed(frames + [added]) == Pushed(frames) + if added then 1 else 0
  {
    assert (frames + [added])[..|frames|] == frames;
  }

  lemma ClosedBalanced(x: Text, p: Parser)
    requires Balanced(p)
    ensures Balanced(Step(x, p, EndDl))
  {
  }

  /** On any token stream at all, well nested or not, the folder stack is as high as the number
      of open lists that pushed a folder, and holds no empty name. */
  lemma {:induction false} StackMatchesFrames(x: Text, tokens: seq<Token>)
    ensures Balanced(Run(x, FRESH, tokens))
  {
    if tokens != [] {
      StackMatchesFrames(x, tokens[..|tokens| - 1]);
      StepBalanced(x, Run(x, FRESH, tokens[..|tokens| - 1]), tokens[|tokens| - 1]);
    }
  }

  /** `index` holds the position of every category. */
  ghost predicate IsPositionMap(categories: seq<BookmarkCategory>, index: map<string, int>) {
    && (forall name :: name in index <==> FirstAt(Same, categories, name) < |categories|)
    && (forall name :: name in index ==> index[name] == FirstAt(Same, categories, name))
  }

  lemma PositionMapStep(categories: seq<BookmarkCategory>, index: map<string, int>, name: string, link: BookmarkLink)
    requires IsPositionMap(categories, index)
    ensures IsPositionMap(MergeOne(Same, categories, BookmarkCategory(name, "", "", [link])),
                          if name in index then index else index[name := |categories|])
  {
    var filed := BookmarkCategory(name, "", "", [link]);
    forall other { MergeOneFirstAt(Same, categories, filed, other); }
  }

  /** A link joins its category, which is appended if it is new. */
  method FileLink(categories0: seq<BookmarkCategory>, index0: map<string, int>, name: string, link: BookmarkLink)
    returns (categories: seq<BookmarkCategory>, index: map<string, int>)
    requires IsPositionMap(categories0, index0)
    ensures categories == MergeOne(Same, categories0, BookmarkCategory(name, "", "", [link]))
    ensures IsPositionMap(categories, index)
  {
    categories, index := categories0, index0;
    PositionMapStep(categories0, index0, name, link);
    var position := |categories|;
    if name in index {
      position := index[name];
    } else {
      index := index[name := position];
      categories := categories + [BookmarkCategory(name, "", "", [])];
      assert [] + [link] == [link];
    }
    categories := categories[position := categories[position].(links := categories[position].links + [link])];
    assert categories == MergeOne(Same, categories0, BookmarkCategory(name, "", "", [link]));
  }

  lemma RunNext(x: Text, tokens: seq<Token>, k: nat)
    requires k < |tokens|
    ensures Run(x, FRESH, tokens[..k + 1]) == Step(x, Run(x, FRESH, tokens[..k]), tokens[k])
  {
    assert tokens[..k + 1][..k] == tokens[..k];
  }

  /** The token loop, with its local variables; the batch still has to be normalised. */
  method ParseTokens(x: Text, tokens: seq<Token>) returns (categories: seq<BookmarkCategory>)
    ensures categories == Run(x, FRESH, tokens).categories
  {
    categories := [];
    var categoryIndex: map<string, int> := map[];
    var folders: seq<string>, folderFrames: seq<bool> := [], [];
    var pendingFolder, headingText, linkText, linkUrl := "", "", "", "";
    var inHeading, inLink := false, false;
    for k := 0 to |tokens|
      invariant Parser(folders, folderFrames, pendingFolder, headingText, inHeading, linkText, inLink, linkUrl,
                       categories)
             == Run(x, FRESH, tokens[..k])
      invariant IsPositionMap(categories, categoryIndex)
    {
      RunNext(x, tokens, k);
      match tokens[k] {
        case StartH3 =>
          inHeading, headingText := true, "";
        case StartA(href) =>
          inLink, linkText, linkUrl := true, "", href;
        case StartDl =>
          var added := pendingFolder != "";
          if added {
            folders := folders + [pendingFolder];
            pendingFolder := "";
          }
          folderFrames := folderFrames + [added];
        case TextRun(text) =>
          if inHeading { headingText := headingText + text; }
          if inLink { linkText := linkText + text; }
        case EndH3 =>
          inHeading, pendingFolder := false, x.normalize(headingText);
        case EndA =>
          inLink := false;
          var categoryName := UNFILED_NAME;
          if |folders| > 0 { categoryName := Join(folders); }
          var link := BookmarkLink(LinkFields(x.normalize(linkText), "", x.trim(linkUrl), GENERATED, ""), "");
          categories, categoryIndex := FileLink(categories, categoryIndex, categoryName, link);
        case EndDl =>
          if |folderFrames| > 0 {
            var last := |folderFrames| - 1;
            if folderFrames[last] && |folders| > 0 { folders := folders[..|folders| - 1]; }
            folderFrames := folderFrames[..last];
          }
        case OtherTag =>
      }
    }
    assert tokens[..|tokens|] == tokens;
  }

  // ---- Bookmark trees ----------------------------------------------------------------------

  datatype Filler = Blank(text: string) | Markup

  /** The entries of one list: each is a folder, a link or filler, followed by the rest. */
  datatype Forest =
    | Empty
    | Folder(heading: seq<string>, gap: seq<Filler>, inside: Forest, after: Forest)
    | Anchor(href: string, text: seq<string>, after: Forest)
    | Noise(filler: Filler, after: Forest)

  function FillerToken(filler: Filler): Token {
    match filler case Blank(text) => TextRun(text) case Markup => OtherTag
  }

  function FillerTokens(gap: seq<Filler>): seq<Token> {
    seq(|gap|, i requires 0 <= i < |gap| => FillerToken(gap[i]))
  }

  function TextTokens(chunks: seq<string>): seq<Token> {
    seq(|chunks|, i requires 0 <= i < |chunks| => TextRun(chunks[i]))
  }

  function Concat(chunks: seq<string>): string {
    if chunks == [] then "" else Concat(chunks[..|chunks| - 1]) + chunks[|chunks| - 1]
  }

  function HeadTokens(heading: seq<string>, gap: seq<Filler>): seq<Token> {
    [StartH3] + TextTokens(heading) + [EndH3] + FillerTokens(gap) + [StartDl]
  }

  function AnchorTokens(href: string, text: seq<string>): seq<Token> {
    [StartA(href)] + TextTokens(text) + [EndA]
  }

  /** The token stream of a tree. */
  function Tokens(f: Forest): seq<Token> {
    match f
    case Empty => []
    case Folder(heading, gap, inside, after) => HeadTokens(heading, gap) + Tokens(inside) + [EndDl] + Tokens(after)
    case Anchor(href, text, after) => AnchorTokens(href, text) + Tokens(after)
    case Noise(filler, after) => [FillerToken(filler)] + Tokens(after)
  }

  /** Where the children of a folder are filed; a folder without a name is transparent. */
  function Inside(x: Text, path: seq<string>, heading: seq<string>): seq<string> {
    var name := x.normalize(Concat(heading));
    if name == "" then path else path + [name]
  }

  /** The links of a tree in document order, each filed under its ancestors' names. */
  function Flatten(x: Text, f: Forest, path: seq<string>): seq<BookmarkCategory> {
    match f
    case Empty => []
    case Folder(heading, _, inside, after) =>
      Flatten(x, inside, Inside(x, path, heading)) + Flatten(x, after, path)
    case Anchor(href, text, after) => [Filed(x, path, Concat(text), href)] + Flatten(x, after, path)
    case Noise(_, after) => Flatten(x, after, path)
  }

  function MergeAll(categories: seq<BookmarkCategory>, items: seq<BookmarkCategory>): seq<BookmarkCategory> {
    if items == [] then categories
    else MergeOne(Same, MergeAll(categories, items[..|items| - 1]), items[|items| - 1])
  }

  lemma {:induction false} MergeAllConcat(categories: seq<BookmarkCategory>, a: seq<BookmarkCategory>,
                                          b: seq<BookmarkCategory>)
    ensures MergeAll(categories, a + b) == MergeAll(MergeAll(categories, a), b)
  {
    if b == [] {
      assert a + b == a;
    } else {
      assert (a + b)[..|a + b| - 1] == a + b[..|b| - 1];
      MergeAllConcat(categories, a, b[..|b| - 1]);
    }
  }

  lemma {:induction false} MergeAllFromNothing(items: seq<BookmarkCategory>)
    ensures MergeAll([], items) == Merge(Same, items)
  {
    if items != [] { MergeAllFromNothing(items[..|items| - 1]); }
  }

  /** Between entries: no heading, link or folder is being read. */
  ghost predicate Quiet(p: Parser) { !p.inHeading && !p.inLink && p.pending == "" }

  /** `p'` is `p` after reading the entries filed as `items`. */
  ghost predicate Read(p: Parser, p': Parser, items: seq<BookmarkCategory>) {
    Quiet(p') && p'.folders == p.folders && p'.frames == p.frames && p'.categories == MergeAll(p.categories, items)
  }

  lemma {:induction false} RunText(x: Text, p: Parser, chunks: seq<string>)
    ensures Run(x, p, TextTokens(chunks)) ==
            p.(heading := if p.inHeading then p.heading + Concat(chunks) else p.heading,
               linkText := if p.inLink then p.linkText + Concat(chunks) else p.linkText)
  {
    if chunks == [] {
      assert p.heading + "" == p.heading && p.linkText + "" == p.linkText;
    } else {
      var last := |chunks| - 1;
      RunText(x, p, chunks[..last]);
      assert TextTokens(chunks)[..last] == TextTokens(chunks[..last]);
      var before := Concat(chunks[..last]);
      assert p.heading + before + chunks[last] == p.heading + (before + chunks[last]);
      assert p.linkText + before + chunks[last] == p.linkText + (before + chunks[last]);
    }
  }

  lemma {:induction false} RunFiller(x: Text, p: Parser, gap: seq<Filler>)
    requires !p.inHeading && !p.inLink
    ensures Run(x, p, FillerTokens(gap)) == p
  {
    if gap != [] {
      var last := |gap| - 1;
      RunFiller(x, p, gap[..last]);
      assert FillerTokens(gap)[..last] == FillerTokens(gap[..last]);
    }
  }

  lemma RunHead(x: Text, p: Parser, heading: seq<string>, gap: seq<Filler>)
    requires Quiet(p)
    ensures var p', name := Run(x, p, HeadTokens(heading, gap)), x.normalize(Concat(heading));
            Quiet(p') && p'.folders == Inside(x, p.folders, heading) && p'.frames == p.frames + [name != ""] &&
            p'.categories == p.categories
  {
    var a, b, c, d := [StartH3], TextTokens(heading), [EndH3], FillerTokens(gap);
    RunConcat(x, p, a + b + c + d, [StartDl]);
    RunConcat(x, p, a + b + c, d);
    RunConcat(x, p, a + b, c);
    RunConcat(x, p, a, b);
    RunOne(x, p, StartH3);
    var p1 := Step(x, p, StartH3);
    RunText(x, p1, heading);
    var p2 := Run(x, p1, b);
    RunOne(x, p2, EndH3);
    var p3 := Step(x, p2, EndH3);
    RunFiller(x, p3, gap);
    RunOne(x, p3, StartDl);
    assert "" + Concat(heading) == Concat(heading);
  }

  lemma RunAnchor(x: Text, p: Parser, href: string, text: seq<string>)
    requires Quiet(p)
    ensures Read(p, Run(x, p, AnchorTokens(href, text)), [Filed(x, p.folders, Concat(text), href)])
  {
    var a, b := [StartA(href)], TextTokens(text);
    RunConcat(x, p, a + b, [EndA]);
    RunConcat(x, p, a, b);
    RunOne(x, p, StartA(href));
    var p1 := Step(x, p, StartA(href));
    RunText(x, p1, text);
    RunOne(x, Run(x, p1, b), EndA);
    assert "" + Concat(text) == Concat(text);
    var item := Filed(x, p.folders, Concat(text), href);
    assert [item][..0] == [];
  }

  lemma ReadAfter(p: Parser, a: seq<BookmarkCategory>, p1: Parser, b: seq<BookmarkCategory>, p2: Parser)
    requires Read(p, p1, a) && Read(p1, p2, b)
    ensures Read(p, p2, a + b)
  {
    MergeAllConcat(p.categories, a, b);
  }

  lemma RunFolder(x: Text, p: Parser, entered: Parser, closed: Parser, f: Forest)
    requires f.Folder? && Quiet(p) && entered == Run(x, p, HeadTokens(f.heading, f.gap))
    requires Read(entered, closed, Flatten(x, f.inside, entered.folders))
    ensures Read(p, Step(x, closed, EndDl), Flatten(x, f.inside, Inside(x, p.folders, f.heading)))
  {
    RunHead(x, p, f.heading, f.gap);
  }

  /** Reading a tree files exactly its flattened links and leaves the stacks as they were. */
  lemma {:induction false} RunForest(x: Text, p: Parser, f: Forest)
    requires Quiet(p)
    ensures Read(p, Run(x, p, Tokens(f)), Flatten(x, f, p.folders))
    decreases f
  {
    match f
    case Empty =>
    case Folder(heading, gap, inside, after) =>
      var head := HeadTokens(heading, gap);
      RunConcat(x, p, head + Tokens(inside) + [EndDl], Tokens(after));
      RunConcat(x, p, head + Tokens(inside), [EndDl]);
      RunConcat(x, p, head, Tokens(inside));
      RunHead(x, p, heading, gap);
      var entered := Run(x, p, head);
      RunForest(x, entered, inside);
      var closed := Run(x, entered, Tokens(inside));
      RunFolder(x, p, entered, closed, f);
      RunOne(x, closed, EndDl);
      var next := Step(x, closed, EndDl);
      RunForest(x, next, after);
      ReadAfter(p, Flatten(x, inside, Inside(x, p.folders, heading)), next, Flatten(x, after, p.folders),
                Run(x, next, Tokens(after)));
    case Anchor(href, text, after) =>
      RunConcat(x, p, AnchorTokens(href, text), Tokens(after));
      RunAnchor(x, p, href, text);
      var next := Run(x, p, AnchorTokens(href, text));
      RunForest(x, next, after);
      ReadAfter(p, [Filed(x, p.folders, Concat(text), href)], next, Flatten(x, after, p.folders),
                Run(x, next, Tokens(after)));
    case Noise(filler, after) =>
      RunConcat(x, p, [FillerToken(filler)], Tokens(after));
      RunOne(x, p, FillerToken(filler));
      RunForest(x, Step(x, p, FillerToken(filler)), after);
  }

  /** A bookmark file: some markup, the outermost list, some more markup. */
  function Document(prologue: seq<Filler>, f: Forest, epilogue: seq<Filler>): seq<Token> {
    FillerTokens(prologue) + [StartDl] + Tokens(f) + [EndDl] + FillerTokens(epilogue)
  }

  lemma RunThen(x: Text, p: Parser, a: seq<Token>, b: seq<Token>, q: Parser)
    requires Run(x, p, a) == q
    ensures Run(x, p, a + b) == Run(x, q, b)
  {
    RunConcat(x, p, a, b);
  }

  lemma RunThenOne(x: Text, p: Parser, a: seq<Token>, token: Token, q: Parser)
    requires Run(x, p, a) == q
    ensures Run(x, p, a + [token]) == Step(x, q, token)
  {
    RunThen(x, p, a, [token], q);
    RunOne(x, q, token);
  }

  lemma RunDocument(x: Text, prologue: seq<Filler>, f: Forest, epilogue: seq<Filler>)
    ensures Run(x, FRESH, Document(prologue, f, epilogue)).categories == MergeAll([], Flatten(x, f, []))
  {
    var a := FillerTokens(prologue);
    var begun := a + [StartDl];
    var entered := Step(x, FRESH, StartDl);
    RunFiller(x, FRESH, prologue);
    RunThenOne(x, FRESH, a, StartDl, FRESH);
    var before := begun + Tokens(f);
    var closed := Run(x, entered, Tokens(f));
    RunThen(x, FRESH, begun, Tokens(f), entered);
    RunForest(x, entered, f);
    var last := Step(x, closed, EndDl);
    RunThenOne(x, FRESH, before, EndDl, closed);
    RunThen(x, FRESH, before + [EndDl], FillerTokens(epilogue), last);
    RunFiller(x, last, epilogue);
  }

  /** Parsing a bookmark file of any depth groups its links by path, stably: in order of first
      appearance of each path, and in document order within each. */
  lemma ParserFlattens(x: Text, prologue: seq<Filler>, f: Forest, epilogue: seq<Filler>)
    ensures Run(x, FRESH, Document(prologue, f, epilogue)).categories == Merge(Same, Flatten(x, f, []))
    ensures IsMerge(Same, Flatten(x, f, []), Run(x, FRESH, Document(prologue, f, epilogue)).categories)
  {
    RunDocument(x, prologue, f, epilogue);
    MergeAllFromNothing(Flatten(x, f, []));
    MergeIsStable(Same, Flatten(x, f, []));
  }
}
