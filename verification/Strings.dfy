/** ASCII case folding, and slash-separated paths. */
module Strings {

  function LowerChar(c: char): char { if 'A' <= c <= 'Z' then c - 'A' + 'a' else c }

  function Lower(s: string): string { seq(|s|, i requires 0 <= i < |s| => LowerChar(s[i])) }

  /** The name ends in ".png", in letters of either case. */
  predicate EndsPng(name: string) {
    var n := |name|;
    n >= 4 && name[n - 4] == '.' && name[n - 3] in "pP" && name[n - 2] in "nN" && name[n - 1] in "gG"
  }

  /** Or in ".jpg". */
  predicate EndsJpg(name: string) {
    var n := |name|;
    n >= 4 && name[n - 4] == '.' && name[n - 3] in "jJ" && name[n - 2] in "pP" && name[n - 1] in "gG"
  }

  lemma LowerFour(s: string, t: string)
    requires |t| == 4
    ensures Lower(s) == t <==>
            |s| == 4 && LowerChar(s[0]) == t[0] && LowerChar(s[1]) == t[1] && LowerChar(s[2]) == t[2] &&
            LowerChar(s[3]) == t[3]
  {
    assert |Lower(s)| == |s|;
  }

  lemma Letters(c: char)
    ensures (LowerChar(c) == 'p' <==> c in "pP") && (LowerChar(c) == 'n' <==> c in "nN")
    ensures (LowerChar(c) == 'g' <==> c in "gG") && (LowerChar(c) == 'j' <==> c in "jJ")
    ensures LowerChar(c) == '.' <==> c == '.'
  {
  }

  lemma PngSuffix(s: string)
    requires |s| >= 4
    ensures Lower(s[|s| - 4..]) == ".png" <==> EndsPng(s)
  {
    LowerFour(s[|s| - 4..], ".png");
    Letters(s[|s| - 4]);
    Letters(s[|s| - 3]);
    Letters(s[|s| - 2]);
    Letters(s[|s| - 1]);
  }

  /** The parts between slashes. */
  function Split(s: string): (parts: seq<string>)
    ensures parts != []
  {
    if s == "" then [""]
    else if s[0] == '/' then [""] + Split(s[1..])
    else
      var rest := Split(s[1..]);
      [[s[0]] + rest[0]] + rest[1..]
  }

  function Join(parts: seq<string>): string {
    if parts == [] then ""
    else if |parts| == 1 then parts[0]
    else parts[0] + "/" + Join(parts[1..])
  }

  lemma {:induction false} JoinSplit(s: string)
    ensures Join(Split(s)) == s
  {
    if s != "" {
      JoinSplit(s[1..]);
      var rest := Split(s[1..]);
      if s[0] == '/' {
        assert ([""] + rest)[1..] == rest;
        assert "" + "/" + s[1..] == s;
      } else {
        var parts := [[s[0]] + rest[0]] + rest[1..];
        assert parts[1..] == rest[1..];
        if |rest| > 1 {
          assert [s[0]] + rest[0] + "/" + Join(rest[1..]) == [s[0]] + (rest[0] + "/" + Join(rest[1..]));
        }
        assert s == [s[0]] + s[1..];
      }
    }
  }

  lemma {:induction false} SplitHasNoSlash(s: string)
    ensures forall i :: 0 <= i < |Split(s)| ==> '/' !in Split(s)[i]
  {
    if s != "" { SplitHasNoSlash(s[1..]); }
  }

  lemma {:induction false} SplitPlain(s: string)
    requires '/' !in s
    ensures Split(s) == [s]
  {
    if s != "" {
      assert s[0] in s && forall c :: c in s[1..] ==> c in s;
      SplitPlain(s[1..]);
      assert [s[0]] + s[1..] == s;
    }
  }

  /** A trailing slash adds an empty part. */
  lemma {:induction false} SplitTrailing(s: string)
    ensures Split(s + "/") == Split(s) + [""]
  {
    if s == "" {
      assert s + "/" == "/" && "/"[1..] == "";
      assert Split("/") == [""] + Split("");
    } else {
      SplitTrailing(s[1..]);
      assert (s + "/")[1..] == s[1..] + "/" && (s + "/")[0] == s[0];
      var rest := Split(s[1..]);
      assert (rest + [""])[0] == rest[0] && (rest + [""])[1..] == rest[1..] + [""];
      if s[0] == '/' {
        assert [""] + (rest + [""]) == [""] + rest + [""];
      } else {
        assert [[s[0]] + rest[0]] + (rest[1..] + [""]) == [[s[0]] + rest[0]] + rest[1..] + [""];
      }
    }
  }

  // ---- path.Clean, for a path that does not start with a slash -----------------------------

  function Push(stack: seq<string>, part: string): seq<string> {
    if part == "" || part == "." then stack
    else if part == ".." then
      if stack != [] && stack[|stack| - 1] != ".." then stack[..|stack| - 1] else stack + [".."]
    else stack + [part]
  }

  function Reduce(parts: seq<string>): seq<string> {
    if parts == [] then [] else Push(Reduce(parts[..|parts| - 1]), parts[|parts| - 1])
  }

  function Clean(path: string): string {
    var stack := Reduce(Split(path));
    if stack == [] then "." else Join(stack)
  }

  lemma CleanTrailing(path: string)
    ensures Clean(path + "/") == Clean(path)
  {
    SplitTrailing(path);
    assert (Split(path) + [""])[..|Split(path)|] == Split(path);
  }

  lemma {:induction false} ReducePlain(parts: seq<string>)
    requires forall i :: 0 <= i < |parts| ==> parts[i] !in ["", ".", ".."]
    ensures Reduce(parts) == parts
  {
    if parts != [] {
      var last := |parts| - 1;
      ReducePlain(parts[..last]);
      assert parts[..last] + [parts[last]] == parts;
    }
  }

  /** A path without empty, "." and ".." parts is clean. */
  lemma CleanPlain(path: string)
    requires forall i :: 0 <= i < |Split(path)| ==> Split(path)[i] !in ["", ".", ".."]
    ensures Clean(path) == path
  {
    ReducePlain(Split(path));
    JoinSplit(path);
  }
}
