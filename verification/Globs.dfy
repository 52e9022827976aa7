/** The file filter's exclude globs: the compiler from globs to regular expressions, a reader for the
    regular expressions it writes, and the proof that reading back what was compiled matches exactly
    what the glob means. Paths and globs are sequences of Unicode characters. */
module Globs {
  import opened Wrappers
  import opened Text

  // ---- What a glob means ----

  /** "**" takes any run of characters but newlines, "*" any run within a path segment, "?" one
      character within a segment; every other character stands for itself. */
  ghost predicate GlobMatches(g: string, s: string)
    decreases |g|
  {
    if g == "" then s == ""
    else if g[0] == '*' && |g| > 1 && g[1] == '*' then
      exists k :: 0 <= k <= |s| && '\n' !in s[..k] && GlobMatches(g[2..], s[k..])
    else if g[0] == '*' then
      exists k :: 0 <= k <= |s| && '/' !in s[..k] && GlobMatches(g[1..], s[k..])
    else
      s != "" && (if g[0] == '?' then s[0] != '/' else s[0] == g[0]) && GlobMatches(g[1..], s[1..])
  }

  // ---- The compiler ----

  const META := ['.', '+', '(', ')', '|', '[', ']', '{', '}', '^', '$', '\\']

  function PatternOf(g: string): string {
    if g == "" then ""
    else if g[0] == '*' then
      if |g| > 1 && g[1] == '*' then ".*" + PatternOf(g[2..]) else "[^/]*" + PatternOf(g[1..])
    else if g[0] == '?' then "[^/]" + PatternOf(g[1..])
    else if g[0] in META then ['\\', g[0]] + PatternOf(g[1..])
    else [g[0]] + PatternOf(g[1..])
  }

  method GlobToRegexp(glob: string) returns (b: string)
    ensures b == "^" + PatternOf(glob) + "$"
  {
    b := "^";
    var i := 0;
    while i < |glob|
      invariant 0 <= i <= |glob|
      invariant b + PatternOf(glob[i..]) == "^" + PatternOf(glob)
    {
      var c := glob[i];
      var rest := glob[i..];
      assert rest[0] == c && rest[1..] == glob[i+1..];
      ghost var before := b;
      ghost var piece: string;
      if c == '*' {
        if i + 1 < |glob| && glob[i+1] == '*' {
          assert rest[2..] == glob[i+2..];
          piece := ".*";
          b := b + ".*";
          i := i + 1;
        } else {
          piece := "[^/]*";
          b := b + "[^/]*";
        }
      } else if c == '?' {
        piece := "[^/]";
        b := b + "[^/]";
      } else if c in META {
        piece := ['\\', c];
        b := b + ['\\', c];
      } else {
        piece := [c];
        b := b + [c];
      }
      i := i + 1;
      assert PatternOf(rest) == piece + PatternOf(glob[i..]);
      assert (before + piece) + PatternOf(glob[i..]) == before + (piece + PatternOf(glob[i..]));
    }
    assert glob[i..] == "" && b + "" == b;
    b := b + "$";
  }

  // ---- Regular expressions, as far as the compiler writes them ----

  datatype Atom = Literal(c: char) | NotNewline | NotSlash
  datatype Item = One(a: Atom) | Star(a: Atom)

  predicate AtomMatches(a: Atom, c: char) {
    match a
    case Literal(d) => c == d
    case NotNewline => c != '\n'
    case NotSlash => c != '/'
  }

  /** Anchored at both ends: the items take the whole string. */
  predicate ItemsMatch(items: seq<Item>, s: string)
    decreases |items| + |s|
  {
    if items == [] then s == ""
    else match items[0]
      case One(a) => s != "" && AtomMatches(a, s[0]) && ItemsMatch(items[1..], s[1..])
      case Star(a) => ItemsMatch(items[1..], s) || (s != "" && AtomMatches(a, s[0]) && ItemsMatch(items, s[1..]))
  }

  datatype ReadAtom = ReadAtom(atom: Atom, rest: string)

  /** Go's syntax with its default flags: an escaped punctuation mark is itself, "." excludes newline, a
      negated class does not. Anything else that is special is outside this fragment. */
  function ReadOne(p: string): Option<ReadAtom> {
    if p == "" then None
    else if p[0] == '\\' then
      if |p| > 1 && p[1] in META then Some(ReadAtom(Literal(p[1]), p[2..])) else None
    else if p[0] == '.' then Some(ReadAtom(NotNewline, p[1..]))
    else if p[0] == '[' then
      if |p| >= 4 && p[..4] == "[^/]" then Some(ReadAtom(NotSlash, p[4..])) else None
    else if p[0] in META || p[0] == '*' || p[0] == '?' then None
    else Some(ReadAtom(Literal(p[0]), p[1..]))
  }

  predicate StartsRepeat(p: string) { p != "" && p[0] in ['*', '+', '?', '{'] }

  /** Reads up to the final "$". A repeated repetition or another repetition operator is an error. */
  function ReadItems(p: string): Option<seq<Item>>
    decreases |p|
  {
    if p == "$" then Some([])
    else
      match ReadOne(p)
      case None => None
      case Some(ReadAtom(a, rest)) =>
        if |rest| >= |p| then None
        else if rest != "" && rest[0] == '*' then
          if StartsRepeat(rest[1..]) then None
          else (match ReadItems(rest[1..]) case None => None case Some(items) => Some([Star(a)] + items))
        else if StartsRepeat(rest) then None
        else (match ReadItems(rest) case None => None case Some(items) => Some([One(a)] + items))
  }

  function ReadRegexp(p: string): Option<seq<Item>> {
    if p != "" && p[0] == '^' then ReadItems(p[1..]) else None
  }

  // ---- What is compiled reads back ----

  function ItemsOf(g: string): seq<Item> {
    if g == "" then []
    else if g[0] == '*' then
      if |g| > 1 && g[1] == '*' then [Star(NotNewline)] + ItemsOf(g[2..]) else [Star(NotSlash)] + ItemsOf(g[1..])
    else if g[0] == '?' then [One(NotSlash)] + ItemsOf(g[1..])
    else [One(Literal(g[0]))] + ItemsOf(g[1..])
  }

  lemma PatternNeverStartsRepeat(g: string)
    ensures !StartsRepeat(PatternOf(g) + "$")
  {
  }

  /** The rest of a glob after its first token, and what the token compiles to and reads as. */
  function RestOf(g: string): string
    requires g != ""
  {
    if g[0] == '*' && |g| > 1 && g[1] == '*' then g[2..] else g[1..]
  }

  function Piece(g: string): string
    requires g != ""
  {
    if g[0] == '*' then (if |g| > 1 && g[1] == '*' then ".*" else "[^/]*")
    else if g[0] == '?' then "[^/]"
    else if g[0] in META then ['\\', g[0]]
    else [g[0]]
  }

  function ItemOf(g: string): Item
    requires g != ""
  {
    if g[0] == '*' then Star(if |g| > 1 && g[1] == '*' then NotNewline else NotSlash)
    else One(if g[0] == '?' then NotSlash else Literal(g[0]))
  }

  lemma PatternSplits(g: string)
    requires g != ""
    ensures PatternOf(g) + "$" == Piece(g) + (PatternOf(RestOf(g)) + "$")
    ensures ItemsOf(g) == [ItemOf(g)] + ItemsOf(RestOf(g))
  {
  }

  lemma ReadsClass(p: string, tail: string)
    requires p == "[^/]" + tail
    ensures ReadOne(p) == Some(ReadAtom(NotSlash, tail)) && p != "$"
  {
    assert p[..4] == "[^/]" && p[4..] == tail;
  }

  lemma ReadsDot(p: string, tail: string)
    requires p == "." + tail
    ensures ReadOne(p) == Some(ReadAtom(NotNewline, tail)) && p != "$"
  {
    assert p[1..] == tail;
  }

  lemma ReadsLiteral(p: string, c: char, tail: string)
    requires c != '*' && c != '?' && tail != "" && p == (if c in META then ['\\', c] else [c]) + tail
    ensures ReadOne(p) == Some(ReadAtom(Literal(c), tail)) && p != "$"
  {
    assert if c in META then p[2..] == tail else p[1..] == tail;
  }

  lemma ReadsStarred(p: string, a: Atom, star: string, tail: string)
    requires ReadOne(p) == Some(ReadAtom(a, star)) && p != "$" && star == "*" + tail
    requires |star| < |p| && !StartsRepeat(tail) && ReadItems(tail).Some?
    ensures ReadItems(p) == Some([Star(a)] + ReadItems(tail).value)
  {
    assert star[1..] == tail;
  }

  lemma ReadsOnce(p: string, a: Atom, tail: string)
    requires ReadOne(p) == Some(ReadAtom(a, tail)) && p != "$"
    requires |tail| < |p| && !StartsRepeat(tail) && ReadItems(tail).Some?
    ensures ReadItems(p) == Some([One(a)] + ReadItems(tail).value)
  {
  }

  lemma StarReadsBack(g: string, p: string, tail: string)
    requires g != "" && g[0] == '*' && p == Piece(g) + tail
    requires !StartsRepeat(tail) && ReadItems(tail).Some?
    ensures ReadItems(p) == Some([ItemOf(g)] + ReadItems(tail).value)
  {
    hide ReadItems, ReadOne, StartsRepeat;
    var star := "*" + tail;
    if |g| > 1 && g[1] == '*' {
      assert p == "." + star;
      ReadsDot(p, star);
    } else {
      assert p == "[^/]" + star;
      ReadsClass(p, star);
    }
    ReadsStarred(p, ItemOf(g).a, star, tail);
  }

  lemma PieceReadsBack(g: string, p: string, tail: string)
    requires g != "" && p == Piece(g) + tail && tail != ""
    requires !StartsRepeat(tail) && ReadItems(tail).Some?
    ensures ReadItems(p) == Some([ItemOf(g)] + ReadItems(tail).value)
  {
    if g[0] == '*' {
      StarReadsBack(g, p, tail);
    } else {
      if g[0] == '?' { ReadsClass(p, tail); } else { ReadsLiteral(p, g[0], tail); }
      ReadsOnce(p, ItemOf(g).a, tail);
    }
  }

  lemma {:induction false} PatternReadsBack(g: string)
    ensures ReadItems(PatternOf(g) + "$") == Some(ItemsOf(g))
    decreases |g|
  {
    if g == "" {
      assert PatternOf(g) + "$" == "$";
    } else {
      var tail := PatternOf(RestOf(g)) + "$";
      PatternReadsBack(RestOf(g));
      PatternNeverStartsRepeat(RestOf(g));
      PatternSplits(g);
      PieceReadsBack(g, PatternOf(g) + "$", tail);
    }
  }

  // ---- And means what the glob means ----

  /** A star takes some prefix of matching characters. */
  lemma {:induction false} StarTakesAPrefix(a: Atom, rest: seq<Item>, s: string)
    ensures ItemsMatch([Star(a)] + rest, s)
      <==> exists k :: 0 <= k <= |s| && (forall i :: 0 <= i < k ==> AtomMatches(a, s[i])) && ItemsMatch(rest, s[k..])
    decreases |s|
  {
    var items := [Star(a)] + rest;
    assert items[1..] == rest && s[0..] == s;
    if s != "" {
      StarTakesAPrefix(a, rest, s[1..]);
      if ItemsMatch(rest, s) {
      } else if AtomMatches(a, s[0]) && ItemsMatch(items, s[1..]) {
        var k :| 0 <= k <= |s[1..]| && (forall i :: 0 <= i < k ==> AtomMatches(a, s[1..][i]))
            && ItemsMatch(rest, s[1..][k..]);
        assert s[1..][k..] == s[k+1..];
        assert forall i :: 0 <= i < k + 1 ==> AtomMatches(a, s[i]) by {
          forall i | 0 < i < k + 1 ensures AtomMatches(a, s[i]) { assert s[1..][i-1] == s[i]; }
        }
      }
      if k :| 0 <= k <= |s| && (forall i :: 0 <= i < k ==> AtomMatches(a, s[i])) && ItemsMatch(rest, s[k..]) {
        if k > 0 {
          assert s[1..][k-1..] == s[k..];
          assert forall i :: 0 <= i < k - 1 ==> AtomMatches(a, s[1..][i]);
        }
      }
    }
  }

  lemma {:induction false} ItemsMeanTheGlob(g: string, s: string)
    ensures ItemsMatch(ItemsOf(g), s) <==> GlobMatches(g, s)
    decreases |g|
  {
    if g == "" {
    } else if g[0] == '*' {
      var double := |g| > 1 && g[1] == '*';
      var rest := if double then g[2..] else g[1..];
      var a := if double then NotNewline else NotSlash;
      StarTakesAPrefix(a, ItemsOf(rest), s);
      forall k | 0 <= k <= |s|
        ensures ItemsMatch(ItemsOf(rest), s[k..]) <==> GlobMatches(rest, s[k..])
        ensures (forall i :: 0 <= i < k ==> AtomMatches(a, s[i])) <==> (if double then '\n' else '/') !in s[..k]
      {
        ItemsMeanTheGlob(rest, s[k..]);
        assert forall i :: 0 <= i < k ==> s[..k][i] == s[i];
      }
    } else {
      assert ItemsOf(g)[1..] == ItemsOf(g[1..]);
      if s != "" {
        ItemsMeanTheGlob(g[1..], s[1..]);
      }
    }
  }

  /** Main result: every glob compiles to a pattern in the fragment, and the pattern, read back, matches
      exactly the paths the glob does. */
  lemma CompiledGlobMeansTheGlob(g: string, s: string)
    ensures var r := ReadRegexp("^" + PatternOf(g) + "$");
            r.Some? && (ItemsMatch(r.value, s) <==> GlobMatches(g, s))
  {
    assert ("^" + PatternOf(g) + "$")[1..] == PatternOf(g) + "$";
    PatternReadsBack(g);
    ItemsMeanTheGlob(g, s);
  }

  // ---- The filter ----

  /** path.Base: the last element, trailing slashes aside; "." for an empty path, "/" for only slashes. */
  function Base(p: string): string {
    if p == "" then "."
    else if forall i :: 0 <= i < |p| ==> p[i] == '/' then "/"
    else if p[|p|-1] == '/' then Base(p[..|p|-1])
    else AfterSlash(p)
  }

  function AfterSlash(p: string): string {
    if '/' !in p then p else AfterSlash(p[IndexAfterSlash(p)..])
  }

  function IndexAfterSlash(p: string): (i: nat)
    requires '/' in p
    ensures 0 < i <= |p|
  {
    if p[0] == '/' then 1 else 1 + IndexAfterSlash(p[1..])
  }

  predicate AllSlashes(s: string) { forall i :: 0 <= i < |s| ==> s[i] == '/' }

  lemma {:induction false} AfterSlashInWords(p: string) returns (dir: string)
    ensures p == dir + AfterSlash(p) && '/' !in AfterSlash(p) && (dir != "" ==> dir[|dir|-1] == '/')
    ensures p != "" && p[|p|-1] != '/' ==> AfterSlash(p) != ""
    decreases |p|
  {
    dir := "";
    if '/' in p {
      var i := IndexAfterSlash(p);
      UpToSlash(p);
      dir := AfterSlashInWords(p[i..]);
      dir := p[..i] + dir;
    }
  }

  lemma {:induction false} UpToSlash(p: string)
    requires '/' in p
    ensures p[IndexAfterSlash(p)-1] == '/'
  {
    if p[0] != '/' { UpToSlash(p[1..]); }
  }

  /** The base name of a path with a name in it is what is between its last slashes. */
  lemma {:induction false} BaseInWords(p: string) returns (dir: string, slashes: string)
    requires !AllSlashes(p)
    ensures p == dir + Base(p) + slashes && AllSlashes(slashes)
    ensures Base(p) != "" && '/' !in Base(p) && (dir != "" ==> dir[|dir|-1] == '/')
    decreases |p|
  {
    if p[|p|-1] == '/' {
      var i :| 0 <= i < |p| && p[i] != '/';
      assert p[..|p|-1][i] != '/';
      dir, slashes := BaseInWords(p[..|p|-1]);
      slashes := slashes + "/";
    } else {
      dir := AfterSlashInWords(p);
      slashes := "";
    }
  }

  datatype GlobPattern = GlobPattern(re: string, basename: bool)

  /** The pattern matches the path, or its base name when the glob had no slash. */
  predicate PatternExcludes(pat: GlobPattern, p: string) {
    var r := ReadRegexp(pat.re);
    r.Some? && ItemsMatch(r.value, if pat.basename then Base(p) else p)
  }

  /** What an exclude list means: blank entries aside, some glob matches. */
  ghost predicate Excludes(globs: seq<string>, p: string) {
    exists i :: 0 <= i < |globs| && GlobExcludes(Trim(globs[i]), p)
  }

  ghost predicate GlobExcludes(g: string, p: string) {
    g != "" && GlobMatches(g, if '/' !in g then Base(p) else p)
  }

  /** A glob with a slash is for whole paths, one without is for base names. */
  lemma ExcludesInWords(globs: seq<string>, p: string)
    ensures Excludes(globs, p) <==>
        exists i :: 0 <= i < |globs| && Trim(globs[i]) != ""
          && ('/' in Trim(globs[i]) ==> GlobMatches(Trim(globs[i]), p))
          && ('/' !in Trim(globs[i]) ==> GlobMatches(Trim(globs[i]), Base(p)))
  {
    hide GlobMatches, Base, Trim;
    forall i | 0 <= i < |globs|
      ensures GlobExcludes(Trim(globs[i]), p) <==>
          && Trim(globs[i]) != "" && ('/' in Trim(globs[i]) ==> GlobMatches(Trim(globs[i]), p))
          && ('/' !in Trim(globs[i]) ==> GlobMatches(Trim(globs[i]), Base(p)))
    {
    }
  }

  ghost predicate AnyExcludes(patterns: seq<GlobPattern>, p: string) {
    exists k :: 0 <= k < |patterns| && PatternExcludes(patterns[k], p)
  }

  class FileFilter {
    var patterns: seq<GlobPattern>

    /** newFileFilter: a path is excluded by the compiled patterns exactly when the globs exclude it. */
    constructor (globs: seq<string>)
      ensures forall p :: AnyExcludes(patterns, p) <==> Excludes(globs, p)
    {
      patterns := [];
      new;
      for n := 0 to |globs|
        invariant forall p :: AnyExcludes(patterns, p) <==> Excludes(globs[..n], p)
      {
        var g := Trim(globs[n]);
        ghost var before := patterns;
        if g != "" {
          var re := GlobToRegexp(g);
          patterns := patterns + [GlobPattern(re, '/' !in g)];
        }
        NextGlob(globs, n, before, patterns);
      }
      assert globs[..|globs|] == globs;
    }

    method Excluded(p: string) returns (r: bool)
      ensures r <==> AnyExcludes(patterns, p)
    {
      for n := 0 to |patterns|
        invariant forall k :: 0 <= k < n ==> !PatternExcludes(patterns[k], p)
      {
        if PatternExcludes(patterns[n], p) {
          return true;
        }
      }
      return false;
    }
  }

  lemma NextGlob(globs: seq<string>, n: nat, before: seq<GlobPattern>, after: seq<GlobPattern>)
    requires n < |globs| && forall p :: AnyExcludes(before, p) <==> Excludes(globs[..n], p)
    requires var g := Trim(globs[n]);
             after == if g != "" then before + [GlobPattern("^" + PatternOf(g) + "$", '/' !in g)] else before
    ensures forall p :: AnyExcludes(after, p) <==> Excludes(globs[..n+1], p)
  {
    var g := Trim(globs[n]);
    forall p ensures AnyExcludes(after, p) <==> Excludes(globs[..n+1], p) {
      OneMoreGlob(globs, n, p);
      if g != "" {
        CompiledGlobMeansTheGlob(g, if '/' !in g then Base(p) else p);
        OneMorePattern(before, after[|before|], p);
      }
    }
  }

  lemma OneMoreGlob(globs: seq<string>, n: nat, p: string)
    requires n < |globs|
    ensures Excludes(globs[..n+1], p) <==> Excludes(globs[..n], p) || GlobExcludes(Trim(globs[n]), p)
  {
    hide GlobExcludes, Trim;
    assert forall i :: 0 <= i < n ==> globs[..n+1][i] == globs[..n][i] == globs[i];
    assert globs[..n+1][n] == globs[n];
  }

  lemma OneMorePattern(ps: seq<GlobPattern>, pat: GlobPattern, p: string)
    ensures AnyExcludes(ps + [pat], p) <==> AnyExcludes(ps, p) || PatternExcludes(pat, p)
  {
    hide PatternExcludes;
    var more := ps + [pat];
    assert forall k :: 0 <= k < |ps| ==> more[k] == ps[k];
    assert more[|ps|] == pat;
  }
}
