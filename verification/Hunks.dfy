/** The hunk parser: which head-side lines of a unified diff a comment can be placed on. */
module Hunks {
  import opened Wrappers
  import opened Text

  // ---- The parser ----

  /** strings.Split(s, "\n") */
  function SplitLines(s: string): (lines: seq<string>)
    ensures lines != []
  {
    var i := IndexOf(s, '\n');
    if i == |s| then [s] else [s[..i]] + SplitLines(s[i+1..])
  }

  /** Position of the first space or comma. */
  function IndexOfEnd(s: string): (i: nat)
    ensures i <= |s|
    ensures forall j :: 0 <= j < i ==> s[j] != ' ' && s[j] != ','
    ensures i < |s| ==> s[i] == ' ' || s[i] == ','
  {
    if s == "" || s[0] == ' ' || s[0] == ',' then 0 else 1 + IndexOfEnd(s[1..])
  }

  /** parseHunkNewStart: the new-side start of a header, or None to skip the body. */
  function ParseHunkNewStart(header: string): Option<int> {
    var plus := IndexOf(header, '+');
    if plus == |header| then None
    else
      var rest := header[plus+1..];
      match Atoi(rest[..IndexOfEnd(rest)])
      case None => None
      case Some(n) => if n <= 0 then None else Some(n)
  }

  predicate Starts(line: string, c: char) { line != "" && line[0] == c }

  /** The numbered head-side lines, in order, of patch lines read from inside (Some) or outside (None)
      a hunk. */
  function Marks(lines: seq<string>, at: Option<int>): seq<(int, string)>
    decreases |lines|
  {
    if lines == [] then []
    else
      var line, rest := lines[0], lines[1..];
      if HasPrefix(line, "@@") then Marks(rest, ParseHunkNewStart(line))
      else if at.None? then Marks(rest, None)
      else if Starts(line, '+') || Starts(line, ' ') then [(at.value, line[1..])] + Marks(rest, Some(at.value + 1))
      else if Starts(line, '-') || Starts(line, '\\') then Marks(rest, at)
      else Marks(rest, None)
  }

  function Numbers(marks: seq<(int, string)>): set<int> {
    set i | 0 <= i < |marks| :: marks[i].0
  }

  lemma NumbersSplit(a: seq<(int, string)>, b: seq<(int, string)>)
    ensures Numbers(a + b) == Numbers(a) + Numbers(b)
  {
    forall i | 0 <= i < |a| ensures a[i].0 in Numbers(a + b) { assert (a + b)[i] == a[i]; }
    forall i | 0 <= i < |b| ensures b[i].0 in Numbers(a + b) { assert (a + b)[|a| + i] == b[i]; }
  }

  method CommentableLines(patch: string) returns (out: set<int>)
    ensures out == Numbers(Marks(SplitLines(patch), None))
  {
    out := {};
    var newLine, inHunk := 0, false;
    var lines := SplitLines(patch);
    for i := 0 to |lines|
      invariant out + Numbers(Marks(lines[i..], if inHunk then Some(newLine) else None)) == Numbers(Marks(lines, None))
    {
      var line := lines[i];
      assert lines[i..][0] == line && lines[i..][1..] == lines[i+1..];
      if HasPrefix(line, "@@") {
        var start := ParseHunkNewStart(line);
        newLine, inHunk := if start.Some? then start.value else 0, start.Some?;
      } else if inHunk {
        if Starts(line, '+') || Starts(line, ' ') {
          NumbersSplit([(newLine, line[1..])], Marks(lines[i+1..], Some(newLine + 1)));
          assert Numbers([(newLine, line[1..])]) == {newLine} by { assert [(newLine, line[1..])][0].0 == newLine; }
          out := out + {newLine};
          newLine := newLine + 1;
        } else if Starts(line, '-') || Starts(line, '\\') {
        } else {
          inHunk := false;
        }
      }
    }
  }

  // ---- What the parser finds in any patch ----

  /** The header's number: from the first plus sign up to a space, a comma or the end. */
  predicate NewSideNumber(header: string, left: string, number: string, tail: string) {
    && header == left + "+" + number + tail && '+' !in left
    && ' ' !in number && ',' !in number && (tail == "" || tail[0] == ' ' || tail[0] == ',')
  }

  lemma {:induction false} EndOfNumber(number: string, tail: string)
    requires ' ' !in number && ',' !in number && (tail == "" || tail[0] == ' ' || tail[0] == ',')
    ensures IndexOfEnd(number + tail) == |number|
    decreases |number|
  {
    if number == "" {
      assert number + tail == tail;
    } else {
      assert (number + tail)[1..] == number[1..] + tail;
      EndOfNumber(number[1..], tail);
    }
  }

  lemma AfterFirstPlus(left: string, rest: string)
    requires '+' !in left
    ensures var header := left + "+" + rest;
            IndexOf(header, '+') == |left| < |header| && header[|left|+1..] == rest
  {
    IndexOfPrefix(left, '+', rest);
    hide IndexOf;
  }

  lemma NewSideNumberIsUnique(header: string, left: string, number: string, tail: string)
    requires NewSideNumber(header, left, number, tail)
    ensures var plus := IndexOf(header, '+');
            && plus == |left| < |header|
            && var rest := header[plus+1..];
               rest == number + tail && rest[..IndexOfEnd(rest)] == number
  {
    hide IndexOf, IndexOfEnd;
    assert header == left + "+" + (number + tail);
    AfterFirstPlus(left, number + tail);
    EndOfNumber(number, tail);
  }

  /** A header starts its new side at a positive number in Atoi's sense, and else its body is skipped. */
  lemma HeaderStarts(header: string, n: int)
    ensures ParseHunkNewStart(header) == Some(n) <==>
        n > 0 && exists left, number, tail :: NewSideNumber(header, left, number, tail) && Atoi(number) == Some(n)
  {
    hide Atoi, IndexOf, IndexOfEnd;
    if ParseHunkNewStart(header) == Some(n) {
      var plus := IndexOf(header, '+');
      var rest := header[plus+1..];
      var end := IndexOfEnd(rest);
      assert header == header[..plus] + "+" + rest[..end] + rest[end..];
      assert NewSideNumber(header, header[..plus], rest[..end], rest[end..]);
    }
    hide NewSideNumber;
    if left, number, tail :| NewSideNumber(header, left, number, tail) && Atoi(number) == Some(n) {
      NewSideNumberIsUnique(header, left, number, tail);
    }
  }

  predicate HeadSide(line: string) { Starts(line, '+') || Starts(line, ' ') }

  predicate BodyLine(line: string) { HeadSide(line) || Starts(line, '-') || Starts(line, '\\') }

  function HeadSides(lines: seq<string>): nat {
    if lines == [] then 0 else (if HeadSide(lines[0]) then 1 else 0) + HeadSides(lines[1..])
  }

  /** From line i on there are only body lines up to line k. */
  predicate BodyUpTo(lines: seq<string>, i: int, k: int) {
    0 <= i <= k <= |lines| && forall j :: i <= j < k ==> BodyLine(lines[j])
  }

  /** Line k is a head-side line in the body that a header on line h begins, and has this number there. */
  ghost predicate MarkedFrom(lines: seq<string>, h: int, k: int, m: (int, string)) {
    && 0 <= h < k < |lines| && HasPrefix(lines[h], "@@") && BodyUpTo(lines, h + 1, k) && HeadSide(lines[k])
    && ParseHunkNewStart(lines[h]).Some?
    && m == (ParseHunkNewStart(lines[h]).value + HeadSides(lines[h+1..k]), lines[k][1..])
  }

  /** The same in a body that has begun before the first of the lines. */
  ghost predicate MarkedAt(lines: seq<string>, at: Option<int>, k: int, m: (int, string)) {
    && at.Some? && 0 <= k < |lines| && BodyUpTo(lines, 0, k) && HeadSide(lines[k])
    && m == (at.value + HeadSides(lines[..k]), lines[k][1..])
  }

  ghost predicate Marked(lines: seq<string>, at: Option<int>, m: (int, string)) {
    (exists h, k :: MarkedFrom(lines, h, k, m)) || exists k :: MarkedAt(lines, at, k, m)
  }

  lemma BodyUpToNext(lines: seq<string>, i: int, k: int)
    requires lines != []
    ensures i >= 0 ==> (BodyUpTo(lines, i + 1, k + 1) <==> BodyUpTo(lines[1..], i, k))
    ensures k >= 0 ==> (BodyUpTo(lines, 0, k + 1) <==> BodyLine(lines[0]) && BodyUpTo(lines[1..], 0, k))
  {
    hide BodyLine;
    forall j | 0 <= j < |lines[1..]| ensures lines[1..][j] == lines[j+1] { }
    if k >= 0 && BodyLine(lines[0]) && BodyUpTo(lines[1..], 0, k) {
      forall j | 0 <= j < k + 1 ensures BodyLine(lines[j]) { assert j > 0 ==> BodyLine(lines[1..][j-1]); }
    }
    if k >= 0 && BodyUpTo(lines, 0, k + 1) {
      forall j | 0 <= j < k ensures BodyLine(lines[1..][j]) { assert BodyLine(lines[j+1]); }
    }
    if i >= 0 && BodyUpTo(lines[1..], i, k) {
      forall j | i + 1 <= j < k + 1 ensures BodyLine(lines[j]) { assert BodyLine(lines[1..][j-1]); }
    }
    if i >= 0 && BodyUpTo(lines, i + 1, k + 1) {
      forall j | i <= j < k ensures BodyLine(lines[1..][j]) { assert BodyLine(lines[j+1]); }
    }
  }

  /** Marks of bodies that begin later are marks of the rest. */
  lemma MarkedFromNext(lines: seq<string>, h: int, k: int, m: (int, string))
    requires lines != [] && h >= 0
    ensures MarkedFrom(lines, h + 1, k + 1, m) <==> MarkedFrom(lines[1..], h, k, m)
  {
    BodyUpToNext(lines, h + 1, k);
    hide BodyUpTo, HeadSide;
    if 0 <= h < k < |lines[1..]| {
      assert lines[1..][h] == lines[h+1] && lines[1..][k] == lines[k+1];
      assert lines[1..][h+1..k] == lines[h+1+1..k+1];
    }
  }

  /** What the first line makes of the body that has begun. */
  function After(line: string, at: Option<int>): Option<int> {
    if HasPrefix(line, "@@") then ParseHunkNewStart(line)
    else if at.None? || !BodyLine(line) then None
    else Some(at.value + if HeadSide(line) then 1 else 0)
  }

  lemma HeaderIsNoBodyLine(line: string)
    ensures HasPrefix(line, "@@") ==> !BodyLine(line)
  {
    assert HasPrefix(line, "@@") ==> line[..2][0] == '@' && line[0] == '@';
  }

  lemma MarksStep(lines: seq<string>, at: Option<int>)
    requires lines != []
    ensures Marks(lines, at)
         == (if at.Some? && HeadSide(lines[0]) then [(at.value, lines[0][1..])] else [])
             + Marks(lines[1..], After(lines[0], at))
  {
    HeaderIsNoBodyLine(lines[0]);
  }

  /** A body that has begun goes on over the first line, or the first line is a header that begins one. */
  lemma MarkedAtNext(lines: seq<string>, at: Option<int>, k: int, m: (int, string))
    requires lines != [] && k >= 0
    ensures MarkedAt(lines[1..], After(lines[0], at), k, m)
       <==> MarkedAt(lines, at, k + 1, m) || MarkedFrom(lines, 0, k + 1, m)
  {
    HeaderIsNoBodyLine(lines[0]);
    BodyUpToNext(lines, 0, k);
    hide BodyUpTo, ParseHunkNewStart, Starts;
    if k < |lines[1..]| {
      assert lines[1..][k] == lines[k+1] && lines[1..][..k] == lines[1..k+1] == lines[0+1..k+1];
      assert lines[..k+1][1..] == lines[1..][..k] && lines[..k+1][0] == lines[0];
      assert HeadSides(lines[..k+1]) == (if HeadSide(lines[0]) then 1 else 0) + HeadSides(lines[1..][..k]);
    }
  }

  lemma MarkedBounds(lines: seq<string>, at: Option<int>, h: int, k: int, m: (int, string))
    ensures MarkedFrom(lines, h, k, m) ==> 0 <= h < k
    ensures MarkedAt(lines, at, k, m) ==> 0 <= k
  {
  }

  lemma MarkedLater(lines: seq<string>, at: Option<int>, m: (int, string))
    requires lines != [] && Marked(lines, at, m)
    ensures Marked(lines[1..], After(lines[0], at), m) || MarkedAt(lines, at, 0, m)
  {
    hide MarkedFrom, MarkedAt, After;
    if h, k :| MarkedFrom(lines, h, k, m) {
      MarkedBounds(lines, at, h, k, m);
      if h == 0 {
        MarkedAtNext(lines, at, k - 1, m);
      } else {
        MarkedFromNext(lines, h - 1, k - 1, m);
      }
    } else {
      var k :| MarkedAt(lines, at, k, m);
      MarkedBounds(lines, at, 0, k, m);
      if k > 0 { MarkedAtNext(lines, at, k - 1, m); }
    }
  }

  lemma MarkedEarlier(lines: seq<string>, at: Option<int>, m: (int, string))
    requires lines != [] && Marked(lines[1..], After(lines[0], at), m)
    ensures Marked(lines, at, m)
  {
    hide MarkedFrom, MarkedAt, After;
    var rest, at' := lines[1..], After(lines[0], at);
    if h, k :| MarkedFrom(rest, h, k, m) {
      MarkedBounds(rest, at', h, k, m);
      MarkedFromNext(lines, h, k, m);
    } else {
      var k :| MarkedAt(rest, at', k, m);
      MarkedBounds(rest, at', 0, k, m);
      MarkedAtNext(lines, at, k, m);
    }
  }

  lemma {:induction false} MarksAreMarked(lines: seq<string>, at: Option<int>, m: (int, string))
    ensures m in Marks(lines, at) <==> Marked(lines, at, m)
    decreases |lines|
  {
    if lines != [] {
      MarksAreMarked(lines[1..], After(lines[0], at), m);
      if Marked(lines, at, m) { MarkedLater(lines, at, m); }
      if Marked(lines[1..], After(lines[0], at), m) { MarkedEarlier(lines, at, m); }
      MarksStep(lines, at);
      assert MarkedAt(lines, at, 0, m) ==> Marked(lines, at, m);
      hide Marks, Marked, After, HeadSide;
      assert MarkedAt(lines, at, 0, m) <==> at.Some? && HeadSide(lines[0]) && m == (at.value, lines[0][1..]) by {
        assert BodyUpTo(lines, 0, 0) && lines[..0] == [];
      }
    }
  }

  /** Main result, for any patch, well formed or not: a line is marked exactly if it is a head-side line and
      only body lines are between it and a header, and its number is the header's start and one more for
      each head-side line between. */
  lemma ParserFindsExactly(patch: string, m: (int, string))
    ensures var lines := SplitLines(patch);
            m in Marks(lines, None) <==> exists h, k :: MarkedFrom(lines, h, k, m)
  {
    MarksAreMarked(SplitLines(patch), None, m);
    hide Marks, SplitLines, MarkedFrom;
  }

  // ---- Unified diffs ----

  datatype PatchLine = Added(text: string) | Removed(text: string) | Context(text: string) | NoNewline

  /** A hunk; a count of 1 may be left out of its header. */
  datatype Hunk = Hunk(oldStart: nat, newStart: nat, showCounts: bool, section: string, lines: seq<PatchLine>)

  function NewSide(lines: seq<PatchLine>): seq<string> {
    if lines == [] then []
    else (if lines[0].Added? || lines[0].Context? then [lines[0].text] else []) + NewSide(lines[1..])
  }

  function OldSide(lines: seq<PatchLine>): seq<string> {
    if lines == [] then []
    else (if lines[0].Removed? || lines[0].Context? then [lines[0].text] else []) + OldSide(lines[1..])
  }

  /** Zero-based position of a side; an empty side is numbered by the line before it. */
  function Position(start: nat, side: seq<string>): int { if side == [] then start else start - 1 }

  /** From positions i and j on, the hunks turn the base text into the head text: equal up to the next
      hunk, whose sides are there, and so on. */
  predicate Turns(base: seq<string>, head: seq<string>, hunks: seq<Hunk>, i: nat, j: nat)
    requires i <= |base| && j <= |head|
    decreases |hunks|
  {
    if hunks == [] then base[i..] == head[j..]
    else
      var h := hunks[0];
      var before, after := OldSide(h.lines), NewSide(h.lines);
      var p, q := Position(h.oldStart, before), Position(h.newStart, after);
      && i <= p && p + |before| <= |base| && j <= q && q + |after| <= |head|
      && base[i..p] == head[j..q]
      && base[p..p+|before|] == before && head[q..q+|after|] == after
      && Turns(base, head, hunks[1..], p + |before|, q + |after|)
  }

  // ---- Printing ----

  function Range(start: nat, count: nat, shown: bool): string {
    if count == 1 && !shown then Digits(start) else Digits(start) + "," + Digits(count)
  }

  function Header(h: Hunk): string {
    "@@ -" + Range(h.oldStart, |OldSide(h.lines)|, h.showCounts) + " +"
        + Range(h.newStart, |NewSide(h.lines)|, h.showCounts) + " @@" + h.section
  }

  const NO_NEWLINE := " No newline at end of file"

  function Sign(l: PatchLine): char {
    match l
    case Added(_) => '+'
    case Removed(_) => '-'
    case Context(_) => ' '
    case NoNewline => '\\'
  }

  function PrintLine(l: PatchLine): string {
    [Sign(l)] + if l.NoNewline? then NO_NEWLINE else l.text
  }

  function PrintLines(ls: seq<PatchLine>): seq<string> {
    if ls == [] then [] else [PrintLine(ls[0])] + PrintLines(ls[1..])
  }

  function PrintHunk(h: Hunk): seq<string> { [Header(h)] + PrintLines(h.lines) }

  function PrintHunks(hs: seq<Hunk>): seq<string> {
    if hs == [] then [] else PrintHunk(hs[0]) + PrintHunks(hs[1..])
  }

  function Join(lines: seq<string>): string {
    if lines == [] then "" else if |lines| == 1 then lines[0] else lines[0] + "\n" + Join(lines[1..])
  }

  /** Texts are lines, and line numbers are what an int can hold. */
  predicate Printable(h: Hunk) {
    && '\n' !in h.section && h.newStart <= MAX_INT
    && (NewSide(h.lines) != [] ==> h.newStart > 0)
    && forall i :: 0 <= i < |h.lines| ==> h.lines[i].NoNewline? || '\n' !in h.lines[i].text
  }

  /** The head-side lines of the hunks, by number. */
  function Numbered(start: int, side: seq<string>): seq<(int, string)>
    decreases |side|
  {
    if side == [] then [] else [(start, side[0])] + Numbered(start + 1, side[1..])
  }

  function HeadLines(hs: seq<Hunk>): seq<(int, string)> {
    if hs == [] then [] else Numbered(hs[0].newStart, NewSide(hs[0].lines)) + HeadLines(hs[1..])
  }

  // ---- Reading a printed patch ----

  lemma IndexOfEndAfterDigits(d: string, tail: string)
    requires AllDigits(d) && tail != "" && (tail[0] == ' ' || tail[0] == ',')
    ensures IndexOfEnd(d + tail) == |d|
  {
    if d == "" {
      assert d + tail == tail;
    } else {
      assert (d + tail)[1..] == d[1..] + tail;
      IndexOfEndAfterDigits(d[1..], tail);
    }
  }

  lemma ParsesAfterPlus(header: string, left: string, n: nat, tail: string)
    requires header == left + ['+'] + (Digits(n) + tail) && '+' !in left
    requires tail != "" && (tail[0] == ' ' || tail[0] == ',') && n <= MAX_INT
    ensures ParseHunkNewStart(header) == if n == 0 then None else Some(n)
  {
    var rest := Digits(n) + tail;
    IndexOfPrefix(left, '+', rest);
    assert header[|left|+1..] == rest;
    IndexOfEndAfterDigits(Digits(n), tail);
    assert rest[..|Digits(n)|] == Digits(n);
    AtoiItoa(n);
  }

  /** A range has only digits and perhaps a comma in it. */
  lemma RangeChars(start: nat, count: nat, shown: bool, i: nat)
    requires i < |Range(start, count, shown)|
    ensures IsDigit(Range(start, count, shown)[i]) || Range(start, count, shown)[i] == ','
  {
  }

  function LeftOf(h: Hunk): string { "@@ -" + Range(h.oldStart, |OldSide(h.lines)|, h.showCounts) + " " }

  function RightOf(h: Hunk): string {
    var count := |NewSide(h.lines)|;
    (if count == 1 && !h.showCounts then " @@" else "," + Digits(count) + " @@") + h.section
  }

  lemma HeaderSplits(h: Hunk)
    ensures Header(h) == LeftOf(h) + ['+'] + (Digits(h.newStart) + RightOf(h))
  {
    hide Digits, OldSide, NewSide;
    var oldRange, left := Range(h.oldStart, |OldSide(h.lines)|, h.showCounts), LeftOf(h);
    var count, start := |NewSide(h.lines)|, Digits(h.newStart);
    var range := Range(h.newStart, count, h.showCounts);
    RangeThenTail(h.newStart, count, h.showCounts, h.section);
    hide Range, RightOf;
    assert left + ['+'] + (range + (" @@" + h.section)) == "@@ -" + oldRange + " +" + range + " @@" + h.section;
  }

  lemma RangeThenTail(start: nat, count: nat, shown: bool, section: string)
    ensures Range(start, count, shown) + (" @@" + section)
         == Digits(start) + ((if count == 1 && !shown then " @@" else "," + Digits(count) + " @@") + section)
  {
    hide Digits;
    var s, c := Digits(start), Digits(count);
    assert (s + "," + c) + (" @@" + section) == s + (("," + c + " @@") + section);
  }

  lemma LeftOfHeader(h: Hunk)
    ensures '+' !in LeftOf(h) && '\n' !in LeftOf(h) && HasPrefix(LeftOf(h), "@@")
  {
    var range := Range(h.oldStart, |OldSide(h.lines)|, h.showCounts);
    forall i | 0 <= i < |range| ensures range[i] != '+' && range[i] != '\n' {
      RangeChars(h.oldStart, |OldSide(h.lines)|, h.showCounts, i);
    }
    hide Range;
  }

  lemma RightOfHeader(h: Hunk)
    requires '\n' !in h.section
    ensures RightOf(h) != "" && (RightOf(h)[0] == ' ' || RightOf(h)[0] == ',') && '\n' !in RightOf(h)
  {
    hide NewSide;
  }

  lemma HeaderParses(h: Hunk)
    requires Printable(h)
    ensures HasPrefix(Header(h), "@@") && '\n' !in Header(h)
    ensures ParseHunkNewStart(Header(h)) == if h.newStart == 0 then None else Some(h.newStart)
  {
    hide Header, LeftOf, RightOf, ParseHunkNewStart;
    var left, right, digits := LeftOf(h), RightOf(h), Digits(h.newStart);
    HeaderSplits(h);
    LeftOfHeader(h);
    RightOfHeader(h);
    ParsesAfterPlus(Header(h), left, h.newStart, right);
    assert (left + ['+'] + (digits + right))[..2] == left[..2];
    hide Digits;
  }

  lemma LineMarksBySign(line: string, rest: seq<string>, at: Option<int>)
    requires Starts(line, '+') || Starts(line, ' ') || Starts(line, '-') || Starts(line, '\\')
    ensures Marks([line] + rest, at)
              == if at.Some? && (line[0] == '+' || line[0] == ' ')
                  then [(at.value, line[1..])] + Marks(rest, Some(at.value + 1)) else Marks(rest, at)
  {
    var lines := [line] + rest;
    assert lines[0] == line && lines[1..] == rest && line[0] != '@';
  }

  lemma LineMarks(l: PatchLine, rest: seq<string>, at: Option<int>)
    ensures var head := l.Added? || l.Context?;
            Marks([PrintLine(l)] + rest, at)
              == if at.Some? && head then [(at.value, l.text)] + Marks(rest, Some(at.value + 1)) else Marks(rest, at)
  {
    LineMarksBySign(PrintLine(l), rest, at);
    assert l.Added? || l.Context? ==> PrintLine(l)[1..] == l.text;
  }

  lemma HeaderMarks(h: Hunk, rest: seq<string>, at: Option<int>)
    requires Printable(h)
    ensures Marks([Header(h)] + rest, at) == Marks(rest, if h.newStart == 0 then None else Some(h.newStart))
  {
    HeaderParses(h);
    assert ([Header(h)] + rest)[1..] == rest;
  }

  lemma Regroup(a: seq<string>, b: seq<string>, c: seq<string>)
    ensures (a + b) + c == a + (b + c)
  {
  }

  lemma HeadedMarks(header: string, body: seq<string>, rest: seq<string>, at: Option<int>)
    ensures Marks(([header] + body) + rest, at) == Marks([header] + (body + rest), at)
  {
    Regroup([header], body, rest);
  }

  /** The printed lines, put in front of the rest one by one. */
  function Onto(ls: seq<PatchLine>, rest: seq<string>): seq<string> {
    if ls == [] then rest else [PrintLine(ls[0])] + Onto(ls[1..], rest)
  }

  /** Their head-side lines, put in front of those of the rest. */
  function NumberedOnto(ls: seq<PatchLine>, at: Option<int>, rest: seq<string>): seq<(int, string)>
    decreases |ls|
  {
    if ls == [] then Marks(rest, at)
    else if at.Some? && (ls[0].Added? || ls[0].Context?)
        then [(at.value, ls[0].text)] + NumberedOnto(ls[1..], Some(at.value + 1), rest)
    else NumberedOnto(ls[1..], at, rest)
  }

  lemma {:induction false} OntoIsSum(ls: seq<PatchLine>, rest: seq<string>)
    ensures Onto(ls, rest) == PrintLines(ls) + rest
  {
    hide PrintLine;
    if ls != [] {
      OntoIsSum(ls[1..], rest);
      Regroup([PrintLine(ls[0])], PrintLines(ls[1..]), rest);
    }
  }

  lemma {:induction false} OntoMarks(ls: seq<PatchLine>, at: Option<int>, rest: seq<string>)
    ensures Marks(Onto(ls, rest), at) == NumberedOnto(ls, at, rest)
    decreases |ls|
  {
    hide PrintLine, Marks;
    if ls != [] {
      LineMarks(ls[0], Onto(ls[1..], rest), at);
      OntoMarks(ls[1..], if at.Some? && (ls[0].Added? || ls[0].Context?) then Some(at.value + 1) else at, rest);
    }
  }

  lemma NumberedStep(start: int, text: string, side: seq<string>, tail: seq<(int, string)>)
    ensures Numbered(start, [text] + side) + tail == [(start, text)] + (Numbered(start + 1, side) + tail)
  {
    assert ([text] + side)[1..] == side;
  }

  lemma {:induction false} NumberedOntoIsSum(ls: seq<PatchLine>, at: Option<int>, rest: seq<string>)
    requires at.None? ==> NewSide(ls) == []
    ensures NumberedOnto(ls, at, rest)
         == if at.None? then Marks(rest, None)
            else Numbered(at.value, NewSide(ls)) + Marks(rest, Some(at.value + |NewSide(ls)|))
    decreases |ls|
  {
    hide Marks, Numbered;
    if ls == [] {
      if at.Some? {
        NothingNumbered(at.value, Marks(rest, at));
      }
    } else if at.Some? && (ls[0].Added? || ls[0].Context?) {
      var side := NewSide(ls[1..]);
      NumberedOntoIsSum(ls[1..], Some(at.value + 1), rest);
      NumberedStep(at.value, ls[0].text, side, Marks(rest, Some(at.value + 1 + |side|)));
    } else {
      NumberedOntoIsSum(ls[1..], at, rest);
      assert NewSide(ls) == NewSide(ls[1..]);
    }
  }

  lemma BodyMarks(ls: seq<PatchLine>, at: Option<int>, rest: seq<string>)
    requires at.None? ==> NewSide(ls) == []
    ensures Marks(PrintLines(ls) + rest, at)
         == if at.None? then Marks(rest, None)
            else Numbered(at.value, NewSide(ls)) + Marks(rest, Some(at.value + |NewSide(ls)|))
  {
    hide Marks, Numbered, NewSide, PrintLines;
    OntoIsSum(ls, rest);
    OntoMarks(ls, at, rest);
    NumberedOntoIsSum(ls, at, rest);
  }

  lemma NothingNumbered(start: int, tail: seq<(int, string)>)
    ensures Numbered(start, []) + tail == tail
  {
  }

  lemma BodyMarksFrom(h: Hunk, rest: seq<string>)
    requires Printable(h)
    ensures Marks(PrintLines(h.lines) + rest, if h.newStart == 0 then None else Some(h.newStart))
         == Numbered(h.newStart, NewSide(h.lines))
             + Marks(rest, if h.newStart == 0 then None else Some(h.newStart + |NewSide(h.lines)|))
  {
    BodyMarks(h.lines, if h.newStart == 0 then None else Some(h.newStart), rest);
    hide Marks, PrintLines, NewSide;
    NothingNumbered(h.newStart, Marks(rest, None));
  }

  lemma HunkMarks(h: Hunk, rest: seq<string>, at: Option<int>)
    requires Printable(h)
    ensures Marks(PrintHunk(h) + rest, at)
         == Numbered(h.newStart, NewSide(h.lines))
             + Marks(rest, if h.newStart == 0 then None else Some(h.newStart + |NewSide(h.lines)|))
  {
    hide Header, Marks, Printable, Numbered, NewSide, PrintLines;
    BodyMarksFrom(h, rest);
    HeaderMarks(h, PrintLines(h.lines) + rest, at);
    HeadedMarks(Header(h), PrintLines(h.lines), rest, at);
  }

  /** A patch may end in a newline, which leaves an empty last element. */
  lemma TailMarks(at: Option<int>, tail: seq<string>)
    requires tail == [] || tail == [""]
    ensures Marks(tail, at) == []
  {
    if tail != [] {
      assert tail[1..] == [];
    }
  }

  lemma {:induction false} PatchMarks(hs: seq<Hunk>, at: Option<int>, tail: seq<string>)
    requires forall i :: 0 <= i < |hs| ==> Printable(hs[i])
    requires tail == [] || tail == [""]
    ensures Marks(PrintHunks(hs) + tail, at) == HeadLines(hs)
    decreases |hs|
  {
    hide PrintHunk, Marks, Printable;
    if hs == [] {
      assert PrintHunks(hs) + tail == tail;
      TailMarks(at, tail);
    } else {
      var rest := PrintHunks(hs[1..]) + tail;
      PatchMarks(hs[1..], if hs[0].newStart == 0 then None else Some(hs[0].newStart + |NewSide(hs[0].lines)|), tail);
      HunkMarks(hs[0], rest, at);
      assert PrintHunks(hs) + tail == PrintHunk(hs[0]) + rest;
    }
  }

  lemma {:induction false} SplitInvertsJoin(lines: seq<string>)
    requires lines != [] && forall i :: 0 <= i < |lines| ==> '\n' !in lines[i]
    ensures SplitLines(Join(lines)) == lines
    decreases |lines|
  {
    var s := Join(lines);
    if |lines| == 1 {
      assert IndexOf(s, '\n') == |s|;
    } else {
      var rest := Join(lines[1..]);
      assert s == lines[0] + ['\n'] + rest;
      IndexOfPrefix(lines[0], '\n', rest);
      assert s[..|lines[0]|] == lines[0] && s[|lines[0]|+1..] == rest;
      SplitInvertsJoin(lines[1..]);
    }
  }

  lemma {:induction false} LinesAreLines(ls: seq<PatchLine>)
    requires forall i :: 0 <= i < |ls| ==> ls[i].NoNewline? || '\n' !in ls[i].text
    ensures forall i :: 0 <= i < |PrintLines(ls)| ==> '\n' !in PrintLines(ls)[i]
  {
    if ls != [] {
      assert '\n' !in PrintLine(ls[0]);
      LinesAreLines(ls[1..]);
    }
  }

  lemma {:induction false} HunksAreLines(hs: seq<Hunk>)
    requires forall i :: 0 <= i < |hs| ==> Printable(hs[i])
    ensures forall i :: 0 <= i < |PrintHunks(hs)| ==> '\n' !in PrintHunks(hs)[i]
  {
    if hs != [] {
      HeaderParses(hs[0]);
      LinesAreLines(hs[0].lines);
      HunksAreLines(hs[1..]);
    }
  }

  lemma {:induction false} NumberedAt(start: int, side: seq<string>)
    ensures |Numbered(start, side)| == |side|
    ensures forall k :: 0 <= k < |side| ==> Numbered(start, side)[k] == (start + k, side[k])
    decreases |side|
  {
    if side != [] {
      NumberedAt(start + 1, side[1..]);
    }
  }

  lemma NumberedInHead(head: seq<string>, start: nat, side: seq<string>, m: (int, string))
    requires var q := Position(start, side); 0 <= q && q + |side| <= |head| && head[q..q+|side|] == side
    requires m in Numbered(start, side)
    ensures 1 <= m.0 <= |head| && head[m.0 - 1] == m.1
  {
    NumberedAt(start, side);
    var k :| 0 <= k < |side| && Numbered(start, side)[k] == m;
    assert head[start-1..start-1+|side|][k] == head[start - 1 + k];
  }

  /** Each numbered line of the hunks is that line of the head text. */
  lemma {:induction false} HeadLinesAreInHead(base: seq<string>, head: seq<string>, hs: seq<Hunk>, i: nat, j: nat,
      m: (int, string))
    requires i <= |base| && j <= |head| && Turns(base, head, hs, i, j)
    requires m in HeadLines(hs)
    ensures 1 <= m.0 <= |head| && head[m.0 - 1] == m.1
    decreases |hs|
  {
    var h := hs[0];
    var before, after := OldSide(h.lines), NewSide(h.lines);
    hide OldSide, NewSide, Numbered;
    if m in Numbered(h.newStart, after) {
      NumberedInHead(head, h.newStart, after, m);
    } else {
      var p, q := Position(h.oldStart, before) + |before|, Position(h.newStart, after) + |after|;
      HeadLinesAreInHead(base, head, hs[1..], p, q, m);
    }
  }

  /** Line n of the head text is in the new-side range of a hunk. */
  predicate InSpan(h: Hunk, n: int) { h.newStart <= n < h.newStart + |NewSide(h.lines)| }

  predicate InNewRanges(hs: seq<Hunk>, n: int) { exists i :: 0 <= i < |hs| && InSpan(hs[i], n) }

  lemma NumberedSpan(h: Hunk, n: int)
    ensures n in Numbers(Numbered(h.newStart, NewSide(h.lines))) <==> InSpan(h, n)
  {
    var marks := Numbered(h.newStart, NewSide(h.lines));
    NumberedAt(h.newStart, NewSide(h.lines));
    if InSpan(h, n) {
      assert marks[n - h.newStart].0 == n;
    }
  }

  lemma {:induction false} HeadLinesAreTheRanges(hs: seq<Hunk>, n: int)
    ensures n in Numbers(HeadLines(hs)) <==> InNewRanges(hs, n)
    decreases |hs|
  {
    if hs != [] {
      NumberedSpan(hs[0], n);
      NumbersSplit(Numbered(hs[0].newStart, NewSide(hs[0].lines)), HeadLines(hs[1..]));
      HeadLinesAreTheRanges(hs[1..], n);
      assert InNewRanges(hs, n) <==> InSpan(hs[0], n) || InNewRanges(hs[1..], n) by {
        if i :| 0 <= i < |hs[1..]| && InSpan(hs[1..][i], n) {
          assert hs[i+1] == hs[1..][i];
        }
        if i :| 0 < i < |hs| && InSpan(hs[i], n) {
          assert hs[1..][i-1] == hs[i];
        }
      }
    }
  }

  /** Main result: for a patch printed from hunks that turn one text into another, the parser finds
      exactly the head line numbers of the added and context lines, and the head text has there what
      the patch line says. */
  lemma ParserFindsTheHeadLines(base: seq<string>, head: seq<string>, hs: seq<Hunk>, trailingNewline: bool)
    requires hs != [] && (forall i :: 0 <= i < |hs| ==> Printable(hs[i])) && Turns(base, head, hs, 0, 0)
    ensures var marks := Marks(SplitLines(Join(PrintHunks(hs) + if trailingNewline then [""] else [])), None);
            && (forall n :: n in Numbers(marks) <==> InNewRanges(hs, n))
            && forall m :: m in marks ==> 1 <= m.0 <= |head| && head[m.0 - 1] == m.1
  {
    var tail := if trailingNewline then [""] else [];
    HunksAreLines(hs);
    SplitInvertsJoin(PrintHunks(hs) + tail);
    PatchMarks(hs, None, tail);
    forall m | m in HeadLines(hs) ensures 1 <= m.0 <= |head| && head[m.0 - 1] == m.1 {
      HeadLinesAreInHead(base, head, hs, 0, 0, m);
    }
    forall n ensures n in Numbers(HeadLines(hs)) <==> InNewRanges(hs, n) {
      HeadLinesAreTheRanges(hs, n);
    }
  }
}
