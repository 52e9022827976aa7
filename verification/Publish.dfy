/** Publishing a review: which findings are posted, and the writes to GitHub in their order. */
module Publish {
  import opened Wrappers
  import opened Findings
  import opened Messages
  import opened Text
  import opened Markers
  import Hunks

  // ---- Where a finding goes ----

  datatype File = File(path: string, patch: string)

  type DiffIndex = map<string, set<int>>

  function Commentable(patch: string): set<int> { Hunks.Numbers(Hunks.Marks(Hunks.SplitLines(patch), None)) }

  function Index(files: seq<File>): DiffIndex {
    if files == [] then map[]
    else Index(files[..|files|-1])[files[|files|-1].path := Commentable(files[|files|-1].patch)]
  }

  method NewDiffIndex(files: seq<File>) returns (idx: DiffIndex)
    ensures idx == Index(files)
  {
    idx := map[];
    for i := 0 to |files|
      invariant idx == Index(files[..i])
    {
      assert files[..i+1][..i] == files[..i];
      var lines := Hunks.CommentableLines(files[i].patch);
      idx := idx[files[i].path := lines];
    }
    assert files[..|files|] == files;
  }

  /** The last file listed under a path. */
  predicate LastOf(files: seq<File>, path: string, i: int) {
    0 <= i < |files| && files[i].path == path && forall j :: i < j < |files| ==> files[j].path != path
  }

  /** It decides which lines of the path can carry a comment. */
  lemma {:induction false} IndexFindsLines(files: seq<File>, path: string)
    ensures path in Index(files) <==> exists i :: 0 <= i < |files| && files[i].path == path
    ensures forall i :: LastOf(files, path, i) ==>
              path in Index(files) && Index(files)[path] == Commentable(files[i].patch)
    ensures path in Index(files) ==> exists i :: LastOf(files, path, i)
    decreases |files|
  {
    hide Commentable;
    if files != [] {
      var n := |files| - 1;
      IndexFindsLines(files[..n], path);
      if files[n].path == path {
        assert LastOf(files, path, n);
      } else {
        forall i ensures LastOf(files, path, i) <==> LastOf(files[..n], path, i) { }
      }
    }
  }

  datatype Slot = Inline | OutOfDiff | Nitpicks

  function SlotOf(f: Finding, idx: DiffIndex): Slot {
    if f.severity.Nitpick? then Nitpicks
    else if f.file != "" && f.line > 0 && f.file in idx && f.line in idx[f.file] then Inline
    else OutOfDiff
  }

  function Selected(fs: seq<Finding>, idx: DiffIndex, slot: Slot): seq<Finding> {
    if fs == [] then []
    else (if SlotOf(fs[0], idx) == slot then [fs[0]] else []) + Selected(fs[1..], idx, slot)
  }

  /** acc is what of the first i findings goes into the slot. */
  ghost predicate Sorted(acc: seq<Finding>, fs: seq<Finding>, i: int, idx: DiffIndex, slot: Slot) {
    0 <= i <= |fs| && acc + Selected(fs[i..], idx, slot) == Selected(fs, idx, slot)
  }

  lemma SortOneMore(acc: seq<Finding>, fs: seq<Finding>, i: int, idx: DiffIndex, slot: Slot)
    requires Sorted(acc, fs, i, idx, slot) && i < |fs|
    ensures Sorted(if SlotOf(fs[i], idx) == slot then acc + [fs[i]] else acc, fs, i + 1, idx, slot)
  {
    assert fs[i..][1..] == fs[i+1..];
  }

  lemma SortedAll(acc: seq<Finding>, fs: seq<Finding>, idx: DiffIndex, slot: Slot)
    ensures Sorted([], fs, 0, idx, slot)
    ensures Sorted(acc, fs, |fs|, idx, slot) ==> acc == Selected(fs, idx, slot)
  {
    assert fs[0..] == fs;
  }

  lemma {:induction false} SelectedIn(fs: seq<Finding>, idx: DiffIndex, slot: Slot)
    ensures forall f :: f in Selected(fs, idx, slot) <==> f in fs && SlotOf(f, idx) == slot
  {
    if fs != [] {
      SelectedIn(fs[1..], idx, slot);
      assert forall f :: f in fs <==> f == fs[0] || f in fs[1..];
    }
  }

  /** In words: above a nitpick and on a commentable line goes inline, nitpicks are collapsed, and whatever
      is neither is listed. */
  ghost predicate AreClassified(fs: seq<Finding>, idx: DiffIndex, inline: seq<Finding>, outOfDiff: seq<Finding>,
      nitpicks: seq<Finding>) {
    && (forall f :: f in inline <==>
          && f in fs && !f.severity.Nitpick? && f.file != "" && f.line > 0
          && f.file in idx && f.line in idx[f.file])
    && (forall f :: f in nitpicks <==> f in fs && f.severity.Nitpick?)
    && (forall f :: f in outOfDiff <==>
          && f in fs && !f.severity.Nitpick?
          && (f.file == "" || f.line <= 0 || f.file !in idx || f.line !in idx[f.file]))
  }

  lemma SelectedAreClassified(fs: seq<Finding>, idx: DiffIndex)
    ensures AreClassified(fs, idx, Selected(fs, idx, Inline), Selected(fs, idx, OutOfDiff), Selected(fs, idx, Nitpicks))
  {
    SelectedIn(fs, idx, Inline);
    SelectedIn(fs, idx, Nitpicks);
    SelectedIn(fs, idx, OutOfDiff);
    hide Selected;
  }

  method Classify(findings: seq<Finding>, idx: DiffIndex)
    returns (inline: seq<Finding>, outOfDiff: seq<Finding>, nitpicks: seq<Finding>)
    ensures inline == Selected(findings, idx, Inline)
    ensures outOfDiff == Selected(findings, idx, OutOfDiff)
    ensures nitpicks == Selected(findings, idx, Nitpicks)
    ensures AreClassified(findings, idx, inline, outOfDiff, nitpicks)
  {
    SelectedAreClassified(findings, idx);
    hide Selected, Sorted, AreClassified;
    inline, outOfDiff, nitpicks := [], [], [];
    SortedAll(inline, findings, idx, Inline);
    SortedAll(outOfDiff, findings, idx, OutOfDiff);
    SortedAll(nitpicks, findings, idx, Nitpicks);
    for i := 0 to |findings|
      invariant Sorted(inline, findings, i, idx, Inline)
      invariant Sorted(outOfDiff, findings, i, idx, OutOfDiff)
      invariant Sorted(nitpicks, findings, i, idx, Nitpicks)
    {
      var f := findings[i];
      SortOneMore(inline, findings, i, idx, Inline);
      SortOneMore(outOfDiff, findings, i, idx, OutOfDiff);
      SortOneMore(nitpicks, findings, i, idx, Nitpicks);
      if f.severity.Nitpick? {
        nitpicks := nitpicks + [f];
        continue;
      }
      if f.file != "" && f.line > 0 && f.file in idx && f.line in idx[f.file] {
        inline := inline + [f];
        continue;
      }
      outOfDiff := outOfDiff + [f];
    }
    SortedAll(inline, findings, idx, Inline);
    SortedAll(outOfDiff, findings, idx, OutOfDiff);
    SortedAll(nitpicks, findings, idx, Nitpicks);
  }

  /** No finding is dropped and none is listed twice. */
  lemma {:induction false} NothingIsDropped(fs: seq<Finding>, idx: DiffIndex)
    ensures multiset(Selected(fs, idx, Inline)) + multiset(Selected(fs, idx, OutOfDiff))
        + multiset(Selected(fs, idx, Nitpicks))
         == multiset(fs)
  {
    if fs != [] {
      NothingIsDropped(fs[1..], idx);
      assert fs == [fs[0]] + fs[1..];
    }
  }

  /** What goes inline is above a nitpick, and on a line that the parser finds in the last patch of its
      file... */
  lemma InlineLinesAreInTheDiff(fs: seq<Finding>, files: seq<File>, f: Finding)
    requires f in Selected(fs, Index(files), Inline)
    ensures f in fs && !f.severity.Nitpick? && f.line > 0
    ensures exists i :: LastOf(files, f.file, i) && f.line in Commentable(files[i].patch)
  {
    SelectedIn(fs, Index(files), Inline);
    IndexFindsLines(files, f.file);
  }

  /** ... which, if that patch is the printed difference between two texts, is a line of the head text
      in the new-side range of a hunk, with the text that the patch shows there. */
  lemma InlineLinesAreHeadLines(fs: seq<Finding>, files: seq<File>, f: Finding, i: nat, base: seq<string>,
      head: seq<string>, hs: seq<Hunks.Hunk>, trailingNewline: bool)
    requires f in Selected(fs, Index(files), Inline) && LastOf(files, f.file, i)
    requires hs != [] && (forall k :: 0 <= k < |hs| ==> Hunks.Printable(hs[k])) && Hunks.Turns(base, head, hs, 0, 0)
    requires files[i].patch == Hunks.Join(Hunks.PrintHunks(hs) + if trailingNewline then [""] else [])
    ensures 1 <= f.line <= |head| && Hunks.InNewRanges(hs, f.line)
    ensures (f.line, head[f.line-1]) in Hunks.Marks(Hunks.SplitLines(files[i].patch), None)
  {
    SelectedIn(fs, Index(files), Inline);
    IndexFindsLines(files, f.file);
    Hunks.ParserFindsTheHeadLines(base, head, hs, trailingNewline);
    hide Hunks.Marks, Hunks.SplitLines, Hunks.Turns, Hunks.Printable, Hunks.Join, Hunks.PrintHunks;
    var marks := Hunks.Marks(Hunks.SplitLines(files[i].patch), None);
    assert f.line in Hunks.Numbers(marks);
    var k :| 0 <= k < |marks| && marks[k].0 == f.line;
    assert marks[k] in marks;
  }

  predicate DistinctPrints(fs: seq<Finding>) {
    forall i, j :: 0 <= i < j < |fs| ==> Fingerprint(fs[i]) != Fingerprint(fs[j])
  }

  /** Findings without a fingerprint twice stay so in each list. */
  lemma {:induction false} SelectedStaysDistinct(fs: seq<Finding>, idx: DiffIndex, slot: Slot)
    requires DistinctPrints(fs)
    ensures DistinctPrints(Selected(fs, idx, slot))
  {
    hide Fingerprint;
    if fs != [] {
      var rest := Selected(fs[1..], idx, slot);
      SelectedStaysDistinct(fs[1..], idx, slot);
      forall i | 0 <= i < |rest| ensures Fingerprint(rest[i]) != Fingerprint(fs[0]) {
        SelectedIn(fs[1..], idx, slot);
        assert rest[i] in fs[1..];
      }
    }
  }

  // ---- sort.Strings ----

  /** Go's <= on strings. */
  predicate AtMost(a: string, b: string) {
    a == "" || (b != "" && (a[0] < b[0] || (a[0] == b[0] && AtMost(a[1..], b[1..]))))
  }

  predicate Ordered(s: seq<string>) { forall i, j :: 0 <= i < j < |s| ==> AtMost(s[i], s[j]) }

  lemma {:induction false} AtMostIsTotal(a: string, b: string)
    ensures AtMost(a, b) || AtMost(b, a)
  {
    if a != "" && b != "" && a[0] == b[0] {
      AtMostIsTotal(a[1..], b[1..]);
    }
  }

  lemma {:induction false} AtMostIsTransitive(a: string, b: string, c: string)
    requires AtMost(a, b) && AtMost(b, c)
    ensures AtMost(a, c)
  {
    if a != "" && a[0] == b[0] == c[0] {
      AtMostIsTransitive(a[1..], b[1..], c[1..]);
    }
  }

  /** The strings agree up to k, and there the first ends or has less. */
  predicate LessFrom(a: string, b: string, k: int) {
    0 <= k <= |a| && k <= |b| && a[..k] == b[..k] && (k == |a| || (k < |b| && a[k] < b[k]))
  }

  lemma LessFromNext(a: string, b: string, k: nat)
    requires a != "" && b != ""
    ensures LessFrom(a, b, k + 1) <==> a[0] == b[0] && LessFrom(a[1..], b[1..], k)
  {
    if k < |a| && k < |b| {
      var x, y := a[..k+1], b[..k+1];
      assert x == [a[0]] + a[1..][..k] && y == [b[0]] + b[1..][..k];
      if x == y { assert x[0] == y[0] && x[1..] == a[1..][..k] && y[1..] == b[1..][..k]; }
    }
  }

  lemma {:induction false} AtMostInWords(a: string, b: string)
    ensures AtMost(a, b) <==> exists k :: LessFrom(a, b, k)
  {
    assert (a == "" || (b != "" && a[0] < b[0])) <==> LessFrom(a, b, 0);
    if a != "" && b != "" {
      AtMostInWords(a[1..], b[1..]);
      assert forall k :: LessFrom(a, b, k) || LessFrom(a[1..], b[1..], k) ==> k >= 0;
      hide LessFrom;
      forall k | k > 0 ensures LessFrom(a, b, k) <==> a[0] == b[0] && LessFrom(a[1..], b[1..], k - 1) {
        LessFromNext(a, b, k - 1);
      }
      if k :| LessFrom(a[1..], b[1..], k) && a[0] == b[0] { assert LessFrom(a, b, k + 1); }
    }
  }

  function Insert(x: string, s: seq<string>): (r: seq<string>)
    requires Ordered(s)
    ensures Ordered(r) && multiset(r) == multiset([x]) + multiset(s)
  {
    if s == [] then [x]
    else if AtMost(x, s[0]) then
      InsertFirst(x, s);
      [x] + s
    else
      var r := Insert(x, s[1..]);
      InsertLater(x, s, r);
      [s[0]] + r
  }

  lemma InsertFirst(x: string, s: seq<string>)
    requires Ordered(s) && s != [] && AtMost(x, s[0])
    ensures Ordered([x] + s)
  {
    forall i | 0 < i < |s| ensures AtMost(x, s[i]) { AtMostIsTransitive(x, s[0], s[i]); }
  }

  lemma InsertLater(x: string, s: seq<string>, r: seq<string>)
    requires s != [] && Ordered(s) && !AtMost(x, s[0])
    requires Ordered(r) && multiset(r) == multiset([x]) + multiset(s[1..])
    ensures Ordered([s[0]] + r) && multiset([s[0]] + r) == multiset([x]) + multiset(s)
  {
    AtMostIsTotal(x, s[0]);
    assert s == [s[0]] + s[1..];
    hide AtMost;
    forall i | 0 <= i < |r| ensures AtMost(s[0], r[i]) {
      assert r[i] in multiset(r);
      assert r[i] == x || r[i] in s[1..];
    }
  }

  function SortStrings(s: seq<string>): (r: seq<string>)
    ensures Ordered(r) && multiset(r) == multiset(s)
  {
    if s == [] then []
    else
      assert s == [s[0]] + s[1..];
      Insert(s[0], SortStrings(s[1..]))
  }

  // ---- Reconciling ----

  /** A review comment; ours says whether the reviewer posted it, which the reviewer cannot see. */
  datatype ReviewComment = ReviewComment(node: string, path: string, line: int, body: string, ours: bool)

  /** The fingerprints that comments carry already. */
  function Carried(review: seq<ReviewComment>): set<string> {
    set i | 0 <= i < |review| && ParseFPMarker(review[i].body) != "" :: ParseFPMarker(review[i].body)
  }

  function Fresh(inline: seq<Finding>, have: set<string>): seq<Finding> {
    if inline == [] then []
    else (if Fingerprint(inline[0]) !in have then [inline[0]] else []) + Fresh(inline[1..], have)
  }

  lemma {:induction false} FreshIn(inline: seq<Finding>, have: set<string>)
    ensures forall f :: f in Fresh(inline, have) <==> f in inline && Fingerprint(f) !in have
  {
    hide Fingerprint;
    if inline != [] {
      FreshIn(inline[1..], have);
      assert forall f :: f in inline <==> f == inline[0] || f in inline[1..];
    }
  }

  lemma FingerprintIsNotEmpty(f: Finding)
    ensures Fingerprint(f) != ""
  {
    assert |Fingerprint(f)| == |f.file| + 1 + |Itoa(f.line)| + 1 + |NormalizeMessage(f.message)|;
  }

  predicate Outdated(c: ReviewComment, inline: seq<Finding>) {
    ParseFPMarker(c.body) != "" && forall f :: f in inline ==> Fingerprint(f) != ParseFPMarker(c.body)
  }

  lemma FreshEnds(fs: seq<Finding>, have: set<string>)
    ensures Fresh(fs[0..], have) == Fresh(fs, have) && Fresh(fs[|fs|..], have) == []
  {
    assert fs[0..] == fs;
  }

  lemma FreshStep(fs: seq<Finding>, i: nat, have: set<string>)
    requires i < |fs|
    ensures Fresh(fs[i..], have) == (if Fingerprint(fs[i]) !in have then [fs[i]] else []) + Fresh(fs[i+1..], have)
  {
    hide Fingerprint;
    assert fs[i..][1..] == fs[i+1..];
  }

  /** The node identifiers of the comments with one of these fingerprints, in order. */
  function NodesWith(review: seq<ReviewComment>, prints: set<string>): seq<string> {
    if review == [] then []
    else
      var c := review[|review|-1];
      NodesWith(review[..|review|-1], prints) + if ParseFPMarker(c.body) in prints then [c.node] else []
  }

  /** The node identifiers of the outdated comments, in order. */
  function OutdatedIds(review: seq<ReviewComment>, inline: seq<Finding>): seq<string> {
    if review == [] then []
    else
      var c := review[|review|-1];
      OutdatedIds(review[..|review|-1], inline) + if Outdated(c, inline) then [c.node] else []
  }

  lemma {:induction false} OutdatedIn(review: seq<ReviewComment>, inline: seq<Finding>)
    ensures forall id :: id in OutdatedIds(review, inline) <==>
              exists c :: c in review && c.node == id && Outdated(c, inline)
  {
    hide Outdated;
    if review != [] {
      var n := |review| - 1;
      OutdatedIn(review[..n], inline);
      assert forall c :: c in review <==> c in review[..n] || c == review[n];
    }
  }

  ghost predicate ArePrints(prints: set<string>, fs: seq<Finding>) {
    forall fp :: fp in prints <==> exists f :: f in fs && Fingerprint(f) == fp
  }

  lemma PrintsOfNone()
    ensures ArePrints({}, [])
  {
  }

  lemma PrintsOneMore(prints: set<string>, fs: seq<Finding>, f: Finding)
    requires ArePrints(prints, fs)
    ensures ArePrints(prints + {Fingerprint(f)}, fs + [f])
  {
    hide Fingerprint;
    assert forall g :: g in fs + [f] <==> g in fs || g == f;
  }

  /** have is the node identifiers of the first n comments, grouped by the fingerprint they carry. */
  ghost predicate Grouped(have: map<string, seq<string>>, existing: seq<ReviewComment>, n: nat)
    requires n <= |existing|
  {
    && "" !in have
    && (forall fp :: fp in have <==> fp != "" && exists c :: c in existing[..n] && ParseFPMarker(c.body) == fp)
    && (forall fp :: fp in have ==> have[fp] == NodesWith(existing[..n], {fp}))
  }

  lemma {:induction false} NoneWith(review: seq<ReviewComment>, fp: string)
    requires forall c :: c in review ==> ParseFPMarker(c.body) != fp
    ensures NodesWith(review, {fp}) == []
  {
    hide ParseFPMarker;
    if review != [] {
      NoneWith(review[..|review|-1], fp);
    }
  }

  lemma NodesOneMore(review: seq<ReviewComment>, c: ReviewComment, prints: set<string>)
    ensures NodesWith(review + [c], prints)
         == NodesWith(review, prints) + if ParseFPMarker(c.body) in prints then [c.node] else []
  {
    hide ParseFPMarker;
    assert (review + [c])[..|review|] == review;
  }

  lemma GroupOneMore(have: map<string, seq<string>>, existing: seq<ReviewComment>, n: nat)
    requires n < |existing| && Grouped(have, existing, n)
    ensures var c := existing[n];
            var fp := ParseFPMarker(c.body);
            Grouped(if fp == "" then have
                else have[fp := (if fp in have then have[fp] else []) + [c.node]], existing, n + 1)
  {
    hide ParseFPMarker, NodesWith;
    var c := existing[n];
    var fp := ParseFPMarker(c.body);
    assert existing[..n+1] == existing[..n] + [c];
    assert forall d :: d in existing[..n+1] <==> d in existing[..n] || d == c;
    if fp !in have && fp != "" {
      NoneWith(existing[..n], fp);
    }
    forall other { NodesOneMore(existing[..n], c, {other}); }
  }

  lemma GroupedCarried(have: map<string, seq<string>>, existing: seq<ReviewComment>)
    requires Grouped(have, existing, |existing|)
    ensures have.Keys == Carried(existing)
  {
    hide ParseFPMarker, NodesWith;
    assert existing[..|existing|] == existing;
  }

  lemma {:induction false} NodesAdd(review: seq<ReviewComment>, prints: set<string>, fp: string)
    requires fp !in prints
    ensures multiset(NodesWith(review, prints + {fp}))
         == multiset(NodesWith(review, prints)) + multiset(NodesWith(review, {fp}))
  {
    hide ParseFPMarker;
    if review != [] {
      NodesAdd(review[..|review|-1], prints, fp);
    }
  }

  lemma {:induction false} NoPrints(review: seq<ReviewComment>)
    ensures NodesWith(review, {}) == []
  {
    hide ParseFPMarker;
    if review != [] {
      NoPrints(review[..|review|-1]);
    }
  }

  /** ids are the nodes of the comments with a fingerprint that is done and not current. */
  ghost predicate Minimizes(ids: seq<string>, existing: seq<ReviewComment>, done: set<string>, current: set<string>) {
    multiset(ids) == multiset(NodesWith(existing, done - current))
  }

  lemma MinimizeOneMore(ids: seq<string>, have: map<string, seq<string>>, existing: seq<ReviewComment>,
      left: set<string>, current: set<string>, fp: string)
    requires Grouped(have, existing, |existing|) && fp in left && left <= have.Keys
    requires Minimizes(ids, existing, have.Keys - left, current)
    ensures Minimizes(if fp in current then ids else ids + have[fp], existing, have.Keys - (left - {fp}), current)
  {
    hide ParseFPMarker, NodesWith;
    assert existing[..|existing|] == existing;
    var done := have.Keys - left;
    assert have.Keys - (left - {fp}) == done + {fp};
    if fp in current {
      assert done + {fp} - current == done - current;
    } else {
      assert done + {fp} - current == (done - current) + {fp};
      NodesAdd(existing, done - current, fp);
    }
  }

  lemma {:induction false} NodesAreOutdated(review: seq<ReviewComment>, prints: set<string>, inline: seq<Finding>)
    requires forall c :: c in review ==> (ParseFPMarker(c.body) in prints <==> Outdated(c, inline))
    ensures NodesWith(review, prints) == OutdatedIds(review, inline)
  {
    hide ParseFPMarker, Outdated;
    if review != [] {
      NodesAreOutdated(review[..|review|-1], prints, inline);
      assert review[|review|-1] in review;
    }
  }

  lemma MinimizesOutdated(ids: seq<string>, have: map<string, seq<string>>, current: set<string>,
                          findings: seq<Finding>, existing: seq<ReviewComment>)
    requires Grouped(have, existing, |existing|) && Minimizes(ids, existing, have.Keys, current)
    requires ArePrints(current, findings)
    ensures multiset(ids) == multiset(OutdatedIds(existing, findings))
  {
    hide ParseFPMarker, Fingerprint, NodesWith;
    assert existing[..|existing|] == existing;
    forall c | c in existing ensures ParseFPMarker(c.body) in have.Keys - current <==> Outdated(c, findings) {
    }
    NodesAreOutdated(existing, have.Keys - current, findings);
  }

  /** Of the findings, those whose fingerprint no comment carries. */
  ghost predicate ArePosted(toPost: seq<Finding>, findings: seq<Finding>, existing: seq<ReviewComment>) {
    forall f :: f in toPost <==>
      f in findings && forall c :: c in existing ==> ParseFPMarker(c.body) != Fingerprint(f)
  }

  /** The nodes of the comments that carry a fingerprint which no finding has. */
  ghost predicate AreMinimized(ids: seq<string>, findings: seq<Finding>, existing: seq<ReviewComment>) {
    forall id :: id in ids <==>
      exists c :: c in existing && c.node == id && ParseFPMarker(c.body) != ""
        && forall f :: f in findings ==> Fingerprint(f) != ParseFPMarker(c.body)
  }

  lemma FreshArePosted(findings: seq<Finding>, existing: seq<ReviewComment>)
    ensures ArePosted(Fresh(findings, Carried(existing)), findings, existing)
  {
    FreshIn(findings, Carried(existing));
    hide Fresh, ParseFPMarker, Fingerprint;
    forall f ensures Fingerprint(f) in Carried(existing) <==>
        exists c :: c in existing && ParseFPMarker(c.body) == Fingerprint(f) {
      FingerprintIsNotEmpty(f);
      if c :| c in existing && ParseFPMarker(c.body) == Fingerprint(f) {
        var i :| 0 <= i < |existing| && existing[i] == c;
        assert ParseFPMarker(existing[i].body) in Carried(existing);
      }
    }
  }

  lemma OutdatedAreMinimized(ids: seq<string>, findings: seq<Finding>, existing: seq<ReviewComment>)
    requires multiset(ids) == multiset(OutdatedIds(existing, findings))
    ensures AreMinimized(ids, findings, existing)
  {
    OutdatedIn(existing, findings);
    hide ParseFPMarker, Fingerprint, OutdatedIds;
    forall id ensures id in ids <==> id in OutdatedIds(existing, findings) {
      assert id in ids <==> id in multiset(ids);
      assert id in OutdatedIds(existing, findings) <==> id in multiset(OutdatedIds(existing, findings));
    }
  }

  /** Post what no comment carries; minimize what no finding has any more, in the order of the node
      identifiers. */
  method Reconcile(findings: seq<Finding>, existing: seq<ReviewComment>)
    returns (toPost: seq<Finding>, toMinimize: seq<string>)
    ensures toPost == Fresh(findings, Carried(existing))
    ensures Ordered(toMinimize) && multiset(toMinimize) == multiset(OutdatedIds(existing, findings))
    ensures ArePosted(toPost, findings, existing) && AreMinimized(toMinimize, findings, existing)
  {
    hide ArePosted, AreMinimized, Fingerprint, ParseFPMarker, ArePrints, Grouped, Minimizes, NodesWith, OutdatedIds,
      Ordered;
    var current: set<string> := {};
    PrintsOfNone();
    assert findings[..0] == [];
    for i := 0 to |findings|
      invariant ArePrints(current, findings[..i])
    {
      assert findings[..i+1] == findings[..i] + [findings[i]];
      PrintsOneMore(current, findings[..i], findings[i]);
      current := current + {Fingerprint(findings[i])};
    }
    assert findings[..|findings|] == findings;
    var have: map<string, seq<string>> := map[];
    NoneGrouped(existing);
    for i := 0 to |existing|
      invariant Grouped(have, existing, i)
    {
      GroupOneMore(have, existing, i);
      var fp := ParseFPMarker(existing[i].body);
      if fp != "" {
        have := have[fp := (if fp in have then have[fp] else []) + [existing[i].node]];
      }
    }
    GroupedCarried(have, existing);
    toPost := [];
    FreshEnds(findings, Carried(existing));
    hide Fresh, Carried, Outdated;
    for i := 0 to |findings|
      invariant toPost + Fresh(findings[i..], Carried(existing)) == Fresh(findings, Carried(existing))
    {
      FreshStep(findings, i, Carried(existing));
      if Fingerprint(findings[i]) !in have {
        toPost := toPost + [findings[i]];
      }
    }
    toMinimize := [];
    var left := have.Keys;
    NoneMinimized(existing, have.Keys, current);
    while left != {}
      invariant left <= have.Keys && Minimizes(toMinimize, existing, have.Keys - left, current)
      decreases left
    {
      var fp :| fp in left;
      MinimizeOneMore(toMinimize, have, existing, left, current, fp);
      if fp !in current {
        toMinimize := toMinimize + have[fp];
      }
      left := left - {fp};
    }
    assert have.Keys - left == have.Keys;
    MinimizesOutdated(toMinimize, have, current, findings, existing);
    toMinimize := SortStrings(toMinimize);
    FreshArePosted(findings, existing);
    OutdatedAreMinimized(toMinimize, findings, existing);
  }

  lemma NoneGrouped(existing: seq<ReviewComment>)
    ensures Grouped(map[], existing, 0)
  {
  }

  lemma NoneMinimized(existing: seq<ReviewComment>, prints: set<string>, current: set<string>)
    ensures Minimizes([], existing, prints - prints, current)
  {
    NoPrints(existing);
    assert prints - prints - current == {};
  }
}
