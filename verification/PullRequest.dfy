/** A pull request as the reviewer's store: the writes a publish makes to it, in their order, any of
    which may be the last. */
module PullRequests {
  import opened Wrappers
  import opened Text
  import opened Findings
  import opened Markers
  import opened Publish
  import Hunks

  // ---- The summary comment ----

  /** An issue comment; editable says whether GitHub lets this client edit it. */
  datatype IssueComment = IssueComment(login: string, bot: bool, body: string, editable: bool)

  /** login is "" when the client could not find out who it is; self is what GitHub writes down. */
  datatype Client = Client(login: string, app: bool, self: string)

  const MARKER_HEAD := "<!-- automation-agent:review:"
  const MARKER_END := " -->"

  function SummaryMarker(owner: string, repo: string, number: int): string {
    MARKER_HEAD + owner + "/" + repo + "#" + Itoa(number) + MARKER_END
  }

  /** strings.Contains */
  predicate Contains(s: string, p: string) { exists i :: 0 <= i <= |s| && HasPrefix(s[i..], p) }

  predicate OwnsComment(client: Client, c: IssueComment) {
    if client.login != "" then c.login == client.login else if client.app then c.bot else true
  }

  /** The first comment that is the client's own is edited; without one, a comment is created. A
      comment that cannot be edited is an error when the client knows who it is, else not its own. */
  function Upserted(client: Client, cs: seq<IssueComment>, marker: string, body: string): Option<seq<IssueComment>> {
    if cs == [] then Some([IssueComment(client.self, client.app, body, true)])
    else
      var c, rest := cs[0], cs[1..];
      if Contains(c.body, marker) && OwnsComment(client, c) && (c.editable || client.login != "")
      then if c.editable then Some([c.(body := body)] + rest) else None
      else Prepend([c], Upserted(client, rest, marker, body))
  }

  /** The first comment whose edit decides the call; the number of comments if there is none. */
  function OwnAt(client: Client, cs: seq<IssueComment>, marker: string): (i: nat)
    ensures i <= |cs|
  {
    if cs == [] then 0
    else if Contains(cs[0].body, marker) && OwnsComment(client, cs[0]) && (cs[0].editable || client.login != "") then 0
    else 1 + OwnAt(client, cs[1..], marker)
  }

  /** GitHub failing: to list more comments than the first so many, to edit one that may be edited, to
      create one. */
  datatype Outage = Outage(listed: Option<nat>, edit: bool, create: bool)

  const NO_OUTAGE := Outage(None, false, false)

  /** The call gets to the comment it edits, or to the end and creates one, and that works. */
  predicate GetsThrough(own: nat, total: nat, o: Outage) {
    (o.listed.Some? ==> own < o.listed.value) && if own < total then !o.edit else !o.create
  }

  function Prepend(cs: seq<IssueComment>, more: Option<seq<IssueComment>>): Option<seq<IssueComment>> {
    if more.None? then None else Some(cs + more.value)
  }

  /** The client's comments that carry the marker. */
  function Mine(client: Client, marker: string, cs: seq<IssueComment>): seq<IssueComment> {
    if cs == [] then []
    else
      (if Contains(cs[0].body, marker) && cs[0].login == client.self then [cs[0]] else [])
      + Mine(client, marker, cs[1..])
  }

  // ---- The page and its writes ----

  datatype Check = Check(sha: string, success: bool)

  /** What GitHub holds: review comments, issue comments, agent-review checks, minimized nodes. */
  datatype Page = Page(review: seq<ReviewComment>, comments: seq<IssueComment>, checks: seq<Check>,
      minimized: set<string>)

  /** A task for one head commit: the review's outcome, or the denial of one that is too large. */
  datatype Delivery = Delivery(
    sha: string, deny: bool, findings: seq<Finding>, files: seq<File>, text: string, green: bool)

  /** What goes wrong: the look-up of the check, minimizing some nodes, and everything from a write on
      (1 review, 2 minimizing, 3 summary, 4 check). */
  datatype Accident = Accident(lookupFails: bool, unminimized: set<string>, reach: nat)

  predicate HasCheck(checks: seq<Check>, sha: string) { exists i :: 0 <= i < |checks| && checks[i].sha == sha }

  function InlineOf(d: Delivery): seq<Finding> { Selected(d.findings, Index(d.files), Inline) }

  function Posts(fs: seq<Finding>, nodes: seq<string>): seq<ReviewComment> {
    seq(|fs|, i requires 0 <= i < |fs| =>
      ReviewComment(if i < |nodes| then nodes[i] else "", fs[i].file, fs[i].line, InlineCommentBody(fs[i]), true))
  }

  function OutdatedNodes(review: seq<ReviewComment>, inline: seq<Finding>): set<string> {
    set c | c in review && Outdated(c, inline) :: c.node
  }

  function SummaryBody(marker: string, d: Delivery): string { marker + "\n" + d.text }

  function Concluded(client: Client, marker: string, page: Page, d: Delivery, reach: nat): Page {
    if reach < 3 then page
    else
      match Upserted(client, page.comments, marker, SummaryBody(marker, d))
      case None => page
      case Some(cs) =>
        page.(comments := cs, checks := page.checks + if reach < 4 then [] else [Check(d.sha, d.green && !d.deny)])
  }

  function Published(client: Client, marker: string, page: Page, d: Delivery, a: Accident, nodes: seq<string>): Page {
    if !a.lookupFails && HasCheck(page.checks, d.sha) then page
    else if d.deny then Concluded(client, marker, page, d, a.reach)
    else
      var toPost := Fresh(InlineOf(d), Carried(page.review));
      if a.reach == 0 || (toPost != [] && d.sha == "") then page
      else
        var reviewed := page.(review := page.review + Posts(toPost, nodes));
        if a.reach == 1 then reviewed
        else
          var gone := OutdatedNodes(page.review, InlineOf(d)) - a.unminimized;
          Concluded(client, marker, reviewed.(minimized := page.minimized + gone), d, a.reach)
  }

  /** None of the first i comments decides an upsert. */
  predicate Passed(client: Client, cs: seq<IssueComment>, marker: string, body: string, i: nat)
    requires i <= |cs|
  {
    && OwnAt(client, cs, marker) == i + OwnAt(client, cs[i..], marker)
    && Upserted(client, cs, marker, body) == Prepend(cs[..i], Upserted(client, cs[i..], marker, body))
  }

  lemma PassedNone(client: Client, cs: seq<IssueComment>, marker: string, body: string)
    ensures Passed(client, cs, marker, body, 0)
  {
    hide Upserted, OwnAt;
    assert cs[0..] == cs;
    assert Upserted(client, cs, marker, body).Some? ==>
        [] + Upserted(client, cs, marker, body).value == Upserted(client, cs, marker, body).value;
  }

  lemma PrependTwice(a: seq<IssueComment>, c: IssueComment, more: Option<seq<IssueComment>>)
    ensures Prepend(a, Prepend([c], more)) == Prepend(a + [c], more)
  {
    if more.Some? {
      assert a + ([c] + more.value) == (a + [c]) + more.value;
    }
  }

  /** The next comment is edited, or refuses to be, or is passed. */
  lemma PassOne(client: Client, cs: seq<IssueComment>, marker: string, body: string, i: nat)
    requires i < |cs| && Passed(client, cs, marker, body, i)
    ensures OwnAt(client, cs, marker) >= i
    ensures var c, upserted := cs[i], Upserted(client, cs, marker, body);
            if Contains(c.body, marker) && OwnsComment(client, c) && (c.editable || client.login != "")
            then OwnAt(client, cs, marker) == i
                 && upserted == if c.editable then Some(cs[i := c.(body := body)]) else None
            else Passed(client, cs, marker, body, i + 1)
  {
    hide Contains, OwnsComment;
    assert cs[i..][0] == cs[i] && cs[i..][1..] == cs[i+1..];
    hide Prepend;
    PrependTwice(cs[..i], cs[i], Upserted(client, cs[i+1..], marker, body));
    assert cs[..i] + [cs[i]] == cs[..i+1];
    EditInPlace(cs, i, cs[i].(body := body));
  }

  lemma EditInPlace(cs: seq<IssueComment>, i: nat, c: IssueComment)
    requires i < |cs|
    ensures Prepend(cs[..i], Some([c] + cs[i+1..])) == Some(cs[i := c]) && Prepend(cs[..i], None) == None
  {
    assert cs[..i] + ([c] + cs[i+1..]) == cs[i := c];
  }

  lemma PassedAll(client: Client, cs: seq<IssueComment>, marker: string, body: string)
    requires Passed(client, cs, marker, body, |cs|)
    ensures OwnAt(client, cs, marker) == |cs|
    ensures Upserted(client, cs, marker, body) == Some(cs + [IssueComment(client.self, client.app, body, true)])
  {
    assert cs[|cs|..] == [] && cs[..|cs|] == cs;
  }

  // ---- The upsert in words ----

  /** A comment that carries the marker and that the client takes for its own: by its login if it knows
      it, else an application takes any bot's and anyone else every one. A foreign comment that refuses
      the edit is passed only if the client does not know its login. */
  predicate IsCandidate(client: Client, c: IssueComment, marker: string) {
    && Contains(c.body, marker)
    && (client.login != "" ==> c.login == client.login)
    && (client.login == "" ==> (client.app ==> c.bot) && c.editable)
  }

  predicate IsFirst(client: Client, cs: seq<IssueComment>, marker: string, i: int) {
    && 0 <= i < |cs| && IsCandidate(client, cs[i], marker)
    && forall j :: 0 <= j < i ==> !IsCandidate(client, cs[j], marker)
  }

  lemma UpsertStep(client: Client, c: IssueComment, rest: seq<IssueComment>, marker: string, body: string)
    ensures Upserted(client, [c] + rest, marker, body)
         == if !IsCandidate(client, c, marker) then Prepend([c], Upserted(client, rest, marker, body))
            else if c.editable then Some([c.(body := body)] + rest) else None
    ensures OwnAt(client, [c] + rest, marker)
         == if IsCandidate(client, c, marker) then 0 else 1 + OwnAt(client, rest, marker)
  {
    hide Contains;
    assert ([c] + rest)[1..] == rest;
  }

  /** Main result: the first candidate gets the body, in place, and nothing else changes, or its refusal is
      an error... */
  lemma {:induction false} FirstIsEdited(client: Client, cs: seq<IssueComment>, marker: string, body: string, i: nat)
    requires IsFirst(client, cs, marker, i)
    ensures Upserted(client, cs, marker, body) == if cs[i].editable then Some(cs[i := cs[i].(body := body)]) else None
    ensures OwnAt(client, cs, marker) == i
    decreases |cs|
  {
    hide IsCandidate, Upserted, OwnAt;
    var c, rest := cs[0], cs[1..];
    assert cs == [c] + rest;
    UpsertStep(client, c, rest, marker, body);
    if i == 0 {
      assert cs[0 := c.(body := body)] == [c.(body := body)] + rest;
    } else {
      assert forall j :: 0 <= j < i ==> rest[j] == cs[j+1];
      FirstIsEdited(client, rest, marker, body, i - 1);
      assert cs[i := cs[i].(body := body)] == [c] + rest[i - 1 := rest[i-1].(body := body)];
    }
  }

  /** ... and without a candidate there is a new comment at the end. */
  lemma {:induction false} ElseOneIsCreated(client: Client, cs: seq<IssueComment>, marker: string, body: string)
    requires forall c :: c in cs ==> !IsCandidate(client, c, marker)
    ensures Upserted(client, cs, marker, body) == Some(cs + [IssueComment(client.self, client.app, body, true)])
    ensures OwnAt(client, cs, marker) == |cs|
    decreases |cs|
  {
    var made := [IssueComment(client.self, client.app, body, true)];
    if cs == [] {
      assert cs + made == made;
    } else {
      var c, rest := cs[0], cs[1..];
      assert cs == [c] + rest;
      UpsertStep(client, c, rest, marker, body);
      hide IsCandidate, Upserted, OwnAt;
      ElseOneIsCreated(client, rest, marker, body);
      assert cs + made == [c] + (rest + made);
    }
  }

  lemma SplitAtHash(a: string, s: string, b: string, t: string)
    requires a + "#" + s == b + "#" + t && '#' !in s && '#' !in t
    ensures a == b && s == t
  {
    var x, y := a + "#" + s, b + "#" + t;
    assert x[|a|] == '#' && y[|b|] == '#';
    assert forall i :: |a| < i < |x| ==> x[i] == s[i - |a| - 1];
    assert forall i :: |b| < i < |y| ==> y[i] == t[i - |b| - 1];
    assert |a| == |b|;
    assert a == x[..|a|] && b == y[..|b|] && s == x[|a|+1..] && t == y[|b|+1..];
  }

  lemma SameInside(h: string, a: string, b: string, end: string)
    ensures (h + a == h + b <==> a == b) && (a + end == b + end <==> a == b)
  {
    assert (h + a)[|h|..] == a && (h + b)[|h|..] == b;
    if a + end == b + end {
      assert |a| == |b| && (a + end)[..|a|] == a && (b + end)[..|b|] == b;
    }
  }

  lemma MarkerInParts(owner: string, repo: string, n: int)
    ensures SummaryMarker(owner, repo, n) == (MARKER_HEAD + (owner + "/" + repo)) + "#" + (Itoa(n) + MARKER_END)
    ensures '#' !in Itoa(n) + MARKER_END
  {
    assert '#' !in Itoa(n);
    hide Itoa;
    assert forall c :: c in Itoa(n) + MARKER_END <==> c in Itoa(n) || c in MARKER_END;
  }

  /** Two pull requests have one marker exactly when they have one number in repositories of one name. */
  lemma SummaryMarkerExactly(owner: string, repo: string, n: int, owner': string, repo': string, n': int)
    ensures SummaryMarker(owner, repo, n) == SummaryMarker(owner', repo', n')
       <==> owner + "/" + repo == owner' + "/" + repo' && n == n'
  {
    hide SummaryMarker, Itoa;
    var a, b := owner + "/" + repo, owner' + "/" + repo';
    MarkerInParts(owner, repo, n);
    MarkerInParts(owner', repo', n');
    if SummaryMarker(owner, repo, n) == SummaryMarker(owner', repo', n') {
      SplitAtHash(MARKER_HEAD + a, Itoa(n) + MARKER_END, MARKER_HEAD + b, Itoa(n') + MARKER_END);
      SameInside(MARKER_HEAD, a, b, "");
      SameInside("", Itoa(n), Itoa(n'), MARKER_END);
      ItoaInjective(n, n');
    }
  }

  class PullRequest {
    const owner: string
    const repo: string
    const number: int
    var review: seq<ReviewComment>
    var comments: seq<IssueComment>
    var checks: seq<Check>
    var minimized: set<string>

    constructor (owner: string, repo: string, number: int)
      ensures this.owner == owner && this.repo == repo && this.number == number
      ensures Snapshot() == Page([], [], [], {})
    {
      this.owner, this.repo, this.number := owner, repo, number;
      review, comments, checks, minimized := [], [], [], {};
    }

    function Snapshot(): Page
      reads this
    {
      Page(review, comments, checks, minimized)
    }

    function Marker(): string { SummaryMarker(owner, repo, number) }

    method AlreadyPublished(sha: string, lookupFails: bool) returns (found: bool)
      ensures found == (!lookupFails && HasCheck(checks, sha))
    {
      found := !lookupFails && HasCheck(checks, sha);
    }

    /** Inline comments need a commit to be placed on. */
    method CreateReview(fs: seq<Finding>, sha: string, nodes: seq<string>) returns (ok: bool)
      modifies this`review
      ensures ok == !(sha == "" && fs != [])
      ensures review == old(review) + if ok then Posts(fs, nodes) else []
    {
      if sha == "" && |fs| > 0 {
        return false;
      }
      review := review + Posts(fs, nodes);
      return true;
    }

    method UpsertMarkerComment(client: Client, marker: string, body: string, o: Outage) returns (ok: bool)
      modifies this`comments
      ensures ok <==> && marker != "" && Contains(body, marker)
                      && Upserted(client, old(comments), marker, body).Some?
                      && GetsThrough(OwnAt(client, old(comments), marker), |old(comments)|, o)
      ensures comments == if ok then Upserted(client, old(comments), marker, body).value else old(comments)
    {
      hide Contains, OwnsComment, Upserted, OwnAt, Passed;
      if marker == "" || !Contains(body, marker) {
        return false;
      }
      PassedNone(client, comments, marker, body);
      for i := 0 to |comments|
        invariant comments == old(comments) && (o.listed.Some? ==> i <= o.listed.value)
        invariant Passed(client, comments, marker, body, i)
      {
        var c := comments[i];
        PassOne(client, comments, marker, body, i);
        if o.listed == Some(i) {
          return false;
        }
        if !Contains(c.body, marker) || !OwnsComment(client, c) {
          continue;
        }
        if !c.editable && client.login == "" {
          continue;
        }
        if !c.editable || o.edit {
          return false;
        }
        comments := comments[i := c.(body := body)];
        return true;
      }
      PassedAll(client, comments, marker, body);
      if o.listed.Some? && o.listed.value <= |comments| {
        return false;
      }
      if o.create {
        return false;
      }
      comments := comments + [IssueComment(client.self, client.app, body, true)];
      return true;
    }

    method CreateCheckRun(sha: string, success: bool)
      modifies this`checks
      ensures checks == old(checks) + [Check(sha, success)]
    {
      checks := checks + [Check(sha, success)];
    }
  }

  lemma BodyCarriesMarker(marker: string, d: Delivery)
    ensures Contains(SummaryBody(marker, d), marker)
  {
    assert SummaryBody(marker, d)[0..] == SummaryBody(marker, d);
    assert HasPrefix(SummaryBody(marker, d)[0..], marker);
  }

  method MinimizeAll(pr: PullRequest, ids: seq<string>, failing: set<string>)
    modifies pr`minimized
    ensures pr.minimized == old(pr.minimized) + ((set id | id in ids) - failing)
  {
    for i := 0 to |ids|
      invariant pr.minimized == old(pr.minimized) + ((set id | id in ids[..i]) - failing)
    {
      assert forall id :: id in ids[..i+1] <==> id in ids[..i] || id == ids[i];
      if ids[i] !in failing {
        pr.minimized := pr.minimized + {ids[i]};
      }
    }
    assert ids[..|ids|] == ids;
  }

  lemma SameNodes(ids: seq<string>, review: seq<ReviewComment>, inline: seq<Finding>)
    requires multiset(ids) == multiset(OutdatedIds(review, inline))
    ensures (set id | id in ids) == OutdatedNodes(review, inline)
  {
    OutdatedIn(review, inline);
    hide Outdated, OutdatedIds;
    assert forall id :: id in ids <==> id in multiset(ids);
    assert forall id :: id in OutdatedIds(review, inline) <==> id in multiset(OutdatedIds(review, inline));
  }

  /** The summary, then the check: the end of both a review and a denial. */
  method Conclude(pr: PullRequest, client: Client, d: Delivery, reach: nat) returns (ok: bool)
    modifies pr`comments, pr`checks
    ensures pr.Snapshot() == Concluded(client, pr.Marker(), old(pr.Snapshot()), d, reach)
    ensures ok <==> reach >= 4 && Upserted(client, old(pr.comments), pr.Marker(), SummaryBody(pr.Marker(), d)).Some?
  {
    if reach < 3 {
      return false;
    }
    BodyCarriesMarker(pr.Marker(), d);
    ok := pr.UpsertMarkerComment(client, pr.Marker(), SummaryBody(pr.Marker(), d), NO_OUTAGE);
    if !ok || reach < 4 {
      assert pr.checks + [] == pr.checks;
      return false;
    }
    pr.CreateCheckRun(d.sha, d.green && !d.deny);
  }

  /** Every write is made: none is cut short, comments have a commit to be placed on, and the summary
      is not another's. */
  predicate Completes(client: Client, marker: string, page: Page, d: Delivery, a: Accident) {
    && a.reach >= 4
    && (d.deny || d.sha != "" || Fresh(InlineOf(d), Carried(page.review)) == [])
    && Upserted(client, page.comments, marker, SummaryBody(marker, d)).Some?
  }

  // ---- What a publish leaves on the page, in words ----

  /** The comment is this finding's: on its file, on its line, with its text. */
  predicate PlacedFor(c: ReviewComment, f: Finding) {
    c.path == f.file && c.line == f.line && c.body == InlineCommentBody(f)
  }

  predicate IsCarried(review: seq<ReviewComment>, f: Finding) {
    exists c :: c in review && ParseFPMarker(c.body) == Fingerprint(f)
  }

  /** The comments that were there stay, and each that is added is placed for an inline finding that none
      of them carried. */
  ghost predicate OnlyAdds(before: seq<ReviewComment>, after: seq<ReviewComment>, d: Delivery) {
    before <= after && forall k :: |before| <= k < |after| ==> IsForOne(after[k], before, d)
  }

  ghost predicate IsForOne(c: ReviewComment, before: seq<ReviewComment>, d: Delivery) {
    exists f :: f in InlineOf(d) && !IsCarried(before, f) && PlacedFor(c, f)
  }

  /** Each inline finding that no comment carried has one added for it. */
  ghost predicate AddsAll(before: seq<ReviewComment>, after: seq<ReviewComment>, d: Delivery) {
    forall f :: f in InlineOf(d) && !IsCarried(before, f) ==>
      exists k :: |before| <= k < |after| && PlacedFor(after[k], f)
  }

  /** Minimized are, of the comments that carry a fingerprint that no inline finding has, those that
      could be. */
  ghost predicate Collapses(before: Page, after: Page, d: Delivery, unminimized: set<string>) {
    forall id :: id in after.minimized <==>
      || id in before.minimized
      || (id !in unminimized
          && exists c :: c in before.review && c.node == id && ParseFPMarker(c.body) != ""
               && forall f :: f in InlineOf(d) ==> Fingerprint(f) != ParseFPMarker(c.body))
  }

  lemma PostsArePlaced(before: seq<ReviewComment>, d: Delivery, nodes: seq<string>)
    ensures var after := before + Posts(Fresh(InlineOf(d), Carried(before)), nodes);
            OnlyAdds(before, after, d) && AddsAll(before, after, d)
  {
    var toPost := Fresh(InlineOf(d), Carried(before));
    var after := before + Posts(toPost, nodes);
    FreshArePosted(InlineOf(d), before);
    hide InlineOf, Fresh, Carried, InlineCommentBody, Fingerprint, ParseFPMarker;
    var posts := Posts(toPost, nodes);
    forall k | |before| <= k < |after| ensures IsForOne(after[k], before, d) {
      var f := toPost[k - |before|];
      assert f in toPost && after[k] == posts[k - |before|] && PlacedFor(after[k], f);
    }
    forall f | f in InlineOf(d) && !IsCarried(before, f)
      ensures exists k :: |before| <= k < |after| && PlacedFor(after[k], f)
    {
      assert f in toPost;
      var i :| 0 <= i < |toPost| && toPost[i] == f;
      assert after[|before| + i] == posts[i] && PlacedFor(after[|before| + i], f);
    }
  }

  /** Main result: a comment that a publish adds is for a finding above a nitpick, and if the last patch of
      its file is the printed difference between two texts, then it is on a line of the head text within
      a hunk, which reads there as the patch says. */
  lemma CommentsAreOnHeadLines(before: seq<ReviewComment>, after: seq<ReviewComment>, d: Delivery, k: nat, i: nat,
      base: seq<string>, head: seq<string>, hs: seq<Hunks.Hunk>, trailingNewline: bool)
    requires OnlyAdds(before, after, d) && |before| <= k < |after| && LastOf(d.files, after[k].path, i)
    requires hs != [] && (forall j :: 0 <= j < |hs| ==> Hunks.Printable(hs[j])) && Hunks.Turns(base, head, hs, 0, 0)
    requires d.files[i].patch == Hunks.Join(Hunks.PrintHunks(hs) + if trailingNewline then [""] else [])
    ensures exists f :: f in d.findings && !f.severity.Nitpick? && PlacedFor(after[k], f)
    ensures 1 <= after[k].line <= |head| && Hunks.InNewRanges(hs, after[k].line)
    ensures (after[k].line, head[after[k].line-1]) in Hunks.Marks(Hunks.SplitLines(d.files[i].patch), None)
  {
    hide Hunks.Marks, Hunks.SplitLines, Hunks.Turns, Hunks.Printable, Hunks.Join, Hunks.PrintHunks, Selected, Index;
    hide InlineCommentBody;
    assert IsForOne(after[k], before, d);
    var f :| f in InlineOf(d) && !IsCarried(before, f) && PlacedFor(after[k], f);
    InlineLinesAreInTheDiff(d.findings, d.files, f);
    InlineLinesAreHeadLines(d.findings, d.files, f, i, base, head, hs, trailingNewline);
  }

  lemma OutdatedCollapse(page: Page, d: Delivery, after: Page, unminimized: set<string>)
    requires after.minimized == page.minimized + (OutdatedNodes(page.review, InlineOf(d)) - unminimized)
    ensures Collapses(page, after, d, unminimized)
  {
    hide InlineOf, Fingerprint, ParseFPMarker;
  }

  /** The check is there and is seen: nothing is published again. */
  predicate Skips(page: Page, d: Delivery, a: Accident) { !a.lookupFails && HasCheck(page.checks, d.sha) }

  /** However far a publish gets, it adds to the review and minimizes nothing but what it has to, all of
      it or nothing; one that completes does both. A denial, or one that is skipped, does neither. */
  lemma PublishedInWords(client: Client, marker: string, page: Page, d: Delivery, a: Accident, nodes: seq<string>)
    ensures var after := Published(client, marker, page, d, a, nodes);
            && OnlyAdds(page.review, after.review, d)
            && (after.review != page.review ==> AddsAll(page.review, after.review, d))
            && (after.minimized == page.minimized || Collapses(page, after, d, a.unminimized))
            && (d.deny || Skips(page, d, a) ==> after.review == page.review && after.minimized == page.minimized)
            && (Completes(client, marker, page, d, a) && !d.deny && !Skips(page, d, a) ==>
                  AddsAll(page.review, after.review, d) && Collapses(page, after, d, a.unminimized))
  {
    hide Published, Completes, OnlyAdds, AddsAll, Collapses, Fresh, Posts, InlineOf, OutdatedNodes;
    PostsArePlaced(page.review, d, nodes);
    NothingAdded(page.review, d);
    var gone := OutdatedNodes(page.review, InlineOf(d)) - a.unminimized;
    OutdatedCollapse(page, d, Published(client, marker, page, d, a, nodes).(minimized := page.minimized + gone),
        a.unminimized);
    PublishedShape(client, marker, page, d, a, nodes);
  }

  lemma ConcludedShape(client: Client, marker: string, page: Page, d: Delivery, reach: nat)
    ensures var after := Concluded(client, marker, page, d, reach);
            after.review == page.review && after.minimized == page.minimized
  {
    hide Upserted, SummaryBody;
  }

  lemma PublishedShape(client: Client, marker: string, page: Page, d: Delivery, a: Accident, nodes: seq<string>)
    ensures var after := Published(client, marker, page, d, a, nodes);
            var more := page.review + Posts(Fresh(InlineOf(d), Carried(page.review)), nodes);
            var gone := page.minimized + (OutdatedNodes(page.review, InlineOf(d)) - a.unminimized);
            && after.review in [page.review, more] && after.minimized in [page.minimized, gone]
            && (d.deny || Skips(page, d, a) ==> after.review == page.review && after.minimized == page.minimized)
            && (Completes(client, marker, page, d, a) && !d.deny && !Skips(page, d, a) ==>
                  after.review == more && after.minimized == gone)
  {
    hide Concluded, Fresh, Posts, InlineOf, OutdatedNodes, Upserted, SummaryBody, HasCheck;
    var more := page.review + Posts(Fresh(InlineOf(d), Carried(page.review)), nodes);
    var gone := page.minimized + (OutdatedNodes(page.review, InlineOf(d)) - a.unminimized);
    ConcludedShape(client, marker, page, d, a.reach);
    ConcludedShape(client, marker, page.(review := more, minimized := gone), d, a.reach);
  }

  lemma NothingAdded(review: seq<ReviewComment>, d: Delivery)
    ensures OnlyAdds(review, review, d)
  {
  }

  /** publish and publishDeny; ok when they return no error. */
  method PublishReview(pr: PullRequest, client: Client, d: Delivery, a: Accident, nodes: seq<string>) returns (ok: bool)
    modifies pr
    ensures pr.Snapshot() == Published(client, pr.Marker(), old(pr.Snapshot()), d, a, nodes)
    ensures ok <==> Skips(old(pr.Snapshot()), d, a)
                    || Completes(client, pr.Marker(), old(pr.Snapshot()), d, a)
    ensures OnlyAdds(old(pr.review), pr.review, d)
    ensures pr.review != old(pr.review) || (ok && !d.deny && !Skips(old(pr.Snapshot()), d, a)) ==>
              AddsAll(old(pr.review), pr.review, d)
    ensures pr.minimized != old(pr.minimized) || (ok && !d.deny && !Skips(old(pr.Snapshot()), d, a)) ==>
              Collapses(old(pr.Snapshot()), pr.Snapshot(), d, a.unminimized)
  {
    hide OnlyAdds, AddsAll, Collapses, AreClassified, ArePosted, AreMinimized, Ordered;
    PublishedInWords(client, pr.Marker(), pr.Snapshot(), d, a, nodes);
    var found := pr.AlreadyPublished(d.sha, a.lookupFails);
    if found {
      return true;
    }
    if d.deny {
      ok := Conclude(pr, client, d, a.reach);
      return;
    }
    var idx := NewDiffIndex(d.files);
    var inline, outOfDiff, nitpicks := Classify(d.findings, idx);
    if a.reach == 0 {
      return false;
    }
    var existing := pr.review;
    var toPost, toMinimize := Reconcile(inline, existing);
    if |toPost| > 0 {
      ok := pr.CreateReview(toPost, d.sha, nodes);
      if !ok {
        return;
      }
    }
    assert pr.review == existing + Posts(toPost, nodes);
    if a.reach == 1 {
      return false;
    }
    MinimizeAll(pr, toMinimize, a.unminimized);
    SameNodes(toMinimize, existing, inline);
    ok := Conclude(pr, client, d, a.reach);
  }
}
