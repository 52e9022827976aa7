/** What holds over any sequence of deliveries to a pull request: redelivered, cut short after any
    write, pushed again with other findings, and with others writing in between. */
module PublishRuns {
  import opened Wrappers
  import opened Text
  import opened Findings
  import opened Markers
  import opened Publish
  import opened PullRequests

  datatype Step =
    | Deliver(d: Delivery, accident: Accident, nodes: seq<string>)
    | Elsewhere

  function Ours(review: seq<ReviewComment>): seq<ReviewComment> {
    if review == [] then [] else (if review[0].ours then [review[0]] else []) + Ours(review[1..])
  }

  /** Others may write, edit and delete what is theirs. */
  predicate IsStep(client: Client, marker: string, a: Page, s: Step, b: Page) {
    match s
    case Deliver(d, accident, nodes) => b == Published(client, marker, a, d, accident, nodes)
    case Elsewhere =>
      && Ours(b.review) == Ours(a.review)
      && Mine(client, marker, b.comments) == Mine(client, marker, a.comments)
      && b.checks == a.checks
  }

  predicate IsRun(client: Client, marker: string, pages: seq<Page>, steps: seq<Step>) {
    && |pages| == |steps| + 1
    && forall n :: 0 <= n < |steps| ==> IsStep(client, marker, pages[n], steps[n], pages[n+1])
  }

  /** Nothing of the reviewer's is there yet. */
  predicate Untouched(client: Client, marker: string, page: Page) {
    Ours(page.review) == [] && Mine(client, marker, page.comments) == [] && page.checks == []
  }

  // ---- No fingerprint on two inline comments ----

  /** The findings that go inline are deduplicated, and what is posted for them can be read back. */
  predicate Readable(d: Delivery) { DistinctPrints(InlineOf(d)) && forall f :: f in InlineOf(d) ==> ReadsBack(f) }

  predicate ReadsBack(f: Finding) { ParseFPMarker(InlineCommentBody(f)) == Fingerprint(f) }

  function PrintsOf(review: seq<ReviewComment>): seq<string> {
    seq(|review|, i requires 0 <= i < |review| => ParseFPMarker(review[i].body))
  }

  predicate NoneTwice(prints: seq<string>) { forall i, j :: 0 <= i < j < |prints| ==> prints[i] != prints[j] }

  lemma {:induction false} OursOfSum(a: seq<ReviewComment>, b: seq<ReviewComment>)
    ensures Ours(a + b) == Ours(a) + Ours(b)
    decreases |a|
  {
    if a == [] {
      assert a + b == b;
    } else {
      OursOfSum(a[1..], b);
      OursStep(a, b);
    }
  }

  lemma OursStep(a: seq<ReviewComment>, b: seq<ReviewComment>)
    requires a != []
    ensures Ours(a + b) == (if a[0].ours then [a[0]] else []) + Ours(a[1..] + b)
  {
    assert (a + b)[1..] == a[1..] + b;
  }

  lemma {:induction false} AllOurs(review: seq<ReviewComment>)
    requires forall c :: c in review ==> c.ours
    ensures Ours(review) == review
  {
    if review != [] {
      AllOurs(review[1..]);
    }
  }

  lemma {:induction false} OursAreThere(review: seq<ReviewComment>)
    ensures forall c :: c in Ours(review) ==> c in review
  {
    if review != [] {
      OursAreThere(review[1..]);
    }
  }

  lemma {:induction false} FreshStaysDistinct(inline: seq<Finding>, have: set<string>)
    requires DistinctPrints(inline)
    ensures DistinctPrints(Fresh(inline, have))
  {
    hide Fingerprint;
    if inline != [] {
      var rest := Fresh(inline[1..], have);
      FreshStaysDistinct(inline[1..], have);
      forall i | 0 <= i < |rest| ensures Fingerprint(rest[i]) != Fingerprint(inline[0]) {
        FreshIn(inline[1..], have);
        assert rest[i] in inline[1..];
      }
    }
  }

  /** What a delivery puts on new comments. */
  lemma PostedPrints(d: Delivery, have: set<string>, nodes: seq<string>)
    requires Readable(d)
    ensures var toPost := Fresh(InlineOf(d), have);
            var prints := PrintsOf(Posts(toPost, nodes));
            && |prints| == |toPost| && NoneTwice(prints)
            && forall i :: 0 <= i < |prints| ==> prints[i] == Fingerprint(toPost[i]) && prints[i] !in have
  {
    hide Fingerprint, ParseFPMarker, InlineCommentBody;
    var toPost := Fresh(InlineOf(d), have);
    FreshStaysDistinct(InlineOf(d), have);
    FreshIn(InlineOf(d), have);
    forall i | 0 <= i < |toPost| ensures PrintsOf(Posts(toPost, nodes))[i] == Fingerprint(toPost[i])
        && Fingerprint(toPost[i]) !in have {
      assert toPost[i] in InlineOf(d);
    }
  }

  lemma CarriedOrEmpty(review: seq<ReviewComment>, i: nat)
    requires i < |review|
    ensures ParseFPMarker(review[i].body) == "" || ParseFPMarker(review[i].body) in Carried(review)
  {
  }

  /** The review comments after a delivery. */
  lemma ReviewAfter(client: Client, marker: string, page: Page, d: Delivery, a: Accident, nodes: seq<string>)
    ensures var after := Published(client, marker, page, d, a, nodes).review;
            after == page.review || after == page.review + Posts(Fresh(InlineOf(d), Carried(page.review)), nodes)
  {
  }

  predicate PrintsApart(review: seq<ReviewComment>) {
    var prints := PrintsOf(Ours(review));
    "" !in prints && NoneTwice(prints)
  }

  lemma OursAreCarried(review: seq<ReviewComment>, i: nat)
    requires i < |Ours(review)|
    ensures var fp := PrintsOf(Ours(review))[i]; fp == "" || fp in Carried(review)
  {
    hide ParseFPMarker;
    OursAreThere(review);
    assert Ours(review)[i] in review;
    var k :| 0 <= k < |review| && review[k] == Ours(review)[i];
    CarriedOrEmpty(review, k);
  }

  lemma PrintsAfter(review: seq<ReviewComment>, posts: seq<ReviewComment>)
    requires forall c :: c in posts ==> c.ours
    ensures PrintsOf(Ours(review + posts)) == PrintsOf(Ours(review)) + PrintsOf(posts)
  {
    hide ParseFPMarker;
    OursOfSum(review, posts);
    AllOurs(posts);
  }

  lemma DeliveryKeepsPrintsApart(client: Client, marker: string, page: Page, d: Delivery, a: Accident,
      nodes: seq<string>)
    requires PrintsApart(page.review) && Readable(d)
    ensures PrintsApart(Published(client, marker, page, d, a, nodes).review)
  {
    var toPost := Fresh(InlineOf(d), Carried(page.review));
    ReviewAfter(client, marker, page, d, a, nodes);
    PostedPrints(d, Carried(page.review), nodes);
    PrintsAfter(page.review, Posts(toPost, nodes));
    hide Published, ParseFPMarker, Fingerprint, InlineCommentBody, Carried, Fresh;
    var there, more := PrintsOf(Ours(page.review)), PrintsOf(Posts(toPost, nodes));
    forall i | 0 <= i < |there| ensures there[i] in Carried(page.review) {
      OursAreCarried(page.review, i);
    }
    forall i | 0 <= i < |more| ensures more[i] != "" {
      FingerprintIsNotEmpty(toPost[i]);
    }
    assert NoneTwice(there + more);
  }

  lemma StepKeepsPrintsApart(client: Client, marker: string, a: Page, s: Step, b: Page)
    requires IsStep(client, marker, a, s, b) && PrintsApart(a.review) && (s.Deliver? ==> Readable(s.d))
    ensures PrintsApart(b.review)
  {
    hide Published, Mine, Readable, Ours;
    if s.Deliver? {
      DeliveryKeepsPrintsApart(client, marker, a, s.d, s.accident, s.nodes);
    }
  }

  lemma NoneOurs(review: seq<ReviewComment>)
    requires Ours(review) == []
    ensures PrintsApart(review)
  {
  }

  /** Main result: the reviewer never has two inline comments for one finding. */
  lemma {:induction false} NoFingerprintTwice(client: Client, marker: string, pages: seq<Page>, steps: seq<Step>,
      n: nat)
    requires IsRun(client, marker, pages, steps) && n < |pages| && Ours(pages[0].review) == []
    requires forall m :: 0 <= m < |steps| && steps[m].Deliver? ==> Readable(steps[m].d)
    ensures PrintsApart(pages[n].review)
    decreases n
  {
    hide IsStep, PrintsApart, Readable;
    if n == 0 {
      NoneOurs(pages[0].review);
    } else {
      NoFingerprintTwice(client, marker, pages, steps, n - 1);
      assert IsStep(client, marker, pages[n-1], steps[n-1], pages[n-1+1]);
      StepKeepsPrintsApart(client, marker, pages[n-1], steps[n-1], pages[n]);
    }
  }

  // ---- One summary ----

  /** There is at most one summary, and it can be edited by its author. */
  predicate OneSummary(client: Client, marker: string, page: Page) {
    var mine := Mine(client, marker, page.comments);
    |mine| <= 1 && forall c :: c in mine ==> c.editable
  }

  /** Upserting leaves one comment of its own if there was at most one, and it says what was asked. */
  lemma {:induction false} UpsertLeavesOne(client: Client, cs: seq<IssueComment>, marker: string, body: string)
    requires client.login == client.self != "" && Contains(body, marker)
    requires forall c :: c in Mine(client, marker, cs) ==> c.editable
    ensures Upserted(client, cs, marker, body).Some?
    ensures var mine := Mine(client, marker, cs);
            var after := Mine(client, marker, Upserted(client, cs, marker, body).value);
            if mine == [] then after == [IssueComment(client.self, client.app, body, true)]
            else after == [mine[0].(body := body)] + mine[1..]
    decreases |cs|
  {
    hide Contains;
    if cs != [] {
      var c, rest := cs[0], cs[1..];
      if Contains(c.body, marker) && c.login == client.self {
        assert c in Mine(client, marker, cs);
        assert ([c.(body := body)] + rest)[1..] == rest;
      } else {
        UpsertLeavesOne(client, rest, marker, body);
        var more := Upserted(client, rest, marker, body).value;
        assert ([c] + more)[1..] == more;
      }
    }
  }

  /** What the end of a publish leaves: nothing new, or the one summary, and with it perhaps the check. */
  lemma ConcludedLeaves(client: Client, marker: string, page: Page, d: Delivery, reach: nat)
    requires client.login == client.self != "" && OneSummary(client, marker, page)
    ensures var after := Concluded(client, marker, page, d, reach);
            var mine := Mine(client, marker, after.comments);
            && OneSummary(client, marker, after) && after.review == page.review
            && (reach < 3 ==> after == page)
            && (reach >= 3 ==> |mine| == 1 && mine[0].body == SummaryBody(marker, d))
            && after.checks == page.checks + if reach < 4 then [] else [Check(d.sha, d.green && !d.deny)]
  {
    BodyCarriesMarker(marker, d);
    hide Contains, SummaryBody;
    if reach >= 3 {
      UpsertLeavesOne(client, page.comments, marker, SummaryBody(marker, d));
    }
  }

  // ---- A check means that everything else is there ----

  /** The finding is on a comment: on its own, at its line, or on one that carries its fingerprint. */
  ghost predicate OnAComment(review: seq<ReviewComment>, f: Finding) {
    exists c :: c in review && (ParseFPMarker(c.body) == Fingerprint(f) || PlacedFor(c, f))
  }

  /** The page shows this delivery: each inline finding is on a comment, and the summary is its own. */
  ghost predicate Shows(client: Client, marker: string, page: Page, d: Delivery) {
    && (!d.deny ==> forall f :: f in InlineOf(d) ==> OnAComment(page.review, f))
    && var mine := Mine(client, marker, page.comments);
       |mine| == 1 && mine[0].body == marker + "\n" + d.text
  }

  lemma CarriedIsOnAComment(review: seq<ReviewComment>, more: seq<ReviewComment>, f: Finding)
    requires Fingerprint(f) in Carried(review)
    ensures OnAComment(review + more, f)
  {
    hide ParseFPMarker, Fingerprint, InlineCommentBody;
    var i :| 0 <= i < |review| && ParseFPMarker(review[i].body) == Fingerprint(f);
    assert (review + more)[i] in review + more;
  }

  lemma PostedIsOnAComment(review: seq<ReviewComment>, toPost: seq<Finding>, nodes: seq<string>, f: Finding)
    requires f in toPost
    ensures OnAComment(review + Posts(toPost, nodes), f)
  {
    hide ParseFPMarker, Fingerprint, InlineCommentBody;
    var i :| 0 <= i < |toPost| && toPost[i] == f;
    var posts := Posts(toPost, nodes);
    assert PlacedFor(posts[i], f) && posts[i] in review + posts;
  }

  lemma AllAreOnComments(review: seq<ReviewComment>, d: Delivery, nodes: seq<string>)
    ensures forall f :: f in InlineOf(d) ==> OnAComment(review + Posts(Fresh(InlineOf(d), Carried(review)), nodes), f)
  {
    var toPost := Fresh(InlineOf(d), Carried(review));
    FreshIn(InlineOf(d), Carried(review));
    hide InlineOf, Fresh, OnAComment, Posts, Carried, Fingerprint;
    forall f | f in InlineOf(d) ensures OnAComment(review + Posts(toPost, nodes), f) {
      if Fingerprint(f) in Carried(review) {
        CarriedIsOnAComment(review, Posts(toPost, nodes), f);
      } else {
        PostedIsOnAComment(review, toPost, nodes, f);
      }
    }
  }

  /** One delivery: the summary stays one, a check is the last thing written, never the second for a
      commit unless the look-up failed, and its being there means that the page shows the delivery. */
  lemma DeliveryLeaves(client: Client, marker: string, page: Page, d: Delivery, a: Accident, nodes: seq<string>)
    requires client.login == client.self != "" && OneSummary(client, marker, page)
    ensures var after := Published(client, marker, page, d, a, nodes);
            var check := Check(d.sha, d.green && !d.deny);
            && OneSummary(client, marker, after)
            && (after.checks == page.checks
                || (after.checks == page.checks + [check] && Shows(client, marker, after, d)
                    && (a.lookupFails || !HasCheck(page.checks, d.sha))))
            && (d.sha != "" && a.reach >= 4 ==> HasCheck(after.checks, d.sha))
  {
    var after := Published(client, marker, page, d, a, nodes);
    var toPost := Fresh(InlineOf(d), Carried(page.review));
    var reviewed := page.(review := page.review + Posts(toPost, nodes));
    var gone := OutdatedNodes(page.review, InlineOf(d)) - a.unminimized;
    var before := if d.deny then page else reviewed.(minimized := page.minimized + gone);
    ConcludedLeaves(client, marker, before, d, a.reach);
    AllAreOnComments(page.review, d, nodes);
    hide Concluded, SummaryBody, InlineOf, OnAComment, Mine, Fingerprint, Carried, OutdatedNodes, Fresh, Posts;
    assert a.reach >= 4 ==> Concluded(client, marker, before, d, a.reach).checks[|page.checks|].sha == d.sha;
  }

  // ---- Over a run ----

  predicate Sound(client: Client, pages: seq<Page>, steps: seq<Step>, marker: string) {
    && IsRun(client, marker, pages, steps) && Untouched(client, marker, pages[0])
    && client.login == client.self != ""
  }

  lemma {:induction false} AtMostOneSummary(client: Client, marker: string, pages: seq<Page>, steps: seq<Step>, n: nat)
    requires Sound(client, pages, steps, marker) && n < |pages|
    ensures OneSummary(client, marker, pages[n])
    decreases n
  {
    if n == 0 {
      assert Mine(client, marker, pages[0].comments) == [];
    } else {
      AtMostOneSummary(client, marker, pages, steps, n - 1);
      assert IsStep(client, marker, pages[n-1], steps[n-1], pages[n-1+1]);
      hide Mine, Published, Untouched;
      match steps[n-1]
      case Deliver(d, a, nodes) => DeliveryLeaves(client, marker, pages[n-1], d, a, nodes);
      case Elsewhere =>
    }
  }

  predicate NoCommitTwice(checks: seq<Check>) {
    forall i, j :: 0 <= i < j < |checks| ==> checks[i].sha != checks[j].sha
  }

  /** A commit gets at most one check, if the look-ups of checks succeed. */
  lemma {:induction false} AtMostOneCheck(client: Client, marker: string, pages: seq<Page>, steps: seq<Step>, n: nat)
    requires Sound(client, pages, steps, marker) && n < |pages|
    requires forall m :: 0 <= m < |steps| && steps[m].Deliver? ==> !steps[m].accident.lookupFails
    ensures NoCommitTwice(pages[n].checks)
    decreases n
  {
    hide IsStep, OneSummary, Mine;
    if n > 0 {
      AtMostOneCheck(client, marker, pages, steps, n - 1);
      AtMostOneSummary(client, marker, pages, steps, n - 1);
      assert IsStep(client, marker, pages[n-1], steps[n-1], pages[n-1+1]);
      StepAddsNoCommitTwice(client, marker, pages[n-1], steps[n-1], pages[n]);
    }
  }

  lemma StepAddsNoCommitTwice(client: Client, marker: string, a: Page, s: Step, b: Page)
    requires IsStep(client, marker, a, s, b) && OneSummary(client, marker, a) && client.login == client.self != ""
    requires s.Deliver? ==> !s.accident.lookupFails
    requires NoCommitTwice(a.checks)
    ensures NoCommitTwice(b.checks)
  {
    hide Published, Mine, OneSummary;
    if s.Deliver? {
      DeliveryLeaves(client, marker, a, s.d, s.accident, s.nodes);
    }
  }

  /** A look-up that fails lets a redelivery write the check a second time. */
  lemma AFailedLookUpDoublesTheCheck(client: Client, marker: string, page: Page, d: Delivery, a: Accident,
      nodes: seq<string>)
    requires client.login == client.self != "" && OneSummary(client, marker, page) && d.sha != ""
    requires NoCommitTwice(page.checks) && HasCheck(page.checks, d.sha) && a.reach >= 4
    ensures NoCommitTwice(Published(client, marker, page, d, a, nodes).checks) <==> !a.lookupFails
  {
    var toPost := Fresh(InlineOf(d), Carried(page.review));
    var reviewed := page.(review := page.review + Posts(toPost, nodes));
    var gone := OutdatedNodes(page.review, InlineOf(d)) - a.unminimized;
    var before := if d.deny then page else reviewed.(minimized := page.minimized + gone);
    ConcludedLeaves(client, marker, before, d, a.reach);
    hide Concluded, SummaryBody, InlineOf, Mine, Carried, OutdatedNodes, Fresh, Posts;
    var after := Published(client, marker, page, d, a, nodes);
    if a.lookupFails {
      assert after.checks == page.checks + [Check(d.sha, d.green && !d.deny)];
      var i :| 0 <= i < |page.checks| && page.checks[i].sha == d.sha;
      assert after.checks[i].sha == after.checks[|page.checks|].sha;
    }
  }

  /** The delivery at step m wrote the check, and when it had, the page showed it. */
  ghost predicate WroteCheck(client: Client, marker: string, pages: seq<Page>, steps: seq<Step>, m: int, c: Check)
    requires |pages| == |steps| + 1
  {
    && 0 <= m < |steps| && steps[m].Deliver? && steps[m].d.sha == c.sha
    && pages[m+1].checks == pages[m].checks + [c] && Shows(client, marker, pages[m+1], steps[m].d)
  }

  lemma {:induction false} ChecksComeFromDeliveries(client: Client, marker: string, pages: seq<Page>,
      steps: seq<Step>, n: nat, c: Check)
    requires Sound(client, pages, steps, marker) && n < |pages| && c in pages[n].checks
    ensures exists m :: m < n && WroteCheck(client, marker, pages, steps, m, c)
    decreases n
  {
    if n > 0 {
      assert IsStep(client, marker, pages[n-1], steps[n-1], pages[n-1+1]);
      if c in pages[n-1].checks {
        ChecksComeFromDeliveries(client, marker, pages, steps, n - 1, c);
        var m :| m < n - 1 && WroteCheck(client, marker, pages, steps, m, c);
        assert m < n && WroteCheck(client, marker, pages, steps, m, c);
      } else {
        AtMostOneSummary(client, marker, pages, steps, n - 1);
        DeliveryLeaves(client, marker, pages[n-1], steps[n-1].d, steps[n-1].accident, steps[n-1].nodes);
        assert WroteCheck(client, marker, pages, steps, n - 1, c);
      }
    }
  }

  lemma StepKeepsPosted(client: Client, marker: string, a: Page, s: Step, b: Page)
    requires IsStep(client, marker, a, s, b)
    ensures Ours(a.review) <= Ours(b.review)
  {
    hide Published, Mine, Ours;
    if s.Deliver? {
      ReviewAfter(client, marker, a, s.d, s.accident, s.nodes);
      OursOfSum(a.review, Posts(Fresh(InlineOf(s.d), Carried(a.review)), s.nodes));
    }
  }

  /** What the reviewer posted stays. */
  lemma {:induction false} PostedStays(client: Client, marker: string, pages: seq<Page>, steps: seq<Step>, m: nat,
      n: nat)
    requires IsRun(client, marker, pages, steps) && m <= n < |pages|
    ensures Ours(pages[m].review) <= Ours(pages[n].review)
    decreases n
  {
    hide IsStep, Ours;
    if m < n {
      PostedStays(client, marker, pages, steps, m, n - 1);
      assert IsStep(client, marker, pages[n-1], steps[n-1], pages[n-1+1]);
      StepKeepsPosted(client, marker, pages[n-1], steps[n-1], pages[n]);
    }
  }

  /** Main result: a check on a commit was written by a delivery for that commit, after everything
      else of it was on the page; and of what was posted then, nothing has been taken back since. */
  lemma ACheckMeansPublished(client: Client, marker: string, pages: seq<Page>, steps: seq<Step>, n: nat, c: Check)
    requires Sound(client, pages, steps, marker) && n < |pages| && c in pages[n].checks
    ensures exists m :: m < n && WroteCheck(client, marker, pages, steps, m, c)
              && Ours(pages[m+1].review) <= Ours(pages[n].review)
  {
    ChecksComeFromDeliveries(client, marker, pages, steps, n, c);
    var m :| m < n && WroteCheck(client, marker, pages, steps, m, c);
    PostedStays(client, marker, pages, steps, m + 1, n);
  }

  /** Where a check is, so is the summary, exactly one. */
  lemma {:induction false} ExactlyOneSummary(client: Client, marker: string, pages: seq<Page>, steps: seq<Step>, n: nat)
    requires Sound(client, pages, steps, marker) && n < |pages| && pages[n].checks != []
    ensures |Mine(client, marker, pages[n].comments)| == 1
    decreases n
  {
    hide IsStep, OneSummary, Mine;
    if n > 0 {
      AtMostOneSummary(client, marker, pages, steps, n - 1);
      assert IsStep(client, marker, pages[n-1], steps[n-1], pages[n-1+1]);
      if pages[n-1].checks != [] {
        ExactlyOneSummary(client, marker, pages, steps, n - 1);
      }
      StepKeepsTheSummary(client, marker, pages[n-1], steps[n-1], pages[n]);
    }
  }

  lemma StepKeepsTheSummary(client: Client, marker: string, a: Page, s: Step, b: Page)
    requires IsStep(client, marker, a, s, b) && OneSummary(client, marker, a) && client.login == client.self != ""
    requires a.checks != [] ==> |Mine(client, marker, a.comments)| == 1
    ensures b.checks != [] ==> |Mine(client, marker, b.comments)| == 1
  {
    hide Published, Mine, OneSummary, SummaryBody;
    if s.Deliver? {
      if a.checks != [] {
        SummaryStays(client, marker, a, s.d, s.accident, s.nodes);
      } else {
        DeliveryLeaves(client, marker, a, s.d, s.accident, s.nodes);
      }
    }
  }

  lemma SummaryStays(client: Client, marker: string, page: Page, d: Delivery, a: Accident, nodes: seq<string>)
    requires client.login == client.self != "" && OneSummary(client, marker, page)
    requires |Mine(client, marker, page.comments)| == 1
    ensures |Mine(client, marker, Published(client, marker, page, d, a, nodes).comments)| == 1
  {
    var toPost := Fresh(InlineOf(d), Carried(page.review));
    var reviewed := page.(review := page.review + Posts(toPost, nodes));
    var gone := OutdatedNodes(page.review, InlineOf(d)) - a.unminimized;
    var before := if d.deny then page else reviewed.(minimized := page.minimized + gone);
    ConcludedLeaves(client, marker, before, d, a.reach);
    hide Concluded, SummaryBody, InlineOf, Mine, Carried, OutdatedNodes, Fresh, Posts;
  }

  lemma {:induction false} NoneFresh(inline: seq<Finding>, have: set<string>)
    requires forall f :: f in inline ==> Fingerprint(f) in have
    ensures Fresh(inline, have) == []
  {
    hide Fingerprint;
    if inline != [] {
      NoneFresh(inline[1..], have);
    }
  }

  lemma ReadableIsCarried(review: seq<ReviewComment>, f: Finding)
    requires OnAComment(review, f) && ReadsBack(f)
    ensures Fingerprint(f) in Carried(review)
  {
    FingerprintIsNotEmpty(f);
    hide ParseFPMarker, Fingerprint, InlineCommentBody;
    var c :| c in review && (ParseFPMarker(c.body) == Fingerprint(f) || PlacedFor(c, f));
    var i :| 0 <= i < |review| && review[i] == c;
    CarriedOrEmpty(review, i);
  }

  /** A push with the same inline findings, all readable, posts nothing again. */
  lemma RepushPostsNothing(client: Client, marker: string, page: Page, d: Delivery, again: Delivery, a: Accident,
      nodes: seq<string>)
    requires Shows(client, marker, page, d) && !d.deny && InlineOf(again) == InlineOf(d)
    requires forall f :: f in InlineOf(d) ==> ReadsBack(f)
    ensures Published(client, marker, page, again, a, nodes).review == page.review
  {
    ReviewAfter(client, marker, page, again, a, nodes);
    forall f | f in InlineOf(again) ensures Fingerprint(f) in Carried(page.review) {
      ReadableIsCarried(page.review, f);
    }
    NoneFresh(InlineOf(again), Carried(page.review));
    assert page.review + Posts([], nodes) == page.review;
  }

  /** A finding that is posted alone is posted again on the next push exactly when its comment cannot be
      read back. */
  lemma PostedAgainIfUnreadable(review: seq<ReviewComment>, d: Delivery, again: Delivery, f: Finding,
      nodes: seq<string>)
    requires InlineOf(d) == [f] && f in InlineOf(again) && Fingerprint(f) !in Carried(review)
    ensures var after := review + Posts(Fresh(InlineOf(d), Carried(review)), nodes);
            f in Fresh(InlineOf(again), Carried(after)) <==> !ReadsBack(f)
  {
    var posts := Posts([f], nodes);
    assert Fresh([f], Carried(review)) == [f] by {
      assert [f][1..] == [];
    }
    FreshIn(InlineOf(again), Carried(review + posts));
    FingerprintIsNotEmpty(f);
    hide ParseFPMarker, Fingerprint, InlineCommentBody, InlineOf, Fresh;
    assert posts[0].body == InlineCommentBody(f) && |posts| == 1;
    CarriedOfSum(review, posts);
  }

  lemma CarriedOfSum(a: seq<ReviewComment>, b: seq<ReviewComment>)
    ensures Carried(a + b) == Carried(a) + Carried(b)
  {
    hide ParseFPMarker;
    forall i | 0 <= i < |a| ensures (a + b)[i] == a[i] { }
    forall i | 0 <= i < |b| ensures (a + b)[|a| + i] == b[i] { }
  }
}
