/** Review findings: their identity, the gates they pass, and the merging of those that say the same. */
module Findings {
  import opened Text
  import opened Messages

  datatype Severity = Critical | Major | Medium | Nitpick

  datatype Dimension =
    | RuntimeSafety | ErrorHandling | Security | Performance | PatternViolation | Maintainability
    | Readability | Documentation | Accessibility | Architecture | Testability | TestCoverage | Other

  datatype Finding = Finding(
    file: string, line: int, dimension: Dimension, severity: Severity, message: string,
    suggestion: string, fixPrompt: string, ruleID: string, confidence: real)

  function Rank(s: Severity): int {
    match s
    case Critical => 4
    case Major => 3
    case Medium => 2
    case Nitpick => 1
  }

  /** The ladder, worst first. */
  predicate AtLeastAsBad(a: Severity, b: Severity) {
    a == b || a.Critical? || (a.Major? && !b.Critical?) || (a.Medium? && b.Nitpick?)
  }

  // ---- Fingerprints ----

  function Fingerprint(f: Finding): string { f.file + ":" + Itoa(f.line) + ":" + NormalizeMessage(f.message) }

  lemma ItoaHasNoColon(n: int)
    ensures ':' !in Itoa(n)
  {
  }

  lemma SplitAtColon(a: string, b: string, c: string, d: string)
    requires a + ":" + b == c + ":" + d && ':' !in a && ':' !in c
    ensures a == c && b == d
  {
    IndexOfPrefix(a, ':', b);
    IndexOfPrefix(c, ':', d);
    var s := a + [':'] + b;
    assert s == c + [':'] + d;
    assert s[..|a|] == a && s[..|a|] == c && s[|a|+1..] == b && s[|a|+1..] == d;
  }

  /** b goes on, after a colon, with a line number, and with nothing more or with a colon and text that
      could begin a normalized message. */
  ghost predicate Extends(a: string, b: string) {
    exists m | IsInt64(m) :: ExtendsBy(a, m, b)
  }

  ghost predicate ExtendsBy(a: string, m: int, b: string) {
    b == a + ":" + Itoa(m) || exists t | NormalizeMessage(t + ":") == t + ":" :: b == a + ":" + Itoa(m) + ":" + t
  }

  /** Some findings of these two files, on lines of 64 bits, have the same fingerprint. */
  ghost predicate CanCollide(a: string, b: string) {
    exists f: Finding, g: Finding :: f.file == a && g.file == b && IsInt64(f.line) && IsInt64(g.line)
      && Fingerprint(f) == Fingerprint(g)
  }

  function Tail(f: Finding): string { Itoa(f.line) + ":" + NormalizeMessage(f.message) }

  lemma FileAndTail(f: Finding)
    ensures Fingerprint(f) == f.file + ":" + Tail(f)
  {
    assert f.file + ":" + (Itoa(f.line) + ":" + NormalizeMessage(f.message)) == Fingerprint(f);
  }

  lemma SameTail(f: Finding, g: Finding)
    ensures Tail(f) == Tail(g) <==> f.line == g.line && SameWords(f.message, g.message)
  {
    SameMessageExactly(f.message, g.message);
    ItoaHasNoColon(f.line);
    ItoaHasNoColon(g.line);
    hide NormalizeMessage, SameWords, Itoa;
    if Tail(f) == Tail(g) {
      SplitAtColon(Itoa(f.line), NormalizeMessage(f.message), Itoa(g.line), NormalizeMessage(g.message));
      ItoaInjective(f.line, g.line);
    }
  }

  lemma TakeOff(a: string, s: string, t: string)
    ensures a + ":" + s == a + ":" + t <==> s == t
  {
    assert (a + ":" + s)[|a|+1..] == s && (a + ":" + t)[|a|+1..] == t;
  }

  /** A file whose fingerprint begins with another file's. */
  lemma LongerFile(a: string, s: string, b: string, t: string) returns (r: string)
    requires a + ":" + s == b + ":" + t && |a| < |b|
    ensures b == a + ":" + r && s == r + ":" + t
  {
    var u := a + ":" + s;
    r := b[|a|+1..];
    assert u[..|a|] == a && u[|a|] == ':' && u[|a|+1..] == s;
    assert u[..|b|] == b && u[|b|] == ':' && u[|b|+1..] == t;
    assert b[..|a|] == a && b[|a|] == ':';
    assert s == u[|a|+1..|b|] + u[|b|..] && u[|b|..] == ":" + t && u[|a|+1..|b|] == r;
  }

  /** The text before a colon of a normal message could begin one. */
  lemma BeginsNormal(t: string, rest: string)
    requires Normal(t + ":" + rest)
    ensures NormalizeMessage(t + ":") == t + ":"
  {
    var s := t + ":" + rest;
    forall i | 0 <= i <= |t| ensures NormalAt(t + ":", i) { assert NormalAt(s, i) && s[|t|] == ':'; }
    NormalExactly(t + ":");
  }

  lemma CollidingFilesExtend(f: Finding, g: Finding)
    requires |f.file| < |g.file| && IsInt64(f.line) && Fingerprint(f) == Fingerprint(g)
    ensures Extends(f.file, g.file)
  {
    FileAndTail(f);
    FileAndTail(g);
    ItoaHasNoColon(f.line);
    NormalizedIsNormal(f.message);
    hide NormalizeMessage, Itoa, Fingerprint;
    var a, b, number, text := f.file, g.file, Itoa(f.line), NormalizeMessage(f.message);
    var r := LongerFile(a, Tail(f), b, Tail(g));
    if ':' !in r {
      SplitAtColon(r, Tail(g), number, text);
      assert ExtendsBy(a, f.line, b);
    } else {
      var t := AfterNumber(number, text, r, Tail(g));
      BeginsNormal(t, Tail(g));
      assert b == a + ":" + number + ":" + t;
      assert ExtendsBy(a, f.line, b);
    }
  }

  lemma AfterNumber(number: string, text: string, r: string, tail: string) returns (t: string)
    requires number + ":" + text == r + ":" + tail && ':' !in number && ':' in r
    ensures r == number + ":" + t && text == t + ":" + tail
  {
    var i := IndexOf(r, ':');
    t := r[i+1..];
    assert r == r[..i] + ":" + t;
    assert r + ":" + tail == r[..i] + ":" + (t + ":" + tail);
    SplitAtColon(number, text, r[..i], t + ":" + tail);
  }

  /** A finding of that file and line whose message is normal already. */
  function Plain(file: string, line: int, message: string): Finding {
    Finding(file, line, Other, Nitpick, message, "", "", "", 0.0)
  }

  lemma PlainPrint(file: string, line: int, message: string)
    requires Normal(message)
    ensures Fingerprint(Plain(file, line, message)) == file + ":" + Itoa(line) + ":" + message
  {
    NormalExactly(message);
  }

  lemma OneXIsNormal(t: string)
    requires NormalizeMessage(t + ":") == t + ":"
    ensures Normal(t + ":1:x")
  {
    NormalExactly(t + ":");
    var s := t + ":1:x";
    forall i | 0 <= i < |s| ensures NormalAt(s, i) { assert i <= |t| ==> NormalAt(t + ":", i); }
  }

  lemma CollideWithX(a: string, m: int, message: string, b: string)
    requires IsInt64(m) && Normal(message) && b + ":1:x" == a + ":" + Itoa(m) + ":" + message
    ensures CanCollide(a, b)
  {
    var f, g := Plain(a, m, message), Plain(b, 1, "x");
    PlainPrint(a, m, message);
    PlainPrint(b, 1, "x");
    assert Itoa(1) == "1";
    hide Fingerprint, Itoa;
    assert b + ":" + "1" + ":" + "x" == b + ":1:x";
    assert f.file == a && g.file == b && Fingerprint(f) == Fingerprint(g);
  }

  lemma ExtendingFilesCollide(a: string, m: int, b: string)
    requires IsInt64(m) && ExtendsBy(a, m, b)
    ensures CanCollide(a, b)
  {
    hide Itoa, NormalizeMessage, CanCollide;
    var head := a + ":" + Itoa(m);
    if b == head {
      assert b + ":1:x" == head + ":" + "1:x";
      CollideWithX(a, m, "1:x", b);
    } else {
      var t :| NormalizeMessage(t + ":") == t + ":" && b == head + ":" + t;
      OneXIsNormal(t);
      assert b + ":1:x" == head + ":" + (t + ":1:x");
      CollideWithX(a, m, t + ":1:x", b);
    }
  }

  lemma CollisionIsMutual(a: string, b: string)
    ensures CanCollide(a, b) ==> CanCollide(b, a)
  {
  }

  lemma SameLengthFiles(f: Finding, g: Finding)
    requires Fingerprint(f) == Fingerprint(g) && |f.file| == |g.file|
    ensures f.file == g.file && Tail(f) == Tail(g)
  {
    FileAndTail(f);
    FileAndTail(g);
    hide Tail, Fingerprint;
    assert (f.file + ":" + Tail(f))[..|f.file|] == f.file && (g.file + ":" + Tail(g))[..|g.file|] == g.file;
    TakeOff(f.file, Tail(f), Tail(g));
  }

  /** Main result: two files can have findings with the same fingerprint exactly when one path is the
      other followed by a colon and a line number, and then nothing or a colon and more of a message. */
  lemma CollidingFiles(a: string, b: string)
    requires a != b
    ensures CanCollide(a, b) <==> Extends(a, b) || Extends(b, a)
  {
    if CanCollide(a, b) {
      var f: Finding, g: Finding :| f.file == a && g.file == b && IsInt64(f.line) && IsInt64(g.line)
        && Fingerprint(f) == Fingerprint(g);
      if |a| < |b| {
        CollidingFilesExtend(f, g);
      } else if |b| < |a| {
        CollidingFilesExtend(g, f);
      } else {
        SameLengthFiles(f, g);
      }
    }
    hide CanCollide, ExtendsBy;
    if Extends(a, b) {
      var m :| IsInt64(m) && ExtendsBy(a, m, b);
      ExtendingFilesCollide(a, m, b);
    }
    if Extends(b, a) {
      var m :| IsInt64(m) && ExtendsBy(b, m, a);
      ExtendingFilesCollide(b, m, a);
      CollisionIsMutual(b, a);
    }
  }

  /** Main result: but for such files, findings share a fingerprint exactly when they are on the same
      line of the same file with the same words. */
  lemma SameFingerprint(f: Finding, g: Finding)
    requires IsInt64(f.line) && IsInt64(g.line) && !Extends(f.file, g.file) && !Extends(g.file, f.file)
    ensures Fingerprint(f) == Fingerprint(g)
       <==> f.file == g.file && f.line == g.line && SameWords(f.message, g.message)
  {
    SameTail(f, g);
    FileAndTail(f);
    FileAndTail(g);
    if Fingerprint(f) == Fingerprint(g) {
      if f.file != g.file {
        CollidingFiles(f.file, g.file);
        assert CanCollide(f.file, g.file);
      } else {
        SameLengthFiles(f, g);
      }
    }
  }

  // ---- The gates ----

  datatype UncitedMode = DemoteUncited | DropUncited

  /** What the citation gate knows: the mode, and the identifiers of the repository's rules. */
  datatype Gate = Gate(enabled: bool, ruleIDs: seq<string>, mode: UncitedMode)

  predicate Conformance(d: Dimension) { d.PatternViolation? || d.Architecture? }

  predicate Uncited(f: Finding, gate: Gate) {
    gate.enabled && gate.ruleIDs != [] && Conformance(f.dimension) && f.ruleID !in gate.ruleIDs
  }

  function Demoted(f: Finding, gate: Gate): Finding { if Uncited(f, gate) then f.(severity := Nitpick) else f }

  function Confident(fs: seq<Finding>, threshold: real): seq<Finding> {
    if fs == [] then []
    else (if threshold <= 0.0 || fs[0].confidence >= threshold then [fs[0]] else []) + Confident(fs[1..], threshold)
  }

  function Cited(fs: seq<Finding>, gate: Gate): seq<Finding> {
    if fs == [] then []
    else (if Uncited(fs[0], gate) && gate.mode.DropUncited? then [] else [Demoted(fs[0], gate)]) + Cited(fs[1..], gate)
  }

  function Gated(fs: seq<Finding>, threshold: real, gate: Gate): seq<Finding> { Cited(Confident(fs, threshold), gate) }

  lemma {:induction false} ConfidentDistributes(a: seq<Finding>, b: seq<Finding>, threshold: real)
    ensures Confident(a + b, threshold) == Confident(a, threshold) + Confident(b, threshold)
    decreases |a|
  {
    if a == [] {
      assert a + b == b;
    } else {
      assert (a + b)[1..] == a[1..] + b;
      ConfidentDistributes(a[1..], b, threshold);
    }
  }

  lemma {:induction false} CitedDistributes(a: seq<Finding>, b: seq<Finding>, gate: Gate)
    ensures Cited(a + b, gate) == Cited(a, gate) + Cited(b, gate)
    decreases |a|
  {
    if a == [] {
      assert a + b == b;
    } else {
      assert (a + b)[1..] == a[1..] + b;
      CitedDistributes(a[1..], b, gate);
    }
  }

  /** Gating two lists together is gating each: what the glue pass is shown is what is kept. */
  lemma GatesDistribute(a: seq<Finding>, b: seq<Finding>, threshold: real, gate: Gate)
    ensures Gated(a + b, threshold, gate) == Gated(a, threshold, gate) + Gated(b, threshold, gate)
  {
    ConfidentDistributes(a, b, threshold);
    CitedDistributes(Confident(a, threshold), Confident(b, threshold), gate);
  }

  lemma {:induction false} ConfidentIn(fs: seq<Finding>, threshold: real)
    ensures forall f :: f in Confident(fs, threshold) <==> f in fs && (threshold <= 0.0 || f.confidence >= threshold)
  {
    if fs != [] {
      ConfidentIn(fs[1..], threshold);
      assert forall f :: f in fs <==> f == fs[0] || f in fs[1..];
    }
  }

  /** What the citation gate lets through as it is: everything when it is off or there are no rules, and
      else what is about other things than conformance, or cites a rule. */
  predicate Untouched(f: Finding, gate: Gate) {
    !gate.enabled || gate.ruleIDs == [] || f.ruleID in gate.ruleIDs
    || match f.dimension
       case PatternViolation => false
       case Architecture => false
       case _ => true
  }

  lemma {:induction false} CitedIn(fs: seq<Finding>, gate: Gate, g: Finding)
    ensures g in Cited(fs, gate) <==>
        || (g in fs && Untouched(g, gate))
        || (gate.mode.DemoteUncited? && exists f :: f in fs && !Untouched(f, gate) && g == f.(severity := Nitpick))
    decreases |fs|
  {
    if fs != [] {
      CitedIn(fs[1..], gate, g);
      assert forall f :: f in fs <==> f == fs[0] || f in fs[1..];
    }
  }

  /** The list has what the citation gate leaves untouched, and the rest as nitpicks or not at all. */
  ghost predicate AreCited(out: seq<Finding>, fs: seq<Finding>, gate: Gate) {
    forall g :: g in out <==>
        || (g in fs && Untouched(g, gate))
        || (gate.mode.DemoteUncited? && exists f :: f in fs && !Untouched(f, gate) && g == f.(severity := Nitpick))
  }

  lemma CitedInWords(fs: seq<Finding>, gate: Gate)
    ensures AreCited(Cited(fs, gate), fs, gate)
  {
    hide Cited, Untouched;
    forall g { CitedIn(fs, gate, g); }
  }

  /** Main result: what comes out of the gates is what meets the threshold, as it was if it is about other
      things than conformance, cites a rule or need not; what is left of the rest is collapsed to a
      nitpick, or dropped. */
  lemma GatesInWords(fs: seq<Finding>, threshold: real, gate: Gate, g: Finding)
    ensures g in Gated(fs, threshold, gate) <==>
        || (g in fs && (threshold <= 0.0 || g.confidence >= threshold) && Untouched(g, gate))
        || (gate.mode.DemoteUncited?
            && exists f :: f in fs && (threshold <= 0.0 || f.confidence >= threshold) && !Untouched(f, gate)
                 && g == f.(severity := Nitpick))
  {
    CitedIn(Confident(fs, threshold), gate, g);
    ConfidentIn(fs, threshold);
    hide Confident, Cited, Untouched;
  }

  /** When the citation gate is on and there are rules, a finding about patterns or architecture that is
      left above a nitpick cites one, and so does any such finding where the uncited are dropped. */
  lemma ConformanceNeedsARule(fs: seq<Finding>, threshold: real, gate: Gate, g: Finding)
    requires g in Gated(fs, threshold, gate) && gate.enabled && gate.ruleIDs != []
    requires g.dimension == PatternViolation || g.dimension == Architecture
    ensures !g.severity.Nitpick? || gate.mode.DropUncited? ==> g.ruleID in gate.ruleIDs
  {
    GatesInWords(fs, threshold, gate, g);
  }

  /** A finding of any other dimension is kept as it is exactly if it meets the threshold. */
  lemma OthersPass(fs: seq<Finding>, threshold: real, gate: Gate, f: Finding)
    requires f.dimension != PatternViolation && f.dimension != Architecture && f in fs
    ensures f in Gated(fs, threshold, gate) <==> threshold <= 0.0 || f.confidence >= threshold
  {
    GatesInWords(fs, threshold, gate, f);
  }

  lemma ConfidentEnds(fs: seq<Finding>, threshold: real)
    ensures Confident(fs[0..], threshold) == Confident(fs, threshold) && Confident(fs[|fs|..], threshold) == []
  {
    assert fs[0..] == fs;
  }

  lemma ConfidentStep(fs: seq<Finding>, i: nat, threshold: real)
    requires i < |fs|
    ensures Confident(fs[i..], threshold)
         == (if threshold <= 0.0 || fs[i].confidence >= threshold then [fs[i]] else [])
             + Confident(fs[i+1..], threshold)
  {
    assert fs[i..][1..] == fs[i+1..];
  }

  method DropLowConfidence(findings: seq<Finding>, threshold: real) returns (out: seq<Finding>)
    ensures out == Confident(findings, threshold)
    ensures forall f :: f in out <==> f in findings && (threshold <= 0.0 || f.confidence >= threshold)
  {
    ConfidentIn(findings, threshold);
    hide Confident;
    if threshold <= 0.0 {
      AllConfident(findings, threshold);
      return findings;
    }
    out := [];
    ConfidentEnds(findings, threshold);
    for i := 0 to |findings|
      invariant out + Confident(findings[i..], threshold) == Confident(findings, threshold)
    {
      ConfidentStep(findings, i, threshold);
      if findings[i].confidence >= threshold {
        out := out + [findings[i]];
      }
    }
  }

  lemma AllConfident(fs: seq<Finding>, threshold: real)
    requires threshold <= 0.0
    ensures Confident(fs, threshold) == fs
  {
  }

  lemma AllCited(fs: seq<Finding>, gate: Gate)
    requires !gate.enabled || gate.ruleIDs == []
    ensures Cited(fs, gate) == fs
  {
  }

  lemma CitedEnds(fs: seq<Finding>, gate: Gate)
    ensures Cited(fs[0..], gate) == Cited(fs, gate) && Cited(fs[|fs|..], gate) == []
  {
    assert fs[0..] == fs;
  }

  lemma CitedStep(fs: seq<Finding>, i: nat, gate: Gate)
    requires i < |fs|
    ensures Cited(fs[i..], gate)
         == (if Uncited(fs[i], gate) && gate.mode.DropUncited? then [] else [Demoted(fs[i], gate)])
             + Cited(fs[i+1..], gate)
  {
    assert fs[i..][1..] == fs[i+1..];
  }

  method GateCitations(findings: seq<Finding>, gate: Gate) returns (out: seq<Finding>)
    ensures out == Cited(findings, gate)
    ensures AreCited(out, findings, gate)
  {
    CitedInWords(findings, gate);
    hide AreCited;
    if !gate.enabled || gate.ruleIDs == [] {
      AllCited(findings, gate);
      return findings;
    }
    out := [];
    CitedEnds(findings, gate);
    hide Cited, Untouched;
    for i := 0 to |findings|
      invariant out + Cited(findings[i..], gate) == Cited(findings, gate)
    {
      var f := findings[i];
      CitedStep(findings, i, gate);
      if Conformance(f.dimension) && f.ruleID !in gate.ruleIDs {
        if gate.mode.DropUncited? {
          continue;
        }
        f := f.(severity := Nitpick);
      }
      out := out + [f];
    }
  }

  // ---- Merging ----

  predicate Better(a: Finding, b: Finding) {
    if Rank(a.severity) != Rank(b.severity) then Rank(a.severity) > Rank(b.severity) else a.confidence > b.confidence
  }

  /** Finding number k has the fingerprint, beats every earlier one that has it, and is beaten by none. */
  ghost predicate Wins(fs: seq<Finding>, k: int, fp: string) {
    && 0 <= k < |fs| && Fingerprint(fs[k]) == fp
    && (forall j :: 0 <= j < |fs| && Fingerprint(fs[j]) == fp ==> !Better(fs[j], fs[k]))
    && (forall j :: 0 <= j < k && Fingerprint(fs[j]) == fp ==> Better(fs[k], fs[j]))
  }

  /** The fingerprints, each at its first occurrence. */
  function Prints(fs: seq<Finding>): seq<string> {
    if fs == [] then []
    else
      var before, fp := Prints(fs[..|fs|-1]), Fingerprint(fs[|fs|-1]);
      if fp in before then before else before + [fp]
  }

  /** One finding for each fingerprint, in order of first occurrence: the worst, then the most
      confident, then the first. */
  ghost predicate Merged(fs: seq<Finding>, out: seq<Finding>) {
    && |out| == |Prints(fs)|
    && forall i :: 0 <= i < |out| ==> exists k :: Wins(fs, k, Prints(fs)[i]) && out[i] == fs[k]
  }

  lemma {:induction false} PrintsAreFirsts(fs: seq<Finding>)
    ensures forall i, j :: 0 <= i < j < |Prints(fs)| ==> Prints(fs)[i] != Prints(fs)[j]
    ensures forall fp :: fp in Prints(fs) <==> exists f :: f in fs && Fingerprint(f) == fp
    decreases |fs|
  {
    if fs != [] {
      var before := fs[..|fs|-1];
      PrintsAreFirsts(before);
      assert forall f :: f in fs <==> f in before || f == fs[|fs|-1];
    }
  }

  lemma WinnerIsUnique(fs: seq<Finding>, j: int, k: int, fp: string)
    requires Wins(fs, j, fp) && Wins(fs, k, fp)
    ensures j == k
  {
  }

  /** The description has exactly one answer. */
  lemma MergedIsDetermined(fs: seq<Finding>, a: seq<Finding>, b: seq<Finding>)
    requires Merged(fs, a) && Merged(fs, b)
    ensures a == b
  {
    forall i | 0 <= i < |a| ensures a[i] == b[i] {
      var fp := Prints(fs)[i];
      var j :| Wins(fs, j, fp) && a[i] == fs[j];
      var k :| Wins(fs, k, fp) && b[i] == fs[k];
      WinnerIsUnique(fs, j, k, fp);
    }
  }

  /** A later finding either takes the place of the winner so far or leaves it. */
  lemma WinnerAfter(fs: seq<Finding>, f: Finding, k: int, fp: string)
    requires Wins(fs, k, fp)
    ensures Wins(fs + [f], if Fingerprint(f) == fp && Better(f, fs[k]) then |fs| else k, fp)
  {
    var all := fs + [f];
    assert forall j :: 0 <= j < |fs| ==> all[j] == fs[j];
  }

  lemma FirstWins(fs: seq<Finding>, f: Finding)
    requires Fingerprint(f) !in Prints(fs)
    ensures Wins(fs + [f], |fs|, Fingerprint(f))
  {
    PrintsAreFirsts(fs);
    var all := fs + [f];
    assert forall j :: 0 <= j < |fs| ==> all[j] == fs[j] && all[j] in fs;
  }

  lemma MergeOneMore(fs: seq<Finding>, f: Finding, out: seq<Finding>, i: nat, next: seq<Finding>)
    requires Merged(fs, out)
    requires if i < |out| then Prints(fs)[i] == Fingerprint(f)
        && next == out[i := if Better(f, out[i]) then f else out[i]]
             else Fingerprint(f) !in Prints(fs) && next == out + [f]
    ensures Merged(fs + [f], next)
  {
    var all, fp := fs + [f], Fingerprint(f);
    assert all[..|fs|] == fs;
    PrintsAreFirsts(fs);
    assert Prints(all) == if i < |out| then Prints(fs) else Prints(fs) + [fp];
    forall m | 0 <= m < |next| ensures exists k :: Wins(all, k, Prints(all)[m]) && next[m] == all[k] {
      if m < |out| {
        var k :| Wins(fs, k, Prints(fs)[m]) && out[m] == fs[k];
        WinnerAfter(fs, f, k, Prints(fs)[m]);
      } else {
        FirstWins(fs, f);
      }
    }
  }

  lemma NothingMerged(fs: seq<Finding>)
    ensures Merged(fs[..0], []) && Prints(fs[..0]) == []
  {
  }

  /** The fingerprints after one more finding. */
  lemma OneMorePrint(fs: seq<Finding>, f: Finding)
    ensures Prints(fs + [f]) == if Fingerprint(f) in Prints(fs) then Prints(fs) else Prints(fs) + [Fingerprint(f)]
  {
    assert (fs + [f])[..|fs|] == fs;
  }

  method Dedupe(findings: seq<Finding>) returns (out: seq<Finding>)
    ensures Merged(findings, out)
  {
    hide Fingerprint, Prints, Better, Wins;
    NothingMerged(findings);
    var seen: map<string, nat> := map[];
    out := [];
    for n := 0 to |findings|
      invariant Merged(findings[..n], out)
      invariant forall fp :: fp in seen <==> fp in Prints(findings[..n])
      invariant forall fp :: fp in seen ==> seen[fp] < |out| && Prints(findings[..n])[seen[fp]] == fp
    {
      var f := findings[n];
      var fp := Fingerprint(f);
      ghost var before, was := findings[..n], out;
      assert findings[..n+1] == before + [f];
      OneMorePrint(before, f);
      if fp in seen {
        var i := seen[fp];
        if Better(f, out[i]) {
          out := out[i := f];
        }
        MergeOneMore(before, f, was, i, out);
      } else {
        MergeOneMore(before, f, was, |was|, out + [f]);
        seen := seen[fp := |out|];
        out := out + [f];
      }
    }
    assert findings[..|findings|] == findings;
  }

  /** g says what f says, no less severely, and if no more severely then no less confidently. */
  predicate StandsFor(g: Finding, f: Finding) {
    && Fingerprint(g) == Fingerprint(f) && AtLeastAsBad(g.severity, f.severity)
    && (g.severity == f.severity ==> g.confidence >= f.confidence)
  }

  /** Merging loses no finding without another that stands for it. */
  lemma MergingLosesNothing(fs: seq<Finding>, out: seq<Finding>, f: Finding)
    requires Merged(fs, out) && f in fs
    ensures exists g :: g in out && StandsFor(g, f)
  {
    hide Fingerprint, Prints;
    PrintsAreFirsts(fs);
    var fp := Fingerprint(f);
    assert fp in Prints(fs);
    var i :| 0 <= i < |out| && Prints(fs)[i] == fp;
    var k :| Wins(fs, k, Prints(fs)[i]) && out[i] == fs[k];
    assert !Better(f, fs[k]);
    assert out[i] in out && StandsFor(out[i], f);
  }

  lemma MergedPrints(fs: seq<Finding>, out: seq<Finding>)
    requires Merged(fs, out)
    ensures forall i :: 0 <= i < |out| ==> Fingerprint(out[i]) == Prints(fs)[i]
    ensures forall i, j :: 0 <= i < j < |out| ==> Fingerprint(out[i]) != Fingerprint(out[j])
  {
    PrintsAreFirsts(fs);
  }

  // ---- The review ----

  /** The gate order of a review. The glue pass may return anything; what it was shown as already
      reported is all in the outcome, under the same fingerprint and no less severe. */
  method Review(category: seq<Finding>, glue: seq<Finding>, threshold: real, gate: Gate)
    returns (shown: seq<Finding>, findings: seq<Finding>)
    ensures shown == Gated(category, threshold, gate)
    ensures Merged(Gated(category + glue, threshold, gate), findings)
    ensures forall f :: f in shown ==>
              exists g :: g in findings && StandsFor(g, f)
  {
    shown := DropLowConfidence(category, threshold);
    shown := GateCitations(shown, gate);
    var all := category + glue;
    all := DropLowConfidence(all, threshold);
    all := GateCitations(all, gate);
    findings := Dedupe(all);
    GatesDistribute(category, glue, threshold, gate);
    forall f | f in shown
      ensures exists g :: g in findings && StandsFor(g, f)
    {
      MergingLosesNothing(all, findings, f);
    }
  }
}
