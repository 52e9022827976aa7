/** Inline comments and the hidden marker that carries a finding's fingerprint through GitHub. */
module Markers {
  import opened Wrappers
  import opened Text
  import opened Findings
  import opened Messages

  const PREFIX := "<!-- ar-fp:"
  const SUFFIX := " -->"

  function Marker(fp: string): string { PREFIX + fp + SUFFIX }

  // ---- Finding the marker: the leftmost match of the prefix, at least one character that is not a
  //      newline, as few as possible, and the suffix ----

  /** The shortest newline-free text before a suffix. */
  function UntilSuffix(s: string): Option<string> {
    if HasPrefix(s, SUFFIX) then Some("")
    else if s == "" || s[0] == '\n' then None
    else
      match UntilSuffix(s[1..])
      case None => None
      case Some(t) => Some([s[0]] + t)
  }

  function Payload(s: string): Option<string> {
    if s == "" || s[0] == '\n' then None
    else
      match UntilSuffix(s[1..])
      case None => None
      case Some(t) => Some([s[0]] + t)
  }

  function MarkerAt(s: string): Option<string> {
    if HasPrefix(s, PREFIX) then Payload(s[|PREFIX|..]) else None
  }

  /** parseFPMarker: "" when there is no marker. */
  function ParseFPMarker(body: string): string {
    if body == "" then ""
    else
      match MarkerAt(body)
      case Some(fp) => fp
      case None => ParseFPMarker(body[1..])
  }

  // ---- The same in words ----

  ghost predicate Matches(s: string, fp: string) {
    fp != "" && '\n' !in fp && HasPrefix(s, PREFIX + fp + SUFFIX)
  }

  lemma PrefixChars(s: string, p: string)
    ensures HasPrefix(s, p) <==> |p| <= |s| && forall k :: 0 <= k < |p| ==> s[k] == p[k]
  {
  }

  lemma PrefixOfSum(p: string, a: string, b: string)
    ensures HasPrefix(p + b, p + a) <==> HasPrefix(b, a)
  {
    if |a| <= |b| {
      assert (p + b)[..|p + a|] == p + b[..|a|];
      if HasPrefix(p + b, p + a) {
        assert (p + a)[|p|..] == a && (p + b[..|a|])[|p|..] == b[..|a|];
      }
    }
  }

  lemma OneMore(s: string, fp: string)
    requires s != "" && fp != ""
    ensures HasPrefix(s, fp + SUFFIX) <==> s[0] == fp[0] && HasPrefix(s[1..], fp[1..] + SUFFIX)
  {
    assert fp + SUFFIX == [fp[0]] + (fp[1..] + SUFFIX) && s == [s[0]] + s[1..];
    if s[0] == fp[0] {
      PrefixOfSum([s[0]], fp[1..] + SUFFIX, s[1..]);
    }
  }

  lemma {:induction false} UntilSuffixIsShortest(s: string, t: string)
    requires '\n' !in t && HasPrefix(s, t + SUFFIX)
    ensures UntilSuffix(s).Some? && |UntilSuffix(s).value| <= |t|
    decreases |s|
  {
    if !HasPrefix(s, SUFFIX) {
      assert [] + SUFFIX == SUFFIX;
      assert s[0] == t[0] && (t + SUFFIX)[1..] == t[1..] + SUFFIX;
      assert s[1..][..|t|-1+|SUFFIX|] == (t + SUFFIX)[1..];
      UntilSuffixIsShortest(s[1..], t[1..]);
    }
  }

  lemma {:induction false} UntilSuffixIsThere(s: string)
    requires UntilSuffix(s).Some?
    ensures var t := UntilSuffix(s).value; '\n' !in t && HasPrefix(s, t + SUFFIX)
    decreases |s|
  {
    var t := UntilSuffix(s).value;
    if HasPrefix(s, SUFFIX) {
      assert t + SUFFIX == SUFFIX;
    } else {
      UntilSuffixIsThere(s[1..]);
      assert t[0] == s[0] && t[1..] == UntilSuffix(s[1..]).value;
      OneMore(s, t);
      hide HasPrefix;
    }
  }

  lemma PayloadAfter(s: string, fp: string)
    requires HasPrefix(s, PREFIX)
    ensures Matches(s, fp) <==> fp != "" && '\n' !in fp && HasPrefix(s[|PREFIX|..], fp + SUFFIX)
  {
    var rest := s[|PREFIX|..];
    assert s == PREFIX + rest;
    PrefixOfSum(PREFIX, fp + SUFFIX, rest);
    assert PREFIX + fp + SUFFIX == PREFIX + (fp + SUFFIX);
  }

  /** The text at the front is the shortest that matches there. */
  lemma MarkerAtIsShortest(s: string)
    ensures MarkerAt(s).Some? ==> Matches(s, MarkerAt(s).value)
    ensures forall fp :: Matches(s, fp) ==> MarkerAt(s).Some? && |MarkerAt(s).value| <= |fp|
  {
    forall fp | Matches(s, fp) ensures HasPrefix(s, PREFIX) {
      assert (PREFIX + fp + SUFFIX)[..|PREFIX|] == PREFIX;
    }
    if HasPrefix(s, PREFIX) {
      var rest := s[|PREFIX|..];
      forall fp ensures Matches(s, fp) <==> fp != "" && '\n' !in fp && HasPrefix(rest, fp + SUFFIX) {
        PayloadAfter(s, fp);
      }
      hide Matches;
      PayloadIsShortest(rest);
    }
  }

  lemma PayloadIsShortest(s: string)
    ensures Payload(s).Some? ==> var fp := Payload(s).value; fp != "" && '\n' !in fp && HasPrefix(s, fp + SUFFIX)
    ensures forall fp :: fp != "" && '\n' !in fp && HasPrefix(s, fp + SUFFIX) ==>
        Payload(s).Some? && |Payload(s).value| <= |fp|
  {
    forall fp | fp != "" && '\n' !in fp && HasPrefix(s, fp + SUFFIX) ensures Payload(s).Some?
        && |Payload(s).value| <= |fp| {
      OneMore(s, fp);
      UntilSuffixIsShortest(s[1..], fp[1..]);
    }
    if Payload(s).Some? {
      UntilSuffixIsThere(s[1..]);
      OneMore(s, Payload(s).value);
    }
  }

  ghost predicate IsFirstMatch(body: string, i: int, found: string) {
    && 0 <= i <= |body| && Matches(body[i..], found)
    && (forall j, fp :: 0 <= j < i ==> !Matches(body[j..], fp))
    && forall fp :: Matches(body[i..], fp) ==> |found| <= |fp|
  }

  /** The first match of the rest, one further on. */
  lemma FirstMatchLater(body: string)
    requires body != "" && forall fp :: !Matches(body, fp)
    ensures (forall i, fp :: 0 <= i <= |body[1..]| ==> !Matches(body[1..][i..], fp)) ==>
              forall i, fp :: 0 <= i <= |body| ==> !Matches(body[i..], fp)
    ensures forall i, fp :: IsFirstMatch(body[1..], i, fp) ==> IsFirstMatch(body, i + 1, fp)
  {
    hide Matches;
    assert body[0..] == body;
    forall i | 1 <= i <= |body| ensures body[1..][i-1..] == body[i..] { }
  }

  /** parseFPMarker is the regular expression: the leftmost match, and the shortest one there. */
  lemma {:induction false} ParseIsLeftmostShortest(body: string)
    ensures ParseFPMarker(body) == "" ==> forall i, fp :: 0 <= i <= |body| ==> !Matches(body[i..], fp)
    ensures ParseFPMarker(body) != "" ==> exists i :: IsFirstMatch(body, i, ParseFPMarker(body))
    decreases |body|
  {
    MarkerAtIsShortest(body);
    assert body[0..] == body;
    hide Matches, MarkerAt;
    if body == "" {
    } else if MarkerAt(body).Some? {
      assert MarkerAt(body).value != "" by { PayloadIsNotEmpty(body); }
      assert IsFirstMatch(body, 0, MarkerAt(body).value);
    } else {
      ParseIsLeftmostShortest(body[1..]);
      FirstMatchLater(body);
      hide IsFirstMatch;
    }
  }

  lemma PayloadIsNotEmpty(s: string)
    requires MarkerAt(s).Some?
    ensures MarkerAt(s).value != ""
  {
  }

  // ---- Which fingerprints come back ----

  /** No newline, and no suffix after the first character. */
  predicate Clean(fp: string) {
    fp != "" && '\n' !in fp && forall i :: 1 <= i <= |fp| ==> !HasPrefix(fp[i..], SUFFIX)
  }

  lemma MarkerMatches(fp: string, v: string)
    ensures Matches(Marker(fp), v) <==> v != "" && '\n' !in v && HasPrefix(fp + SUFFIX, v + SUFFIX)
  {
    assert Marker(fp) == PREFIX + (fp + SUFFIX);
    PrefixOfSum(PREFIX, "", fp + SUFFIX);
    assert PREFIX + "" == PREFIX;
    PayloadAfter(Marker(fp), v);
    assert Marker(fp)[|PREFIX|..] == fp + SUFFIX;
  }

  lemma SuffixIsUnbordered(k: nat)
    requires 0 < k < |SUFFIX|
    ensures SUFFIX[k] != SUFFIX[0]
  {
  }

  lemma CharOfSum(a: string, b: string, k: nat)
    requires k < |b|
    ensures (a + b)[|a| + k] == b[k]
  {
  }

  /** The suffix does not overlap itself. */
  lemma SuffixInside(fp: string, v: string)
    requires HasPrefix(fp + SUFFIX, v + SUFFIX) && |v| < |fp|
    ensures HasPrefix(fp[|v|..], SUFFIX)
  {
    hide HasPrefix;
    if |fp| < |v| + |SUFFIX| {
      SuffixIsUnbordered(|fp| - |v|);
      CharOfSum(v, SUFFIX, |fp| - |v|);
      CharOfSum(fp, SUFFIX, 0);
      PrefixChars(fp + SUFFIX, v + SUFFIX);
    } else {
      PrefixChars(fp + SUFFIX, v + SUFFIX);
      forall k | 0 <= k < |SUFFIX| ensures fp[|v|..][k] == SUFFIX[k] {
        CharOfSum(v, SUFFIX, k);
      }
      PrefixChars(fp[|v|..], SUFFIX);
    }
  }

  lemma CleanIsShortest(fp: string, v: string)
    requires Clean(fp) && v != "" && HasPrefix(fp + SUFFIX, v + SUFFIX)
    ensures |v| >= |fp|
  {
    if |v| < |fp| {
      SuffixInside(fp, v);
    }
  }

  lemma CleanParses(fp: string)
    requires Clean(fp)
    ensures MarkerAt(Marker(fp)) == Some(fp)
  {
    MarkerAtIsShortest(Marker(fp));
    MarkerMatches(fp, fp);
    var v := MarkerAt(Marker(fp)).value;
    MarkerMatches(fp, v);
    hide Matches, MarkerAt, Marker;
    CleanIsShortest(fp, v);
    assert v == (v + SUFFIX)[..|fp|] == (fp + SUFFIX)[..|fp|];
  }

  lemma UncleanDoesNot(fp: string)
    requires fp != "" && !Clean(fp)
    ensures ParseFPMarker(Marker(fp)) != fp
  {
    ParsesNoNewline(Marker(fp));
    if i :| 1 <= i <= |fp| && HasPrefix(fp[i..], SUFFIX) && '\n' !in fp {
      assert (fp + SUFFIX)[..i+|SUFFIX|] == fp[..i] + SUFFIX;
      MarkerMatches(fp, fp[..i]);
      MarkerAtIsShortest(Marker(fp));
    }
  }

  /** A marker alone gives its fingerprint back exactly when the fingerprint is clean. */
  lemma ParseOfMarker(fp: string)
    requires fp != ""
    ensures ParseFPMarker(Marker(fp)) == fp <==> Clean(fp)
  {
    if Clean(fp) {
      CleanParses(fp);
    } else {
      UncleanDoesNot(fp);
    }
  }

  lemma ParsesNoNewline(body: string)
    ensures '\n' !in ParseFPMarker(body)
  {
    ParseIsLeftmostShortest(body);
  }

  // ---- Markers in a text of several lines ----

  lemma PrefixInLine(a: string, b: string, p: string)
    requires '\n' !in p
    ensures HasPrefix(a + "\n" + b, p) <==> HasPrefix(a, p)
  {
    var s := a + "\n" + b;
    assert s[|a|] == '\n' && forall k :: 0 <= k < |a| ==> s[k] == a[k];
    PrefixChars(s, p);
    PrefixChars(a, p);
  }

  lemma {:induction false} UntilSuffixInLine(a: string, b: string)
    ensures UntilSuffix(a + "\n" + b) == UntilSuffix(a)
    decreases |a|
  {
    PrefixInLine(a, b, SUFFIX);
    var s := a + "\n" + b;
    hide HasPrefix;
    if a == "" {
      assert s[0] == '\n';
    } else {
      assert s[0] == a[0] && s[1..] == a[1..] + "\n" + b;
      UntilSuffixInLine(a[1..], b);
    }
  }

  lemma MarkerAtInLine(a: string, b: string)
    ensures MarkerAt(a + "\n" + b) == MarkerAt(a)
  {
    var s := a + "\n" + b;
    PrefixInLine(a, b, PREFIX);
    if HasPrefix(a, PREFIX) {
      var rest := a[|PREFIX|..];
      assert s[|PREFIX|..] == rest + "\n" + b;
      if rest != "" {
        UntilSuffixInLine(rest[1..], b);
        assert (rest + "\n" + b)[1..] == rest[1..] + "\n" + b;
      } else {
        assert (rest + "\n" + b)[0] == '\n';
      }
    }
  }

  /** A marker does not go over the end of a line. */
  lemma {:induction false} ParseByLine(a: string, b: string)
    ensures ParseFPMarker(a + "\n" + b) == if ParseFPMarker(a) != "" then ParseFPMarker(a) else ParseFPMarker(b)
    decreases |a|
  {
    var s := a + "\n" + b;
    MarkerAtInLine(a, b);
    hide MarkerAt;
    if a == "" {
      assert MarkerAt(a) == None by { NoMarkerAt(a); }
      assert s[1..] == b;
    } else if MarkerAt(a).Some? {
      PayloadIsNotEmpty(a);
    } else {
      assert s[1..] == a[1..] + "\n" + b;
      ParseByLine(a[1..], b);
    }
  }

  lemma NoMarkerAt(s: string)
    requires s == "" || s[0] != '<'
    ensures MarkerAt(s) == None
  {
  }

  /** Text in which no exclamation mark comes right after a less-than sign. */
  predicate Quiet(s: string) { forall i :: 0 <= i < |s| - 1 && s[i] == '<' ==> s[i+1] != '!' }

  lemma {:induction false} QuietHasNoMarker(s: string)
    requires Quiet(s)
    ensures ParseFPMarker(s) == ""
    decreases |s|
  {
    if s != "" {
      assert PREFIX[0] == '<' && PREFIX[1] == '!';
      PrefixChars(s, PREFIX);
      assert forall i :: 0 <= i < |s[1..]| ==> s[1..][i] == s[i+1];
      QuietHasNoMarker(s[1..]);
    }
  }

  lemma AfterQuiet(a: string, b: string)
    requires Quiet(a)
    ensures ParseFPMarker(a + "\n" + b) == ParseFPMarker(b)
  {
    QuietHasNoMarker(a);
    ParseByLine(a, b);
  }

  // ---- Sanitized text ----

  /** strings.ReplaceAll of one character */
  function ReplaceAll(s: string, c: char, t: string): string {
    if s == "" then "" else (if s[0] == c then t else [s[0]]) + ReplaceAll(s[1..], c, t)
  }

  function Escape(s: string): string {
    ReplaceAll(ReplaceAll(ReplaceAll(s, '&', "&amp;"), '<', "&lt;"), '>', "&gt;")
  }

  predicate IsAlnum(c: char) { IsDigit(c) || 'A' <= c <= 'Z' || 'a' <= c <= 'z' }

  const ZERO_WIDTH_SPACE := '\U{200B}'

  function BreakMentions(s: string): string
    decreases |s|
  {
    if s == "" then ""
    else if |s| > 1 && s[0] == '@' && IsAlnum(s[1]) then ['@', ZERO_WIDTH_SPACE, s[1]] + BreakMentions(s[2..])
    else [s[0]] + BreakMentions(s[1..])
  }

  function SanitizeText(s: string): string { BreakMentions(Escape(s)) }

  function Unescape(s: string): string
    decreases |s|
  {
    if s == "" then ""
    else if HasPrefix(s, "&amp;") then "&" + Unescape(s[5..])
    else if HasPrefix(s, "&lt;") then "<" + Unescape(s[4..])
    else if HasPrefix(s, "&gt;") then ">" + Unescape(s[4..])
    else [s[0]] + Unescape(s[1..])
  }

  function Escaped(c: char): string {
    match c
    case '&' => "&amp;"
    case '<' => "&lt;"
    case '>' => "&gt;"
    case _ => [c]
  }

  lemma {:induction false} ReplaceAllSplits(a: string, b: string, c: char, t: string)
    ensures ReplaceAll(a + b, c, t) == ReplaceAll(a, c, t) + ReplaceAll(b, c, t)
    decreases |a|
  {
    if a == "" {
      assert a + b == b;
    } else {
      assert (a + b)[1..] == a[1..] + b;
      ReplaceAllSplits(a[1..], b, c, t);
    }
  }

  lemma {:induction false} NothingToReplace(s: string, c: char, t: string)
    requires c !in s
    ensures ReplaceAll(s, c, t) == s
  {
    if s != "" {
      NothingToReplace(s[1..], c, t);
    }
  }

  lemma ReplaceInOne(c: char, x: char, t: string)
    ensures ReplaceAll([c], x, t) == if c == x then t else [c]
  {
    assert [c][1..] == "";
  }

  lemma EscapeChar(c: char)
    ensures Escape([c]) == Escaped(c)
  {
    hide ReplaceAll;
    ReplaceInOne(c, '&', "&amp;");
    ReplaceInOne(c, '<', "&lt;");
    ReplaceInOne(c, '>', "&gt;");
    NothingToReplace("&amp;", '<', "&lt;");
    NothingToReplace("&amp;", '>', "&gt;");
    NothingToReplace("&lt;", '>', "&gt;");
  }

  /** The three replacements, in their order, escape each character once. */
  lemma EscapeStep(s: string)
    requires s != ""
    ensures Escape(s) == Escaped(s[0]) + Escape(s[1..])
  {
    EscapeChar(s[0]);
    assert s == [s[0]] + s[1..];
    ReplaceAllSplits([s[0]], s[1..], '&', "&amp;");
    var a, b := ReplaceAll([s[0]], '&', "&amp;"), ReplaceAll(s[1..], '&', "&amp;");
    ReplaceAllSplits(a, b, '<', "&lt;");
    ReplaceAllSplits(ReplaceAll(a, '<', "&lt;"), ReplaceAll(b, '<', "&lt;"), '>', "&gt;");
  }

  lemma UnescapeEntity(name: string, rest: string)
    requires name in {"&amp;", "&lt;", "&gt;"}
    ensures Unescape(name + rest)
        == (if name == "&amp;" then "&" else if name == "&lt;" then "<" else ">") + Unescape(rest)
  {
    var s := name + rest;
    assert s[|name|..] == rest && s[..|name|] == name && s[1] == name[1];
    assert name == "&lt;" ==> s[..4] == name;
    assert name == "&gt;" ==> s[..4] == name;
  }

  lemma UnescapeStep(c: char, rest: string)
    ensures Unescape(Escaped(c) + rest) == [c] + Unescape(rest)
  {
    hide Unescape;
    if c == '&' || c == '<' || c == '>' {
      UnescapeEntity(Escaped(c), rest);
    } else {
      UnescapePlain(c, rest);
    }
  }

  lemma UnescapePlain(c: char, rest: string)
    requires c != '&'
    ensures Unescape([c] + rest) == [c] + Unescape(rest)
  {
    assert ([c] + rest)[1..] == rest;
  }

  /** Escaping loses nothing: a reader of the HTML sees the text. */
  lemma {:induction false} UnescapeInvertsEscape(s: string)
    ensures Unescape(Escape(s)) == s
    decreases |s|
  {
    if s != "" {
      EscapeStep(s);
      UnescapeStep(s[0], Escape(s[1..]));
      UnescapeInvertsEscape(s[1..]);
    }
  }

  function WithoutBreaks(s: string): string {
    if s == "" then "" else (if s[0] == ZERO_WIDTH_SPACE then "" else [s[0]]) + WithoutBreaks(s[1..])
  }

  lemma {:induction false} BreaksOfSum(a: string, b: string)
    ensures WithoutBreaks(a + b) == WithoutBreaks(a) + WithoutBreaks(b)
    decreases |a|
  {
    if a == "" {
      assert a + b == b;
    } else {
      assert (a + b)[1..] == a[1..] + b;
      BreaksOfSum(a[1..], b);
    }
  }

  lemma {:induction false} OnlyBreaksAreAdded(s: string)
    ensures WithoutBreaks(BreakMentions(s)) == WithoutBreaks(s)
    decreases |s|
  {
    if s == "" {
    } else if |s| > 1 && s[0] == '@' && IsAlnum(s[1]) {
      OnlyBreaksAreAdded(s[2..]);
      BreaksOfSum(['@', ZERO_WIDTH_SPACE, s[1]], BreakMentions(s[2..]));
      BreaksOfSum(['@', s[1]], s[2..]);
      assert s == ['@', s[1]] + s[2..];
      assert ['@', ZERO_WIDTH_SPACE, s[1]][1..] == [ZERO_WIDTH_SPACE, s[1]] && [ZERO_WIDTH_SPACE, s[1]][1..] == [s[1]];
      assert ['@', s[1]][1..] == [s[1]];
    } else {
      OnlyBreaksAreAdded(s[1..]);
      BreaksOfSum([s[0]], BreakMentions(s[1..]));
      BreaksOfSum([s[0]], s[1..]);
      assert s == [s[0]] + s[1..];
    }
  }

  lemma NoBreakInEscaped(c: char)
    ensures WithoutBreaks(Escaped(c)) == if c == ZERO_WIDTH_SPACE then "" else Escaped(c)
  {
    assert WithoutBreaks("&amp;") == "&amp;" && WithoutBreaks("&lt;") == "&lt;" && WithoutBreaks("&gt;") == "&gt;";
  }

  lemma {:induction false} BreaksOfEscape(s: string)
    ensures WithoutBreaks(Escape(s)) == Escape(WithoutBreaks(s))
    decreases |s|
  {
    if s != "" {
      var rest := WithoutBreaks(s[1..]);
      EscapeStep(s);
      BreaksOfSum(Escaped(s[0]), Escape(s[1..]));
      BreaksOfEscape(s[1..]);
      NoBreakInEscaped(s[0]);
      EscapeStep([s[0]] + rest);
      assert ([s[0]] + rest)[1..] == rest && "" + Escape(rest) == Escape(rest) && "" + rest == rest;
      hide Escape, Escaped;
    }
  }

  /** Sanitizing loses nothing: a reader of the comment sees the text, zero-width spaces aside. */
  lemma SanitizedReadsBack(s: string)
    ensures Unescape(WithoutBreaks(SanitizeText(s))) == WithoutBreaks(s)
  {
    OnlyBreaksAreAdded(Escape(s));
    BreaksOfEscape(s);
    UnescapeInvertsEscape(WithoutBreaks(s));
    hide Escape, Unescape, BreakMentions;
  }

  predicate Mentions(s: string, i: int) { 0 <= i < |s| - 1 && s[i] == '@' && IsAlnum(s[i+1]) }

  lemma {:induction false} BreakMentionsBreaks(s: string)
    ensures s != "" ==> BreakMentions(s) != "" && BreakMentions(s)[0] == s[0]
    ensures forall i :: !Mentions(BreakMentions(s), i)
    ensures forall c :: c in BreakMentions(s) ==> c in s || c == ZERO_WIDTH_SPACE
    decreases |s|
  {
    if s == "" {
    } else if |s| > 1 && s[0] == '@' && IsAlnum(s[1]) {
      BreakMentionsBreaks(s[2..]);
      MentionsAfter(['@', ZERO_WIDTH_SPACE, s[1]], BreakMentions(s[2..]));
    } else {
      BreakMentionsBreaks(s[1..]);
      MentionsAfter([s[0]], BreakMentions(s[1..]));
    }
  }

  lemma MentionsAfter(a: string, b: string)
    requires a != "" && (forall i :: !Mentions(a, i)) && (forall i :: !Mentions(b, i))
    requires a[|a|-1] == '@' ==> b == "" || !IsAlnum(b[0])
    ensures forall i :: !Mentions(a + b, i)
  {
    forall i ensures !Mentions(a + b, i) {
      assert i < |a| - 1 ==> (Mentions(a + b, i) <==> Mentions(a, i));
      assert i >= |a| ==> (Mentions(a + b, i) <==> Mentions(b, i - |a|));
    }
  }

  lemma {:induction false} EscapeLeavesNoBrackets(s: string)
    ensures '<' !in Escape(s) && '>' !in Escape(s)
    decreases |s|
  {
    if s != "" {
      EscapeStep(s);
      EscapeLeavesNoBrackets(s[1..]);
    }
  }

  /** Model-written text carries no markup and mentions nobody, and is otherwise the same text. */
  lemma SanitizedIsInert(s: string)
    ensures '<' !in SanitizeText(s) && '>' !in SanitizeText(s)
    ensures forall i :: !Mentions(SanitizeText(s), i)
  {
    EscapeLeavesNoBrackets(s);
    BreakMentionsBreaks(Escape(s));
  }

  // ---- Fences ----

  predicate TicksAt(s: string, i: int, n: nat) {
    0 <= i <= |s| - n && forall j :: i <= j < i + n ==> s[j] == '`'
  }

  lemma TickInside(s: string, i: int, n: nat, j: int)
    requires 0 <= j < |s|
    ensures TicksAt(s, i, n) && i <= j < i + n ==> s[j] == '`'
  {
  }

  function LeadingTicks(s: string): (n: nat)
    ensures TicksAt(s, 0, n) && (n < |s| ==> s[n] != '`')
  {
    if s == "" || s[0] != '`' then 0
    else
      var n := 1 + LeadingTicks(s[1..]);
      assert forall j :: 1 <= j < n ==> s[j] == s[1..][j-1];
      n
  }

  function LongestRun(s: string): nat {
    if s == "" then 0
    else if LeadingTicks(s) > LongestRun(s[1..]) then LeadingTicks(s) else LongestRun(s[1..])
  }

  ghost predicate IsLongestRun(s: string, longest: nat) {
    && (exists i :: TicksAt(s, i, longest))
    && forall i, n: nat :: TicksAt(s, i, n) ==> n <= longest
  }

  lemma {:induction false} LongestRunIsLongest(s: string)
    ensures IsLongestRun(s, LongestRun(s))
  {
    if s == "" {
      assert TicksAt(s, 0, 0);
    } else {
      LongestRunIsLongest(s[1..]);
      forall i, n: nat ensures TicksAt(s[1..], i, n) ==> TicksAt(s, i + 1, n) {
        assert forall j :: 0 <= j < |s[1..]| ==> s[1..][j] == s[j+1];
      }
      forall i, n: nat | TicksAt(s, i, n) ensures n <= LongestRun(s) {
        if i > 0 {
          assert forall j :: i <= j < i + n ==> s[1..][j-1] == s[j];
          assert TicksAt(s[1..], i - 1, n);
        } else {
          TickInside(s, i, n, if LeadingTicks(s) < |s| then LeadingTicks(s) else 0);
        }
      }
    }
  }

  method MaxBacktickRun(s: string) returns (longest: nat)
    ensures longest == LongestRun(s)
  {
    var cur: nat := 0;
    longest := 0;
    ghost var at := 0;
    assert TicksAt(s, 0, 0);
    for k := 0 to |s|
      invariant cur <= k && TicksAt(s, k - cur, cur) && (cur < k ==> s[k - cur - 1] != '`')
      invariant TicksAt(s, at, longest) && cur <= longest
      invariant forall i, n: nat :: TicksAt(s, i, n) && i + n <= k ==> n <= longest
    {
      if s[k] == '`' {
        cur := cur + 1;
        if cur > longest {
          longest := cur;
          at := k + 1 - cur;
        }
        forall i, n: nat | TicksAt(s, i, n) && i + n <= k + 1 ensures n <= longest {
          if cur <= k {
            TickInside(s, i, n, k - cur);
          }
        }
      } else {
        cur := 0;
        forall i, n: nat | TicksAt(s, i, n) && i + n <= k + 1 ensures n <= longest {
          TickInside(s, i, n, k);
        }
      }
    }
    LongestRunIsLongest(s);
  }

  function Ticks(n: nat): string { seq(n, _ => '`') }

  function Fence(text: string): string {
    if LongestRun(text) + 1 < 3 then "```" else Ticks(LongestRun(text) + 1)
  }

  /** The fenced text cannot close its fence. */
  lemma FenceHolds(text: string)
    ensures |Fence(text)| >= 3 && forall j :: 0 <= j < |Fence(text)| ==> Fence(text)[j] == '`'
    ensures forall i, n :: |Fence(text)| <= n ==> !TicksAt(text, i, n)
  {
    LongestRunIsLongest(text);
  }

  // ---- The comment ----

  function DimensionName(d: Dimension): string {
    match d
    case RuntimeSafety => "runtime_safety"
    case ErrorHandling => "error_handling"
    case Security => "security"
    case Performance => "performance"
    case PatternViolation => "pattern_violation"
    case Maintainability => "maintainability"
    case Readability => "readability"
    case Documentation => "documentation"
    case Accessibility => "accessibility"
    case Architecture => "architectural_alignment"
    case Testability => "testability"
    case TestCoverage => "test_coverage"
    case Other => "other"
  }

  /** No two dimensions have one name. */
  lemma NamesDiffer(d: Dimension, e: Dimension)
    ensures DimensionName(d) == DimensionName(e) <==> d == e
  {
    assert forall x: Dimension :: |DimensionName(x)| > 2;
  }

  function FindingPrefix(f: Finding): string {
    if f.dimension.Security? then "\U{1F512} Security"
    else if f.severity.Critical? || f.severity.Major? then "\U{26A0}\U{FE0F} Potential issue"
    else "\U{1F6E0}\U{FE0F} Refactor"
  }

  /** The label tells security from the rest, and of the rest the two worst severities from the others. */
  lemma LabelTells(f: Finding, g: Finding)
    ensures FindingPrefix(f) == FindingPrefix(g) <==>
        && f.dimension.Security? == g.dimension.Security?
        && (!f.dimension.Security? ==> (f.severity in {Critical, Major}) == (g.severity in {Critical, Major}))
  {
    assert FindingPrefix(f)[0] == if f.dimension.Security? then '\U{1F512}'
                                  else if f.severity in {Critical, Major} then '\U{26A0}' else '\U{1F6E0}';
    assert FindingPrefix(g)[0] == if g.dimension.Security? then '\U{1F512}'
                                  else if g.severity in {Critical, Major} then '\U{26A0}' else '\U{1F6E0}';
  }

  function Heading(f: Finding): string {
    "**" + FindingPrefix(f) + "** \U{B7} _" + DimensionName(f.dimension) + "_\n\n" + SanitizeText(f.message)
  }

  const OPENING := "\n<details>\n<summary>" + "\U{1F916} Prompt for AI agents" + "</summary>\n"
  const CLOSING := "\n</details>"

  /** A fenced prompt, its fences on lines of their own. */
  function PromptBlock(prompt: string): string
    requires prompt != ""
  {
    var fence := Fence(prompt);
    var line := if prompt[|prompt|-1] == '\n' then prompt else prompt + "\n";
    OPENING + "\n" + fence + "\n" + line + fence + "\n" + CLOSING + "\n"
  }

  function SuggestionBlock(suggestion: string): string {
    if suggestion == "" then "" else "\n**Suggestion:** " + SanitizeText(suggestion) + "\n"
  }

  function InlineCommentBody(f: Finding): string {
    Heading(f) + "\n" + SuggestionBlock(Trim(f.suggestion))
    + (if f.fixPrompt == "" then "" else PromptBlock(f.fixPrompt))
    + "\n" + Marker(Fingerprint(f)) + "\n"
  }

  /** The parts are in the text, one after the other. */
  ghost predicate Shows(text: string, parts: seq<string>)
    decreases |parts|
  {
    parts == [] || exists a, rest :: text == a + parts[0] + rest && Shows(rest, parts[1..])
  }

  lemma ShowsNext(a: string, part: string, rest: string, parts: seq<string>)
    requires Shows(rest, parts)
    ensures Shows(a + part + rest, [part] + parts)
  {
    assert ([part] + parts)[1..] == parts && ([part] + parts)[0] == part;
  }

  /** The prompt between its fences, each on a line of its own. */
  function FencedParts(prompt: string): seq<string>
    requires prompt != ""
  {
    var text := if prompt[|prompt|-1] == '\n' then prompt[..|prompt|-1] else prompt;
    [Fence(prompt) + "\n" + text, "\n" + Fence(prompt) + "\n"]
  }

  /** What a comment has to show of a finding. */
  function PartsOf(f: Finding): seq<string> {
    [FindingPrefix(f), DimensionName(f.dimension), SanitizeText(f.message)]
    + (if Trim(f.suggestion) == "" then [] else [SanitizeText(Trim(f.suggestion))])
    + (if f.fixPrompt == "" then [] else FencedParts(f.fixPrompt))
    + [Marker(Fingerprint(f))]
  }

  lemma MarkerShows(marker: string)
    ensures Shows("\n" + marker + "\n", [marker])
  {
    ShowsNext("\n", marker, "\n", []);
    assert [marker] + [] == [marker];
  }

  lemma PromptJoined(opening: string, fence: string, text: string, closing: string, rest: string)
    ensures opening + "\n" + fence + "\n" + (text + "\n") + fence + "\n" + closing + "\n" + rest
        == opening + "\n" + (fence + "\n" + text) + ("" + ("\n" + fence + "\n") + (closing + "\n" + rest))
  {
  }

  lemma PromptShows(prompt: string, rest: string, parts: seq<string>)
    requires Shows(rest, parts) && prompt != ""
    ensures Shows(PromptBlock(prompt) + rest, FencedParts(prompt) + parts)
  {
    var fence := Fence(prompt);
    hide Fence, Shows;
    var text := if prompt[|prompt|-1] == '\n' then prompt[..|prompt|-1] else prompt;
    var line := if prompt[|prompt|-1] == '\n' then prompt else prompt + "\n";
    var end := CLOSING + "\n" + rest;
    assert line == text + "\n";
    ShowsLater(CLOSING + "\n", rest, parts);
    ShowsNext("", "\n" + fence + "\n", end, parts);
    var below := "" + ("\n" + fence + "\n") + end;
    ShowsNext(OPENING + "\n", fence + "\n" + text, below, ["\n" + fence + "\n"] + parts);
    PromptJoined(OPENING, fence, text, CLOSING, rest);
    assert FencedParts(prompt) + parts == [fence + "\n" + text] + (["\n" + fence + "\n"] + parts);
  }

  lemma ShowsLater(a: string, text: string, parts: seq<string>)
    requires Shows(text, parts)
    ensures Shows(a + text, parts)
  {
    if parts != [] {
      var b, rest :| text == b + parts[0] + rest && Shows(rest, parts[1..]);
      assert a + text == (a + b) + parts[0] + rest;
    }
  }

  lemma SuggestionShows(suggestion: string, rest: string, parts: seq<string>)
    requires Shows(rest, parts)
    ensures Shows(SuggestionBlock(suggestion) + rest,
                  (if suggestion == "" then [] else [SanitizeText(suggestion)]) + parts)
  {
    hide SanitizeText, Shows;
    if suggestion == "" {
      assert SuggestionBlock("") + rest == rest && [] + parts == parts;
    } else {
      ShowsLater("\n", rest, parts);
      ShowsNext("\n**Suggestion:** ", SanitizeText(suggestion), "\n" + rest, parts);
      assert SuggestionBlock(suggestion) + rest
          == "\n**Suggestion:** " + SanitizeText(suggestion) + ("\n" + rest);
    }
  }

  lemma HeadingShows(f: Finding, rest: string, parts: seq<string>)
    requires Shows(rest, parts)
    ensures Shows(Heading(f) + rest, [FindingPrefix(f), DimensionName(f.dimension), SanitizeText(f.message)] + parts)
  {
    hide SanitizeText, Shows, FindingPrefix, DimensionName;
    var tag, name, text := FindingPrefix(f), DimensionName(f.dimension), SanitizeText(f.message);
    ShowsNext("_\n\n", text, rest, parts);
    ShowsNext("** \U{B7} _", name, "_\n\n" + text + rest, [text] + parts);
    ShowsNext("**", tag, "** \U{B7} _" + name + ("_\n\n" + text + rest), [name] + ([text] + parts));
    assert Heading(f) + rest == "**" + tag + ("** \U{B7} _" + name + ("_\n\n" + text + rest));
    assert [tag, name, text] + parts == [tag] + ([name] + ([text] + parts));
  }

  lemma BodyJoined(heading: string, suggestion: string, prompt: string, marker: string)
    ensures heading + "\n" + suggestion + prompt + "\n" + marker + "\n"
         == heading + ("\n" + (suggestion + (prompt + ("\n" + marker + "\n"))))
  {
  }

  lemma PartsJoined(a: seq<string>, b: seq<string>, c: seq<string>, d: seq<string>)
    ensures a + b + c + d == a + (b + (c + d))
  {
  }

  /** Main result: a comment shows, in this order, its label, its dimension, its sanitized message, its
      trimmed and sanitized suggestion if any, its fix prompt between fences if any, and its marker. */
  lemma CommentShowsAll(f: Finding)
    ensures Shows(InlineCommentBody(f), PartsOf(f))
  {
    hide Shows, Heading, SuggestionBlock, PromptBlock, Marker, Fingerprint, SanitizeText, Fence, Trim, FencedParts,
      FindingPrefix, DimensionName;
    var marker := Marker(Fingerprint(f));
    var prompt := if f.fixPrompt == "" then "" else PromptBlock(f.fixPrompt);
    var fenced := if f.fixPrompt == "" then [] else FencedParts(f.fixPrompt);
    var suggestion := Trim(f.suggestion);
    var suggested := if suggestion == "" then [] else [SanitizeText(suggestion)];
    var last := "\n" + marker + "\n";
    MarkerShows(marker);
    if f.fixPrompt == "" {
      assert prompt + last == last && fenced + [marker] == [marker];
    } else {
      PromptShows(f.fixPrompt, last, [marker]);
    }
    SuggestionShows(suggestion, prompt + last, fenced + [marker]);
    ShowsLater("\n", SuggestionBlock(suggestion) + (prompt + last), suggested + (fenced + [marker]));
    HeadingShows(f, "\n" + (SuggestionBlock(suggestion) + (prompt + last)), suggested + (fenced + [marker]));
    BodyJoined(Heading(f), SuggestionBlock(suggestion), prompt, marker);
    PartsJoined([FindingPrefix(f), DimensionName(f.dimension), SanitizeText(f.message)], suggested, fenced, [marker]);
  }

  lemma EndOfLine(a: string)
    ensures ParseFPMarker(a + "\n") == ParseFPMarker(a)
  {
    ParseByLine(a, "");
    assert a + "\n" + "" == a + "\n";
  }

  lemma FencedText(opening: string, fence: string, text: string, closing: string, rest: string)
    requires Quiet(opening) && Quiet(fence) && Quiet(closing)
    ensures ParseFPMarker(opening + "\n" + fence + "\n" + (text + "\n") + fence + "\n" + closing + "\n" + rest)
         == if ParseFPMarker(text) != "" then ParseFPMarker(text) else ParseFPMarker(rest)
  {
    hide ParseFPMarker, Quiet;
    var last := closing + "\n" + rest;
    var below := fence + "\n" + last;
    var inside := text + "\n" + below;
    AfterQuiet(closing, rest);
    AfterQuiet(fence, last);
    ParseByLine(text, below);
    AfterQuiet(fence, inside);
    AfterQuiet(opening, fence + "\n" + inside);
    assert opening + "\n" + fence + "\n" + (text + "\n") + fence + "\n" + closing + "\n" + rest
        == opening + "\n" + (fence + "\n" + inside);
  }

  lemma NoBangsAround()
    ensures '!' !in OPENING && '!' !in CLOSING
  {
  }

  lemma PromptBlockParses(prompt: string, rest: string)
    requires prompt != ""
    ensures ParseFPMarker(PromptBlock(prompt) + rest)
         == if ParseFPMarker(prompt) != "" then ParseFPMarker(prompt) else ParseFPMarker(rest)
  {
    var text := if prompt[|prompt|-1] == '\n' then prompt[..|prompt|-1] else prompt;
    var line := if prompt[|prompt|-1] == '\n' then prompt else prompt + "\n";
    assert line == text + "\n";
    EndOfLine(text);
    FenceHolds(prompt);
    NoBangsAround();
    FencedText(OPENING, Fence(prompt), text, CLOSING, rest);
  }

  lemma NoMarkupInName(d: Dimension)
    ensures '<' !in DimensionName(d)
  {
    match d
    case RuntimeSafety =>
    case ErrorHandling =>
    case Security =>
    case Performance =>
    case PatternViolation =>
    case Maintainability =>
    case Readability =>
    case Documentation =>
    case Accessibility =>
    case Architecture =>
    case Testability =>
    case TestCoverage =>
    case Other =>
  }

  lemma NoMarkupInPrefix(f: Finding)
    ensures '<' !in FindingPrefix(f)
  {
  }

  lemma HeadingIsQuiet(f: Finding)
    ensures Quiet(Heading(f))
  {
    SanitizedIsInert(f.message);
    NoMarkupInName(f.dimension);
    NoMarkupInPrefix(f);
    hide SanitizeText, FindingPrefix, DimensionName;
  }

  lemma SuggestionThen(suggestion: string, rest: string)
    ensures ParseFPMarker(SuggestionBlock(suggestion) + rest) == ParseFPMarker(rest)
  {
    if suggestion == "" {
      assert SuggestionBlock(suggestion) + rest == rest;
    } else {
      SanitizedIsInert(suggestion);
      hide SanitizeText;
      AfterQuiet("\n**Suggestion:** " + SanitizeText(suggestion), rest);
    }
  }

  lemma MarkerLine(marker: string)
    ensures ParseFPMarker("\n" + marker + "\n") == ParseFPMarker(marker)
  {
    ParseByLine("", marker + "\n");
    EndOfLine(marker);
    assert "" + "\n" + (marker + "\n") == "\n" + marker + "\n";
  }

  lemma PromptThen(prompt: string, rest: string)
    ensures ParseFPMarker((if prompt == "" then "" else PromptBlock(prompt)) + rest)
         == if ParseFPMarker(prompt) != "" then ParseFPMarker(prompt) else ParseFPMarker(rest)
  {
    if prompt == "" {
      assert "" + rest == rest;
    } else {
      PromptBlockParses(prompt, rest);
    }
  }

  lemma PartsParse(heading: string, suggestion: string, prompt: string, marker: string)
    requires Quiet(heading)
    requires forall rest :: ParseFPMarker(suggestion + rest) == ParseFPMarker(rest)
    ensures ParseFPMarker(heading + "\n" + suggestion + prompt + "\n" + marker + "\n")
         == ParseFPMarker(prompt + ("\n" + marker + "\n"))
  {
    hide ParseFPMarker, Quiet;
    var last := "\n" + marker + "\n";
    AfterQuiet(heading, suggestion + (prompt + last));
    assert heading + "\n" + suggestion + prompt + "\n" + marker + "\n"
        == heading + "\n" + (suggestion + (prompt + last));
  }

  /** What a later review reads from a comment: a marker in the fix prompt if there is one, else what
      its own marker gives. The message and the suggestion never count. */
  lemma BodyParses(f: Finding)
    ensures ParseFPMarker(InlineCommentBody(f))
         == if ParseFPMarker(f.fixPrompt) != "" then ParseFPMarker(f.fixPrompt)
             else ParseFPMarker(Marker(Fingerprint(f)))
  {
    hide ParseFPMarker, Fingerprint, Heading, SuggestionBlock, Quiet, Marker, PromptBlock;
    var suggestion := SuggestionBlock(Trim(f.suggestion));
    var prompt := if f.fixPrompt == "" then "" else PromptBlock(f.fixPrompt);
    var marker := Marker(Fingerprint(f));
    HeadingIsQuiet(f);
    forall rest ensures ParseFPMarker(suggestion + rest) == ParseFPMarker(rest) {
      SuggestionThen(Trim(f.suggestion), rest);
    }
    PartsParse(Heading(f), suggestion, prompt, marker);
    PromptThen(f.fixPrompt, "\n" + marker + "\n");
    MarkerLine(marker);
  }

  lemma ParsedIsClean(body: string)
    requires ParseFPMarker(body) != ""
    ensures Clean(ParseFPMarker(body))
  {
    var v := ParseFPMarker(body);
    ParseIsLeftmostShortest(body);
    var i :| IsFirstMatch(body, i, v);
    var s := body[i..];
    forall k | 1 <= k <= |v| ensures !HasPrefix(v[k..], SUFFIX) {
      if HasPrefix(v[k..], SUFFIX) {
        MatchesShorter(s, v, k);
      }
    }
  }

  lemma MatchesShorter(s: string, v: string, k: int)
    requires Matches(s, v) && 1 <= k <= |v| && HasPrefix(v[k..], SUFFIX)
    ensures k < |v| && Matches(s, v[..k])
  {
    assert PREFIX + v + SUFFIX == PREFIX + v[..k] + v[k..] + SUFFIX;
    assert v[k..] == SUFFIX + v[k..][|SUFFIX|..];
    assert (PREFIX + v + SUFFIX)[..|PREFIX| + k + |SUFFIX|] == PREFIX + v[..k] + SUFFIX;
  }

  /** Main result: a posted comment gives back its finding's fingerprint exactly when the fix prompt
      holds no marker of another finding and the fingerprint is one line without the suffix in it. */
  lemma CommentRoundTrip(f: Finding)
    ensures ParseFPMarker(InlineCommentBody(f)) == Fingerprint(f)
       <==> ParseFPMarker(f.fixPrompt) in {"", Fingerprint(f)} && Clean(Fingerprint(f))
  {
    var fp := Fingerprint(f);
    assert fp != "" by {
      assert |fp| == |f.file| + 1 + |Itoa(f.line)| + 1 + |NormalizeMessage(f.message)|;
    }
    BodyParses(f);
    ParseOfMarker(fp);
    hide ParseFPMarker, Fingerprint, Clean, InlineCommentBody, Marker;
    if ParseFPMarker(f.fixPrompt) != "" {
      ParsedIsClean(f.fixPrompt);
    }
  }

  /** A message with the suffix in it comes back cut short, so its finding is not recognized. */
  lemma ASuffixInTheMessageCutsTheFingerprint(f: Finding)
    requires HasPrefix(NormalizeMessage(f.message), "a" + SUFFIX) && ParseFPMarker(f.fixPrompt) == ""
    ensures ParseFPMarker(InlineCommentBody(f)) != Fingerprint(f)
  {
    var fp := Fingerprint(f);
    var k := |f.file| + 1 + |Itoa(f.line)| + 1 + 1;
    assert fp[k..] == NormalizeMessage(f.message)[1..];
    assert NormalizeMessage(f.message)[..1+|SUFFIX|][1..] == SUFFIX;
    assert HasPrefix(fp[k..], SUFFIX);
    CommentRoundTrip(f);
  }
}
