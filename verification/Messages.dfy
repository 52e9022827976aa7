/** Messages as the fingerprint sees them: in lower case, and with single blanks between the words. */
module Messages {
  import opened Text

  function Lower(s: string): string {
    seq(|s|, i requires 0 <= i < |s| => if 'A' <= s[i] <= 'Z' then s[i] - 'A' + 'a' else s[i])
  }

  function WordEnd(s: string): (i: nat)
    ensures i <= |s|
    ensures forall j :: 0 <= j < i ==> !IsSpace(s[j])
    ensures i < |s| ==> IsSpace(s[i])
  {
    if s == "" || IsSpace(s[0]) then 0 else 1 + WordEnd(s[1..])
  }

  predicate IsWord(w: string) { w != "" && forall j :: 0 <= j < |w| ==> !IsSpace(w[j]) }

  /** strings.Fields */
  function Fields(s: string): (words: seq<string>)
    ensures forall i :: 0 <= i < |words| ==> IsWord(words[i])
    decreases |s|
  {
    if s == "" then []
    else if IsSpace(s[0]) then Fields(s[1..])
    else [s[..WordEnd(s)]] + Fields(s[WordEnd(s)..])
  }

  /** strings.Join(words, " ") */
  function JoinWords(words: seq<string>): string {
    if words == [] then "" else if |words| == 1 then words[0] else words[0] + " " + JoinWords(words[1..])
  }

  function NormalizeMessage(s: string): string { JoinWords(Fields(Lower(s))) }

  lemma WordThenSpace(w: string, rest: string)
    requires IsWord(w) && (rest == "" || IsSpace(rest[0]))
    ensures WordEnd(w + rest) == |w|
  {
    var s := w + rest;
    assert forall j :: 0 <= j < |w| ==> s[j] == w[j];
    if rest != "" {
      assert s[|w|] == rest[0];
    }
  }

  // ---- What a normalized message looks like ----

  /** No capital letters, and no space but single blanks between words. */
  predicate Normal(s: string) { forall i :: 0 <= i < |s| ==> NormalAt(s, i) }

  predicate NormalAt(s: string, i: nat)
    requires i < |s|
  {
    !('A' <= s[i] <= 'Z') && (IsSpace(s[i]) ==> s[i] == ' ' && 0 < i && i + 1 < |s| && !IsSpace(s[i+1]))
  }

  predicate NoCapitals(s: string) { forall i :: 0 <= i < |s| ==> !('A' <= s[i] <= 'Z') }

  lemma {:induction false} FieldsHaveNoCapitals(s: string, k: nat)
    requires NoCapitals(s) && k < |Fields(s)|
    ensures NoCapitals(Fields(s)[k])
    decreases |s|
  {
    if IsSpace(s[0]) {
      FieldsHaveNoCapitals(s[1..], k);
    } else if k > 0 {
      FieldsHaveNoCapitals(s[WordEnd(s)..], k - 1);
    }
  }

  lemma WordBefore(w: string, s: string)
    requires IsWord(w) && NoCapitals(w) && s != "" && Normal(s)
    ensures Normal(w + " " + s)
  {
    var r := w + " " + s;
    assert NormalAt(s, 0);
    forall i | 0 <= i < |r| ensures NormalAt(r, i) {
      if i > |w| { assert NormalAt(s, i - |w| - 1); }
    }
  }

  lemma {:induction false} JoinIsNormal(words: seq<string>)
    requires forall i :: 0 <= i < |words| ==> IsWord(words[i]) && NoCapitals(words[i])
    ensures Normal(JoinWords(words)) && (words != [] ==> JoinWords(words) != "")
  {
    if |words| > 1 {
      JoinIsNormal(words[1..]);
      WordBefore(words[0], JoinWords(words[1..]));
    }
  }

  lemma FieldsAfterWord(w: string, rest: string)
    requires IsWord(w) && (rest == "" || IsSpace(rest[0]))
    ensures Fields(w + rest) == [w] + Fields(rest)
  {
    WordThenSpace(w, rest);
    assert (w + rest)[0] == w[0] && (w + rest)[..|w|] == w && (w + rest)[|w|..] == rest;
  }

  lemma FirstWord(s: string) returns (w: string, rest: string)
    requires s != "" && Normal(s)
    ensures s == w + rest && IsWord(w)
    ensures rest != "" ==> rest[0] == ' ' && rest[1..] != "" && Normal(rest[1..])
  {
    var n := WordEnd(s);
    assert NormalAt(s, 0);
    w, rest := s[..n], s[n..];
    if rest != "" {
      assert NormalAt(s, n);
      forall i | 0 <= i < |rest[1..]| ensures NormalAt(rest[1..], i) { assert NormalAt(s, n + 1 + i); }
    }
  }

  lemma JoinOneMore(w: string, words: seq<string>)
    requires words != []
    ensures JoinWords([w] + words) == w + " " + JoinWords(words)
  {
    assert ([w] + words)[1..] == words;
  }

  lemma {:induction false} NormalIsJoined(s: string)
    requires Normal(s)
    ensures JoinWords(Fields(s)) == s && (s != "" ==> Fields(s) != [])
    decreases |s|
  {
    if s != "" {
      var w, rest := FirstWord(s);
      FieldsAfterWord(w, rest);
      if rest != "" {
        NormalIsJoined(rest[1..]);
        JoinOneMore(w, Fields(rest[1..]));
      }
    }
  }

  lemma NormalizedIsNormal(s: string)
    ensures Normal(NormalizeMessage(s))
  {
    var words := Fields(Lower(s));
    forall i | 0 <= i < |words| ensures NoCapitals(words[i]) { FieldsHaveNoCapitals(Lower(s), i); }
    JoinIsNormal(words);
  }

  /** Normalizing leaves a message alone exactly when it is normal already. */
  lemma NormalExactly(s: string)
    ensures NormalizeMessage(s) == s <==> Normal(s)
  {
    NormalizedIsNormal(s);
    if Normal(s) {
      forall i | 0 <= i < |s| ensures Lower(s)[i] == s[i] { assert NormalAt(s, i); }
      assert Lower(s) == s;
      NormalIsJoined(s);
    }
  }

  // ---- When two messages are normalized to the same ----

  /** The same letter, or one in its other case. */
  predicate SameLetter(c: char, d: char) {
    || c == d
    || ('A' <= c <= 'Z' && d as int == c as int + 32)
    || ('A' <= d <= 'Z' && c as int == d as int + 32)
  }

  /** What is not space in s, each with whether a word begins there; starts says so for the first. */
  function Letters(s: string, starts: bool): seq<(char, bool)> {
    if s == "" then []
    else if IsSpace(s[0]) then Letters(s[1..], true)
    else [(s[0], starts)] + Letters(s[1..], false)
  }

  /** The same words up to case: the same letters, with words beginning at the same ones. */
  predicate SameWords(a: string, b: string) {
    var x, y := Letters(a, true), Letters(b, true);
    && |x| == |y|
    && forall i :: 0 <= i < |x| ==> SameLetter(x[i].0, y[i].0) && x[i].1 == y[i].1
  }

  function LowerChar(c: char): char { Lower([c])[0] }

  lemma SameLetterExactly(c: char, d: char)
    ensures SameLetter(c, d) <==> LowerChar(c) == LowerChar(d)
    ensures IsSpace(LowerChar(c)) <==> IsSpace(c)
  {
  }

  function LowerLetters(x: seq<(char, bool)>): seq<(char, bool)> {
    seq(|x|, i requires 0 <= i < |x| => (LowerChar(x[i].0), x[i].1))
  }

  lemma {:induction false} LettersOfLower(s: string, starts: bool)
    ensures Letters(Lower(s), starts) == LowerLetters(Letters(s, starts))
    decreases |s|
  {
    if s != "" {
      assert Lower(s)[0] == LowerChar(s[0]) && Lower(s)[1..] == Lower(s[1..]);
      SameLetterExactly(s[0], s[0]);
      LettersOfLower(s[1..], IsSpace(s[0]));
      hide Lower, LowerChar;
    }
  }

  lemma {:induction false} LettersOfWord(w: string, rest: string, starts: bool)
    requires (forall j :: 0 <= j < |w| ==> !IsSpace(w[j])) && (rest == "" || IsSpace(rest[0]))
    ensures Letters(w + rest, starts) == Letters(w, starts) + Letters(rest, true)
    decreases |w|
  {
    if w == "" {
      assert w + rest == rest;
    } else {
      assert (w + rest)[1..] == w[1..] + rest && (w + rest)[0] == w[0];
      LettersOfWord(w[1..], rest, false);
    }
  }

  lemma {:induction false} LettersOfFields(s: string)
    ensures Letters(JoinWords(Fields(s)), true) == Letters(s, true)
    decreases |s|
  {
    if s == "" {
    } else if IsSpace(s[0]) {
      LettersOfFields(s[1..]);
    } else {
      var w, rest := s[..WordEnd(s)], s[WordEnd(s)..];
      assert s == w + rest;
      LettersOfWord(w, rest, true);
      LettersOfFields(rest);
      LettersOfJoin(w, Fields(rest));
    }
  }

  lemma LettersOfJoin(w: string, words: seq<string>)
    requires IsWord(w)
    ensures Letters(JoinWords([w] + words), true) == Letters(w, true) + Letters(JoinWords(words), true)
  {
    if words == [] {
      assert JoinWords([w]) == w;
    } else {
      JoinOneMore(w, words);
      var rest := " " + JoinWords(words);
      assert rest[1..] == JoinWords(words) && w + " " + JoinWords(words) == w + rest;
      LettersOfWord(w, rest, true);
    }
  }

  /** The end of a normal message. */
  predicate NormalEnd(s: string) { forall i :: 0 <= i < |s| ==> NormalEndAt(s, i) }

  predicate NormalEndAt(s: string, i: nat)
    requires i < |s|
  {
    IsSpace(s[i]) ==> s[i] == ' ' && i + 1 < |s| && !IsSpace(s[i+1])
  }

  lemma NormalEndTail(s: string)
    requires NormalEnd(s) && s != ""
    ensures NormalEnd(s[1..]) && NormalEndAt(s, 0)
  {
    forall i | 0 <= i < |s[1..]| ensures NormalEndAt(s[1..], i) { assert NormalEndAt(s, i + 1); }
  }

  /** Where a word begins, what comes next is no space. */
  predicate Poised(s: string, starts: bool) { NormalEnd(s) && (starts && s != "" ==> !IsSpace(s[0])) }

  lemma FirstLetter(s: string, starts: bool)
    requires NormalEnd(s) && s != ""
    ensures var x := Letters(s, starts);
            && x != [] && x[0].1 == (starts || IsSpace(s[0]))
            && if IsSpace(s[0]) then x == Letters(s[1..], true)
               else x[0].0 == s[0] && x[1..] == Letters(s[1..], false)
  {
    assert NormalEndAt(s, 0);
  }

  lemma {:induction false} NormalFromLetters(a: string, b: string, starts: bool)
    requires Poised(a, starts) && Poised(b, starts) && Letters(a, starts) == Letters(b, starts)
    ensures a == b
    decreases |a|
  {
    if a != "" { NormalEndTail(a); FirstLetter(a, starts); }
    if b != "" { NormalEndTail(b); FirstLetter(b, starts); }
    if a != "" && b != "" {
      NormalFromLetters(a[1..], b[1..], IsSpace(a[0]));
    }
  }

  /** Main result: two messages are the same to the fingerprint exactly when they have the same words,
      but for the case of ASCII letters, however their words are spaced. */
  lemma SameMessageExactly(a: string, b: string)
    ensures NormalizeMessage(a) == NormalizeMessage(b) <==> SameWords(a, b)
  {
    var m, n := NormalizeMessage(a), NormalizeMessage(b);
    var x, y := Letters(a, true), Letters(b, true);
    NormalizedLetters(a);
    NormalizedLetters(b);
    forall i | 0 <= i < |x| && i < |y|
      ensures SameLetter(x[i].0, y[i].0) <==> LowerChar(x[i].0) == LowerChar(y[i].0)
    {
      SameLetterExactly(x[i].0, y[i].0);
    }
    hide Letters, SameLetter, LowerChar, NormalizeMessage, Poised;
    if SameWords(a, b) {
      assert LowerLetters(x) == LowerLetters(y);
      NormalFromLetters(m, n, true);
    } else if m == n {
      assert LowerLetters(x) == LowerLetters(y) && |x| == |LowerLetters(x)| && |y| == |LowerLetters(y)|;
      forall i | 0 <= i < |x| ensures LowerChar(x[i].0) == LowerChar(y[i].0) && x[i].1 == y[i].1 {
        assert LowerLetters(x)[i] == LowerLetters(y)[i];
      }
    }
  }

  lemma NormalizedLetters(s: string)
    ensures Poised(NormalizeMessage(s), true)
    ensures Letters(NormalizeMessage(s), true) == LowerLetters(Letters(s, true))
  {
    var n := NormalizeMessage(s);
    NormalizedIsNormal(s);
    LettersOfFields(Lower(s));
    LettersOfLower(s, true);
    assert n == JoinWords(Fields(Lower(s)));
    hide Letters, NormalizeMessage, LowerLetters;
    forall i | 0 <= i < |n| ensures NormalEndAt(n, i) && (i == 0 ==> !IsSpace(n[i])) { assert NormalAt(n, i); }
  }

  /** Letter for letter the same, up to case. */
  predicate SameUpToCase(a: string, b: string) {
    |a| == |b| && forall i :: 0 <= i < |a| ==> SameLetter(a[i], b[i])
  }

  lemma {:induction false} SameLettersUpToCase(a: string, b: string, starts: bool)
    requires SameUpToCase(a, b)
    ensures var x, y := Letters(a, starts), Letters(b, starts);
            |x| == |y| && forall i :: 0 <= i < |x| ==> SameLetter(x[i].0, y[i].0) && x[i].1 == y[i].1
    decreases |a|
  {
    if a != "" {
      assert SameLetter(a[0], b[0]);
      SameLettersUpToCase(a[1..], b[1..], IsSpace(a[0]));
    }
  }

  /** Its spaces are single blanks between words. */
  predicate SingleBlanks(s: string) { Poised(s, true) }

  /** Messages that differ only in case are normalized alike; and of messages with single blanks between
      their words, only those are. */
  lemma CaseIsAllThatGoes(a: string, b: string)
    ensures SameUpToCase(a, b) ==> NormalizeMessage(a) == NormalizeMessage(b)
    ensures SingleBlanks(a) && SingleBlanks(b) && NormalizeMessage(a) == NormalizeMessage(b) ==> SameUpToCase(a, b)
  {
    SameMessageExactly(a, b);
    hide NormalizeMessage, Letters, SameLetter;
    if SameUpToCase(a, b) { SameLettersUpToCase(a, b, true); }
    if SingleBlanks(a) && SingleBlanks(b) && SameWords(a, b) { SpacedFromLetters(a, b, true); }
  }

  lemma {:induction false} SpacedFromLetters(a: string, b: string, starts: bool)
    requires Poised(a, starts) && Poised(b, starts)
    requires var x, y := Letters(a, starts), Letters(b, starts);
             |x| == |y| && forall i :: 0 <= i < |x| ==> SameLetter(x[i].0, y[i].0) && x[i].1 == y[i].1
    ensures SameUpToCase(a, b)
    decreases |a|
  {
    if a != "" { NormalEndTail(a); FirstLetter(a, starts); }
    if b != "" { NormalEndTail(b); FirstLetter(b, starts); }
    if a != "" && b != "" {
      var x, y := Letters(a, starts), Letters(b, starts);
      assert SameLetter(x[0].0, y[0].0) && x[0].1 == y[0].1;
      assert IsSpace(a[0]) <==> IsSpace(b[0]);
      hide SameLetter, Letters;
      forall i | 0 <= i < |x[1..]| ensures SameLetter(x[1..][i].0, y[1..][i].0) && x[1..][i].1 == y[1..][i].1 {
        assert x[1..][i] == x[i+1] && y[1..][i] == y[i+1];
      }
      SpacedFromLetters(a[1..], b[1..], IsSpace(a[0]));
    }
  }
}
