/** Decimal numbers and searching in strings, as Go's strconv and strings packages do them. */
module Text {
  import opened Wrappers

  predicate IsDigit(c: char) { '0' <= c <= '9' }

  predicate AllDigits(s: string) { forall i :: 0 <= i < |s| ==> IsDigit(s[i]) }

  function Value(s: string): nat
    requires AllDigits(s)
  {
    if s == [] then 0 else 10 * Value(s[..|s|-1]) + ((s[|s|-1] - '0') as nat)
  }

  function DigitChar(d: nat): (c: char)
    requires d < 10
    ensures IsDigit(c) && (c - '0') as nat == d
  {
    '0' + (d as char)
  }

  function Digits(n: nat): (s: string)
    ensures s != [] && AllDigits(s)
    ensures Value(s) == n
    ensures s[0] == '0' ==> n == 0
  {
    if n < 10 then
      var s := [DigitChar(n)];
      assert s[..|s|-1] == [];
      s
    else
      var s := Digits(n / 10) + [DigitChar(n % 10)];
      assert s[..|s|-1] == Digits(n / 10);
      s
  }

  lemma DigitsInjective(m: nat, n: nat)
    requires Digits(m) == Digits(n)
    ensures m == n
  {
    assert Value(Digits(m)) == m && Value(Digits(n)) == n;
  }

  /** strconv.Itoa */
  function Itoa(n: int): string {
    if n < 0 then "-" + Digits(-n) else Digits(n)
  }

  const MAX_INT := 0x7fff_ffff_ffff_ffff
  const MIN_INT := -0x8000_0000_0000_0000

  predicate IsInt64(n: int) { MIN_INT <= n <= MAX_INT }

  /** strconv.Atoi: an optional sign, at least one digit, and a value that fits in 64 bits. */
  function Atoi(s: string): Option<int> {
    var signed := s != [] && (s[0] == '-' || s[0] == '+');
    var body := if signed then s[1..] else s;
    if body == [] || !AllDigits(body) then None
    else
      var n := if signed && s[0] == '-' then -(Value(body) as int) else Value(body);
      if IsInt64(n) then Some(n) else None
  }

  /** The value Atoi returns beside its error: 0 for bad syntax, the nearest bound when out of range. */
  function AtoiValue(s: string): int {
    var signed := s != [] && (s[0] == '-' || s[0] == '+');
    var body := if signed then s[1..] else s;
    if body == [] || !AllDigits(body) then 0
    else
      var n := if signed && s[0] == '-' then -(Value(body) as int) else Value(body);
      if n < MIN_INT then MIN_INT else if n > MAX_INT then MAX_INT else n
  }

  lemma AtoiItoa(n: int)
    ensures Atoi(Itoa(n)) == if IsInt64(n) then Some(n) else None
    ensures IsInt64(n) ==> AtoiValue(Itoa(n)) == n
  {
    if n < 0 {
      assert Itoa(n)[1..] == Digits(-n);
    }
  }

  lemma ItoaInjective(m: int, n: int)
    requires Itoa(m) == Itoa(n)
    ensures m == n
  {
    assert m < 0 <==> Itoa(m)[0] == '-';
    assert n < 0 <==> Itoa(n)[0] == '-';
    if m < 0 {
      assert Itoa(m)[1..] == Digits(-m) && Itoa(n)[1..] == Digits(-n);
      DigitsInjective(-m, -n);
    } else {
      DigitsInjective(m, n);
    }
  }

  /** Position of the first c, or |s| when there is none. */
  function IndexOf(s: string, c: char): (i: nat)
    ensures i <= |s|
    ensures forall j :: 0 <= j < i ==> s[j] != c
    ensures i < |s| ==> s[i] == c
  {
    if s == [] || s[0] == c then 0 else 1 + IndexOf(s[1..], c)
  }

  lemma IndexOfPrefix(a: string, c: char, b: string)
    requires c !in a
    ensures IndexOf(a + [c] + b, c) == |a|
  {
    var s := a + [c] + b;
    assert s[|a|] == c;
    assert forall j :: 0 <= j < |a| ==> s[j] == a[j];
  }

  predicate HasPrefix(s: string, p: string) { |p| <= |s| && s[..|p|] == p }

  /** unicode.IsSpace */
  predicate IsSpace(c: char) {
    || '\t' <= c <= '\r' || c == ' ' || c == '\U{85}' || c == '\U{A0}' || c == '\U{1680}'
    || '\U{2000}' <= c <= '\U{200A}' || c == '\U{2028}' || c == '\U{2029}' || c == '\U{202F}'
    || c == '\U{205F}' || c == '\U{3000}'
  }

  /** strings.TrimSpace */
  function Trim(s: string): string {
    if s != "" && IsSpace(s[0]) then Trim(s[1..])
    else if s != "" && IsSpace(s[|s|-1]) then Trim(s[..|s|-1])
    else s
  }

  predicate AllSpace(s: string) { forall i :: 0 <= i < |s| ==> IsSpace(s[i]) }

  /** Trimming takes spaces off both ends, and all of them. */
  lemma {:induction false} TrimInWords(s: string) returns (a: string, b: string)
    ensures s == a + Trim(s) + b && AllSpace(a) && AllSpace(b)
    ensures Trim(s) != "" ==> !IsSpace(Trim(s)[0]) && !IsSpace(Trim(s)[|Trim(s)|-1])
    decreases |s|
  {
    hide IsSpace;
    a, b := "", "";
    if s != "" && IsSpace(s[0]) {
      a, b := TrimInWords(s[1..]);
      a := [s[0]] + a;
    } else if s != "" && IsSpace(s[|s|-1]) {
      a, b := TrimInWords(s[..|s|-1]);
      b := b + [s[|s|-1]];
    }
  }

  /** An optional sign, and digits with this value. */
  predicate Spells(s: string, sign: string, digits: string, n: int) {
    && (sign == "" || sign == "-" || sign == "+")
    && digits != "" && AllDigits(digits) && s == sign + digits
    && n == if sign == "-" then -(Value(digits) as int) else Value(digits)
  }

  /** What Atoi reads. */
  lemma AtoiExactly(s: string, n: int)
    ensures Atoi(s) == Some(n) <==> IsInt64(n) && exists sign, digits :: Spells(s, sign, digits, n)
  {
    if Atoi(s) == Some(n) {
      var signed := s[0] == '-' || s[0] == '+';
      assert Spells(s, if signed then [s[0]] else "", if signed then s[1..] else s, n);
    }
    if sign, digits :| Spells(s, sign, digits, n) {
      assert s[|sign|..] == digits && s[|sign|] == digits[0];
      assert sign == "" ==> IsDigit(s[0]);
    }
  }
}
