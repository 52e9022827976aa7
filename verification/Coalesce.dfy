/** Task names under which rapid pushes to one pull request come together. */
module Coalesce {
  import opened Wrappers
  import opened Text
  import opened Base64

  datatype Kind = ReviewKind | OtherKind

  datatype PullRequestEvent = PullRequestEvent(action: string, repoFullName: seq<byte>, number: int)

  /** The event is None when the payload does not parse; time is in nanoseconds since January 1, year 1. */
  datatype Envelope = Envelope(kind: Kind, event: Option<PullRequestEvent>, receivedAt: nat)

  datatype Options = Options(name: string, delay: int)

  const UNIX_EPOCH := 62_135_596_800 * 1_000_000_000

  /** Time.Truncate: down to a multiple of d since the year 1. */
  function Truncate(t: nat, d: int): (r: nat)
    requires d > 0
  {
    t - t % d
  }

  /** int64 arithmetic */
  function Wrap(n: int): int { (n - MIN_INT) % (MAX_INT - MIN_INT + 1) + MIN_INT }

  /** Time.UnixNano */
  function UnixNano(t: nat): int { Wrap(t - UNIX_EPOCH) }

  function CoalesceKey(ev: PullRequestEvent, bucket: nat): string {
    "review-" + Encode(ev.repoFullName) + "-" + Itoa(ev.number) + "-" + Itoa(UnixNano(bucket))
  }

  function EnqueueOptions(e: Envelope, debounce: int): Option<Options> {
    if e.kind != ReviewKind || debounce <= 0 then None
    else
      match e.event
      case None => None
      case Some(ev) =>
        if ev.action != "synchronize" then None
        else Some(Options(CoalesceKey(ev, Truncate(e.receivedAt, debounce)), debounce))
  }

  // ---- Names are names of one pull request and window ----

  /** Cutting at the last dash before the digits: digits after a dash after a digit. */
  lemma LastNumber(a: string, m: string, b: string, n: string)
    requires a + "-" + m == b + "-" + n
    requires a != "" && IsDigit(a[|a|-1]) && b != "" && IsDigit(b[|b|-1])
    requires m != "" && n != "" && (forall i :: 1 <= i < |m| ==> IsDigit(m[i]))
        && (forall i :: 1 <= i < |n| ==> IsDigit(n[i]))
    requires (m[0] == '-' || IsDigit(m[0])) && (n[0] == '-' || IsDigit(n[0]))
    ensures a == b && m == n
  {
    var s, t := a + "-" + m, b + "-" + n;
    assert s[|a|] == '-' && t[|b|] == '-' && s[|a| - 1] == a[|a| - 1] && t[|b| - 1] == b[|b| - 1];
    assert (forall i :: 0 <= i < |m| ==> s[|a| + 1 + i] == m[i]) && forall i :: 0 <= i < |n| ==> t[|b| + 1 + i] == n[i];
    assert |a| == |b|;
    assert a == s[..|a|] && b == t[..|b|] && m == s[|a|+1..] && n == t[|b|+1..];
  }

  /** The same when what comes before may be anything and the number has no sign. */
  lemma LastDigits(a: string, m: string, b: string, n: string)
    requires a + "-" + m == b + "-" + n && AllDigits(m) && AllDigits(n)
    ensures a == b && m == n
  {
    var s, t := a + "-" + m, b + "-" + n;
    assert s[|a|] == '-' && t[|b|] == '-';
    assert (forall i :: 0 <= i < |m| ==> s[|a| + 1 + i] == m[i]) && forall i :: 0 <= i < |n| ==> t[|b| + 1 + i] == n[i];
    assert |a| == |b|;
    assert a == s[..|a|] && b == t[..|b|] && m == s[|a|+1..] && n == t[|b|+1..];
  }

  lemma ItoaShape(n: int)
    ensures Itoa(n) != "" && (Itoa(n)[0] == '-' || IsDigit(Itoa(n)[0])) && IsDigit(Itoa(n)[|Itoa(n)|-1])
    ensures forall i :: 1 <= i < |Itoa(n)| ==> IsDigit(Itoa(n)[i])
  {
  }

  lemma EndsInDigit(head: string, n: int)
    ensures var s := head + Itoa(n); s != "" && IsDigit(s[|s|-1])
  {
    ItoaShape(n);
    assert (head + Itoa(n))[|head + Itoa(n)| - 1] == Itoa(n)[|Itoa(n)| - 1];
  }

  /** The last number of a name, and what is before it, can be read off it. */
  lemma PartsOfName(a: string, m: int, x: int, b: string, n: int, y: int)
    requires a + "-" + Itoa(m) + "-" + Itoa(x) == b + "-" + Itoa(n) + "-" + Itoa(y)
    ensures a + "-" + Itoa(m) == b + "-" + Itoa(n) && x == y
  {
    var p, q := a + "-" + Itoa(m), b + "-" + Itoa(n);
    EndsInDigit(a + "-", m);
    EndsInDigit(b + "-", n);
    ItoaShape(x);
    ItoaShape(y);
    hide Itoa;
    LastNumber(p, Itoa(x), q, Itoa(y));
    ItoaInjective(x, y);
  }

  function Magnitude(n: int): nat { if n < 0 then -n else n }

  /** A sign is one more dash. */
  function Signed(a: string, n: int): string { if n < 0 then a + "-" else a }

  /** What is before a number without a sign can be read off it too; with one, the sign can be taken
      for the end of what is before. */
  lemma SameNumber(a: string, m: int, b: string, n: int)
    ensures a + "-" + Itoa(m) == b + "-" + Itoa(n) <==> Signed(a, m) == Signed(b, n) && Magnitude(m) == Magnitude(n)
  {
    SignApart(a, m);
    SignApart(b, n);
    hide Itoa;
    if a + "-" + Itoa(m) == b + "-" + Itoa(n) {
      LastDigits(Signed(a, m), Digits(Magnitude(m)), Signed(b, n), Digits(Magnitude(n)));
      DigitsInjective(Magnitude(m), Magnitude(n));
    }
  }

  lemma SignApart(a: string, n: int)
    ensures a + "-" + Itoa(n) == Signed(a, n) + "-" + Digits(Magnitude(n))
  {
    if n < 0 { assert a + "-" + ("-" + Digits(-n)) == a + "-" + "-" + Digits(-n); }
  }

  const TWO_TO_THE_64 := 0x1_0000_0000_0000_0000

  lemma SameRemainder(m: int, n: int)
    ensures m % 0x1_0000_0000_0000_0000 == n % 0x1_0000_0000_0000_0000 <==> (m - n) % 0x1_0000_0000_0000_0000 == 0
  {
  }

  /** Nanoseconds are the same modulo 2 to the 64: 584 years. */
  lemma SameNanos(t: nat, u: nat)
    ensures UnixNano(t) == UnixNano(u) <==> (t - u) % TWO_TO_THE_64 == 0
  {
    SameRemainder(t - UNIX_EPOCH - MIN_INT, u - UNIX_EPOCH - MIN_INT);
  }

  lemma DropHead(head: string, s: string)
    ensures (head + s)[|head|..] == s
  {
  }

  /** f's number is e's without the sign, and f's repository is e's with one more byte: the one that
      reads as a dash, after a last group of two. */
  predicate Opposite(e: PullRequestEvent, f: PullRequestEvent) {
    && e.number < 0 && f.number == -e.number
    && |e.repoFullName| % 3 == 2 && f.repoFullName == e.repoFullName + [62]
  }

  /** The name cannot tell these two apart. */
  predicate Alike(e: PullRequestEvent, f: PullRequestEvent) {
    (e.repoFullName == f.repoFullName && e.number == f.number) || Opposite(e, f) || Opposite(f, e)
  }

  lemma SameHead(e: PullRequestEvent, f: PullRequestEvent)
    ensures var a, b := "review-" + Encode(e.repoFullName), "review-" + Encode(f.repoFullName);
            a + "-" + Itoa(e.number) == b + "-" + Itoa(f.number) <==> Alike(e, f)
  {
    var h, a, b := "review-", Encode(e.repoFullName), Encode(f.repoFullName);
    SameNumber(h + a, e.number, h + b, f.number);
    DashAtTheEnd(e.repoFullName, f.repoFullName);
    DashAtTheEnd(f.repoFullName, e.repoFullName);
    if a == b { EncodeInjective(e.repoFullName, f.repoFullName); }
    hide Encode, Itoa;
    DropHead(h, a);
    DropHead(h, b);
    DropHead(h, a + "-");
    DropHead(h, b + "-");
    DropLast(h + a, h + b);
    assert h + a + "-" == h + (a + "-") && h + b + "-" == h + (b + "-");
  }

  lemma DropLast(s: string, t: string)
    ensures s + "-" == t + "-" <==> s == t
  {
    assert (s + "-")[..|s|] == s && (t + "-")[..|t|] == t;
  }

  lemma SameKey(e: PullRequestEvent, f: PullRequestEvent, t: nat, u: nat)
    ensures CoalesceKey(e, t) == CoalesceKey(f, u) <==> Alike(e, f) && (t - u) % TWO_TO_THE_64 == 0
  {
    SameNanos(t, u);
    SameHead(e, f);
    hide Encode, Itoa, UnixNano, Alike;
    if CoalesceKey(e, t) == CoalesceKey(f, u) {
      PartsOfName("review-" + Encode(e.repoFullName), e.number, UnixNano(t), "review-" + Encode(f.repoFullName),
          f.number, UnixNano(u));
    }
  }

  lemma SameWindow(t: nat, u: nat, d: int)
    requires d > 0
    ensures Truncate(t, d) == Truncate(u, d) <==> t / d == u / d
  {
    assert Truncate(t, d) == t / d * d && Truncate(u, d) == u / d * d;
    if t / d < u / d {
      Times(t / d, u / d, d);
    } else if u / d < t / d {
      Times(u / d, t / d, d);
    }
  }

  lemma Times(a: int, b: int, d: int)
    requires a < b && d > 0
    ensures a * d < b * d
  {
  }

  /** Main result: two pushes get the same task name exactly when their windows begin at the same time,
      or a multiple of 584 years apart, and they are to the same pull request of the same repository, or
      to two whose numbers are opposite and of which the one with the positive number has the other's
      repository name with one byte more. */
  lemma SameNameSamePush(e: Envelope, f: Envelope, debounce: int)
    requires EnqueueOptions(e, debounce).Some? && EnqueueOptions(f, debounce).Some?
    ensures EnqueueOptions(e, debounce).value.name == EnqueueOptions(f, debounce).value.name
       <==> && Alike(e.event.value, f.event.value)
            && (Truncate(e.receivedAt, debounce) - Truncate(f.receivedAt, debounce)) % TWO_TO_THE_64 == 0
  {
    hide CoalesceKey, Alike, Truncate;
    SameKey(e.event.value, f.event.value, Truncate(e.receivedAt, debounce), Truncate(f.receivedAt, debounce));
  }

  /** Windows that begin less than 584 years apart are told apart: the same name is the same window. */
  lemma SameWindowInTime(e: Envelope, f: Envelope, debounce: int)
    requires debounce > 0
    requires -TWO_TO_THE_64 < Truncate(e.receivedAt, debounce) - Truncate(f.receivedAt, debounce) < TWO_TO_THE_64
    ensures (Truncate(e.receivedAt, debounce) - Truncate(f.receivedAt, debounce)) % TWO_TO_THE_64 == 0
       <==> e.receivedAt / debounce == f.receivedAt / debounce
  {
    SameWindow(e.receivedAt, f.receivedAt, debounce);
    hide Truncate;
  }

  /** Only pushes to a pull request are held back under a name, and only where a window is set. */
  lemma OnlyPushesAreNamed(e: Envelope, debounce: int)
    ensures EnqueueOptions(e, debounce).Some? <==>
        e.kind.ReviewKind? && debounce > 0 && e.event.Some? && e.event.value.action == "synchronize"
  {
  }

  lemma ValidSum(a: string, b: string)
    requires Valid(a) && Valid(b)
    ensures Valid(a + b)
  {
  }

  lemma ValidNumber(n: int)
    ensures Valid(Itoa(n))
  {
    ItoaShape(n);
  }

  /** A name has only characters that the queue allows, and a named task waits out its window. */
  lemma NamesAreValid(e: Envelope, debounce: int)
    requires EnqueueOptions(e, debounce).Some?
    ensures Valid(EnqueueOptions(e, debounce).value.name)
    ensures EnqueueOptions(e, debounce).value.delay == debounce > 0
  {
    var ev, bucket := e.event.value, Truncate(e.receivedAt, debounce);
    assert Valid("review-") && Valid("-") && Valid(Encode(ev.repoFullName));
    ValidNumber(ev.number);
    ValidNumber(UnixNano(bucket));
    hide Itoa, Encode, UnixNano, Valid, Truncate;
    ValidSum("review-", Encode(ev.repoFullName));
    ValidSum("review-" + Encode(ev.repoFullName), "-");
    ValidSum("review-" + Encode(ev.repoFullName) + "-", Itoa(ev.number));
    ValidSum("review-" + Encode(ev.repoFullName) + "-" + Itoa(ev.number), "-");
    ValidSum("review-" + Encode(ev.repoFullName) + "-" + Itoa(ev.number) + "-", Itoa(UnixNano(bucket)));
  }
}
