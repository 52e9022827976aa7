/** The URL-safe base 64 of section 5 of RFC 4648, without padding (section 3.2). */
module Base64 {
  type byte = b: int | 0 <= b < 256

  type sextet = n: int | 0 <= n < 64

  predicate InAlphabet(c: char) {
    'A' <= c <= 'Z' || 'a' <= c <= 'z' || '0' <= c <= '9' || c == '-' || c == '_'
  }

  function Letter(n: sextet): (c: char)
    ensures InAlphabet(c)
  {
    if n < 26 then 'A' + n as char
    else if n < 52 then 'a' + (n - 26) as char
    else if n < 62 then '0' + (n - 52) as char
    else if n == 62 then '-' else '_'
  }

  function Number(c: char): (n: sextet)
    requires InAlphabet(c)
    ensures Letter(n) == c
  {
    if 'A' <= c <= 'Z' then (c - 'A') as int
    else if 'a' <= c <= 'z' then (c - 'a') as int + 26
    else if '0' <= c <= '9' then (c - '0') as int + 52
    else if c == '-' then 62 else 63
  }

  function Letter0(x: byte): char { Letter(x / 4) }
  function Letter1(x: byte, y: byte): char { Letter(x % 4 * 16 + y / 16) }
  function Letter2(y: byte, z: byte): char { Letter(y % 16 * 4 + z / 64) }
  function Letter3(z: byte): char { Letter(z % 64) }

  predicate Valid(s: string) { forall i :: 0 <= i < |s| ==> InAlphabet(s[i]) }

  /** Three bytes to four letters; one or two at the end to two or three. */
  function Encode(b: seq<byte>): (s: string)
    ensures Valid(s)
  {
    if b == [] then ""
    else if |b| == 1 then [Letter0(b[0]), Letter1(b[0], 0)]
    else if |b| == 2 then [Letter0(b[0]), Letter1(b[0], b[1]), Letter2(b[1], 0)]
    else [Letter0(b[0]), Letter1(b[0], b[1]), Letter2(b[1], b[2]), Letter3(b[2])] + Encode(b[3..])
  }

  function Byte0(c: char, d: char): byte
    requires InAlphabet(c) && InAlphabet(d)
  {
    Number(c) * 4 + Number(d) / 16
  }

  function Byte1(c: char, d: char): byte
    requires InAlphabet(c) && InAlphabet(d)
  {
    Number(c) % 16 * 16 + Number(d) / 4
  }

  function Byte2(c: char, d: char): byte
    requires InAlphabet(c) && InAlphabet(d)
  {
    Number(c) % 4 * 64 + Number(d)
  }

  function Decode(s: string): seq<byte>
    requires Valid(s)
  {
    if |s| < 2 then []
    else if |s| == 2 then [Byte0(s[0], s[1])]
    else if |s| == 3 then [Byte0(s[0], s[1]), Byte1(s[1], s[2])]
    else [Byte0(s[0], s[1]), Byte1(s[1], s[2]), Byte2(s[2], s[3])] + Decode(s[4..])
  }

  lemma NumberOfLetter(n: sextet)
    ensures Number(Letter(n)) == n
  {
  }

  /** The bits of a byte that two letters share come together again. */
  lemma BytesOfLetters(x: byte, y: byte, z: byte)
    ensures Byte0(Letter0(x), Letter1(x, y)) == x
    ensures Byte1(Letter1(x, y), Letter2(y, z)) == y
    ensures Byte2(Letter2(y, z), Letter3(z)) == z
  {
    NumberOfLetter(x / 4);
    NumberOfLetter(x % 4 * 16 + y / 16);
    NumberOfLetter(y % 16 * 4 + z / 64);
    NumberOfLetter(z % 64);
    hide Letter, Number;
  }

  /** Decoding gives the bytes back. */
  lemma {:induction false} DecodeInvertsEncode(b: seq<byte>)
    ensures Decode(Encode(b)) == b
    decreases |b|
  {
    hide Letter0, Letter1, Letter2, Letter3, Byte0, Byte1, Byte2;
    if |b| > 0 {
      BytesOfLetters(b[0], if |b| > 1 then b[1] else 0, if |b| > 2 then b[2] else 0);
      if |b| > 2 {
        DecodeInvertsEncode(b[3..]);
        assert Encode(b)[4..] == Encode(b[3..]);
      }
    }
  }

  /** Four letters are, six bits each, the 24 bits of three bytes. */
  lemma BitsAreKept(x: byte, y: byte, z: byte)
    ensures ((Number(Letter0(x)) * 64 + Number(Letter1(x, y))) * 64 + Number(Letter2(y, z))) * 64 + Number(Letter3(z))
         == (x * 256 + y) * 256 + z
  {
    NumberOfLetter(x / 4);
    NumberOfLetter(x % 4 * 16 + y / 16);
    NumberOfLetter(y % 16 * 4 + z / 64);
    NumberOfLetter(z % 64);
    hide Letter, Number;
  }

  lemma EncodeInjective(a: seq<byte>, b: seq<byte>)
    requires Encode(a) == Encode(b)
    ensures a == b
  {
    DecodeInvertsEncode(a);
    DecodeInvertsEncode(b);
  }

  lemma EncodeLength(b: seq<byte>)
    ensures |Encode(b)| == |b| / 3 * 4 + (if |b| % 3 == 0 then 0 else |b| % 3 + 1)
    decreases |b|
  {
    if |b| > 2 {
      EncodeLength(b[3..]);
    }
  }

  lemma LettersOfThree(b: seq<byte>, c: seq<byte>)
    requires |b| >= 3 && |c| >= 3
    ensures Encode(b)[..4] == Encode(c)[..4] <==> b[..3] == c[..3]
    ensures Encode(b)[4..] == Encode(b[3..])
  {
    BytesOfLetters(b[0], b[1], b[2]);
    BytesOfLetters(c[0], c[1], c[2]);
    var s, t := Encode(b)[..4], Encode(c)[..4];
    assert s == [Letter0(b[0]), Letter1(b[0], b[1]), Letter2(b[1], b[2]), Letter3(b[2])];
    assert t == [Letter0(c[0]), Letter1(c[0], c[1]), Letter2(c[1], c[2]), Letter3(c[2])];
    assert b[..3] == [b[0], b[1], b[2]] && c[..3] == [c[0], c[1], c[2]];
    hide Encode, Letter0, Letter1, Letter2, Letter3, Byte0, Byte1, Byte2;
    if s == t {
      assert s[0] == t[0] && s[1] == t[1] && s[2] == t[2] && s[3] == t[3];
    }
  }

  lemma ThirdLetters(y: byte)
    ensures Letter2(y, 62) == Letter2(y, 0) != '-' && Letter3(62) == '-'
  {
    NumberOfLetter(y % 16 * 4);
    NumberOfLetter(62);
    assert Letter(62) == '-';
  }

  lemma OneGroup(b: seq<byte>, c: seq<byte>)
    requires |b| == 2 && |c| == 3
    ensures Encode(b) == [Letter0(b[0]), Letter1(b[0], b[1]), Letter2(b[1], 0)]
    ensures Encode(c) == [Letter0(c[0]), Letter1(c[0], c[1]), Letter2(c[1], c[2]), Letter3(c[2])]
  {
    assert Encode(c[3..]) == "";
  }

  lemma OneGroupMore(c: seq<byte>, b: seq<byte>)
    requires |b| == 2 && |c| == 3
    ensures Encode(c) == Encode(b) + "-" <==> c == b + [62]
  {
    hide Encode, Letter0, Letter1, Letter2, Letter3, Byte0, Byte1, Byte2;
    BytesOfLetters(b[0], b[1], 62);
    BytesOfLetters(c[0], c[1], c[2]);
    ThirdLetters(b[1]);
    OneGroup(b, c);
    var s, t := Encode(c), Encode(b) + "-";
    if s == t {
      assert s[0] == t[0] && s[1] == t[1] && s[2] == t[2] && s[3] == t[3];
    }
  }

  lemma LongerInParts<T>(s: seq<T>, t: seq<T>, u: seq<T>, n: nat)
    requires n <= |s| && n <= |t|
    ensures s == t + u <==> s[..n] == t[..n] && s[n..] == t[n..] + u
  {
    assert s == s[..n] + s[n..] && t + u == t[..n] + (t[n..] + u);
    assert (t + u)[..n] == t[..n] && (t + u)[n..] == t[n..] + u;
  }

  lemma MoreGroups(c: seq<byte>, b: seq<byte>)
    requires |b| > 2 && |c| > 2
    ensures Encode(c) == Encode(b) + "-" <==> c[..3] == b[..3] && Encode(c[3..]) == Encode(b[3..]) + "-"
  {
    LettersOfThree(b, c);
    LettersOfThree(c, b);
    LongerInParts(Encode(c), Encode(b), "-", 4);
    hide Encode;
  }

  lemma ThreeLess(n: int)
    ensures (n - 3) % 3 == n % 3
  {
  }

  /** One more dash at the end is one more byte, 62, and only where a last group has two bytes. */
  lemma {:induction false} DashAtTheEnd(c: seq<byte>, b: seq<byte>)
    ensures Encode(c) == Encode(b) + "-" <==> |b| % 3 == 2 && c == b + [62]
    decreases |b|
  {
    if |b| > 2 && |c| > 2 {
      DashAtTheEnd(c[3..], b[3..]);
      MoreGroups(c, b);
      LongerInParts(c, b, [62], 3);
      ThreeLess(|b|);
      hide Encode;
    } else {
      FewGroups(c, b);
    }
  }

  lemma FewGroups(c: seq<byte>, b: seq<byte>)
    requires |b| <= 2 || |c| <= 2
    ensures Encode(c) == Encode(b) + "-" <==> |b| % 3 == 2 && c == b + [62]
  {
    EncodeLength(b);
    EncodeLength(c);
    if |b| == 1 && |c| == 2 {
      ThirdLetters(c[1]);
      assert Encode(c)[2] == Letter2(c[1], 0) && (Encode(b) + "-")[2] == '-';
    } else if |b| == 2 && |c| == 3 {
      OneGroupMore(c, b);
    } else {
      hide Encode;
    }
  }
}
