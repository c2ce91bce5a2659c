/**
 * The browser's `atob`: forgiving-base64 decoding as the WHATWG HTML
 * standard defines it (section 4 of RFC 4648 alphabet, ASCII whitespace
 * ignored, padding optional, leftover bits discarded), with the matching
 * encoder used as its inverse.
 */
module Base64 {
  import opened Wrappers

  type Byte = b: int | 0 <= b < 256

  /** ASCII whitespace as forgiving-base64 strips it: TAB, LF, FF, CR, SPACE. */
  predicate IsAsciiWhitespace(c: char) {
    c == '\t' || c == '\n' || c == '\U{0C}' || c == '\r' || c == ' '
  }

  /** The 64 characters of the base64 alphabet. */
  predicate IsBase64Char(c: char) {
    ('A' <= c <= 'Z') || ('a' <= c <= 'z') || ('0' <= c <= '9') || c == '+' || c == '/'
  }

  predicate AllBase64(t: string) {
    forall i | 0 <= i < |t| :: IsBase64Char(t[i])
  }

  /** The 6-bit value a base64 character stands for. */
  function SextetOf(c: char): (n: nat)
    requires IsBase64Char(c)
    ensures n < 64
  {
    if 'A' <= c <= 'Z' then c as int - 'A' as int
    else if 'a' <= c <= 'z' then c as int - 'a' as int + 26
    else if '0' <= c <= '9' then c as int - '0' as int + 52
    else if c == '+' then 62
    else 63
  }

  /** The base64 character for a 6-bit value: the inverse of SextetOf. */
  function CharOf(n: nat): (c: char)
    requires n < 64
    ensures IsBase64Char(c) && SextetOf(c) == n
  {
    if n < 26 then ('A' as int + n) as char
    else if n < 52 then ('a' as int + n - 26) as char
    else if n < 62 then ('0' as int + n - 52) as char
    else if n == 62 then '+'
    else '/'
  }

  /** Step 1 of forgiving-base64 decode: drop every ASCII whitespace character. */
  function RemoveWhitespace(s: string): (r: string)
    ensures |r| <= |s|
    ensures forall i | 0 <= i < |r| :: !IsAsciiWhitespace(r[i])
    ensures (forall i | 0 <= i < |s| :: !IsAsciiWhitespace(s[i])) ==> r == s
  {
    if s == [] then []
    else (if IsAsciiWhitespace(s[0]) then [] else [s[0]]) + RemoveWhitespace(s[1..])
  }

  /** Removing whitespace works character by character: one character is dropped exactly when it is whitespace. */
  lemma RemoveWhitespaceSingle(c: char)
    ensures RemoveWhitespace([c]) == if IsAsciiWhitespace(c) then [] else [c]
  {
    assert [c][1..] == [];
  }

  /** Removing whitespace distributes over concatenation, so every other character is kept, in order. */
  lemma {:induction false} RemoveWhitespaceAppend(a: string, b: string)
    ensures RemoveWhitespace(a + b) == RemoveWhitespace(a) + RemoveWhitespace(b)
    decreases |a|
  {
    if a == [] {
      assert a + b == b;
    } else {
      assert (a + b)[0] == a[0] && (a + b)[1..] == a[1..] + b;
      RemoveWhitespaceAppend(a[1..], b);
    }
  }

  /** Step 2: when the length is a multiple of 4, drop one or two trailing '='. */
  function StripPadding(s: string): (r: string)
    ensures |s| - 2 <= |r| <= |s| && r == s[..|r|]
    ensures forall i | |r| <= i < |s| :: s[i] == '='
    ensures |s| % 4 != 0 ==> r == s
  {
    if |s| % 4 != 0 then s
    else if |s| >= 2 && s[|s| - 2] == '=' && s[|s| - 1] == '=' then s[..|s| - 2]
    else if |s| >= 1 && s[|s| - 1] == '=' then s[..|s| - 1]
    else s
  }

  /** The bytes of one 24-bit group of four sextets. */
  function DecodeQuad(a: nat, b: nat, c: nat, d: nat): (r: seq<Byte>)
    requires a < 64 && b < 64 && c < 64 && d < 64
    ensures |r| == 3
  {
    [a * 4 + b / 16, (b % 16) * 16 + c / 4, (c % 4) * 64 + d]
  }

  /**
   * Steps 5 to 7: every four characters give three bytes; a final group of
   * three characters gives two bytes and one of two characters gives one,
   * the leftover low bits being discarded.
   */
  function DecodeChars(t: string): (r: seq<Byte>)
    requires AllBase64(t) && |t| % 4 != 1
    ensures |r| == |t| * 3 / 4
    decreases |t|
  {
    if |t| == 0 then []
    else if |t| == 2 then [SextetOf(t[0]) * 4 + SextetOf(t[1]) / 16]
    else if |t| == 3 then
      [SextetOf(t[0]) * 4 + SextetOf(t[1]) / 16, (SextetOf(t[1]) % 16) * 16 + SextetOf(t[2]) / 4]
    else
      DecodeQuad(SextetOf(t[0]), SextetOf(t[1]), SextetOf(t[2]), SextetOf(t[3])) + DecodeChars(t[4..])
  }

  /** The characters the decoder works on: whitespace removed, then padding. */
  function Normalized(s: string): string {
    StripPadding(RemoveWhitespace(s))
  }

  /**
   * Forgiving-base64 decode. It fails exactly when, after whitespace and
   * padding are removed, the length leaves remainder 1 modulo 4 or a
   * character outside the alphabet remains; otherwise it yields
   * three bytes per four characters, rounded down.
   */
  function ForgivingDecode(s: string): (r: Option<seq<Byte>>)
    ensures r.Some? <==> |Normalized(s)| % 4 != 1 && AllBase64(Normalized(s))
    ensures r.Some? ==> |r.value| == |Normalized(s)| * 3 / 4
  {
    var t := Normalized(s);
    if |t| % 4 == 1 || !AllBase64(t) then None else Some(DecodeChars(t))
  }

  /** The binary string whose i-th character has code bytes[i]. */
  function BinaryString(bytes: seq<Byte>): (r: string)
    ensures |r| == |bytes|
    ensures forall i | 0 <= i < |r| :: r[i] as int == bytes[i]
  {
    seq(|bytes|, i requires 0 <= i < |bytes| => bytes[i] as char)
  }

  /** `atob(s)`: the decoded bytes as a binary string, or None where `atob` throws. */
  function Atob(s: string): (r: Option<string>)
    ensures r.Some? <==> ForgivingDecode(s).Some?
    ensures r.Some? ==> r.value == BinaryString(ForgivingDecode(s).value)
  {
    match ForgivingDecode(s)
    case None => None
    case Some(bytes) => Some(BinaryString(bytes))
  }

  // ----- The encoder (`btoa` on a binary string): the decoder's inverse -----

  /** Base64 characters of `b`, without the trailing '=' padding. */
  function EncodeUnpadded(b: seq<Byte>): (r: string)
    decreases |b|
  {
    if |b| == 0 then ""
    else if |b| == 1 then [CharOf(b[0] / 4), CharOf((b[0] % 4) * 16)]
    else if |b| == 2 then [CharOf(b[0] / 4), CharOf((b[0] % 4) * 16 + b[1] / 16), CharOf((b[1] % 16) * 4)]
    else
      [CharOf(b[0] / 4), CharOf((b[0] % 4) * 16 + b[1] / 16), CharOf((b[1] % 16) * 4 + b[2] / 64), CharOf(b[2] % 64)]
      + EncodeUnpadded(b[3..])
  }

  /** Canonical padded base64 text of `b`. */
  function Encode(b: seq<Byte>): string {
    EncodeUnpadded(b) + Padding(|b|)
  }

  lemma {:induction false} EncodeUnpaddedShape(b: seq<Byte>)
    ensures AllBase64(EncodeUnpadded(b))
    ensures |EncodeUnpadded(b)| == (4 * |b| + 2) / 3
    decreases |b|
  {
    if |b| >= 3 {
      EncodeUnpaddedShape(b[3..]);
    }
  }

  /** Three bytes survive a trip through four sextets. */
  lemma QuadRoundTrip(x: Byte, y: Byte, z: Byte)
    ensures DecodeQuad(x / 4, (x % 4) * 16 + y / 16, (y % 16) * 4 + z / 64, z % 64) == [x, y, z]
  {
  }

  /** Decoding a group of four characters followed by more text. */
  lemma DecodeCharsCons(head: string, rest: string)
    requires |head| == 4 && AllBase64(head) && AllBase64(rest) && |rest| % 4 != 1
    ensures AllBase64(head + rest) && |head + rest| % 4 != 1
    ensures DecodeChars(head + rest)
         == DecodeQuad(SextetOf(head[0]), SextetOf(head[1]), SextetOf(head[2]), SextetOf(head[3])) + DecodeChars(rest)
  {
    var t := head + rest;
    assert t[4..] == rest;
    assert t[0] == head[0] && t[1] == head[1] && t[2] == head[2] && t[3] == head[3];
  }

  /** The first four characters of the encoding of three or more bytes. */
  function EncodeTriple(x: Byte, y: Byte, z: Byte): (r: string)
    ensures |r| == 4 && AllBase64(r)
    ensures DecodeQuad(SextetOf(r[0]), SextetOf(r[1]), SextetOf(r[2]), SextetOf(r[3])) == [x, y, z]
  {
    QuadRoundTrip(x, y, z);
    [CharOf(x / 4), CharOf((x % 4) * 16 + y / 16), CharOf((y % 16) * 4 + z / 64), CharOf(z % 64)]
  }

  lemma EncodeUnpaddedCons(b: seq<Byte>)
    requires |b| >= 3
    ensures EncodeUnpadded(b) == EncodeTriple(b[0], b[1], b[2]) + EncodeUnpadded(b[3..])
  {
  }

  lemma {:induction false} DecodeEncodeUnpadded(b: seq<Byte>)
    ensures AllBase64(EncodeUnpadded(b)) && |EncodeUnpadded(b)| % 4 != 1
    ensures DecodeChars(EncodeUnpadded(b)) == b
    decreases |b|
  {
    EncodeUnpaddedShape(b);
    if |b| >= 3 {
      DecodeEncodeUnpadded(b[3..]);
      EncodeUnpaddedCons(b);
      DecodeCharsCons(EncodeTriple(b[0], b[1], b[2]), EncodeUnpadded(b[3..]));
      assert b == [b[0], b[1], b[2]] + b[3..];
    } else if |b| == 2 {
      assert b == [b[0], b[1]];
      DecodeEncodePair(b[0], b[1]);
    } else if |b| == 1 {
      assert b == [b[0]];
      DecodeEncodeSingle(b[0]);
    }
  }

  /** A final group of two bytes: three characters. */
  lemma DecodeEncodePair(x: Byte, y: Byte)
    ensures AllBase64(EncodeUnpadded([x, y])) && |EncodeUnpadded([x, y])| == 3
    ensures DecodeChars(EncodeUnpadded([x, y])) == [x, y]
  {
    var t := EncodeUnpadded([x, y]);
    var a, hi, lo := x % 4, y / 16, y % 16;
    assert t == [CharOf(x / 4), CharOf(a * 16 + hi), CharOf(lo * 4)];
    assert SextetOf(t[0]) == x / 4 && SextetOf(t[1]) == a * 16 + hi && SextetOf(t[2]) == lo * 4;
    assert (a * 16 + hi) / 16 == a && (a * 16 + hi) % 16 == hi && (lo * 4) / 4 == lo;
    assert (x / 4) * 4 + a == x && hi * 16 + lo == y;
  }

  /** A final single byte: two characters. */
  lemma DecodeEncodeSingle(x: Byte)
    ensures AllBase64(EncodeUnpadded([x])) && |EncodeUnpadded([x])| == 2
    ensures DecodeChars(EncodeUnpadded([x])) == [x]
  {
    var t := EncodeUnpadded([x]);
    assert SextetOf(t[0]) == x / 4 && SextetOf(t[1]) == (x % 4) * 16;
  }

  /** The padding `Encode` appends to the unpadded characters. */
  function Padding(n: nat): (r: string)
    ensures |r| <= 2 && forall i | 0 <= i < |r| :: r[i] == '='
  {
    if n % 3 == 1 then "==" else if n % 3 == 2 then "=" else ""
  }

  lemma DivByThree(m: nat, q: nat)
    requires 3 * q <= m < 3 * q + 3
    ensures m / 3 == q
  {
  }

  /** The unpadded length plus the padding is a multiple of four. */
  lemma PaddedCount(n: nat, x: nat)
    requires x == (4 * n + 2) / 3
    ensures (x + |Padding(n)|) % 4 == 0
    ensures n % 3 == 0 <==> |Padding(n)| == 0
    ensures n % 3 != 0 ==> x > 0
  {
    var k, r := n / 3, n % 3;
    assert n == 3 * k + r;
    assert 4 * n + 2 == 12 * k + 4 * r + 2;
    if r == 0 {
      DivByThree(4 * n + 2, 4 * k);
      assert x + |Padding(n)| == 4 * k;
    } else if r == 1 {
      DivByThree(4 * n + 2, 4 * k + 2);
      assert x + |Padding(n)| == 4 * k + 4;
    } else {
      DivByThree(4 * n + 2, 4 * k + 3);
      assert x + |Padding(n)| == 4 * k + 4;
    }
  }

  /** Base64 characters padded to a multiple of four hold no whitespace, and normalising strips the padding. */
  lemma NormalizedPadded(u: string, p: string)
    requires AllBase64(u) && (|u| + |p|) % 4 == 0
    requires |p| <= 2 && forall i | 0 <= i < |p| :: p[i] == '='
    requires |p| > 0 ==> |u| > 0
    ensures Normalized(u + p) == u
  {
    var e := u + p;
    forall i | 0 <= i < |e| ensures !IsAsciiWhitespace(e[i]) {
      if i < |u| { assert IsBase64Char(u[i]); } else { assert e[i] == p[i - |u|]; }
    }
    assert RemoveWhitespace(e) == e;
    if |p| == 0 {
      assert e == u;
      assert |u| > 0 ==> IsBase64Char(u[|u| - 1]);
    } else {
      assert IsBase64Char(u[|u| - 1]) && e[|u| - 1] == u[|u| - 1];
      assert e[..|u|] == u;
    }
  }

  /** Removing whitespace and padding from the canonical encoding leaves the unpadded characters. */
  lemma NormalizedEncode(b: seq<Byte>)
    ensures Normalized(Encode(b)) == EncodeUnpadded(b)
  {
    EncodeUnpaddedShape(b);
    NormalizedUnpadded(EncodeUnpadded(b), |b|);
  }

  lemma NormalizedUnpadded(u: string, n: nat)
    requires AllBase64(u) && |u| == (4 * n + 2) / 3
    ensures Normalized(u + Padding(n)) == u
  {
    PaddedCount(n, |u|);
    NormalizedPadded(u, Padding(n));
  }

  /** Decoding the canonical encoding gives back the bytes. */
  lemma DecodeEncode(b: seq<Byte>)
    ensures ForgivingDecode(Encode(b)) == Some(b)
  {
    NormalizedEncode(b);
    DecodeEncodeUnpadded(b);
  }

  /** Whitespace anywhere in the input changes nothing: `atob` gives the same result or throws alike. */
  lemma AtobIgnoresWhitespace(a: string, w: char, b: string)
    requires IsAsciiWhitespace(w)
    ensures Atob(a + [w] + b) == Atob(a + b)
  {
    RemoveWhitespaceAppend(a + [w], b);
    RemoveWhitespaceAppend(a, [w]);
    RemoveWhitespaceAppend(a, b);
    RemoveWhitespaceSingle(w);
    assert RemoveWhitespace(a) + [] == RemoveWhitespace(a);
    assert Normalized(a + [w] + b) == Normalized(a + b);
  }

  /** `atob(btoa(s))` gives back any binary string. */
  lemma AtobOfEncode(b: seq<Byte>)
    ensures Atob(Encode(b)) == Some(BinaryString(b))
  {
    DecodeEncode(b);
  }
}
