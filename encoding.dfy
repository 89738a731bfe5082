/** Byte strings and the two text encodings the core applies to them:
    PHP's `bin2hex` (lowercase hexadecimal) with its inverse, and base64
    with the alphabet of section 4 of RFC 4648. Decoding follows PHP's
    `base64_decode` in its default, non-strict mode: characters outside the
    alphabet (padding included) are skipped and a trailing incomplete byte
    is dropped. */
module Encoding {
  import opened Php

  /** A PHP string seen as bytes: every character is below 256. */
  type Bytes = s: string | forall i | 0 <= i < |s| :: s[i] as int < 256 witness ""

  /** Concatenation of byte strings, `$a . $b`. */
  function Append(a: Bytes, b: Bytes): (r: Bytes)
    ensures r == a + b
  {
    assert forall i :: 0 <= i < |a + b| ==> (a + b)[i] == (if i < |a| then a[i] else b[i - |a|]);
    a + b
  }

  function ByteAt(b: Bytes, i: nat): (n: int)
    requires i < |b|
    ensures 0 <= n < 256
  {
    b[i] as int
  }

  function Byte(n: int): (c: char)
    requires 0 <= n < 256
    ensures c as int == n
  {
    n as char
  }

  // ---------------------------------------------------------------------
  // Hexadecimal

  const HexDigits := "0123456789abcdef"

  predicate IsHexChar(c: char) {
    ('0' <= c <= '9') || ('a' <= c <= 'f')
  }

  predicate IsLowerHex(s: string) {
    forall i :: 0 <= i < |s| ==> IsHexChar(s[i])
  }

  function HexDigit(n: int): (c: char)
    requires 0 <= n < 16
    ensures IsHexChar(c)
  {
    HexDigits[n]
  }

  /** The value of a lowercase hexadecimal digit, or -1. */
  function HexValue(c: char): (n: int)
    ensures -1 <= n < 16
    ensures n >= 0 <==> IsHexChar(c)
  {
    if '0' <= c <= '9' then c as int - '0' as int
    else if 'a' <= c <= 'f' then c as int - 'a' as int + 10
    else -1
  }

  lemma HexValueOfDigit(n: int)
    requires 0 <= n < 16
    ensures HexValue(HexDigit(n)) == n
  {
  }

  /** PHP's `bin2hex`. */
  function Hex(b: Bytes): (h: string)
    ensures |h| == 2 * |b|
    ensures IsLowerHex(h)
  {
    if b == [] then ""
    else [HexDigit(ByteAt(b, 0) / 16), HexDigit(ByteAt(b, 0) % 16)] + Hex(b[1..])
  }

  /** PHP's `hex2bin`, which fails on odd length or a non-hex character. */
  function HexDecode(h: string): (r: Option<Bytes>)
    ensures r.Some? ==> 2 * |r.value| == |h|
  {
    if h == [] then Some("")
    else if |h| == 1 || HexValue(h[0]) < 0 || HexValue(h[1]) < 0 then None
    else
      match HexDecode(h[2..])
      case None => None
      case Some(rest) => Some([Byte(HexValue(h[0]) * 16 + HexValue(h[1]))] + rest)
  }

  /** `hex2bin(bin2hex($b)) === $b`. */
  lemma {:induction false} HexRoundTrip(b: Bytes)
    ensures HexDecode(Hex(b)) == Some(b)
  {
    if b != [] {
      var n := ByteAt(b, 0);
      var h := Hex(b);
      HexValueOfDigit(n / 16);
      HexValueOfDigit(n % 16);
      assert h[2..] == Hex(b[1..]);
      HexRoundTrip(b[1..]);
      assert [Byte(n / 16 * 16 + n % 16)] + b[1..] == b;
    }
  }

  /** Byte `i` is written as the two digits at positions `2i` and `2i + 1`. */
  lemma {:induction false} HexAt(b: Bytes, i: nat)
    requires i < |b|
    ensures Hex(b)[2 * i] == HexDigit(ByteAt(b, i) / 16)
    ensures Hex(b)[2 * i + 1] == HexDigit(ByteAt(b, i) % 16)
  {
    if i > 0 {
      HexAt(b[1..], i - 1);
      assert Hex(b)[2..] == Hex(b[1..]);
    }
  }

  /** `hex2bin` accepts every even-length lowercase hex string, one byte per digit pair. */
  lemma {:induction false} HexDecodeOfLowerHex(h: string)
    requires |h| % 2 == 0 && IsLowerHex(h)
    ensures HexDecode(h).Some?
    ensures forall i :: 0 <= i < |h| / 2 ==>
      HexDecode(h).value[i] as int == HexValue(h[2 * i]) * 16 + HexValue(h[2 * i + 1])
  {
    if h != [] {
      var t := h[2..];
      assert IsLowerHex(t) by {
        forall k | 0 <= k < |t| ensures IsHexChar(t[k]) {
          assert t[k] == h[k + 2];
        }
      }
      HexDecodeOfLowerHex(t);
      assert IsHexChar(h[0]) && IsHexChar(h[1]);
      var r := HexDecode(h).value;
      assert r[1..] == HexDecode(t).value;
      forall i | 1 <= i < |h| / 2
        ensures r[i] as int == HexValue(h[2 * i]) * 16 + HexValue(h[2 * i + 1])
      {
        assert r[i] == HexDecode(t).value[i - 1];
        assert t[2 * (i - 1)] == h[2 * i] && t[2 * (i - 1) + 1] == h[2 * i + 1];
      }
    }
  }

  /** Hexadecimal text holds no ':'. */
  lemma LowerHexHasNoColon(h: string)
    requires IsLowerHex(h)
    ensures ':' !in h
  {
  }

  /** Hexadecimal text is plain ASCII, so it is itself a byte string. */
  lemma HexIsBytes(b: Bytes)
    ensures forall i :: 0 <= i < |Hex(b)| ==> Hex(b)[i] as int < 256
  {
  }

  // ---------------------------------------------------------------------
  // Base64 (RFC 4648, section 4)

  /** The character that encodes sextet `n`: A-Z, a-z, 0-9, '+', '/'. */
  function B64Char(n: int): (c: char)
    requires 0 <= n < 64
    ensures c != '='
  {
    if n < 26 then ('A' as int + n) as char
    else if n < 52 then ('a' as int + n - 26) as char
    else if n < 62 then ('0' as int + n - 52) as char
    else if n == 62 then '+'
    else '/'
  }

  /** The sextet a character encodes, or -1 for a character outside the alphabet. */
  function B64Value(c: char): (n: int)
    ensures -1 <= n < 64
  {
    if 'A' <= c <= 'Z' then c as int - 'A' as int
    else if 'a' <= c <= 'z' then c as int - 'a' as int + 26
    else if '0' <= c <= '9' then c as int - '0' as int + 52
    else if c == '+' then 62
    else if c == '/' then 63
    else -1
  }

  lemma B64ValueOfChar(n: int)
    requires 0 <= n < 64
    ensures B64Value(B64Char(n)) == n
  {
  }

  predicate IsSextets(q: seq<int>) {
    forall i :: 0 <= i < |q| ==> 0 <= q[i] < 64
  }

  /** The sextets of the alphabet characters of `s`, everything else skipped. */
  function Sextets(s: string): (q: seq<int>)
    ensures IsSextets(q)
  {
    if s == [] then []
    else
      var n := B64Value(s[0]);
      (if n >= 0 then [n] else []) + Sextets(s[1..])
  }

  /** Reassembles bytes from sextets; one sextet left over makes no byte. */
  function DecodeSextets(q: seq<int>): Bytes
    requires IsSextets(q)
  {
    if |q| < 2 then ""
    else if |q| == 2 then [Byte(q[0] * 4 + q[1] / 16)]
    else if |q| == 3 then [Byte(q[0] * 4 + q[1] / 16), Byte(q[1] % 16 * 16 + q[2] / 4)]
    else
      [Byte(q[0] * 4 + q[1] / 16), Byte(q[1] % 16 * 16 + q[2] / 4), Byte(q[2] % 4 * 64 + q[3])]
      + DecodeSextets(q[4..])
  }

  /** PHP's `base64_decode` in non-strict mode. It never fails. */
  function Base64Decode(s: string): Bytes {
    DecodeSextets(Sextets(s))
  }

  /** The sextet sequence that `Base64Encode` writes for `b`. */
  function EncodedSextets(b: Bytes): (q: seq<int>)
    ensures IsSextets(q)
    ensures |q| == (4 * |b| + 2) / 3
  {
    if |b| == 0 then []
    else
      var b0 := ByteAt(b, 0);
      if |b| == 1 then [b0 / 4, b0 % 4 * 16]
      else
        var b1 := ByteAt(b, 1);
        if |b| == 2 then [b0 / 4, b0 % 4 * 16 + b1 / 16, b1 % 16 * 4]
        else
          var b2 := ByteAt(b, 2);
          [b0 / 4, b0 % 4 * 16 + b1 / 16, b1 % 16 * 4 + b2 / 64, b2 % 64] + EncodedSextets(b[3..])
  }

  /** The characters that encode the sextets `q`, without padding. */
  function B64Chars(q: seq<int>): (e: string)
    requires IsSextets(q)
    ensures |e| == |q|
    ensures forall i :: 0 <= i < |q| ==> e[i] == B64Char(q[i])
  {
    if q == [] then "" else [B64Char(q[0])] + B64Chars(q[1..])
  }

  lemma {:induction false} SextetsOfChars(q: seq<int>, t: string)
    requires IsSextets(q)
    ensures Sextets(B64Chars(q) + t) == q + Sextets(t)
  {
    if q != [] {
      var e := B64Chars(q) + t;
      assert e[0] == B64Char(q[0]);
      assert e[1..] == B64Chars(q[1..]) + t;
      B64ValueOfChar(q[0]);
      assert B64Value(e[0]) == q[0];
      SextetsOfChars(q[1..], t);
      assert Sextets(e) == [q[0]] + Sextets(e[1..]);
      assert q == [q[0]] + q[1..];
    } else {
      assert B64Chars(q) + t == t;
    }
  }

  /** The '=' characters that complete the last four-character group. */
  function Padding(n: nat): string {
    if n % 3 == 1 then "==" else if n % 3 == 2 then "=" else ""
  }

  /** PHP's `base64_encode`: the alphabet characters of the sextets, padded
      with '=' to a multiple of four characters. */
  function Base64Encode(b: Bytes): (e: string)
    ensures |e| == 4 * ((|b| + 2) / 3)
  {
    EncodedLength(|b|);
    B64Chars(EncodedSextets(b)) + Padding(|b|)
  }

  lemma EncodedLength(n: nat)
    ensures (4 * n + 2) / 3 + |Padding(n)| == 4 * ((n + 2) / 3)
  {
    var k := n / 3;
    assert n == 3 * k + n % 3;
    if n % 3 == 0 {
      assert (4 * n + 2) / 3 == 4 * k;
      assert (n + 2) / 3 == k;
    } else if n % 3 == 1 {
      assert (4 * n + 2) / 3 == 4 * k + 2;
      assert (n + 2) / 3 == k + 1;
    } else {
      assert (4 * n + 2) / 3 == 4 * k + 3;
      assert (n + 2) / 3 == k + 1;
    }
  }

  lemma SextetsOfEncoding(b: Bytes)
    ensures Sextets(Base64Encode(b)) == EncodedSextets(b)
  {
    SextetsOfChars(EncodedSextets(b), Padding(|b|));
    assert Sextets("=") == [] && Sextets("==") == [];
  }

  /** Regrouping the sextets of three bytes gives the bytes back. */
  lemma DecodeGroup(b0: int, b1: int, b2: int)
    requires 0 <= b0 < 256 && 0 <= b1 < 256 && 0 <= b2 < 256
    ensures (b0 / 4) * 4 + (b0 % 4 * 16 + b1 / 16) / 16 == b0
    ensures (b0 % 4 * 16 + b1 / 16) % 16 * 16 + (b1 % 16 * 4 + b2 / 64) / 4 == b1
    ensures (b1 % 16 * 4 + b2 / 64) % 4 * 64 + b2 % 64 == b2
  {
    assert (b0 % 4 * 16 + b1 / 16) / 16 == b0 % 4;
    assert (b0 % 4 * 16 + b1 / 16) % 16 == b1 / 16;
    assert (b1 % 16 * 4 + b2 / 64) / 4 == b1 % 16;
    assert (b1 % 16 * 4 + b2 / 64) % 4 == b2 / 64;
  }

  lemma {:induction false} DecodeEncodedSextets(b: Bytes)
    ensures DecodeSextets(EncodedSextets(b)) == b
  {
    if |b| > 0 {
      var q := EncodedSextets(b);
      var b0 := ByteAt(b, 0);
      if |b| == 1 {
        DecodeGroup(b0, 0, 0);
        assert [Byte(b0)] == b;
      } else if |b| == 2 {
        var b1 := ByteAt(b, 1);
        DecodeGroup(b0, b1, 0);
        assert [Byte(b0), Byte(b1)] == b;
      } else {
        var b1, b2 := ByteAt(b, 1), ByteAt(b, 2);
        DecodeGroup(b0, b1, b2);
        assert q[4..] == EncodedSextets(b[3..]);
        DecodeEncodedSextets(b[3..]);
        assert DecodeSextets(q) == [Byte(b0), Byte(b1), Byte(b2)] + DecodeSextets(q[4..]);
        assert [Byte(b0), Byte(b1), Byte(b2)] + b[3..] == b;
      }
    }
  }

  /** `base64_decode(base64_encode($b)) === $b`. */
  lemma Base64RoundTrip(b: Bytes)
    ensures Base64Decode(Base64Encode(b)) == b
  {
    SextetsOfEncoding(b);
    DecodeEncodedSextets(b);
  }
}
