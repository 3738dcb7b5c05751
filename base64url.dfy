/**
 * The URL-safe base64 alphabet without padding (section 5 of RFC 4648), as
 * Go's `base64.URLEncoding.WithPadding(base64.NoPadding)` encodes it.  The
 * decoder is the reference inverse: it is what makes the encoding injective.
 */
module Base64Url {
  import opened Wrappers

  type byte = x: int | 0 <= x < 256

  /** The 64 characters of the URL-safe alphabet. */
  predicate IsUrlChar(c: char)
  {
    ('A' <= c <= 'Z') || ('a' <= c <= 'z') || ('0' <= c <= '9') || c == '-' || c == '_'
  }

  /** The character for the 6-bit value `v`. */
  function Char(v: int): (c: char)
    requires 0 <= v < 64
    ensures IsUrlChar(c)
  {
    if v < 26 then ('A' as int + v) as char
    else if v < 52 then ('a' as int + v - 26) as char
    else if v < 62 then ('0' as int + v - 52) as char
    else if v == 62 then '-'
    else '_'
  }

  /** The 6-bit value of an alphabet character, or -1. */
  function Value(c: char): (v: int)
    ensures -1 <= v < 64
    ensures v >= 0 <==> IsUrlChar(c)
  {
    if 'A' <= c <= 'Z' then c as int - 'A' as int
    else if 'a' <= c <= 'z' then c as int - 'a' as int + 26
    else if '0' <= c <= '9' then c as int - '0' as int + 52
    else if c == '-' then 62
    else if c == '_' then 63
    else -1
  }

  lemma ValueOfChar(v: int)
    requires 0 <= v < 64
    ensures Value(Char(v)) == v
  {
  }

  predicate IsSextets(v: seq<int>)
  {
    forall i :: 0 <= i < |v| ==> 0 <= v[i] < 64
  }

  /** The bytes regrouped into 6-bit values, most significant bits first; one
      or two remaining bytes give two or three values with zero fill. */
  function Sextets(b: seq<byte>): (v: seq<int>)
    ensures |v| == (4 * |b| + 2) / 3
    ensures IsSextets(v)
  {
    if |b| >= 3 then [b[0] / 4, (b[0] % 4) * 16 + b[1] / 16, (b[1] % 16) * 4 + b[2] / 64, b[2] % 64] + Sextets(b[3..])
    else if |b| == 2 then [b[0] / 4, (b[0] % 4) * 16 + b[1] / 16, (b[1] % 16) * 4]
    else if |b| == 1 then [b[0] / 4, (b[0] % 4) * 16]
    else []
  }

  /** The encoding, with no padding: 32 bytes become 43 characters. */
  function Encode(b: seq<byte>): (s: string)
    ensures |s| == (4 * |b| + 2) / 3
    ensures forall i :: 0 <= i < |s| ==> IsUrlChar(s[i])
  {
    var v := Sextets(b);
    seq(|v|, i requires 0 <= i < |v| => Char(v[i]))
  }

  /** Regrouping 6-bit values into bytes; `None` for a single trailing value. */
  function FromSextets(v: seq<int>): Option<seq<byte>>
    requires IsSextets(v)
  {
    if |v| == 0 then Some([])
    else if |v| == 1 then None
    else if |v| == 2 then Some([v[0] * 4 + v[1] / 16])
    else if |v| == 3 then Some([v[0] * 4 + v[1] / 16, (v[1] % 16) * 16 + v[2] / 4])
    else
      match FromSextets(v[4..])
      case None => None
      case Some(rest) => Some([v[0] * 4 + v[1] / 16, (v[1] % 16) * 16 + v[2] / 4, (v[2] % 4) * 64 + v[3]] + rest)
  }

  /** Decoding without padding; `None` for a character outside the alphabet
      or a one-character tail. */
  function Decode(s: string): Option<seq<byte>>
  {
    if forall i :: 0 <= i < |s| ==> IsUrlChar(s[i]) then
      FromSextets(seq(|s|, i requires 0 <= i < |s| => Value(s[i])))
    else None
  }

  /** The bit regrouping of one full group undoes itself. */
  lemma GroupRoundTrip(b0: byte, b1: byte, b2: byte)
    ensures var v0, v1, v2, v3 := b0 / 4, (b0 % 4) * 16 + b1 / 16, (b1 % 16) * 4 + b2 / 64, b2 % 64;
      v0 * 4 + v1 / 16 == b0 && (v1 % 16) * 16 + v2 / 4 == b1 && (v2 % 4) * 64 + v3 == b2
  {
    var v1, v2 := (b0 % 4) * 16 + b1 / 16, (b1 % 16) * 4 + b2 / 64;
    assert v1 / 16 == b0 % 4 && v1 % 16 == b1 / 16;
    assert v2 / 4 == b1 % 16 && v2 % 4 == b2 / 64;
  }

  /** One unfolding of the decoder for each length class, on plain values. */
  lemma FromSextetsShapes(x0: int, x1: int, x2: int, x3: int, rest: seq<int>)
    requires 0 <= x0 < 64 && 0 <= x1 < 64 && 0 <= x2 < 64 && 0 <= x3 < 64 && IsSextets(rest)
    ensures FromSextets([x0, x1]) == Some([x0 * 4 + x1 / 16])
    ensures FromSextets([x0, x1, x2]) == Some([x0 * 4 + x1 / 16, (x1 % 16) * 16 + x2 / 4])
    ensures FromSextets([x0, x1, x2, x3] + rest) ==
      match FromSextets(rest)
      case None => None
      case Some(r) => Some([x0 * 4 + x1 / 16, (x1 % 16) * 16 + x2 / 4, (x2 % 4) * 64 + x3] + r)
  {
    assert ([x0, x1, x2, x3] + rest)[4..] == rest;
  }

  lemma FromSextetsGroup(b0: byte, b1: byte, b2: byte, rest: seq<byte>)
    ensures FromSextets(Sextets([b0, b1, b2] + rest)) ==
      match FromSextets(Sextets(rest))
      case None => None
      case Some(r) => Some([b0, b1, b2] + r)
  {
    var x0, x1, x2, x3 := b0 / 4, (b0 % 4) * 16 + b1 / 16, (b1 % 16) * 4 + b2 / 64, b2 % 64;
    GroupRoundTrip(b0, b1, b2);
    var b := [b0, b1, b2] + rest;
    assert b[3..] == rest;
    assert Sextets(b) == [x0, x1, x2, x3] + Sextets(rest);
    FromSextetsShapes(x0, x1, x2, x3, Sextets(rest));
    var head: seq<byte> := [x0 * 4 + x1 / 16, (x1 % 16) * 16 + x2 / 4, (x2 % 4) * 64 + x3];
    assert head == [b0, b1, b2];
  }

  lemma FromSextetsTwo(b0: byte, b1: byte)
    ensures FromSextets(Sextets([b0, b1])) == Some([b0, b1])
  {
    var x0, x1, x2 := b0 / 4, (b0 % 4) * 16 + b1 / 16, (b1 % 16) * 4;
    GroupRoundTrip(b0, b1, 0);
    assert Sextets([b0, b1]) == [x0, x1, x2];
    FromSextetsShapes(x0, x1, x2, 0, []);
  }

  lemma FromSextetsOne(b0: byte)
    ensures FromSextets(Sextets([b0])) == Some([b0])
  {
    var x0, x1 := b0 / 4, (b0 % 4) * 16;
    GroupRoundTrip(b0, 0, 0);
    assert Sextets([b0]) == [x0, x1];
    FromSextetsShapes(x0, x1, 0, 0, []);
  }

  lemma {:induction false} FromSextetsRoundTrip(b: seq<byte>)
    ensures FromSextets(Sextets(b)) == Some(b)
    decreases |b|
  {
    if |b| >= 3 {
      assert b == [b[0], b[1], b[2]] + b[3..];
      FromSextetsGroup(b[0], b[1], b[2], b[3..]);
      FromSextetsRoundTrip(b[3..]);
    } else if |b| == 2 {
      assert b == [b[0], b[1]];
      FromSextetsTwo(b[0], b[1]);
    } else if |b| == 1 {
      assert b == [b[0]];
      FromSextetsOne(b[0]);
    }
  }

  lemma DecodeEncode(b: seq<byte>)
    ensures Decode(Encode(b)) == Some(b)
  {
    var s, v := Encode(b), Sextets(b);
    forall i | 0 <= i < |s| ensures Value(s[i]) == v[i] {
      ValueOfChar(v[i]);
    }
    assert seq(|s|, i requires 0 <= i < |s| => Value(s[i])) == v;
    FromSextetsRoundTrip(b);
  }

  /** Distinct byte strings never share an encoding. */
  lemma EncodeInjective(a: seq<byte>, b: seq<byte>)
    requires Encode(a) == Encode(b)
    ensures a == b
  {
    DecodeEncode(a);
    DecodeEncode(b);
  }
}
