/**
 * Base 64 encoding with the standard alphabet and `=` padding (section 4 of
 * RFC 4648), as `encoding/base64.StdEncoding.EncodeToString` produces it, and
 * the decoding that undoes it.
 */
module Base64 {

  type Byte = b: int | 0 <= b < 256
  type Sextet = v: int | 0 <= v < 64

  const Pad: char := '='

  /** Table 1 of RFC 4648: `A`-`Z`, `a`-`z`, `0`-`9`, `+`, `/`. */
  function SextetChar(v: Sextet): (c: char)
    ensures c != Pad
    ensures CharSextet(c) == v
  {
    if v < 26 then ('A' as int + v) as char
    else if v < 52 then ('a' as int + v - 26) as char
    else if v < 62 then ('0' as int + v - 52) as char
    else if v == 62 then '+'
    else '/'
  }

  /** The value of an alphabet character (0 for any other character). */
  function CharSextet(c: char): Sextet {
    if 'A' <= c <= 'Z' then c as int - 'A' as int
    else if 'a' <= c <= 'z' then c as int - 'a' as int + 26
    else if '0' <= c <= '9' then c as int - '0' as int + 52
    else if c == '+' then 62
    else if c == '/' then 63
    else 0
  }

  /** Three bytes as four characters. */
  function EncodeTriple(b0: Byte, b1: Byte, b2: Byte): (s: string)
    ensures |s| == 4 && Pad !in s
  {
    [SextetChar(b0 / 4), SextetChar((b0 % 4) * 16 + b1 / 16),
     SextetChar((b1 % 16) * 4 + b2 / 64), SextetChar(b2 % 64)]
  }

  /** The final group of two bytes, padded with one `=`. */
  function EncodePair(b0: Byte, b1: Byte): (s: string)
    ensures |s| == 4 && s[3] == Pad && s[2] != Pad
  {
    [SextetChar(b0 / 4), SextetChar((b0 % 4) * 16 + b1 / 16), SextetChar((b1 % 16) * 4), Pad]
  }

  /** The final group of one byte, padded with two `=`. */
  function EncodeSingle(b0: Byte): (s: string)
    ensures |s| == 4 && s[2] == Pad && s[3] == Pad
  {
    [SextetChar(b0 / 4), SextetChar((b0 % 4) * 16), Pad, Pad]
  }

  /** `StdEncoding.EncodeToString`: four characters per started group of three bytes. */
  function Encode(bs: seq<Byte>): (s: string)
    ensures bs == [] <==> s == []
  {
    if |bs| == 0 then ""
    else if |bs| == 1 then EncodeSingle(bs[0])
    else if |bs| == 2 then EncodePair(bs[0], bs[1])
    else EncodeTriple(bs[0], bs[1], bs[2]) + Encode(bs[3..])
  }

  /** Four characters for every started group of three bytes. */
  lemma {:induction false} EncodeLength(bs: seq<Byte>)
    ensures |Encode(bs)| == (|bs| + 2) / 3 * 4
    decreases |bs|
  {
    if |bs| >= 3 {
      EncodeLength(bs[3..]);
      assert (|bs| + 2) / 3 == (|bs[3..]| + 2) / 3 + 1;
    }
  }

  /** The bytes one four-character group stands for: one, two or three of them. */
  function DecodeGroup(g: string): (bs: seq<Byte>)
    requires |g| == 4
  {
    var v0, v1, v2, v3 := CharSextet(g[0]), CharSextet(g[1]), CharSextet(g[2]), CharSextet(g[3]);
    var b0 := v0 * 4 + v1 / 16;
    if g[2] == Pad && g[3] == Pad then [b0]
    else if g[3] == Pad then [b0, (v1 % 16) * 16 + v2 / 4]
    else [b0, (v1 % 16) * 16 + v2 / 4, (v2 % 4) * 64 + v3]
  }

  /** Decoding, group by group; a trailing partial group is ignored. */
  function Decode(s: string): seq<Byte>
  {
    if |s| < 4 then [] else DecodeGroup(s[..4]) + Decode(s[4..])
  }

  lemma TripleRoundTrip(b0: Byte, b1: Byte, b2: Byte)
    ensures DecodeGroup(EncodeTriple(b0, b1, b2)) == [b0, b1, b2]
  {
    var v1: Sextet := (b0 % 4) * 16 + b1 / 16;
    var v2: Sextet := (b1 % 16) * 4 + b2 / 64;
    assert v1 / 16 == b0 % 4 && v1 % 16 == b1 / 16;
    assert v2 / 4 == b1 % 16 && v2 % 4 == b2 / 64;
  }

  lemma PairRoundTrip(b0: Byte, b1: Byte)
    ensures DecodeGroup(EncodePair(b0, b1)) == [b0, b1]
  {
    var v1: Sextet := (b0 % 4) * 16 + b1 / 16;
    var v2: Sextet := (b1 % 16) * 4;
    assert v1 / 16 == b0 % 4 && v1 % 16 == b1 / 16;
    assert v2 / 4 == b1 % 16;
  }

  lemma SingleRoundTrip(b0: Byte)
    ensures DecodeGroup(EncodeSingle(b0)) == [b0]
  {
    var v1: Sextet := (b0 % 4) * 16;
    assert v1 / 16 == b0 % 4;
  }

  /** A leading group is decoded on its own, then the rest. */
  lemma DecodeFirstGroup(g: string, rest: string)
    requires |g| == 4
    ensures Decode(g + rest) == DecodeGroup(g) + Decode(rest)
  {
    var s := g + rest;
    assert s[..4] == g && s[4..] == rest;
  }

  lemma DecodeEncodeSingle(b0: Byte)
    ensures Decode(Encode([b0])) == [b0]
  {
    SingleRoundTrip(b0);
    DecodeFirstGroup(Encode([b0]), "");
    assert Encode([b0]) + "" == Encode([b0]);
  }

  lemma DecodeEncodePair(b0: Byte, b1: Byte)
    ensures Decode(Encode([b0, b1])) == [b0, b1]
  {
    PairRoundTrip(b0, b1);
    DecodeFirstGroup(Encode([b0, b1]), "");
    assert Encode([b0, b1]) + "" == Encode([b0, b1]);
  }

  /** Three encoded bytes followed by text that decodes to `y` decode to the three bytes and `y`. */
  lemma DecodeTripleThenRest(b0: Byte, b1: Byte, b2: Byte, rest: string, y: seq<Byte>)
    requires Decode(rest) == y
    ensures Decode(EncodeTriple(b0, b1, b2) + rest) == [b0, b1, b2] + y
  {
    TripleRoundTrip(b0, b1, b2);
    DecodeFirstGroup(EncodeTriple(b0, b1, b2), rest);
  }

  /** Three or more bytes encode as a full group followed by the encoding of the rest. */
  lemma EncodeSplit(bs: seq<Byte>)
    requires |bs| >= 3
    ensures Encode(bs) == EncodeTriple(bs[0], bs[1], bs[2]) + Encode(bs[3..])
  {
  }

  lemma FirstThree(bs: seq<Byte>)
    requires |bs| >= 3
    ensures bs == [bs[0], bs[1], bs[2]] + bs[3..]
  {
  }

  /** A full leading group decodes to its three bytes, followed by the decoded rest. */
  lemma DecodeEncodeStep(bs: seq<Byte>)
    requires |bs| >= 3 && Decode(Encode(bs[3..])) == bs[3..]
    ensures Decode(Encode(bs)) == bs
  {
    var b0, b1, b2, rest := bs[0], bs[1], bs[2], bs[3..];
    EncodeSplit(bs);
    DecodeTripleThenRest(b0, b1, b2, Encode(rest), rest);
    FirstThree(bs);
  }

  /** Decoding undoes encoding. */
  lemma {:induction false} DecodeEncode(bs: seq<Byte>)
    ensures Decode(Encode(bs)) == bs
    decreases |bs|
  {
    if |bs| == 1 {
      assert bs == [bs[0]];
      DecodeEncodeSingle(bs[0]);
    } else if |bs| == 2 {
      assert bs == [bs[0], bs[1]];
      DecodeEncodePair(bs[0], bs[1]);
    } else if |bs| >= 3 {
      DecodeEncode(bs[3..]);
      DecodeEncodeStep(bs);
    }
  }

  /** Different byte strings never share an encoding. */
  lemma EncodeInjective(a: seq<Byte>, b: seq<Byte>)
    ensures Encode(a) == Encode(b) ==> a == b
  {
    DecodeEncode(a);
    DecodeEncode(b);
  }
}
