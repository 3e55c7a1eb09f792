/**
 * Base64 encoding (section 4 of RFC 4648, the alphabet with "+" and "/" and
 * "=" padding), as `btoa` applies it to a string of code points 0..255.
 */
module Base64 {

  type Byte = b: int | 0 <= b < 256

  /** A 6-bit value as an alphabet character. */
  function Char64(v: int): (c: char)
    requires 0 <= v < 64
    ensures c != '='
  {
    if v < 26 then ('A' as int + v) as char
    else if v < 52 then ('a' as int + (v - 26)) as char
    else if v < 62 then ('0' as int + (v - 52)) as char
    else if v == 62 then '+'
    else '/'
  }

  /** The 6-bit value of an alphabet character (0 for any other character). */
  function Value64(c: char): (v: int)
    ensures 0 <= v < 64
  {
    if 'A' <= c <= 'Z' then c as int - 'A' as int
    else if 'a' <= c <= 'z' then c as int - 'a' as int + 26
    else if '0' <= c <= '9' then c as int - '0' as int + 52
    else if c == '+' then 62
    else if c == '/' then 63
    else 0
  }

  lemma Value64Char64(v: int)
    requires 0 <= v < 64
    ensures Value64(Char64(v)) == v
  {
  }

  /** Every 3 bytes become 4 characters; a final 1 or 2 bytes are padded with "=". */
  function Encode(bs: seq<Byte>): (s: string)
    ensures |s| == (|bs| + 2) / 3 * 4
  {
    if |bs| == 0 then ""
    else if |bs| == 1 then OneByteGroup(bs[0])
    else if |bs| == 2 then TwoByteGroup(bs[0], bs[1])
    else
      FullGroup(bs[0], bs[1], bs[2]) + Encode(bs[3..])
  }

  /** Reads groups of 4 characters back into bytes, honouring the padding. */
  function Decode(s: string): seq<Byte>
  {
    if |s| < 4 then []
    else
      var v0, v1, v2, v3 := Value64(s[0]), Value64(s[1]), Value64(s[2]), Value64(s[3]);
      var b0: Byte := v0 * 4 + v1 / 16;
      var b1: Byte := v1 % 16 * 16 + v2 / 4;
      var b2: Byte := v2 % 4 * 64 + v3;
      (if s[2] == '=' then [b0] else if s[3] == '=' then [b0, b1] else [b0, b1, b2])
      + Decode(s[4..])
  }

  /** The four 6-bit values of a full group put the three bytes back together. */
  lemma GroupArithmetic(b0: Byte, b1: Byte, b2: Byte)
    ensures var v0, v1, v2, v3 := b0 / 4, b0 % 4 * 16 + b1 / 16, b1 % 16 * 4 + b2 / 64, b2 % 64;
            && 0 <= v0 < 64 && 0 <= v1 < 64 && 0 <= v2 < 64 && 0 <= v3 < 64
            && v0 * 4 + v1 / 16 == b0 && v1 % 16 * 16 + v2 / 4 == b1 && v2 % 4 * 64 + v3 == b2
  {
  }

  /** The characters of a full group of 3 bytes. */
  function FullGroup(b0: Byte, b1: Byte, b2: Byte): (g: string)
    ensures |g| == 4 && g[2] != '=' && g[3] != '='
  {
    GroupArithmetic(b0, b1, b2);
    [Char64(b0 / 4), Char64(b0 % 4 * 16 + b1 / 16), Char64(b1 % 16 * 4 + b2 / 64), Char64(b2 % 64)]
  }

  /** A full group of 3 bytes decodes back from its 4 characters. */
  lemma DecodeFullGroup(b0: Byte, b1: Byte, b2: Byte, rest: string)
    ensures Decode(FullGroup(b0, b1, b2) + rest) == [b0, b1, b2] + Decode(rest)
  {
    var g := FullGroup(b0, b1, b2);
    var s := g + rest;
    GroupArithmetic(b0, b1, b2);
    Value64Char64(b0 / 4);
    Value64Char64(b0 % 4 * 16 + b1 / 16);
    Value64Char64(b1 % 16 * 4 + b2 / 64);
    Value64Char64(b2 % 64);
    assert s[0] == g[0] && s[1] == g[1] && s[2] == g[2] && s[3] == g[3];
    assert s[4..] == rest;
  }

  /** The characters of a final group of 2 bytes: three values and one pad. */
  function TwoByteGroup(b0: Byte, b1: Byte): (g: string)
    ensures |g| == 4
  {
    [Char64(b0 / 4), Char64(b0 % 4 * 16 + b1 / 16), Char64(b1 % 16 * 4), '=']
  }

  /** The characters of a final single byte: two values and two pads. */
  function OneByteGroup(b0: Byte): (g: string)
    ensures |g| == 4
  {
    [Char64(b0 / 4), Char64(b0 % 4 * 16), '=', '=']
  }

  /** A final group of 2 bytes decodes back from its padded characters. */
  lemma DecodeTwoBytes(b0: Byte, b1: Byte)
    ensures Decode(TwoByteGroup(b0, b1)) == [b0, b1]
  {
    Value64Char64(b0 / 4);
    Value64Char64(b0 % 4 * 16 + b1 / 16);
    Value64Char64(b1 % 16 * 4);
  }

  /** A final single byte decodes back from its padded characters. */
  lemma DecodeOneByte(b0: Byte)
    ensures Decode(OneByteGroup(b0)) == [b0]
  {
    Value64Char64(b0 / 4);
    Value64Char64(b0 % 4 * 16);
  }

  /** Decoding an encoding gives back the bytes, so the encoding is injective. */
  lemma {:induction false} DecodeEncode(bs: seq<Byte>)
    ensures Decode(Encode(bs)) == bs
  {
    if |bs| < 3 {
      DecodeEncodeTail(bs);
    } else {
      var rest := bs[3..];
      assert Encode(bs) == FullGroup(bs[0], bs[1], bs[2]) + Encode(rest);
      DecodeFullGroup(bs[0], bs[1], bs[2], Encode(rest));
      DecodeEncode(rest);
      assert bs == [bs[0], bs[1], bs[2]] + rest;
    }
  }

  /** The padded final group (or nothing) decodes back to the last 0, 1 or 2 bytes. */
  lemma DecodeEncodeTail(bs: seq<Byte>)
    requires |bs| < 3
    ensures Decode(Encode(bs)) == bs
  {
    if |bs| == 1 {
      DecodeEncodeOne(bs);
    } else if |bs| == 2 {
      DecodeEncodeTwo(bs);
    }
  }

  lemma DecodeEncodeOne(bs: seq<Byte>)
    requires |bs| == 1
    ensures Decode(Encode(bs)) == bs
  {
    assert Encode(bs) == OneByteGroup(bs[0]);
    DecodeOneByte(bs[0]);
    assert bs == [bs[0]];
  }

  lemma DecodeEncodeTwo(bs: seq<Byte>)
    requires |bs| == 2
    ensures Decode(Encode(bs)) == bs
  {
    assert Encode(bs) == TwoByteGroup(bs[0], bs[1]);
    DecodeTwoBytes(bs[0], bs[1]);
    assert bs == [bs[0], bs[1]];
  }

  lemma EncodeInjective(a: seq<Byte>, b: seq<Byte>)
    requires Encode(a) == Encode(b)
    ensures a == b
  {
    DecodeEncode(a);
    DecodeEncode(b);
  }

  /** The test vectors of section 10 of RFC 4648. */
  lemma EncodeTestVectors()
    ensures Encode([]) == ""
    ensures Encode([102]) == "Zg=="
    ensures Encode([102, 111]) == "Zm8="
    ensures Encode([102, 111, 111]) == "Zm9v"
    ensures Encode([102, 111, 111, 98]) == "Zm9vYg=="
    ensures Encode([102, 111, 111, 98, 97]) == "Zm9vYmE="
    ensures Encode([102, 111, 111, 98, 97, 114]) == "Zm9vYmFy"
  {
  }
}
