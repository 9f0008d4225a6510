/**
 * The base 64 encoding of section 4 of RFC 4648, as Python's
 * `base64.b64encode` produces it: every 3 bytes become 4 characters of the
 * alphabet A-Z, a-z, 0-9, '+', '/', and a final group of 1 or 2 bytes is
 * completed with '=' padding. `Decode` is the strict decoder of the same
 * section: only alphabet characters, padding only at the end.
 */
module Base64 {
  import opened Wrappers

  type Byte = b: int | 0 <= b < 256
  type Sextet = i: int | 0 <= i < 64

  const Pad: char := '='

  /** Table 1 of RFC 4648: the character that encodes a 6-bit value. */
  function IndexChar(i: Sextet): (c: char)
    ensures c != Pad
  {
    if i < 26 then ('A' as int + i) as char
    else if i < 52 then ('a' as int + (i - 26)) as char
    else if i < 62 then ('0' as int + (i - 52)) as char
    else if i == 62 then '+'
    else '/'
  }

  /** The inverse of table 1; characters outside the alphabet have no value. */
  function CharIndex(c: char): Option<Sextet> {
    if 'A' <= c <= 'Z' then Some(c as int - 'A' as int)
    else if 'a' <= c <= 'z' then Some(c as int - 'a' as int + 26)
    else if '0' <= c <= '9' then Some(c as int - '0' as int + 52)
    else if c == '+' then Some(62)
    else if c == '/' then Some(63)
    else None
  }

  predicate InAlphabet(c: char) {
    CharIndex(c).Some?
  }

  lemma CharIndexOfIndexChar(i: Sextet)
    ensures CharIndex(IndexChar(i)) == Some(i)
  {
  }

  /** The encoding: 4 characters per 3 input bytes, the last group padded with '='. */
  function Encode(bs: seq<Byte>): (s: string)
    ensures |s| == 4 * ((|bs| + 2) / 3)
    decreases |bs|
  {
    if |bs| == 0 then ""
    else if |bs| == 1 then
      [IndexChar(bs[0] / 4), IndexChar((bs[0] % 4) * 16), Pad, Pad]
    else if |bs| == 2 then
      [IndexChar(bs[0] / 4), IndexChar((bs[0] % 4) * 16 + bs[1] / 16), IndexChar((bs[1] % 16) * 4), Pad]
    else
      [IndexChar(bs[0] / 4), IndexChar((bs[0] % 4) * 16 + bs[1] / 16),
       IndexChar((bs[1] % 16) * 4 + bs[2] / 64), IndexChar(bs[2] % 64)]
      + Encode(bs[3..])
  }

  /** Strict decoding of a padded base 64 text; `None` for anything malformed. */
  function Decode(s: string): Option<seq<Byte>>
    decreases |s|
  {
    if |s| == 0 then Some([])
    else if |s| < 4 then None
    else
      var c0, c1, c2, c3 := CharIndex(s[0]), CharIndex(s[1]), CharIndex(s[2]), CharIndex(s[3]);
      if c0.None? || c1.None? then None
      else if s[2] == Pad && s[3] == Pad then
        if |s| == 4 then Some([c0.value * 4 + c1.value / 16]) else None
      else if c2.None? then None
      else if s[3] == Pad then
        if |s| == 4 then Some([c0.value * 4 + c1.value / 16, (c1.value % 16) * 16 + c2.value / 4])
        else None
      else if c3.None? then None
      else
        match Decode(s[4..])
        case None => None
        case Some(rest) =>
          Some([c0.value * 4 + c1.value / 16, (c1.value % 16) * 16 + c2.value / 4,
                (c2.value % 4) * 64 + c3.value] + rest)
  }

  /** Every character of an encoding is in the alphabet, except the padding at its end. */
  lemma {:induction false} EncodeAlphabet(bs: seq<Byte>)
    ensures forall i :: 0 <= i < |Encode(bs)| ==>
      InAlphabet(Encode(bs)[i]) || (Encode(bs)[i] == Pad && i >= |Encode(bs)| - 2)
    decreases |bs|
  {
    if |bs| >= 3 {
      EncodeAlphabet(bs[3..]);
      var head := [IndexChar(bs[0] / 4), IndexChar((bs[0] % 4) * 16 + bs[1] / 16),
                   IndexChar((bs[1] % 16) * 4 + bs[2] / 64), IndexChar(bs[2] % 64)];
      assert Encode(bs) == head + Encode(bs[3..]);
      forall i | 0 <= i < 4 ensures InAlphabet(head[i]) {
        CharIndexOfIndexChar(if i == 0 then bs[0] / 4 else if i == 1 then (bs[0] % 4) * 16 + bs[1] / 16
          else if i == 2 then (bs[1] % 16) * 4 + bs[2] / 64 else bs[2] % 64);
      }
    } else if |bs| == 2 {
      CharIndexOfIndexChar(bs[0] / 4);
      CharIndexOfIndexChar((bs[0] % 4) * 16 + bs[1] / 16);
      CharIndexOfIndexChar((bs[1] % 16) * 4);
    } else if |bs| == 1 {
      CharIndexOfIndexChar(bs[0] / 4);
      CharIndexOfIndexChar((bs[0] % 4) * 16);
    }
  }

  lemma GroupArithmetic(b0: Byte, b1: Byte, b2: Byte)
    ensures (b0 / 4) * 4 + ((b0 % 4) * 16 + b1 / 16) / 16 == b0
    ensures (((b0 % 4) * 16 + b1 / 16) % 16) * 16 + ((b1 % 16) * 4 + b2 / 64) / 4 == b1
    ensures (((b1 % 16) * 4 + b2 / 64) % 4) * 64 + b2 % 64 == b2
  {
  }

  lemma {:induction false} DecodeEncodeShort(bs: seq<Byte>)
    requires 1 <= |bs| <= 2
    ensures Decode(Encode(bs)) == Some(bs)
  {
    var b1: Byte := if |bs| == 2 then bs[1] else 0;
    GroupArithmetic(bs[0], b1, 0);
    CharIndexOfIndexChar(bs[0] / 4);
    CharIndexOfIndexChar((bs[0] % 4) * 16 + b1 / 16);
    CharIndexOfIndexChar((b1 % 16) * 4);
    if |bs| == 1 {
      assert bs == [bs[0]];
    } else {
      assert bs == [bs[0], bs[1]];
    }
  }

  /** A group of four alphabet characters decodes to its three bytes, followed by the rest. */
  lemma DecodeFullGroup(i0: Sextet, i1: Sextet, i2: Sextet, i3: Sextet, b0: Byte, b1: Byte, b2: Byte,
                        rest: string, tail: seq<Byte>)
    requires i0 * 4 + i1 / 16 == b0 && (i1 % 16) * 16 + i2 / 4 == b1 && (i2 % 4) * 64 + i3 == b2
    requires Decode(rest) == Some(tail)
    ensures Decode([IndexChar(i0), IndexChar(i1), IndexChar(i2), IndexChar(i3)] + rest) == Some([b0, b1, b2] + tail)
  {
    var s := [IndexChar(i0), IndexChar(i1), IndexChar(i2), IndexChar(i3)] + rest;
    CharIndexOfIndexChar(i0);
    CharIndexOfIndexChar(i1);
    CharIndexOfIndexChar(i2);
    CharIndexOfIndexChar(i3);
    assert s[4..] == rest;
  }

  /** The first three bytes become four characters whose values give those bytes back. */
  lemma EncodeFullGroup(bs: seq<Byte>) returns (i0: Sextet, i1: Sextet, i2: Sextet, i3: Sextet)
    requires |bs| >= 3
    ensures Encode(bs) == [IndexChar(i0), IndexChar(i1), IndexChar(i2), IndexChar(i3)] + Encode(bs[3..])
    ensures i0 * 4 + i1 / 16 == bs[0] && (i1 % 16) * 16 + i2 / 4 == bs[1] && (i2 % 4) * 64 + i3 == bs[2]
  {
    i0, i1, i2, i3 := bs[0] / 4, (bs[0] % 4) * 16 + bs[1] / 16, (bs[1] % 16) * 4 + bs[2] / 64, bs[2] % 64;
    GroupArithmetic(bs[0], bs[1], bs[2]);
  }

  /** Decoding an encoding gives back exactly the bytes that were encoded. */
  lemma {:induction false} DecodeEncode(bs: seq<Byte>)
    ensures Decode(Encode(bs)) == Some(bs)
    decreases |bs|
  {
    if 1 <= |bs| <= 2 {
      DecodeEncodeShort(bs);
    } else if |bs| >= 3 {
      DecodeEncode(bs[3..]);
      DecodeEncodeLong(bs);
    }
  }

  /** One full group in front of a text that round-trips keeps the round trip. */
  lemma DecodeEncodeLong(bs: seq<Byte>)
    requires |bs| >= 3 && Decode(Encode(bs[3..])) == Some(bs[3..])
    ensures Decode(Encode(bs)) == Some(bs)
  {
    SplitThree(bs);
    var i0, i1, i2, i3 := EncodeFullGroup(bs);
    DecodeFullGroup(i0, i1, i2, i3, bs[0], bs[1], bs[2], Encode(bs[3..]), bs[3..]);
  }

  lemma SplitThree<T>(s: seq<T>)
    requires |s| >= 3
    ensures s == [s[0], s[1], s[2]] + s[3..]
  {
  }
}
