/**
 * UTF-8 as defined in section 3 of RFC 3629, for a single Unicode scalar
 * value (a Dafny `char`, like a Rust `char`) and for strings of them.
 *
 * `Encode` is what Rust's `char::encode_utf8` writes; `Decode` is an
 * independent reader that follows the byte-sequence grammar of section 4 of
 * RFC 3629 and rejects overlong forms, surrogates and values above U+10FFFF.
 * The two are proved to be inverse to each other.
 */
module Utf8 {
  import opened Optional
  import opened Bytes

  /** Number of bytes in the UTF-8 form of `c` (Rust's `char::len_utf8`). */
  function LenUtf8(c: char): (n: nat)
    ensures 1 <= n <= 4
  {
    var v := c as int;
    if v < 0x80 then 1
    else if v < 0x800 then 2
    else if v < 0x1_0000 then 3
    else 4
  }

  /** The UTF-8 bytes of `c`, most significant bits first (RFC 3629 section 3). */
  function Encode(c: char): (bs: seq<u8>)
    ensures |bs| == LenUtf8(c)
  {
    var v := c as int;
    if v < 0x80 then [v]
    else if v < 0x800 then [0xC0 + v / 0x40, 0x80 + v % 0x40]
    else if v < 0x1_0000 then [0xE0 + v / 0x1000, 0x80 + v / 0x40 % 0x40, 0x80 + v % 0x40]
    else [0xF0 + v / 0x4_0000, 0x80 + v / 0x1000 % 0x40, 0x80 + v / 0x40 % 0x40, 0x80 + v % 0x40]
  }

  /** The UTF-8 bytes of every character of `s`, in order. */
  function EncodeString(s: seq<char>): (bs: seq<u8>)
  {
    if s == [] then [] else Encode(s[0]) + EncodeString(s[1..])
  }

  /** A continuation byte, 10xxxxxx. */
  predicate IsTail(b: u8)
  {
    0x80 <= b < 0xC0
  }

  /**
   * The length of the sequence that lead byte `b` opens, or 0 when `b` can
   * open none (a continuation byte, C0, C1 or F5..FF).
   */
  function SequenceLength(b: u8): (n: nat)
    ensures n <= 4
  {
    if b < 0x80 then 1
    else if 0xC2 <= b < 0xE0 then 2
    else if 0xE0 <= b < 0xF0 then 3
    else if 0xF0 <= b < 0xF5 then 4
    else 0
  }

  /** The smallest scalar value that needs `n` bytes; anything below is overlong. */
  function MinForLength(n: nat): (m: int)
  {
    if n <= 1 then 0 else if n == 2 then 0x80 else if n == 3 then 0x800 else 0x1_0000
  }

  /** The six payload bits of a continuation byte. */
  function Low6(b: u8): (bits: int)
  {
    b as int - 0x80
  }

  /** The scalar value carried by a lead byte and its continuation bytes. */
  function Payload(bs: seq<u8>): (v: int)
    requires 1 <= |bs| <= 4
  {
    var b0: int := bs[0];
    if |bs| == 1 then b0
    else if |bs| == 2 then (b0 - 0xC0) * 0x40 + Low6(bs[1])
    else if |bs| == 3 then (b0 - 0xE0) * 0x1000 + Low6(bs[1]) * 0x40 + Low6(bs[2])
    else (b0 - 0xF0) * 0x4_0000 + Low6(bs[1]) * 0x1000 + Low6(bs[2]) * 0x40 + Low6(bs[3])
  }

  /** Unicode scalar values: code points other than the surrogates. */
  predicate IsScalarValue(v: int)
  {
    (0 <= v < 0xD800) || (0xE000 <= v < 0x11_0000)
  }

  /**
   * Reads `bs` as exactly one well-formed UTF-8 sequence; None for anything
   * else (wrong length for its lead byte, bad continuation byte, overlong
   * form, surrogate, value above U+10FFFF).
   */
  function Decode(bs: seq<u8>): (r: Option<char>)
    ensures r.Some? ==> 1 <= |bs| <= 4 && |bs| == SequenceLength(bs[0])
    ensures r.Some? ==> forall i :: 1 <= i < |bs| ==> IsTail(bs[i])
  {
    if |bs| == 0 || |bs| != SequenceLength(bs[0]) then None
    else if exists i :: 1 <= i < |bs| && !IsTail(bs[i]) then None
    else
      var v := Payload(bs);
      if MinForLength(|bs|) <= v && IsScalarValue(v) then Some(v as char) else None
  }

  /**
   * Reads `bs` as a concatenation of well-formed UTF-8 sequences, each
   * delimited by the length its lead byte announces.
   */
  function DecodeString(bs: seq<u8>): (r: Option<seq<char>>)
    decreases |bs|
  {
    if bs == [] then Some([])
    else
      var n := SequenceLength(bs[0]);
      if n == 0 || |bs| < n then None
      else match Decode(bs[..n])
        case None => None
        case Some(c) =>
          match DecodeString(bs[n..])
          case None => None
          case Some(rest) => Some([c] + rest)
  }

  /** The lead byte of `Encode(c)` announces the length of the encoding. */
  lemma EncodeLead(c: char)
    ensures SequenceLength(Encode(c)[0]) == LenUtf8(c)
  {
  }

  /** Splitting a value into 6-bit groups, as the encoder does. */
  lemma SixBitGroups(v: int)
    requires 0 <= v
    ensures v == v / 0x40 * 0x40 + v % 0x40
    ensures v / 0x1000 == v / 0x40 / 0x40
    ensures v / 0x4_0000 == v / 0x40 / 0x40 / 0x40
  {
    var a := v / 0x40;
    var b := a / 0x40;
    assert v == 0x1000 * b + 0x40 * (a % 0x40) + v % 0x40;
    assert b == v / 0x1000;
    var c := b / 0x40;
    assert v == 0x4_0000 * c + 0x1000 * (b % 0x40) + 0x40 * (a % 0x40) + v % 0x40;
  }

  /** Reassembling 6-bit groups: the inverse of `SixBitGroups`. */
  lemma JoinSixBitGroups(hi: int, lo: int)
    requires 0 <= hi && 0 <= lo < 0x40
    ensures (hi * 0x40 + lo) / 0x40 == hi && (hi * 0x40 + lo) % 0x40 == lo
  {
  }

  /** Round trip: the decoder reads back the character that was encoded. */
  lemma DecodeEncode(c: char)
    ensures Decode(Encode(c)) == Some(c)
  {
    var v := c as int;
    var bs := Encode(c);
    EncodeLead(c);
    SixBitGroups(v);
    SixBitGroups(v / 0x40);
    SixBitGroups(v / 0x40 / 0x40);
    assert forall i :: 1 <= i < |bs| ==> IsTail(bs[i]);
    assert Payload(bs) == v;
  }

  /** Round trip the other way: whatever decodes to `c` is exactly `Encode(c)`. */
  lemma EncodeDecode(bs: seq<u8>, c: char)
    requires Decode(bs) == Some(c)
    ensures Encode(c) == bs
  {
    var v := c as int;
    assert v == Payload(bs);
    if |bs| == 2 {
      JoinSixBitGroups(bs[0] - 0xC0, Low6(bs[1]));
    } else if |bs| == 3 {
      var mid := (bs[0] - 0xE0) * 0x40 + Low6(bs[1]);
      JoinSixBitGroups(mid, Low6(bs[2]));
      JoinSixBitGroups(bs[0] - 0xE0, Low6(bs[1]));
      SixBitGroups(v);
    } else if |bs| == 4 {
      var top := (bs[0] - 0xF0) * 0x40 + Low6(bs[1]);
      var mid := top * 0x40 + Low6(bs[2]);
      JoinSixBitGroups(mid, Low6(bs[3]));
      JoinSixBitGroups(top, Low6(bs[2]));
      JoinSixBitGroups(bs[0] - 0xF0, Low6(bs[1]));
      SixBitGroups(v);
    }
  }

  /** Encoding concatenates: the bytes of `s + t` are those of `s` then those of `t`. */
  lemma {:induction false} EncodeStringAppend(s: seq<char>, t: seq<char>)
    ensures EncodeString(s + t) == EncodeString(s) + EncodeString(t)
    decreases |s|
  {
    if s == [] {
      assert s + t == t;
    } else {
      assert (s + t)[1..] == s[1..] + t;
      EncodeStringAppend(s[1..], t);
    }
  }

  /** String round trip: decoding the encoding of `s` gives `s` back. */
  lemma {:induction false} DecodeEncodeString(s: seq<char>)
    ensures DecodeString(EncodeString(s)) == Some(s)
    decreases |s|
  {
    if s != [] {
      var bs := EncodeString(s);
      var e := Encode(s[0]);
      EncodeLead(s[0]);
      assert bs == e + EncodeString(s[1..]);
      assert bs[..|e|] == e;
      assert bs[|e|..] == EncodeString(s[1..]);
      DecodeEncode(s[0]);
      DecodeEncodeString(s[1..]);
      assert [s[0]] + s[1..] == s;
    }
  }

  /** String round trip the other way: UTF-8 is a canonical encoding. */
  lemma {:induction false} EncodeDecodeString(bs: seq<u8>, s: seq<char>)
    requires DecodeString(bs) == Some(s)
    ensures EncodeString(s) == bs
    decreases |bs|
  {
    if bs != [] {
      var n := SequenceLength(bs[0]);
      assert 0 < n <= |bs|;
      assert Decode(bs[..n]).Some? && DecodeString(bs[n..]).Some?;
      var c := Decode(bs[..n]).value;
      var rest := DecodeString(bs[n..]).value;
      assert s == [c] + rest;
      EncodeDecode(bs[..n], c);
      EncodeDecodeString(bs[n..], rest);
      calc {
        EncodeString(s);
        Encode(s[0]) + EncodeString(s[1..]);
        { assert s[0] == c && s[1..] == rest; }
        bs[..n] + bs[n..];
        bs;
      }
    }
  }

  /** The encoding of a one-character string is that character's encoding. */
  lemma EncodeStringSingle(c: char)
    ensures EncodeString([c]) == Encode(c)
  {
    assert [c][1..] == [];
  }
}
