/**
 * The text encoder of the XIM front end: committed text travels as X11
 * Compound Text that switches to UTF-8 with the ISO/IEC 2022 "designate other
 * coding system" escapes (section 15.4 of ECMA-35): ESC % G opens the UTF-8
 * segment and ESC % @ returns to the standard coding.
 *
 * `Wrap` is the wire form as a value; `FillCh` and `FillCh2` are the buffer
 * fillers of `commit_ch` and `commit_ch2`, which build that form in a zeroed
 * stack array of 12 and 16 bytes.
 */
module CompoundText {
  import opened Optional
  import opened Bytes
  import opened Utf8

  /** ESC % G: switch to UTF-8. */
  const UTF8_START: seq<u8> := [0x1B, 0x25, 0x47]
  /** ESC % @: return from UTF-8. */
  const UTF8_END: seq<u8> := [0x1B, 0x25, 0x40]

  /** Size of the buffer `commit_ch` fills. */
  const CH_BUFFER_SIZE: nat := 12
  /** Size of the buffer `commit_ch2` fills. */
  const CH2_BUFFER_SIZE: nat := 16

  /** The escape-wrapped UTF-8 form of `s`. */
  function Wrap(s: seq<char>): (bs: seq<u8>)
    ensures |bs| == |EncodeString(s)| + 6
    ensures bs[..3] == UTF8_START && bs[|bs| - 3..] == UTF8_END
  {
    UTF8_START + EncodeString(s) + UTF8_END
  }

  /**
   * What a receiver reads from a wire string: the text between the two
   * escapes, or None when the escapes are missing or the payload is not
   * well-formed UTF-8.
   */
  function Unwrap(bs: seq<u8>): (r: Option<seq<char>>)
    ensures r.Some? ==> |bs| >= 6
  {
    if |bs| < 6 || bs[..3] != UTF8_START || bs[|bs| - 3..] != UTF8_END then None
    else DecodeString(bs[3..|bs| - 3])
  }

  /** Round trip: a receiver recovers exactly the characters that were wrapped. */
  lemma UnwrapWrap(s: seq<char>)
    ensures Unwrap(Wrap(s)) == Some(s)
  {
    var bs := Wrap(s);
    assert bs[3..|bs| - 3] == EncodeString(s);
    DecodeEncodeString(s);
  }

  /** Round trip the other way: there is one wire form per text. */
  lemma WrapUnwrap(bs: seq<u8>, s: seq<char>)
    requires Unwrap(bs) == Some(s)
    ensures Wrap(s) == bs
  {
    EncodeDecodeString(bs[3..|bs| - 3], s);
    assert bs == bs[..3] + bs[3..|bs| - 3] + bs[|bs| - 3..];
  }

  /** The wire form of one character, as `commit_ch` lays it out. */
  lemma WrapOne(ch: char)
    ensures Wrap([ch]) == UTF8_START + Encode(ch) + UTF8_END
    ensures |Wrap([ch])| == LenUtf8(ch) + 6 <= 10
    ensures |Wrap([ch])| <= CH_BUFFER_SIZE
  {
    EncodeStringSingle(ch);
  }

  /** The wire form of two characters, as `commit_ch2` lays it out. */
  lemma WrapTwo(ch1: char, ch2: char)
    ensures Wrap([ch1, ch2]) == UTF8_START + Encode(ch1) + Encode(ch2) + UTF8_END
    ensures |Wrap([ch1, ch2])| == LenUtf8(ch1) + LenUtf8(ch2) + 6 <= 14
    ensures |Wrap([ch1, ch2])| <= CH2_BUFFER_SIZE
  {
    assert [ch1, ch2] == [ch1] + [ch2];
    EncodeStringAppend([ch1], [ch2]);
    EncodeStringSingle(ch1);
    EncodeStringSingle(ch2);
  }

  /** `n` zero bytes: a freshly initialised buffer. */
  function Zeros(n: nat): (z: seq<u8>)
    ensures |z| == n && forall i :: 0 <= i < n ==> z[i] == 0
  {
    seq(n, _ => 0)
  }

  /** `s` with the range starting at `at` overwritten by `x`. */
  function Splice(s: seq<u8>, at: nat, x: seq<u8>): (r: seq<u8>)
    requires at + |x| <= |s|
    ensures |r| == |s|
    ensures forall i :: 0 <= i < |r| ==> r[i] == if at <= i < at + |x| then x[i - at] else s[i]
  {
    s[..at] + x + s[at + |x|..]
  }

  /** The three writes of `commit_ch` leave the wire form of `ch` followed by zeros. */
  lemma OneCharLayout(ch: char)
    ensures var n := LenUtf8(ch);
      Splice(Splice(Splice(Zeros(CH_BUFFER_SIZE), 0, UTF8_START), 3, Encode(ch)), n + 3, UTF8_END)
      == Wrap([ch]) + Zeros(CH_BUFFER_SIZE - n - 6)
  {
    var n := LenUtf8(ch);
    var l := Splice(Splice(Splice(Zeros(CH_BUFFER_SIZE), 0, UTF8_START), 3, Encode(ch)), n + 3, UTF8_END);
    var w := Wrap([ch]) + Zeros(CH_BUFFER_SIZE - n - 6);
    WrapOne(ch);
    assert |l| == |w|;
    forall i | 0 <= i < |l|
      ensures l[i] == w[i]
    {
      if i < 3 {
      } else if i < n + 3 {
      } else if i < n + 6 {
      }
    }
  }

  /** The four writes of `commit_ch2` leave the wire form of `ch1 ch2` followed by zeros. */
  lemma TwoCharLayout(ch1: char, ch2: char)
    ensures var n1, n := LenUtf8(ch1), LenUtf8(ch1) + LenUtf8(ch2);
      Splice(Splice(Splice(Splice(Zeros(CH2_BUFFER_SIZE), 0, UTF8_START), 3, Encode(ch1)), n1 + 3, Encode(ch2)), n + 3, UTF8_END)
      == Wrap([ch1, ch2]) + Zeros(CH2_BUFFER_SIZE - n - 6)
  {
    var n1, n := LenUtf8(ch1), LenUtf8(ch1) + LenUtf8(ch2);
    var l := Splice(Splice(Splice(Splice(Zeros(CH2_BUFFER_SIZE), 0, UTF8_START), 3, Encode(ch1)), n1 + 3, Encode(ch2)), n + 3, UTF8_END);
    var w := Wrap([ch1, ch2]) + Zeros(CH2_BUFFER_SIZE - n - 6);
    WrapTwo(ch1, ch2);
    assert |l| == |w|;
    forall i | 0 <= i < |l|
      ensures l[i] == w[i]
    {
      if i < 3 {
      } else if i < n1 + 3 {
      } else if i < n + 3 {
      } else if i < n + 6 {
      }
    }
  }

  /** `dst[at..at + |src|] := src` (Rust's `copy_from_slice` on a sub-slice). */
  method CopyFromSlice(dst: array<u8>, at: nat, src: seq<u8>)
    requires at + |src| <= dst.Length
    modifies dst
    ensures dst[..] == Splice(old(dst[..]), at, src)
  {
    var i := 0;
    while i < |src|
      invariant 0 <= i <= |src|
      invariant forall k :: 0 <= k < dst.Length ==>
                  dst[k] == if at <= k < at + i then src[k - at] else old(dst[k])
    {
      dst[at + i] := src[i];
      i := i + 1;
    }
  }

  /**
   * `ch.encode_utf8(&mut dst[at..at + n])`: writes the UTF-8 bytes of `ch` at
   * `at` and returns their number.
   */
  method EncodeUtf8Into(dst: array<u8>, at: nat, ch: char) returns (n: nat)
    requires at + LenUtf8(ch) <= dst.Length
    modifies dst
    ensures n == LenUtf8(ch)
    ensures dst[..] == Splice(old(dst[..]), at, Encode(ch))
  {
    var bytes := Encode(ch);
    CopyFromSlice(dst, at, bytes);
    n := |bytes|;
  }

  /**
   * The buffer of `commit_ch`: a zeroed 12-byte array holding the start
   * escape, the UTF-8 bytes of `ch` and the end escape; `len` is the number
   * of bytes handed to the commit call.
   */
  method FillCh(ch: char) returns (b: array<u8>, len: nat)
    ensures fresh(b)
    ensures b.Length == CH_BUFFER_SIZE
    ensures len == LenUtf8(ch) + 6 && len <= b.Length
    ensures b[..len] == Wrap([ch]) == UTF8_START + Encode(ch) + UTF8_END
    ensures forall i :: len <= i < b.Length ==> b[i] == 0
  {
    b := new u8[CH_BUFFER_SIZE](_ => 0);
    assert b[..] == Zeros(CH_BUFFER_SIZE);
    CopyFromSlice(b, 0, UTF8_START);
    var n := EncodeUtf8Into(b, 3, ch);
    CopyFromSlice(b, n + 3, UTF8_END);
    len := n + 6;
    OneCharLayout(ch);
    WrapOne(ch);
    assert b[..len] == b[..][..len];
  }

  /**
   * The buffer of `commit_ch2`: a zeroed 16-byte array holding the start
   * escape, the UTF-8 bytes of `ch1` right after it, those of `ch2` right
   * before the end escape, and the end escape.
   */
  method FillCh2(ch1: char, ch2: char) returns (b: array<u8>, len: nat)
    ensures fresh(b)
    ensures b.Length == CH2_BUFFER_SIZE
    ensures len == LenUtf8(ch1) + LenUtf8(ch2) + 6 && len <= b.Length
    ensures b[..len] == Wrap([ch1, ch2]) == UTF8_START + Encode(ch1) + Encode(ch2) + UTF8_END
    ensures forall i :: len <= i < b.Length ==> b[i] == 0
  {
    var len1 := LenUtf8(ch1);
    var n := len1 + LenUtf8(ch2);
    b := new u8[CH2_BUFFER_SIZE](_ => 0);
    assert b[..] == Zeros(CH2_BUFFER_SIZE);
    CopyFromSlice(b, 0, UTF8_START);
    var n1 := EncodeUtf8Into(b, 3, ch1);
    var n2 := EncodeUtf8Into(b, len1 + 3, ch2);
    CopyFromSlice(b, n + 3, UTF8_END);
    len := n + 6;
    TwoCharLayout(ch1, ch2);
    WrapTwo(ch1, ch2);
    assert b[..len] == b[..][..len];
  }
}
