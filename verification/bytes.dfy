/** Little-endian byte layouts of 16- and 32-bit words, the way the C
    sources split words into `uint8_t` buffers and build them back. */
module Bytes {

  predicate IsBytes(s: seq<nat>)
  {
    forall i :: 0 <= i < |s| ==> s[i] < 0x100
  }

  /** Byte strings stay byte strings when joined. */
  lemma BytesConcat(a: seq<nat>, b: seq<nat>)
    requires IsBytes(a) && IsBytes(b)
    ensures IsBytes(a + b)
  {
    forall i | 0 <= i < |a + b| ensures (a + b)[i] < 0x100 {
      if i >= |a| {
        assert (a + b)[i] == b[i - |a|];
      }
    }
  }

  /** The two bytes of a 16-bit word, low byte first. */
  function Le16(v: nat): (s: seq<nat>)
    requires v < 0x1_0000
    ensures |s| == 2 && IsBytes(s)
  {
    [v % 0x100, v / 0x100]
  }

  /** The 16-bit word at `s[i..i+2]`, low byte first. */
  function ReadLe16(s: seq<nat>, i: nat): nat
    requires i + 2 <= |s|
  {
    s[i] + 0x100 * s[i + 1]
  }

  lemma Le16RoundTrip(v: nat)
    requires v < 0x1_0000
    ensures ReadLe16(Le16(v), 0) == v
  {
  }

  /** The four bytes of a 32-bit word, low byte first. */
  function Le32(w: nat): (s: seq<nat>)
    requires w < 0x1_0000_0000
    ensures |s| == 4 && IsBytes(s)
  {
    var w1 := w / 0x100;
    var w2 := w1 / 0x100;
    [w % 0x100, w1 % 0x100, w2 % 0x100, w2 / 0x100]
  }

  /** The 32-bit word at `s[i..i+4]`, low byte first. */
  function ReadLe32(s: seq<nat>, i: nat): nat
    requires i + 4 <= |s|
  {
    s[i] + 0x100 * s[i + 1] + 0x1_0000 * s[i + 2] + 0x100_0000 * s[i + 3]
  }

  lemma Le32RoundTrip(w: nat)
    requires w < 0x1_0000_0000
    ensures ReadLe32(Le32(w), 0) == w
  {
    var w1 := w / 0x100;
    var w2 := w1 / 0x100;
    assert w == w % 0x100 + 0x100 * w1;
    assert w1 == w1 % 0x100 + 0x100 * w2;
    assert w2 == w2 % 0x100 + 0x100 * (w2 / 0x100);
  }

  /** Reading a word back from inside a longer buffer. */
  lemma ReadLe16At(s: seq<nat>, i: nat, v: nat)
    requires v < 0x1_0000 && i + 2 <= |s| && s[i..i + 2] == Le16(v)
    ensures ReadLe16(s, i) == v
  {
    assert s[i] == s[i..i + 2][0] && s[i + 1] == s[i..i + 2][1];
  }

  lemma ReadLe32At(s: seq<nat>, i: nat, w: nat)
    requires w < 0x1_0000_0000 && i + 4 <= |s| && s[i..i + 4] == Le32(w)
    ensures ReadLe32(s, i) == w
  {
    assert s[i] == s[i..i + 4][0] && s[i + 1] == s[i..i + 4][1];
    assert s[i + 2] == s[i..i + 4][2] && s[i + 3] == s[i..i + 4][3];
  }

  /** The low `n` bits of `b`, least significant first. */
  function ByteBits(b: nat, n: nat): (bits: seq<nat>)
    ensures |bits| == n && forall i :: 0 <= i < n ==> bits[i] < 2
  {
    if n == 0 then [] else [b % 2] + ByteBits(b / 2, n - 1)
  }

  /** The bitmap as one bit string: byte 0 first, each byte least
      significant bit first, as the channel bitmaps are laid out. */
  function Bits(bitmap: seq<nat>): (bits: seq<nat>)
    ensures |bits| == 8 * |bitmap|
  {
    if bitmap == [] then [] else ByteBits(bitmap[0], 8) + Bits(bitmap[1..])
  }

  lemma {:induction false} BitsAt(bitmap: seq<nat>, k: nat, i: nat)
    requires k < |bitmap| && i < 8
    ensures Bits(bitmap)[8 * k + i] == ByteBits(bitmap[k], 8)[i]
  {
    if k > 0 {
      BitsAt(bitmap[1..], k - 1, i);
    }
  }
}
