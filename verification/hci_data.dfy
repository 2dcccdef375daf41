/**
 * `HCI_ReverseBytes` of the BLE host controller interface: reverses the
 * first `len` bytes of a buffer in place (hci/cc26xx/hci_data.c).
 */
module HciData {
  import Arith

  /** The reference definition: the sequence read back to front. */
  function Reversed(s: seq<bv8>): (r: seq<bv8>)
    ensures |r| == |s|
  {
    if s == [] then [] else Reversed(s[1..]) + [s[0]]
  }

  /** Position `k` of the reversed sequence holds position `|s| - 1 - k`. */
  lemma {:induction false} ReversedAt(s: seq<bv8>, k: nat)
    requires k < |s|
    ensures Reversed(s)[k] == s[|s| - 1 - k]
  {
    if k < |s| - 1 {
      ReversedAt(s[1..], k);
    }
  }

  /** Reversing twice gives back the original bytes. */
  lemma {:induction false} ReversedTwice(s: seq<bv8>)
    ensures Reversed(Reversed(s)) == s
  {
    forall k | 0 <= k < |s|
      ensures Reversed(Reversed(s))[k] == s[k]
    {
      ReversedAt(Reversed(s), k);
      ReversedAt(s, |s| - 1 - k);
    }
  }

  /** The middle byte `s[m]` of an odd-length buffer of length `2m + 1`
      stays where it is. */
  lemma MiddleFixed(s: seq<bv8>, m: nat)
    requires |s| == 2 * m + 1
    ensures Reversed(s)[m] == s[m]
  {
    ReversedAt(s, m);
  }

  /** What position `k` holds once the first `i` swaps of the first `len`
      bytes of `all` are done. */
  ghost function SwappedAt(all: seq<bv8>, len: nat, i: nat, k: nat): bv8
    requires len <= |all| && k < |all|
  {
    if k < len && (k < i || len - i <= k) then all[len - 1 - k] else all[k]
  }

  /** Once all `half` swaps are done the first `len` bytes are reversed and
      the rest untouched. */
  lemma SwapDone(all: seq<bv8>, len: nat, half: nat, now: seq<bv8>)
    requires len <= |all| == |now| && half * 2 <= len < half * 2 + 2
    requires forall k :: 0 <= k < |now| ==> now[k] == SwappedAt(all, len, half, k)
    ensures now[..len] == Reversed(all[..len])
    ensures now[len..] == all[len..]
  {
    ghost var was := all[..len];
    forall k | 0 <= k < len
      ensures now[..len][k] == Reversed(was)[k]
    {
      ReversedAt(was, k);
    }
  }

  /**
   * The in-place swap loop. `len` is a `uint8`; `index` is `len - 1`
   * truncated to 8 bits (255 when `len` is 0, but then no swap runs).
   */
  method ReverseBytes(buf: array<bv8>, len: nat)
    requires len <= 0xFF && len <= buf.Length
    modifies buf
    ensures buf[..len] == Reversed(old(buf[..len]))
    ensures buf[len..] == old(buf[len..])
  {
    ghost var all := buf[..];
    var index: nat := (len + 0xFF) % 0x100;
    if len > 0 {
      Arith.ModSmall(len + 0xFF, 0x100);
    }
    var half := len / 2;
    Arith.DivBounds(len, 2);
    var i := 0;
    while i < half
      invariant 0 <= i <= half
      invariant forall k :: 0 <= k < buf.Length ==> buf[k] == SwappedAt(all, len, i, k)
    {
      var temp := buf[i];
      buf[i] := buf[index - i];
      buf[index - i] := temp;
      i := i + 1;
    }
    SwapDone(all, len, half, buf[..]);
  }
}
