/**
 * The NPI receive ring buffer (npi/src/npi_rxbuf.c): bytes arrive from the
 * transport layer at `tail` and are consumed at `head`; both indices wrap
 * at the buffer size `NPI_TL_BUF_SIZE`.
 */
module NpiRxBuf {
  import Arith

  /** `NPI_TL_BUF_SIZE` for the CC26X2/CC13X2 builds and for the others. */
  const NPI_TL_BUF_SIZE_CC26X2: nat := 1680
  const NPI_TL_BUF_SIZE_DEFAULT: nat := 330

  /** The `n` bytes of ring `s` starting at `start`, wrapping at the end. */
  function Ring(s: seq<bv8>, start: nat, n: nat): seq<bv8>
    requires 0 < |s| && start < |s| && n <= |s|
  {
    seq(n, k requires 0 <= k < n => s[if start + k < |s| then start + k else start + k - |s|])
  }

  /** Ring `s` with the bytes of `d` written from position `start` on,
      wrapping at the end; the other positions keep their bytes. */
  function Written(s: seq<bv8>, start: nat, d: seq<bv8>): seq<bv8>
    requires 0 < |s| && start < |s| && |d| <= |s|
  {
    seq(|s|, i requires 0 <= i < |s| =>
      var k := if i >= start then i - start else i + |s| - start;
      if k < |d| then d[k] else s[i])
  }

  /** Bytes written at `start` are read back, in order, from `start`. */
  lemma ReadBackWritten(s: seq<bv8>, start: nat, d: seq<bv8>)
    requires 0 < |s| && start < |s| && |d| <= |s|
    ensures Ring(Written(s, start, d), start, |d|) == d
  {
  }

  /** Writing leaves every position outside the `|d|` written ones alone. */
  lemma WrittenElsewhere(s: seq<bv8>, start: nat, d: seq<bv8>, i: nat)
    requires 0 < |s| && start < |s| && |d| <= |s| && i < |s|
    requires (if i >= start then i - start else i + |s| - start) >= |d|
    ensures Written(s, start, d)[i] == s[i]
  {
  }

  /** The number of unread bytes as `NPIRxBuf_GetRxBufCount` computes it:
      the forward distance from `head` to `tail` around the ring. */
  function CountOf(head: nat, tail: nat, size: nat): (r: nat)
    requires head < size && tail < size
    ensures r < size
    ensures r == if head <= tail then tail - head else tail + size - head
  {
    Arith.ModSmall((tail - head) + size, size);
    ((tail - head) + size) % size
  }

  /** Index `i` moved `len` places forward around a ring of `size`. */
  function Advance(i: nat, len: nat, size: nat): (r: nat)
    requires i < size && len <= size
    ensures r < size
    ensures r == if i + len < size then i + len else i + len - size
  {
    Arith.ModSmall(i + len, size);
    (i + len) % size
  }

  /** Advancing `tail` by `len` adds `len` to the count, as long as the ring
      does not fill up; advancing `head` by at most the count removes that
      many. */
  lemma CountAfterTail(head: nat, tail: nat, size: nat, len: nat)
    requires head < size && tail < size && CountOf(head, tail, size) + len < size
    ensures CountOf(head, Advance(tail, len, size), size) == CountOf(head, tail, size) + len
  {
  }

  lemma CountAfterHead(head: nat, tail: nat, size: nat, len: nat)
    requires head < size && tail < size && len <= CountOf(head, tail, size)
    ensures CountOf(Advance(head, len, size), tail, size) == CountOf(head, tail, size) - len
  {
  }

  class RxBuf {
    var buf: array<bv8>
    var head: nat
    var tail: nat

    ghost predicate Valid()
      reads this
    {
      0 < buf.Length <= 0xFFFF && head < buf.Length && tail < buf.Length
    }

    /** The statically initialised buffer: both indices 0. */
    constructor (size: nat)
      requires 0 < size <= 0xFFFF
      ensures Valid() && fresh(buf) && buf.Length == size
      ensures head == 0 && tail == 0
    {
      buf := new bv8[size];
      head, tail := 0, 0;
    }

    /** `NPIRxBuf_GetRxBufCount`. */
    function Count(): (r: nat)
      reads this
      requires Valid()
      ensures r < buf.Length
    {
      CountOf(head, tail, buf.Length)
    }

    /** `NPIRxBuf_GetRxBufAvail`: never 0, and with the count it adds up to
        the buffer size. */
    function Avail(): (r: nat)
      reads this
      requires Valid()
      ensures 0 < r <= buf.Length && r + Count() == buf.Length
    {
      buf.Length - Count()
    }

    /**
     * `NPIRxBuf_Read`: the transport layer delivers `incoming` (`len` bytes),
     * stored from `tail` on; when they do not fit before the end of the array
     * the transfer is split and continues at index 0. Returns `len`.
     */
    method Read(incoming: seq<bv8>) returns (n: nat)
      requires Valid() && |incoming| <= buf.Length
      modifies this`tail, buf
      ensures Valid() && head == old(head)
      ensures n == |incoming|
      ensures tail == Advance(old(tail), |incoming|, buf.Length)
      ensures buf[..] == Written(old(buf[..]), old(tail), incoming)
      ensures old(Count()) + |incoming| < buf.Length ==> Count() == old(Count()) + |incoming|
    {
      ghost var before, start := buf[..], tail;
      var len := |incoming|;
      var partialLen := 0;
      if len + tail > buf.Length {
        partialLen := buf.Length - tail;
        forall k | tail <= k < buf.Length {
          buf[k] := incoming[k - tail];
        }
        len := len - partialLen;
        tail := 0;
      }
      forall k | tail <= k < tail + len {
        buf[k] := incoming[partialLen + k - tail];
      }
      ghost var w := Written(before, start, incoming);
      forall i | 0 <= i < buf.Length
        ensures buf[i] == w[i]
      {
      }
      assert buf[..] == w;
      Arith.ModSmall(tail + len, buf.Length);
      tail := (tail + len) % buf.Length;
      n := len + partialLen;
      if CountOf(head, old(tail), buf.Length) + |incoming| < buf.Length {
        CountAfterTail(head, old(tail), buf.Length, |incoming|);
      }
    }

    /**
     * `NPIRxBuf_ReadFromRxBuf`: copies `len` bytes starting at `head` into
     * `out`, wrapping at the end of the ring, and advances `head` by `len`.
     */
    method ReadFromRxBuf(out: array<bv8>, len: nat) returns (n: nat)
      requires Valid() && len <= out.Length && len <= buf.Length && out != buf
      modifies this`head, out
      ensures Valid() && tail == old(tail)
      ensures n == len
      ensures out[..len] == Ring(buf[..], old(head), len)
      ensures out[len..] == old(out[len..])
      ensures head == Advance(old(head), len, buf.Length)
      ensures len <= old(Count()) ==> Count() == old(Count()) - len
    {
      var idx := 0;
      while idx < len
        invariant idx <= len && head < buf.Length
        invariant head == Advance(old(head), idx, buf.Length)
        invariant forall k :: 0 <= k < idx ==> out[k] == Ring(buf[..], old(head), len)[k]
        invariant forall k :: idx <= k < out.Length ==> out[k] == old(out[k])
      {
        out[idx] := buf[head];
        Arith.ModSmall(head + 1, buf.Length);
        head := (head + 1) % buf.Length;
        idx := idx + 1;
      }
      n := len;
      if len <= CountOf(old(head), tail, buf.Length) {
        CountAfterHead(old(head), tail, buf.Length, len);
      }
    }
  }
}
