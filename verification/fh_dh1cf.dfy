/**
 * Channel selection of the Wi-SUN frequency-hopping MAC
 * (wisunfan_mac/fh/fh_dh1cf.c): the DH1CF unicast and broadcast channel
 * functions, which reduce a hash of the slot number and an address to a
 * channel index, and the mapping of such an index onto the channel plan
 * through the excluded-channel bitmap.
 *
 * The hash (`FHDH1CF_hashword`, Bob Jenkins' lookup3 word hash) is a
 * parameter of the model; reading the FH PIB and the MAC PIB becomes
 * parameters as well, and the `FH_DH1CF` build switch is the flag `dh1cf`.
 */
module FhDh1cf {
  import Arith
  import opened Bytes

  const U32: nat := 0x1_0000_0000
  /** Channel function "fixed single channel" of the Wi-SUN FAN channel
      plan IEs. */
  const FHIE_CF_SINGLE_CHANNEL: nat := 0

  /** The word hash: three 32-bit words in, a number out (the model keeps
      only its low 32 bits, as the C return type does). */
  type Hash = seq<nat> -> nat

  predicate IsByte(b: nat) { b < 0x100 }

  /** An 8-byte extended (EUI-64) address. */
  predicate IsExtAddr(a: seq<nat>)
  {
    |a| == 8 && forall i :: 0 <= i < 8 ==> IsByte(a[i])
  }

  /** Four bytes, most significant first, as one 32-bit word. */
  function BigEndian32(b0: nat, b1: nat, b2: nat, b3: nat): (w: nat)
    requires IsByte(b0) && IsByte(b1) && IsByte(b2) && IsByte(b3)
    ensures w < U32
  {
    b0 * 0x100_0000 + b1 * 0x1_0000 + b2 * 0x100 + b3
  }

  /** The four bytes can be read back from the word. */
  lemma BigEndian32Bytes(b0: nat, b1: nat, b2: nat, b3: nat)
    requires IsByte(b0) && IsByte(b1) && IsByte(b2) && IsByte(b3)
    ensures var w := BigEndian32(b0, b1, b2, b3);
      w / 0x100_0000 == b0 && w / 0x1_0000 % 0x100 == b1
      && w / 0x100 % 0x100 == b2 && w % 0x100 == b3
  {
    var w := BigEndian32(b0, b1, b2, b3);
    Arith.DivModUnique(b0, b1 * 0x1_0000 + b2 * 0x100 + b3, 0x100_0000);
    Arith.DivModUnique(b0 * 0x100 + b1, b2 * 0x100 + b3, 0x1_0000);
    Arith.DivModUnique(b0, b1, 0x100);
    Arith.DivModUnique(b0 * 0x1_0000 + b1 * 0x100 + b2, b3, 0x100);
    Arith.DivModUnique(b0 * 0x100 + b1, b2, 0x100);
  }

  /** The three words `FHDH1CF_getCh` hashes: the slot, then address
      bytes 4..7 and 0..3, each big-endian. */
  function UnicastHashInput(slot: nat, addr: seq<nat>): (x: seq<nat>)
    requires IsExtAddr(addr)
    ensures |x| == 3 && x[0] == slot
  {
    [slot,
     BigEndian32(addr[4], addr[5], addr[6], addr[7]),
     BigEndian32(addr[0], addr[1], addr[2], addr[3])]
  }

  /** No two (slot, address) pairs share a hash input: the hash sees the
      whole address. */
  lemma UnicastHashInputInjective(s1: nat, a1: seq<nat>, s2: nat, a2: seq<nat>)
    requires IsExtAddr(a1) && IsExtAddr(a2)
    requires UnicastHashInput(s1, a1) == UnicastHashInput(s2, a2)
    ensures s1 == s2 && a1 == a2
  {
    var x1, x2 := UnicastHashInput(s1, a1), UnicastHashInput(s2, a2);
    assert x1[1] == x2[1] && x1[2] == x2[2];
    BigEndian32Injective(a1[4], a1[5], a1[6], a1[7], a2[4], a2[5], a2[6], a2[7]);
    BigEndian32Injective(a1[0], a1[1], a1[2], a1[3], a2[0], a2[1], a2[2], a2[3]);
    assert a1 == a2 by {
      forall i | 0 <= i < 8 ensures a1[i] == a2[i] {
      }
    }
  }

  /** Two words built from bytes are equal only when the bytes are. */
  lemma BigEndian32Injective(b0: nat, b1: nat, b2: nat, b3: nat, c0: nat, c1: nat, c2: nat, c3: nat)
    requires IsByte(b0) && IsByte(b1) && IsByte(b2) && IsByte(b3)
    requires IsByte(c0) && IsByte(c1) && IsByte(c2) && IsByte(c3)
    requires BigEndian32(b0, b1, b2, b3) == BigEndian32(c0, c1, c2, c3)
    ensures b0 == c0 && b1 == c1 && b2 == c2 && b3 == c3
  {
    BigEndian32Bytes(b0, b1, b2, b3);
    BigEndian32Bytes(c0, c1, c2, c3);
  }


  /**
   * `FHDH1CF_getCh`: the unicast channel index of a slot for a node. The
   * 32-bit hash is reduced modulo the channel count and stored in a byte.
   * The source divides by `numChannels`, so it must not be zero.
   */
  function GetCh(hash: Hash, slot: nat, addr: seq<nat>, numChannels: nat): (ch: nat)
    requires slot < 0x1_0000 && IsExtAddr(addr)
    requires 0 < numChannels < 0x1_0000
    ensures ch < numChannels && IsByte(ch)
    ensures numChannels <= 0x100 ==> ch == hash(UnicastHashInput(slot, addr)) % U32 % numChannels
  {
    hash(UnicastHashInput(slot, addr)) % U32 % numChannels % 0x100
  }

  /** The three words `FHDH1CF_getBcCh` hashes: the slot, the broadcast
      schedule identifier in the upper half of a word, and zero. */
  function BroadcastHashInput(slot: nat, bsi: nat): (x: seq<nat>)
    requires slot < U32 && bsi < 0x1_0000
    ensures |x| == 3 && x[0] == slot && x[1] / 0x1_0000 == bsi && x[1] % 0x1_0000 == 0 && x[2] == 0
  {
    [slot, bsi * 0x1_0000, 0]
  }

  /** `FHDH1CF_getBcCh`: the broadcast channel index of a slot. */
  function GetBcCh(hash: Hash, slot: nat, bsi: nat, numChannels: nat): (ch: nat)
    requires slot < U32 && bsi < 0x1_0000
    requires 0 < numChannels < 0x1_0000
    ensures ch < numChannels && IsByte(ch)
    ensures numChannels <= 0x100 ==> ch == hash(BroadcastHashInput(slot, bsi)) % U32 % numChannels
  {
    hash(BroadcastHashInput(slot, bsi)) % U32 % numChannels % 0x100
  }

  // ---------------------------------------------------------------------
  // The excluded-channel bitmap
  // ---------------------------------------------------------------------

  /** A set bit of the bitmap (`Bits`) marks an excluded channel; this
      counts the channels of `bits` that are not excluded. */
  function Zeros(bits: seq<nat>): (n: nat)
    ensures n <= |bits|
  {
    if bits == [] then 0
    else Zeros(bits[..|bits| - 1]) + (if bits[|bits| - 1] == 0 then 1 else 0)
  }

  lemma ZerosStep(bits: seq<nat>, j: nat)
    requires j < |bits|
    ensures Zeros(bits[..j + 1]) == Zeros(bits[..j]) + (if bits[j] == 0 then 1 else 0)
  {
    assert bits[..j + 1][..j] == bits[..j];
  }

  /** Counting allowed channels is monotone in the prefix length. */
  lemma {:induction false} ZerosMonotone(bits: seq<nat>, i: nat, j: nat)
    requires i <= j <= |bits|
    ensures Zeros(bits[..i]) <= Zeros(bits[..j])
    decreases j - i
  {
    if i < j {
      ZerosStep(bits, j - 1);
      ZerosMonotone(bits, i, j - 1);
    }
  }

  /**
   * At most one allowed channel is preceded by exactly `c` allowed
   * channels: the channel `FHDH1CF_mapChIdxChannel` reports for an index
   * is the only possible answer.
   */
  lemma ChannelOfIndexUnique(bits: seq<nat>, j1: nat, j2: nat)
    requires j1 < |bits| && j2 < |bits| && bits[j1] == 0 && bits[j2] == 0
    requires Zeros(bits[..j1]) == Zeros(bits[..j2])
    ensures j1 == j2
  {
    if j1 < j2 {
      ZerosStep(bits, j1);
      ZerosMonotone(bits, j1 + 1, j2);
    } else if j2 < j1 {
      ZerosStep(bits, j2);
      ZerosMonotone(bits, j2 + 1, j1);
    }
  }

  /**
   * What `FHDH1CF_mapChIdxChannel` reports: when `found`, `chCnt` is the
   * channel whose bit is clear and which has exactly `chIdx` clear bits
   * before it, within the bytes the walk reads (it reads whole bytes
   * while fewer than `nChannels` bits were passed). When not found (the
   * source then raises its assertion), no such channel exists there and
   * `chCnt` is the number of bits read.
   */
  predicate MapsTo(bitmap: seq<nat>, chIdx: nat, nChannels: nat, chCnt: nat, found: bool)
    requires 8 * |bitmap| >= nChannels
  {
    var bits := Bits(bitmap);
    (found ==> chCnt < |bits| && chCnt - chCnt % 8 < nChannels
               && bits[chCnt] == 0 && Zeros(bits[..chCnt]) == chIdx)
    && (!found ==> chCnt % 8 == 0 && nChannels <= chCnt < nChannels + 8 && chCnt <= |bits|
                   && Zeros(bits[..chCnt]) <= chIdx)
  }

  /** When the first `nChannels` bits hold more than `chIdx` allowed
      channels, the mapping finds a channel among them. */
  lemma MapsToInRange(bitmap: seq<nat>, chIdx: nat, nChannels: nat, chCnt: nat, found: bool)
    requires 8 * |bitmap| >= nChannels
    requires MapsTo(bitmap, chIdx, nChannels, chCnt, found)
    requires Zeros(Bits(bitmap)[..nChannels]) > chIdx
    ensures found && chCnt < nChannels
  {
    var bits := Bits(bitmap);
    if !found {
      ZerosMonotone(bits, nChannels, chCnt);
    } else if chCnt >= nChannels {
      ZerosStep(bits, chCnt);
      ZerosMonotone(bits, nChannels, chCnt);
    }
  }

  /**
   * The inner loop of `FHDH1CF_mapChIdxChannel` over byte `k` of the
   * bitmap, entered with `channel` clear bits counted before it: it stops
   * at the clear bit that makes the count `chIdx + 1`, or after the eighth
   * bit.
   */
  method ScanByte(chIdx: nat, bitmap: seq<nat>, k: nat, channel0: nat)
    returns (channel: nat, chCnt: nat, found: bool)
    requires k < |bitmap|
    requires channel0 == Zeros(Bits(bitmap)[..8 * k]) && channel0 <= chIdx
    ensures var bits := Bits(bitmap);
      (found ==> 8 * k <= chCnt < 8 * k + 8 && bits[chCnt] == 0 && Zeros(bits[..chCnt]) == chIdx)
      && (!found ==> chCnt == 8 * k + 8 && channel == Zeros(bits[..chCnt]) && channel <= chIdx)
    ensures found ==> chCnt % 8 == chCnt - 8 * k
    ensures !found ==> chCnt % 8 == 0
  {
    var temp := bitmap[k];
    channel, chCnt, found := channel0, 8 * k, false;
    var i := 0;
    while i < 8
      invariant i <= 8 && !found
      invariant Scanning(bitmap, k, i, temp, chCnt, channel, chIdx)
      decreases 8 - i
    {
      ByteScanStep(bitmap, k, i, temp, chCnt, channel, chIdx);
      channel := channel + (1 - temp % 2);
      temp := temp / 2;
      if chIdx == channel - 1 {
        found := true;
        ByteOffset(chCnt, k, i);
        return;
      }
      chCnt := chCnt + 1;
      i := i + 1;
    }
    ByteOffset(chCnt, k + 1, 0);
  }

  /** The state of `ScanByte` before it tests bit `i` of byte `k`. */
  ghost predicate Scanning(bitmap: seq<nat>, k: nat, i: nat, temp: nat, chCnt: nat, channel: nat, chIdx: nat)
  {
    k < |bitmap| && i <= 8 && chCnt == 8 * k + i
    && ByteBits(temp, 8 - i) == ByteBits(bitmap[k], 8)[i..]
    && channel == Zeros(Bits(bitmap)[..chCnt]) && channel <= chIdx
  }

  /** Bit `i` of byte `k` sits `i` bits into its byte. */
  lemma ByteOffset(c: nat, k: nat, i: nat)
    requires i < 8 && c == 8 * k + i
    ensures c % 8 == i
  {
    Arith.DivModUnique(k, i, 8);
    assert k * 8 == 8 * k;
  }

  /** The bit `ScanByte` tests at step `i` is bit `8 * k + i` of the
      bitmap, and shifting it out leaves the rest of the byte. */
  lemma BitScanStep(bitmap: seq<nat>, bits: seq<nat>, k: nat, i: nat, temp: nat)
    requires k < |bitmap| && i < 8 && bits == Bits(bitmap)
    requires ByteBits(temp, 8 - i) == ByteBits(bitmap[k], 8)[i..]
    ensures 8 * k + i < |bits| && bits[8 * k + i] == temp % 2 && temp % 2 < 2
    ensures ByteBits(temp / 2, 8 - (i + 1)) == ByteBits(bitmap[k], 8)[i + 1..]
  {
    BitsAt(bitmap, k, i);
    var rest := ByteBits(bitmap[k], 8)[i..];
    assert rest == [temp % 2] + ByteBits(temp / 2, 8 - (i + 1));
    assert rest[1..] == ByteBits(bitmap[k], 8)[i + 1..];
  }

  /** One step of `ScanByte`: the count of clear bits grows when the bit read
      is clear, and the step that reaches `chIdx + 1` is at a clear bit with
      exactly `chIdx` clear bits before it; any other step leaves the scan
      in its next state. */
  lemma ByteScanStep(bitmap: seq<nat>, k: nat, i: nat, temp: nat, chCnt: nat, channel: nat, chIdx: nat)
    requires i < 8 && Scanning(bitmap, k, i, temp, chCnt, channel, chIdx)
    ensures var next := channel + (1 - temp % 2);
      (chIdx == next - 1 ==> chCnt < |Bits(bitmap)| && Bits(bitmap)[chCnt] == 0
                             && Zeros(Bits(bitmap)[..chCnt]) == chIdx)
      && (chIdx != next - 1 ==> Scanning(bitmap, k, i + 1, temp / 2, chCnt + 1, next, chIdx))
  {
    var bits := Bits(bitmap);
    BitScanStep(bitmap, bits, k, i, temp);
    ZerosStep(bits, chCnt);
  }

  /**
   * `FHDH1CF_mapChIdxChannel`: walk the excluded-channel bitmap a byte at
   * a time, counting clear bits, until the `chIdx + 1`-th clear bit; the
   * result is that bit's position. The bitmap must cover `nChannels` bits.
   */
  method MapChIdxChannel(chIdx: nat, bitmap: seq<nat>, nChannels: nat) returns (chCnt: nat, found: bool)
    requires IsByte(chIdx) && IsByte(nChannels)
    requires 8 * |bitmap| >= nChannels
    ensures MapsTo(bitmap, chIdx, nChannels, chCnt, found)
  {
    ghost var bits := Bits(bitmap);
    var channel: nat := 0;
    chCnt, found := 0, false;
    var k := 0;
    while chCnt < nChannels && !found
      invariant !found ==> chCnt == 8 * k && k <= |bitmap| && chCnt < nChannels + 8
      invariant !found ==> channel == Zeros(bits[..chCnt]) && channel <= chIdx
      invariant found ==> chCnt < |bits| && chCnt - chCnt % 8 < nChannels
                          && bits[chCnt] == 0 && Zeros(bits[..chCnt]) == chIdx
      decreases if found then 0 else 1, nChannels - chCnt
    {
      channel, chCnt, found := ScanByte(chIdx, bitmap, k, channel);
      k := k + 1;
    }
  }

  // ---------------------------------------------------------------------
  // The channel of a slot
  // ---------------------------------------------------------------------

  /** The broadcast schedule as read from the FH PIB. */
  datatype BcSchedule = BcSchedule(chFunc: nat, fixedChannel: nat, bcSchedId: nat, excluded: seq<nat>)

  /** The channel index of a broadcast slot before exclusion mapping: the
      DH1CF hash, or without it the slot modulo the channel count. */
  function BcChannelIndex(hash: Hash, dh1cf: bool, slotIdx: nat, bcSchedId: nat, numChannels: nat): (idx: nat)
    requires slotIdx < 0x1_0000 && bcSchedId < 0x1_0000 && 0 < numChannels && IsByte(numChannels)
    ensures idx < numChannels
    ensures !dh1cf ==> idx == slotIdx % numChannels
  {
    if dh1cf then GetBcCh(hash, slotIdx, bcSchedId, numChannels) else slotIdx % numChannels
  }

  /**
   * `FHDH1CF_getBCChannelNum`: a single-channel broadcast schedule uses
   * its fixed channel (returned in a byte); otherwise the slot's channel
   * index is mapped through the broadcast excluded-channel bitmap over
   * `maxChannels` channels.
   */
  method GetBcChannelNum(hash: Hash, dh1cf: bool, slotIdx: nat, numChannels: nat, sched: BcSchedule, maxChannels: nat)
    returns (channel: nat, found: bool)
    requires slotIdx < 0x1_0000 && IsByte(numChannels) && IsByte(maxChannels)
    requires sched.fixedChannel < 0x1_0000 && sched.bcSchedId < 0x1_0000
    requires sched.chFunc != FHIE_CF_SINGLE_CHANNEL ==> 0 < numChannels && 8 * |sched.excluded| >= maxChannels
    ensures sched.chFunc == FHIE_CF_SINGLE_CHANNEL ==> found && channel == sched.fixedChannel % 0x100
    ensures sched.chFunc != FHIE_CF_SINGLE_CHANNEL ==>
      MapsTo(sched.excluded, BcChannelIndex(hash, dh1cf, slotIdx, sched.bcSchedId, numChannels), maxChannels, channel, found)
  {
    if sched.chFunc == FHIE_CF_SINGLE_CHANNEL {
      return sched.fixedChannel % 0x100, true;
    }
    var idx := BcChannelIndex(hash, dh1cf, slotIdx, sched.bcSchedId, numChannels);
    channel, found := MapChIdxChannel(idx, sched.excluded, maxChannels);
  }

  /** The channel index of a unicast slot before exclusion mapping. */
  function UcChannelIndex(hash: Hash, dh1cf: bool, slotIdx: nat, extAddr: seq<nat>, numChannels: nat): (idx: nat)
    requires slotIdx < 0x1_0000 && IsExtAddr(extAddr) && 0 < numChannels && IsByte(numChannels)
    ensures idx < numChannels
    ensures !dh1cf ==> idx == slotIdx % numChannels
  {
    if dh1cf then GetCh(hash, slotIdx, extAddr, numChannels) else slotIdx % numChannels
  }

  /** `FHDH1CF_getChannelNum`: the node's own channel in its current
      unicast slot, mapped through the unicast excluded-channel bitmap. */
  method GetChannelNum(hash: Hash, dh1cf: bool, slotIdx: nat, numChannels: nat, extAddr: seq<nat>,
                       excluded: seq<nat>, maxChannels: nat)
    returns (channel: nat, found: bool)
    requires slotIdx < 0x1_0000 && IsExtAddr(extAddr) && 0 < numChannels && IsByte(numChannels)
    requires IsByte(maxChannels) && 8 * |excluded| >= maxChannels
    ensures MapsTo(excluded, UcChannelIndex(hash, dh1cf, slotIdx, extAddr, numChannels), maxChannels, channel, found)
  {
    var idx := UcChannelIndex(hash, dh1cf, slotIdx, extAddr, numChannels);
    channel, found := MapChIdxChannel(idx, excluded, maxChannels);
  }
}
