/** The MAC's use of the radio timer (RAT): splitting a RAT time stamp into
    whole symbol periods and leftover ticks, rounding division, and
    programming the symbol-timer compares with a guard against compares
    that are too close or just past. The RAT counter reading and the
    ratio of RAT ticks to symbols are parameters. */
module MacMcu {
  import opened Bits
  import Arith

  const U32: nat := 0x1_0000_0000
  const U64: nat := 0x1_0000_0000_0000_0000

  /** `a - b` on two 32-bit unsigned values. */
  function Sub32(a: nat, b: nat): (r: nat)
    requires a < U32 && b < U32
    ensures r < U32
    ensures r == (a - b) % U32
  {
    if a >= b then
      Arith.DivModUnique(0, a - b, U32);
      a - b
    else
      Arith.DivModUnique(-1, a - b + U32, U32);
      a - b + U32
  }

  /** macMcuTimerCapture: the RAT ticks since the start of the current
      symbol period, returned as a 16-bit value. */
  function TimerCapture(timeStamp: nat, prevPeriodRatCount: nat, ratio: nat): nat
    requires timeStamp < U32 && prevPeriodRatCount < U32 && ratio > 0
  {
    (Sub32(timeStamp, prevPeriodRatCount) % ratio) % 0x10000
  }

  /** macMcuOverflowCapture: the whole symbol periods since the previous
      period's RAT count. */
  function OverflowCapture(timeStamp: nat, prevPeriodRatCount: nat, ratio: nat): nat
    requires timeStamp < U32 && prevPeriodRatCount < U32 && ratio > 0
  {
    Sub32(timeStamp, prevPeriodRatCount) / ratio
  }

  /** The two captures split the elapsed RAT ticks (modulo 2^32) into
      symbol periods and a remainder below one period, provided a period
      fits in the 16-bit tick capture. */
  lemma CaptureSplit(timeStamp: nat, prevPeriodRatCount: nat, ratio: nat)
    requires timeStamp < U32 && prevPeriodRatCount < U32 && 0 < ratio <= 0x10000
    ensures TimerCapture(timeStamp, prevPeriodRatCount, ratio) < ratio
    ensures OverflowCapture(timeStamp, prevPeriodRatCount, ratio) * ratio +
            TimerCapture(timeStamp, prevPeriodRatCount, ratio) ==
            (timeStamp - prevPeriodRatCount) % U32
  {
    var e := Sub32(timeStamp, prevPeriodRatCount);
    Arith.DivModUnique(0, e % ratio, 0x10000);
  }

  /** macMcuLongDiv: `(dividend + (divisor >> 1)) / divisor`, the sum taken
      in 64 bits and the quotient truncated to 32 bits. */
  function LongDiv(dividend: nat, divisor: nat): (r: nat)
    requires dividend < U64 && 0 < divisor < U32
    ensures r < U32
  {
    ((dividend + divisor / 2) % U64 / divisor) % U32
  }

  /** Without overflow the quotient is the nearest whole number, halves
      rounded up: `r * divisor` is within half a divisor of the dividend. */
  lemma LongDivRounds(dividend: nat, divisor: nat)
    requires dividend < U64 && 0 < divisor < U32
    requires dividend + divisor / 2 < U64
    requires (dividend + divisor / 2) / divisor < U32
    ensures LongDiv(dividend, divisor) * divisor <= dividend + divisor / 2
    ensures dividend < LongDiv(dividend, divisor) * divisor + (divisor - divisor / 2)
  {
    LongDivNoWrap(dividend, divisor);
    Arith.DivBounds(dividend + divisor / 2, divisor);
  }

  /** Neither the 64-bit sum nor the 32-bit quotient wraps. */
  lemma LongDivNoWrap(dividend: nat, divisor: nat)
    requires dividend < U64 && 0 < divisor < U32
    requires dividend + divisor / 2 < U64
    requires (dividend + divisor / 2) / divisor < U32
    ensures LongDiv(dividend, divisor) == (dividend + divisor / 2) / divisor
  {
    var s := dividend + divisor / 2;
    Arith.ModBelow(s, U64);
    var q := s % U64 / divisor;
    assert q == s / divisor;
    Arith.ModBelow(q, U32);
  }

  /** `x & 0x80000000` is non-zero: read as a signed 32-bit value, `x` is
      negative. */
  predicate SignBit(x: nat)
  {
    Bit(x, 31)
  }

  lemma SignBitIsNegative(x: nat)
    requires x < U32
    ensures SignBit(x) <==> x >= 0x8000_0000
  {
    assert Pow2(32) == U32 && Pow2(31) == 0x8000_0000 by {
      Pow2Byte();
      assert Pow2(16) == 0x10000 by { Pow2Add(8, 8); }
      Pow2Add(16, 16);
      assert Pow2(15) == 0x8000 by { Pow2Add(8, 7); }
      Pow2Add(16, 15);
    }
    TopBit(x, 31);
  }

  /** The compare a set-compare or set-period call programs: `count` symbol
      periods after the previous period's RAT count, unless that is less
      than the lead time ahead of the RAT counter and not further behind it
      than the past window, in which case the lead time after the counter. */
  function ProgrammedCompare(prevPeriodRatCount: nat, count: nat, ratio: nat, current: nat,
                             lead: nat, pastWindow: nat): (r: nat)
    requires prevPeriodRatCount < U32 && current < U32 && lead < U32 && pastWindow < U32
    ensures r < U32
  {
    var compare := (prevPeriodRatCount + count * ratio) % U32;
    if SignBit(Sub32(Sub32(compare, current), lead)) &&
       SignBit(Sub32(Sub32(current, compare), pastWindow))
    then (current + lead) % U32
    else compare
  }

  /** The guard replaces the compare exactly when it lies less than the
      lead time ahead of the counter, or less than the past window behind
      it, distances being taken modulo 2^32. */
  lemma {:induction false} CompareReplacedIff(compare: nat, current: nat, lead: nat, pastWindow: nat)
    requires compare < U32 && current < U32
    requires 0 < lead && 0 < pastWindow && lead + pastWindow <= 0x8000_0000
    ensures (SignBit(Sub32(Sub32(compare, current), lead)) &&
             SignBit(Sub32(Sub32(current, compare), pastWindow))) <==>
            (Sub32(compare, current) < lead || Sub32(current, compare) < pastWindow)
  {
    var x := Sub32(compare, current);
    var y := Sub32(current, compare);
    assert x == 0 <==> y == 0;
    assert x != 0 ==> x + y == U32;
    var c1 := Sub32(x, lead);
    var c2 := Sub32(y, pastWindow);
    SignBitIsNegative(c1);
    SignBitIsNegative(c2);
    assert c1 == if x >= lead then x - lead else x - lead + U32;
    assert c2 == if y >= pastWindow then y - pastWindow else y - pastWindow + U32;
  }

  /** The compare programmed is never in the danger zone: it is at least
      the lead time ahead of the counter, or at least the past window
      behind it. */
  lemma ProgrammedCompareIsSafe(prevPeriodRatCount: nat, count: nat, ratio: nat, current: nat,
                                lead: nat, pastWindow: nat)
    requires prevPeriodRatCount < U32 && current < U32
    requires 0 < lead && 0 < pastWindow && lead + pastWindow <= 0x8000_0000
    ensures var r := ProgrammedCompare(prevPeriodRatCount, count, ratio, current, lead, pastWindow);
            Sub32(r, current) >= lead || Sub32(current, r) >= pastWindow
  {
    var compare := (prevPeriodRatCount + count * ratio) % U32;
    CompareReplacedIff(compare, current, lead, pastWindow);
    var r := ProgrammedCompare(prevPeriodRatCount, count, ratio, current, lead, pastWindow);
    if r != compare {
      assert r == (current + lead) % U32;
      if current + lead < U32 {
        assert Sub32(r, current) == lead;
      } else {
        assert r == current + lead - U32;
        assert Sub32(r, current) == lead;
      }
    }
  }

  /** Which RAT channel a compare goes to. */
  datatype RatChannel = ChannelA | ChannelB

  /** The RAT compare state of the MAC symbol timer. */
  class SymbolTimer {
    /** MAC_SYMBOL_TO_RAT_RATIO */
    const ratio: nat
    /** 200 * MAC_RAT_MHZ: the lead time needed before a compare. */
    const lead: nat
    /** MAC_BACKOFF_PAST_WINDOW */
    const pastWindow: nat
    /** MAC_SYMBOL_MAXIMUM_ROLLOVER */
    const maxRollover: nat
    /** macPrevPeriodRatCount */
    var prevPeriodRatCount: nat
    /** macRadioYielded == MAC_RADIO_ACTIVE */
    var radioActive: bool
    /** macSymbolTimerImpending */
    var impending: bool
    /** The compares programmed so far, oldest first. */
    var compares: seq<(RatChannel, nat)>

    ghost predicate Valid()
      reads this
    {
      ratio > 0 && prevPeriodRatCount < U32 && lead < U32 && pastWindow < U32
    }

    constructor (r: nat, ratMhz: nat, window: nat, rollover: nat, prev: nat, active: bool)
      requires r > 0 && prev < U32 && 200 * ratMhz < U32 && window < U32
      ensures Valid()
      ensures ratio == r && lead == 200 * ratMhz && pastWindow == window && maxRollover == rollover
      ensures prevPeriodRatCount == prev && radioActive == active && !impending && compares == []
    {
      ratio := r;
      lead := 200 * ratMhz;
      pastWindow := window;
      maxRollover := rollover;
      prevPeriodRatCount := prev;
      radioActive := active;
      impending := false;
      compares := [];
    }

    /** macMcuOverflowSetCompare: with the radio not yet active only marks
        the timer impending; otherwise programs channel B. */
    method SetCompare(count: nat, current: nat)
      requires Valid() && current < U32
      requires radioActive ==> count <= maxRollover
      modifies this
      ensures Valid()
      ensures prevPeriodRatCount == old(prevPeriodRatCount) && radioActive == old(radioActive)
      ensures !radioActive ==> impending && compares == old(compares)
      ensures radioActive ==> impending == old(impending)
      ensures radioActive ==>
                compares == old(compares) +
                  [(ChannelB, ProgrammedCompare(prevPeriodRatCount, count, ratio, current, lead, pastWindow))]
    {
      if !radioActive {
        impending := true;
        return;
      }
      var compare := (prevPeriodRatCount + count * ratio) % U32;
      if SignBit(Sub32(Sub32(compare, current), lead)) &&
         SignBit(Sub32(Sub32(current, compare), pastWindow)) {
        compare := (current + lead) % U32;
      }
      compares := compares + [(ChannelB, compare)];
    }

    /** macMcuOverflowSetPeriod: as `SetCompare`, on channel A. */
    method SetPeriod(count: nat, current: nat)
      requires Valid() && current < U32
      requires radioActive ==> count <= maxRollover
      modifies this
      ensures Valid()
      ensures prevPeriodRatCount == old(prevPeriodRatCount) && radioActive == old(radioActive)
      ensures !radioActive ==> impending && compares == old(compares)
      ensures radioActive ==> impending == old(impending)
      ensures radioActive ==>
                compares == old(compares) +
                  [(ChannelA, ProgrammedCompare(prevPeriodRatCount, count, ratio, current, lead, pastWindow))]
    {
      if !radioActive {
        impending := true;
        return;
      }
      var compare := (prevPeriodRatCount + count * ratio) % U32;
      if SignBit(Sub32(Sub32(compare, current), lead)) &&
         SignBit(Sub32(Sub32(current, compare), pastWindow)) {
        compare := (current + lead) % U32;
      }
      compares := compares + [(ChannelA, compare)];
    }
  }

  /** macMcuPrecisionCount: the RAT counter masked to 16 bits. */
  function PrecisionCount(current: nat): (r: nat)
    requires current < U32
    ensures r < 0x10000
  {
    Bitwise(And, current, 0xFFFF, 32) % 0x10000
  }

  /** The precision count is the low 16 bits of the RAT counter. */
  lemma PrecisionCountLowBits(current: nat)
    requires current < U32
    ensures PrecisionCount(current) == current % 0x10000
  {
    var masked := Bitwise(And, current, 0xFFFF, 32);
    assert Pow2(16) == 0x10000 by {
      Pow2Byte();
      Pow2Add(8, 8);
    }
    forall k | 0 <= k < 32 ensures Bit(masked, k) <==> Bit(current % 0x10000, k) {
      BitwiseBit(And, current, 0xFFFF, 32, k);
      ModPow2Bit(current, 16, k);
      if k < 16 {
        AllOnesBit(16, k);
        assert Pow2(16) - 1 == 0xFFFF;
      } else {
        SmallNoHighBit(0xFFFF, 16, k);
      }
    }
    assert Pow2(32) == U32 by {
      Pow2Add(16, 16);
    }
    BitsEqual(masked, current % 0x10000, 32);
    assert masked < 0x10000;
    Arith.DivModUnique(0, masked, 0x10000);
  }
}
