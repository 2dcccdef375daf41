/**
 * Server side of the Bluetooth mesh Generic OnOff and Generic Level models
 * and the Generic Battery message of the sample mesh node
 * (ble5stack/mesh/sig_models.c). The encoders, the clamping rules and the
 * battery codec are functions; the message handlers, which update the
 * global `generic_state` and its transition record, are methods of the
 * class `GenericServer`. Starting an RTOS clock, publishing and storing to
 * flash are effects the handlers report through `Outcome`.
 */
module MeshModels {
  import opened Wrappers
  import opened Bytes
  import opened Arith

  const STATE_OFF: nat := 0
  const STATE_ON: nat := 1
  const STATE_RESTORE: nat := 2
  /** Remaining-time code for "unknown" (also the reserved step count). */
  const UNKNOWN_LEVEL_VALUE: nat := 0x3F
  const INT16_MIN: int := -0x8000
  const INT16_MAX: int := 0x7FFF
  /** Messages repeating tid, source and destination within this many
      milliseconds are retransmissions (Mesh Model section 3.4.2.2.2). */
  const RETRANSMISSION_WINDOW_MS: int := 6000

  /** `enum transition_types_e`: the transition record holds `Move` or
      `NonMove`; the other values name the argument of `set_target`. */
  datatype TransitionKind = Move | NonMove | OnOff | Level | DeltaLevel | MoveState

  // ---------------------------------------------------------------------
  // Transition-time encoding (Mesh Model section 3.1.3): the top two bits
  // select the step resolution, the low six bits count steps.
  // ---------------------------------------------------------------------

  /** Milliseconds per step for a two-bit resolution field. */
  function StepResolution(resolution: nat): (ms: nat)
    requires resolution < 4
    ensures ms in {100, 1000, 10000, 600000}
  {
    if resolution == 0 then 100
    else if resolution == 1 then 1000
    else if resolution == 2 then 10000
    else 600000
  }

  /** The duration in milliseconds a transition-time byte denotes. */
  function DecodeTime(tt: nat): nat
    requires tt < 0x100
  {
    StepResolution(tt / 64) * (tt % 64)
  }

  /** The hop length, hop count and total duration of a transition. */
  datatype Timing = Timing(hopDuration: nat, numOfHops: nat, totalDuration: nat)

  /** `set_transition_timeout`: no timing for a zero step count. */
  function TransitionTimeout(tt: nat): (t: Option<Timing>)
    requires tt < 0x100
    ensures t.None? <==> tt % 64 == 0
    ensures t.Some? ==> t.value.numOfHops == tt % 64 && t.value.hopDuration == StepResolution(tt / 64)
    ensures t.Some? ==> t.value.totalDuration == t.value.hopDuration * t.value.numOfHops == DecodeTime(tt)
  {
    var steps := tt % 64;
    if steps == 0 then None
    else
      var hop := StepResolution(tt / 64);
      Some(Timing(hop, steps, hop * steps))
  }

  /** Conversion of an integer to C's `int32_t` (two's complement). */
  function Int32(x: int): (r: int)
    ensures -0x8000_0000 <= r < 0x8000_0000
    ensures -0x8000_0000 <= x < 0x8000_0000 ==> r == x
  {
    (x + 0x8000_0000) % 0x1_0000_0000 - 0x8000_0000
  }

  /** Bitwise OR of two two-bit values. */
  function Or2(a: nat, b: nat): (r: nat)
    requires a < 4 && b < 4
    ensures r < 4
  {
    var lo := if a % 2 == 1 || b % 2 == 1 then 1 else 0;
    var hi := if a / 2 == 1 || b / 2 == 1 then 2 else 0;
    hi + lo
  }

  /** The resolution tier `calculate_remain_time` picks for a remainder. */
  function RemainTier(remainder: int): (tier: nat)
    ensures tier < 4
  {
    if remainder > 620000 then 3
    else if remainder > 62000 then 2
    else if remainder > 6200 then 1
    else 0
  }

  /**
   * The remaining-time byte for a remainder in milliseconds, as
   * `calculate_remain_time` computes it: the step count is truncated to
   * `uint8_t` and OR-ed under the resolution bits.
   */
  function EncodeRemaining(remainder: int): (code: nat)
    ensures code < 0x100
  {
    if remainder <= 0 then 0
    else
      var tier := RemainTier(remainder);
      var steps := (remainder / StepResolution(tier)) % 0x100;
      Or2(tier, steps / 64) * 64 + steps % 64
  }

  /** `calculate_remain_time`: unknown for a Move, otherwise the encoded
      remainder of the transition at time `now`. */
  function RemainTime(kind: TransitionKind, totalDuration: nat, startTimestamp: int, now: int): (code: nat)
    ensures code < 0x100
    ensures kind == Move ==> code == UNKNOWN_LEVEL_VALUE
  {
    if kind == Move then UNKNOWN_LEVEL_VALUE
    else if startTimestamp == 0 then EncodeRemaining(Int32(totalDuration))
    else EncodeRemaining(Int32(totalDuration - (now - startTimestamp)))
  }

  /** A remainder that is not positive is encoded as zero. */
  lemma EncodeNonPositive(remainder: int)
    requires remainder <= 0
    ensures EncodeRemaining(remainder) == 0
  {
  }

  /**
   * For every remainder below 64 steps of ten minutes, the code holds the
   * tier chosen by the thresholds and the step count in that tier, and so
   * it denotes the remainder rounded down to a multiple of the tier's
   * resolution.
   */
  lemma EncodeRemainingDenotes(remainder: int)
    requires 0 < remainder < 64 * 600000
    ensures EncodeRemaining(remainder) / 64 == RemainTier(remainder)
    ensures EncodeRemaining(remainder) % 64 == remainder / StepResolution(RemainTier(remainder))
    ensures DecodeTime(EncodeRemaining(remainder)) <= remainder
            < DecodeTime(EncodeRemaining(remainder)) + StepResolution(RemainTier(remainder))
  {
    var tier := RemainTier(remainder);
    var unit := StepResolution(tier);
    var steps := remainder / unit;
    assert steps < 64 by {
      if tier == 3 {
      } else if tier == 2 {
        assert remainder <= 620000;
      } else if tier == 1 {
        assert remainder <= 62000;
      } else {
        assert remainder <= 6200;
      }
    }
    assert steps % 0x100 == steps;
    assert Or2(tier, 0) == tier;
    var code := tier * 64 + steps;
    assert EncodeRemaining(remainder) == code;
    assert code / 64 == tier && code % 64 == steps;
    assert DecodeTime(code) == unit * steps;
  }

  /** A remainder that is a whole number of steps of the tier the
      thresholds pick is encoded exactly. */
  lemma EncodeExact(total: nat, tier: nat, n: nat)
    requires tier < 4 && 0 < n < 64 && total == StepResolution(tier) * n && RemainTier(total) == tier
    ensures DecodeTime(EncodeRemaining(total)) == total
  {
    var unit := StepResolution(tier);
    assert total < 64 * 600000;
    EncodeRemainingDenotes(total);
    assert total / unit == n;
  }

  /**
   * A transition that has not started yet reports exactly its total
   * duration: for every accepted transition time (step count 1 to 62) the
   * remaining-time byte decodes to the duration the transition time
   * denotes.
   */
  lemma FreshRemainTimeIsTotal(tt: nat, now: int)
    requires tt < 0x100 && 0 < tt % 64 < 0x3F
    ensures DecodeTime(RemainTime(NonMove, DecodeTime(tt), 0, now)) == DecodeTime(tt)
  {
    var n := tt % 64;
    var r := tt / 64;
    var total := DecodeTime(tt);
    assert total <= 62 * 600000;
    assert Int32(total) == total;
    if r == 0 {
      EncodeExact(total, 0, n);
    } else if r == 1 {
      if n <= 6 {
        EncodeExact(total, 0, 10 * n);
      } else {
        EncodeExact(total, 1, n);
      }
    } else if r == 2 {
      if n <= 6 {
        EncodeExact(total, 1, 10 * n);
      } else {
        EncodeExact(total, 2, n);
      }
    } else {
      if n == 1 {
        EncodeExact(total, 2, 60);
      } else {
        EncodeExact(total, 3, n);
      }
    }
  }

  // ---------------------------------------------------------------------
  // Level clamping (Mesh Model sections 3.3.2.2.3 and 3.3.2.2.4)
  // ---------------------------------------------------------------------

  /** `constrain_target_value`: zero stays zero; other values are pulled
      into the range. */
  function ConstrainTarget(v: nat, rangeMin: nat, rangeMax: nat): (r: nat)
    ensures v == 0 ==> r == 0
    ensures v != 0 && rangeMin <= rangeMax ==> rangeMin <= r <= rangeMax
    ensures (v == 0 || rangeMin <= v) && v <= rangeMax ==> r == v
  {
    if v > 0 && v < rangeMin then rangeMin
    else if v > rangeMax then rangeMax
    else v
  }

  /** Constraining a value already constrained changes nothing. */
  lemma ConstrainIdempotent(v: nat, rangeMin: nat, rangeMax: nat)
    requires rangeMin <= rangeMax
    ensures ConstrainTarget(ConstrainTarget(v, rangeMin, rangeMax), rangeMin, rangeMax)
         == ConstrainTarget(v, rangeMin, rangeMax)
  {
  }

  /** `constrain_delta_target_value`: below the range a decreasing delta
      falls to zero (off), anything else is pulled into the range. */
  function ConstrainDeltaTarget(t: nat, delta: int, rangeMin: nat, rangeMax: nat): (r: nat)
    ensures rangeMin <= rangeMax ==> r == 0 || rangeMin <= r <= rangeMax
    ensures r == 0 ==> t == 0 || delta < 0 || rangeMax == 0
    ensures (t == 0 || rangeMin <= t) && t <= rangeMax ==> r == t
  {
    if t > 0 && t < rangeMin then (if delta < 0 then 0 else rangeMin)
    else if t > rangeMax then rangeMax
    else t
  }

  /** Saturation of a delta target to `int16_t` before it is offset. */
  function ClampInt16(x: int): (r: int)
    ensures INT16_MIN <= r <= INT16_MAX
    ensures INT16_MIN <= x <= INT16_MAX ==> r == x
    ensures x < INT16_MIN ==> r == INT16_MIN
    ensures x > INT16_MAX ==> r == INT16_MAX
  {
    if x < INT16_MIN then INT16_MIN else if x > INT16_MAX then INT16_MAX else x
  }

  /** The unsigned target of a Delta message: the sum saturated to
      `int16_t`, offset, and constrained against the stored delta. */
  function DeltaTarget(sum: int, storedDelta: int, rangeMin: nat, rangeMax: nat): (r: nat)
    ensures rangeMin <= rangeMax ==> r == 0 || rangeMin <= r <= rangeMax
    ensures rangeMin <= ClampInt16(sum) - INT16_MIN <= rangeMax ==> LevelOf(r) == ClampInt16(sum)
  {
    ConstrainDeltaTarget(ClampInt16(sum) - INT16_MIN, storedDelta, rangeMin, rangeMax)
  }

  /** The state a Move heads for: the bottom of the range for a negative
      speed, the top for a positive one, the current state for zero. */
  function MoveTarget(delta: int, current: nat, rangeMin: nat, rangeMax: nat): (r: nat)
    ensures delta < 0 ==> r == rangeMin
    ensures delta > 0 ==> r == rangeMax
    ensures delta == 0 ==> r == current
  {
    if delta < 0 then rangeMin else if delta > 0 then rangeMax else current
  }

  /** The unsigned state `set_target(LEVEL, l)` stores for a signed level. */
  function LevelTarget(level: int, rangeMin: nat, rangeMax: nat): nat
    requires INT16_MIN <= level <= INT16_MAX
  {
    ConstrainTarget(level - INT16_MIN, rangeMin, rangeMax)
  }

  /** The signed level `get_current(LEVEL)` and `get_target(LEVEL)` report
      for an unsigned state. */
  function LevelOf(state: nat): int
  {
    state + INT16_MIN
  }

  /** With the full range, reading back a level target gives the level
      that was set. */
  lemma LevelTargetRoundTrip(level: int)
    requires INT16_MIN <= level <= INT16_MAX
    ensures LevelOf(LevelTarget(level, 0, 0xFFFF)) == level
  {
  }

  /** Inside a narrower range, the level read back is the level set
      exactly when it lies in the range (or is the bottom level, kept as
      state zero). */
  lemma LevelTargetInRange(level: int, rangeMin: nat, rangeMax: nat)
    requires INT16_MIN <= level <= INT16_MAX && rangeMin <= rangeMax <= 0xFFFF
    ensures LevelOf(LevelTarget(level, rangeMin, rangeMax)) == level
        <==> level == INT16_MIN || rangeMin <= level - INT16_MIN <= rangeMax
  {
  }

  /** The target state `set_target(ONOFF, v)` stores: 0 or 1, unchanged
      for any other value. */
  function OnOffTarget(onoff: nat, old_target: nat): (r: nat)
    ensures onoff <= STATE_ON ==> r == onoff
    ensures onoff > STATE_ON ==> r == old_target
  {
    if onoff == STATE_OFF then 0 else if onoff == STATE_ON then 1 else old_target
  }

  /** The step `set_transition_values` computes for an OnOff or Level
      transition: the distance to cover divided by the hop count. */
  function StepDelta(current: nat, target: nat, hops: nat): (d: nat)
    requires hops > 0
    ensures d * hops <= (if current > target then current - target else target - current)
  {
    (if current > target then current - target else target - current) / hops
  }

  /**
   * The clock period of a level transition. For a Move the level advances
   * by its delta once per whole transition time; otherwise once per hop.
   */
  function QuoTt(kind: TransitionKind, t: Timing): nat
  {
    if kind == Move then t.totalDuration else t.hopDuration
  }

  /** The period as `set_transition_values` computes it: it compares the
      transition kind with `MOVE_STATE`, a value only `set_target` takes. */
  function QuoTtAsWritten(kind: TransitionKind, t: Timing): nat
  {
    if kind == MoveState then t.totalDuration else t.hopDuration
  }

  /** The comparison in `set_transition_values` never holds for the kinds
      a transition record takes, so a Move steps once per hop: a Move with
      transition time 0x0A (ten steps of 100 ms) is clocked every 100 ms
      instead of every 1000 ms. */
  lemma MoveQuoTtAsWrittenIsHop()
    ensures TransitionTimeout(0x0A) == Some(Timing(100, 10, 1000))
    ensures QuoTtAsWritten(Move, Timing(100, 10, 1000)) == 100
    ensures QuoTt(Move, Timing(100, 10, 1000)) == 1000
  {
  }

  /** With the corrected test, a Move is clocked once per transition time
      and any other transition once per hop, the hops adding up to the
      transition time. */
  lemma QuoTtMatchesTransitionTime(kind: TransitionKind, tt: nat)
    requires tt < 0x100 && tt % 64 != 0
    ensures kind == Move ==> QuoTt(kind, TransitionTimeout(tt).value) == DecodeTime(tt)
    ensures kind != Move ==> QuoTt(kind, TransitionTimeout(tt).value) * (tt % 64) == DecodeTime(tt)
  {
  }

  /** The optional transition time and delay of a set message. */
  datatype Params = Params(tt: nat, delay: nat)

  /**
   * The optional fields after tid: none (default transition time, no
   * delay), both, or a malformed message; an unknown step count (0x3F) is
   * rejected.
   */
  function OptionalParams(rest: seq<nat>, defaultTransTime: nat): (p: Option<Params>)
    ensures |rest| == 0 ==> p == Some(Params(defaultTransTime, 0))
    ensures |rest| != 0 && |rest| != 2 ==> p.None?
    ensures |rest| == 2 ==> (p.Some? <==> rest[0] % 64 != 0x3F)
    ensures |rest| == 2 && p.Some? ==> p.value == Params(rest[0], rest[1])
  {
    if |rest| == 0 then Some(Params(defaultTransTime, 0))
    else if |rest| == 2 then (if rest[0] % 64 == 0x3F then None else Some(Params(rest[0], rest[1])))
    else None
  }

  // ---------------------------------------------------------------------
  // Generic Battery status (8-byte payload after the opcode)
  // ---------------------------------------------------------------------

  /** `struct batteryStatus_t`. */
  datatype BatteryStatus = BatteryStatus(level: nat, timeToDischarge: nat, timeToCharge: nat, flags: nat)

  /** The ranges of the packed fields: 8, 24, 24 and 8 bits. */
  predicate ValidBattery(b: BatteryStatus)
  {
    b.level < 0x100 && b.timeToDischarge < 0x100_0000 && b.timeToCharge < 0x100_0000 && b.flags < 0x100
  }

  /** The state `getBatteryState` reports. */
  const SAMPLE_BATTERY: BatteryStatus := BatteryStatus(0x64, 0xFEFFFF, 0x0, 0x5F)

  /** `gen_Battery_get`: level and time to discharge in the first word,
      time to charge and flags in the second. */
  function PackBattery(b: BatteryStatus): (msg: seq<nat>)
    requires ValidBattery(b)
    ensures |msg| == 8
  {
    Le32(b.timeToDischarge * 0x100 + b.level) + Le32(b.flags * 0x100_0000 + b.timeToCharge)
  }

  /** `gen_Battery_status`: any length but 8 is rejected. */
  function UnpackBattery(msg: seq<nat>): (b: Option<BatteryStatus>)
    ensures b.Some? <==> |msg| == 8
  {
    if |msg| != 8 then None
    else
      var w0 := ReadLe32(msg, 0);
      var w1 := ReadLe32(msg, 4);
      Some(BatteryStatus(w0 % 0x100, (w0 / 0x100) % 0x100_0000, w1 % 0x100_0000, (w1 / 0x100_0000) % 0x100))
  }

  /** The status the server packs is unpacked field for field. */
  lemma BatteryRoundTrip(b: BatteryStatus)
    requires ValidBattery(b)
    ensures UnpackBattery(PackBattery(b)) == Some(b)
  {
    var w0 := b.timeToDischarge * 0x100 + b.level;
    var w1 := b.flags * 0x100_0000 + b.timeToCharge;
    assert w0 < 0x1_0000_0000 && w1 < 0x1_0000_0000;
    var msg := PackBattery(b);
    assert msg[0..4] == Le32(w0) && msg[4..8] == Le32(w1);
    ReadLe32At(msg, 0, w0);
    ReadLe32At(msg, 4, w1);
    DivModUnique(b.timeToDischarge, b.level, 0x100);
    DivModUnique(b.flags, b.timeToCharge, 0x100_0000);
    ModSmall(b.timeToDischarge, 0x100_0000);
    ModSmall(b.flags, 0x100);
  }

  // ---------------------------------------------------------------------
  // The server state and its message handlers
  // ---------------------------------------------------------------------

  /** What a set handler did besides updating the state. */
  datatype Outcome =
    | Rejected        // malformed or out-of-range message: dropped silently
    | Retransmission  // same tid, source and destination within 6 s
    | NoChange        // target equals current state
    | Instant         // no steps: current state set to the target at once
    | Stalled         // a Move with no steps: nothing started
    | DelayClock      // the delay clock was started
    | TransitionClock // the transition clock was started

  /** The acknowledged variant of a handler answers with a status message
      in every case except a dropped message. */
  predicate RepliesWithStatus(acknowledged: bool, o: Outcome)
  {
    acknowledged && o != Rejected
  }

  /** The handler went on past the retransmission and parameter checks. */
  predicate Accepted(o: Outcome)
  {
    o != Rejected && o != Retransmission
  }

  /** `struct state_properties_t`: the present and target state, the range
      a target is constrained to, and the per-hop step of a transition. */
  datatype StateProps = StateProps(current: nat, target: nat, rangeMin: nat, rangeMax: nat, delta: int)

  /** `struct transition_t`. */
  datatype Transition = Transition(
    kind: TransitionKind, transTime: nat, remainTime: nat, delay: nat, quoTt: nat,
    numOfHops: nat, hopDuration: nat, totalDuration: nat, startTimestamp: int)

  /** The scalar fields of `struct ctl_state_t`; its two pointers are the
      `prop` and `transition` fields of the server. */
  datatype CtlState = CtlState(defaultTransTime: nat, lastTid: nat, lastSrc: nat, lastDst: nat, lastMsgTimestamp: int)

  /** The transition record once `set_transition_timeout` has stored a
      timing. */
  function Timed(tr: Transition, t: Timing): Transition
  {
    tr.(hopDuration := t.hopDuration, numOfHops := t.numOfHops, totalDuration := t.totalDuration)
  }

  class GenericServer {
    var prop: StateProps
    var ctl: CtlState
    var transition: Transition
    // gen_Delta_last_level_value
    var deltaLastLevel: int
    // struct genOnPowerUpState_t
    var onPowerUp: nat

    /** Field widths of the C structures, and the transition kinds a
        transition record holds. */
    predicate Valid()
      reads this
    {
      prop.current < 0x10000 && prop.target < 0x10000 && prop.rangeMin <= prop.rangeMax < 0x10000
      && ctl.defaultTransTime < 0x100 && transition.transTime < 0x100 && transition.delay < 0x100
      && INT16_MIN <= deltaLastLevel <= INT16_MAX && onPowerUp <= STATE_RESTORE
      && (transition.kind == Move || transition.kind == NonMove)
    }

    /** The initial values: full range, everything else zero. */
    constructor ()
      ensures Valid()
      ensures prop == StateProps(0, 0, 0, 0xFFFF, 0) && ctl == CtlState(0, 0, 0, 0, 0)
      ensures transition == Transition(NonMove, 0, 0, 0, 0, 0, 0, 0, 0)
      ensures deltaLastLevel == 0 && onPowerUp == 0
    {
      prop := StateProps(0, 0, 0, 0xFFFF, 0);
      ctl := CtlState(0, 0, 0, 0, 0);
      transition := Transition(NonMove, 0, 0, 0, 0, 0, 0, 0, 0);
      deltaLastLevel, onPowerUp := 0, 0;
    }

    /** `get_current(ONOFF)`: on while the state is on, or while an off
        state is heading on. */
    function CurrentOnOff(): (v: nat)
      reads this
      ensures v <= STATE_ON
      ensures v == STATE_ON <==> prop.current != 0 || prop.target != 0
    {
      if prop.current != 0 then STATE_ON else if prop.target != 0 then STATE_ON else STATE_OFF
    }

    /** `get_target(ONOFF)`. */
    function TargetOnOff(): (v: nat)
      reads this
      ensures v <= STATE_ON && (v == STATE_ON <==> prop.target != 0)
    {
      if prop.target != 0 then STATE_ON else STATE_OFF
    }

    /** `get_current(LEVEL)`. */
    function CurrentLevel(): (l: int)
      reads this
      requires Valid()
      ensures INT16_MIN <= l <= INT16_MAX
    {
      LevelOf(prop.current)
    }

    /** `get_target(LEVEL)`. */
    function TargetLevel(): (l: int)
      reads this
      requires Valid()
      ensures INT16_MIN <= l <= INT16_MAX
    {
      LevelOf(prop.target)
    }

    /** Section 3.4.2.2.2: the same tid, source and destination within six
        seconds of the last accepted message. */
    predicate IsRetransmission(tid: nat, src: nat, dst: nat, now: int)
      reads this
    {
      ctl.lastTid == tid && ctl.lastSrc == src && ctl.lastDst == dst
      && now - ctl.lastMsgTimestamp <= RETRANSMISSION_WINDOW_MS
    }

    /** `calculate_remain_time`. */
    method CalculateRemainTime(now: int)
      modifies this`transition
      ensures transition == old(transition).(remainTime :=
        RemainTime(old(transition.kind), old(transition.totalDuration), old(transition.startTimestamp), now))
    {
      if transition.kind == Move {
        transition := transition.(remainTime := UNKNOWN_LEVEL_VALUE);
        return;
      }
      var remainder: int;
      if transition.startTimestamp == 0 {
        remainder := Int32(transition.totalDuration);
      } else {
        remainder := Int32(transition.totalDuration - (now - transition.startTimestamp));
      }
      var resolution: nat, steps: nat;
      if remainder > 620000 {
        resolution, steps := 3, remainder / 600000;
      } else if remainder > 62000 {
        resolution, steps := 2, remainder / 10000;
      } else if remainder > 6200 {
        resolution, steps := 1, remainder / 1000;
      } else if remainder > 0 {
        resolution, steps := 0, remainder / 100;
      } else {
        resolution, steps := 0, 0;
      }
      steps := steps % 0x100;
      transition := transition.(remainTime := Or2(resolution, steps / 64) * 64 + steps % 64);
    }

    /** `set_transition_timeout` on the transition record. */
    method SetTransitionTimeout() returns (ok: bool)
      requires transition.transTime < 0x100
      modifies this`transition
      ensures ok <==> TransitionTimeout(old(transition.transTime)).Some?
      ensures ok ==> transition == Timed(old(transition), TransitionTimeout(old(transition.transTime)).value)
      ensures !ok ==> transition == old(transition)
    {
      var resolution := transition.transTime / 64;
      var stepsMultiplier := transition.transTime % 64;
      if stepsMultiplier == 0 {
        return false;
      }
      var hop := StepResolution(resolution);
      transition := transition.(hopDuration := hop, numOfHops := stepsMultiplier, totalDuration := hop * stepsMultiplier);
      return true;
    }

    /**
     * `set_transition_values`, with the Move test corrected to the kind
     * the transition record holds: a Move keeps its delta and is clocked
     * once per transition time; an OnOff or Level transition is clocked
     * once per hop and steps by the distance divided by the hop count.
     */
    method SetTransitionValues(arg: TransitionKind)
      requires Valid()
      modifies this`transition, this`prop
      ensures Valid()
      ensures TransitionTimeout(old(transition.transTime)).None? ==>
        transition == old(transition) && prop == old(prop)
      ensures TransitionTimeout(old(transition.transTime)).Some? ==>
        var t := TransitionTimeout(old(transition.transTime)).value;
        transition == Timed(old(transition), t).(quoTt := QuoTt(old(transition.kind), t))
        && prop == old(prop).(delta :=
             if old(transition.kind) != Move && (arg == OnOff || arg == Level)
             then StepDelta(old(prop.current), old(prop.target), t.numOfHops) else old(prop.delta))
    {
      var ok := SetTransitionTimeout();
      if !ok {
        return;
      }
      if transition.kind == Move {
        transition := transition.(quoTt := transition.totalDuration);
        return;
      }
      transition := transition.(quoTt := transition.hopDuration);
      if arg == OnOff || arg == Level {
        var distance := if prop.current > prop.target then prop.current - prop.target else prop.target - prop.current;
        prop := prop.(delta := distance / transition.numOfHops);
      }
    }

    /** The bookkeeping every accepted set message does before it sets
        the target. */
    method Accept(tid: nat, src: nat, dst: nat, now: int, p: Params, k: TransitionKind)
      requires Valid() && p.tt < 0x100 && p.delay < 0x100 && (k == Move || k == NonMove)
      modifies this`ctl, this`transition
      ensures Valid()
      ensures ctl == old(ctl).(lastTid := tid, lastSrc := src, lastDst := dst, lastMsgTimestamp := now)
      ensures transition == old(transition).(numOfHops := 0, transTime := p.tt, delay := p.delay, kind := k)
    {
      ctl := ctl.(lastTid := tid, lastSrc := src, lastDst := dst, lastMsgTimestamp := now);
      transition := transition.(numOfHops := 0, transTime := p.tt, delay := p.delay, kind := k);
    }

    /**
     * The common tail of the OnOff, Level and Delta handlers once the
     * target is set: nothing more when it equals the current state; an
     * instant change when the transition has no steps; otherwise the
     * delay clock, or the transition clock, which stamps the start time
     * (and, for OnOff heading on, turns the state on at once).
     */
    method Finish(arg: TransitionKind, now: int) returns (outcome: Outcome)
      requires Valid() && transition.kind == NonMove && transition.numOfHops == 0 && (arg == OnOff || arg == Level)
      modifies this`transition, this`prop
      ensures Valid()
      ensures old(prop.target) == old(prop.current) ==>
        outcome == NoChange && transition == old(transition) && prop == old(prop)
      ensures old(prop.target) != old(prop.current) && TransitionTimeout(old(transition.transTime)).None? ==>
        outcome == Instant && transition == old(transition) && prop == old(prop).(current := old(prop.target))
      ensures old(prop.target) != old(prop.current) && TransitionTimeout(old(transition.transTime)).Some? ==>
        var t := TransitionTimeout(old(transition.transTime)).value;
        var timed := Timed(old(transition), t).(quoTt := t.hopDuration);
        var stepped := old(prop).(delta := StepDelta(old(prop.current), old(prop.target), t.numOfHops));
        (old(transition.delay) > 0 ==> outcome == DelayClock && transition == timed && prop == stepped)
        && (old(transition.delay) == 0 ==>
              outcome == TransitionClock && transition == timed.(startTimestamp := now)
              && prop == stepped.(current := if arg == OnOff && old(prop.target) == 1 then 1 else old(prop.current)))
    {
      if prop.target == prop.current {
        return NoChange;
      }
      SetTransitionValues(arg);
      if transition.numOfHops == 0 {
        prop := prop.(current := prop.target);
        return Instant;
      }
      if transition.delay > 0 {
        return DelayClock;
      }
      transition := transition.(startTimestamp := now);
      if arg == OnOff && prop.target == 1 {
        prop := prop.(current := prop.target);
      }
      return TransitionClock;
    }

    /** `gen_OnOff_set` and `gen_OnOff_set_unack`. The acknowledged handler then replies with `OnOffStatus`, which recomputes
        the remaining time; on a retransmission that is the only change it
        makes, and it is not part of this method. */
    method OnOffSet(onoff: nat, tid: nat, src: nat, dst: nat, now: int, rest: seq<nat>) returns (outcome: Outcome)
      requires Valid() && (forall i :: 0 <= i < |rest| ==> rest[i] < 0x100)
      modifies this
      ensures Valid()
      ensures onoff > STATE_ON ==> outcome == Rejected && unchanged(this)
      ensures onoff <= STATE_ON && old(IsRetransmission(tid, src, dst, now)) ==> outcome == Retransmission && unchanged(this)
      ensures (onoff <= STATE_ON && !old(IsRetransmission(tid, src, dst, now))
               && OptionalParams(rest, old(ctl.defaultTransTime)).None?) ==> outcome == Rejected && unchanged(this)
      ensures Accepted(outcome) ==>
        var p := OptionalParams(rest, old(ctl.defaultTransTime)).value;
        ctl == old(ctl).(lastTid := tid, lastSrc := src, lastDst := dst, lastMsgTimestamp := now)
        && transition.transTime == p.tt && transition.delay == p.delay && transition.kind == NonMove
        && prop.target == onoff
        && (onoff == old(prop.current) ==> outcome == NoChange && transition.numOfHops == 0 && prop.current == old(prop.current))
        && (onoff != old(prop.current) && p.tt % 64 == 0 ==> outcome == Instant && prop.current == onoff)
        && (onoff != old(prop.current) && p.tt % 64 != 0 ==>
              transition.numOfHops == p.tt % 64 && outcome == (if p.delay > 0 then DelayClock else TransitionClock))
    {
      if onoff > STATE_ON {
        return Rejected;
      }
      if IsRetransmission(tid, src, dst, now) {
        return Retransmission;
      }
      var params := OptionalParams(rest, ctl.defaultTransTime);
      if params.None? {
        return Rejected;
      }
      var goal := OnOffTarget(onoff, prop.target);
      Accept(tid, src, dst, now, params.value, NonMove);
      prop := prop.(target := goal);
      outcome := Finish(OnOff, now);
    }

    /** `gen_Level_set` and `gen_Level_set_unack`. The acknowledged handler then replies with `LevelStatus`, which recomputes
        the remaining time; on a retransmission that is the only change it
        makes, and it is not part of this method. */
    method LevelSet(level: int, tid: nat, src: nat, dst: nat, now: int, rest: seq<nat>) returns (outcome: Outcome)
      requires Valid() && INT16_MIN <= level <= INT16_MAX && (forall i :: 0 <= i < |rest| ==> rest[i] < 0x100)
      modifies this
      ensures Valid()
      ensures old(IsRetransmission(tid, src, dst, now)) ==> outcome == Retransmission && unchanged(this)
      ensures (!old(IsRetransmission(tid, src, dst, now))
               && OptionalParams(rest, old(ctl.defaultTransTime)).None?) ==> outcome == Rejected && unchanged(this)
      ensures Accepted(outcome) ==>
        var p := OptionalParams(rest, old(ctl.defaultTransTime)).value;
        ctl == old(ctl).(lastTid := tid, lastSrc := src, lastDst := dst, lastMsgTimestamp := now)
        && transition.transTime == p.tt && transition.delay == p.delay && transition.kind == NonMove
        && prop.target == LevelTarget(level, prop.rangeMin, prop.rangeMax)
        && (prop.target == old(prop.current) ==> outcome == NoChange && transition.numOfHops == 0)
        && (prop.target != old(prop.current) && p.tt % 64 == 0 ==> outcome == Instant && prop.current == prop.target)
        && (prop.target != old(prop.current) && p.tt % 64 != 0 ==>
              transition.numOfHops == p.tt % 64 && prop.delta == StepDelta(old(prop.current), prop.target, transition.numOfHops)
              && outcome == (if p.delay > 0 then DelayClock else TransitionClock))
    {
      if IsRetransmission(tid, src, dst, now) {
        return Retransmission;
      }
      var params := OptionalParams(rest, ctl.defaultTransTime);
      if params.None? {
        return Rejected;
      }
      var goal := LevelTarget(level, prop.rangeMin, prop.rangeMax);
      Accept(tid, src, dst, now, params.value, NonMove);
      prop := prop.(target := goal);
      outcome := Finish(Level, now);
    }

    /**
     * `gen_Delta_set` and `gen_Delta_set_unack`. A retransmission with the
     * stored delta is dropped; another one moves from the level remembered
     * for the original message, a new message from the current level,
     * which is remembered even when the message is then dropped. The
     * acknowledged handler then replies with `LevelStatus`, which
     * recomputes the remaining time; on a retransmission that is the only
     * change it makes, and it is not part of this method.
     */
    method DeltaSet(msgDelta: int, tid: nat, src: nat, dst: nat, now: int, rest: seq<nat>) returns (outcome: Outcome)
      requires Valid() && -0x8000_0000 <= msgDelta < 0x8000_0000 && (forall i :: 0 <= i < |rest| ==> rest[i] < 0x100)
      modifies this
      ensures Valid()
      ensures old(IsRetransmission(tid, src, dst, now)) && old(prop.delta) == msgDelta ==>
        outcome == Retransmission && unchanged(this)
      ensures !(old(IsRetransmission(tid, src, dst, now)) && old(prop.delta) == msgDelta) ==>
        deltaLastLevel == (if old(IsRetransmission(tid, src, dst, now)) then old(deltaLastLevel) else old(CurrentLevel()))
      ensures (!(old(IsRetransmission(tid, src, dst, now)) && old(prop.delta) == msgDelta)
               && OptionalParams(rest, old(ctl.defaultTransTime)).None?) ==> outcome == Rejected
      ensures outcome == Rejected ==>
        OptionalParams(rest, old(ctl.defaultTransTime)).None?
        && prop == old(prop) && ctl == old(ctl) && transition == old(transition)
      ensures Accepted(outcome) ==>
        var p := OptionalParams(rest, old(ctl.defaultTransTime)).value;
        ctl == old(ctl).(lastTid := tid, lastSrc := src, lastDst := dst, lastMsgTimestamp := now)
        && transition.transTime == p.tt && transition.delay == p.delay && transition.kind == NonMove
        && prop.target == DeltaTarget(deltaLastLevel + msgDelta, old(prop.delta), prop.rangeMin, prop.rangeMax)
        && (prop.target == old(prop.current) ==> outcome == NoChange && transition.numOfHops == 0)
        && (prop.target != old(prop.current) && p.tt % 64 == 0 ==> outcome == Instant && prop.current == prop.target)
        && (prop.target != old(prop.current) && p.tt % 64 != 0 ==>
              transition.numOfHops == p.tt % 64 && outcome == (if p.delay > 0 then DelayClock else TransitionClock))
    {
      var retransmission := IsRetransmission(tid, src, dst, now);
      if retransmission && prop.delta == msgDelta {
        return Retransmission;
      }
      if !retransmission {
        deltaLastLevel := CurrentLevel();
      }
      outcome := SetDeltaTarget(deltaLastLevel + msgDelta, tid, src, dst, now, rest);
    }

    /** The part of the Delta handlers after the base level is chosen. */
    method SetDeltaTarget(sum: int, tid: nat, src: nat, dst: nat, now: int, rest: seq<nat>) returns (outcome: Outcome)
      requires Valid() && (forall i :: 0 <= i < |rest| ==> rest[i] < 0x100)
      modifies this`ctl, this`transition, this`prop
      ensures Valid()
      ensures OptionalParams(rest, old(ctl.defaultTransTime)).None? ==> outcome == Rejected && unchanged(this)
      ensures OptionalParams(rest, old(ctl.defaultTransTime)).Some? ==>
        var p := OptionalParams(rest, old(ctl.defaultTransTime)).value;
        Accepted(outcome)
        && ctl == old(ctl).(lastTid := tid, lastSrc := src, lastDst := dst, lastMsgTimestamp := now)
        && transition.transTime == p.tt && transition.delay == p.delay && transition.kind == NonMove
        && prop.target == DeltaTarget(sum, old(prop.delta), prop.rangeMin, prop.rangeMax)
        && (prop.target == old(prop.current) ==> outcome == NoChange && transition.numOfHops == 0)
        && (prop.target != old(prop.current) && p.tt % 64 == 0 ==> outcome == Instant && prop.current == prop.target)
        && (prop.target != old(prop.current) && p.tt % 64 != 0 ==>
              transition.numOfHops == p.tt % 64 && outcome == (if p.delay > 0 then DelayClock else TransitionClock))
    {
      var params := OptionalParams(rest, ctl.defaultTransTime);
      if params.None? {
        return Rejected;
      }
      var goal := DeltaTarget(sum, prop.delta, prop.rangeMin, prop.rangeMax);
      Accept(tid, src, dst, now, params.value, NonMove);
      prop := prop.(target := goal);
      outcome := Finish(Level, now);
    }

    /**
     * `gen_Move_set` and `gen_Move_set_unack`: the delta becomes the
     * speed and the target the end of the range it points to. A Move
     * without steps starts nothing and leaves the current state alone.
     * The per-step time stored is the corrected one of
     * `SetTransitionValues` (the whole transition time). The acknowledged
     * handler then replies with `LevelStatus`, which recomputes the
     * remaining time; on a retransmission that is the only change it
     * makes, and it is not part of this method.
     */
    method MoveSet(msgDelta: int, tid: nat, src: nat, dst: nat, now: int, rest: seq<nat>) returns (outcome: Outcome)
      requires Valid() && INT16_MIN <= msgDelta <= INT16_MAX && (forall i :: 0 <= i < |rest| ==> rest[i] < 0x100)
      modifies this
      ensures Valid()
      ensures old(IsRetransmission(tid, src, dst, now)) ==> outcome == Retransmission && unchanged(this)
      ensures (!old(IsRetransmission(tid, src, dst, now))
               && OptionalParams(rest, old(ctl.defaultTransTime)).None?) ==> outcome == Rejected && unchanged(this)
      ensures Accepted(outcome) ==>
        var p := OptionalParams(rest, old(ctl.defaultTransTime)).value;
        ctl == old(ctl).(lastTid := tid, lastSrc := src, lastDst := dst, lastMsgTimestamp := now)
        && transition.transTime == p.tt && transition.delay == p.delay && transition.kind == Move
        && prop.delta == msgDelta && prop.current == old(prop.current)
        && prop.target == MoveTarget(msgDelta, old(prop.current), prop.rangeMin, prop.rangeMax)
        && (prop.target == old(prop.current) ==> outcome == NoChange && transition.numOfHops == 0)
        && (prop.target != old(prop.current) && p.tt % 64 == 0 ==> outcome == Stalled && transition.numOfHops == 0)
        && (prop.target != old(prop.current) && p.tt % 64 != 0 ==>
              transition.numOfHops == p.tt % 64 && transition.quoTt == DecodeTime(p.tt)
              && outcome == (if p.delay > 0 then DelayClock else TransitionClock))
    {
      if IsRetransmission(tid, src, dst, now) {
        return Retransmission;
      }
      var params := OptionalParams(rest, ctl.defaultTransTime);
      if params.None? {
        return Rejected;
      }
      var goal := MoveTarget(msgDelta, prop.current, prop.rangeMin, prop.rangeMax);
      Accept(tid, src, dst, now, params.value, Move);
      prop := prop.(delta := msgDelta, target := goal);
      if goal == prop.current {
        return NoChange;
      }
      SetTransitionValues(MoveState);
      if transition.numOfHops == 0 {
        return Stalled;
      }
      if transition.delay > 0 {
        return DelayClock;
      }
      transition := transition.(startTimestamp := now);
      return TransitionClock;
    }

    /** `gen_Default_Transition_Time_set(_unack)`: an unknown step count
        is dropped; a new value is stored and published. */
    method DefaultTransitionTimeSet(tt: nat) returns (published: bool)
      requires Valid() && tt < 0x100
      modifies this`ctl
      ensures Valid()
      ensures tt % 64 == 0x3F ==> !published && ctl == old(ctl)
      ensures tt % 64 != 0x3F ==>
        ctl == old(ctl).(defaultTransTime := tt) && (published <==> tt != old(ctl.defaultTransTime))
    {
      published := false;
      if tt % 64 == 0x3F {
        return;
      }
      if ctl.defaultTransTime != tt {
        ctl := ctl.(defaultTransTime := tt);
        published := true;
      }
    }

    /** `gen_OnPowerUp_set(_unack)`: values above RESTORE are dropped; a
        new value is stored and published. */
    method OnPowerUpSet(value: nat) returns (published: bool)
      requires Valid()
      modifies this`onPowerUp
      ensures Valid()
      ensures value > STATE_RESTORE ==> !published && onPowerUp == old(onPowerUp)
      ensures value <= STATE_RESTORE ==> onPowerUp == value && (published <==> value != old(onPowerUp))
    {
      published := false;
      if value > STATE_RESTORE {
        return;
      }
      if onPowerUp != value {
        onPowerUp := value;
        published := true;
      }
    }

    /** The Generic OnOff Status payload of `gen_OnOff_get`: the present
        state, and while a transition runs its target and remaining time,
        which is also stored in the transition record. */
    method OnOffStatus(now: int) returns (msg: seq<nat>)
      modifies this`transition
      ensures transition.numOfHops == 0 ==> msg == [CurrentOnOff()] && transition == old(transition)
      ensures transition.numOfHops != 0 ==>
        var code := RemainTime(old(transition.kind), old(transition.totalDuration), old(transition.startTimestamp), now);
        msg == [CurrentOnOff(), TargetOnOff(), code] && transition == old(transition).(remainTime := code)
    {
      msg := [CurrentOnOff()];
      if transition.numOfHops != 0 {
        CalculateRemainTime(now);
        msg := msg + [TargetOnOff(), transition.remainTime];
      }
    }

    /** The Generic Level Status payload of `gen_Level_get`, levels as
        little-endian `int16_t`. */
    method LevelStatus(now: int) returns (msg: seq<nat>)
      requires Valid()
      modifies this`transition
      ensures Valid()
      ensures transition.numOfHops == 0 ==> msg == Int16Le(CurrentLevel()) && transition == old(transition)
      ensures transition.numOfHops != 0 ==>
        var code := RemainTime(old(transition.kind), old(transition.totalDuration), old(transition.startTimestamp), now);
        msg == Int16Le(CurrentLevel()) + Int16Le(TargetLevel()) + [code]
        && transition == old(transition).(remainTime := code)
    {
      msg := Int16Le(CurrentLevel());
      if transition.numOfHops != 0 {
        CalculateRemainTime(now);
        msg := msg + Int16Le(TargetLevel()) + [transition.remainTime];
      }
    }
  }

  /** Little-endian bytes of an `int16_t`, in two's complement. */
  function Int16Le(v: int): (s: seq<nat>)
    requires INT16_MIN <= v <= INT16_MAX
    ensures |s| == 2 && s[0] < 0x100 && s[1] < 0x100
    ensures ReadLe16(s, 0) == (if v < 0 then v + 0x10000 else v)
  {
    Le16(if v < 0 then v + 0x10000 else v)
  }
}
