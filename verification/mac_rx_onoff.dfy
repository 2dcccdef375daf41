/** The MAC receiver on/off logic: a byte of enable flags, one per reason
    the receiver is wanted, decides whether the radio receiver may be
    switched off. The radio itself is reduced to the log of commands
    issued to it; whether a receive command succeeds and whether the
    radio is physically busy come in as parameters. */
module MacRxOnOff {
  import opened Bits

  /** `flags |= f` on the 8-bit enable byte. */
  function SetFlags(cur: nat, f: nat): (r: nat)
    ensures r < 0x100
  {
    Bitwise(Or, cur, f, 8)
  }

  /** `flags &= (f ^ 0xFF)` on the 8-bit enable byte. */
  function ClearFlags(cur: nat, f: nat): (r: nat)
    ensures r < 0x100
  {
    Bitwise(And, cur, Bitwise(Xor, f, 0xFF, 8), 8)
  }

  /** Enabling sets every bit of `f` and keeps every other bit. */
  lemma SetFlagsBits(cur: nat, f: nat, k: nat)
    requires k < 8
    ensures Bit(SetFlags(cur, f), k) <==> Bit(cur, k) || Bit(f, k)
  {
    BitwiseBit(Or, cur, f, 8, k);
  }

  /** Disabling clears exactly the bits of `f` and keeps every other bit. */
  lemma ClearFlagsBits(cur: nat, f: nat, k: nat)
    requires k < 8
    ensures Bit(ClearFlags(cur, f), k) <==> Bit(cur, k) && !Bit(f, k)
  {
    var mask := Bitwise(Xor, f, 0xFF, 8);
    BitwiseBit(And, cur, mask, 8, k);
    BitwiseBit(Xor, f, 0xFF, 8, k);
    ByteOnes(k);
  }

  /** After enabling a non-empty set of reasons the flag byte is non-zero,
      so a later on-request turns the receiver on. */
  lemma SetFlagsNonZero(cur: nat, f: nat)
    requires 0 < f < 0x100
    ensures SetFlags(cur, f) != 0
  {
    Pow2Byte();
    ZeroIffNoBit(f, 8);
    var k :| 0 <= k < 8 && Bit(f, k);
    SetFlagsBits(cur, f, k);
    BitZero(k);
  }

  /** Disabling the reasons just enabled restores the flag byte, provided
      they were not already set. */
  lemma ClearUndoesSet(cur: nat, f: nat)
    requires cur < 0x100
    requires forall k :: 0 <= k < 8 ==> !(Bit(cur, k) && Bit(f, k))
    ensures ClearFlags(SetFlags(cur, f), f) == cur
  {
    var r := ClearFlags(SetFlags(cur, f), f);
    forall k | 0 <= k < 8 ensures Bit(r, k) <==> Bit(cur, k) {
      ClearFlagsBits(SetFlags(cur, f), f, k);
      SetFlagsBits(cur, f, k);
    }
    Pow2Byte();
    BitsEqual(r, cur, 8);
  }

  /** Disabling every reason leaves no flag set. */
  lemma ClearAllFlags(cur: nat)
    ensures ClearFlags(cur, 0xFF) == 0
  {
    var r := ClearFlags(cur, 0xFF);
    forall k | 0 <= k < 8 ensures !Bit(r, k) {
      ClearFlagsBits(cur, 0xFF, k);
      ByteOnes(k);
    }
    Pow2Byte();
    ZeroIffNoBit(r, 8);
  }

  /** The commands the module issues to the radio. */
  datatype RadioCmd =
    | RxOn            // MAC_RADIO_RX_ON
    | RxTxOff         // MAC_RADIO_RXTX_OFF, graceful stop
    | FhRxTxOff       // MAC_RADIO_FH_RXTX_OFF, abort in frequency-hopping mode
    | HaltCleanup     // macRxHaltCleanup

  /** The radio-off command for the current hopping mode. */
  function OffCmd(fhEnabled: bool): RadioCmd
  {
    if fhEnabled then FhRxTxOff else RxTxOff
  }

  class RxOnOff {
    /** macRxEnableFlags */
    var enableFlags: nat
    /** macRxCmdActive */
    var rxCmdActive: bool
    /** numRxPostCmd */
    var numRxPostCmd: nat
    /** MAC_FH_ENABLED */
    var fhEnabled: bool
    /** Commands issued to the radio, oldest first. */
    var radio: seq<RadioCmd>

    ghost predicate Valid()
      reads this
    {
      enableFlags < 0x100
    }

    /** macRxOnOffInit: no reason to receive is recorded. */
    constructor (fh: bool, rxActive: bool, postCmds: nat)
      ensures Valid()
      ensures enableFlags == 0
      ensures fhEnabled == fh && rxCmdActive == rxActive && numRxPostCmd == postCmds
      ensures radio == []
    {
      enableFlags := 0;
      fhEnabled := fh;
      rxCmdActive := rxActive;
      numRxPostCmd := postCmds;
      radio := [];
    }

    /** macRxOn: marks a receive command active, asks the radio to
        receive, and on failure puts the active mark back as it was. */
    method RxOnCmd(radioOk: bool) returns (success: bool)
      modifies this
      ensures success == radioOk
      ensures rxCmdActive == (radioOk || old(rxCmdActive))
      ensures radio == old(radio) + [RxOn]
      ensures enableFlags == old(enableFlags) && numRxPostCmd == old(numRxPostCmd)
      ensures fhEnabled == old(fhEnabled)
    {
      var activeOrg := rxCmdActive;
      if !rxCmdActive {
        rxCmdActive := true;
      }
      radio := radio + [RxOn];
      success := radioOk;
      if !success {
        rxCmdActive := activeOrg;
      }
    }

    /** macRxOff: stops the radio (aborting in hopping mode) and takes one
        off the count of pending post-receive commands, stopping at 0. */
    method RxOffCmd()
      modifies this
      ensures radio == old(radio) + [OffCmd(fhEnabled)]
      ensures numRxPostCmd == if old(numRxPostCmd) > 0 then old(numRxPostCmd) - 1 else 0
      ensures enableFlags == old(enableFlags) && rxCmdActive == old(rxCmdActive)
      ensures fhEnabled == old(fhEnabled)
    {
      if fhEnabled {
        radio := radio + [FhRxTxOff];
      } else {
        radio := radio + [RxTxOff];
      }
      if numRxPostCmd > 0 {
        numRxPostCmd := numRxPostCmd - 1;
      }
    }

    /** macRxEnable: records the reasons in `flags` and turns the receiver on. */
    method Enable(flags: nat, radioOk: bool) returns (success: bool)
      requires Valid()
      requires 0 < flags < 0x100
      modifies this
      ensures Valid()
      ensures enableFlags == SetFlags(old(enableFlags), flags) && enableFlags != 0
      ensures success == radioOk
      ensures rxCmdActive == (radioOk || old(rxCmdActive))
      ensures radio == old(radio) + [RxOn]
      ensures numRxPostCmd == old(numRxPostCmd) && fhEnabled == old(fhEnabled)
    {
      enableFlags := SetFlags(enableFlags, flags);
      SetFlagsNonZero(old(enableFlags), flags);
      success := RxOnCmd(radioOk);
    }

    /** macRxSoftEnable: records the reasons without touching the radio. */
    method SoftEnable(flags: nat)
      requires Valid()
      requires 0 < flags < 0x100
      modifies this
      ensures Valid()
      ensures enableFlags == SetFlags(old(enableFlags), flags) && enableFlags != 0
      ensures rxCmdActive == old(rxCmdActive) && numRxPostCmd == old(numRxPostCmd)
      ensures radio == old(radio) && fhEnabled == old(fhEnabled)
    {
      enableFlags := SetFlags(enableFlags, flags);
      SetFlagsNonZero(old(enableFlags), flags);
    }

    /** macRxOffRequest: the receiver goes off only when no reason is left
        and neither receive nor transmit is physically in progress. */
    method OffRequest(rxBusy: bool, txBusy: bool)
      requires Valid()
      modifies this
      ensures Valid()
      ensures enableFlags == old(enableFlags) && rxCmdActive == old(rxCmdActive)
      ensures fhEnabled == old(fhEnabled)
      ensures old(enableFlags) == 0 && !rxBusy && !txBusy ==>
                radio == old(radio) + [OffCmd(fhEnabled)] &&
                numRxPostCmd == (if old(numRxPostCmd) > 0 then old(numRxPostCmd) - 1 else 0)
      ensures !(old(enableFlags) == 0 && !rxBusy && !txBusy) ==>
                radio == old(radio) && numRxPostCmd == old(numRxPostCmd)
    {
      if enableFlags == 0 {
        var doneFlag := !rxBusy && !txBusy;
        if doneFlag {
          RxOffCmd();
        }
      }
    }

    /** macRxDisable: withdraws the reasons in `flags`, then asks for the
        receiver to go off. */
    method Disable(flags: nat, rxBusy: bool, txBusy: bool)
      requires Valid()
      requires 0 < flags < 0x100
      modifies this
      ensures Valid()
      ensures enableFlags == ClearFlags(old(enableFlags), flags)
      ensures rxCmdActive == old(rxCmdActive) && fhEnabled == old(fhEnabled)
      ensures enableFlags == 0 && !rxBusy && !txBusy ==>
                radio == old(radio) + [OffCmd(fhEnabled)] &&
                numRxPostCmd == (if old(numRxPostCmd) > 0 then old(numRxPostCmd) - 1 else 0)
      ensures !(enableFlags == 0 && !rxBusy && !txBusy) ==>
                radio == old(radio) && numRxPostCmd == old(numRxPostCmd)
    {
      enableFlags := ClearFlags(enableFlags, flags);
      OffRequest(rxBusy, txBusy);
    }

    /** macRxSoftDisable: withdraws the reasons without touching the radio. */
    method SoftDisable(flags: nat)
      requires Valid()
      requires 0 < flags < 0x100
      modifies this
      ensures Valid()
      ensures enableFlags == ClearFlags(old(enableFlags), flags)
      ensures rxCmdActive == old(rxCmdActive) && numRxPostCmd == old(numRxPostCmd)
      ensures radio == old(radio) && fhEnabled == old(fhEnabled)
    {
      enableFlags := ClearFlags(enableFlags, flags);
    }

    /** macRxHardDisable: forgets every reason, turns the receiver off and
        cleans up whatever receive was in progress. */
    method HardDisable()
      requires Valid()
      modifies this
      ensures Valid()
      ensures enableFlags == 0
      ensures radio == old(radio) + [OffCmd(fhEnabled), HaltCleanup]
      ensures numRxPostCmd == if old(numRxPostCmd) > 0 then old(numRxPostCmd) - 1 else 0
      ensures rxCmdActive == old(rxCmdActive) && fhEnabled == old(fhEnabled)
    {
      enableFlags := 0;
      RxOffCmd();
      radio := radio + [HaltCleanup];
    }

    /** macRxOnRequest: turns the receiver on only when some reason is
        recorded; otherwise reports failure and issues nothing. */
    method OnRequest(radioOk: bool) returns (success: bool)
      requires Valid()
      modifies this
      ensures Valid()
      ensures success == (old(enableFlags) != 0 && radioOk)
      ensures old(enableFlags) != 0 ==>
                radio == old(radio) + [RxOn] && rxCmdActive == (radioOk || old(rxCmdActive))
      ensures old(enableFlags) == 0 ==> radio == old(radio) && rxCmdActive == old(rxCmdActive)
      ensures enableFlags == old(enableFlags) && numRxPostCmd == old(numRxPostCmd)
      ensures fhEnabled == old(fhEnabled)
    {
      success := false;
      if enableFlags != 0 {
        success := RxOnCmd(radioOk);
      }
    }
  }
}
