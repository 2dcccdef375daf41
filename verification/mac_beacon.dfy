/** The beacon-enabled part of the TI-15.4 MAC: where the contention access
    period (CAP) of the current superframe starts and ends, in which
    period a frame may be sent, and how many symbols are left to begin a
    transmission. Timer readings, frame durations and the radio's backoff
    boundary are parameters. */
module MacBeacon {
  import opened Bits
  import Arith

  const U32: nat := 0x1_0000_0000

  /** Beacon order 15 marks a non-beacon network, superframe order 15 a
      superframe without active period (IEEE 802.15.4). */
  const BO_NON_BEACON: nat := 15
  const SO_NONE: nat := 15
  /** aBaseSlotDuration, in symbols. */
  const A_BASE_SLOT_DURATION: nat := 60

  /** The flags of a frame's `txSched`; the empty set is
      MAC_TX_SCHED_INACTIVE. */
  datatype Sched = OutgoingCap | IncomingCap | ScanRelated | Ready

  /** The flags of a frame's `txMode`. */
  datatype TxMode = Slotted | Broadcast

  /** The PIB attributes the beacon module reads, and the PHY's
      CCA-inclusive unit backoff period (MAC_A_UNIT_BACKOFF_CCA_PERIOD). */
  datatype Pib = Pib(
    beaconOrder: nat,
    unitBackoffCca: nat,
    superframeOrder: nat,
    rfFreq24: bool,
    battLifeExtPeriods: nat,
    beaconTxTime: nat,
    logicalChannel: nat,
    channelPage: nat,
    curPhyId: nat)

  /** A synchronisation request issued to track the coordinator's beacon. */
  datatype SyncReq = SyncReq(logicalChannel: nat, channelPage: nat, phyId: nat, trackBeacon: bool)

  datatype BeaconState = NoneSt | OtherSt(code: nat)

  /** `(int32)` of a 32-bit unsigned value. */
  function ToInt32(u: nat): (r: int)
    requires u < U32
    ensures -0x8000_0000 <= r < 0x8000_0000
    ensures r % U32 == u
  {
    if u >= 0x8000_0000 then u - U32 else u
  }

  /** The final `MIN(timeLeft, 65535)` with negative values reported as 0. */
  function ClampU16(timeLeft: int): (r: nat)
    ensures r <= 0xFFFF
    ensures 0 <= timeLeft <= 0xFFFF ==> r == timeLeft
    ensures timeLeft > 0xFFFF ==> r == 0xFFFF
    ensures timeLeft < 0 ==> r == 0
  {
    if timeLeft < 0 then 0 else if timeLeft < 0xFFFF then timeLeft else 0xFFFF
  }

  /** The CAP end, `((finalCapSlot + 1) << so) * aBaseSlotDuration` less a
      margin of 160 symbols when the superframe order equals the beacon
      order and of 16 otherwise, all in 32-bit unsigned arithmetic. */
  function CapEnd(finalCapSlot: nat, so: nat, bo: nat): (r: nat)
    requires so < 32
    ensures r < U32
    ensures so == SO_NONE ==> r == 0
  {
    if so == SO_NONE then 0
    else
      var shifted := ((finalCapSlot + 1) * Pow2(so)) % U32;
      var slots := (shifted * A_BASE_SLOT_DURATION) % U32;
      var margin := if so == bo then 160 else 16;
      (slots - margin) % U32
  }

  /** Without 32-bit wrap-around the CAP ends the margin before the end of
      the final CAP slot. */
  lemma CapEndExact(finalCapSlot: nat, so: nat, bo: nat)
    requires so < 32 && so != SO_NONE
    requires (if so == bo then 160 else 16) <= (finalCapSlot + 1) * Pow2(so) * A_BASE_SLOT_DURATION < U32
    ensures CapEnd(finalCapSlot, so, bo) ==
              (finalCapSlot + 1) * Pow2(so) * A_BASE_SLOT_DURATION - (if so == bo then 160 else 16)
  {
    var exact := (finalCapSlot + 1) * Pow2(so);
    assert exact <= exact * A_BASE_SLOT_DURATION;
    Arith.DivModUnique(0, exact, U32);
    Arith.DivModUnique(0, exact * A_BASE_SLOT_DURATION, U32);
    var margin := if so == bo then 160 else 16;
    Arith.DivModUnique(0, exact * A_BASE_SLOT_DURATION - margin, U32);
  }

  /** Whether the frame's destination is the short broadcast address: the
      destination address mode (bits 10-11 of the frame control field) is
      short, and the two bytes after the sequence number and destination
      PAN identifier are 0xFFFF. */
  function DestAddrMode(msdu: seq<nat>): (m: nat)
    requires |msdu| >= 2
    ensures m < 4
  {
    msdu[1] / 4 % 4
  }

  const SADDR_MODE_SHORT: nat := 2
  const DEST_ADDR_OFFSET: nat := 5
  const SHORT_ADDR_BROADCAST: nat := 0xFFFF

  predicate IsShortBroadcast(msdu: seq<nat>)
    requires |msdu| >= 2 && (DestAddrMode(msdu) == SADDR_MODE_SHORT ==> |msdu| >= DEST_ADDR_OFFSET + 2)
  {
    DestAddrMode(msdu) == SADDR_MODE_SHORT &&
    msdu[DEST_ADDR_OFFSET] + 256 * msdu[DEST_ADDR_OFFSET + 1] == SHORT_ADDR_BROADCAST
  }

  /** A frame queued for transmission, as far as scheduling sees it. */
  class TxFrame {
    var txSched: set<Sched>
    var txMode: set<TxMode>
    var indirect: bool
    var msdu: seq<nat>

    constructor (sched: set<Sched>, mode: set<TxMode>, isIndirect: bool, frame: seq<nat>)
      ensures txSched == sched && txMode == mode && indirect == isIndirect && msdu == frame
    {
      txSched := sched;
      txMode := mode;
      indirect := isIndirect;
      msdu := frame;
    }
  }

  /** The `macBeacon` record. */
  class Beacon {
    var capStart: nat
    var capEnd: nat
    var sched: set<Sched>
    var state: BeaconState
    var txSync: bool
    var rxWindow: bool
    var finalCapSlot: nat
    var battLifeExt: bool
    /** Synchronisation requests issued by `SetSched`, oldest first. */
    var syncRequests: seq<SyncReq>

    ghost predicate Valid()
      reads this
    {
      capStart < U32 && capEnd < U32
    }

    /** macBeaconReset: no CAP, inactive schedule, neither syncing nor tracking. */
    constructor (finalSlot: nat, battExt: bool)
      ensures Valid()
      ensures capStart == 0 && capEnd == 0 && sched == {} && state == NoneSt
      ensures !txSync && !rxWindow
      ensures finalCapSlot == finalSlot && battLifeExt == battExt && syncRequests == []
    {
      capStart := 0;
      capEnd := 0;
      sched := {};
      state := NoneSt;
      txSync := false;
      rxWindow := false;
      finalCapSlot := finalSlot;
      battLifeExt := battExt;
      syncRequests := [];
    }

    /** macBeaconReset on an existing record. */
    method Reset()
      modifies this
      ensures Valid()
      ensures capStart == 0 && capEnd == 0 && sched == {} && state == NoneSt
      ensures !txSync && !rxWindow
      ensures finalCapSlot == old(finalCapSlot) && battLifeExt == old(battLifeExt)
      ensures syncRequests == old(syncRequests)
    {
      capStart := 0;
      capEnd := 0;
      sched := {};
      state := NoneSt;
      txSync := false;
      rxWindow := false;
    }

    /** macBeaconCheckSched: the period a frame may be sent in now. */
    function CheckSched(scanning: bool, pib: Pib): (r: set<Sched>)
      reads this
      ensures scanning ==> r == {ScanRelated}
      ensures !scanning && pib.beaconOrder == BO_NON_BEACON ==> r == {OutgoingCap}
      ensures !scanning && pib.beaconOrder != BO_NON_BEACON ==> r == sched
    {
      if scanning then {ScanRelated}
      else if pib.beaconOrder == BO_NON_BEACON then {OutgoingCap}
      else sched
    }

    /** The symbols left before a transmission must begin, before clamping:
        in the 2.4 GHz band the transmission and 16 margins must fit before
        the CAP end; in an incoming CAP with battery life extension it is
        measured from the CAP start; otherwise the transmission, one margin
        and the radio's backoff boundary must fit before the CAP end. */
    function TimeLeft(pib: Pib, now: nat, duration: nat, margins: seq<nat>, boBoundary: nat): int
      requires Valid() && now < U32
      requires pib.superframeOrder < |margins|
      reads this
    {
      var margin := margins[pib.superframeOrder];
      if pib.rfFreq24 then
        ToInt32(capEnd) - ToInt32(now) - duration - 16 * margin
      else if battLifeExt && sched == {IncomingCap} then
        ToInt32(now) - ToInt32(capStart) - pib.battLifeExtPeriods * pib.unitBackoffCca
      else
        ToInt32(capEnd) - ToInt32(now) - duration - margin - boBoundary
    }

    /** macBeaconCheckTxTime: 0 in a non-beacon network or an inactive
        period, otherwise the time left clamped to an unsigned 16-bit value. */
    function CheckTxTime(pib: Pib, now: nat, duration: nat, margins: seq<nat>, boBoundary: nat): (r: nat)
      requires Valid() && now < U32
      requires pib.superframeOrder < |margins|
      reads this
      ensures r <= 0xFFFF
      ensures pib.beaconOrder == BO_NON_BEACON || sched == {} ==> r == 0
      ensures pib.beaconOrder != BO_NON_BEACON && sched != {} ==>
                r == ClampU16(TimeLeft(pib, now, duration, margins, boBoundary))
    {
      if pib.beaconOrder == BO_NON_BEACON then 0
      else if sched == {} then 0
      else ClampU16(TimeLeft(pib, now, duration, margins, boBoundary))
    }

    /** macBeaconSetupCap: the CAP starts after the beacon frame and ends
        at the final CAP slot; for an outgoing CAP both are shifted by the
        beacon transmit time. */
    method SetupCap(newSched: set<Sched>, so: nat, beaconDuration: nat, pib: Pib)
      requires so < 32
      modifies this
      ensures Valid()
      ensures sched == newSched
      ensures newSched != {OutgoingCap} ==>
                capStart == beaconDuration % U32 && capEnd == CapEnd(finalCapSlot, so, pib.beaconOrder)
      ensures newSched == {OutgoingCap} ==>
                capStart == (beaconDuration % U32 + pib.beaconTxTime) % U32 &&
                capEnd == (CapEnd(finalCapSlot, so, pib.beaconOrder) + pib.beaconTxTime) % U32
      ensures state == old(state) && txSync == old(txSync) && rxWindow == old(rxWindow)
      ensures finalCapSlot == old(finalCapSlot) && battLifeExt == old(battLifeExt)
      ensures syncRequests == old(syncRequests)
    {
      capStart := beaconDuration % U32;
      capEnd := CapEnd(finalCapSlot, so, pib.beaconOrder);
      sched := newSched;
      if newSched == {OutgoingCap} {
        capStart := (capStart + pib.beaconTxTime) % U32;
        capEnd := (capEnd + pib.beaconTxTime) % U32;
      }
    }

    /** macBeaconSetSched: picks the CAP a frame is sent in. A frame in a
        non-beacon network or of a scan goes out in the outgoing CAP as it
        is. Otherwise it is sent with slotted CSMA: a device's frame, or one
        for the coordinator, may use either CAP and starts tracking the
        beacon if nothing is tracked yet; any other frame uses the outgoing
        CAP, and an indirect short broadcast is marked broadcast and held
        back by clearing its ready flag. */
    method SetSched(frame: TxFrame, pib: Pib, networkStarted: bool, destIsCoord: bool)
      requires frame.indirect ==>
                 |frame.msdu| >= 2 && (DestAddrMode(frame.msdu) == SADDR_MODE_SHORT ==> |frame.msdu| >= DEST_ADDR_OFFSET + 2)
      modifies this, frame
      ensures OutgoingCap in frame.txSched
      ensures frame.indirect == old(frame.indirect) && frame.msdu == old(frame.msdu)
      ensures capStart == old(capStart) && capEnd == old(capEnd) && sched == old(sched)
      ensures state == old(state) && txSync == old(txSync) && rxWindow == old(rxWindow)
      ensures finalCapSlot == old(finalCapSlot) && battLifeExt == old(battLifeExt)
      ensures pib.beaconOrder == BO_NON_BEACON || ScanRelated in old(frame.txSched) ==>
                frame.txSched == old(frame.txSched) + {OutgoingCap} &&
                frame.txMode == old(frame.txMode) && syncRequests == old(syncRequests)
      ensures pib.beaconOrder != BO_NON_BEACON && ScanRelated !in old(frame.txSched) &&
              (!networkStarted || destIsCoord) ==>
                frame.txSched == old(frame.txSched) + {IncomingCap, OutgoingCap} &&
                frame.txMode == old(frame.txMode) + {Slotted} &&
                syncRequests == old(syncRequests) +
                  (if state == NoneSt
                   then [SyncReq(pib.logicalChannel, pib.channelPage, pib.curPhyId, true)]
                   else [])
      ensures pib.beaconOrder != BO_NON_BEACON && ScanRelated !in old(frame.txSched) &&
              networkStarted && !destIsCoord ==>
                syncRequests == old(syncRequests) &&
                (if frame.indirect && IsShortBroadcast(frame.msdu)
                 then frame.txSched == old(frame.txSched) + {OutgoingCap} - {Ready} &&
                      frame.txMode == old(frame.txMode) + {Slotted, Broadcast}
                 else frame.txSched == old(frame.txSched) + {OutgoingCap} &&
                      frame.txMode == old(frame.txMode) + {Slotted})
    {
      if pib.beaconOrder == BO_NON_BEACON || ScanRelated in frame.txSched {
        frame.txSched := frame.txSched + {OutgoingCap};
        return;
      }
      frame.txMode := frame.txMode + {Slotted};
      if !networkStarted || destIsCoord {
        frame.txSched := frame.txSched + {IncomingCap, OutgoingCap};
        if state == NoneSt {
          syncRequests := syncRequests + [SyncReq(pib.logicalChannel, pib.channelPage, pib.curPhyId, true)];
        }
      } else {
        frame.txSched := frame.txSched + {OutgoingCap};
        if frame.indirect && IsShortBroadcast(frame.msdu) {
          frame.txMode := frame.txMode + {Broadcast};
          frame.txSched := frame.txSched - {Ready};
        }
      }
    }
  }

  /** After a reset no transmission may begin until a CAP is set up. */
  lemma ResetLeavesNoTxTime(b: Beacon, pib: Pib, now: nat, duration: nat, margins: seq<nat>, boBoundary: nat)
    requires b.Valid() && b.sched == {} && now < U32
    requires pib.superframeOrder < |margins|
    ensures b.CheckTxTime(pib, now, duration, margins, boBoundary) == 0
  {
  }

  /** In a beacon network, outside a scan, the period reported is the one
      the last CAP set-up recorded. */
  lemma SetupThenCheckSched(b: Beacon, pib: Pib, s: set<Sched>)
    requires pib.beaconOrder != BO_NON_BEACON && b.sched == s
    ensures b.CheckSched(false, pib) == s
  {
  }

  /** In the 2.4 GHz band, while the CAP end is ahead of the clock by more
      than the frame and 16 margins, the time left is exactly the slack. */
  lemma TxTimeInBand(b: Beacon, pib: Pib, now: nat, duration: nat, margins: seq<nat>, boBoundary: nat)
    requires b.Valid() && now < 0x8000_0000 && b.capEnd < 0x8000_0000
    requires pib.superframeOrder < |margins| && pib.rfFreq24
    requires pib.beaconOrder != BO_NON_BEACON && b.sched != {}
    requires 0 <= b.capEnd - now - duration - 16 * margins[pib.superframeOrder] <= 0xFFFF
    ensures b.CheckTxTime(pib, now, duration, margins, boBoundary) ==
              b.capEnd - now - duration - 16 * margins[pib.superframeOrder]
  {
  }
}
