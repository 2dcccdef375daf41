/** The network group of the Wi-SUN stack configurator
    (ti_wisunfan/.meta/network_config/ti154stack_network_config.syscfg.js):
    which network configurables are shown for a project, the default
    channel masks, and the validation of the network settings.

    The configurator always runs in frequency-hopping mode. The channels a
    PHY supports are computed by an RF helper script, and the range and
    option checks are done by a common helper script; neither is part of
    this model, so the supported channels are a field of the instance and
    the checks are recorded as reports naming the config and the bounds. */
module NetworkConfig {
  import opened Wrappers
  import opened JsStrings
  import opened Strings

  /** The configurables the visibility rules name; `OtherCfg` stands for
      every configurable not listed (reportingInterval, scanDuration, ...). */
  datatype Cfg =
    | ChannelMask | FhChannelMask | FhAsyncChannelMask   // legacy masks
    | Channels
    | FhNetname | UnicastChannelMask | FhAsyncChannels
    | FhBroadcastInterval | BroadcastChannelMask | FhBroadcastDwellTime
    | OrphanBackoffInterval | ScanBackoffInterval
    | TrackingDelayTime | MaxDevices
    | PollingInterval
    | PanId | UnicastDwellTime
    | OtherCfg(name: string)

  /** The network settings of one stack instance. */
  datatype NetInst = NetInst(
    mode: string,
    project: string,
    customPhy: bool,
    totalChannels: nat,
    supportedChannels: seq<nat>,   // what getSupportedChannels returns for this instance
    channels: seq<string>,
    unicastChannelMask: seq<string>,
    broadcastChannelMask: seq<string>,
    fhAsyncChannels: seq<string>,
    fhNetname: string,
    maxDevices: int)

  const FreqHoppingSelected: bool := true
  const MaxDevicesDefault: int := 50

  predicate IsCollectorProject(inst: NetInst)
  {
    Includes(inst.project, "borderrouter")
  }

  predicate IsSensorProject(inst: NetInst)
  {
    Includes(inst.project, "routernode")
  }

  // ---------------------------------------------------------------------
  // getNetworkConfigHiddenState
  // ---------------------------------------------------------------------

  /** getNetworkConfigHiddenState: whether `cfg` is hidden for `inst`. */
  function HiddenState(inst: NetInst, cfg: Cfg): bool
  {
    var beaconModeSelected := inst.mode == "beacon";
    var isVisible :=
      match cfg
      case ChannelMask | FhChannelMask | FhAsyncChannelMask => false
      case Channels => !FreqHoppingSelected
      case FhNetname | UnicastChannelMask | FhAsyncChannels => FreqHoppingSelected
      case FhBroadcastInterval | BroadcastChannelMask | FhBroadcastDwellTime =>
        IsCollectorProject(inst) && FreqHoppingSelected
      case OrphanBackoffInterval | ScanBackoffInterval => IsSensorProject(inst) && !FreqHoppingSelected
      case TrackingDelayTime | MaxDevices => IsCollectorProject(inst)
      case PollingInterval => !beaconModeSelected
      case _ => true;
    !isVisible
  }

  /** The legacy masks, the non-hopping channel list and the non-hopping
      backoff intervals are hidden whatever the instance. */
  lemma AlwaysHidden(inst: NetInst, cfg: Cfg)
    requires cfg in {ChannelMask, FhChannelMask, FhAsyncChannelMask, Channels,
                     OrphanBackoffInterval, ScanBackoffInterval}
    ensures HiddenState(inst, cfg)
  {
  }

  /** The network name, the unicast mask and the async mask are always shown. */
  lemma AlwaysVisible(inst: NetInst, cfg: Cfg)
    requires cfg in {FhNetname, UnicastChannelMask, FhAsyncChannels, PanId, UnicastDwellTime}
    ensures !HiddenState(inst, cfg)
  {
  }

  /** The broadcast settings, the device-table size and the tracking delay
      are shown exactly for border-router projects. */
  lemma CollectorOnly(inst: NetInst, cfg: Cfg)
    requires cfg in {FhBroadcastInterval, BroadcastChannelMask, FhBroadcastDwellTime,
                     TrackingDelayTime, MaxDevices}
    ensures !HiddenState(inst, cfg) <==> IsCollectorProject(inst)
  {
  }

  /** The polling interval is hidden exactly in beacon mode, and every
      configurable the rules do not name is shown. */
  lemma PollingAndOthers(inst: NetInst, name: string)
    ensures HiddenState(inst, PollingInterval) <==> inst.mode == "beacon"
    ensures !HiddenState(inst, OtherCfg(name))
  {
  }

  // ---------------------------------------------------------------------
  // Default channel masks
  // ---------------------------------------------------------------------

  function Min(a: nat, b: nat): nat
  {
    if a <= b then a else b
  }

  /** getDefaultChannelMask: the first supported channel when the mode is
      a fixed-channel one, else every supported channel; `None` stands for
      the null instance used while the module initialises. */
  function DefaultChannelMask(inst: Option<NetInst>, supported: seq<nat>): seq<string>
  {
    if inst.Some? && Includes(inst.value.mode, "fixedChannel") then
      MapString(supported[..Min(1, |supported|)])
    else MapString(supported)
  }

  /** getDefaultChannelMaskCustom: the first `totalChannels` supported channels. */
  function DefaultChannelMaskCustom(inst: NetInst): seq<string>
  {
    MapString(inst.supportedChannels[..Min(inst.totalChannels, |inst.supportedChannels|)])
  }

  /** The default mask lists, in order and as decimal strings, the first
      supported channel in fixed-channel mode and all of them otherwise;
      each entry reads back as its channel number. */
  lemma DefaultChannelMaskContents(inst: Option<NetInst>, supported: seq<nat>)
    ensures var fixed := inst.Some? && Includes(inst.value.mode, "fixedChannel");
            |DefaultChannelMask(inst, supported)| == (if fixed then Min(1, |supported|) else |supported|)
    ensures forall i :: 0 <= i < |DefaultChannelMask(inst, supported)| ==>
              DefaultChannelMask(inst, supported)[i] == NatToString(supported[i]) &&
              DecimalValue(DefaultChannelMask(inst, supported)[i]) == supported[i]
  {
    forall i | 0 <= i < |DefaultChannelMask(inst, supported)|
      ensures DecimalValue(NatToString(supported[i])) == supported[i]
    {
      NatToStringRoundTrip(supported[i]);
    }
  }

  /** The custom-PHY default is the first `totalChannels` supported
      channels, or all of them when fewer are supported. */
  lemma DefaultChannelMaskCustomContents(inst: NetInst)
    ensures |DefaultChannelMaskCustom(inst)| == Min(inst.totalChannels, |inst.supportedChannels|)
    ensures forall i :: 0 <= i < |DefaultChannelMaskCustom(inst)| ==>
              DecimalValue(DefaultChannelMaskCustom(inst)[i]) == inst.supportedChannels[i]
  {
    forall i | 0 <= i < |DefaultChannelMaskCustom(inst)|
      ensures DecimalValue(DefaultChannelMaskCustom(inst)[i]) == inst.supportedChannels[i]
    {
      NatToStringRoundTrip(inst.supportedChannels[i]);
    }
  }

  // ---------------------------------------------------------------------
  // validate
  // ---------------------------------------------------------------------

  /** The texts this script logs itself. */
  datatype Msg = NoChannelSelected | NetnameTooLong | MaxDevicesNeedsTableUpdate | MaxDevicesAbove150

  function MsgText(m: Msg): string
  {
    match m
    case NoChannelSelected => "Must select at least one channel"
    case NetnameTooLong => "Must be less than 32 characters"
    case MaxDevicesNeedsTableUpdate =>
      "The selected value requires MAX_DEVICE_TABLE_ENTRIES to be updated in collector.opts"
    case MaxDevicesAbove150 => "It is not recommended that this value be set above 150"
  }

  /** The C types whose maximum bounds a range check. */
  datatype CType = Int16 | UInt32 | UInt8

  /** What validate logs, in order: its own errors and notes, and the
      checks it hands to the common helper script. */
  datatype Report =
    | LogError(msg: Msg, cfg: Cfg)
    | LogInfo(msg: Msg, cfg: Cfg)
    | RangeHex(cfg: Cfg, lo: int, hi: int)
    | RangeInt(cfg: Cfg, lo: int, max: CType)
    | MultiEnum(cfg: Cfg, values: seq<string>, options: seq<string>)

  /** The channel configurables and their values. */
  predicate IsMaskCfg(cfg: Cfg)
  {
    cfg in {Channels, UnicastChannelMask, BroadcastChannelMask, FhAsyncChannels}
  }

  function MaskOf(inst: NetInst, cfg: Cfg): seq<string>
    requires IsMaskCfg(cfg)
  {
    match cfg
    case Channels => inst.channels
    case UnicastChannelMask => inst.unicastChannelMask
    case BroadcastChannelMask => inst.broadcastChannelMask
    case FhAsyncChannels => inst.fhAsyncChannels
  }

  /** validateOneChannelSelected */
  function OneChannelSelected(inst: NetInst, cfg: Cfg): seq<Report>
    requires IsMaskCfg(cfg)
  {
    if !HiddenState(inst, cfg) && |MaskOf(inst, cfg)| == 0 then [LogError(NoChannelSelected, cfg)] else []
  }

  /** The checks of one channel configurable, made only when it is shown. */
  function MaskChecks(inst: NetInst, cfg: Cfg): seq<Report>
    requires IsMaskCfg(cfg)
  {
    if !HiddenState(inst, cfg) then
      OneChannelSelected(inst, cfg) + [MultiEnum(cfg, MaskOf(inst, cfg), MapString(inst.supportedChannels))]
    else []
  }

  function NetnameChecks(inst: NetInst): seq<Report>
  {
    if !HiddenState(inst, FhNetname) && |inst.fhNetname| >= 32 then [LogError(NetnameTooLong, FhNetname)]
    else []
  }

  function MaxDevicesChecks(inst: NetInst): seq<Report>
  {
    if !HiddenState(inst, MaxDevices) then
      [RangeInt(MaxDevices, 0, Int16)] +
      (if inst.maxDevices != MaxDevicesDefault then [LogInfo(MaxDevicesNeedsTableUpdate, MaxDevices)] else []) +
      (if inst.maxDevices > 150 then [LogInfo(MaxDevicesAbove150, MaxDevices)] else [])
    else []
  }

  function RangeIfShown(inst: NetInst, cfg: Cfg, max: CType): seq<Report>
  {
    if !HiddenState(inst, cfg) then [RangeInt(cfg, 0, max)] else []
  }

  /** The checks validate makes for the `i`-th configurable of
      `CheckedCfgs`, in order (the broadcast dwell-time check is made
      three times). */
  function Group(inst: NetInst, i: nat): seq<Report>
    requires i < 14
  {
    match i
    case 0 => [RangeHex(PanId, 0, 0xFFFF)]
    case 1 => MaskChecks(inst, Channels)
    case 2 => MaskChecks(inst, UnicastChannelMask)
    case 3 => MaskChecks(inst, BroadcastChannelMask)
    case 4 => MaskChecks(inst, FhAsyncChannels)
    case 5 => NetnameChecks(inst)
    case 6 => MaxDevicesChecks(inst)
    case 7 => RangeIfShown(inst, ScanBackoffInterval, UInt32)
    case 8 => RangeIfShown(inst, OrphanBackoffInterval, UInt32)
    case 9 => RangeIfShown(inst, UnicastDwellTime, UInt32)
    case 10 => RangeIfShown(inst, FhBroadcastInterval, UInt32)
    case _ => RangeIfShown(inst, FhBroadcastDwellTime, UInt8)
  }

  /** The checks validate makes, one group per configurable, in order. */
  function Checks(inst: NetInst): seq<seq<Report>>
  {
    seq(14, i requires 0 <= i < 14 => Group(inst, i))
  }

  /** The configurable each group of checks is about. */
  const CheckedCfgs: seq<Cfg> :=
    [PanId, Channels, UnicastChannelMask, BroadcastChannelMask, FhAsyncChannels, FhNetname, MaxDevices,
     ScanBackoffInterval, OrphanBackoffInterval, UnicastDwellTime, FhBroadcastInterval,
     FhBroadcastDwellTime, FhBroadcastDwellTime, FhBroadcastDwellTime]

  function Flatten(groups: seq<seq<Report>>): seq<Report>
  {
    if |groups| == 0 then [] else groups[0] + Flatten(groups[1..])
  }

  lemma {:induction false} FlattenMember(groups: seq<seq<Report>>, r: Report)
    ensures r in Flatten(groups) <==> exists i :: 0 <= i < |groups| && r in groups[i]
  {
    if |groups| > 0 {
      FlattenMember(groups[1..], r);
      if r in Flatten(groups[1..]) {
        var i :| 0 <= i < |groups[1..]| && r in groups[1..][i];
        assert r in groups[i + 1];
      }
      if exists i :: 0 <= i < |groups| && r in groups[i] {
        var i :| 0 <= i < |groups| && r in groups[i];
        if i > 0 {
          assert r in groups[1..][i - 1];
        }
      }
    }
  }

  /** validate: the reports for one instance, in the order they are logged. */
  function Validate(inst: NetInst): seq<Report>
  {
    Flatten(Checks(inst))
  }

  /** Every group is about its own configurable, and is empty when that
      configurable is hidden. */
  lemma ChecksAbout(inst: NetInst)
    ensures |Checks(inst)| == |CheckedCfgs|
    ensures forall i, r: Report :: 0 <= i < |CheckedCfgs| && r in Checks(inst)[i] ==>
              r.cfg == CheckedCfgs[i] && !HiddenState(inst, CheckedCfgs[i])
  {
    forall i, r: Report | 0 <= i < |CheckedCfgs| && r in Checks(inst)[i]
      ensures r.cfg == CheckedCfgs[i] && !HiddenState(inst, CheckedCfgs[i])
    {
      GroupAbout(inst, i, r);
    }
  }

  /** One group of checks is about its own configurable, when shown. */
  lemma GroupAbout(inst: NetInst, i: nat, r: Report)
    requires i < 14 && r in Group(inst, i)
    ensures r.cfg == CheckedCfgs[i] && !HiddenState(inst, CheckedCfgs[i])
  {
    if i == 0 {
      AlwaysVisible(inst, PanId);
    } else if i <= 4 {
      MaskAbout(inst, CheckedCfgs[i], r);
    }
  }

  /** The checks of a channel configurable are about it, and made only
      when it is shown. */
  lemma MaskAbout(inst: NetInst, cfg: Cfg, r: Report)
    requires IsMaskCfg(cfg) && r in MaskChecks(inst, cfg)
    ensures r.cfg == cfg && !HiddenState(inst, cfg)
  {
  }

  /** The reports about one configurable are those of its own groups. */
  lemma ReportAbout(inst: NetInst, r: Report)
    requires r in Validate(inst)
    ensures exists i :: 0 <= i < |CheckedCfgs| && CheckedCfgs[i] == r.cfg && r in Checks(inst)[i]
  {
    FlattenMember(Checks(inst), r);
    ChecksAbout(inst);
  }

  /** Nothing is reported about a hidden configurable. */
  lemma ValidateOnlyShown(inst: NetInst)
    ensures forall r :: r in Validate(inst) ==> !HiddenState(inst, r.cfg)
  {
    forall r | r in Validate(inst)
      ensures !HiddenState(inst, r.cfg)
    {
      ReportAbout(inst, r);
      ChecksAbout(inst);
    }
  }

  /** Each configurable but the broadcast dwell time has one group. */
  lemma CheckedCfgUnique(j: nat, k: nat)
    requires j < |CheckedCfgs| && k < 11
    requires CheckedCfgs[j] == CheckedCfgs[k]
    ensures j == k
  {
  }

  /** A report about `CheckedCfgs[i]` in group `i` is a report of validate. */
  lemma InGroup(inst: NetInst, i: nat, r: Report)
    requires i < |CheckedCfgs| && r in Checks(inst)[i]
    ensures r in Validate(inst)
  {
    FlattenMember(Checks(inst), r);
  }

  /** The reports about a configurable with a single group of checks are
      exactly the reports of that group. */
  lemma GroupReports(inst: NetInst, i: nat, r: Report)
    requires i < 11 && r.cfg == CheckedCfgs[i]
    ensures r in Validate(inst) <==> r in Checks(inst)[i]
  {
    if r in Validate(inst) {
      ReportAbout(inst, r);
      var j :| 0 <= j < |CheckedCfgs| && CheckedCfgs[j] == r.cfg && r in Checks(inst)[j];
      CheckedCfgUnique(j, i);
    }
    if r in Checks(inst)[i] {
      InGroup(inst, i, r);
    }
  }

  /** A shown channel mask with no channel is an error, and only then. */
  lemma EmptyMaskError(inst: NetInst, cfg: Cfg)
    requires IsMaskCfg(cfg)
    ensures LogError(NoChannelSelected, cfg) in Validate(inst) <==>
            !HiddenState(inst, cfg) && |MaskOf(inst, cfg)| == 0
  {
    var i := MaskGroup(inst, cfg);
    GroupReports(inst, i, LogError(NoChannelSelected, cfg));
    MaskChecksError(inst, cfg);
  }

  /** The group of checks validate makes for a channel configurable. */
  lemma MaskGroup(inst: NetInst, cfg: Cfg) returns (i: nat)
    requires IsMaskCfg(cfg)
    ensures 1 <= i <= 4 && CheckedCfgs[i] == cfg && Checks(inst)[i] == MaskChecks(inst, cfg)
  {
    i := match cfg
      case Channels => 1
      case UnicastChannelMask => 2
      case BroadcastChannelMask => 3
      case FhAsyncChannels => 4;
  }

  /** The empty-mask error of one channel configurable's checks. */
  lemma MaskChecksError(inst: NetInst, cfg: Cfg)
    requires IsMaskCfg(cfg)
    ensures LogError(NoChannelSelected, cfg) in MaskChecks(inst, cfg) <==>
            !HiddenState(inst, cfg) && |MaskOf(inst, cfg)| == 0
  {
  }

  /** The network name must be shorter than 32 characters. */
  lemma NetnameError(inst: NetInst)
    ensures LogError(NetnameTooLong, FhNetname) in Validate(inst) <==> |inst.fhNetname| >= 32
  {
    AlwaysVisible(inst, FhNetname);
    assert Checks(inst)[5] == NetnameChecks(inst);
    GroupReports(inst, 5, LogError(NetnameTooLong, FhNetname));
  }

  /** The reports about the device-table size are those of its own group. */
  lemma MaxDevicesReports(inst: NetInst, r: Report)
    requires r.cfg == MaxDevices
    ensures r in Validate(inst) <==> r in MaxDevicesChecks(inst)
  {
    assert Checks(inst)[6] == MaxDevicesChecks(inst);
    GroupReports(inst, 6, r);
  }

  /** A border router is told about a non-default or large device table;
      nothing about the table is reported for other projects. */
  lemma MaxDevicesNotes(inst: NetInst)
    ensures LogInfo(MaxDevicesNeedsTableUpdate, MaxDevices) in Validate(inst) <==>
            IsCollectorProject(inst) && inst.maxDevices != MaxDevicesDefault
    ensures LogInfo(MaxDevicesAbove150, MaxDevices) in Validate(inst) <==>
            IsCollectorProject(inst) && inst.maxDevices > 150
    ensures RangeInt(MaxDevices, 0, Int16) in Validate(inst) <==> IsCollectorProject(inst)
  {
    MaxDevicesReports(inst, LogInfo(MaxDevicesNeedsTableUpdate, MaxDevices));
    MaxDevicesReports(inst, LogInfo(MaxDevicesAbove150, MaxDevices));
    MaxDevicesReports(inst, RangeInt(MaxDevices, 0, Int16));
  }

  /** The non-hopping backoff intervals are never range-checked. */
  lemma BackoffNeverChecked(inst: NetInst, max: CType)
    ensures RangeInt(ScanBackoffInterval, 0, max) !in Validate(inst)
    ensures RangeInt(OrphanBackoffInterval, 0, max) !in Validate(inst)
  {
    ValidateOnlyShown(inst);
  }

  // ---------------------------------------------------------------------
  // setDefaultChannelMasks / setNetworkConfigHiddenState
  // ---------------------------------------------------------------------

  /** An instance together with the hidden flags of its configurables and
      the configurables whose default value has been restored, oldest first. */
  class NetworkView {
    var inst: NetInst
    var hidden: map<Cfg, bool>
    var restored: seq<Cfg>

    constructor (i: NetInst)
      ensures inst == i && hidden == map[] && restored == []
    {
      inst := i;
      hidden := map[];
      restored := [];
    }

    /** setDefaultChannelMasks: the three hopping masks get the default
        for the PHY in use. */
    method SetDefaultChannelMasks()
      modifies this
      ensures var mask := if old(inst).customPhy then DefaultChannelMaskCustom(old(inst))
                          else DefaultChannelMask(Some(old(inst)), old(inst).supportedChannels);
              inst == old(inst).(unicastChannelMask := mask, broadcastChannelMask := mask,
                                 fhAsyncChannels := mask)
      ensures hidden == old(hidden) && restored == old(restored)
    {
      if !inst.customPhy {
        inst := inst.(unicastChannelMask := DefaultChannelMask(Some(inst), inst.supportedChannels));
        inst := inst.(broadcastChannelMask := DefaultChannelMask(Some(inst), inst.supportedChannels));
        inst := inst.(fhAsyncChannels := DefaultChannelMask(Some(inst), inst.supportedChannels));
      } else {
        inst := inst.(unicastChannelMask := DefaultChannelMaskCustom(inst));
        inst := inst.(broadcastChannelMask := DefaultChannelMaskCustom(inst));
        inst := inst.(fhAsyncChannels := DefaultChannelMaskCustom(inst));
      }
    }

    /** setNetworkConfigHiddenState: records whether `cfg` is hidden and,
        when it is, restores its default value. */
    method SetHiddenState(cfg: Cfg)
      modifies this
      ensures hidden == old(hidden)[cfg := HiddenState(old(inst), cfg)]
      ensures restored == old(restored) + (if HiddenState(old(inst), cfg) then [cfg] else [])
      ensures inst == old(inst)
    {
      hidden := hidden[cfg := HiddenState(inst, cfg)];
      if hidden[cfg] {
        restored := restored + [cfg];
      }
    }
  }
}
