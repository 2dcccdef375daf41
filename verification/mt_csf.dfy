/**
 * The MT (monitor and test) interface of the collector application
 * (collector_mt/mt_csf.c): the RPC frame header, the framing of the
 * synchronous responses and asynchronous indications handed to the NPI
 * task, the decoders of the config and toggle requests, and the byte
 * layouts of the indications.
 *
 * Handing a frame to the NPI task is modelled as appending it to the
 * `outbox` of an `MtLink`; a failed allocation is the flag `allocOk`.
 * Calls into the collector (`Collector_sendConfigRequest`,
 * `Collector_sendToggleLedRequest`) become the request the handler would
 * make and the status it would get back.
 */
module MtCsf {
  import opened Wrappers
  import opened Bytes

  const RPC_FRAME_HDR_SZ: nat := 3
  const RPC_CMD_SREQ: nat := 0x20
  const RPC_CMD_AREQ: nat := 0x40
  const RPC_CMD_SRSP: nat := 0x60
  const MT_SYS_SYSID: nat := 1
  const MT_CSF_SYSID: nat := 9

  const CONFIG_REQ_LEN: nat := 12
  const TOGGLE_REQ_LEN: nat := 2
  const DEVICE_INFO_IND_LEN: nat := 17
  const DEVICE_NOT_ACTIVE_IND_LEN: nat := 13
  const CONFIG_RSP_IND_LEN: nat := 15
  const BASIC_SENSOR_LEN: nat := 13
  const TOGGLE_RSP_IND_LEN: nat := 3

  const MT_CSF_CMDID_DEVICE_UPDATE_IND: nat := 0x85
  const MT_CSF_CMDID_DEVICE_NOT_ACTIVE_IND: nat := 0x86
  const MT_CSF_CMDID_DEVICE_CONFIG_UPDATE_IND: nat := 0x87
  const MT_CSF_CMDID_SENSOR_UPDATE_IND: nat := 0x88
  const MT_CSF_CMDID_DEVICE_TOGGLE_IND: nat := 0x8A

  /** Field sizes of the optional sensor data, as the encoder writes them:
      two temperatures, one light reading, two humidity readings, 24
      statistics counters and two 32-bit intervals. */
  const SENSOR_TEMP_LEN: nat := 4
  const SENSOR_LIGHT_LEN: nat := 2
  const SENSOR_HUMIDITY_LEN: nat := 4
  const MSG_STATS_COUNT: nat := 24
  const SENSOR_MSG_STATS_LEN: nat := 2 * MSG_STATS_COUNT
  const SENSOR_CONFIG_SETTINGS_LEN: nat := 8

  // ---------------------------------------------------------------------
  // The RPC frame: [len, cmd0 = type << 5 | subsystem, cmd1 = command ID]
  // followed by `len` data bytes.
  // ---------------------------------------------------------------------

  /** `msgHdr_t` as `parseHeader` fills it; `pData` is an offset into the
      frame. */
  datatype MsgHdr = MsgHdr(len: nat, msgType: nat, subSystemId: nat, cmdId: nat, pData: nat)

  /**
   * `parseHeader`: the length byte, the three type bits and five subsystem
   * bits of the first command byte, and the command ID; the data starts
   * after the three header bytes. It reports success for every frame, so
   * the model has no status.
   */
  function ParseHeader(frame: seq<nat>): (h: MsgHdr)
    requires |frame| >= RPC_FRAME_HDR_SZ && IsBytes(frame)
    ensures h.len == frame[0] && h.cmdId == frame[2] && h.pData == RPC_FRAME_HDR_SZ
    ensures h.msgType < 8 && h.subSystemId < 0x20 && h.msgType * 0x20 + h.subSystemId == frame[1]
  {
    MsgHdr(frame[0], frame[1] / 0x20, frame[1] % 0x20, frame[2], RPC_FRAME_HDR_SZ)
  }

  /** The first command byte for a message type and subsystem: their OR,
      which is their sum as the type sits above the subsystem bits. */
  function Cmd0(cmdType: nat, subSystemId: nat): (b: nat)
    requires cmdType % 0x20 == 0 && cmdType < 0x100 && subSystemId < 0x20
    ensures b < 0x100 && b / 0x20 == cmdType / 0x20 && b % 0x20 == subSystemId
  {
    cmdType + subSystemId
  }

  /** The frame `sendNPI` builds: length, the two command bytes, the data. */
  function NpiFrame(cmd0: nat, cmd1: nat, data: seq<nat>): (f: seq<nat>)
    ensures |f| == RPC_FRAME_HDR_SZ + |data| && f[RPC_FRAME_HDR_SZ..] == data
  {
    [|data|, cmd0, cmd1] + data
  }

  /** Parsing a frame `sendNPI` built gives back its length, type,
      subsystem and command, and its data. */
  lemma NpiFrameRoundTrip(cmdType: nat, subSystemId: nat, cmdId: nat, data: seq<nat>)
    requires cmdType % 0x20 == 0 && cmdType < 0x100 && subSystemId < 0x20 && cmdId < 0x100
    requires |data| < 0x100 && IsBytes(data)
    ensures var f := NpiFrame(Cmd0(cmdType, subSystemId), cmdId, data);
      IsBytes(f)
      && ParseHeader(f) == MsgHdr(|data|, cmdType / 0x20, subSystemId, cmdId, RPC_FRAME_HDR_SZ)
      && f[ParseHeader(f).pData..] == data
  {
    var f := NpiFrame(Cmd0(cmdType, subSystemId), cmdId, data);
    assert forall i :: 0 <= i < |f| ==> f[i] < 0x100 by {
      forall i | 0 <= i < |f| ensures f[i] < 0x100 {
        if i >= RPC_FRAME_HDR_SZ {
          assert f[i] == data[i - RPC_FRAME_HDR_SZ];
        }
      }
    }
  }

  /** The command bytes of the application's responses and indications
      are 0x69 and 0x49, the values the MT interface documents. */
  lemma ResponseCommandBytes()
    ensures Cmd0(RPC_CMD_SRSP, MT_CSF_SYSID) == 0x69 && Cmd0(RPC_CMD_AREQ, MT_CSF_SYSID) == 0x49
    ensures Cmd0(RPC_CMD_SRSP, MT_CSF_SYSID) / 0x20 == 3 && Cmd0(RPC_CMD_AREQ, MT_CSF_SYSID) / 0x20 == 2
  {
  }

  // ---------------------------------------------------------------------
  // Requests
  // ---------------------------------------------------------------------

  /** What `processConfigRequest` asks the collector to send. */
  datatype ConfigRequest = ConfigRequest(shortAddr: nat, frameControl: nat, reportingInterval: nat, pollingInterval: nat)

  predicate ValidConfigRequest(r: ConfigRequest)
  {
    r.shortAddr < 0x1_0000 && r.frameControl < 0x1_0000
    && r.reportingInterval < 0x1_0000_0000 && r.pollingInterval < 0x1_0000_0000
  }

  /** A config request frame holds exactly `CONFIG_REQ_LEN` data bytes. */
  function DecodeConfigRequest(frame: seq<nat>): (r: Option<ConfigRequest>)
    requires |frame| >= RPC_FRAME_HDR_SZ && IsBytes(frame) && |frame| >= RPC_FRAME_HDR_SZ + frame[0]
    ensures r.Some? <==> ParseHeader(frame).len == CONFIG_REQ_LEN
  {
    if ParseHeader(frame).len != CONFIG_REQ_LEN then None
    else
      var d := RPC_FRAME_HDR_SZ;
      Some(ConfigRequest(ReadLe16(frame, d), ReadLe16(frame, d + 2), ReadLe32(frame, d + 4), ReadLe32(frame, d + 8)))
  }

  /** The data of a config request as the host lays it out. */
  function ConfigRequestData(r: ConfigRequest): (data: seq<nat>)
    requires ValidConfigRequest(r)
    ensures |data| == CONFIG_REQ_LEN && IsBytes(data)
  {
    Le16(r.shortAddr) + Le16(r.frameControl) + Le32(r.reportingInterval) + Le32(r.pollingInterval)
  }

  /** A config request framed by the host decodes to the same fields. */
  lemma ConfigRequestRoundTrip(cmd0: nat, cmd1: nat, r: ConfigRequest)
    requires cmd0 < 0x100 && cmd1 < 0x100 && ValidConfigRequest(r)
    ensures var f := NpiFrame(cmd0, cmd1, ConfigRequestData(r));
      IsBytes(f) && DecodeConfigRequest(f) == Some(r)
  {
    var data := ConfigRequestData(r);
    var f := NpiFrame(cmd0, cmd1, data);
    assert IsBytes(f) by {
      forall i | 0 <= i < |f| ensures f[i] < 0x100 {
        if i >= RPC_FRAME_HDR_SZ {
          assert f[i] == data[i - RPC_FRAME_HDR_SZ];
        }
      }
    }
    assert f[3..5] == Le16(r.shortAddr);
    assert f[5..7] == Le16(r.frameControl);
    assert f[7..11] == Le32(r.reportingInterval);
    assert f[11..15] == Le32(r.pollingInterval);
    ReadLe16At(f, 3, r.shortAddr);
    ReadLe16At(f, 5, r.frameControl);
    ReadLe32At(f, 7, r.reportingInterval);
    ReadLe32At(f, 11, r.pollingInterval);
  }

  /** A toggle request frame holds exactly `TOGGLE_REQ_LEN` data bytes:
      the short address of the device. */
  function DecodeToggleRequest(frame: seq<nat>): (shortAddr: Option<nat>)
    requires |frame| >= RPC_FRAME_HDR_SZ && IsBytes(frame) && |frame| >= RPC_FRAME_HDR_SZ + frame[0]
    ensures shortAddr.Some? <==> ParseHeader(frame).len == TOGGLE_REQ_LEN
    ensures shortAddr.Some? ==> shortAddr.value < 0x1_0000
  {
    if ParseHeader(frame).len != TOGGLE_REQ_LEN then None
    else Some(ReadLe16(frame, RPC_FRAME_HDR_SZ))
  }

  // ---------------------------------------------------------------------
  // Indications
  // ---------------------------------------------------------------------

  /** `ApiMac_deviceDescriptor_t`. */
  datatype DeviceDescriptor = DeviceDescriptor(panID: nat, shortAddress: nat, extAddress: seq<nat>)

  predicate ValidDevice(d: DeviceDescriptor)
  {
    d.panID < 0x1_0000 && d.shortAddress < 0x1_0000 && |d.extAddress| == 8 && IsBytes(d.extAddress)
  }

  function BoolByte(b: bool): nat { if b then 1 else 0 }

  /** The byte an `int8_t` is stored as. */
  function Int8Byte(v: int): (b: nat)
    requires -0x80 <= v < 0x80
    ensures b < 0x100 && (v >= 0 ==> b == v) && (v < 0 ==> b == v + 0x100)
  {
    if v < 0 then v + 0x100 else v
  }

  /** `MTCSF_deviceNotActiveIndCB`: PAN ID and short address low byte
      first, the extended address, then the timeout flag. */
  function DeviceNotActiveInd(d: DeviceDescriptor, timeout: bool): (ind: seq<nat>)
    requires ValidDevice(d)
    ensures |ind| == DEVICE_NOT_ACTIVE_IND_LEN && IsBytes(ind)
  {
    Le16(d.panID) + Le16(d.shortAddress) + d.extAddress + [BoolByte(timeout)]
  }

  /** Every field of the device-not-active indication reads back. */
  lemma DeviceNotActiveIndFields(d: DeviceDescriptor, timeout: bool)
    requires ValidDevice(d)
    ensures var ind := DeviceNotActiveInd(d, timeout);
      ReadLe16(ind, 0) == d.panID && ReadLe16(ind, 2) == d.shortAddress
      && ind[4..12] == d.extAddress && (ind[12] == 1 <==> timeout)
  {
    var ind := DeviceNotActiveInd(d, timeout);
    assert ind[0..2] == Le16(d.panID) && ind[2..4] == Le16(d.shortAddress);
    ReadLe16At(ind, 0, d.panID);
    ReadLe16At(ind, 2, d.shortAddress);
  }

  /** `Smsgs_configRspMsg_t` as far as the indication reports it. */
  datatype ConfigRsp = ConfigRsp(status: nat, frameControl: nat, reportingInterval: nat, pollingInterval: nat)

  predicate ValidConfigRsp(r: ConfigRsp)
  {
    r.status < 0x1_0000 && r.frameControl < 0x1_0000
    && r.reportingInterval < 0x1_0000_0000 && r.pollingInterval < 0x1_0000_0000
  }

  /** `MTCSF_configResponseIndCB`: source short address, RSSI, status,
      frame control and the two intervals, multi-byte fields low byte
      first. */
  function ConfigResponseInd(srcShort: nat, rssi: int, r: ConfigRsp): (ind: seq<nat>)
    requires srcShort < 0x1_0000 && -0x80 <= rssi < 0x80 && ValidConfigRsp(r)
    ensures |ind| == CONFIG_RSP_IND_LEN && IsBytes(ind)
  {
    Le16(srcShort) + [Int8Byte(rssi)] + Le16(r.status) + Le16(r.frameControl)
    + Le32(r.reportingInterval) + Le32(r.pollingInterval)
  }

  /** Every field of the config-response indication reads back. */
  lemma ConfigResponseIndFields(srcShort: nat, rssi: int, r: ConfigRsp)
    requires srcShort < 0x1_0000 && -0x80 <= rssi < 0x80 && ValidConfigRsp(r)
    ensures var ind := ConfigResponseInd(srcShort, rssi, r);
      ReadLe16(ind, 0) == srcShort && ind[2] == Int8Byte(rssi)
      && ReadLe16(ind, 3) == r.status && ReadLe16(ind, 5) == r.frameControl
      && ReadLe32(ind, 7) == r.reportingInterval && ReadLe32(ind, 11) == r.pollingInterval
  {
    var ind := ConfigResponseInd(srcShort, rssi, r);
    assert ind[0..2] == Le16(srcShort) && ind[3..5] == Le16(r.status) && ind[5..7] == Le16(r.frameControl);
    assert ind[7..11] == Le32(r.reportingInterval) && ind[11..15] == Le32(r.pollingInterval);
    ReadLe16At(ind, 0, srcShort);
    ReadLe16At(ind, 3, r.status);
    ReadLe16At(ind, 5, r.frameControl);
    ReadLe32At(ind, 7, r.reportingInterval);
    ReadLe32At(ind, 11, r.pollingInterval);
  }

  /** `MTCSF_deviceToggleIndCB`: the short address and the LED state. */
  function DeviceToggleInd(shortAddr: nat, ledState: bool): (ind: seq<nat>)
    requires shortAddr < 0x1_0000
    ensures |ind| == TOGGLE_RSP_IND_LEN && IsBytes(ind)
    ensures ReadLe16(ind, 0) == shortAddr && (ind[2] == 1 <==> ledState)
  {
    Le16(shortAddr) + [BoolByte(ledState)]
  }

  /** Bit `k` of a frame-control word. */
  predicate HasField(frameControl: nat, k: nat)
    requires k < 5
  {
    (if k == 0 then frameControl else if k == 1 then frameControl / 2
     else if k == 2 then frameControl / 4 else if k == 3 then frameControl / 8
     else frameControl / 16) % 2 == 1
  }

  /** `Smsgs_sensorMsg_t`; 16-bit readings are held as their bit patterns. */
  datatype SensorMsg = SensorMsg(
    extAddress: seq<nat>, frameControl: nat,
    ambienceTemp: nat, objectTemp: nat, lightRaw: nat, humidityTemp: nat, humidity: nat,
    msgStats: seq<nat>, reportingInterval: nat, pollingInterval: nat)

  predicate ValidSensorMsg(m: SensorMsg)
  {
    |m.extAddress| == 8 && IsBytes(m.extAddress) && m.frameControl < 0x1_0000
    && m.ambienceTemp < 0x1_0000 && m.objectTemp < 0x1_0000 && m.lightRaw < 0x1_0000
    && m.humidityTemp < 0x1_0000 && m.humidity < 0x1_0000
    && |m.msgStats| == MSG_STATS_COUNT && (forall i :: 0 <= i < MSG_STATS_COUNT ==> m.msgStats[i] < 0x1_0000)
    && m.reportingInterval < 0x1_0000_0000 && m.pollingInterval < 0x1_0000_0000
  }

  /** The length `MTCSF_sensorUpdateIndCB` allocates: the basic part plus
      each field the frame control selects. */
  function SensorIndLen(frameControl: nat): (len: nat)
    ensures BASIC_SENSOR_LEN <= len <= BASIC_SENSOR_LEN + 66
  {
    BASIC_SENSOR_LEN
    + (if HasField(frameControl, 0) then SENSOR_TEMP_LEN else 0)
    + (if HasField(frameControl, 1) then SENSOR_LIGHT_LEN else 0)
    + (if HasField(frameControl, 2) then SENSOR_HUMIDITY_LEN else 0)
    + (if HasField(frameControl, 3) then SENSOR_MSG_STATS_LEN else 0)
    + (if HasField(frameControl, 4) then SENSOR_CONFIG_SETTINGS_LEN else 0)
  }

  /** Counters, each low byte first. */
  function Le16s(vs: seq<nat>): (s: seq<nat>)
    requires forall i :: 0 <= i < |vs| ==> vs[i] < 0x1_0000
    ensures |s| == 2 * |vs| && IsBytes(s)
  {
    if vs == [] then [] else Le16(vs[0]) + Le16s(vs[1..])
  }

  /** A field's bytes when its frame-control bit is set, none otherwise. */
  function Optional(present: bool, field: seq<nat>): (s: seq<nat>)
    requires IsBytes(field)
    ensures IsBytes(s) && |s| == (if present then |field| else 0)
  {
    if present then field else []
  }

  /** The temperature, light and humidity readings the frame control
      selects, in bit order. */
  function ReadingFields(m: SensorMsg): (s: seq<nat>)
    requires ValidSensorMsg(m)
    ensures IsBytes(s)
    ensures |s| == (if HasField(m.frameControl, 0) then SENSOR_TEMP_LEN else 0)
      + (if HasField(m.frameControl, 1) then SENSOR_LIGHT_LEN else 0)
      + (if HasField(m.frameControl, 2) then SENSOR_HUMIDITY_LEN else 0)
  {
    var fc := m.frameControl;
    var temp := Le16(m.ambienceTemp) + Le16(m.objectTemp);
    var hum := Le16(m.humidityTemp) + Le16(m.humidity);
    BytesConcat(Le16(m.ambienceTemp), Le16(m.objectTemp));
    BytesConcat(Le16(m.humidityTemp), Le16(m.humidity));
    var a := Optional(HasField(fc, 0), temp);
    var b := Optional(HasField(fc, 1), Le16(m.lightRaw));
    var c := Optional(HasField(fc, 2), hum);
    BytesConcat(a, b);
    BytesConcat(a + b, c);
    a + b + c
  }

  /** The statistics and configuration settings the frame control
      selects, in bit order. */
  function StatusFields(m: SensorMsg): (s: seq<nat>)
    requires ValidSensorMsg(m)
    ensures IsBytes(s)
    ensures |s| == (if HasField(m.frameControl, 3) then SENSOR_MSG_STATS_LEN else 0)
      + (if HasField(m.frameControl, 4) then SENSOR_CONFIG_SETTINGS_LEN else 0)
  {
    var fc := m.frameControl;
    var config := Le32(m.reportingInterval) + Le32(m.pollingInterval);
    BytesConcat(Le32(m.reportingInterval), Le32(m.pollingInterval));
    var d := Optional(HasField(fc, 3), Le16s(m.msgStats));
    var e := Optional(HasField(fc, 4), config);
    BytesConcat(d, e);
    d + e
  }

  /** The data fields of a sensor indication, in frame-control bit order. */
  function SensorFields(m: SensorMsg): (s: seq<nat>)
    requires ValidSensorMsg(m)
    ensures |s| == SensorIndLen(m.frameControl) - BASIC_SENSOR_LEN && IsBytes(s)
  {
    FieldsLength(m);
    BytesConcat(ReadingFields(m), StatusFields(m));
    ReadingFields(m) + StatusFields(m)
  }

  /** The readings and the status fields together take what the frame
      control allocates beyond the basic part. */
  lemma FieldsLength(m: SensorMsg)
    requires ValidSensorMsg(m)
    ensures |ReadingFields(m)| + |StatusFields(m)| == SensorIndLen(m.frameControl) - BASIC_SENSOR_LEN
  {
    var fc := m.frameControl;
    var b0, b1, b2, b3, b4 := HasField(fc, 0), HasField(fc, 1), HasField(fc, 2), HasField(fc, 3), HasField(fc, 4);
    assert SensorIndLen(fc) == BASIC_SENSOR_LEN + (if b0 then SENSOR_TEMP_LEN else 0)
      + (if b1 then SENSOR_LIGHT_LEN else 0) + (if b2 then SENSOR_HUMIDITY_LEN else 0)
      + (if b3 then SENSOR_MSG_STATS_LEN else 0) + (if b4 then SENSOR_CONFIG_SETTINGS_LEN else 0);
  }

  /**
   * `MTCSF_sensorUpdateIndCB`'s buffer: source short address, RSSI,
   * extended address and frame control, then the selected fields; the
   * length always matches the one allocated.
   */
  function SensorUpdateInd(srcShort: nat, rssi: int, m: SensorMsg): (ind: seq<nat>)
    requires srcShort < 0x1_0000 && -0x80 <= rssi < 0x80 && ValidSensorMsg(m)
    ensures |ind| == SensorIndLen(m.frameControl) && IsBytes(ind)
    ensures ind[BASIC_SENSOR_LEN..] == SensorFields(m)
    ensures ReadLe16(ind, 0) == srcShort && ind[2] == Int8Byte(rssi) && ind[3..11] == m.extAddress
    ensures ReadLe16(ind, 11) == m.frameControl
  {
    var head := SensorHeader(srcShort, Int8Byte(rssi), m.extAddress, m.frameControl);
    var fields := SensorFields(m);
    BytesConcat(head, fields);
    assert (head + fields)[..BASIC_SENSOR_LEN] == head;
    assert (head + fields)[BASIC_SENSOR_LEN..] == fields;
    head + fields
  }

  /** The fixed 13-byte head of a sensor indication. */
  function SensorHeader(srcShort: nat, rssiByte: nat, extAddress: seq<nat>, frameControl: nat): (head: seq<nat>)
    requires srcShort < 0x1_0000 && rssiByte < 0x100 && |extAddress| == 8 && IsBytes(extAddress)
    requires frameControl < 0x1_0000
    ensures |head| == BASIC_SENSOR_LEN && IsBytes(head)
    ensures ReadLe16(head, 0) == srcShort && head[2] == rssiByte && head[3..11] == extAddress
    ensures ReadLe16(head, 11) == frameControl
  {
    var head := Le16(srcShort) + [rssiByte] + extAddress + Le16(frameControl);
    assert head[0..2] == Le16(srcShort) && head[11..13] == Le16(frameControl);
    ReadLe16At(head, 0, srcShort);
    ReadLe16At(head, 11, frameControl);
    head
  }

  /** `Llc_deviceListItem_t` as `fillInDevInfo` reads it; `capInfo` is the
      byte `ApiMac_convertCapabilityInfo` gives. */
  datatype DeviceItem = DeviceItem(devInfo: DeviceDescriptor, capInfo: nat, rxFrameCounter: nat)

  predicate ValidItem(item: DeviceItem)
  {
    ValidDevice(item.devInfo) && item.capInfo < 0x100 && item.rxFrameCounter < 0x1_0000_0000
  }

  /** The 17 bytes `fillInDevInfo` writes for a device. */
  function DevInfoBytes(item: DeviceItem): (s: seq<nat>)
    requires ValidItem(item)
    ensures |s| == DEVICE_INFO_IND_LEN && IsBytes(s)
  {
    Le16(item.devInfo.panID) + Le16(item.devInfo.shortAddress) + item.devInfo.extAddress
    + [item.capInfo] + Le32(item.rxFrameCounter)
  }

  /** Each field of a device record reads back from its place: PAN ID and
      short address low byte first, the extended address, the capability
      byte, then the frame counter low byte first. */
  lemma DevInfoReadsBack(item: DeviceItem)
    requires ValidItem(item)
    ensures var s := DevInfoBytes(item);
      ReadLe16(s, 0) == item.devInfo.panID && ReadLe16(s, 2) == item.devInfo.shortAddress
      && s[4..12] == item.devInfo.extAddress && s[12] == item.capInfo
      && ReadLe32(s, 13) == item.rxFrameCounter
  {
    var s := DevInfoBytes(item);
    assert s[0..2] == Le16(item.devInfo.panID);
    assert s[2..4] == Le16(item.devInfo.shortAddress);
    assert s[13..17] == Le32(item.rxFrameCounter);
    ReadLe16At(s, 0, item.devInfo.panID);
    ReadLe16At(s, 2, item.devInfo.shortAddress);
    ReadLe32At(s, 13, item.rxFrameCounter);
  }

  /**
   * `fillInDevInfo`: write the device record into the caller's buffer from
   * `off` on, one byte after the other; nothing else in the buffer changes.
   */
  method FillInDevInfo(item: DeviceItem, buf: array<nat>, off: nat)
    requires ValidItem(item) && off + DEVICE_INFO_IND_LEN <= buf.Length
    modifies buf
    ensures buf[off..off + DEVICE_INFO_IND_LEN] == DevInfoBytes(item)
    ensures buf[..off] == old(buf[..off])
    ensures buf[off + DEVICE_INFO_IND_LEN..] == old(buf[off + DEVICE_INFO_IND_LEN..])
  {
    var bytes := DevInfoBytes(item);
    var p := off;
    while p < off + DEVICE_INFO_IND_LEN
      invariant off <= p <= off + DEVICE_INFO_IND_LEN
      invariant buf[off..p] == bytes[..p - off]
      invariant buf[..off] == old(buf[..off])
      invariant buf[off + DEVICE_INFO_IND_LEN..] == old(buf[off + DEVICE_INFO_IND_LEN..])
    {
      buf[p] := bytes[p - off];
      p := p + 1;
    }
  }

  // ---------------------------------------------------------------------
  // The link to the NPI task
  // ---------------------------------------------------------------------

  /** The frames handed to the NPI task and the message counters. */
  class MtLink {
    var outbox: seq<seq<nat>>
    var numRxMsgs: nat
    var numTxMsgs: nat

    constructor ()
      ensures outbox == [] && numRxMsgs == 0 && numTxMsgs == 0
    {
      outbox, numRxMsgs, numTxMsgs := [], 0, 0;
    }

    /**
     * `sendNPI`: allocate `RPC_FRAME_HDR_SZ + len` bytes, write the
     * length and the two command bytes, copy the data and hand the frame
     * over. When the allocation fails nothing is sent.
     */
    method SendNpi(cmd0: nat, cmd1: nat, data: seq<nat>, allocOk: bool)
      modifies this`outbox
      ensures outbox == old(outbox) + (if allocOk then [NpiFrame(cmd0, cmd1, data)] else [])
    {
      if allocOk {
        var msg := new nat[RPC_FRAME_HDR_SZ + |data|];
        msg[0], msg[1], msg[2] := |data|, cmd0, cmd1;
        forall i | 0 <= i < |data| {
          msg[RPC_FRAME_HDR_SZ + i] := data[i];
        }
        assert msg[..] == NpiFrame(cmd0, cmd1, data);
        outbox := outbox + [msg[..]];
      }
    }

    /** `sendSRSP`: a synchronous response of the application subsystem. */
    method SendSrsp(cmdId: nat, data: seq<nat>, allocOk: bool)
      modifies this`outbox
      ensures outbox == old(outbox) + (if allocOk then [NpiFrame(Cmd0(RPC_CMD_SRSP, MT_CSF_SYSID), cmdId, data)] else [])
    {
      SendNpi(Cmd0(RPC_CMD_SRSP, MT_CSF_SYSID), cmdId, data, allocOk);
    }

    /** `sendAREQ`: an asynchronous indication of the application
        subsystem. */
    method SendAreq(cmdId: nat, data: seq<nat>, allocOk: bool)
      modifies this`outbox
      ensures outbox == old(outbox) + (if allocOk then [NpiFrame(Cmd0(RPC_CMD_AREQ, MT_CSF_SYSID), cmdId, data)] else [])
    {
      SendNpi(Cmd0(RPC_CMD_AREQ, MT_CSF_SYSID), cmdId, data, allocOk);
    }

    /**
     * `processConfigRequest`: with exactly twelve data bytes, decode the
     * request, pass it to the collector and answer with the collector's
     * status; otherwise answer `invalidState` without asking the
     * collector. The response carries the status's low byte.
     */
    method ProcessConfigRequest(frame: seq<nat>, collectorStatus: nat, invalidState: nat, allocOk: bool)
      returns (request: Option<ConfigRequest>)
      requires |frame| >= RPC_FRAME_HDR_SZ && IsBytes(frame) && |frame| >= RPC_FRAME_HDR_SZ + frame[0]
      modifies this`outbox
      ensures request == DecodeConfigRequest(frame)
      ensures var stat := if request.Some? then collectorStatus else invalidState;
        outbox == old(outbox) + (if allocOk then [NpiFrame(Cmd0(RPC_CMD_SRSP, MT_CSF_SYSID), frame[2], [stat % 0x100])] else [])
    {
      var hdr := ParseHeader(frame);
      var stat := invalidState;
      request := None;
      if hdr.len == CONFIG_REQ_LEN {
        request := DecodeConfigRequest(frame);
        stat := collectorStatus;
      }
      SendSrsp(hdr.cmdId, [stat % 0x100], allocOk);
    }

    /** `processToggleRequest`: the same shape with a two-byte request
        holding the device's short address. */
    method ProcessToggleRequest(frame: seq<nat>, collectorStatus: nat, invalidState: nat, allocOk: bool)
      returns (shortAddr: Option<nat>)
      requires |frame| >= RPC_FRAME_HDR_SZ && IsBytes(frame) && |frame| >= RPC_FRAME_HDR_SZ + frame[0]
      modifies this`outbox
      ensures shortAddr == DecodeToggleRequest(frame)
      ensures var stat := if shortAddr.Some? then collectorStatus else invalidState;
        outbox == old(outbox) + (if allocOk then [NpiFrame(Cmd0(RPC_CMD_SRSP, MT_CSF_SYSID), frame[2], [stat % 0x100])] else [])
    {
      var hdr := ParseHeader(frame);
      var stat := invalidState;
      shortAddr := None;
      if hdr.len == TOGGLE_REQ_LEN {
        shortAddr := DecodeToggleRequest(frame);
        stat := collectorStatus;
      }
      SendSrsp(hdr.cmdId, [stat % 0x100], allocOk);
    }

    /**
     * `MTCSF_sensorUpdateIndCB`: allocate the indication's length, fill it
     * and send it; when the allocation fails nothing is sent.
     */
    method SensorUpdateIndCB(srcShort: nat, rssi: int, m: SensorMsg, allocOk: bool)
      requires srcShort < 0x1_0000 && -0x80 <= rssi < 0x80 && ValidSensorMsg(m)
      modifies this`outbox
      ensures outbox == old(outbox)
        + (if allocOk then [NpiFrame(Cmd0(RPC_CMD_AREQ, MT_CSF_SYSID), MT_CSF_CMDID_SENSOR_UPDATE_IND, SensorUpdateInd(srcShort, rssi, m))]
           else [])
    {
      var len := SensorIndLen(m.frameControl);
      if allocOk {
        var ind := SensorUpdateInd(srcShort, rssi, m);
        assert |ind| == len;
        SendAreq(MT_CSF_CMDID_SENSOR_UPDATE_IND, ind, true);
      }
    }

    /** `processMsg`: every message handed over from the MAC counts as
        received, in a 16-bit counter. */
    method CountRx()
      modifies this`numRxMsgs
      ensures numRxMsgs == (old(numRxMsgs) + 1) % 0x1_0000
    {
      numRxMsgs := (numRxMsgs + 1) % 0x1_0000;
    }

    /** `relayTxMsg`: every message the NPI task sends counts as sent, in
        a 16-bit counter. */
    method CountTx()
      modifies this`numTxMsgs
      ensures numTxMsgs == (old(numTxMsgs) + 1) % 0x1_0000
    {
      numTxMsgs := (numTxMsgs + 1) % 0x1_0000;
    }
  }
}
