# TI SimpleLink SDK core logic, modelled in Dafny

This project models the portable, computational core of several
components of the TI SimpleLink SDK and proves properties of that model.

**Bluetooth mesh**
- The Generic OnOff / Level / Default Transition Time / OnPowerUp server state of `sig_models.c`:
  - remaining-time encoding;
  - transition timing;
  - target constraining and the set handlers;
  - status payloads;
  - Battery status packing.

**Wi-SUN FAN MAC**
- IEEE 802.15.4-2015 (section 7.4) Information Element walking and list building (`mac_ie_parse.c`).
- DH1CF channel selection and the exclusion-bitmap mapping (`fh_dh1cf.c`).
- The table-driven frequency-hopping state machine with its debug ring (`fh_sm.c`, `fh_global.c`).
- The security PIB indexing, set request and reset (`mac_security_pib.c`).
- The RX-enable flag logic (`mac_rx_onoff.c`).
- The beacon CAP and transmit-time arithmetic (`mac_beacon.c`).
- The RAT timer capture arithmetic and the compare programming (`mac_mcu.c`).

**Wi-SUN application**
- Connection-status mapping, the LED-message handler and the fixed-channel bitmap scan.
- Network-state numbering and the multicast-group checks (`application.c`).

**Byte-level code**
- MT/RPC framing and the collector message codecs (`mt_csf.c`).
- The NPI circular RX buffer (`npi_rxbuf.c`).
- HCI in-place byte reversal (`hci_data.c`).
- The bit-serial CRC-16 and image checksum (`icall_startup.c`).

**Strings**
- Zephyr settings-key matching (`settings.c`).
- Clock formatting and setting (`time_clock.c`).

**SysConfig scripts**
- The GPIO attributes, validation, sorting and callback collection (`GPIO.syscfg.js`).
- The TI 15.4 network-config visibility, default masks and validation (`ti154stack_network_config.syscfg.js`).
- The EasyLink identifier helpers (`easylink_common.js`).

**How the source maps onto Dafny**
- Each source file is one Dafny module, in the source's own form:
  - pure C helpers and pure JavaScript functions become functions;
  - loops become methods with invariants;
  - global or struct state that the source updates in place becomes a class whose methods `modify` it.
- C strings are `seq<char>`, with the terminating NUL implied.
- Pointers into a buffer are indices; `NULL` is `Option.None`.
- Fixed-width integers are unbounded integers, with the source's truncation written out as `% 0x100`, `% 0x1_0000` and so on.

**Shared modules**
- `Wrappers`: `Option`.
- `Arith`, `Bits`, `Bytes`: modular arithmetic, bitwise operators on naturals, little-endian fields.
- `Strings`: `strstr`.
- `JsStrings`: JavaScript `split`, `join`, `includes`, case mapping and `String(n)`.

**Constants**
- Some constants live in headers that are not part of this model. They are taken from the standards and stated in the modules:
  - the security attribute identifiers;
  - the frame types;
  - the multicast scopes;
  - the 802.15.4 frame-control layout;
  - the beacon constants `BO_NON_BEACON = SO_NONE = 15` and `A_BASE_SLOT_DURATION = 60`.
- Platform values are parameters: timer ratios, hash function, allocation success, radio outcomes.

## Model

| member | source | states |
|---|---|---|
| MeshModels.StepResolution | source/ti/ble5stack/mesh/sig_models.c:1380-1388 | the hop duration of a resolution field is one of 100, 1000, 10000, 600000 ms |
| MeshModels.TransitionTimeout | source/ti/ble5stack/mesh/sig_models.c:1366-1395 | no timing iff the step count (tt mod 64) is 0; otherwise hops is the step count, hop duration is the resolution's, and total is hop duration times hops, the value the transition time denotes |
| MeshModels.RemainTier | source/ti/ble5stack/mesh/sig_models.c:1280-1297 | the resolution tier chosen by the 620000/62000/6200 ms thresholds is below 4 |
| MeshModels.EncodeRemaining | source/ti/ble5stack/mesh/sig_models.c:1280-1307 | the remaining-time code is one byte |
| MeshModels.RemainTime | source/ti/ble5stack/mesh/sig_models.c:1268-1308 | a byte, and a Move transition always reports the unknown value 0x3F |
| MeshModels.EncodeNonPositive | source/ti/ble5stack/mesh/sig_models.c:1298-1300 | a non-positive remainder encodes as 0 |
| MeshModels.EncodeRemainingDenotes | source/ti/ble5stack/mesh/sig_models.c:1280-1307 | the code's top bits are the tier, its low six bits the remainder divided by the tier's step, and the time it denotes never exceeds the remainder |
| MeshModels.EncodeExact | source/ti/ble5stack/mesh/sig_models.c:1280-1307 | a remainder that is an exact number of steps of its tier round-trips through the encoding |
| MeshModels.FreshRemainTimeIsTotal | source/ti/ble5stack/mesh/sig_models.c:1280-1307 | with start timestamp 0, the remaining-time code of any valid transition time denotes exactly the total duration |
| MeshModels.ConstrainTarget | source/ti/ble5stack/mesh/sig_models.c:1310-1319 | 0 stays 0, any other value lands in [range_min, range_max], and a value already in range is kept |
| MeshModels.ConstrainIdempotent | source/ti/ble5stack/mesh/sig_models.c:1310-1319 | constraining twice equals constraining once |
| MeshModels.ConstrainDeltaTarget | source/ti/ble5stack/mesh/sig_models.c:1321-1334 | the delta target is 0 or within range, is 0 only when the target was 0, the delta negative or the range empty, and an in-range target is kept |
| MeshModels.ClampInt16 | source/ti/ble5stack/mesh/sig_models.c:831-835 | the Delta target is clamped to [INT16_MIN, INT16_MAX]: unchanged inside, saturated at each end |
| MeshModels.DeltaTarget | source/ti/ble5stack/mesh/sig_models.c:826-841 | the stored Delta target is 0 or within range, and when the clamped level is in range its level is exactly the clamped sum |
| MeshModels.MoveTarget | source/ti/ble5stack/mesh/sig_models.c:1001-1007 | a Move aims at range_min for a negative delta, range_max for a positive one, and stays at current for zero |
| MeshModels.LevelTargetRoundTrip | source/ti/ble5stack/mesh/sig_models.c:1349-1352 | with the full range, the level read back by get_target after set_target(LEVEL, l) is l |
| MeshModels.LevelTargetInRange | source/ti/ble5stack/mesh/sig_models.c:1349-1352 | any level whose state lies in the configured range is read back unchanged |
| MeshModels.OnOffTarget | source/ti/ble5stack/mesh/sig_models.c:1339-1346 | an OnOff target is only set to 0 or 1; other values keep the old target |
| MeshModels.StepDelta | source/ti/ble5stack/mesh/sig_models.c:1405-1418 | hops times the per-hop step never exceeds the distance to cover |
| MeshModels.MoveQuoTtAsWrittenIsHop | source/ti/ble5stack/mesh/sig_models.c:1403-1408 | as written, a Move with transition time 0x0A gets a per-step time of one hop (100 ms), while the corrected one is the total (1000 ms) |
| MeshModels.QuoTtMatchesTransitionTime | source/ti/ble5stack/mesh/sig_models.c:1397-1427 | the corrected per-step time of a Move is the whole transition time, and for any other transition the per-step time times the steps is the transition time |
| MeshModels.OptionalParams | source/ti/ble5stack/mesh/sig_models.c:406-425 | a bare message takes the default transition time and no delay; with both fields it is accepted iff the step count is not 0x3F; any other length is malformed |
| MeshModels.PackBattery | source/ti/ble5stack/mesh/sig_models.c:1747-1766 | the Battery status payload is 8 bytes |
| MeshModels.UnpackBattery | source/ti/ble5stack/mesh/sig_models.c:1705-1731 | a status is decoded iff the message is exactly 8 bytes |
| MeshModels.BatteryRoundTrip | source/ti/ble5stack/mesh/sig_models.c:1719-1725 | unpacking a packed battery status gives it back field for field |
| MeshModels.GenericServer.constructor | source/ti/ble5stack/mesh/sig_models.c:76-94 | the initial state is 0 with the full range and no transition |
| MeshModels.GenericServer.CurrentOnOff | source/ti/ble5stack/mesh/sig_models.c:1429-1447 | get_current(ONOFF) is 0 or 1, and 1 iff the current or target state is non-zero |
| MeshModels.GenericServer.TargetOnOff | source/ti/ble5stack/mesh/sig_models.c:1449-1463 | get_target(ONOFF) is 1 iff the target is non-zero |
| MeshModels.GenericServer.CurrentLevel | source/ti/ble5stack/mesh/sig_models.c:1429-1447 | get_current(LEVEL) is an int16 |
| MeshModels.GenericServer.TargetLevel | source/ti/ble5stack/mesh/sig_models.c:1449-1463 | get_target(LEVEL) is an int16 |
| MeshModels.GenericServer.CalculateRemainTime | source/ti/ble5stack/mesh/sig_models.c:1268-1308 | the stored remaining time becomes the encoding of the elapsed-time remainder |
| MeshModels.GenericServer.SetTransitionTimeout | source/ti/ble5stack/mesh/sig_models.c:1366-1395 | returns true iff the step count is non-zero and then stores the hop duration, hop count and total; otherwise leaves them unchanged |
| MeshModels.GenericServer.SetTransitionValues | source/ti/ble5stack/mesh/sig_models.c:1397-1427 | corrected Move test: with a zero step count nothing changes; otherwise the record gets the timing the transition time denotes, a per-step period of the whole transition for a Move and of one hop otherwise, and an OnOff or Level transition the distance divided by the hop count as its step |
| MeshModels.GenericServer.Accept | source/ti/ble5stack/mesh/sig_models.c:427-437 | an accepted message records tid, source, destination, timestamp, transition time and delay, and stops any transition |
| MeshModels.GenericServer.Finish | source/ti/ble5stack/mesh/sig_models.c:439-457 | nothing changes when the target equals the current state; a transition without steps jumps to the target; otherwise the delay or transition clock starts |
| MeshModels.GenericServer.OnOffSet | source/ti/ble5stack/mesh/sig_models.c:379-458 | an OnOff value above 1 or a retransmission within 6 s leaves the state untouched; a malformed or 0x3F message is rejected; otherwise the target becomes the value |
| MeshModels.GenericServer.LevelSet | source/ti/ble5stack/mesh/sig_models.c:622-694 | a retransmission leaves the state untouched; otherwise the level is constrained into range and becomes the target |
| MeshModels.GenericServer.DeltaSet | source/ti/ble5stack/mesh/sig_models.c:775-858 | a retransmission with the same delta is ignored; a new tid re-bases the delta on the current level; the clamped sum becomes the target |
| MeshModels.GenericServer.SetDeltaTarget | source/ti/ble5stack/mesh/sig_models.c:826-857 | a malformed message is rejected and changes nothing; otherwise the target is the clamped and constrained delta target |
| MeshModels.GenericServer.MoveSet | source/ti/ble5stack/mesh/sig_models.c:950-1026 | a retransmission is ignored; otherwise the target is range_min, range_max or current by the sign of the delta, and the per-step time is the corrected one, the whole transition time |
| MeshModels.GenericServer.DefaultTransitionTimeSet | source/ti/ble5stack/mesh/sig_models.c:1164-1190 | a 0x3F step count is refused; otherwise the value is stored and published iff it changed |
| MeshModels.GenericServer.OnPowerUpSet | source/ti/ble5stack/mesh/sig_models.c:1656-1677 | values above RESTORE are refused; otherwise stored and published iff changed |
| MeshModels.GenericServer.OnOffStatus | source/ti/ble5stack/mesh/sig_models.c:333-354 | the status is the present state alone, or, during a transition, present, target and remaining time, which the transition record then also holds |
| MeshModels.GenericServer.LevelStatus | source/ti/ble5stack/mesh/sig_models.c:570-596 | the status is the present level as little-endian int16, plus target and remaining time during a transition |
| MeshModels.Int16Le | source/ti/ble5stack/mesh/sig_models.c:576 | two bytes whose little-endian value is the int16's two's-complement encoding |
| MacIeParse.PayloadInfoAt | source/ti/ti_wisunfan/wisunfan_mac/high_level/mac_ie_parse.c:402-409 | a payload IE node's content pointer is NULL exactly when its content length is 0 |
| MacIeParse.HeaderScan | source/ti/ti_wisunfan/wisunfan_mac/high_level/mac_ie_parse.c:86-147 | the header IE walk always consumes at least one IE header |
| MacIeParse.HeaderScanContiguous | source/ti/ti_wisunfan/wisunfan_mac/high_level/mac_ie_parse.c:273-300 | parsed header IE nodes lie in buffer order, each starting where the previous content ends, with content pointer at IE start plus header length |
| MacIeParse.HeaderScanLength | source/ti/ti_wisunfan/wisunfan_mac/high_level/mac_ie_parse.c:273-300 | the walked length is the sum of the nodes' header and content sizes |
| MacIeParse.PayloadScan | source/ti/ti_wisunfan/wisunfan_mac/high_level/mac_ie_parse.c:160-209 | the payload IE walk always consumes at least one IE header |
| MacIeParse.PayloadScanContentPtr | source/ti/ti_wisunfan/wisunfan_mac/high_level/mac_ie_parse.c:380-420 | every listed payload IE's content pointer is NULL iff its content length is 0, and otherwise points just past its header |
| MacIeParse.FindSubIe | source/ti/ti_wisunfan/wisunfan_mac/high_level/mac_ie_parse.c:527-574 | a found sub-IE is a short sub-IE with the requested id at or after the start position |
| MacIeParse.FindInList | source/ti/ti_wisunfan/wisunfan_mac/high_level/mac_ie_parse.c:527-574 | not present implies no content pointer; a content pointer lies after a sub-IE header |
| MacIeParse.SecondSubIeMissedAsWritten | source/ti/ti_wisunfan/wisunfan_mac/high_level/mac_ie_parse.c:545-570 | as written the loop never advances past the first sub-IE, so a matching second sub-IE is missed, while the corrected search finds it |
| MacIeParse.WalkHeaderIes | source/ti/ti_wisunfan/wisunfan_mac/high_level/mac_ie_parse.c:105-131 | the loop computes the header scan's length and termination kind |
| MacIeParse.WalkPayloadIes | source/ti/ti_wisunfan/wisunfan_mac/high_level/mac_ie_parse.c:175-194 | the loop computes the payload scan's length |
| MacIeParse.CollectHeaderIes | source/ti/ti_wisunfan/wisunfan_mac/high_level/mac_ie_parse.c:250-316 | with enough allocations the list is the scanned nodes in order; otherwise NO_RESOURCES with the prefix allocated so far |
| MacIeParse.HeaderScanStep | source/ti/ti_wisunfan/wisunfan_mac/high_level/mac_ie_parse.c:273-300 | one step of the header walk over a non-termination IE records the node at the pointer and continues past its content, or stops once the count reaches the limit |
| MacIeParse.PayloadStep | source/ti/ti_wisunfan/wisunfan_mac/high_level/mac_ie_parse.c:175-194 | a payload IE step skips at least the two descriptor bytes, its content length truncated to uint8 in the walk that locates the payload IEs |
| MacIeParse.PayloadScanStep | source/ti/ti_wisunfan/wisunfan_mac/high_level/mac_ie_parse.c:360-420 | one step of the payload walk records the node at the pointer and continues past it, or stops once the count reaches the limit |
| MacIeParse.CollectPayloadIes | source/ti/ti_wisunfan/wisunfan_mac/high_level/mac_ie_parse.c:360-428 | with enough allocations the list is the scanned payload nodes; otherwise NO_RESOURCES with the allocated prefix |
| MacIeParse.RxFrame.constructor | source/ti/ti_wisunfan/wisunfan_mac/high_level/mac_ie_parse.c:86-101 | a received frame starts with no IE pointers, lists or lengths |
| MacIeParse.RxFrame.UpdateHeaderIePtr | source/ti/ti_wisunfan/wisunfan_mac/high_level/mac_ie_parse.c:86-147 | no IE-present bit or a non-header first IE changes nothing; a termination found within msdu.len sets headerIeLen and shifts msdu by it; otherwise headerIeLen is 0 and msdu is unchanged |
| MacIeParse.RxFrame.UpdatePayloadIePtr | source/ti/ti_wisunfan/wisunfan_mac/high_level/mac_ie_parse.c:160-209 | payload walk longer than msdu.len sets payloadIeLen to 0 and leaves msdu; otherwise msdu advances by the walked length |
| MacIeParse.RxFrame.ParseHeaderIes | source/ti/ti_wisunfan/wisunfan_mac/high_level/mac_ie_parse.c:228-324 | a non-header first IE returns NO_DATA untouched; otherwise the list is the scan, or is freed and empty on allocation failure |
| MacIeParse.RxFrame.ParsePayloadIes | source/ti/ti_wisunfan/wisunfan_mac/high_level/mac_ie_parse.c:342-431 | a non-payload first IE returns NO_DATA; otherwise the list is the scan, or empty after an allocation failure |
| MacIeParse.MlmeSubIePresent | source/ti/ti_wisunfan/wisunfan_mac/high_level/mac_ie_parse.c:527-574 | the present flag is 1 iff a short sub-IE with the requested id is found in an MLME IE, and its content pointer is the corrected search's |
| FhDh1cf.BigEndian32 | source/ti/ti_wisunfan/wisunfan_mac/fh/fh_dh1cf.c:145-151 | four bytes packed big-endian give a 32-bit word |
| FhDh1cf.BigEndian32Bytes | source/ti/ti_wisunfan/wisunfan_mac/fh/fh_dh1cf.c:145-151 | each byte is recovered from the packed word |
| FhDh1cf.UnicastHashInput | source/ti/ti_wisunfan/wisunfan_mac/fh/fh_dh1cf.c:145-151 | the hash input has three words, x[0] the slot |
| FhDh1cf.UnicastHashInputInjective | source/ti/ti_wisunfan/wisunfan_mac/fh/fh_dh1cf.c:145-151 | x[1] holds EUI bytes 4..7 and x[2] bytes 0..3 big-endian, so distinct slots or addresses give distinct inputs |
| FhDh1cf.GetCh | source/ti/ti_wisunfan/wisunfan_mac/fh/fh_dh1cf.c:128-159 | the unicast channel is below numChannels and is the hash of the input modulo numChannels |
| FhDh1cf.BroadcastHashInput | source/ti/ti_wisunfan/wisunfan_mac/fh/fh_dh1cf.c:175-181 | broadcast input is the slot, the schedule id shifted into the top half, and 0 |
| FhDh1cf.GetBcCh | source/ti/ti_wisunfan/wisunfan_mac/fh/fh_dh1cf.c:166-186 | the broadcast channel is below numChannels and is the hash modulo numChannels |
| FhDh1cf.ZerosStep | source/ti/ti_wisunfan/wisunfan_mac/fh/fh_dh1cf.c:205-220 | counting non-excluded bits one bit further adds one exactly when the bit is 0 |
| FhDh1cf.ZerosMonotone | source/ti/ti_wisunfan/wisunfan_mac/fh/fh_dh1cf.c:205-220 | the count of non-excluded bits never decreases along the bitmap |
| FhDh1cf.ChannelOfIndexUnique | source/ti/ti_wisunfan/wisunfan_mac/fh/fh_dh1cf.c:193-225 | only one bit position can be the (chIdx+1)-th non-excluded bit |
| FhDh1cf.MapsToInRange | source/ti/ti_wisunfan/wisunfan_mac/fh/fh_dh1cf.c:193-225 | a mapped channel is a found bit index below nChannels |
| FhDh1cf.ScanByte | source/ti/ti_wisunfan/wisunfan_mac/fh/fh_dh1cf.c:205-220 | the inner loop over one bitmap byte, LSB first, counts its zero bits or stops at the wanted one |
| FhDh1cf.MapChIdxChannel | source/ti/ti_wisunfan/wisunfan_mac/fh/fh_dh1cf.c:193-225 | returns the bit index of the (chIdx+1)-th zero bit, or reports not found when there is none within nChannels |
| FhDh1cf.BcChannelIndex | source/ti/ti_wisunfan/wisunfan_mac/fh/fh_dh1cf.c:246-255 | the broadcast index is below numChannels, and without DH1CF it is slot mod numChannels |
| FhDh1cf.GetBcChannelNum | source/ti/ti_wisunfan/wisunfan_mac/fh/fh_dh1cf.c:232-261 | single-channel function returns the fixed channel; otherwise the exclusion mapping of the broadcast index |
| FhDh1cf.UcChannelIndex | source/ti/ti_wisunfan/wisunfan_mac/fh/fh_dh1cf.c:274-283 | the unicast index is below numChannels, and without DH1CF it is slot mod numChannels |
| FhDh1cf.GetChannelNum | source/ti/ti_wisunfan/wisunfan_mac/fh/fh_dh1cf.c:268-289 | the channel is the exclusion mapping of the unicast index |
| FhStateMachine.DebugEntry | source/ti/ti_wisunfan/wisunfan_mac/fh/fh_sm.c:103-108 | a debug entry (state<<8) or event fits in 16 bits |
| FhStateMachine.DebugEntryDecode | source/ti/ti_wisunfan/wisunfan_mac/fh/fh_sm.c:103-108 | the state and event are recovered from a debug entry |
| FhStateMachine.NextDebugIndex | source/ti/ti_wisunfan/wisunfan_mac/fh/fh_sm.c:109-115 | the ring index stays below its size, wraps to 0 exactly at the last slot, and otherwise increments |
| FhStateMachine.DebugBuffer.constructor | source/ti/ti_wisunfan/wisunfan_mac/fh/fh_sm.c:93-118 | an empty ring of the given size at index 0 |
| FhStateMachine.DebugBuffer.Record | source/ti/ti_wisunfan/wisunfan_mac/fh/fh_sm.c:93-118 | stores the entry at idx, leaves every other slot, and advances idx with wrap-around |
| FhStateMachine.StateMachine.constructor | source/ti/ti_wisunfan/wisunfan_mac/fh/fh_sm.c:137-173 | a machine holds its matrix, dimensions, hook and initial state |
| FhStateMachine.StateMachine.CellFor | source/ti/ti_wisunfan/wisunfan_mac/fh/fh_sm.c:160-163 | the cell looked up is an entry of the matrix |
| FhStateMachine.StateMachine.Event | source/ti/ti_wisunfan/wisunfan_mac/fh/fh_sm.c:137-173 | an out-of-range state or event returns ERR and changes nothing; otherwise previousState is the old state and the new state is the matrix entry's; the debug hook runs only when the states differ |
| FhGlobal.Row | source/ti/ti_wisunfan/wisunfan_mac/fh/fh_global.c:141-277 | each state's row has one cell per event |
| FhGlobal.Matrix | source/ti/ti_wisunfan/wisunfan_mac/fh/fh_global.c:141-277 | the matrix has states times events cells |
| FhGlobal.MatrixAt | source/ti/ti_wisunfan/wisunfan_mac/fh/fh_global.c:141-277 | cell cur*maxEvents+event of the matrix is that row's cell |
| FhGlobal.MatrixClosed | source/ti/ti_wisunfan/wisunfan_mac/fh/fh_global.c:141-277 | every next state in the table is one of the five states |
| FhGlobal.HopTransitions | source/ti/ti_wisunfan/wisunfan_mac/fh/fh_global.c:149-160 | from HOP, TX_START goes to TX, RX_START to RX, and the timer events stay in HOP updating the channel |
| FhGlobal.DoneReturnsToHop | source/ti/ti_wisunfan/wisunfan_mac/fh/fh_global.c:188-275 | TX_DONE in TX, RX_DONE in RX, ASYNC_DONE in ASYNC and EDFE_FIN in EDFE return to HOP |
| FhGlobal.TimersOnlyPend | source/ti/ti_wisunfan/wisunfan_mac/fh/fh_global.c:178-257 | timer events in TX, RX, ASYNC and EDFE keep the state and only pend a channel update |
| FhGlobal.NewFhFsm | source/ti/ti_wisunfan/wisunfan_mac/fh/fh_global.c:284-293 | FH_FSM is the matrix with its dimensions, starting in HOP, with the debug hook |
| FhGlobal.FhEvent | source/ti/ti_wisunfan/wisunfan_mac/fh/fh_global.c:141-293 | driving FH_FSM keeps it in one of its states; a valid event moves it along its row |
| MtCsf.ParseHeader | source/ti/ti_wisunfan/wisunfan_mac/apps/collector_mt/mt_csf.c:641-657 | len is byte 0, type and subsystem split byte 1 (3 and 5 bits), cmdId is byte 2, data begins at offset 3 |
| MtCsf.Cmd0 | source/ti/ti_wisunfan/wisunfan_mac/apps/collector_mt/mt_csf.c:1030-1049 | the CMD0 byte carries the type in its top 3 bits and the subsystem in its low 5 |
| MtCsf.NpiFrame | source/ti/ti_wisunfan/wisunfan_mac/apps/collector_mt/mt_csf.c:998-1021 | an NPI frame is 3+len bytes with the data after the header |
| MtCsf.NpiFrameRoundTrip | source/ti/ti_wisunfan/wisunfan_mac/apps/collector_mt/mt_csf.c:998-1010 | parsing a sent frame's header recovers length, type, subsystem and command id |
| MtCsf.ResponseCommandBytes | source/ti/ti_wisunfan/wisunfan_mac/apps/collector_mt/mt_csf.c:1030-1049 | SRSP uses CMD0 0x69 and AREQ 0x49 |
| MtCsf.DecodeConfigRequest | source/ti/ti_wisunfan/wisunfan_mac/apps/collector_mt/mt_csf.c:932-958 | config-request fields are decoded iff len is 12 |
| MtCsf.ConfigRequestData | source/ti/ti_wisunfan/wisunfan_mac/apps/collector_mt/mt_csf.c:934-945 | the config request body is 12 bytes |
| MtCsf.ConfigRequestRoundTrip | source/ti/ti_wisunfan/wisunfan_mac/apps/collector_mt/mt_csf.c:934-945 | decoding an encoded config request gives it back |
| MtCsf.DecodeToggleRequest | source/ti/ti_wisunfan/wisunfan_mac/apps/collector_mt/mt_csf.c:970-985 | a toggle request is decoded iff len is 2, yielding a 16-bit address |
| MtCsf.Int8Byte | source/ti/ti_wisunfan/wisunfan_mac/apps/collector_mt/mt_csf.c:420 | an int8 RSSI is stored as its two's-complement byte |
| MtCsf.DeviceNotActiveInd | source/ti/ti_wisunfan/wisunfan_mac/apps/collector_mt/mt_csf.c:389-406 | the device-not-active indication is 13 bytes |
| MtCsf.DeviceNotActiveIndFields | source/ti/ti_wisunfan/wisunfan_mac/apps/collector_mt/mt_csf.c:392-405 | it holds panID LE, short address LE, the 8-byte extended address and the timeout flag |
| MtCsf.ConfigResponseInd | source/ti/ti_wisunfan/wisunfan_mac/apps/collector_mt/mt_csf.c:413-438 | the config-response indication is 15 bytes |
| MtCsf.ConfigResponseIndFields | source/ti/ti_wisunfan/wisunfan_mac/apps/collector_mt/mt_csf.c:416-437 | its multi-byte fields are emitted low byte first and read back |
| MtCsf.DeviceToggleInd | source/ti/ti_wisunfan/wisunfan_mac/apps/collector_mt/mt_csf.c:445-457 | the toggle indication holds the short address LE and the LED state as 1 or 0 |
| MtCsf.SensorIndLen | source/ti/ti_wisunfan/wisunfan_mac/apps/collector_mt/mt_csf.c:468-490 | the sensor indication length is 13 plus the sizes of the fields frameControl selects |
| MtCsf.Le16s | source/ti/ti_wisunfan/wisunfan_mac/apps/collector_mt/mt_csf.c:496-590 | a run of 16-bit fields is two bytes each |
| MtCsf.Optional | source/ti/ti_wisunfan/wisunfan_mac/apps/collector_mt/mt_csf.c:496-590 | a field is emitted only when its frameControl bit is set |
| MtCsf.ReadingFields | source/ti/ti_wisunfan/wisunfan_mac/apps/collector_mt/mt_csf.c:496-520 | the temperature field is present iff bit 0 is set |
| MtCsf.StatusFields | source/ti/ti_wisunfan/wisunfan_mac/apps/collector_mt/mt_csf.c:530-580 | the statistics field is present iff bit 3 is set |
| MtCsf.SensorFields | source/ti/ti_wisunfan/wisunfan_mac/apps/collector_mt/mt_csf.c:496-590 | the optional fields total the computed length minus 13 |
| MtCsf.SensorUpdateInd | source/ti/ti_wisunfan/wisunfan_mac/apps/collector_mt/mt_csf.c:464-595 | the sensor indication has the computed length, starts with address, RSSI, extended address and frameControl, and ends with the selected fields in bit order |
| MtCsf.DevInfoBytes | source/ti/ti_wisunfan/wisunfan_mac/apps/collector_mt/mt_csf.c:870-883 | a device-info record is 17 bytes, DEVICE_INFO_IND_LEN |
| MtCsf.DevInfoReadsBack | source/ti/ti_wisunfan/wisunfan_mac/apps/collector_mt/mt_csf.c:870-883 | PAN ID and short address low byte first, the extended address, the capability byte and the frame counter low byte first, each read back from its place |
| MtCsf.FillInDevInfo | source/ti/ti_wisunfan/wisunfan_mac/apps/collector_mt/mt_csf.c:870-883 | writes exactly the record at the offset and nothing else |
| MtCsf.MtLink.constructor | source/ti/ti_wisunfan/wisunfan_mac/apps/collector_mt/mt_csf.c:179-185 | no frames sent, both counters 0 |
| MtCsf.MtLink.SendNpi | source/ti/ti_wisunfan/wisunfan_mac/apps/collector_mt/mt_csf.c:998-1021 | a frame is queued iff allocation succeeds |
| MtCsf.MtLink.SendSrsp | source/ti/ti_wisunfan/wisunfan_mac/apps/collector_mt/mt_csf.c:1030-1035 | queues an SRSP-typed frame for the MT_CSF subsystem |
| MtCsf.MtLink.SendAreq | source/ti/ti_wisunfan/wisunfan_mac/apps/collector_mt/mt_csf.c:1044-1049 | queues an AREQ-typed frame for the MT_CSF subsystem |
| MtCsf.MtLink.ProcessConfigRequest | source/ti/ti_wisunfan/wisunfan_mac/apps/collector_mt/mt_csf.c:928-959 | decodes the request, answers the collector's status when it is well formed and invalid_state otherwise |
| MtCsf.MtLink.ProcessToggleRequest | source/ti/ti_wisunfan/wisunfan_mac/apps/collector_mt/mt_csf.c:966-986 | the same for a toggle request |
| MtCsf.MtLink.SensorUpdateIndCB | source/ti/ti_wisunfan/wisunfan_mac/apps/collector_mt/mt_csf.c:464-595 | queues the sensor indication as an AREQ, or nothing if allocation fails |
| MtCsf.MtLink.CountRx | source/ti/ti_wisunfan/wisunfan_mac/apps/collector_mt/mt_csf.c:1077 | the RX counter increments modulo 2^16 |
| MtCsf.MtLink.CountTx | source/ti/ti_wisunfan/wisunfan_mac/apps/collector_mt/mt_csf.c:1151 | the TX counter increments modulo 2^16 |
| NpiRxBuf.ReadBackWritten | source/ti/ble5stack_flash/npi/src/npi_rxbuf.c:61-119 | bytes written into the ring from a position are read back from it |
| NpiRxBuf.WrittenElsewhere | source/ti/ble5stack_flash/npi/src/npi_rxbuf.c:61-82 | writing leaves the slots outside the written span unchanged |
| NpiRxBuf.CountOf | source/ti/ble5stack_flash/npi/src/npi_rxbuf.c:89-92 | the count is (tail - head) modulo SIZE and below SIZE |
| NpiRxBuf.Advance | source/ti/ble5stack_flash/npi/src/npi_rxbuf.c:31-35 | advancing an index by len wraps modulo SIZE and stays below SIZE |
| NpiRxBuf.CountAfterTail | source/ti/ble5stack_flash/npi/src/npi_rxbuf.c:61-82 | moving the tail by len within the free space adds len to the count |
| NpiRxBuf.CountAfterHead | source/ti/ble5stack_flash/npi/src/npi_rxbuf.c:109-119 | moving the head by at most the count subtracts len from it |
| NpiRxBuf.RxBuf.constructor | source/ti/ble5stack_flash/npi/src/npi_rxbuf.c:45-47 | an empty buffer of the given size |
| NpiRxBuf.RxBuf.Count | source/ti/ble5stack_flash/npi/src/npi_rxbuf.c:89-92 | the count is below SIZE |
| NpiRxBuf.RxBuf.Avail | source/ti/ble5stack_flash/npi/src/npi_rxbuf.c:99-102 | count plus available space is SIZE |
| NpiRxBuf.RxBuf.Read | source/ti/ble5stack_flash/npi/src/npi_rxbuf.c:61-82 | copies the incoming bytes at the tail, splitting at the end, advances the tail by len modulo SIZE and returns len |
| NpiRxBuf.RxBuf.ReadFromRxBuf | source/ti/ble5stack_flash/npi/src/npi_rxbuf.c:109-119 | copies len bytes from the head with wrap-around, advances the head by len modulo SIZE and returns len |
| HciData.Reversed | source/ti/ble5stack_flash/hci/cc26xx/hci_data.c:76-95 | the reversal keeps the length |
| HciData.ReversedAt | source/ti/ble5stack_flash/hci/cc26xx/hci_data.c:76-95 | entry i of the result is old entry len-1-i |
| HciData.ReversedTwice | source/ti/ble5stack_flash/hci/cc26xx/hci_data.c:87-92 | reversing twice restores the buffer |
| HciData.MiddleFixed | source/ti/ble5stack_flash/hci/cc26xx/hci_data.c:84-92 | the middle byte of an odd length is unchanged |
| HciData.ReverseBytes | source/ti/ble5stack_flash/hci/cc26xx/hci_data.c:76-95 | the first len bytes become their reversal and the rest are unchanged |
| IcallCrc.CrcConcat | source/ti/ble5stack_flash/common/cc26xx/icall_startup.c:87-115 | the CRC of a++b is the CRC of b starting from the CRC of a |
| IcallCrc.ShiftInByte | source/ti/ble5stack_flash/common/cc26xx/icall_startup.c:94-110 | the bit loop shifts the CRC left, feeds the data MSB into bit 0 and XORs 0x1021 when bit 15 was set |
| IcallCrc.SlowCrc16 | source/ti/ble5stack_flash/common/cc26xx/icall_startup.c:87-115 | the result is the CRC of the first len bytes, and len 0 returns the CRC unchanged |
| IcallCrc.ValidChecksum | source/ti/ble5stack_flash/common/cc26xx/icall_startup.c:136-152 | true iff the CRC over [begin, end] plus two zero bytes equals the stored word at end+1 |
| Settings.CLen | source/ti/mesh/zephyr/subsys/settings/src/settings.c:32-69 | the C string ends at its first NUL |
| Settings.NameSteq | source/ti/mesh/zephyr/subsys/settings/src/settings.c:32-69 | returns 1 iff key is a prefix of name followed by the separator, '=' or NUL; next points past the separator only when the separator matched; NULL inputs give 0 |
| Settings.SegmentLen | source/ti/mesh/zephyr/subsys/settings/src/settings.c:71-101 | the first segment ends at the first NUL, '=' or separator |
| Settings.NameNext | source/ti/mesh/zephyr/subsys/settings/src/settings.c:71-101 | returns the first segment's length and points next past a separator, else NULL |
| Settings.SegmentMatches | source/ti/mesh/zephyr/subsys/settings/src/settings.c:32-101 | a name matches its own first segment as a key, and the match's next agrees with settings_name_next |
| Settings.CLenOfClean | source/ti/mesh/zephyr/subsys/settings/src/settings.c:32-69 | a string without NUL has its full length |
| Settings.ParseAndLookup | source/ti/mesh/zephyr/subsys/settings/src/settings.c:103-143 | the handler is found iff the name matches its name, with next as the match gives it |
| Settings.CallSetHandler | source/ti/mesh/zephyr/subsys/settings/src/settings.c:145-183 | returns 0 without a call when the subtree does not match, uses the load callback when given, otherwise (no subtree, or a matching one) calls the handler whose name matches with the key after its name, and masks its errors to 0; with no match nothing is called |
| Strings.FindSub | source/ti/ti_wisunfan/apps/udp_nanostack_mesh_tirf/application.c:520-533 | strstr: the first position where the pattern occurs, or none when it occurs nowhere |
| MacSecurityPib.PibIndex | source/ti/ti_wisunfan/wisunfan_mac/high_level/mac_security_pib.c:217-227 | attributes 0x81..0x8B map to 0..10, every other value to the invalid index |
| MacSecurityPib.AttrOfIndex | source/ti/ti_wisunfan/wisunfan_mac/high_level/mac_security_pib.c:217-227 | every index names an attribute in the plain range |
| MacSecurityPib.PibIndexRoundTrip | source/ti/ti_wisunfan/wisunfan_mac/high_level/mac_security_pib.c:217-227 | the index is valid iff the attribute is in range, and index and attribute convert back and forth |
| MacSecurityPib.GetSecurityReqSize | source/ti/ti_wisunfan/wisunfan_mac/high_level/mac_security_pib.c:334-377 | the size is the table entry's for plain attributes, the entry sizes for table attributes, and 0 otherwise |
| MacSecurityPib.SetKeySlot | source/ti/ti_wisunfan/wisunfan_mac/high_level/mac_security_pib.c:430-460 | a key entry takes the request's key and counts, resets the frame counter to 0 and copies the lists it names |
| MacSecurityPib.KeyTableEntriesAfter | source/ti/ti_wisunfan/wisunfan_mac/high_level/mac_security_pib.c:445-460 | keyTableEntries increments when lookup entries are given, else decrements saturating at 0 |
| MacSecurityPib.RangeCheck | source/ti/ti_wisunfan/wisunfan_mac/high_level/mac_security_pib.c:495-508 | READ_ONLY iff min equals max and is non-zero; INVALID_PARAMETER iff the value is outside [min, max] |
| MacSecurityPib.SecurityPib.constructor | source/ti/ti_wisunfan/wisunfan_mac/high_level/mac_security_pib.c:134-198 | an empty PIB over the attribute table |
| MacSecurityPib.SecurityPib.PlainValue | source/ti/ti_wisunfan/wisunfan_mac/high_level/mac_security_pib.c:269-277 | a plain attribute's value has its table length |
| MacSecurityPib.SecurityPib.Reset | source/ti/ti_wisunfan/wisunfan_mac/high_level/mac_security_pib.c:134-198 | the image is zeroed; every device entry has panID 0xFFFF, short address 0xFFFF and exempt; deviceTableEntries is the maximum; the key-usage frame types are data and ack |
| MacSecurityPib.SecurityPib.SetSecurityReq | source/ti/ti_wisunfan/wisunfan_mac/high_level/mac_security_pib.c:401-516 | NULL is INVALID_PARAMETER, unknown attributes UNSUPPORTED_ATTRIBUTE, an out-of-range device index INVALID_INDEX; failures change nothing; successful sets write exactly the addressed entry |
| WisunApp.NextConnectStatus | source/ti/ti_wisunfan/apps/udp_nanostack_mesh_tirf/application.c:236-276 | LOCAL gives LOCAL_UP, GLOBAL gives GLOBAL_UP, BOOTSTRAP_STARTED or FAILED give CONNECTING, other non-CONNECTED statuses give DISCONNECTED; CONNECTED depends on the addresses |
| WisunApp.UpOnlyWhenConnected | source/ti/ti_wisunfan/apps/udp_nanostack_mesh_tirf/application.c:236-276 | an UP status arises only from a connected kind of status, and DISCONNECTED only from a failure or disconnect |
| WisunApp.NetworkState.constructor | source/ti/ti_wisunfan/apps/udp_nanostack_mesh_tirf/application.c:130-133 | the application starts disconnected and unblocked |
| WisunApp.NetworkState.NetworkHandler | source/ti/ti_wisunfan/apps/udp_nanostack_mesh_tirf/application.c:222-277 | connectedFlg becomes true only when blocking after CONNECTING with a connected status, is cleared on DISCONNECTED, and the status follows the mapping |
| WisunApp.DigitsValue | source/ti/ti_wisunfan/apps/udp_nanostack_mesh_tirf/application.c:536 | accumulating digits never decreases the value |
| WisunApp.Strtol10 | source/ti/ti_wisunfan/apps/udp_nanostack_mesh_tirf/application.c:536 | strtol of text starting with a non-digit, non-sign, non-space character is 0 |
| WisunApp.ToU16 | source/ti/ti_wisunfan/apps/udp_nanostack_mesh_tirf/application.c:519-536 | the conversion to uint16_t stays below 2^16 |
| WisunApp.MessageState | source/ti/ti_wisunfan/apps/udp_nanostack_mesh_tirf/application.c:525-530 | the state is 1 iff "s:1;" is present |
| WisunApp.HandleMessageAsWritten | source/ti/ti_wisunfan/apps/udp_nanostack_mesh_tirf/application.c:517-543 | text lacking "t:lights;" is ignored |
| WisunApp.AsWrittenIgnoresGroup | source/ti/ti_wisunfan/apps/udp_nanostack_mesh_tirf/application.c:532-541 | as written, the LED is written iff the message contains "g:" at all, whatever the group number |
| WisunApp.OtherGroupSwitchesLedAsWritten | source/ti/ti_wisunfan/apps/udp_nanostack_mesh_tirf/application.c:532-541 | as written, a message for group 7 still switches the LED on |
| WisunApp.HandleMessage | source/ti/ti_wisunfan/apps/udp_nanostack_mesh_tirf/application.c:517-543 | text lacking "t:lights;" is ignored; a written LED value is the message state, 0 or 1 |
| WisunApp.HandleMessageFollowsGroup | source/ti/ti_wisunfan/apps/udp_nanostack_mesh_tirf/application.c:532-541 | the corrected handler writes the LED iff the text has "t:lights;" and the number after "g:" is 0 or 1 |
| WisunApp.OtherGroupIgnored | source/ti/ti_wisunfan/apps/udp_nanostack_mesh_tirf/application.c:539-541 | the corrected handler ignores a message for group 7 |
| WisunApp.NotMyGroup | source/ti/ti_wisunfan/apps/udp_nanostack_mesh_tirf/application.c:539-541 | any group other than 0 and 1 is ignored |
| WisunApp.FirstSetBit | source/ti/ti_wisunfan/apps/udp_nanostack_mesh_tirf/application.c:980-1007 | the result indexes the lowest set bit, or the bit count when none is set |
| WisunApp.FirstSetBitConcat | source/ti/ti_wisunfan/apps/udp_nanostack_mesh_tirf/application.c:980-1007 | the lowest set bit of a++b is in a if a has one, else offset into b |
| WisunApp.ScanChannelByte | source/ti/ti_wisunfan/apps/udp_nanostack_mesh_tirf/application.c:988-1002 | the inner loop finds the lowest set bit of one byte, LSB first |
| WisunApp.GetFirstFixedChannel | source/ti/ti_wisunfan/apps/udp_nanostack_mesh_tirf/application.c:980-1007 | returns the index of the lowest set bit (byte 0 LSB first), or 8*size when none, as a uint8_t |
| WisunApp.FirstSetBitAt | source/ti/ti_wisunfan/apps/udp_nanostack_mesh_tirf/application.c:980-1007 | a set bit with none before it is the result |
| WisunApp.FirstSetBitNone | source/ti/ti_wisunfan/apps/udp_nanostack_mesh_tirf/application.c:980-1007 | with no set bit the result is the bit count |
| WisunApp.CurrentNetState | source/ti/ti_wisunfan/apps/udp_nanostack_mesh_tirf/application.c:1047-1077 | the six bootstrap states map to 0..5 and any other state to 0 |
| WisunApp.NetStateRoundTrip | source/ti/ti_wisunfan/apps/udp_nanostack_mesh_tirf/application.c:1047-1077 | the numbering is a bijection between the six states and 0..5 |
| WisunApp.MulticastScope | source/ti/ti_wisunfan/apps/udp_nanostack_mesh_tirf/application.c:1092-1096 | the scope is a 4-bit value |
| WisunApp.AddMulticastAddr | source/ti/ti_wisunfan/apps/udp_nanostack_mesh_tirf/application.c:1087-1103 | returns 0 iff the address is multicast of wider than realm-local scope and the stack accepts it, else -1 |
| WisunApp.RemoveMulticastAddr | source/ti/ti_wisunfan/apps/udp_nanostack_mesh_tirf/application.c:1105-1118 | returns 0 iff the address is multicast of wider than realm-local scope, else -1 |
| WisunApp.LinkLocalGroupRefused | source/ti/ti_wisunfan/apps/udp_nanostack_mesh_tirf/application.c:1092-1114 | a link-local group is refused by both add and remove |
| TimeClock.DigitChar | source/ti/ble5stack_flash/common/cc26xx/time/time_clock.c:181-187 | a digit is written as '0' plus its value |
| TimeClock.TwoDigits | source/ti/ble5stack_flash/common/cc26xx/time/time_clock.c:181-187 | num2Str yields two characters |
| TimeClock.TwoDigitsDecimal | source/ti/ble5stack_flash/common/cc26xx/time/time_clock.c:181-187 | for num up to 99 both characters are digits and read back as num |
| TimeClock.FourDigits | source/ti/ble5stack_flash/common/cc26xx/time/time_clock.c:198-210 | year2Str yields four decimal digits |
| TimeClock.FourDigitsDecimal | source/ti/ble5stack_flash/common/cc26xx/time/time_clock.c:198-210 | the four digits read back as year mod 10000 |
| TimeClock.Num2Str | source/ti/ble5stack_flash/common/cc26xx/time/time_clock.c:181-187 | writes the two digits at the pointer, returns ptr+2, and leaves the rest of the buffer |
| TimeClock.Year2Str | source/ti/ble5stack_flash/common/cc26xx/time/time_clock.c:198-210 | writes the four digits at the pointer, returns ptr+4, and leaves the rest of the buffer |
| TimeClock.DisplayLine | source/ti/ble5stack_flash/common/cc26xx/time/time_clock.c:116-131 | the display text is 16 characters |
| TimeClock.DisplayLineLayout | source/ti/ble5stack_flash/common/cc26xx/time/time_clock.c:116-131 | it reads HH:MM MmmDD YYYY, with the day shown as day+1 and the month from the 12-entry table |
| TimeClock.DisplayLineReadsBack | source/ti/ble5stack_flash/common/cc26xx/time/time_clock.c:116-131 | hour, minutes, day+1 and year mod 10000 are read back from their positions |
| TimeClock.ClockDisplay | source/ti/ble5stack_flash/common/cc26xx/time/time_clock.c:105-134 | the display buffer holds the display text followed by NULs |
| TimeClock.PutTimeOfDay | source/ti/ble5stack_flash/common/cc26xx/time/time_clock.c:116-121 | the first six characters are HH:MM and a space |
| TimeClock.PutDate | source/ti/ble5stack_flash/common/cc26xx/time/time_clock.c:122-131 | the buffer then holds the full display text |
| TimeClock.PutChar | source/ti/ble5stack_flash/common/cc26xx/time/time_clock.c:116-131 | one character is appended at the pointer |
| TimeClock.PutMonth | source/ti/ble5stack_flash/common/cc26xx/time/time_clock.c:124-126 | the three letters of the month name are appended at the pointer and the rest of the buffer stays zero |
| TimeClock.DateTimeBytes | source/ti/ble5stack_flash/common/cc26xx/time/time_clock.c:145-172 | the date-time characteristic is 7 bytes |
| TimeClock.ClockSetTime | source/ti/ble5stack_flash/common/cc26xx/time/time_clock.c:150-168 | the year is read little-endian from bytes 0-1 with 2000 substituted for 0, and month, day, hour, minutes, seconds are copied |
| TimeClock.ClockSetRoundTrip | source/ti/ble5stack_flash/common/cc26xx/time/time_clock.c:150-168 | setting from a time's bytes gives that time back, except that year 0 becomes 2000 |
| MacRxOnOff.SetFlags | source/ti/ti_wisunfan/wisunfan_mac/low_level/cc13xx/mac_rx_onoff.c:129-132 | OR-ing flags keeps an 8-bit value |
| MacRxOnOff.ClearFlags | source/ti/ti_wisunfan/wisunfan_mac/low_level/cc13xx/mac_rx_onoff.c:183 | clearing flags keeps an 8-bit value |
| MacRxOnOff.SetFlagsBits | source/ti/ti_wisunfan/wisunfan_mac/low_level/cc13xx/mac_rx_onoff.c:129-132 | a bit is set after enabling iff it was set before or in the given flags |
| MacRxOnOff.ClearFlagsBits | source/ti/ti_wisunfan/wisunfan_mac/low_level/cc13xx/mac_rx_onoff.c:183 | a bit is set after disabling iff it was set before and not in the given flags |
| MacRxOnOff.SetFlagsNonZero | source/ti/ti_wisunfan/wisunfan_mac/low_level/cc13xx/mac_rx_onoff.c:129-132 | enabling with non-zero flags leaves the flag set non-zero |
| MacRxOnOff.ClearUndoesSet | source/ti/ti_wisunfan/wisunfan_mac/low_level/cc13xx/mac_rx_onoff.c:129-183 | disabling fresh flags undoes enabling them |
| MacRxOnOff.ClearAllFlags | source/ti/ti_wisunfan/wisunfan_mac/low_level/cc13xx/mac_rx_onoff.c:183 | disabling all bits gives 0 |
| MacRxOnOff.RxOnOff.constructor | source/ti/ti_wisunfan/wisunfan_mac/low_level/cc13xx/mac_rx_onoff.c:108-114 | the flags start at 0 and nothing has been sent to the radio |
| MacRxOnOff.RxOnOff.RxOnCmd | source/ti/ti_wisunfan/wisunfan_mac/low_level/cc13xx/mac_rx_onoff.c:306-354 | the radio receives an RX-on; macRxCmdActive is set on success and restored on failure |
| MacRxOnOff.RxOnOff.RxOffCmd | source/ti/ti_wisunfan/wisunfan_mac/low_level/cc13xx/mac_rx_onoff.c:367-383 | the radio receives the off command and numRxPostCmd decrements saturating at 0 |
| MacRxOnOff.RxOnOff.Enable | source/ti/ti_wisunfan/wisunfan_mac/low_level/cc13xx/mac_rx_onoff.c:127-136 | the flags are OR-ed in, become non-zero, and the receiver is turned on |
| MacRxOnOff.RxOnOff.SoftEnable | source/ti/ti_wisunfan/wisunfan_mac/low_level/cc13xx/mac_rx_onoff.c:150-161 | the flags are OR-ed in without touching the radio |
| MacRxOnOff.RxOnOff.OffRequest | source/ti/ti_wisunfan/wisunfan_mac/low_level/cc13xx/mac_rx_onoff.c:277-293 | the radio is turned off only when the flags are 0 and neither RX nor TX is active |
| MacRxOnOff.RxOnOff.Disable | source/ti/ti_wisunfan/wisunfan_mac/low_level/cc13xx/mac_rx_onoff.c:175-192 | exactly the given bits are cleared, then the off request runs |
| MacRxOnOff.RxOnOff.SoftDisable | source/ti/ti_wisunfan/wisunfan_mac/low_level/cc13xx/mac_rx_onoff.c:205-216 | exactly the given bits are cleared without touching the radio |
| MacRxOnOff.RxOnOff.HardDisable | source/ti/ti_wisunfan/wisunfan_mac/low_level/cc13xx/mac_rx_onoff.c:228-240 | the flags become 0 and the radio is turned off and halted |
| MacRxOnOff.RxOnOff.OnRequest | source/ti/ti_wisunfan/wisunfan_mac/low_level/cc13xx/mac_rx_onoff.c:252-264 | with flags 0 it returns false without touching the radio; otherwise it turns RX on and reports the radio's outcome |
| MacBeacon.ToInt32 | source/ti/ti_wisunfan/wisunfan_mac/high_level/mac_beacon.c:330-345 | the cast to int32 is the two's-complement value congruent to the unsigned one |
| MacBeacon.ClampU16 | source/ti/ti_wisunfan/wisunfan_mac/high_level/mac_beacon.c:350-360 | the time left is clamped to [0, 65535] |
| MacBeacon.CapEnd | source/ti/ti_wisunfan/wisunfan_mac/high_level/mac_beacon.c:386-399 | capEnd is a 32-bit value and 0 for SO none |
| MacBeacon.CapEndExact | source/ti/ti_wisunfan/wisunfan_mac/high_level/mac_beacon.c:386-399 | otherwise capEnd is ((finalCapSlot+1)<<SO)*BASE minus 160 when SO equals BO, else minus 16 |
| MacBeacon.DestAddrMode | source/ti/ti_wisunfan/wisunfan_mac/high_level/mac_beacon.c:200-214 | the destination address mode is a 2-bit field of the frame control |
| MacBeacon.TxFrame.constructor | source/ti/ti_wisunfan/wisunfan_mac/high_level/mac_beacon.c:160-218 | a frame holds its schedule, tx mode, indirect flag and bytes |
| MacBeacon.Beacon.constructor | source/ti/ti_wisunfan/wisunfan_mac/high_level/mac_beacon.c:131-141 | the beacon record starts reset |
| MacBeacon.Beacon.Reset | source/ti/ti_wisunfan/wisunfan_mac/high_level/mac_beacon.c:103-112 | no CAP, inactive schedule, no sync and no rx window |
| MacBeacon.Beacon.CheckSched | source/ti/ti_wisunfan/wisunfan_mac/high_level/mac_beacon.c:237-251 | SCAN_RELATED while scanning, OUTGOING_CAP in non-beacon mode, else the recorded schedule |
| MacBeacon.Beacon.CheckTxTime | source/ti/ti_wisunfan/wisunfan_mac/high_level/mac_beacon.c:313-361 | 0 in non-beacon mode or with no schedule; otherwise the clamped time left |
| MacBeacon.Beacon.SetupCap | source/ti/ti_wisunfan/wisunfan_mac/high_level/mac_beacon.c:380-409 | the schedule is recorded; for an outgoing CAP, capStart and capEnd are offset by the beacon transmit time |
| MacBeacon.Beacon.SetSched | source/ti/ti_wisunfan/wisunfan_mac/high_level/mac_beacon.c:160-218 | every frame gets OUTGOING_CAP; non-beacon or scan frames keep their tx mode; other frames are scheduled by destination |
| MacBeacon.ResetLeavesNoTxTime | source/ti/ti_wisunfan/wisunfan_mac/high_level/mac_beacon.c:103-112 | after reset the tx-time check gives 0 |
| MacBeacon.SetupThenCheckSched | source/ti/ti_wisunfan/wisunfan_mac/high_level/mac_beacon.c:237-251 | outside scans in beacon mode, the schedule check returns what the CAP setup recorded |
| MacBeacon.TxTimeInBand | source/ti/ti_wisunfan/wisunfan_mac/high_level/mac_beacon.c:313-361 | in beacon mode with a schedule, the result is the time left when it is in [0, 65535] |
| MacMcu.Sub32 | source/ti/ti_wisunfan/wisunfan_mac/low_level/cc13xx/mac_mcu.c:280-302 | unsigned 32-bit subtraction is the difference modulo 2^32 |
| MacMcu.CaptureSplit | source/ti/ti_wisunfan/wisunfan_mac/low_level/cc13xx/mac_mcu.c:280-302 | TimerCapture is below the ratio, and OverflowCapture times the ratio plus TimerCapture is the elapsed RAT count modulo 2^32 |
| MacMcu.LongDiv | source/ti/ti_wisunfan/wisunfan_mac/low_level/cc13xx/mac_mcu.c:467-474 | the quotient is truncated to 32 bits |
| MacMcu.LongDivRounds | source/ti/ti_wisunfan/wisunfan_mac/low_level/cc13xx/mac_mcu.c:467-474 | when the quotient fits, it is the dividend divided by the divisor rounded to nearest |
| MacMcu.SignBitIsNegative | source/ti/ti_wisunfan/wisunfan_mac/low_level/cc13xx/mac_mcu.c:339-345 | the sign-bit test of a 32-bit difference is a test for at least 2^31 |
| MacMcu.ProgrammedCompare | source/ti/ti_wisunfan/wisunfan_mac/low_level/cc13xx/mac_mcu.c:330-350 | the compare programmed is a 32-bit value |
| MacMcu.CompareReplacedIff | source/ti/ti_wisunfan/wisunfan_mac/low_level/cc13xx/mac_mcu.c:339-345 | the compare is replaced exactly when it lies in the past window or too close ahead |
| MacMcu.ProgrammedCompareIsSafe | source/ti/ti_wisunfan/wisunfan_mac/low_level/cc13xx/mac_mcu.c:339-345 | a replaced compare is current + 200*MAC_RAT_MHZ; a kept one is the requested count |
| MacMcu.SymbolTimer.constructor | source/ti/ti_wisunfan/wisunfan_mac/low_level/cc13xx/mac_mcu.c:316-327 | the timer starts with nothing programmed and not impending |
| MacMcu.SymbolTimer.SetCompare | source/ti/ti_wisunfan/wisunfan_mac/low_level/cc13xx/mac_mcu.c:316-352 | with the radio inactive only macSymbolTimerImpending is set; otherwise the safe compare is programmed |
| MacMcu.SymbolTimer.SetPeriod | source/ti/ti_wisunfan/wisunfan_mac/low_level/cc13xx/mac_mcu.c:366-401 | the same for the period compare |
| MacMcu.PrecisionCount | source/ti/ti_wisunfan/wisunfan_mac/low_level/cc13xx/mac_mcu.c:415-418 | the count is 16 bits |
| MacMcu.PrecisionCountLowBits | source/ti/ti_wisunfan/wisunfan_mac/low_level/cc13xx/mac_mcu.c:415-418 | it is the RAT time's low 16 bits |
| EasylinkCommon.IdentTailAll | ti/easylink/.meta/easylink_common.js:189-197 | the identifier tail holds iff every character is a letter, digit or underscore |
| EasylinkCommon.IsCNameIff | ti/easylink/.meta/easylink_common.js:189-197 | isCName is true iff the id is empty or matches the C identifier pattern |
| EasylinkCommon.Capitalize | ti/easylink/.meta/easylink_common.js:102-110 | capitalising a segment keeps its length |
| EasylinkCommon.CapitalizeAll | ti/easylink/.meta/easylink_common.js:102-110 | each segment is capitalised in place |
| EasylinkCommon.RemoveChar | ti/easylink/.meta/easylink_common.js:102-112 | removing a character leaves none of it |
| EasylinkCommon.UnderscoreToCamelCase | ti/easylink/.meta/easylink_common.js:95-115 | null iff the input is empty or has a space; otherwise the capitalised segments joined, without '_', and equal ignoring case to the input without '_' |
| EasylinkCommon.JoinEmptyFree | ti/easylink/.meta/easylink_common.js:102-112 | joining pieces free of a character gives text free of it |
| EasylinkCommon.CapitalizeFree | ti/easylink/.meta/easylink_common.js:102-110 | capitalising introduces no underscore |
| EasylinkCommon.CamelCaseHasNoUnderscore | ti/easylink/.meta/easylink_common.js:102-112 | the camel-case result has no '_' |
| EasylinkCommon.ToLowerConcat | ti/easylink/.meta/easylink_common.js:102-110 | lower-casing distributes over concatenation |
| EasylinkCommon.LowerCapitalize | ti/easylink/.meta/easylink_common.js:102-110 | capitalising changes only case |
| EasylinkCommon.LowerJoinCapitalized | ti/easylink/.meta/easylink_common.js:102-112 | the joined capitalised segments equal the joined segments ignoring case |
| EasylinkCommon.JoinSplitEmpty | ti/easylink/.meta/easylink_common.js:102-112 | splitting on a character and joining with "" removes it |
| EasylinkCommon.CamelCaseLowered | ti/easylink/.meta/easylink_common.js:102-112 | the camel-case text equals the input without '_' ignoring case |
| EasylinkCommon.FirstFamilyIsFirstMatch | ti/easylink/.meta/easylink_common.js:126-178 | the family is "" iff no rule matches, else that of the first matching rule |
| EasylinkCommon.Device2DeviceFamilyFirstMatch | ti/easylink/.meta/easylink_common.js:126-178 | device2DeviceFamily returns the family of the first matching pattern in listed order, and "" when none matches |
| EasylinkCommon.SearchNeedsChar | ti/easylink/.meta/easylink_common.js:126-178 | a pattern cannot match a text lacking one of its literal characters |
| EasylinkCommon.StripSpaces | ti/easylink/.meta/easylink_common.js:251-265 | the stripped text has no whitespace and is no longer |
| EasylinkCommon.StringToArray | ti/easylink/.meta/easylink_common.js:251-265 | [] iff nothing remains after stripping whitespace; otherwise pieces without ',' or whitespace whose ','-join is the stripped text |
| EasylinkCommon.SplitKeepsChars | ti/easylink/.meta/easylink_common.js:251-265 | every character of a piece comes from the split text |
| GpioSyscfg.GetAttrsDoNotConfig | ti/drivers/.meta/GPIO.syscfg.js:455-553 | the attributes are GPIO_DO_NOT_CONFIG iff the pin is Dynamic or a null entry; otherwise they start with GPIO_CFG_ |
| GpioSyscfg.OutputAttrsLevel | ti/drivers/.meta/GPIO.syscfg.js:498-503 | output attributes end with OUT_HIGH or OUT_LOW by the initial output state |
| GpioSyscfg.InputAttrsShape | ti/drivers/.meta/GPIO.syscfg.js:507-551 | input attributes are a pull term and exactly one INT_ term, INT_NONE iff the trigger is None |
| GpioSyscfg.IssuesOfConcat | ti/drivers/.meta/GPIO.syscfg.js:326-365 | the issues of joined reports are the issues of each |
| GpioSyscfg.IssuesOfValidate | ti/drivers/.meta/GPIO.syscfg.js:326-365 | validate's issues are the rules' issues in source order |
| GpioSyscfg.IssuesOfSingle | ti/drivers/.meta/GPIO.syscfg.js:326-365 | a conditional single report yields its issue exactly when its condition holds |
| GpioSyscfg.RuleIssues | ti/drivers/.meta/GPIO.syscfg.js:326-365 | each rule raises its issue exactly under its condition |
| GpioSyscfg.ValidateRules | ti/drivers/.meta/GPIO.syscfg.js:326-365 | errors for an Output with a trigger, an Output with a callback and a non-C-name; warnings for a trigger with an empty callback outside Dynamic and for "null" spelled other than NULL; each iff its condition |
| GpioSyscfg.ValidateSeverities | ti/drivers/.meta/GPIO.syscfg.js:326-365 | the first three issues are errors and the rest warnings, each attached to its config |
| GpioSyscfg.ClearedInstanceValid | ti/drivers/.meta/GPIO.syscfg.js:280-282 | a pin with trigger None and no callback raises no issue |
| GpioSyscfg.InstanceView.constructor | ti/drivers/.meta/GPIO.syscfg.js:264-306 | a view of an instance and its hidden flags |
| GpioSyscfg.InstanceView.UpdateConfigs | ti/drivers/.meta/GPIO.syscfg.js:264-306 | per mode, the hidden flags of each config; switching to Output forces trigger None and callback "", after which validate is silent |
| GpioSyscfg.InstanceView.UpdateNullEntry | ti/drivers/.meta/GPIO.syscfg.js:311-317 | setting nullEntry clears the trigger and callback; otherwise nothing changes |
| GpioSyscfg.MarkedOnes | ti/drivers/.meta/GPIO.syscfg.js:238-258 | the instances marked as needing a callback |
| GpioSyscfg.UnmarkedOnes | ti/drivers/.meta/GPIO.syscfg.js:238-258 | the instances not marked |
| GpioSyscfg.Sort | ti/drivers/.meta/GPIO.syscfg.js:238-258 | the identity when empty or disabled; otherwise the marked instances then the unmarked, each in original order |
| GpioSyscfg.PartitionPermutes | ti/drivers/.meta/GPIO.syscfg.js:238-258 | the sorted list is a permutation of the input |
| GpioSyscfg.SortedGroups | ti/drivers/.meta/GPIO.syscfg.js:238-258 | no unmarked instance precedes a marked one |
| GpioSyscfg.CountNeeding | ti/drivers/.meta/GPIO.syscfg.js:558-589 | the callback count is at most the instance count |
| GpioSyscfg.CallbackNames | ti/drivers/.meta/GPIO.syscfg.js:575-587 | the extern names are distinct |
| GpioSyscfg.ExternDecls | ti/drivers/.meta/GPIO.syscfg.js:575-587 | one extern declaration per name, in order |
| GpioSyscfg.CollectLoop | ti/drivers/.meta/GPIO.syscfg.js:558-589 | the loop computes the count, the marks and the names |
| GpioSyscfg.CallbackTable.constructor | ti/drivers/.meta/GPIO.syscfg.js:558-560 | no marks and no externs |
| GpioSyscfg.CallbackTable.CollectCallbacks | ti/drivers/.meta/GPIO.syscfg.js:558-589 | returns the number of instances needing a callback, records each mark, and appends one extern per distinct callback name |
| GpioSyscfg.CallbackNamesMembers | ti/drivers/.meta/GPIO.syscfg.js:575-587 | a name is listed iff some instance uses it and it is not "" or NULL |
| GpioSyscfg.ExternDeclInjective | ti/drivers/.meta/GPIO.syscfg.js:580-584 | distinct names give distinct declarations |
| GpioSyscfg.MarksRecordEach | ti/drivers/.meta/GPIO.syscfg.js:558-574 | with unique names, each instance is marked iff it needs a callback |
| GpioSyscfg.MarkedCount | ti/drivers/.meta/GPIO.syscfg.js:238-258 | the marked group's size is the callback count |
| GpioSyscfg.CollectThenSort | ti/drivers/.meta/GPIO.syscfg.js:238-589 | after collecting, sort's first group has exactly the callback count's size |
| NetworkConfig.AlwaysHidden | source/ti/ti_wisunfan/.meta/network_config/ti154stack_network_config.syscfg.js:326-345 | the legacy masks, channels and the backoff intervals are always hidden |
| NetworkConfig.AlwaysVisible | source/ti/ti_wisunfan/.meta/network_config/ti154stack_network_config.syscfg.js:317-386 | net name, unicast mask, async channels, PAN id and unicast dwell are always visible |
| NetworkConfig.CollectorOnly | source/ti/ti_wisunfan/.meta/network_config/ti154stack_network_config.syscfg.js:346-364 | broadcast interval, dwell, mask, maxDevices and tracking delay are visible iff the project is a border router |
| NetworkConfig.PollingAndOthers | source/ti/ti_wisunfan/.meta/network_config/ti154stack_network_config.syscfg.js:365-382 | pollingInterval is hidden iff the mode is beacon; unlisted configs are visible |
| NetworkConfig.DefaultChannelMaskContents | source/ti/ti_wisunfan/.meta/network_config/ti154stack_network_config.syscfg.js:169-188 | the first supported channel in fixedChannel mode, else all supported channels, as decimal strings that read back |
| NetworkConfig.DefaultChannelMaskCustomContents | source/ti/ti_wisunfan/.meta/network_config/ti154stack_network_config.syscfg.js:197-205 | the custom PHY default is the first totalChannels supported channels as strings |
| NetworkConfig.FlattenMember | source/ti/ti_wisunfan/.meta/network_config/ti154stack_network_config.syscfg.js:455-578 | a report is logged iff some check group logged it |
| NetworkConfig.ChecksAbout | source/ti/ti_wisunfan/.meta/network_config/ti154stack_network_config.syscfg.js:455-578 | each check group only reports on its own config, and only when that config is shown |
| NetworkConfig.GroupAbout | source/ti/ti_wisunfan/.meta/network_config/ti154stack_network_config.syscfg.js:455-578 | a report of one check group is about that group's config, which is shown |
| NetworkConfig.MaskAbout | source/ti/ti_wisunfan/.meta/network_config/ti154stack_network_config.syscfg.js:462-493 | the checks of a channel config are about it and made only when it is shown |
| NetworkConfig.ReportAbout | source/ti/ti_wisunfan/.meta/network_config/ti154stack_network_config.syscfg.js:455-578 | every report belongs to the group of its config |
| NetworkConfig.ValidateOnlyShown | source/ti/ti_wisunfan/.meta/network_config/ti154stack_network_config.syscfg.js:455-578 | validate never reports on a hidden config |
| NetworkConfig.CheckedCfgUnique | source/ti/ti_wisunfan/.meta/network_config/ti154stack_network_config.syscfg.js:455-578 | apart from the repeated dwell check, no config is checked by two groups |
| NetworkConfig.InGroup | source/ti/ti_wisunfan/.meta/network_config/ti154stack_network_config.syscfg.js:455-578 | a group's report is logged |
| NetworkConfig.GroupReports | source/ti/ti_wisunfan/.meta/network_config/ti154stack_network_config.syscfg.js:455-578 | a report about a group's config is logged iff that group logs it |
| NetworkConfig.EmptyMaskError | source/ti/ti_wisunfan/.meta/network_config/ti154stack_network_config.syscfg.js:418-426 | an empty-mask error is logged iff the mask config is shown and no channel is selected |
| NetworkConfig.NetnameError | source/ti/ti_wisunfan/.meta/network_config/ti154stack_network_config.syscfg.js:496-503 | a net-name error is logged iff the name is 32 or more characters |
| NetworkConfig.MaxDevicesReports | source/ti/ti_wisunfan/.meta/network_config/ti154stack_network_config.syscfg.js:506-528 | maxDevices reports are exactly those of its check |
| NetworkConfig.MaxDevicesNotes | source/ti/ti_wisunfan/.meta/network_config/ti154stack_network_config.syscfg.js:506-528 | for a border router, the range check always runs, the table note iff the value is not the default 50, and the above-150 note iff it exceeds 150 |
| NetworkConfig.BackoffNeverChecked | source/ti/ti_wisunfan/.meta/network_config/ti154stack_network_config.syscfg.js:531-543 | the scan and orphan backoff ranges are never checked, since those configs are always hidden |
| NetworkConfig.NetworkView.constructor | source/ti/ti_wisunfan/.meta/network_config/ti154stack_network_config.syscfg.js:225-240 | a view of an instance with no hidden flags or restored values |
| NetworkConfig.NetworkView.SetDefaultChannelMasks | source/ti/ti_wisunfan/.meta/network_config/ti154stack_network_config.syscfg.js:225-240 | the three channel masks become the default, or the custom PHY default |
| NetworkConfig.NetworkView.SetHiddenState | source/ti/ti_wisunfan/.meta/network_config/ti154stack_network_config.syscfg.js:396-408 | the config's hidden flag is set from the visibility rules, and a hidden config is restored to its default |

## Left out

- I/O, RTOS clocks, critical sections, power-management votes and LEDs are not modelled. Stack, radio and allocator calls become parameters, or a log the state keeps (`radio`, `outbox`, `compares`, `syncRequests`).
- `FHDH1CF_hashword` is a function parameter, because its mix macros are not part of this model.
- FhDh1cf.MapChIdxChannel: the uint8_t counter wrap-around is not modelled; channel counts are taken as unbounded.
- FhDh1cf.GetCh, FhDh1cf.GetBcCh: both require `numChannels > 0`, because the C divides by it.
- `FHFSM_MAX_DEBUG_EVENTS` is a constructor parameter, because its header is not part of this model.
- The FH state and event numbering follows the matrix order, because the header that numbers them is not part of this model.
- MeshModels.GenericServer.DeltaSet: the C adds the last level and the 32-bit delta in an `int32_t`, which overflows for a delta near 2^31; the model does not model that overflow and clamps the exact sum to the int16 range.
- MeshModels.GenericServer.SetTransitionValues: stores the corrected per-step time of a Move, the whole transition time. As written, the C's test against `MOVE_STATE` never holds, so it stores one hop. MeshModels.MoveQuoTtAsWrittenIsHop records the written behaviour (see Findings).
- MeshModels.GenericServer.MoveSet: carries the same corrected per-step time of a Move, through `SetTransitionValues`.
- MacIeParse: the length counters are unbounded rather than wrapping uint16_t.
- `macIeCoexist` and `macIeFreeList` are left out: they only free lists, which the model's value lists do not need.
- MtCsf: the statistics field is taken as the 24 16-bit fields the encoder writes, because its structure header is not part of this model.
- MtCsf: the invalid-state status code and allocation success are parameters.
- MtCsf.NpiFrame: the length byte is not truncated to 8 bits; every frame the model builds has less than 256 data bytes.
- MtCsf: `processMsg` dispatch, `relayRxMsg` and the other request handlers are left out; they only route to the modelled decoders.
- MacSecurityPib: the attribute identifiers follow IEEE 802.15.4 numbering, because `mac_spec.h` is not part of this model.
- MacSecurityPib: the attribute table is a parameter.
- MacSecurityPib.SecurityPib.Reset does not model the 0xFF fill of `autoRequestKeySource`, `autoRequestKeyIndex` and `defaultKeySource`, nor the PAN-coordinator address mode `SADDR_MODE_EXT` and short address `MAC_SHORT_ADDR_NONE`; the image is zeroed as a whole. It also does not tie the key-table counts to the memory image.
- MacSecurityPib.SecurityPib.PlainValue models only the plain-attribute copy of `MAC_MlmeGetSecurityReq`; that function's key-table and frame-counter cases and `MAC_MlmeGetPointerSecurityReq`, which only hands out table pointers, are left out.
- MacSecurityPib.KeyTableEntriesAfter: the count is unbounded; the wrap-around of the C's counter on an increment is not modelled.
- MacSecurityPib.SecurityPib.SetSecurityReq: the key index is checked against the key table's length. The C checks it against `MAX_KEY_TABLE_ENTRIES`, and only when `FEATURE_WISUN_SUPPORT` is defined; without that check the C would write past the table, which the model does not allow.
- WisunApp: nanostack calls (address queries, multicast group add/remove) are parameters, and the LED write is the returned value.
- WisunApp.Strtol10 handles only decimal digits and signs, which is all `handle_message` needs. It does not saturate at `LONG_MAX`/`LONG_MIN`; the value is unbounded before `ToU16` truncates it.
- TimeClock: the UTC conversion (`UTC_convertUTCTime`) and the LCD write are left out.
- TimeClock.DisplayLine requires month < 12, as the month-name table demands.
- MacBeacon: `macBeaconRequeue` is left out; it is queue plumbing.
- MacBeacon.Beacon.constructor models only the struct reset of `macBeaconInit`, not its function-pointer setup.
- MacBeacon.Beacon.CheckTxTime: the int32 overflow of the intermediate time-left sum is not modelled.
- MacBeacon: the beacon duration, current time and beacon-order boundary are parameters.
- MacBeacon: the sync request is recorded in a log.
- MacMcu: `macMcuInit`, `macMcuRandomByte`/`Word`, `macMcuRfErrIsr` and `macMcuBitReverse` are left out; they are hardware set-up, random numbers from the radio, an interrupt stub and a loop over hardware registers.
- MacMcu: `RF_getCurrentTime` is a parameter, and the compare programming is a log.
- JavaScript `toUpperCase`/`toLowerCase` are modelled for ASCII only.
- `ti/drivers/Common.js` is not part of this model; GPIO uses EasyLink's `isCName`, which has the same pattern.
- EasylinkCommon: a `null` id is not modelled.
- EasylinkCommon: in the device patterns, `.*` is treated as matching the empty string too.
- GpioSyscfg: the JavaScript object key order of `addCallback` is assumed to hold no integer-like callback names.
- GpioSyscfg: instance names are assumed unique (`UniqueNames`).
- GpioSyscfg: `getPinNum`, `getFullPinName`, `onHardwareChanged`, `pinmuxRequirements` and `filterHardware` are left out; they are board and hardware lookups.
- GpioSyscfg: the module's static `enableSort` is a parameter.
- NetworkConfig: config names are an enumeration.
- NetworkConfig: `getSupportedChannels` and `getChannelOptions` are replaced by the instance's `supportedChannels` field, because the RF common script is not part of this model.
- NetworkConfig: the range and enumeration checks of `ti154stack_common.js` are recorded as reports, not evaluated.
- NetworkConfig: `validateOrder` is left out; it is never called.
- NetworkConfig: `selectAllOptions` is left out; it is a UI helper.
- NetworkConfig: `restoreDefaultValue` is recorded in the `restored` log.
- NetworkConfig: `totalChannels` is a natural number, so a negative slice bound is not modelled.
- The border-router copy of `get_first_fixed_channel` is not modelled; it is identical.

## Findings

| source | as written | input that shows it | evidently intended | confidence | as-written member | corrected member |
|---|---|---|---|---|---|---|
| source/ti/ble5stack/mesh/sig_models.c:1403-1408 | `set_transition_values` tests `transition->type == MOVE_STATE`, but callers pass the kind of transition, so a Move gets a per-step time of one hop | a Move with tt 0x0A (10 steps of 100 ms): per-step time 100 ms | a Move's per-step time is the whole transition time (1000 ms) | not executed | MeshModels.MoveQuoTtAsWrittenIsHop | MeshModels.QuoTtMatchesTransitionTime |
| source/ti/ti_wisunfan/wisunfan_mac/high_level/mac_ie_parse.c:545-570 | `macMlmeSubIePresent` never advances its pointer inside the MLME IE, so only the first sub-IE is ever compared | an MLME IE holding sub-IEs 0x10 then 0x11, searching for 0x11 | every sub-IE of the MLME IE is examined | not executed | MacIeParse.SecondSubIeMissedAsWritten | MacIeParse.MlmeSubIePresent |
| source/ti/ti_wisunfan/apps/udp_nanostack_mesh_tirf/application.c:532-541 | `strtol` is applied at "g:" itself, which has no digits, so the group is always 0 and every message with a group switches the LED | "g:7;t:lights;s:1;" switches the LED on | only groups 0 and 1 switch the LED | not executed | WisunApp.AsWrittenIgnoresGroup | WisunApp.HandleMessageFollowsGroup |
