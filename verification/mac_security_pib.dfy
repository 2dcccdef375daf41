/**
 * The security part of the 802.15.4 MAC PIB
 * (wisunfan_mac/high_level/mac_security_pib.c): the index of a plain
 * security attribute in the attribute table, the attribute sizes, the set
 * request with its special key-table, device-table and frame-counter
 * cases, and the reset of the tables.
 *
 * The plain attributes live in a byte image that the attribute table
 * addresses by offset and length; the table itself is a constant of the
 * PIB. Attribute identifiers are the TI-15.4 MAC API values.
 */
module MacSecurityPib {
  import opened Wrappers

  /** The MAC status codes these functions return. */
  datatype MacStatus = Success | InvalidParameter | UnsupportedAttribute | ReadOnly | InvalidIndex

  const MAC_ATTR_SECURITY_SET1_START: nat := 0x81
  const MAC_ATTR_SECURITY_SET1_END: nat := 0x8B
  const MAC_SECURITY_PIB_INVALID: nat := 0xFF
  const NUM_PLAIN_ATTRS: nat := MAC_ATTR_SECURITY_SET1_END - MAC_ATTR_SECURITY_SET1_START + 1

  const MAC_KEY_TABLE: nat := 0x71
  const MAC_DEVICE_TABLE: nat := 0x72
  const MAC_SECURITY_LEVEL_TABLE: nat := 0x73
  const MAC_FRAME_COUNTER: nat := 0x84
  const MAC_KEY_ID_LOOKUP_ENTRY: nat := 0xD0
  const MAC_KEY_DEVICE_ENTRY: nat := 0xD1
  const MAC_KEY_USAGE_ENTRY: nat := 0xD2
  const MAC_KEY_ENTRY: nat := 0xD3
  const MAC_DEVICE_ENTRY: nat := 0xD4
  const MAC_SECURITY_LEVEL_ENTRY: nat := 0xD5

  const MAC_KEY_MAX_LEN: nat := 16
  const EXT_ADDR_LEN: nat := 8
  const MAC_FRAME_TYPE_DATA: nat := 1
  const MAC_FRAME_TYPE_ACK: nat := 2
  const MAX_KEY_USAGE_TABLE_ENTRIES: nat := 2
  const MAX_SECURITY_LEVEL_TABLE_ENTRIES: nat := 2

  /**
   * `macSecurityPibIndex`: the attributes 0x81..0x8B are the first eleven
   * rows of the attribute table; every other value is invalid.
   */
  function PibIndex(attr: nat): (i: nat)
    ensures MAC_ATTR_SECURITY_SET1_START <= attr <= MAC_ATTR_SECURITY_SET1_END ==> i == attr - MAC_ATTR_SECURITY_SET1_START
    ensures !(MAC_ATTR_SECURITY_SET1_START <= attr <= MAC_ATTR_SECURITY_SET1_END) ==> i == MAC_SECURITY_PIB_INVALID
  {
    if MAC_ATTR_SECURITY_SET1_START <= attr <= MAC_ATTR_SECURITY_SET1_END then attr - MAC_ATTR_SECURITY_SET1_START
    else MAC_SECURITY_PIB_INVALID
  }

  /** The attribute a row of the table belongs to. */
  function AttrOfIndex(i: nat): (attr: nat)
    requires i < NUM_PLAIN_ATTRS
    ensures MAC_ATTR_SECURITY_SET1_START <= attr <= MAC_ATTR_SECURITY_SET1_END
  {
    i + MAC_ATTR_SECURITY_SET1_START
  }

  /** The index is valid exactly for the eleven plain attributes, it is
      then a row of the table, and the row leads back to the attribute. */
  lemma PibIndexRoundTrip(attr: nat, i: nat)
    ensures PibIndex(attr) != MAC_SECURITY_PIB_INVALID <==> MAC_ATTR_SECURITY_SET1_START <= attr <= MAC_ATTR_SECURITY_SET1_END
    ensures PibIndex(attr) != MAC_SECURITY_PIB_INVALID ==> PibIndex(attr) < NUM_PLAIN_ATTRS && AttrOfIndex(PibIndex(attr)) == attr
    ensures i < NUM_PLAIN_ATTRS ==> PibIndex(AttrOfIndex(i)) == i
  {
  }

  /** A row of `macSecurityPibTbl`: where the attribute lives in the PIB
      image, how many bytes it has, and its range (0..0 meaning none). */
  datatype PibTblEntry = PibTblEntry(offset: nat, len: nat, min: nat, max: nat)

  /** The sizes of the proprietary per-entry attributes' structures. */
  datatype EntrySizes = EntrySizes(keyIdLookup: nat, keyDevice: nat, keyUsage: nat, key: nat, device: nat, securityLevel: nat)

  /**
   * `MAC_MlmeGetSecurityReqSize`: the structure size of a per-entry
   * attribute, the table length of a plain attribute, 0 for anything else.
   */
  function GetSecurityReqSize(attr: nat, table: seq<PibTblEntry>, sizes: EntrySizes): (len: nat)
    requires |table| == NUM_PLAIN_ATTRS
    ensures attr == MAC_KEY_ID_LOOKUP_ENTRY ==> len == sizes.keyIdLookup
    ensures attr == MAC_KEY_DEVICE_ENTRY ==> len == sizes.keyDevice
    ensures attr == MAC_KEY_USAGE_ENTRY ==> len == sizes.keyUsage
    ensures attr == MAC_KEY_ENTRY ==> len == sizes.key
    ensures attr == MAC_DEVICE_ENTRY ==> len == sizes.device
    ensures attr == MAC_SECURITY_LEVEL_ENTRY ==> len == sizes.securityLevel
    ensures MAC_ATTR_SECURITY_SET1_START <= attr <= MAC_ATTR_SECURITY_SET1_END ==> len == table[attr - MAC_ATTR_SECURITY_SET1_START].len
    ensures !(MAC_ATTR_SECURITY_SET1_START <= attr <= MAC_ATTR_SECURITY_SET1_END) && !(MAC_KEY_ID_LOOKUP_ENTRY <= attr <= MAC_SECURITY_LEVEL_ENTRY) ==> len == 0
  {
    if attr == MAC_KEY_ID_LOOKUP_ENTRY then sizes.keyIdLookup
    else if attr == MAC_KEY_DEVICE_ENTRY then sizes.keyDevice
    else if attr == MAC_KEY_USAGE_ENTRY then sizes.keyUsage
    else if attr == MAC_KEY_ENTRY then sizes.key
    else if attr == MAC_DEVICE_ENTRY then sizes.device
    else if attr == MAC_SECURITY_LEVEL_ENTRY then sizes.securityLevel
    else
      var i := PibIndex(attr);
      if i != MAC_SECURITY_PIB_INVALID then table[i].len else 0
  }

  // ---------------------------------------------------------------------
  // Tables
  // ---------------------------------------------------------------------

  /** `keyIdLookupDescriptor_t`. */
  datatype LookupDesc = LookupDesc(lookupData: seq<nat>, lookupDataSize: nat)

  /** `keyDeviceDescriptor_t`; the all-zero descriptor is what a cleared
      slot holds. */
  datatype KeyDeviceDesc = KeyDeviceDesc(deviceDescriptorHandle: nat, uniqueDevice: bool, blacklisted: bool)

  const ZeroKeyDevice := KeyDeviceDesc(0, false, false)

  /** `keyDescriptor_t`: the lookup list and key-device list storage with
      the number of entries in use, the key and its frame counter. */
  datatype KeyDescriptor = KeyDescriptor(
    lookupList: seq<LookupDesc>, lookupEntries: nat,
    deviceList: seq<KeyDeviceDesc>, deviceEntries: nat,
    usageEntries: nat, key: seq<nat>, frameCounter: nat)

  /** `deviceDescriptor_t`. */
  datatype DeviceDescriptor = DeviceDescriptor(panID: nat, shortAddress: nat, extAddress: seq<nat>, frameCounter: nat, exempt: bool)

  /** `macCfg`'s table dimensions. */
  datatype MacCfg = MacCfg(maxKeyTableEntries: nat, maxKeyIdLookUpEntries: nat, maxDeviceTableEntries: nat, maxKeyDeviceEntries: nat)

  /** Whether a key-table request fits the slot it is copied into. */
  predicate FitsSlot(slot: KeyDescriptor, req: KeyDescriptor)
  {
    req.lookupEntries <= |req.lookupList| && req.lookupEntries <= |slot.lookupList|
    && req.deviceEntries <= |slot.deviceList| && |req.key| >= MAC_KEY_MAX_LEN
  }

  /**
   * The key-table slot after a `MAC_KEY_TABLE` set. A request with lookup
   * entries copies them over the first slots of the lookup list; one
   * without clears the first `deviceEntries` key-device slots (and, as the
   * size it clears the lookup list by is the request's zero count, none of
   * the lookup list). Either way the counts and key come from the request
   * and the frame counter restarts at 0.
   */
  function SetKeySlot(slot: KeyDescriptor, req: KeyDescriptor): (r: KeyDescriptor)
    requires FitsSlot(slot, req)
    ensures r.lookupEntries == req.lookupEntries && r.deviceEntries == req.deviceEntries
    ensures r.key == req.key[..MAC_KEY_MAX_LEN] && r.frameCounter == 0 && r.usageEntries == slot.usageEntries
    ensures |r.lookupList| == |slot.lookupList| && |r.deviceList| == |slot.deviceList|
    ensures req.lookupEntries > 0 ==>
      r.lookupList[..req.lookupEntries] == req.lookupList[..req.lookupEntries]
      && r.lookupList[req.lookupEntries..] == slot.lookupList[req.lookupEntries..]
      && r.deviceList == slot.deviceList
    ensures req.lookupEntries == 0 ==>
      r.lookupList == slot.lookupList
      && (forall j :: 0 <= j < req.deviceEntries ==> r.deviceList[j] == ZeroKeyDevice)
      && r.deviceList[req.deviceEntries..] == slot.deviceList[req.deviceEntries..]
  {
    var n := req.lookupEntries;
    var lookup := if n > 0 then req.lookupList[..n] + slot.lookupList[n..] else slot.lookupList;
    var m := req.deviceEntries;
    var devices := if n > 0 then slot.deviceList else seq(m, _ => ZeroKeyDevice) + slot.deviceList[m..];
    KeyDescriptor(lookup, n, devices, m, slot.usageEntries, req.key[..MAC_KEY_MAX_LEN], 0)
  }

  /** `keyTableEntries` after a key-table set: one more for an added key,
      one fewer (never below 0) for a removed one. */
  function KeyTableEntriesAfter(count: nat, req: KeyDescriptor): (r: nat)
    ensures req.lookupEntries > 0 ==> r == count + 1
    ensures req.lookupEntries == 0 && count > 0 ==> r == count - 1
    ensures req.lookupEntries == 0 && count == 0 ==> r == 0
  {
    if req.lookupEntries > 0 then count + 1 else if count > 0 then count - 1 else 0
  }

  /** What a set request's value pointer points to. */
  datatype SetValue =
    | KeyIndexDesc(keyIndex: nat, keyDesc: KeyDescriptor)
    | DeviceIndexDesc(deviceIndex: nat, deviceDesc: DeviceDescriptor)
    | Raw(bytes: seq<nat>)

  /** The value's shape is the one the attribute's code reads. */
  predicate ValueFits(attr: nat, v: SetValue)
  {
    if attr == MAC_FRAME_COUNTER || attr == MAC_KEY_TABLE then v.KeyIndexDesc?
    else if attr == MAC_DEVICE_TABLE then v.DeviceIndexDesc?
    else if attr == MAC_SECURITY_LEVEL_TABLE then true
    else v.Raw? && |v.bytes| > 0
  }

  /**
   * The outcome of a plain-attribute set, given the attribute's row: a row
   * with a range refuses a read-only attribute (min == max) and a first
   * byte out of [min, max]; a row 0..0 accepts anything.
   */
  function RangeCheck(row: PibTblEntry, first: nat): (status: MacStatus)
    ensures status == Success || status == ReadOnly || status == InvalidParameter
    ensures status == ReadOnly <==> row.min == row.max != 0
    ensures status == InvalidParameter <==> row.min != row.max && (first < row.min || first > row.max)
  {
    if row.min != 0 || row.max != 0 then
      if row.min == row.max then ReadOnly
      else if first < row.min || first > row.max then InvalidParameter
      else Success
    else Success
  }

  /** The security PIB: the attribute image and table, the key and device
      tables and their counters. */
  class SecurityPib {
    const table: seq<PibTblEntry>
    var image: seq<nat>
    var keyTable: seq<KeyDescriptor>
    var keyTableEntries: nat
    var deviceTable: seq<DeviceDescriptor>
    var deviceTableEntries: nat
    var keyUsageFrameTypes: seq<nat>
    var securityLevelTableEntries: nat

    ghost predicate Valid()
      reads this
    {
      |table| == NUM_PLAIN_ATTRS
      && (forall i :: 0 <= i < |table| ==> table[i].offset + table[i].len <= |image|)
      && deviceTableEntries <= |deviceTable|
    }

    constructor (tbl: seq<PibTblEntry>, imageSize: nat)
      requires |tbl| == NUM_PLAIN_ATTRS && forall i :: 0 <= i < |tbl| ==> tbl[i].offset + tbl[i].len <= imageSize
      ensures Valid() && table == tbl && |image| == imageSize
      ensures keyTable == [] && deviceTable == [] && keyTableEntries == 0 && deviceTableEntries == 0
    {
      table := tbl;
      image := seq(imageSize, _ => 0);
      keyTable, deviceTable := [], [];
      keyTableEntries, deviceTableEntries := 0, 0;
      keyUsageFrameTypes, securityLevelTableEntries := [], 0;
    }

    /** The bytes of a plain attribute, as the get request copies them. */
    function PlainValue(i: nat): (v: seq<nat>)
      reads this
      requires Valid() && i < NUM_PLAIN_ATTRS
      ensures |v| == table[i].len
    {
      image[table[i].offset..table[i].offset + table[i].len]
    }

    /**
     * `macSecurityPibReset`: every key slot gets the configured number of
     * lookup entries, no key-device entries, both key usages, a zero key
     * and frame counter; every device slot is the unused entry (PAN ID and
     * short address 0xFFFF, exempt); the device-table count is the
     * configured maximum and the key-table count 0.
     */
    method Reset(cfg: MacCfg)
      requires Valid()
      modifies this
      ensures Valid() && image == seq(|old(image)|, _ => 0)
      ensures |keyTable| == cfg.maxKeyTableEntries && keyTableEntries == 0
      ensures forall k :: 0 <= k < |keyTable| ==>
        keyTable[k].lookupEntries == cfg.maxKeyIdLookUpEntries && keyTable[k].deviceEntries == 0
        && keyTable[k].usageEntries == MAX_KEY_USAGE_TABLE_ENTRIES && keyTable[k].frameCounter == 0
        && keyTable[k].key == seq(MAC_KEY_MAX_LEN, _ => 0)
      ensures |deviceTable| == cfg.maxDeviceTableEntries && deviceTableEntries == cfg.maxDeviceTableEntries
      ensures forall d :: 0 <= d < |deviceTable| ==>
        deviceTable[d] == DeviceDescriptor(0xFFFF, 0xFFFF, seq(EXT_ADDR_LEN, _ => 0), 0, true)
      ensures keyUsageFrameTypes == [MAC_FRAME_TYPE_DATA, MAC_FRAME_TYPE_ACK]
      ensures securityLevelTableEntries == MAX_SECURITY_LEVEL_TABLE_ENTRIES
    {
      image := seq(|image|, _ => 0);
      var slot := KeyDescriptor(
        seq(cfg.maxKeyIdLookUpEntries, _ => LookupDesc([], 0)), cfg.maxKeyIdLookUpEntries,
        seq(cfg.maxKeyDeviceEntries, _ => ZeroKeyDevice), 0,
        MAX_KEY_USAGE_TABLE_ENTRIES, seq(MAC_KEY_MAX_LEN, _ => 0), 0);
      keyTable := seq(cfg.maxKeyTableEntries, _ => slot);
      keyTableEntries := 0;
      deviceTable := seq(cfg.maxDeviceTableEntries, _ => DeviceDescriptor(0xFFFF, 0xFFFF, seq(EXT_ADDR_LEN, _ => 0), 0, true));
      deviceTableEntries := cfg.maxDeviceTableEntries;
      keyUsageFrameTypes := [MAC_FRAME_TYPE_DATA, MAC_FRAME_TYPE_ACK];
      securityLevelTableEntries := MAX_SECURITY_LEVEL_TABLE_ENTRIES;
    }

    /**
     * `MAC_MlmeSetSecurityReq`. A missing value is an invalid parameter.
     * A frame-counter set writes the key's counter; a key-table set
     * rewrites the slot (`SetKeySlot`) and moves the key count; both
     * refuse a key index past the key table. A device-table set refuses an
     * index at or past the device count and otherwise copies the
     * descriptor. A security-level-table set does nothing. Any other
     * attribute must be a plain one, passes the range check of its row,
     * and has its bytes written into the image.
     */
    method SetSecurityReq(attr: nat, value: Option<SetValue>) returns (status: MacStatus)
      requires Valid() && (value.Some? ==> ValueFits(attr, value.value))
      requires value.Some? && attr == MAC_KEY_TABLE && value.value.keyIndex < |keyTable| ==>
        FitsSlot(keyTable[value.value.keyIndex], value.value.keyDesc)
      requires value.Some? && value.value.Raw? && PibIndex(attr) < NUM_PLAIN_ATTRS ==>
        |value.value.bytes| >= table[PibIndex(attr)].len
      modifies this`image, this`keyTable, this`keyTableEntries, this`deviceTable
      ensures Valid()
      ensures value.None? ==> status == InvalidParameter
      ensures status != Success ==>
        image == old(image) && keyTable == old(keyTable) && keyTableEntries == old(keyTableEntries)
        && deviceTable == old(deviceTable)
      ensures value.Some? && (attr == MAC_FRAME_COUNTER || attr == MAC_KEY_TABLE) ==>
        (status == InvalidIndex <==> value.value.keyIndex >= |old(keyTable)|)
      ensures value.Some? && attr == MAC_FRAME_COUNTER && status == Success ==>
        var k := value.value.keyIndex;
        keyTable == old(keyTable)[k := old(keyTable)[k].(frameCounter := value.value.keyDesc.frameCounter)]
        && image == old(image) && deviceTable == old(deviceTable) && keyTableEntries == old(keyTableEntries)
      ensures value.Some? && attr == MAC_KEY_TABLE && status == Success ==>
        var k := value.value.keyIndex;
        keyTable == old(keyTable)[k := SetKeySlot(old(keyTable)[k], value.value.keyDesc)]
        && keyTableEntries == KeyTableEntriesAfter(old(keyTableEntries), value.value.keyDesc)
        && image == old(image) && deviceTable == old(deviceTable)
      ensures value.Some? && attr == MAC_DEVICE_TABLE ==>
        (status == InvalidIndex <==> value.value.deviceIndex >= deviceTableEntries)
      ensures value.Some? && attr == MAC_DEVICE_TABLE && status == Success ==>
        deviceTable == old(deviceTable)[value.value.deviceIndex := value.value.deviceDesc]
        && image == old(image) && keyTable == old(keyTable) && keyTableEntries == old(keyTableEntries)
      ensures value.Some? && attr == MAC_SECURITY_LEVEL_TABLE ==>
        status == Success && image == old(image) && keyTable == old(keyTable)
        && keyTableEntries == old(keyTableEntries) && deviceTable == old(deviceTable)
      ensures value.Some? && attr !in {MAC_FRAME_COUNTER, MAC_KEY_TABLE, MAC_DEVICE_TABLE, MAC_SECURITY_LEVEL_TABLE} ==>
        (PibIndex(attr) == MAC_SECURITY_PIB_INVALID ==> status == UnsupportedAttribute)
        && (PibIndex(attr) != MAC_SECURITY_PIB_INVALID ==>
              var i := PibIndex(attr);
              var row := table[i];
              status == RangeCheck(row, value.value.bytes[0])
              && (status == Success ==>
                    image == old(image)[..row.offset] + value.value.bytes[..row.len] + old(image)[row.offset + row.len..]
                    && PlainValue(i) == value.value.bytes[..row.len]
                    && keyTable == old(keyTable) && deviceTable == old(deviceTable)
                    && keyTableEntries == old(keyTableEntries)))
    {
      if value.None? {
        return InvalidParameter;
      }
      var v := value.value;
      if attr == MAC_FRAME_COUNTER {
        if v.keyIndex >= |keyTable| {
          return InvalidIndex;
        }
        keyTable := keyTable[v.keyIndex := keyTable[v.keyIndex].(frameCounter := v.keyDesc.frameCounter)];
        return Success;
      } else if attr == MAC_KEY_TABLE {
        if v.keyIndex >= |keyTable| {
          return InvalidIndex;
        }
        keyTable := keyTable[v.keyIndex := SetKeySlot(keyTable[v.keyIndex], v.keyDesc)];
        keyTableEntries := KeyTableEntriesAfter(keyTableEntries, v.keyDesc);
        return Success;
      } else if attr == MAC_DEVICE_TABLE {
        if v.deviceIndex >= deviceTableEntries {
          return InvalidIndex;
        }
        deviceTable := deviceTable[v.deviceIndex := v.deviceDesc];
        return Success;
      } else if attr == MAC_SECURITY_LEVEL_TABLE {
        return Success;
      }
      var i := PibIndex(attr);
      if i == MAC_SECURITY_PIB_INVALID {
        return UnsupportedAttribute;
      }
      var row := table[i];
      status := RangeCheck(row, v.bytes[0]);
      if status != Success {
        return;
      }
      image := image[..row.offset] + v.bytes[..row.len] + image[row.offset + row.len..];
      assert PlainValue(i) == v.bytes[..row.len];
    }
  }
}
