/**
 * The Wi-SUN UDP mesh node application (apps/udp_nanostack_mesh_tirf/
 * application.c): the connection-status bookkeeping of the network
 * handler, the light-control message handler, the first allowed fixed
 * channel of a channel bitmap, the bootstrap state as a number, and the
 * multicast-group guards.
 *
 * Calls into the network stack become parameters: whether reading the
 * link-local and global addresses succeeded and what they hold, the
 * bootstrap state, and whether adding a group succeeded. Writing the LED
 * is the value the handler would write.
 */
module WisunApp {
  import opened Wrappers
  import opened Bytes
  import Arith
  import opened Strings

  // ---------------------------------------------------------------------
  // Connection status
  // ---------------------------------------------------------------------

  /** `mesh_connection_status_t`. */
  datatype MeshStatus =
    | MeshConnected | MeshConnectedLocal | MeshConnectedGlobal | MeshDisconnected
    | MeshBootstrapStartFailed | MeshBootstrapFailed | MeshBootstrapStarted

  /** `connection_status_t`. */
  datatype ConStatus = Disconnected | Connecting | LocalUp | GlobalUp

  /** Whether a status reports a connection of some kind. */
  predicate IsConnectedKind(s: MeshStatus)
  {
    s == MeshConnected || s == MeshConnectedLocal || s == MeshConnectedGlobal
  }

  /**
   * The connection status after the handler sees `status`. For a plain
   * CONNECTED it depends on the addresses: a readable link-local address
   * makes it LOCAL_UP, and a readable global address that differs from the
   * link-local buffer makes it GLOBAL_UP; with neither it stays as it was.
   */
  function NextConnectStatus(prev: ConStatus, status: MeshStatus, llOk: bool, gpOk: bool, llAddr: seq<nat>, gpAddr: seq<nat>): (r: ConStatus)
    ensures status == MeshConnectedLocal ==> r == LocalUp
    ensures status == MeshConnectedGlobal ==> r == GlobalUp
    ensures status == MeshBootstrapStarted || status == MeshBootstrapFailed ==> r == Connecting
    ensures status == MeshDisconnected || status == MeshBootstrapStartFailed ==> r == Disconnected
    ensures status == MeshConnected ==>
      r == (if gpOk && gpAddr != llAddr then GlobalUp else if llOk then LocalUp else prev)
  {
    match status
    case MeshConnected =>
      var afterLocal := if llOk then LocalUp else prev;
      if gpOk && gpAddr != llAddr then GlobalUp else afterLocal
    case MeshConnectedLocal => LocalUp
    case MeshConnectedGlobal => GlobalUp
    case MeshBootstrapStarted => Connecting
    case MeshBootstrapFailed => Connecting
    case _ => Disconnected
  }

  /** A connected kind of status never leaves the node disconnected or
      connecting unless it was so before, and only it can bring a node up. */
  lemma {:induction false} UpOnlyWhenConnected(prev: ConStatus, status: MeshStatus, llOk: bool, gpOk: bool, llAddr: seq<nat>, gpAddr: seq<nat>)
    ensures var r := NextConnectStatus(prev, status, llOk, gpOk, llAddr, gpAddr);
      (r == LocalUp || r == GlobalUp) && r != prev ==> IsConnectedKind(status)
    ensures var r := NextConnectStatus(prev, status, llOk, gpOk, llAddr, gpAddr);
      !IsConnectedKind(status) ==> r == Disconnected || r == Connecting
  {
    match status
    case MeshConnected =>
    case MeshConnectedLocal =>
    case MeshConnectedGlobal =>
    case MeshBootstrapStarted =>
    case MeshBootstrapFailed =>
    case MeshDisconnected =>
    case MeshBootstrapStartFailed =>
  }

  /** The application's connection state: `_connect_status`,
      `connectedFlg` and whether the connect call blocks. */
  class NetworkState {
    var connectStatus: ConStatus
    var connectedFlg: bool
    var blocking: bool

    constructor ()
      ensures connectStatus == Disconnected && !connectedFlg && !blocking
    {
      connectStatus, connectedFlg, blocking := Disconnected, false, false;
    }

    /**
     * `nanostackNetworkHandler`. When blocking, a connected kind of status
     * arriving while CONNECTING raises `connectedFlg` and DISCONNECTED
     * clears it; otherwise the flag stays. The connection status then
     * moves as `NextConnectStatus` says.
     */
    method NetworkHandler(status: MeshStatus, llOk: bool, gpOk: bool, llAddr: seq<nat>, gpAddr: seq<nat>)
      modifies this`connectStatus, this`connectedFlg
      ensures connectedFlg ==
        (if blocking && old(connectStatus) == Connecting && IsConnectedKind(status) then true
         else if blocking && status == MeshDisconnected then false
         else old(connectedFlg))
      ensures connectStatus == NextConnectStatus(old(connectStatus), status, llOk, gpOk, llAddr, gpAddr)
    {
      if blocking {
        if connectStatus == Connecting && IsConnectedKind(status) {
          connectedFlg := true;
        } else if status == MeshDisconnected {
          connectedFlg := false;
        }
      }
      if status == MeshConnected {
        if llOk {
          connectStatus := LocalUp;
        }
        if gpOk && gpAddr != llAddr {
          connectStatus := GlobalUp;
        }
      } else if status == MeshConnectedLocal {
        connectStatus := LocalUp;
      } else if status == MeshConnectedGlobal {
        connectStatus := GlobalUp;
      } else if status == MeshBootstrapStarted || status == MeshBootstrapFailed {
        connectStatus := Connecting;
      } else {
        connectStatus := Disconnected;
      }
    }
  }

  // ---------------------------------------------------------------------
  // The light-control message
  // ---------------------------------------------------------------------

  const MASTER_GROUP: nat := 0
  const MY_GROUP: nat := 1


  predicate IsDigit(c: char) { '0' <= c <= '9' }

  /** The value of the decimal digits at the start of `s`. */
  function DigitsValue(s: string, acc: nat): (v: nat)
    ensures v >= acc
  {
    if s == [] || !IsDigit(s[0]) then acc
    else DigitsValue(s[1..], acc * 10 + (s[0] as int - '0' as int))
  }

  /**
   * `strtol(s, &end, 10)` for what these messages hold: an optional sign
   * followed by decimal digits; with no digits the result is 0.
   */
  function Strtol10(s: string): (v: int)
    ensures |s| > 0 && !IsDigit(s[0]) && s[0] != '-' && s[0] != '+' && s[0] != ' ' ==> v == 0
  {
    if s == [] then 0
    else if s[0] == ' ' then Strtol10(s[1..])
    else if s[0] == '-' then 0 - DigitsValue(s[1..], 0) as int
    else if s[0] == '+' then DigitsValue(s[1..], 0)
    else DigitsValue(s, 0)
  }

  /** A `long` stored in a `uint16_t`. */
  function ToU16(v: int): (r: nat)
    ensures r < 0x1_0000
  {
    v % 0x1_0000
  }

  /** The LED state a message asks for: 1 for "s:1;", else 0. */
  function MessageState(msg: string): (state: nat)
    ensures state == 1 <==> FindSub(msg, "s:1;").Some?
  {
    if FindSub(msg, "s:1;").Some? then 1 else 0
  }

  /**
   * `handle_message` as written: the group is read with `strtol` starting
   * at the "g:" itself, and the LED is written when the group is MASTER
   * or MY group. The result is the value written to the LED, if any.
   */
  function HandleMessageAsWritten(msg: string): (led: Option<nat>)
    ensures FindSub(msg, "t:lights;").None? ==> led.None?
  {
    if FindSub(msg, "t:lights;").None? then None
    else
      var g := FindSub(msg, "g:");
      var group := if g.Some? then ToU16(Strtol10(msg[g.value..])) else 0xFFFF;
      if group == MASTER_GROUP || group == MY_GROUP then Some(MessageState(msg)) else None
  }

  /** As written, the group number never matters: a lights message with
      "g:" always writes the LED, one without never does. */
  lemma AsWrittenIgnoresGroup(msg: string)
    requires FindSub(msg, "t:lights;").Some?
    ensures HandleMessageAsWritten(msg).Some? <==> FindSub(msg, "g:").Some?
  {
    var g := FindSub(msg, "g:");
    if g.Some? {
      TagReadsZero(msg, g.value);
    }
  }

  /** `strtol` started on the "g" of a "g:" tag reads no digits. */
  lemma TagReadsZero(msg: string, at: nat)
    requires OccursAt(msg, "g:", at)
    ensures Strtol10(msg[at..]) == 0
  {
    var t := msg[at..];
    assert t[0] == msg[at..at + 2][0] == 'g';
  }

  /** A lights message for group 7 switches this node's LED on as
      written. */
  lemma OtherGroupSwitchesLedAsWritten(msg: string)
    requires msg == "g:7;t:lights;s:1;"
    ensures HandleMessageAsWritten(msg) == Some(1)
  {
    LightsFound(msg);
    SwitchOnFound(msg);
    GroupTagFirst(msg);
    AsWrittenIgnoresGroup(msg);
  }

  /**
   * `handle_message` as intended: the group number after "g:" selects
   * whether this node's LED is written.
   */
  function HandleMessage(msg: string): (led: Option<nat>)
    ensures FindSub(msg, "t:lights;").None? ==> led.None?
    ensures led.Some? ==> led.value == MessageState(msg) && led.value <= 1
  {
    if FindSub(msg, "t:lights;").None? then None
    else
      var g := FindSub(msg, "g:");
      var group := if g.Some? then ToU16(Strtol10(msg[g.value + 2..])) else 0xFFFF;
      if group == MASTER_GROUP || group == MY_GROUP then Some(MessageState(msg)) else None
  }

  /** The intended handler writes the LED exactly for the master group and
      this node's group. */
  lemma HandleMessageFollowsGroup(msg: string)
    requires FindSub(msg, "t:lights;").Some?
    ensures var g := FindSub(msg, "g:");
      HandleMessage(msg).Some? <==>
        g.Some? && ToU16(Strtol10(msg[g.value + 2..])) in {MASTER_GROUP, MY_GROUP}
  {
  }

  /** The lights message for group 7 leaves this node's LED alone. */
  lemma OtherGroupIgnored(msg: string)
    requires msg == "g:7;t:lights;s:1;"
    ensures HandleMessage(msg).None?
  {
    LightsFound(msg);
    GroupTagFirst(msg);
    assert msg[2..] == "7;t:lights;s:1;";
    GroupSeven();
    NotMyGroup(msg, 7);
  }

  lemma NotMyGroup(msg: string, group: nat)
    requires FindSub(msg, "t:lights;").Some? && FindSub(msg, "g:").Some?
    requires Strtol10(msg[FindSub(msg, "g:").value + 2..]) == group && 1 < group < 0x1_0000
    ensures HandleMessage(msg).None?
  {
    Arith.ModSmall(group, 0x1_0000);
    assert ToU16(group) == group;
  }

  lemma LightsFound(msg: string)
    requires msg == "g:7;t:lights;s:1;"
    ensures FindSub(msg, "t:lights;").Some?
  {
    assert OccursAt(msg, "t:lights;", 4) by { assert msg[4..13] == "t:lights;"; }
    FindSubFinds(msg, "t:lights;", 4);
  }

  lemma SwitchOnFound(msg: string)
    requires msg == "g:7;t:lights;s:1;"
    ensures FindSub(msg, "s:1;").Some?
  {
    assert OccursAt(msg, "s:1;", 13) by { assert msg[13..17] == "s:1;"; }
    FindSubFinds(msg, "s:1;", 13);
  }

  lemma GroupTagFirst(msg: string)
    requires msg == "g:7;t:lights;s:1;"
    ensures FindSub(msg, "g:") == Some(0)
  {
    assert msg[..2] == "g:";
  }

  lemma GroupSeven()
    ensures Strtol10("7;t:lights;s:1;") == 7
  {
    var rest := "7;t:lights;s:1;";
    assert rest[0] == '7' && rest[1..][0] == ';';
    assert DigitsValue(rest[1..], 7) == 7;
  }

  // ---------------------------------------------------------------------
  // Channels, bootstrap state, multicast
  // ---------------------------------------------------------------------

  /** The position of the first set bit, or the length when none is set. */
  function FirstSetBit(bits: seq<nat>): (r: nat)
    ensures r <= |bits|
    ensures r < |bits| ==> bits[r] == 1
    ensures forall j :: 0 <= j < r ==> bits[j] != 1
  {
    if bits == [] then 0
    else if bits[0] == 1 then 0
    else 1 + FirstSetBit(bits[1..])
  }

  /** The first set bit of a concatenation is the first one of its first
      part, or past that part the first one of the second. */
  lemma {:induction false} FirstSetBitConcat(a: seq<nat>, b: seq<nat>)
    ensures FirstSetBit(a + b) == if FirstSetBit(a) < |a| then FirstSetBit(a) else |a| + FirstSetBit(b)
  {
    if a == [] {
      assert a + b == b;
    } else {
      assert (a + b)[1..] == a[1..] + b;
      FirstSetBitConcat(a[1..], b);
    }
  }

  /**
   * The bit loop of `get_first_fixed_channel` over one byte: it stops at
   * the first set bit and otherwise counts every clear bit, in a
   * `uint8_t`.
   */
  method ScanChannelByte(b: nat, count: nat) returns (found: bool, fixedChannelNum: nat)
    ensures var k := FirstSetBit(ByteBits(b, 8));
      found == (k < 8) && fixedChannelNum == (count + k) % 0x100
  {
    ghost var bits := ByteBits(b, 8);
    ghost var total := FirstSetBit(bits);
    fixedChannelNum := count % 0x100;
    var byteEntry := b;
    var bitLocation: nat := 0;
    assert bits[0..] == bits;
    while bitLocation < 8
      invariant ScanState(bits, total, count, bitLocation, byteEntry, fixedChannelNum)
    {
      BitStep(bits, total, count, bitLocation, byteEntry, fixedChannelNum);
      if byteEntry % 2 == 1 {
        return true, fixedChannelNum;
      }
      fixedChannelNum := (fixedChannelNum + 1) % 0x100;
      bitLocation := bitLocation + 1;
      byteEntry := byteEntry / 2;
    }
    ScanDone(bits, total, count, byteEntry, fixedChannelNum);
    return false, fixedChannelNum;
  }

  /** What the bit loop knows after `bitLocation` clear bits: the bits left
      in `byteEntry` are the rest of the byte, the byte's first set bit
      `total` is past them, and the count is in a `uint8_t`. */
  ghost predicate ScanState(bits: seq<nat>, total: nat, count: nat, bitLocation: nat, byteEntry: nat, fixedChannelNum: nat)
  {
    bitLocation <= 8 && |bits| == 8
    && ByteBits(byteEntry, 8 - bitLocation) == bits[bitLocation..]
    && total == bitLocation + FirstSetBit(bits[bitLocation..])
    && fixedChannelNum == (count + bitLocation) % 0x100
  }

  /** One pass of the bit loop: a set low bit is the byte's first set bit;
      otherwise the state holds one bit further on. */
  lemma BitStep(bits: seq<nat>, total: nat, count: nat, bitLocation: nat, byteEntry: nat, fixedChannelNum: nat)
    requires bitLocation < 8 && ScanState(bits, total, count, bitLocation, byteEntry, fixedChannelNum)
    ensures byteEntry % 2 == 1 ==> total == bitLocation
    ensures byteEntry % 2 != 1 ==>
      ScanState(bits, total, count, bitLocation + 1, byteEntry / 2, (fixedChannelNum + 1) % 0x100)
  {
    var rest := bits[bitLocation..];
    assert rest == [byteEntry % 2] + ByteBits(byteEntry / 2, 8 - (bitLocation + 1));
    assert rest[1..] == bits[bitLocation + 1..];
    if byteEntry % 2 != 1 {
      Arith.AddMod(count + bitLocation, 1, 0x100);
    }
  }

  /** The bit loop ran through all eight bits: none was set. */
  lemma ScanDone(bits: seq<nat>, total: nat, count: nat, byteEntry: nat, fixedChannelNum: nat)
    requires ScanState(bits, total, count, 8, byteEntry, fixedChannelNum)
    ensures total == 8 && fixedChannelNum == (count + 8) % 0x100
  {
    assert bits[8..] == [];
  }

  /** One byte of the bitmap scan: the lowest set bit from byte `idx` on
      is in that byte when it has one, and otherwise 8 bits further on. */
  lemma FixedChannelStep(channelList: seq<nat>, idx: nat)
    requires idx < |channelList|
    ensures var k := FirstSetBit(ByteBits(channelList[idx], 8));
      FirstSetBit(Bits(channelList[idx..])) == (if k < 8 then k else 8 + FirstSetBit(Bits(channelList[idx + 1..])))
  {
    assert channelList[idx..][1..] == channelList[idx + 1..];
    assert Bits(channelList[idx..]) == ByteBits(channelList[idx], 8) + Bits(channelList[idx + 1..]);
    FirstSetBitConcat(ByteBits(channelList[idx], 8), Bits(channelList[idx + 1..]));
  }

  /**
   * `get_first_fixed_channel`: the index of the lowest set bit of the
   * channel bitmap (byte 0 first, least significant bit first), or 8 per
   * byte when none is set, counted in a `uint8_t` and so taken mod 256.
   */
  method GetFirstFixedChannel(channelList: seq<nat>) returns (fixedChannelNum: nat)
    ensures fixedChannelNum == FirstSetBit(Bits(channelList)) % 0x100
  {
    ghost var total := FirstSetBit(Bits(channelList));
    fixedChannelNum := 0;
    var idx := 0;
    assert channelList[0..] == channelList;
    while idx < |channelList|
      invariant FixedScanState(channelList, total, idx, fixedChannelNum)
    {
      var found, next := ScanChannelByte(channelList[idx], fixedChannelNum);
      ByteStep(channelList, total, idx, fixedChannelNum, found, next);
      fixedChannelNum := next;
      if found {
        return;
      }
      idx := idx + 1;
    }
    assert channelList[idx..] == [];
  }

  /** What the byte loop knows after `idx` empty bytes, `total` being the
      first set bit of the whole bitmap. */
  ghost predicate FixedScanState(channelList: seq<nat>, total: nat, idx: nat, fixedChannelNum: nat)
  {
    idx <= |channelList| && fixedChannelNum == (8 * idx) % 0x100
    && total == 8 * idx + FirstSetBit(Bits(channelList[idx..]))
  }

  /** One pass of the byte loop, given what the bit loop returned. */
  lemma ByteStep(channelList: seq<nat>, total: nat, idx: nat, fixedChannelNum: nat, found: bool, next: nat)
    requires idx < |channelList| && FixedScanState(channelList, total, idx, fixedChannelNum)
    requires found == (FirstSetBit(ByteBits(channelList[idx], 8)) < 8)
    requires next == (fixedChannelNum + FirstSetBit(ByteBits(channelList[idx], 8))) % 0x100
    ensures found ==> next == total % 0x100
    ensures !found ==> FixedScanState(channelList, total, idx + 1, next)
  {
    FixedChannelStep(channelList, idx);
    ByteCount(idx, fixedChannelNum, FirstSetBit(ByteBits(channelList[idx], 8)), next,
              total, FirstSetBit(Bits(channelList[idx..])), FirstSetBit(Bits(channelList[idx + 1..])));
  }

  /** The counting behind one pass of the byte loop: `k` is the byte's
      first set bit (8 for none), `here` and `after` the first set bits
      from this byte and from the next one on. */
  lemma ByteCount(idx: nat, fixedChannelNum: nat, k: nat, next: nat, total: nat, here: nat, after: nat)
    requires fixedChannelNum == (8 * idx) % 0x100 && next == (fixedChannelNum + k) % 0x100 && k <= 8
    requires here == (if k < 8 then k else 8 + after) && total == 8 * idx + here
    ensures k < 8 ==> next == total % 0x100
    ensures k >= 8 ==> next == (8 * (idx + 1)) % 0x100 && total == 8 * (idx + 1) + after
  {
    Arith.AddMod(8 * idx, k, 0x100);
  }


  lemma {:induction false} FirstSetBitAt(bits: seq<nat>, p: nat)
    requires p < |bits| && bits[p] == 1 && forall j :: 0 <= j < p ==> bits[j] != 1
    ensures FirstSetBit(bits) == p
  {
    if p > 0 {
      FirstSetBitAt(bits[1..], p - 1);
    }
  }

  lemma {:induction false} FirstSetBitNone(bits: seq<nat>)
    requires forall j :: 0 <= j < |bits| ==> bits[j] != 1
    ensures FirstSetBit(bits) == |bits|
  {
    if bits != [] {
      FirstSetBitNone(bits[1..]);
    }
  }

  /** `nwk_bootstrap_state`: the six states the application reports and
      any other. */
  datatype BootstrapState = ErIdle | ErActiveScan | ErPanaAuth | ErScan | ErRplScan | ErBootstrapDone | ErOther(code: nat)

  /** `get_current_net_state`: the six states in order as 0..5, anything
      else as 0. */
  function CurrentNetState(s: BootstrapState): (n: nat)
    ensures n <= 5
    ensures s.ErOther? ==> n == 0
  {
    match s
    case ErIdle => 0
    case ErActiveScan => 1
    case ErPanaAuth => 2
    case ErScan => 3
    case ErRplScan => 4
    case ErBootstrapDone => 5
    case ErOther(_) => 0
  }

  /** The bootstrap state a reported number stands for. */
  function StateOfNumber(n: nat): (s: BootstrapState)
    requires n <= 5
  {
    [ErIdle, ErActiveScan, ErPanaAuth, ErScan, ErRplScan, ErBootstrapDone][n]
  }

  /** The six states are reported distinctly: the number leads back to the
      state, so only IDLE and unknown states share 0. */
  lemma NetStateRoundTrip(s: BootstrapState, n: nat)
    ensures !s.ErOther? ==> StateOfNumber(CurrentNetState(s)) == s
    ensures n <= 5 ==> CurrentNetState(StateOfNumber(n)) == n
  {
  }

  const IPV6_SCOPE_REALM_LOCAL: nat := 3

  /** An IPv6 multicast address starts with 0xFF (section 2.7 of RFC
      4291). */
  predicate IsIpv6Multicast(address: seq<nat>)
    requires |address| == 16
  {
    address[0] == 0xFF
  }

  /** The scope of a multicast address: the low four bits of byte 1. */
  function MulticastScope(address: seq<nat>): (scope: nat)
    requires |address| == 16
    ensures scope < 16
  {
    address[1] % 16
  }

  /** Whether the add and remove calls accept an address: a multicast one
      of wider than realm-local scope. */
  predicate GroupAllowed(address: seq<nat>)
    requires |address| == 16
  {
    IsIpv6Multicast(address) && MulticastScope(address) > IPV6_SCOPE_REALM_LOCAL
  }

  /** `add_multicast_addr`: -1 for an address that is not allowed or when
      the stack cannot add the group, 0 otherwise. */
  function AddMulticastAddr(address: seq<nat>, addGroupOk: bool): (r: int)
    requires |address| == 16
    ensures r == 0 <==> GroupAllowed(address) && addGroupOk
    ensures r == 0 || r == -1
  {
    if !IsIpv6Multicast(address) || MulticastScope(address) <= IPV6_SCOPE_REALM_LOCAL then -1
    else if !addGroupOk then -1
    else 0
  }

  /** `remove_multicast_addr`: -1 for an address that is not allowed, 0
      otherwise. */
  function RemoveMulticastAddr(address: seq<nat>): (r: int)
    requires |address| == 16
    ensures r == 0 <==> GroupAllowed(address)
    ensures r == 0 || r == -1
  {
    if !IsIpv6Multicast(address) || MulticastScope(address) <= IPV6_SCOPE_REALM_LOCAL then -1
    else 0
  }

  /** A link-local all-nodes address (ff02::1) is refused by both. */
  lemma LinkLocalGroupRefused(address: seq<nat>, ok: bool)
    requires |address| == 16 && address[0] == 0xFF && address[1] == 0x02
    ensures AddMulticastAddr(address, ok) == -1 && RemoveMulticastAddr(address) == -1
  {
  }
}
