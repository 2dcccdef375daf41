/**
 * Walking the Information Elements of a received IEEE 802.15.4 frame
 * (wisunfan_mac/high_level/mac_ie_parse.c). The frame is a sequence of
 * bytes; a C pointer into it is an offset, `NULL` is `None`, and the
 * linked lists the parser allocates are sequences of nodes in list order.
 *
 * The descriptor layouts follow section 7.4 of IEEE 802.15.4-2015; each
 * descriptor is two bytes, read as a little-endian 16-bit word:
 *   Header IE:        length bits 0-6, element ID bits 7-14, type bit 15 = 0
 *   Payload IE:       length bits 0-10, group ID bits 11-14, type bit 15 = 1
 *   short sub-IE:     length bits 0-7, sub-ID bits 8-14, type bit 15 = 0
 *   long sub-IE:      length bits 0-10, sub-ID bits 11-14, type bit 15 = 1
 */
module MacIeParse {
  import opened Wrappers

  const IE_HEADER_LEN: nat := 2
  const SUB_IE_HEADER_LEN: nat := 2
  const HEADER_IE_TYPE_VAL: nat := 0
  const PAYLOAD_IE_TYPE_VAL: nat := 1
  /** Header termination IE 1 (payload IEs follow) and 2 (none follow). */
  const HEADER_IE_TERM_WITH_PAYIE: nat := 0x7E
  const HEADER_IE_TERM_NO_PAYIE: nat := 0x7F
  const PAYLOAD_IE_TERM_GID: nat := 0xF
  const PAYLOAD_IE_MLME_GID: nat := 0x1

  datatype Status = Success | NoData | NoResources

  /** The byte at offset `i`; bytes past the received frame read as 0. */
  function Byte(buf: seq<nat>, i: nat): nat
  {
    if i < |buf| then buf[i] else 0
  }

  predicate IsFrame(buf: seq<nat>)
  {
    forall i :: 0 <= i < |buf| ==> buf[i] < 0x100
  }

  function HeaderIeType(buf: seq<nat>, p: nat): nat { Byte(buf, p + 1) / 128 }
  function HeaderIeContentLen(buf: seq<nat>, p: nat): nat { Byte(buf, p) % 128 }
  function HeaderIeElementId(buf: seq<nat>, p: nat): nat { Byte(buf, p) / 128 + (Byte(buf, p + 1) % 128) * 2 }

  function PayloadIeType(buf: seq<nat>, p: nat): nat { Byte(buf, p + 1) / 128 }
  function PayloadIeContentLen(buf: seq<nat>, p: nat): nat { Byte(buf, p) + (Byte(buf, p + 1) % 8) * 256 }
  function PayloadIeGroupId(buf: seq<nat>, p: nat): nat { (Byte(buf, p + 1) / 8) % 16 }

  function ShortSubIeLen(buf: seq<nat>, p: nat): nat { Byte(buf, p) }
  function ShortSubIeId(buf: seq<nat>, p: nat): nat { Byte(buf, p + 1) % 128 }
  function LongSubIeLen(buf: seq<nat>, p: nat): nat { PayloadIeContentLen(buf, p) }

  /** `macHeaderIeInfo_t`. */
  datatype HeaderIeInfo = HeaderIeInfo(ieType: nat, ieContentLen: nat, ieElementId: nat, ieContentPtr: nat)

  /** `macPayloadIeInfo_t`. */
  datatype PayloadIeInfo = PayloadIeInfo(ieType: nat, ieContentLen: nat, ieGroupId: nat, ieContentPtr: Option<nat>)

  /** The node the parser fills in for the header IE at `p`. */
  function HeaderInfoAt(buf: seq<nat>, p: nat): HeaderIeInfo
  {
    HeaderIeInfo(HeaderIeType(buf, p), HeaderIeContentLen(buf, p), HeaderIeElementId(buf, p), p + IE_HEADER_LEN)
  }

  /** The node the parser fills in for the payload IE at `p`: no content
      pointer for empty content. */
  function PayloadInfoAt(buf: seq<nat>, p: nat): (n: PayloadIeInfo)
    ensures n.ieContentPtr.None? <==> n.ieContentLen == 0
  {
    var len := PayloadIeContentLen(buf, p);
    PayloadIeInfo(PayloadIeType(buf, p), len, PayloadIeGroupId(buf, p),
                  if len != 0 then Some(p + IE_HEADER_LEN) else None)
  }

  /** How a header IE walk ended. */
  datatype Term = NoTerm | TermWithPayload | TermNoPayload

  /** The IEs a walk passed (terminations excluded), the total length it
      counted and how it ended. */
  datatype Scan<T> = Scan(nodes: seq<T>, len: nat, term: Term)

  function Prepend<T>(prefix: seq<T>, s: Scan<T>): Scan<T>
  {
    Scan(prefix + s.nodes, s.len, s.term)
  }

  /**
   * The do/while walk over header IEs starting at `p` with `len` bytes
   * already counted: a termination IE adds its two bytes and stops; any
   * other IE is recorded and skipped, and the walk goes on while the count
   * stays below `limit`.
   */
  function HeaderScan(buf: seq<nat>, p: nat, len: nat, limit: nat): (s: Scan<HeaderIeInfo>)
    ensures s.len > len
    decreases limit - len
  {
    var id := HeaderIeElementId(buf, p);
    if id == HEADER_IE_TERM_WITH_PAYIE then Scan([], len + IE_HEADER_LEN, TermWithPayload)
    else if id == HEADER_IE_TERM_NO_PAYIE then Scan([], len + IE_HEADER_LEN, TermNoPayload)
    else
      var step := IE_HEADER_LEN + HeaderIeContentLen(buf, p);
      if len + step < limit then Prepend([HeaderInfoAt(buf, p)], HeaderScan(buf, p + step, len + step, limit))
      else Scan([HeaderInfoAt(buf, p)], len + step, NoTerm)
  }

  /** Each node describes the header IE just before its content pointer. */
  predicate DescribeFrame(buf: seq<nat>, ns: seq<HeaderIeInfo>)
  {
    forall i :: 0 <= i < |ns| ==>
      ns[i].ieContentPtr >= IE_HEADER_LEN && ns[i] == HeaderInfoAt(buf, ns[i].ieContentPtr - IE_HEADER_LEN)
  }

  /** Each node's IE starts where the previous one's content ends. */
  predicate BackToBack(ns: seq<HeaderIeInfo>)
  {
    forall i :: 0 <= i < |ns| - 1 ==> ns[i + 1].ieContentPtr == ns[i].ieContentPtr + ns[i].ieContentLen + IE_HEADER_LEN
  }

  /** Putting the IE at `p` in front of the nodes that follow it. */
  lemma ConsContiguous(buf: seq<nat>, p: nat, rest: seq<HeaderIeInfo>)
    requires DescribeFrame(buf, rest) && BackToBack(rest)
    requires |rest| > 0 ==> rest[0].ieContentPtr == p + IE_HEADER_LEN + HeaderIeContentLen(buf, p) + IE_HEADER_LEN
    ensures DescribeFrame(buf, [HeaderInfoAt(buf, p)] + rest) && BackToBack([HeaderInfoAt(buf, p)] + rest)
  {
    var ns := [HeaderInfoAt(buf, p)] + rest;
    forall i | 0 <= i < |ns|
      ensures ns[i].ieContentPtr >= IE_HEADER_LEN && ns[i] == HeaderInfoAt(buf, ns[i].ieContentPtr - IE_HEADER_LEN)
    {
      if i > 0 { assert ns[i] == rest[i - 1]; }
    }
    forall i | 0 <= i < |ns| - 1
      ensures ns[i + 1].ieContentPtr == ns[i].ieContentPtr + ns[i].ieContentLen + IE_HEADER_LEN
    {
      if i > 0 { assert ns[i] == rest[i - 1] && ns[i + 1] == rest[i]; }
    }
  }

  /** The header IEs a walk records sit back to back from `p` on, each node
      describing the IE just before its content pointer. */
  lemma {:induction false} HeaderScanContiguous(buf: seq<nat>, p: nat, len: nat, limit: nat)
    ensures var ns := HeaderScan(buf, p, len, limit).nodes;
      (|ns| > 0 ==> ns[0].ieContentPtr == p + IE_HEADER_LEN) && DescribeFrame(buf, ns) && BackToBack(ns)
    decreases limit - len
  {
    var id := HeaderIeElementId(buf, p);
    if id != HEADER_IE_TERM_WITH_PAYIE && id != HEADER_IE_TERM_NO_PAYIE {
      var step := IE_HEADER_LEN + HeaderIeContentLen(buf, p);
      var next := HeaderScanStep(buf, p, len, limit);
      if len + step < limit {
        HeaderScanContiguous(buf, p + step, len + step, limit);
      }
      ConsContiguous(buf, p, next.nodes);
    }
  }

  /** The length a header walk counts is what it started with plus the
      recorded IEs and, when it found one, the termination IE. */
  lemma {:induction false} HeaderScanLength(buf: seq<nat>, p: nat, len: nat, limit: nat)
    ensures var s := HeaderScan(buf, p, len, limit);
      s.len == len + TotalSize(s.nodes) + (if s.term == NoTerm then 0 else IE_HEADER_LEN)
    decreases limit - len
  {
    var id := HeaderIeElementId(buf, p);
    if id != HEADER_IE_TERM_WITH_PAYIE && id != HEADER_IE_TERM_NO_PAYIE {
      var step := IE_HEADER_LEN + HeaderIeContentLen(buf, p);
      if len + step < limit {
        HeaderScanLength(buf, p + step, len + step, limit);
        var rest := HeaderScan(buf, p + step, len + step, limit).nodes;
        assert HeaderScan(buf, p, len, limit).nodes == [HeaderInfoAt(buf, p)] + rest;
        assert ([HeaderInfoAt(buf, p)] + rest)[1..] == rest;
      } else {
        assert [HeaderInfoAt(buf, p)][1..] == [];
      }
    }
  }

  /** The bytes a list of header IEs occupies. */
  function TotalSize(ns: seq<HeaderIeInfo>): nat
  {
    if ns == [] then 0 else IE_HEADER_LEN + ns[0].ieContentLen + TotalSize(ns[1..])
  }

  /** The bytes a payload walk skips for the IE at `p`: its descriptor
      and its content length, truncated to `uint8` with `byteLen`. */
  function PayloadStep(buf: seq<nat>, p: nat, byteLen: bool): (step: nat)
    ensures step >= IE_HEADER_LEN
  {
    var content := PayloadIeContentLen(buf, p);
    IE_HEADER_LEN + (if byteLen then content % 0x100 else content)
  }

  /**
   * The payload IE walk: a termination group ID adds two bytes and stops;
   * any other IE is recorded and skipped while the count stays below
   * `limit`. With `byteLen` the content length is first truncated to
   * `uint8`, as in the walk that locates the payload IEs.
   */
  function PayloadScan(buf: seq<nat>, p: nat, len: nat, limit: nat, byteLen: bool): (s: Scan<PayloadIeInfo>)
    ensures s.len > len
    decreases limit - len
  {
    if PayloadIeGroupId(buf, p) == PAYLOAD_IE_TERM_GID then Scan([], len + IE_HEADER_LEN, TermNoPayload)
    else
      var step := PayloadStep(buf, p, byteLen);
      if len + step < limit then Prepend([PayloadInfoAt(buf, p)], PayloadScan(buf, p + step, len + step, limit, byteLen))
      else Scan([PayloadInfoAt(buf, p)], len + step, NoTerm)
  }

  /** Every payload node has a content pointer exactly when its content
      is not empty, and then it points just past its descriptor. */
  lemma {:induction false} PayloadScanContentPtr(buf: seq<nat>, p: nat, len: nat, limit: nat)
    ensures var ns := PayloadScan(buf, p, len, limit, false).nodes;
      forall i :: 0 <= i < |ns| ==> (ns[i].ieContentPtr.None? <==> ns[i].ieContentLen == 0)
    ensures var ns := PayloadScan(buf, p, len, limit, false).nodes;
      |ns| > 0 && ns[0].ieContentLen != 0 ==> ns[0].ieContentPtr == Some(p + IE_HEADER_LEN)
    decreases limit - len
  {
    if PayloadIeGroupId(buf, p) != PAYLOAD_IE_TERM_GID {
      var step := IE_HEADER_LEN + PayloadIeContentLen(buf, p);
      if len + step < limit {
        PayloadScanContentPtr(buf, p + step, len + step, limit);
        var rest := PayloadScan(buf, p + step, len + step, limit, false).nodes;
        var ns := PayloadScan(buf, p, len, limit, false).nodes;
        assert ns == [PayloadInfoAt(buf, p)] + rest;
        forall i | 0 <= i < |ns|
          ensures ns[i].ieContentPtr.None? <==> ns[i].ieContentLen == 0
        {
          if i > 0 {
            assert ns[i] == rest[i - 1];
          }
        }
      }
    }
  }

  // ---------------------------------------------------------------------
  // Sub-IE search in MLME payload IEs
  // ---------------------------------------------------------------------

  /** The size of the sub-IE at `p`, descriptor included. */
  function SubIeSize(buf: seq<nat>, p: nat): nat
  {
    SUB_IE_HEADER_LEN + (if PayloadIeType(buf, p) == 1 then LongSubIeLen(buf, p) else ShortSubIeLen(buf, p))
  }

  /** Whether the sub-IE at `p` is a short one with the given sub-ID. */
  predicate IsShortSubIe(buf: seq<nat>, p: nat, id: nat)
  {
    PayloadIeType(buf, p) == 0 && ShortSubIeId(buf, p) == id
  }

  /** The offset of the first short sub-IE with the given sub-ID among the
      sub-IEs from `p` on, `remaining` bytes of MLME content being left. */
  function FindSubIe(buf: seq<nat>, p: nat, remaining: int, id: nat): (r: Option<nat>)
    ensures r.Some? ==> IsShortSubIe(buf, r.value, id) && p <= r.value
    decreases remaining
  {
    if remaining <= 0 then None
    else if IsShortSubIe(buf, p, id) then Some(p)
    else FindSubIe(buf, p + SubIeSize(buf, p), remaining - SubIeSize(buf, p), id)
  }

  /** The outcome of a sub-IE search: whether it was found, and the
      pointer to its content (`NULL` for empty content). */
  datatype SubIeResult = SubIeResult(present: bool, content: Option<nat>)

  /** The search over a payload IE list: the first MLME IE holding the
      sub-IE decides. */
  function FindInList(buf: seq<nat>, ies: seq<PayloadIeInfo>, id: nat): (r: SubIeResult)
    ensures !r.present ==> r.content.None?
    ensures r.content.Some? ==> r.content.value >= SUB_IE_HEADER_LEN
                                && ShortSubIeLen(buf, r.content.value - SUB_IE_HEADER_LEN) != 0
  {
    if ies == [] then SubIeResult(false, None)
    else
      var found :=
        if ies[0].ieType == PAYLOAD_IE_MLME_GID && ies[0].ieContentPtr.Some?
        then FindSubIe(buf, ies[0].ieContentPtr.value, ies[0].ieContentLen, id) else None;
      if found.Some? then
        SubIeResult(true, if ShortSubIeLen(buf, found.value) != 0 then Some(found.value + SUB_IE_HEADER_LEN) else None)
      else FindInList(buf, ies[1..], id)
  }

  /**
   * The search `macMlmeSubIePresent` performs as written: the sub-IE
   * pointer is never advanced, so inside each MLME IE only the first
   * sub-IE is ever examined (and a non-matching one is re-read until the
   * 16-bit remaining length happens to reach zero).
   */
  predicate FirstSubIeMatchesAsWritten(buf: seq<nat>, ie: PayloadIeInfo, id: nat)
  {
    ie.ieType == PAYLOAD_IE_MLME_GID && ie.ieContentLen > 0 && ie.ieContentPtr.Some?
    && IsShortSubIe(buf, ie.ieContentPtr.value, id)
  }

  /** The remaining length the loop as written steps through for a
      non-matching first sub-IE of `size` bytes, after `t` steps. */
  function RemainingAfter(mlmeIeLen: nat, size: nat, t: nat): nat
  {
    (mlmeIeLen - t * size) % 0x10000
  }

  /**
   * An MLME IE of three content bytes whose first sub-IE is a short,
   * empty sub-IE with ID 0x10 and whose second is the requested ID 0x11:
   * as written the search only ever looks at the first sub-IE (and its
   * 16-bit remaining length stays odd, so the loop never ends), while the
   * corrected walk finds the second.
   */
  lemma SecondSubIeMissedAsWritten()
    ensures var buf := [0x00, 0x10, 0x00, 0x11];
            var ie := PayloadIeInfo(PAYLOAD_IE_MLME_GID, 3, PAYLOAD_IE_MLME_GID, Some(0));
            !FirstSubIeMatchesAsWritten(buf, ie, 0x11)
            && (forall t: nat :: RemainingAfter(3, 2, t) != 0)
            && FindInList(buf, [ie], 0x11) == SubIeResult(true, None)
  {
    var buf := [0x00, 0x10, 0x00, 0x11];
    forall t: nat ensures RemainingAfter(3, 2, t) != 0 {
      assert (3 - t * 2) % 0x10000 % 2 == 1;
    }
    assert FindSubIe(buf, 0, 3, 0x11) == FindSubIe(buf, 2, 1, 0x11);
  }

  // ---------------------------------------------------------------------
  // The IE walks as loops over the frame
  // ---------------------------------------------------------------------

  /** Recording one more node before the rest of a walk. */
  lemma PrependOne<T>(done: seq<T>, node: T, rest: Scan<T>)
    ensures Prepend(done, Prepend([node], rest)) == Prepend(done + [node], rest)
  {
    assert done + ([node] + rest.nodes) == done + [node] + rest.nodes;
  }

  /** A walk that stops while nodes are still to come has built a proper
      prefix of the whole list. */
  lemma PrependPrefix<T>(done: seq<T>, rest: Scan<T>)
    requires |rest.nodes| > 0
    ensures var whole := Prepend(done, rest).nodes;
      |whole| > |done| && whole[..|done|] == done
  {
    assert (done + rest.nodes)[..|done|] == done;
  }

  /** One step of a header walk over an IE that is not a termination:
      the node at `p`, then the rest of the walk. */
  lemma HeaderScanStep(buf: seq<nat>, p: nat, len: nat, limit: nat) returns (next: Scan<HeaderIeInfo>)
    requires HeaderIeElementId(buf, p) != HEADER_IE_TERM_WITH_PAYIE
    requires HeaderIeElementId(buf, p) != HEADER_IE_TERM_NO_PAYIE
    ensures var step := IE_HEADER_LEN + HeaderIeContentLen(buf, p);
      HeaderScan(buf, p, len, limit) == Prepend([HeaderInfoAt(buf, p)], next)
      && (len + step < limit ==> next == HeaderScan(buf, p + step, len + step, limit))
      && (len + step >= limit ==> next == Scan([], len + step, NoTerm))
  {
    var step := IE_HEADER_LEN + HeaderIeContentLen(buf, p);
    next := if len + step < limit then HeaderScan(buf, p + step, len + step, limit) else Scan([], len + step, NoTerm);
  }

  /** One step of a payload walk over an IE that is not a termination. */
  lemma PayloadScanStep(buf: seq<nat>, p: nat, len: nat, limit: nat, byteLen: bool) returns (next: Scan<PayloadIeInfo>)
    requires PayloadIeGroupId(buf, p) != PAYLOAD_IE_TERM_GID
    ensures var step := PayloadStep(buf, p, byteLen);
      PayloadScan(buf, p, len, limit, byteLen) == Prepend([PayloadInfoAt(buf, p)], next)
      && (len + step < limit ==> next == PayloadScan(buf, p + step, len + step, limit, byteLen))
      && (len + step >= limit ==> next == Scan([], len + step, NoTerm))
  {
    var step := PayloadStep(buf, p, byteLen);
    next := if len + step < limit then PayloadScan(buf, p + step, len + step, limit, byteLen) else Scan([], len + step, NoTerm);
  }

  /** The header IE loop of `macUpdateHeaderIEPtr`: the length it counts
      and whether (and which) termination IE stopped it. */
  method WalkHeaderIes(buf: seq<nat>, p0: nat, limit: nat) returns (ieLen: nat, term: Term)
    ensures ieLen == HeaderScan(buf, p0, 0, limit).len && term == HeaderScan(buf, p0, 0, limit).term
  {
    ghost var whole := HeaderScan(buf, p0, 0, limit);
    var ptr: nat := p0;
    ieLen := 0;
    term := NoTerm;
    ghost var skipped: seq<HeaderIeInfo> := [];
    ghost var rest := whole;
    var done := false;
    while !done
      invariant whole == Prepend(skipped, rest)
      invariant !done ==> ieLen <= limit && term == NoTerm && rest == HeaderScan(buf, ptr, ieLen, limit)
      invariant done ==> rest == Scan([], ieLen, term)
      decreases if done then 0 else limit + 2 - ieLen
    {
      var id := HeaderIeElementId(buf, ptr);
      if id == HEADER_IE_TERM_WITH_PAYIE {
        ieLen, term, done := ieLen + IE_HEADER_LEN, TermWithPayload, true;
      } else if id == HEADER_IE_TERM_NO_PAYIE {
        ieLen, term, done := ieLen + IE_HEADER_LEN, TermNoPayload, true;
      } else {
        var step := IE_HEADER_LEN + HeaderIeContentLen(buf, ptr);
        ghost var next := HeaderScanStep(buf, ptr, ieLen, limit);
        PrependOne(skipped, HeaderInfoAt(buf, ptr), next);
        skipped, rest := skipped + [HeaderInfoAt(buf, ptr)], next;
        ieLen := ieLen + step;
        ptr := ptr + step;
        done := ieLen >= limit;
      }
    }
  }

  /** The payload IE loop of `macUpdatePayloadIEPtr`, which keeps each
      content length in a `uint8`: the length it counts. */
  method WalkPayloadIes(buf: seq<nat>, p0: nat, limit: nat) returns (ieLen: nat)
    ensures ieLen == PayloadScan(buf, p0, 0, limit, true).len
  {
    ghost var whole := PayloadScan(buf, p0, 0, limit, true);
    var ptr: nat := p0;
    ieLen := 0;
    ghost var skipped: seq<PayloadIeInfo> := [];
    ghost var rest := whole;
    var done := false;
    while !done
      invariant whole == Prepend(skipped, rest)
      invariant !done ==> ieLen <= limit && rest == PayloadScan(buf, ptr, ieLen, limit, true)
      invariant done ==> rest.len == ieLen
      decreases if done then 0 else limit + 2 - ieLen
    {
      if PayloadIeGroupId(buf, ptr) == PAYLOAD_IE_TERM_GID {
        ieLen, done := ieLen + IE_HEADER_LEN, true;
      } else {
        var ieContentLen := PayloadIeContentLen(buf, ptr) % 0x100;
        var step := IE_HEADER_LEN + ieContentLen;
        ghost var next := PayloadScanStep(buf, ptr, ieLen, limit, true);
        PrependOne(skipped, PayloadInfoAt(buf, ptr), next);
        skipped, rest := skipped + [PayloadInfoAt(buf, ptr)], next;
        ieLen := ieLen + step;
        ptr := ptr + step;
        done := ieLen >= limit;
      }
    }
  }

  /**
   * The list-building loop of `macParseHeaderIes`. The allocator succeeds
   * `allocations` times and then fails: the walk then stops with the
   * nodes built so far, and the count it reached.
   */
  method CollectHeaderIes(buf: seq<nat>, p0: nat, limit: nat, allocations: nat)
    returns (nodes: seq<HeaderIeInfo>, len: nat, term: Term, status: Status)
    ensures var s := HeaderScan(buf, p0, 0, limit);
      (|s.nodes| <= allocations ==> status == Success && nodes == s.nodes && len == s.len && term == s.term)
      && (|s.nodes| > allocations ==>
            status == NoResources && nodes == s.nodes[..allocations] && term == NoTerm
            && (allocations == 0 ==> len == 0))
  {
    ghost var whole := HeaderScan(buf, p0, 0, limit);
    var ptr: nat := p0;
    nodes, len, term, status := [], 0, NoTerm, Success;
    ghost var rest := whole;
    var done := false;
    while !done
      invariant |nodes| <= allocations && whole == Prepend(nodes, rest)
      invariant status == Success || status == NoResources
      invariant !done ==> len <= limit && term == NoTerm && status == Success && (nodes == [] ==> len == 0)
      invariant !done ==> rest == HeaderScan(buf, ptr, len, limit)
      invariant done && status == Success ==> rest == Scan([], len, term)
      invariant done && status == NoResources ==>
        |nodes| == allocations && |rest.nodes| > 0 && term == NoTerm && (nodes == [] ==> len == 0)
      decreases if done then 0 else limit + 2 - len
    {
      var id := HeaderIeElementId(buf, ptr);
      if id == HEADER_IE_TERM_WITH_PAYIE {
        len, term, done := len + IE_HEADER_LEN, TermWithPayload, true;
      } else if id == HEADER_IE_TERM_NO_PAYIE {
        len, term, done := len + IE_HEADER_LEN, TermNoPayload, true;
      } else {
        var node := HeaderInfoAt(buf, ptr);
        var step := IE_HEADER_LEN + node.ieContentLen;
        ghost var next := HeaderScanStep(buf, ptr, len, limit);
        if |nodes| == allocations {
          rest := Prepend([node], next);
          status, done := NoResources, true;
        } else {
          PrependOne(nodes, node, next);
          nodes, rest := nodes + [node], next;
          len := len + step;
          ptr := ptr + step;
          done := len >= limit;
        }
      }
    }
    if status == NoResources {
      PrependPrefix(nodes, rest);
    }
  }

  /** The list-building loop of `macParsePayloadIes`, with the same
      allocation model. */
  method CollectPayloadIes(buf: seq<nat>, p0: nat, limit: nat, allocations: nat)
    returns (nodes: seq<PayloadIeInfo>, status: Status)
    ensures var s := PayloadScan(buf, p0, 0, limit, false);
      (|s.nodes| <= allocations ==> status == Success && nodes == s.nodes)
      && (|s.nodes| > allocations ==> status == NoResources && nodes == s.nodes[..allocations])
  {
    ghost var whole := PayloadScan(buf, p0, 0, limit, false);
    var ptr: nat := p0;
    var len: nat := 0;
    nodes, status := [], Success;
    ghost var rest := whole;
    var done := false;
    while !done
      invariant |nodes| <= allocations && whole == Prepend(nodes, rest)
      invariant status == Success || status == NoResources
      invariant !done ==> len <= limit && status == Success && rest == PayloadScan(buf, ptr, len, limit, false)
      invariant done && status == Success ==> rest.nodes == []
      invariant done && status == NoResources ==> |nodes| == allocations && |rest.nodes| > 0
      decreases if done then 0 else limit + 2 - len
    {
      if PayloadIeGroupId(buf, ptr) == PAYLOAD_IE_TERM_GID {
        len, done := len + IE_HEADER_LEN, true;
      } else {
        var node := PayloadInfoAt(buf, ptr);
        var step := IE_HEADER_LEN + node.ieContentLen;
        ghost var next := PayloadScanStep(buf, ptr, len, limit, false);
        if |nodes| == allocations {
          rest := Prepend([node], next);
          status, done := NoResources, true;
        } else {
          PrependOne(nodes, node, next);
          nodes, rest := nodes + [node], next;
          len := len + step;
          ptr := ptr + step;
          done := len >= limit;
        }
      }
    }
    if status == NoResources {
      PrependPrefix(nodes, rest);
    }
  }

  // ---------------------------------------------------------------------
  // The received frame (`macRx_t`) and the operations on it
  // ---------------------------------------------------------------------

  class RxFrame {
    /** The received bytes; the walks only read them. */
    var buf: seq<nat>
    /** The IE-present bit of the frame control field. */
    var fcfIePresent: bool
    var msduP: nat
    var msduLen: nat
    var pHdrIes: Option<nat>
    var payloadIePresent: nat
    var headerIeLen: nat
    var pPayloadIE: Option<nat>
    var payloadIeLen: nat
    var headerIes: seq<HeaderIeInfo>
    var payloadIes: seq<PayloadIeInfo>

    constructor (frame: seq<nat>, iePresent: bool, p: nat, len: nat)
      ensures buf == frame && fcfIePresent == iePresent && msduP == p && msduLen == len
      ensures pHdrIes.None? && pPayloadIE.None? && headerIes == [] && payloadIes == []
      ensures payloadIePresent == 0 && headerIeLen == 0 && payloadIeLen == 0
    {
      buf, fcfIePresent, msduP, msduLen := frame, iePresent, p, len;
      pHdrIes, pPayloadIE, headerIes, payloadIes := None, None, [], [];
      payloadIePresent, headerIeLen, payloadIeLen := 0, 0, 0;
    }

    /**
     * `macUpdateHeaderIEPtr`: when the frame carries IEs and the MSDU
     * starts with a header IE, walk them; a termination IE within the
     * MSDU makes the header IEs part of the header, otherwise the header
     * IE length is zero and the MSDU is left alone.
     */
    method UpdateHeaderIePtr()
      modifies this`pHdrIes, this`payloadIePresent, this`headerIeLen, this`msduP, this`msduLen
      ensures !old(fcfIePresent) || HeaderIeType(buf, old(msduP)) != HEADER_IE_TYPE_VAL ==>
        unchanged(this`pHdrIes, this`payloadIePresent, this`headerIeLen, this`msduP, this`msduLen)
      ensures old(fcfIePresent) && HeaderIeType(buf, old(msduP)) == HEADER_IE_TYPE_VAL ==>
        var s := HeaderScan(buf, old(msduP), 0, old(msduLen));
        pHdrIes == Some(old(msduP))
        && payloadIePresent == (if s.term == TermWithPayload then 1
                                else if s.term == TermNoPayload then 0 else old(payloadIePresent))
        && (s.term != NoTerm && s.len <= old(msduLen) ==>
              headerIeLen == s.len && msduP == old(msduP) + s.len && msduLen == old(msduLen) - s.len)
        && (!(s.term != NoTerm && s.len <= old(msduLen)) ==>
              headerIeLen == 0 && msduP == old(msduP) && msduLen == old(msduLen))
    {
      if !fcfIePresent || HeaderIeType(buf, msduP) != HEADER_IE_TYPE_VAL {
        return;
      }
      pHdrIes := Some(msduP);
      var ieLen, term := WalkHeaderIes(buf, msduP, msduLen);
      if term == TermWithPayload {
        payloadIePresent := 1;
      } else if term == TermNoPayload {
        payloadIePresent := 0;
      }
      if term != NoTerm && ieLen <= msduLen {
        headerIeLen := ieLen;
        msduP := msduP + ieLen;
        msduLen := msduLen - ieLen;
      } else {
        headerIeLen := 0;
      }
    }

    /**
     * `macUpdatePayloadIEPtr`: when the MSDU starts with a payload IE,
     * walk them; a walk running past the MSDU gives a payload IE length of
     * zero, otherwise the MSDU is advanced past the payload IEs.
     */
    method UpdatePayloadIePtr()
      modifies this`pPayloadIE, this`payloadIeLen, this`msduP, this`msduLen
      ensures PayloadIeType(buf, old(msduP)) != PAYLOAD_IE_TYPE_VAL ==>
        unchanged(this`pPayloadIE, this`payloadIeLen, this`msduP, this`msduLen)
      ensures PayloadIeType(buf, old(msduP)) == PAYLOAD_IE_TYPE_VAL ==>
        var s := PayloadScan(buf, old(msduP), 0, old(msduLen), true);
        pPayloadIE == Some(old(msduP))
        && (s.len > old(msduLen) ==> payloadIeLen == 0 && msduP == old(msduP) && msduLen == old(msduLen))
        && (s.len <= old(msduLen) ==>
              payloadIeLen == s.len && msduP == old(msduP) + s.len && msduLen == old(msduLen) - s.len)
    {
      if PayloadIeType(buf, msduP) != PAYLOAD_IE_TYPE_VAL {
        return;
      }
      pPayloadIE := Some(msduP);
      var ieLen := WalkPayloadIes(buf, msduP, msduLen);
      if ieLen > msduLen {
        payloadIeLen := 0;
      } else {
        payloadIeLen := ieLen;
        msduP := msduP + ieLen;
        msduLen := msduLen - ieLen;
      }
    }

    /**
     * `macParseHeaderIes`: build the list of header IEs at the MSDU,
     * walking up to the header IE length. On allocation failure a partial
     * list is freed (and the header IE length is kept); when the very
     * first allocation fails the length becomes zero. `pHeaderIes` must
     * be empty on entry (the source asserts when it is not).
     */
    method ParseHeaderIes(allocations: nat) returns (status: Status)
      requires headerIes == []
      modifies this`headerIes, this`headerIeLen, this`payloadIePresent
      ensures HeaderIeType(buf, msduP) != HEADER_IE_TYPE_VAL ==>
        status == NoData && unchanged(this`headerIes, this`headerIeLen, this`payloadIePresent)
      ensures HeaderIeType(buf, msduP) == HEADER_IE_TYPE_VAL ==>
        var s := HeaderScan(buf, msduP, 0, old(headerIeLen));
        (|s.nodes| <= allocations ==>
           status == Success && headerIes == s.nodes && headerIeLen == s.len
           && payloadIePresent == (if s.term == TermWithPayload then 1 else old(payloadIePresent)))
        && (|s.nodes| > allocations ==>
           status == NoResources && headerIes == [] && payloadIePresent == old(payloadIePresent)
           && headerIeLen == (if allocations == 0 then 0 else old(headerIeLen)))
    {
      if HeaderIeType(buf, msduP) != HEADER_IE_TYPE_VAL {
        return NoData;
      }
      var nodes, len, term;
      nodes, len, term, status := CollectHeaderIes(buf, msduP, headerIeLen, allocations);
      if term == TermWithPayload {
        payloadIePresent := 1;
      }
      headerIes := nodes;
      if status == NoResources && headerIes != [] {
        headerIes := [];
      } else {
        headerIeLen := len;
      }
    }

    /**
     * `macParsePayloadIes`: build the list of payload IEs at the payload
     * IE pointer, walking up to the payload IE length, with the same
     * allocation model; `pPayloadIes` must be empty on entry.
     */
    method ParsePayloadIes(allocations: nat) returns (status: Status)
      requires payloadIes == [] && pPayloadIE.Some?
      modifies this`payloadIes
      ensures PayloadIeType(buf, pPayloadIE.value) != PAYLOAD_IE_TYPE_VAL ==>
        status == NoData && payloadIes == []
      ensures PayloadIeType(buf, pPayloadIE.value) == PAYLOAD_IE_TYPE_VAL ==>
        var s := PayloadScan(buf, pPayloadIE.value, 0, payloadIeLen, false);
        (|s.nodes| <= allocations ==> status == Success && payloadIes == s.nodes)
        && (|s.nodes| > allocations ==> status == NoResources && payloadIes == [])
    {
      if PayloadIeType(buf, pPayloadIE.value) != PAYLOAD_IE_TYPE_VAL {
        return NoData;
      }
      var nodes;
      nodes, status := CollectPayloadIes(buf, pPayloadIE.value, payloadIeLen, allocations);
      payloadIes := nodes;
      if status == NoResources && payloadIes != [] {
        payloadIes := [];
      }
    }
  }

  /**
   * `macMlmeSubIePresent`, with the sub-IE pointer advanced past each
   * sub-IE it skips: present is set exactly when a short sub-IE with the
   * requested ID is found in an MLME IE of the list, and the content
   * pointer is `NULL` when that sub-IE is empty. As in the C, an IE is
   * taken to be an MLME IE when its `ieType` field (not its group ID)
   * equals the MLME group ID; only the pointer advance is corrected.
   */
  method MlmeSubIePresent(buf: seq<nat>, ies: seq<PayloadIeInfo>, mlmeSubIeType: nat)
    returns (content: Option<nat>, iePresent: nat)
    ensures iePresent == (if FindInList(buf, ies, mlmeSubIeType).present then 1 else 0)
    ensures content == FindInList(buf, ies, mlmeSubIeType).content
  {
    content := None;
    iePresent := 0;
    var k := 0;
    while k < |ies| && iePresent == 0
      invariant 0 <= k <= |ies|
      invariant iePresent == 0 ==> content.None? && FindInList(buf, ies, mlmeSubIeType) == FindInList(buf, ies[k..], mlmeSubIeType)
      invariant iePresent != 0 ==> iePresent == 1 && SubIeResult(true, content) == FindInList(buf, ies, mlmeSubIeType)
      decreases |ies| - k
    {
      var ie := ies[k];
      assert ies[k..][0] == ie && ies[k..][1..] == ies[k + 1..];
      if ie.ieType == PAYLOAD_IE_MLME_GID && ie.ieContentPtr.Some? {
        var mlmeIeLen: int := ie.ieContentLen;
        var ptr: nat := ie.ieContentPtr.value;
        while mlmeIeLen > 0
          invariant FindSubIe(buf, ie.ieContentPtr.value, ie.ieContentLen, mlmeSubIeType)
                    == (if iePresent == 1 then Some(ptr) else FindSubIe(buf, ptr, mlmeIeLen, mlmeSubIeType))
          invariant iePresent == 1 ==> mlmeIeLen > 0 && IsShortSubIe(buf, ptr, mlmeSubIeType)
                                       && content == (if ShortSubIeLen(buf, ptr) != 0 then Some(ptr + SUB_IE_HEADER_LEN) else None)
          invariant iePresent == 0 ==> content.None?
          decreases mlmeIeLen, 1 - iePresent
        {
          if PayloadIeType(buf, ptr) == 0 && ShortSubIeId(buf, ptr) == mlmeSubIeType {
            if ShortSubIeLen(buf, ptr) != 0 {
              content := Some(ptr + SUB_IE_HEADER_LEN);
            }
            iePresent := 1;
            break;
          }
          var size := SubIeSize(buf, ptr);
          mlmeIeLen := mlmeIeLen - size;
          ptr := ptr + size;
        }
      }
      k := k + 1;
    }
  }
}
