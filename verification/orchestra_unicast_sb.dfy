/** Orchestra's sender-based unicast rule for RPL non-storing mode
    (orchestra-rule-unicast-per-neighbor-rpl-ns-sb.c).

    Every node listens, on a shared link, in every timeslot of one
    slotframe, and transmits its unicast data frames only in the one
    timeslot obtained by hashing its own address. The rule keeps no
    per-neighbour state. */
module OrchestraUnicastSb {
  import opened CTypes
  import opened TschSchedule

  /** The "no timeslot" sentinel returned for a NULL address or an empty
      slotframe. */
  const NoSlot: Uint16 := 0xffff

  /** IEEE 802.15.4 frame type value of a data frame
      (FRAME802154_DATAFRAME: the Frame Type subfield of the Frame Control
      field, section 5.2.1.1.1 of IEEE 802.15.4-2011). */
  const DataFrame: nat := 1

  /** Build-time and node-level inputs of the rule:
      ORCHESTRA_UNICAST_PERIOD (a TSCH slotframe size, so 16 bits wide),
      linkaddr_node_addr, and ORCHESTRA_LINKADDR_HASH, an arbitrary
      deterministic function of the address. */
  datatype Config = Config(period: Uint16, nodeAddr: LinkAddr, hash: LinkAddr -> nat)

  /** The module-level state: slotframe_handle, channel_offset and the
      sf_unicast pointer. */
  datatype RuleState = RuleState(slotframeHandle: Uint16, channelOffset: Uint16, sfUnicast: Ptr<Slotframe>)

  /** get_node_timeslot: the timeslot owned by `addr`. */
  function NodeTimeslot(cfg: Config, addr: Ptr<LinkAddr>): (ts: Uint16)
    ensures addr.Ref? && cfg.period > 0 ==> ts == cfg.hash(addr.target) % cfg.period
    ensures addr.Ref? && cfg.period > 0 ==> ts < cfg.period
    ensures addr.Null? || cfg.period == 0 ==> ts == NoSlot
  {
    if addr.Ref? && cfg.period > 0 then cfg.hash(addr.target) % cfg.period
    else NoSlot
  }

  /** The timeslot this node transmits in: get_node_timeslot(&linkaddr_node_addr). */
  function OwnTimeslot(cfg: Config): (ts: Uint16)
  {
    NodeTimeslot(cfg, Ref(cfg.nodeAddr))
  }

  /** The sentinel is returned exactly for a NULL address or a zero period:
      no real timeslot is ever mistaken for it. */
  lemma NodeTimeslotSentinel(cfg: Config, addr: Ptr<LinkAddr>)
    ensures NodeTimeslot(cfg, addr) == NoSlot <==> addr.Null? || cfg.period == 0
  {
  }

  /** Slot derivation needs nothing but the address: any node configured
      with the same period and hash computes, for a neighbour's address, the
      very timeslot that neighbour transmits in. */
  lemma NeighbourAgreesOnSlot(mine: Config, theirs: Config)
    requires mine.period == theirs.period && mine.hash == theirs.hash
    ensures NodeTimeslot(mine, Ref(theirs.nodeAddr)) == OwnTimeslot(theirs)
  {
  }

  /** What init installs at timeslot `i` of the slotframe with handle `h`:
      a normal, shared, receive link to the broadcast neighbour on channel
      offset `h`, which also transmits exactly at the node's own timeslot. */
  ghost predicate IsUnicastLink(cfg: Config, h: Uint16, l: Link, i: int)
  {
    && l.timeslot == i
    && l.linkType == Normal
    && l.addr == BroadcastAddr
    && l.channelOffset == h
    && Shared in l.options && Rx in l.options && TimeKeeping !in l.options
    && (Tx in l.options <==> i == OwnTimeslot(cfg))
  }

  /** init: record the handle as slotframe handle and channel offset, create
      the slotframe, and add one link per timeslot in ascending order. */
  method Init(cfg: Config, sfHandle: Uint16) returns (st: RuleState)
    ensures st.slotframeHandle == sfHandle && st.channelOffset == sfHandle
    ensures st.sfUnicast.Ref?
    ensures st.sfUnicast.target.handle == sfHandle
    ensures st.sfUnicast.target.size == cfg.period
    ensures |st.sfUnicast.target.links| == cfg.period
    ensures forall i :: 0 <= i < |st.sfUnicast.target.links| ==>
              IsUnicastLink(cfg, sfHandle, st.sfUnicast.target.links[i], i)
    ensures CountTx(st.sfUnicast.target.links) == if cfg.period > 0 then 1 else 0
  {
    var slotframeHandle := sfHandle;
    var channelOffset := sfHandle;
    var txTimeslot := OwnTimeslot(cfg);
    var links: seq<Link> := [];
    var i := 0;
    while i < cfg.period
      invariant 0 <= i <= cfg.period
      invariant |links| == i
      invariant forall k :: 0 <= k < i ==> IsUnicastLink(cfg, sfHandle, links[k], k)
    {
      var options := {Shared, Rx} + (if i == txTimeslot then {Tx} else {});
      links := links + [Link(options, Normal, BroadcastAddr, i, channelOffset)];
      i := i + 1;
    }
    CountTxSingle(links, txTimeslot);
    st := RuleState(slotframeHandle, channelOffset, Ref(Slotframe(slotframeHandle, cfg.period, links)));
  }

  /** What select_packet returns and what it stores through its two
      out-pointers (None: nothing stored). */
  datatype Selection = Selection(ret: int, slotframe: Option<Uint16>, timeslot: Option<Uint16>)

  /** select_packet: claim data frames with a non-null receiver for this
      rule's slotframe, at the sender's own timeslot. The frame type and
      receiver are the packet-buffer attributes of the outgoing frame;
      `slotframeOut` and `timeslotOut` say whether the caller passed
      non-NULL out-pointers. */
  function SelectPacket(cfg: Config, st: RuleState, frameType: nat, receiver: LinkAddr,
                        slotframeOut: bool, timeslotOut: bool): (sel: Selection)
    ensures sel.ret == 0 || sel.ret == 1
    ensures sel.ret == 1 <==> frameType == DataFrame && receiver != NullAddr
    ensures sel.ret == 0 ==> sel.slotframe == None && sel.timeslot == None
    ensures sel.ret == 1 ==> (sel.slotframe.Some? <==> slotframeOut)
    ensures sel.ret == 1 ==> (sel.timeslot.Some? <==> timeslotOut)
    ensures sel.slotframe.Some? ==> sel.slotframe.value == st.slotframeHandle
    ensures sel.timeslot.Some? ==> sel.timeslot.value == OwnTimeslot(cfg)
  {
    if frameType == DataFrame && receiver != NullAddr then
      Selection(1,
                if slotframeOut then Some(st.slotframeHandle) else None,
                if timeslotOut then Some(OwnTimeslot(cfg)) else None)
    else
      Selection(0, None, None)
  }

  /** Sender-based selection: among claimed frames, the destination does not
      influence the slotframe or timeslot chosen. */
  lemma SelectionIgnoresDestination(cfg: Config, st: RuleState, frameType: nat, a: LinkAddr, b: LinkAddr,
                                    slotframeOut: bool, timeslotOut: bool)
    requires a != NullAddr && b != NullAddr
    ensures SelectPacket(cfg, st, frameType, a, slotframeOut, timeslotOut)
         == SelectPacket(cfg, st, frameType, b, slotframeOut, timeslotOut)
  {
  }

  /** After init, a claimed frame is given the slotframe init created and
      the one timeslot of it whose link transmits; with a zero period the
      sentinel is given instead, and no link has that timeslot. */
  lemma SelectedSlotIsTxLink(cfg: Config, h: Uint16, sf: Slotframe, st: RuleState, receiver: LinkAddr)
    requires st.slotframeHandle == h && st.sfUnicast == Ref(sf) && sf.handle == h
    requires |sf.links| == cfg.period
    requires forall i :: 0 <= i < |sf.links| ==> IsUnicastLink(cfg, h, sf.links[i], i)
    requires receiver != NullAddr
    ensures var sel := SelectPacket(cfg, st, DataFrame, receiver, true, true);
            && sel.slotframe == Some(sf.handle)
            && (cfg.period > 0 ==>
                  && sel.timeslot.value < |sf.links|
                  && Tx in sf.links[sel.timeslot.value].options
                  && sf.links[sel.timeslot.value].timeslot == sel.timeslot.value)
            && (cfg.period == 0 ==>
                  && sel.timeslot == Some(NoSlot)
                  && forall i :: 0 <= i < |sf.links| ==> sf.links[i].timeslot != NoSlot)
  {
    var sel := SelectPacket(cfg, st, DataFrame, receiver, true, true);
    if cfg.period > 0 {
      var t := sel.timeslot.value;
      assert t == OwnTimeslot(cfg) < cfg.period;
      assert IsUnicastLink(cfg, h, sf.links[t], t);
    }
  }

  /** child_added: a no-op, the rule keeps no neighbour table. */
  function ChildAdded(st: RuleState, addr: Ptr<LinkAddr>): (r: RuleState)
    ensures r.slotframeHandle == st.slotframeHandle
    ensures r.channelOffset == st.channelOffset
    ensures r.sfUnicast == st.sfUnicast
  {
    st
  }

  /** child_removed: a no-op. */
  function ChildRemoved(st: RuleState, addr: Ptr<LinkAddr>): (r: RuleState)
    ensures r.slotframeHandle == st.slotframeHandle
    ensures r.channelOffset == st.channelOffset
    ensures r.sfUnicast == st.sfUnicast
  {
    st
  }

  /** new_time_source: a no-op, the slot does not depend on the
      synchronisation parent. The TSCH neighbours are represented by their
      addresses. */
  function NewTimeSource(st: RuleState, oldSource: Ptr<LinkAddr>, newSource: Ptr<LinkAddr>): (r: RuleState)
    ensures r.slotframeHandle == st.slotframeHandle
    ensures r.channelOffset == st.channelOffset
    ensures r.sfUnicast == st.sfUnicast
  {
    st
  }

  /** A topology notification delivered to the rule. */
  datatype Notification =
    | ChildAddedEvent(child: Ptr<LinkAddr>)
    | ChildRemovedEvent(child: Ptr<LinkAddr>)
    | NewTimeSourceEvent(oldSource: Ptr<LinkAddr>, newSource: Ptr<LinkAddr>)

  /** Deliver `events` in order through the rule's three hooks. */
  function Notify(st: RuleState, events: seq<Notification>): (r: RuleState)
    decreases |events|
  {
    if |events| == 0 then st
    else
      var next := match events[0]
        case ChildAddedEvent(a) => ChildAdded(st, a)
        case ChildRemovedEvent(a) => ChildRemoved(st, a)
        case NewTimeSourceEvent(o, n) => NewTimeSource(st, o, n);
      Notify(next, events[1..])
  }

  /** No sequence of topology notifications changes the rule's state, so
      the slotframe, its links and every later selection stay as init left
      them. */
  lemma {:induction false} NotificationsPreserveState(cfg: Config, st: RuleState, events: seq<Notification>,
                                                       frameType: nat, receiver: LinkAddr)
    ensures Notify(st, events) == st
    ensures SelectPacket(cfg, Notify(st, events), frameType, receiver, true, true)
         == SelectPacket(cfg, st, frameType, receiver, true, true)
    decreases |events|
  {
    if |events| > 0 {
      NotificationsPreserveState(cfg, st, events[1..], frameType, receiver);
    }
  }
}
