/** The slotframe and link records a scheduling rule installs in the
    slotted channel-hopping (TSCH) schedule. The schedule engine itself is
    outside this model; a rule's calls to it are modelled by building these
    records. */
module TschSchedule {
  import opened CTypes

  /** Number of bytes in a link-layer address (the 8-byte extended
      IEEE 802.15.4 address). */
  const LinkAddrSize: nat := 8

  /** A link-layer address (linkaddr_t). */
  type LinkAddr = a: seq<Byte> | |a| == LinkAddrSize
    witness [0, 0, 0, 0, 0, 0, 0, 0]

  /** linkaddr_null: the all-zero address. At the packet-buffer level a
      receiver equal to it marks a frame that has no unicast destination. */
  const NullAddr: LinkAddr := [0, 0, 0, 0, 0, 0, 0, 0]

  /** tsch_broadcast_address: the wildcard neighbour a shared link is
      attached to. */
  const BroadcastAddr: LinkAddr := [0xff, 0xff, 0xff, 0xff, 0xff, 0xff, 0xff, 0xff]

  /** The options a link can carry (LINK_OPTION_*), as a set instead of a
      bit mask. */
  datatype LinkOption = Tx | Rx | Shared | TimeKeeping

  /** LINK_TYPE_*: what a link is used for. */
  datatype LinkType = Normal | Advertising | AdvertisingOnly

  /** One recurring slot assignment inside a slotframe. */
  datatype Link = Link(
    options: set<LinkOption>,
    linkType: LinkType,
    addr: LinkAddr,
    timeslot: Uint16,
    channelOffset: Uint16)

  /** A repeating timeline of `size` timeslots and the links installed in
      it, in installation order. */
  datatype Slotframe = Slotframe(handle: Uint16, size: Uint16, links: seq<Link>)

  /** Number of links in `links` that carry the transmit option. */
  function CountTx(links: seq<Link>): (n: nat)
    ensures n <= |links|
  {
    if |links| == 0 then 0
    else CountTx(links[..|links| - 1]) + (if Tx in links[|links| - 1].options then 1 else 0)
  }

  /** CountTx is exact: it is 0 when no link transmits, and it is 1 when
      exactly the link at index `k` transmits. */
  lemma {:induction false} CountTxSingle(links: seq<Link>, k: int)
    requires forall i :: 0 <= i < |links| ==> (Tx in links[i].options <==> i == k)
    ensures CountTx(links) == if 0 <= k < |links| then 1 else 0
  {
    if |links| > 0 {
      var init := links[..|links| - 1];
      assert forall i :: 0 <= i < |init| ==> init[i] == links[i];
      CountTxSingle(init, k);
    }
  }
}
