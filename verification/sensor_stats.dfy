/** The root's per-source packet statistics in the sensor-node example
    (udp_rx_callback and root_et_handler in node.c): a fixed table of
    records found by source address or allocated on first contact, a
    window of the last NSEQNOS sequence numbers that suppresses
    duplicates, a packet counter, and the end-of-run reset. */
module SensorStats {
  import opened CTypes
  import opened SensorNodeConf

  /** An IPv6 address (uip_ipaddr_t): 16 bytes, compared byte by byte. */
  type IpAddr = a: seq<Byte> | |a| == 16
    witness [0, 0, 0, 0, 0, 0, 0, 0, 0, 0, 0, 0, 0, 0, 0, 0]

  /** struct stats, without the clock fields and the timer. */
  datatype Stats = Stats(
    srcAddr: IpAddr,
    started: bool,
    finished: bool,
    seqnosReceived: seq<int>,
    run: int,
    pktsReceived: int,
    totalPktsReceived: seq<int>)

  /** One block of the stats_tbl pool: whether it is allocated
      (count[i] > 0) and its record. */
  datatype Slot = Slot(used: bool, stats: Stats)

  /** The shape the C arrays give a record, and the run index range that
      keeps total_pkts_received[run] in bounds. */
  ghost predicate ValidStats(s: Stats)
  {
    && |s.seqnosReceived| == NSeqnos
    && |s.totalPktsReceived| == MaxRuns
    && 0 <= s.run < MaxRuns
  }

  ghost predicate ValidTable(t: seq<Slot>)
  {
    && |t| == MaxSourceNodes
    && forall i :: 0 <= i < |t| ==> ValidStats(t[i].stats)
  }

  /** A table block allocated to `sender`. */
  predicate Holds(slot: Slot, sender: IpAddr)
  {
    slot.used && slot.stats.srcAddr == sender
  }

  /** No non-zero sequence number appears twice in a window: a packet is
      counted at most once while its number is in the window. */
  ghost predicate NoRepeats(w: seq<int>)
  {
    forall i, j :: 0 <= i < j < |w| && w[i] == w[j] ==> w[i] == 0
  }

  /** The all-zero record memb_init leaves in every block. */
  function ZeroStats(): (s: Stats)
    ensures ValidStats(s) && s.run == 0 && s.pktsReceived == 0
    ensures |s.srcAddr| == 16 && forall i :: 0 <= i < |s.srcAddr| ==> s.srcAddr[i] == 0
    ensures forall i :: 0 <= i < MaxRuns ==> s.totalPktsReceived[i] == 0
    ensures !s.started && !s.finished
    ensures forall i :: 0 <= i < |s.seqnosReceived| ==> s.seqnosReceived[i] == 0
  {
    Stats(seq(16, _ => 0), false, false, seq(NSeqnos, _ => 0), 0, 0, seq(MaxRuns, _ => 0))
  }

  /** memb_init(&stats_tbl): every block free and zeroed. */
  function MembInit(): (t: seq<Slot>)
    ensures ValidTable(t)
    ensures forall i :: 0 <= i < |t| ==> !t[i].used && t[i].stats == ZeroStats()
    ensures forall i :: 0 <= i < |t| ==> NoRepeats(t[i].stats.seqnosReceived)
  {
    seq(MaxSourceNodes, _ => Slot(false, ZeroStats()))
  }

  /** The lookup loop of udp_rx_callback: the first allocated block whose
      source address is `sender`, or -1. */
  method FindSource(t: seq<Slot>, sender: IpAddr) returns (idx: int)
    requires |t| == MaxSourceNodes
    ensures -1 <= idx < |t|
    ensures idx == -1 <==> forall j :: 0 <= j < |t| ==> !Holds(t[j], sender)
    ensures idx >= 0 ==> Holds(t[idx], sender) && forall j :: 0 <= j < idx ==> !Holds(t[j], sender)
  {
    idx := -1;
    var i := 0;
    while i < MaxSourceNodes
      invariant 0 <= i <= MaxSourceNodes
      invariant forall j :: 0 <= j < i ==> !Holds(t[j], sender)
    {
      if t[i].used && t[i].stats.srcAddr == sender {
        idx := i;
        return;
      }
      i := i + 1;
    }
  }

  /** memb_alloc(&stats_tbl) as seen by this model: the first free block at
      or after `from`, or -1 when the pool is exhausted. */
  function MembAllocSlot(t: seq<Slot>, from: nat): (k: int)
    requires from <= |t|
    ensures k == -1 <==> forall j :: from <= j < |t| ==> t[j].used
    ensures k != -1 ==> from <= k < |t| && !t[k].used && forall j :: from <= j < k ==> t[j].used
    decreases |t| - from
  {
    if from == |t| then -1
    else if !t[from].used then from
    else MembAllocSlot(t, from + 1)
  }

  /** The duplicate test of udp_rx_callback: whether `seqno` is one of the
      remembered sequence numbers. */
  method IsRedundant(w: seq<int>, seqno: int) returns (dup: bool)
    requires |w| == NSeqnos
    ensures dup <==> exists j :: 0 <= j < |w| && w[j] == seqno
  {
    var i := 0;
    while i < NSeqnos
      invariant 0 <= i <= NSeqnos
      invariant forall j :: 0 <= j < i ==> w[j] != seqno
    {
      if seqno == w[i] {
        break;
      }
      i := i + 1;
    }
    dup := i != NSeqnos;
  }

  /** Insert a new sequence number: move every entry one place towards the
      front, dropping the oldest, and store `seqno` last. */
  method ShiftIn(w: seq<int>, seqno: int) returns (r: seq<int>)
    requires |w| == NSeqnos
    ensures |r| == NSeqnos
    ensures forall i :: 0 <= i < NSeqnos - 1 ==> r[i] == w[i + 1]
    ensures r[NSeqnos - 1] == seqno
  {
    r := w;
    var i := 0;
    while i < NSeqnos - 1
      invariant 0 <= i <= NSeqnos - 1
      invariant |r| == NSeqnos
      invariant forall j :: 0 <= j < i ==> r[j] == w[j + 1]
      invariant forall j :: i <= j < NSeqnos ==> r[j] == w[j]
    {
      r := r[i := r[i + 1]];
      i := i + 1;
    }
    r := r[NSeqnos - 1 := seqno];
  }

  /** The end-of-run test: the source has reached the last sequence number
      of the current run. Run r's packets are numbered MAX_PKTS * r + 1 up to
      MAX_PKTS * (r + 1), so among them only the last one ends the run, and
      a late packet of an earlier run never does. */
  function RunComplete(run: int, seqno: int): (due: bool)
    ensures 0 <= run && MaxPkts * run < seqno <= MaxPkts * (run + 1) ==>
              (due <==> seqno == MaxPkts * (run + 1))
    ensures seqno <= MaxPkts * run ==> !due
  {
    seqno >= MaxPkts * (run + 1)
  }

  /** The reset root_et_handler applies to a record: file the run's packet
      count, clear the counter, the window and the flags, and move on to the
      next run, wrapping after the last. */
  function EndOfRun(s: Stats): (r: Stats)
    requires ValidStats(s)
    ensures ValidStats(r)
    ensures r.srcAddr == s.srcAddr
    ensures r.totalPktsReceived[s.run] == s.pktsReceived
    ensures forall i :: 0 <= i < MaxRuns && i != s.run ==> r.totalPktsReceived[i] == s.totalPktsReceived[i]
    ensures r.pktsReceived == 0
    ensures forall i :: 0 <= i < NSeqnos ==> r.seqnosReceived[i] == 0
    ensures !r.started && !r.finished
    ensures r.run == (s.run + 1) % MaxRuns
  {
    // finished is set and then checked at once, so the reset always runs.
    var s1 := s.(finished := true);
    var s2 := s1.(finished := false, started := false,
                  seqnosReceived := seq(NSeqnos, _ => 0),
                  totalPktsReceived := s1.totalPktsReceived[s1.run := s1.pktsReceived],
                  pktsReceived := 0);
    var s3 := s2.(run := s2.run + 1);
    if s3.run == MaxRuns then s3.(run := 0) else s3
  }

  /** root_et_handler: find the record owning the expired timer, here
      identified by its block index, and reset it; a timer outside the
      table changes nothing. */
  function RootEtHandler(t: seq<Slot>, timer: int): (r: seq<Slot>)
    requires ValidTable(t)
    ensures ValidTable(r)
    ensures !(0 <= timer < |t|) ==> r == t
    ensures forall j :: 0 <= j < |t| && j != timer ==> r[j] == t[j]
    ensures 0 <= timer < |t| ==> r[timer].used == t[timer].used && r[timer].stats == EndOfRun(t[timer].stats)
  {
    if 0 <= timer < MaxSourceNodes then t[timer := t[timer].(stats := EndOfRun(t[timer].stats))]
    else t
  }

  /** What one received sequence number does to a record. */
  function ReceiveSeqno(s: Stats, seqno: int): (r: Stats)
    requires ValidStats(s)
    ensures ValidStats(r)
    ensures r.srcAddr == s.srcAddr
    ensures r.run != s.run <==> RunComplete(s.run, seqno)
    ensures !RunComplete(s.run, seqno) ==>
              && r.started
              && r.finished == s.finished
              && r.totalPktsReceived == s.totalPktsReceived
              && (seqno in s.seqnosReceived ==>
                    r.seqnosReceived == s.seqnosReceived && r.pktsReceived == s.pktsReceived)
              && (seqno !in s.seqnosReceived ==>
                    && r.pktsReceived == s.pktsReceived + 1
                    && r.seqnosReceived[NSeqnos - 1] == seqno
                    && forall i :: 0 <= i < NSeqnos - 1 ==> r.seqnosReceived[i] == s.seqnosReceived[i + 1])
    ensures RunComplete(s.run, seqno) ==>
              && r.totalPktsReceived[s.run] == s.pktsReceived + (if seqno in s.seqnosReceived then 0 else 1)
              && r.pktsReceived == 0
              && !r.started && !r.finished
              && (forall i :: 0 <= i < MaxRuns && i != s.run ==> r.totalPktsReceived[i] == s.totalPktsReceived[i])
              && r.run == (s.run + 1) % MaxRuns
              && forall i :: 0 <= i < NSeqnos ==> r.seqnosReceived[i] == 0
  {
    var counted :=
      if seqno in s.seqnosReceived then s
      else s.(pktsReceived := s.pktsReceived + 1, seqnosReceived := s.seqnosReceived[1..] + [seqno]);
    var begun := if !counted.started then counted.(started := true) else counted;
    if RunComplete(begun.run, seqno) then EndOfRun(begun) else begun
  }

  /** Receiving keeps a window free of repeated sequence numbers. */
  lemma ReceiveKeepsNoRepeats(s: Stats, seqno: int)
    requires ValidStats(s) && NoRepeats(s.seqnosReceived)
    ensures NoRepeats(ReceiveSeqno(s, seqno).seqnosReceived)
  {
    var r := ReceiveSeqno(s, seqno);
    var w := s.seqnosReceived;
    if !RunComplete(s.run, seqno) && seqno !in w {
      forall i, j | 0 <= i < j < |r.seqnosReceived| && r.seqnosReceived[i] == r.seqnosReceived[j]
        ensures r.seqnosReceived[i] == 0
      {
        assert r.seqnosReceived[i] == w[i + 1];
        if j < NSeqnos - 1 {
          assert r.seqnosReceived[j] == w[j + 1];
        }
      }
    }
  }

  /** The first part of udp_rx_callback: the sender's block if it has
      one, otherwise a freshly allocated block now holding the sender's
      address, otherwise -1 and no change. */
  method LookupOrAlloc(t: seq<Slot>, sender: IpAddr) returns (r: seq<Slot>, k: int)
    requires ValidTable(t)
    ensures ValidTable(r)
    ensures -1 <= k < |t|
    ensures k == -1 <==> (forall j :: 0 <= j < |t| ==> !Holds(t[j], sender) && t[j].used)
    ensures k == -1 ==> r == t
    ensures k >= 0 && (exists j :: 0 <= j < |t| && Holds(t[j], sender)) ==>
              Holds(t[k], sender) && forall j :: 0 <= j < k ==> !Holds(t[j], sender)
    ensures k >= 0 && (forall j :: 0 <= j < |t| ==> !Holds(t[j], sender)) ==>
              !t[k].used && forall j :: 0 <= j < k ==> t[j].used
    ensures k >= 0 ==> forall j :: 0 <= j < |t| && j != k ==> r[j] == t[j]
    ensures k >= 0 ==> r[k] == Slot(true, t[k].stats.(srcAddr := sender))
  {
    k := FindSource(t, sender);
    r := t;
    if k >= 0 {
      assert t[k] == Slot(true, t[k].stats.(srcAddr := sender));
      return;
    }
    k := MembAllocSlot(t, 0);
    if k >= 0 {
      r := t[k := Slot(true, t[k].stats.(srcAddr := sender))];
    }
  }

  /** The second part of udp_rx_callback, on the sender's record: the
      duplicate test, the window update and counter, and the start-of-run
      flag. */
  method CountSeqno(s: Stats, seqno: int) returns (r: Stats)
    requires ValidStats(s)
    ensures ValidStats(r)
    ensures r.srcAddr == s.srcAddr && r.run == s.run && r.finished == s.finished
    ensures r.totalPktsReceived == s.totalPktsReceived
    ensures r.started
    ensures seqno in s.seqnosReceived ==>
              r.seqnosReceived == s.seqnosReceived && r.pktsReceived == s.pktsReceived
    ensures seqno !in s.seqnosReceived ==>
              && r.pktsReceived == s.pktsReceived + 1
              && r.seqnosReceived[NSeqnos - 1] == seqno
              && forall i :: 0 <= i < NSeqnos - 1 ==> r.seqnosReceived[i] == s.seqnosReceived[i + 1]
  {
    r := s;
    var dup := IsRedundant(r.seqnosReceived, seqno);
    if !dup {
      var w := ShiftIn(r.seqnosReceived, seqno);
      r := r.(pktsReceived := r.pktsReceived + 1, seqnosReceived := w);
    }
    if !r.started {
      r := r.(started := true);
    }
  }

  /** udp_rx_callback: find or allocate the sender's record and apply the
      received sequence number to it. `k` is the block used, or -1 when the
      sender is new and the pool is full, in which case nothing changes. */
  method UdpRxCallback(t: seq<Slot>, sender: IpAddr, seqno: int) returns (r: seq<Slot>, k: int)
    requires ValidTable(t)
    ensures ValidTable(r)
    ensures -1 <= k < |t|
    ensures k == -1 <==> (forall j :: 0 <= j < |t| ==> !Holds(t[j], sender) && t[j].used)
    ensures k == -1 ==> r == t
    ensures k >= 0 && (exists j :: 0 <= j < |t| && Holds(t[j], sender)) ==>
              Holds(t[k], sender) && forall j :: 0 <= j < k ==> !Holds(t[j], sender)
    ensures k >= 0 && (forall j :: 0 <= j < |t| ==> !Holds(t[j], sender)) ==>
              !t[k].used && forall j :: 0 <= j < k ==> t[j].used
    ensures k >= 0 ==> forall j :: 0 <= j < |t| && j != k ==> r[j] == t[j]
    ensures k >= 0 ==> r[k].used && r[k].stats == ReceiveSeqno(t[k].stats.(srcAddr := sender), seqno)
  {
    var table;
    table, k := LookupOrAlloc(t, sender);
    if k < 0 {
      return t, -1;
    }
    var s := CountSeqno(table[k].stats, seqno);
    assert s.seqnosReceived == table[k].stats.seqnosReceived
        || s.seqnosReceived == table[k].stats.seqnosReceived[1..] + [seqno];
    r := table[k := table[k].(stats := s)];
    if RunComplete(s.run, seqno) {
      // The end-of-run handler, given this record's own timer.
      r := RootEtHandler(r, k);
    }
  }
}
