/** FlowState: a 128-slot ring buffer with rolling aggregates (src/analysis/aggregator.rs:109-363). */
module FlowStates {
  import opened Packets
  import opened Moments
  import opened Sorting
  import opened Windows

  /** The rolling aggregates, with the widths the source gives them. */
  datatype Aggregates = Aggregates(packetsFwd: U32, packetsBwd: U32, bytesFwd: U64, bytesBwd: U64,
                                   finCount: U32, synCount: U32, rstCount: U32, pshCount: U32, ackCount: U32,
                                   sumLen: U64, sumLenSq: U64)
  {
    /** The aggregates are those of t; squares are kept modulo 2^64. */
    ghost predicate Agrees(t: Tally) {
      && packetsFwd == t.packetsFwd && packetsBwd == t.packetsBwd
      && bytesFwd == t.bytesFwd && bytesBwd == t.bytesBwd
      && finCount == t.fin && synCount == t.syn && rstCount == t.rst && pshCount == t.psh && ackCount == t.ack
      && sumLen == t.sumLen && sumLenSq == Wrap64(t.sumLenSq)
    }
  }

  const NO_PACKETS := Aggregates(0, 0, 0, 0, 0, 0, 0, 0, 0, 0, 0)

  /** First half of update: take the evicted packet out of every aggregate. No subtraction underflows. */
  method Discount(before: Aggregates, p: PacketSummary, ghost rest: Tally) returns (a: Aggregates)
    requires before.Agrees(Single(p).Plus(rest))
    ensures a.Agrees(rest)
  {
    a := before.(sumLen := before.sumLen - p.len);
    a := a.(sumLenSq := Wrap64(a.sumLenSq - p.len * p.len));
    WrapAbsorbs(p.len * p.len + rest.sumLenSq, -(p.len * p.len));
    match p.direction {
      case Forward => a := a.(packetsFwd := a.packetsFwd - 1, bytesFwd := a.bytesFwd - p.len);
      case Backward => a := a.(packetsBwd := a.packetsBwd - 1, bytesBwd := a.bytesBwd - p.len);
    }
    if p.tcpFlags & FIN != 0 { a := a.(finCount := a.finCount - 1); }
    if p.tcpFlags & SYN != 0 { a := a.(synCount := a.synCount - 1); }
    if p.tcpFlags & RST != 0 { a := a.(rstCount := a.rstCount - 1); }
    if p.tcpFlags & PSH != 0 { a := a.(pshCount := a.pshCount - 1); }
    if p.tcpFlags & ACK != 0 { a := a.(ackCount := a.ackCount - 1); }
  }

  /** Second half of update: add the new packet to every aggregate. Only the squares can wrap. */
  method Admit(before: Aggregates, p: PacketSummary, ghost rest: Tally) returns (a: Aggregates)
    requires before.Agrees(rest) && rest.packetsFwd + rest.packetsBwd < WINDOW_SIZE
    requires rest.fin < WINDOW_SIZE && rest.syn < WINDOW_SIZE && rest.rst < WINDOW_SIZE
    requires rest.psh < WINDOW_SIZE && rest.ack < WINDOW_SIZE
    requires rest.bytesFwd + rest.bytesBwd == rest.sumLen < WINDOW_SIZE * 0xFFFF_FFFF
    ensures a.Agrees(rest.Plus(Single(p)))
  {
    a := before.(sumLen := before.sumLen + p.len);
    a := a.(sumLenSq := Wrap64(a.sumLenSq + p.len * p.len));
    WrapAbsorbs(rest.sumLenSq, p.len * p.len);
    match p.direction {
      case Forward => a := a.(packetsFwd := a.packetsFwd + 1, bytesFwd := a.bytesFwd + p.len);
      case Backward => a := a.(packetsBwd := a.packetsBwd + 1, bytesBwd := a.bytesBwd + p.len);
    }
    if p.tcpFlags & FIN != 0 { a := a.(finCount := a.finCount + 1); }
    if p.tcpFlags & SYN != 0 { a := a.(synCount := a.synCount + 1); }
    if p.tcpFlags & RST != 0 { a := a.(rstCount := a.rstCount + 1); }
    if p.tcpFlags & PSH != 0 { a := a.(pshCount := a.pshCount + 1); }
    if p.tcpFlags & ACK != 0 { a := a.(ackCount := a.ackCount + 1); }
  }

  /** The aggregate part of update: evicted is the packet about to be overwritten when the window is full. */
  method Roll(before: Aggregates, evicted: Option<PacketSummary>, p: PacketSummary, ghost hist: seq<PacketSummary>)
    returns (a: Aggregates)
    requires before.Agrees(TallyOf(Window(hist)))
    requires evicted == if |hist| < WINDOW_SIZE then None else Some(hist[|hist| - WINDOW_SIZE])
    ensures a.Agrees(TallyOf(Window(hist + [p])))
  {
    a := before;
    ghost var w := Window(hist);
    if evicted.Some? {
      TallyFront(w);
      w := w[1..];
      a := Discount(a, evicted.value, TallyOf(w));
    }
    TallyBounds(w, 0xFFFF_FFFF);
    a := Admit(a, p, TallyOf(w));
    TallyBack(w, p);
    WindowAppend(hist, p);
  }

  /** Slot k % 128 of the ring holds packet k of the history, for the packets still in the window. */
  ghost predicate RingHolds(ring: seq<PacketSummary>, hist: seq<PacketSummary>) {
    && |ring| == WINDOW_SIZE
    && (forall k {:trigger ring[Slot(k)]} :: 0 <= k < |hist| && k >= |hist| - WINDOW_SIZE ==> ring[Slot(k)] == hist[k])
  }

  lemma RingAdvances(ring: seq<PacketSummary>, hist: seq<PacketSummary>, p: PacketSummary)
    requires RingHolds(ring, hist)
    ensures RingHolds(ring[Slot(|hist|) := p], hist + [p])
    ensures Slot(|hist| + 1) == Slot(Slot(|hist|) + 1)
  {
    var n := |hist|;
    var next, grown := ring[Slot(n) := p], hist + [p];
    forall k | 0 <= k < |grown| && k >= |grown| - WINDOW_SIZE
      ensures next[Slot(k)] == grown[k]
    {
      if k < n {
        SlotsDiffer(k, n);
        assert ring[Slot(k)] == hist[k];
      }
    }
  }

  /** When the window is full, the write position holds its oldest packet. */
  lemma OldestPacket(ring: seq<PacketSummary>, hist: seq<PacketSummary>)
    requires RingHolds(ring, hist) && |hist| >= WINDOW_SIZE
    ensures ring[Slot(|hist|)] == hist[|hist| - WINDOW_SIZE]
  {
    SlotRepeats(|hist| - WINDOW_SIZE);
    assert ring[Slot(|hist| - WINDOW_SIZE)] == hist[|hist| - WINDOW_SIZE];
  }

  lemma RingWindow(ring: seq<PacketSummary>, hist: seq<PacketSummary>, i: nat)
    requires RingHolds(ring, hist) && i < |Window(hist)|
    ensures ring[Slot(|hist| - |Window(hist)| + i)] == Window(hist)[i]
  {
    var k := |hist| - |Window(hist)| + i;
    assert ring[Slot(k)] == hist[k];
  }

  /** Reading count slots from (head + 128 - count) % 128 on visits the window oldest first. */
  lemma RingOrder(ring: seq<PacketSummary>, hist: seq<PacketSummary>, i: nat)
    requires RingHolds(ring, hist) && i < |Window(hist)|
    ensures ring[Slot(Slot(|hist|) + WINDOW_SIZE - |Window(hist)| + i)] == Window(hist)[i]
  {
    RingWindow(ring, hist, i);
    SlotsWrap(|hist| - |Window(hist)|, |Window(hist)|, i);
  }

  /** Scanning slots 0..count instead visits the same packets in another order. */
  lemma ScanCoversWindow(ring: seq<PacketSummary>, hist: seq<PacketSummary>)
    requires RingHolds(ring, hist)
    ensures forall p :: p in ring[..|Window(hist)|] <==> p in Window(hist)
  {
    var base, n := |hist| - |Window(hist)|, |Window(hist)|;
    forall i | 0 <= i < n ensures ring[i] in Window(hist) {
      var j := if n < WINDOW_SIZE then i else SlotOffset(base, i);
      RingWindow(ring, hist, j);
    }
    forall i | 0 <= i < n ensures Window(hist)[i] in ring[..n] {
      RingWindow(ring, hist, i);
      assert ring[..n][Slot(base + i)] == ring[Slot(base + i)];
    }
  }

  /** How far after packet base the packet in slot i comes. */
  function SlotOffset(base: nat, i: nat): (j: nat)
    requires i < WINDOW_SIZE
    ensures j < WINDOW_SIZE && Slot(base + j) == i
  {
    Slot(i + WINDOW_SIZE - Slot(base))
  }

  lemma SlotsWrap(base: nat, n: nat, i: nat)
    requires n <= WINDOW_SIZE
    ensures Slot(Slot(base + n) + WINDOW_SIZE - n + i) == Slot(base + i)
  {
  }

  lemma SlotsDiffer(j: nat, k: nat)
    requires j < k < j + WINDOW_SIZE
    ensures Slot(j) != Slot(k)
  {
  }

  lemma SlotRepeats(k: nat)
    ensures Slot(k + WINDOW_SIZE) == Slot(k)
  {
  }

  /** minTs and maxTs are the least and the greatest timestamp of w. */
  ghost predicate ExtremesOf(w: seq<PacketSummary>, minTs: U64, maxTs: U64) {
    && (exists i :: 0 <= i < |w| && w[i].timestampMs == minTs)
    && (exists i :: 0 <= i < |w| && w[i].timestampMs == maxTs)
    && (forall i :: 0 <= i < |w| ==> minTs <= w[i].timestampMs <= maxTs)
  }

  lemma ExtremesByScan(slots: seq<PacketSummary>, w: seq<PacketSummary>, minTs: U64, maxTs: U64)
    requires forall p :: p in slots <==> p in w
    requires ExtremesOf(slots, minTs, maxTs)
    ensures ExtremesOf(w, minTs, maxTs)
  {
    var i :| 0 <= i < |slots| && slots[i].timestampMs == minTs;
    var j :| 0 <= j < |slots| && slots[j].timestampMs == maxTs;
    assert slots[i] in w && slots[j] in w;
    forall k | 0 <= k < |w| ensures minTs <= w[k].timestampMs <= maxTs {
      assert w[k] in slots;
    }
  }

  /** The scan and the sort agree on the duration of the window. */
  lemma DurationByScan(w: seq<PacketSummary>, minTs: U64, maxTs: U64)
    requires w != [] && ExtremesOf(w, minTs, maxTs)
    ensures DurationMs(Sorted(Timestamps(w))) == if |w| > 1 && maxTs > minTs then (maxTs - minTs) as real else 1.0
  {
    var ts := Timestamps(w);
    var i :| 0 <= i < |w| && w[i].timestampMs == minTs;
    var j :| 0 <= j < |w| && w[j].timestampMs == maxTs;
    assert ts[i] == minTs as real && ts[j] == maxTs as real;
    SortedEnds(ts, minTs as real, maxTs as real);
  }

  /** The oldest and newest timestamps, by a scan of the occupied slots. */
  method ScanTimestamps(slots: seq<PacketSummary>) returns (minTs: U64, maxTs: U64)
    ensures slots == [] ==> minTs == 0xFFFF_FFFF_FFFF_FFFF && maxTs == 0
    ensures slots != [] ==> ExtremesOf(slots, minTs, maxTs)
  {
    minTs, maxTs := 0xFFFF_FFFF_FFFF_FFFF, 0;
    ghost var a, b := 0, 0;
    for i := 0 to |slots|
      invariant i == 0 ==> minTs == 0xFFFF_FFFF_FFFF_FFFF && maxTs == 0
      invariant i > 0 ==> a < i && b < i && slots[a].timestampMs == minTs && slots[b].timestampMs == maxTs
      invariant forall j :: 0 <= j < i ==> minTs <= slots[j].timestampMs <= maxTs
    {
      var ts: U64 := slots[i].timestampMs;
      if ts < minTs || i == 0 { a := i; }
      if ts > maxTs || i == 0 { b := i; }
      if ts < minTs { minTs := ts; }
      if ts > maxTs { maxTs := ts; }
    }
  }

  /** The timestamps of the window, oldest packet first, read through the ring indices. */
  method CollectTimestamps(ring: seq<PacketSummary>, head: nat, count: nat, ghost hist: seq<PacketSummary>)
    returns (ts: seq<real>)
    requires RingHolds(ring, hist) && head == Slot(|hist|) && count == |Window(hist)|
    ensures ts == Timestamps(Window(hist))
  {
    ts := [];
    ghost var w := Window(hist);
    for i := 0 to count
      invariant |ts| == i && forall j :: 0 <= j < i ==> ts[j] == w[j].timestampMs as real
    {
      var idx := Slot(head + WINDOW_SIZE - count + i);
      RingOrder(ring, hist, i);
      ts := ts + [ring[idx].timestampMs as real];
    }
  }

  /** Sum and sum of squares of the gaps between neighbours. */
  method SumGaps(activeTs: seq<real>) returns (sum: real, sumSq: real)
    ensures sum == Sum(Gaps(activeTs)) && sumSq == SumSq(Gaps(activeTs))
  {
    hide *;
    ghost var gaps := Gaps(activeTs);
    sum, sumSq := 0.0, 0.0;
    EmptySums(0.0);
    if |activeTs| > 1 {
      for i := 1 to |activeTs|
        invariant sum == Sum(gaps[..i - 1]) && sumSq == SumSq(gaps[..i - 1])
      {
        var interval := activeTs[i] - activeTs[i - 1];
        sum, sumSq := sum + interval, sumSq + interval * interval;
        assert gaps[..i] == gaps[..i - 1] + [interval];
        SumsAppend(gaps[..i - 1], interval);
      }
      assert gaps[..|activeTs| - 1] == gaps;
    }
  }

  method WindowSeconds(ring: seq<PacketSummary>, count: nat, ghost hist: seq<PacketSummary>) returns (seconds: real)
    requires RingHolds(ring, hist) && count == |Window(hist)|
    ensures seconds == Seconds(Window(hist))
  {
    var minTs, maxTs := ScanTimestamps(ring[..count]);
    var durationMs := if count > 1 && maxTs > minTs then (maxTs - minTs) as real else 1.0;
    if count > 0 {
      ScanCoversWindow(ring, hist);
      ExtremesByScan(ring[..count], Window(hist), minTs, maxTs);
      DurationByScan(Window(hist), minTs, maxTs);
    }
    seconds := durationMs / 1000.0;
  }

  method IntervalStatistics(ring: seq<PacketSummary>, head: nat, count: nat, ghost hist: seq<PacketSummary>)
    returns (mean: real, variance: real)
    requires RingHolds(ring, hist) && head == Slot(|hist|) && count == |Window(hist)|
    ensures mean == MeanInterval(Window(hist)) && variance == IntervalVariance(Window(hist))
  {
    var ts := CollectTimestamps(ring, head, count, hist);
    var sumInterval, sumIntervalSq := SumGaps(Sorted(ts));
    mean, variance := 0.0, 0.0;
    if count > 1 {
      var numIntervals := (count - 1) as real;
      mean := sumInterval / numIntervals;
      variance := Max(RawVariance(numIntervals, sumInterval, sumIntervalSq), 0.0);
    }
  }

  class FlowState {
    var initiatorIp: IpAddr
    var totalPackets: U64
    const buffer: array<PacketSummary>
    var head: nat
    var count: nat
    var agg: Aggregates

    /** Every packet since the flow was admitted; the ring keeps the last 128 of them. */
    ghost var hist: seq<PacketSummary>

    ghost predicate Valid()
      reads this, buffer
    {
      && RingHolds(buffer[..], hist)
      && head == Slot(|hist|)
      && count == |Window(hist)|
      && agg.Agrees(TallyOf(Window(hist)))
      && totalPackets == Wrap64(|hist|)
    }

    constructor (initiatorIp: IpAddr)
      ensures Valid() && fresh(buffer)
      ensures this.initiatorIp == initiatorIp && hist == []
    {
      this.initiatorIp := initiatorIp;
      totalPackets := 0;
      buffer := new PacketSummary[WINDOW_SIZE](_ => DEFAULT_SUMMARY);
      head, count := 0, 0;
      agg := NO_PACKETS;
      hist := [];
    }

    /** Recycling leaves the stale packets in the buffer, but they belong to no window. */
    method Reset(initiatorIp: IpAddr)
      requires Valid()
      modifies this
      ensures Valid()
      ensures this.initiatorIp == initiatorIp && hist == []
    {
      this.initiatorIp := initiatorIp;
      totalPackets := 0;
      head, count := 0, 0;
      agg := NO_PACKETS;
      hist := [];
    }

    method Update(timestamp: int, len: U32, direction: Direction, tcpFlags: Option<bv8>)
      requires Valid()
      modifies this, buffer
      ensures Valid()
      ensures initiatorIp == old(initiatorIp)
      ensures hist == old(hist) + [Summarize(timestamp, len, direction, tcpFlags)]
      ensures buffer[..] == old(buffer[..])[old(head) := Summarize(timestamp, len, direction, tcpFlags)]
    {
      var newPkt := Summarize(timestamp, len, direction, tcpFlags);
      ghost var past, ring := hist, buffer[..];
      var evicted := None;
      if count == WINDOW_SIZE {
        evicted := Some(buffer[head]);
        OldestPacket(ring, past);
      }
      agg := Roll(agg, evicted, newPkt, past);
      totalPackets := Wrap64(totalPackets + 1);
      buffer[head] := newPkt;
      head := Slot(head + 1);
      if count < WINDOW_SIZE {
        count := count + 1;
      }
      hist := past + [newPkt];
      WrapAbsorbs(|past|, 1);
      RingAdvances(ring, past, newPkt);
      assert buffer[..] == ring[Slot(|past|) := newPkt];
    }

    method ComputeMetrics(key: FlowKey) returns (m: FlowMetrics)
      requires Valid()
      ensures m == MetricsOf(key, hist)
    {
      ghost var w := Window(hist);
      var n := Max(count as real, 1.0);
      var seconds := WindowSeconds(buffer[..], count, hist);
      var meanInterval, varInterval := IntervalStatistics(buffer[..], head, count, hist);
      m := FlowMetrics(
        key.ipMin, key.ipMax, key.portMin, key.portMax, key.protocol, key, totalPackets,
        agg.sumLen as real / n,
        Max(RawVariance(n, agg.sumLen as real, agg.sumLenSq as real), 0.0),
        count as real / seconds,
        (agg.bytesFwd + agg.bytesBwd) as real / seconds,
        agg.packetsFwd as real / Max(agg.packetsBwd as real, 1.0),
        agg.synCount as real / n, agg.rstCount as real / n, agg.finCount as real / n,
        agg.pshCount as real / n, agg.ackCount as real / n,
        meanInterval, varInterval);
    }
  }
}
