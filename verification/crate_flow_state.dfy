/** The aggregator crate's FlowState: the same ring, fewer counters and fewer features
    (crates/r-nads-aggregator/src/lib.rs:33-203). */
module CrateFlowStates {
  import opened Packets
  import opened Moments
  import opened Sorting
  import opened Windows
  import opened FlowStates

  datatype CrateAggregates = CrateAggregates(packetsFwd: U32, packetsBwd: U32, bytesFwd: U64, bytesBwd: U64,
                                             synCount: U32, rstCount: U32, sumLen: U64, sumLenSq: U64)
  {
    ghost predicate Agrees(t: Tally) {
      && packetsFwd == t.packetsFwd && packetsBwd == t.packetsBwd
      && bytesFwd == t.bytesFwd && bytesBwd == t.bytesBwd
      && synCount == t.syn && rstCount == t.rst
      && sumLen == t.sumLen && sumLenSq == Wrap64(t.sumLenSq)
    }
  }

  /** The crate's FlowMetrics, without the wall-clock timestamp. */
  datatype CrateMetrics = CrateMetrics(key: FlowKey, packetCount: U64, meanLen: real, varLen: real,
                                       packetRate: real, byteRate: real, fwdBwdRatio: real, synRatio: real)

  /** The part of the main program's features that the crate reports too. */
  function Shared(m: FlowMetrics): CrateMetrics {
    CrateMetrics(m.key, m.packetCount, m.meanLen, m.varLen, m.packetRate, m.byteRate, m.fwdBwdRatio, m.synRatio)
  }

  /** Every feature the crate reports has the value that the main program reports under the same name. */
  predicate SameFeatures(c: CrateMetrics, m: FlowMetrics) {
    && c.key == m.key && c.packetCount == m.packetCount
    && c.meanLen == m.meanLen && c.varLen == m.varLen
    && c.packetRate == m.packetRate && c.byteRate == m.byteRate
    && c.fwdBwdRatio == m.fwdBwdRatio && c.synRatio == m.synRatio
  }

  lemma SharedIsSame(m: FlowMetrics)
    ensures SameFeatures(Shared(m), m)
  {
  }

  method CrateDiscount(before: CrateAggregates, p: PacketSummary, ghost rest: Tally) returns (a: CrateAggregates)
    requires before.Agrees(Single(p).Plus(rest))
    ensures a.Agrees(rest)
  {
    a := before.(sumLen := before.sumLen - p.len);
    a := a.(sumLenSq := Wrap64(a.sumLenSq - p.len * p.len));
    WrapAbsorbs(p.len * p.len + rest.sumLenSq, -(p.len * p.len));
    match p.direction {
      case Forward => a := a.(packetsFwd := a.packetsFwd - 1, bytesFwd := a.bytesFwd - p.len);
      case Backward => a := a.(packetsBwd := a.packetsBwd - 1, bytesBwd := a.bytesBwd - p.len);
    }
    if p.tcpFlags & SYN != 0 { a := a.(synCount := a.synCount - 1); }
    if p.tcpFlags & RST != 0 { a := a.(rstCount := a.rstCount - 1); }
  }

  method CrateAdmit(before: CrateAggregates, p: PacketSummary, ghost rest: Tally) returns (a: CrateAggregates)
    requires before.Agrees(rest) && rest.packetsFwd + rest.packetsBwd < WINDOW_SIZE
    requires rest.syn < WINDOW_SIZE && rest.rst < WINDOW_SIZE
    requires rest.bytesFwd + rest.bytesBwd == rest.sumLen < WINDOW_SIZE * 0xFFFF_FFFF
    ensures a.Agrees(rest.Plus(Single(p)))
  {
    a := before.(sumLen := before.sumLen + p.len);
    a := a.(sumLenSq := Wrap64(a.sumLenSq + p.len * p.len));
    WrapAbsorbs(rest.sumLenSq, p.len * p.len);
    match p.direction {
      case Forward => a := a.(packetsFwd := a.packetsFwd + 1, bytesFwd := a.bytesFwd + p.len);
      case Backward => a := a.(packetsBwd := a.packetsBwd + 1, bytesBwd := a.bytesBwd + p.len);
    }
    if p.tcpFlags & SYN != 0 { a := a.(synCount := a.synCount + 1); }
    if p.tcpFlags & RST != 0 { a := a.(rstCount := a.rstCount + 1); }
  }

  method CrateRoll(before: CrateAggregates, evicted: Option<PacketSummary>, p: PacketSummary,
                   ghost hist: seq<PacketSummary>)
    returns (a: CrateAggregates)
    requires before.Agrees(TallyOf(Window(hist)))
    requires evicted == if |hist| < WINDOW_SIZE then None else Some(hist[|hist| - WINDOW_SIZE])
    ensures a.Agrees(TallyOf(Window(hist + [p])))
  {
    a := before;
    ghost var w := Window(hist);
    if evicted.Some? {
      TallyFront(w);
      w := w[1..];
      a := CrateDiscount(a, evicted.value, TallyOf(w));
    }
    TallyBounds(w, 0xFFFF_FFFF);
    a := CrateAdmit(a, p, TallyOf(w));
    TallyBack(w, p);
    WindowAppend(hist, p);
  }

  class CrateFlowState {
    var initiatorIp: IpAddr
    var totalPackets: U64
    const buffer: array<PacketSummary>
    var head: nat
    var count: nat
    var agg: CrateAggregates

    ghost var hist: seq<PacketSummary>

    ghost predicate Valid()
      reads this, buffer
    {
      && RingHolds(buffer[..], hist)
      && head == Slot(|hist|)
      && count == |Window(hist)|
      && agg.Agrees(TallyOf(Window(hist)))
      && totalPackets == Wrap64(|hist|)
    }

    constructor (initiatorIp: IpAddr)
      ensures Valid() && fresh(buffer)
      ensures this.initiatorIp == initiatorIp && hist == []
    {
      this.initiatorIp := initiatorIp;
      totalPackets := 0;
      buffer := new PacketSummary[WINDOW_SIZE](_ => DEFAULT_SUMMARY);
      head, count := 0, 0;
      agg := CrateAggregates(0, 0, 0, 0, 0, 0, 0, 0);
      hist := [];
    }

    method Update(timestamp: int, len: U32, direction: Direction, tcpFlags: Option<bv8>)
      requires Valid()
      modifies this, buffer
      ensures Valid()
      ensures initiatorIp == old(initiatorIp)
      ensures hist == old(hist) + [Summarize(timestamp, len, direction, tcpFlags)]
      ensures buffer[..] == old(buffer[..])[old(head) := Summarize(timestamp, len, direction, tcpFlags)]
    {
      var newPkt := Summarize(timestamp, len, direction, tcpFlags);
      ghost var past, ring := hist, buffer[..];
      var evicted := None;
      if count == WINDOW_SIZE {
        evicted := Some(buffer[head]);
        OldestPacket(ring, past);
      }
      agg := CrateRoll(agg, evicted, newPkt, past);
      totalPackets := Wrap64(totalPackets + 1);
      buffer[head] := newPkt;
      head := Slot(head + 1);
      if count < WINDOW_SIZE {
        count := count + 1;
      }
      hist := past + [newPkt];
      WrapAbsorbs(|past|, 1);
      RingAdvances(ring, past, newPkt);
      assert buffer[..] == ring[Slot(|past|) := newPkt];
    }

    /** On equal histories the crate reports exactly the shared part of what the main program reports. */
    method ComputeMetrics(key: FlowKey) returns (m: CrateMetrics)
      requires Valid()
      ensures m == Shared(MetricsOf(key, hist)) && SameFeatures(m, MetricsOf(key, hist))
    {
      hide SameFeatures;
      SharedIsSame(MetricsOf(key, hist));
      var n := Max(count as real, 1.0);
      var seconds := WindowSeconds(buffer[..], count, hist);
      m := CrateMetrics(
        key, totalPackets,
        agg.sumLen as real / n,
        Max(RawVariance(n, agg.sumLen as real, agg.sumLenSq as real), 0.0),
        count as real / seconds,
        (agg.bytesFwd + agg.bytesBwd) as real / seconds,
        agg.packetsFwd as real / Max(agg.packetsBwd as real, 1.0),
        agg.synCount as real / n);
    }
  }
}
