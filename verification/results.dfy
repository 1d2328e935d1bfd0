/** What every field of every result of a run says about the packets the table has received. */
module Results {
  import opened Counting
  import opened Packets
  import opened Moments
  import opened Sorting
  import opened Windows
  import opened LruSpec
  import opened Workers

  lemma {:induction false} LastIsResident(cap: nat, trace: seq<PacketEvent>, k: nat)
    requires cap >= 1 && k < |trace|
    ensures Resident(Run(cap, trace[..k + 1]), trace[k].Key())
  {
    EveryResult(cap, trace, k);
  }

  /** Index of the packet that admitted the flow of packet k for the time around k. */
  ghost function Admission(cap: nat, trace: seq<PacketEvent>, k: nat): (a: nat)
    requires cap >= 1 && k < |trace|
    ensures a <= k
  {
    LastIsResident(cap, trace, k);
    AdmittedAt(cap, trace[..k + 1], trace[k].Key())
  }

  /** The packets of k's flow since then. */
  ghost function FlowPackets(cap: nat, trace: seq<PacketEvent>, k: nat): seq<PacketEvent>
    requires cap >= 1 && k < |trace|
  {
    Of(trace[Admission(cap, trace, k)..k + 1], trace[k].Key())
  }

  function Last128(ps: seq<PacketEvent>): seq<PacketEvent> {
    if |ps| <= 128 then ps else ps[|ps| - 128..]
  }

  /** The packets that result k is about: the last 128 of the flow since its admission. */
  ghost function WindowPackets(cap: nat, trace: seq<PacketEvent>, k: nat): seq<PacketEvent>
    requires cap >= 1 && k < |trace|
  {
    Last128(FlowPackets(cap, trace, k))
  }

  /** w are the summaries of ps, for a flow opened by initiator. */
  ghost predicate Summarizes(w: seq<PacketSummary>, ps: seq<PacketEvent>, initiator: IpAddr) {
    |w| == |ps| && forall i :: 0 <= i < |w| ==> w[i] == SummaryFrom(initiator, ps[i])
  }

  /** The k-th metrics a worker sends are those of this window. */
  lemma {:induction false} ResultOfWindow(cap: nat, trace: seq<PacketEvent>, k: nat) returns (hist: seq<PacketSummary>)
    requires cap >= 1 && k < |trace|
    ensures |SentOver(cap, trace)| == |trace|
    ensures SentOver(cap, trace)[k] == MetricsOf(trace[k].Key(), hist)
    ensures |hist| == |FlowPackets(cap, trace, k)| > 0
    ensures Summarizes(Window(hist), WindowPackets(cap, trace, k), trace[Admission(cap, trace, k)].srcIp)
  {
    hide Run, AdmittedAt, FlowHistory, Of, MetricsOf, Observed, SummaryFrom, Reported;
    var key, since := trace[k].Key(), trace[Admission(cap, trace, k)..k + 1];
    EveryResult(cap, trace, k);
    ReportedAt(Observed(cap, trace), k);
    hist := FlowHistory(since, key, since[0].srcIp);
    HistoryOf(since, key, since[0].srcIp);
    assert since == since[..|since| - 1] + [trace[k]];
    OfAppend(since[..|since| - 1], trace[k], key);
  }

  lemma {:induction false} ReportedAt(os: seq<Observation>, k: nat)
    requires k < |os|
    ensures Reported(os)[k] == os[k].Metrics()
  {
    if k < |os| - 1 {
      ReportedAt(os[..|os| - 1], k);
    }
  }

  /** The features by name, which lets the lemmas below treat one at a time. */
  lemma FieldsOf(key: FlowKey, hist: seq<PacketSummary>)
    ensures var m, w := MetricsOf(key, hist), Window(hist); var t := TallyOf(w);
            && m.meanLen == MeanLength(w) && m.varLen == LengthVariance(w)
            && m.packetRate == PacketRate(w) && m.byteRate == ByteRate(w) && m.fwdBwdRatio == DirectionRatio(w)
            && m.synRatio == FlagRatio(t.syn, w) && m.rstRatio == FlagRatio(t.rst, w)
            && m.finRatio == FlagRatio(t.fin, w) && m.pshRatio == FlagRatio(t.psh, w)
            && m.ackRatio == FlagRatio(t.ack, w)
            && m.meanInterval == MeanInterval(w) && m.varInterval == IntervalVariance(w)
  {
  }

  // ---------- identity ----------

  /** Source and destination of a result are the two endpoints of the packet, the smaller address first. */
  lemma {:induction false} ResultEndpoints(cap: nat, trace: seq<PacketEvent>, k: nat)
    requires cap >= 1 && k < |trace|
    ensures |SentOver(cap, trace)| == |trace|
    ensures var m, e := SentOver(cap, trace)[k], trace[k];
            var source, destination := Endpoint(m.srcIp, m.srcPort), Endpoint(m.destIp, m.destPort);
            && m.key == e.Key() && m.protocol == e.protocol
            && (|| (source == e.Source() && destination == e.Destination())
                || (source == e.Destination() && destination == e.Source()))
            && !m.destIp.Below(m.srcIp)
            && (m.srcIp == m.destIp ==> m.srcPort <= m.destPort)
            && m.packetCount == |FlowPackets(cap, trace, k)| % 0x1_0000_0000_0000_0000
  {
    hide FlowPackets, WindowPackets, SentOver, Window;
    var hist := ResultOfWindow(cap, trace, k);
    KeyHoldsEndpoints(trace[k]);
  }

  /** r is x over n. */
  predicate IsRatio(r: real, x: real, n: real) {
    n > 0.0 && r * n == x
  }

  // ---------- counts ----------

  function HasFlag(bit: bv8): PacketEvent -> bool {
    (e: PacketEvent) => e.tcpFlags.Some? && e.tcpFlags.value & bit != 0
  }

  function SentBy(ip: IpAddr): PacketEvent -> bool {
    (e: PacketEvent) => e.srcIp == ip
  }

  function NotSentBy(ip: IpAddr): PacketEvent -> bool {
    (e: PacketEvent) => e.srcIp != ip
  }

  lemma {:induction false} EventCounts(w: seq<PacketSummary>, ps: seq<PacketEvent>, initiator: IpAddr, bit: bv8)
    requires Summarizes(w, ps, initiator)
    ensures Count(w, HasBit(bit)) == Count(ps, HasFlag(bit))
    ensures Count(w, Goes(Forward)) == Count(ps, SentBy(initiator))
    ensures Count(w, Goes(Backward)) == Count(ps, NotSentBy(initiator))
  {
    hide Count;
    assert (0 as bv8) & bit == 0;
    CountSame(w, HasBit(bit), ps, HasFlag(bit));
    CountSame(w, Goes(Forward), ps, SentBy(initiator));
    CountSame(w, Goes(Backward), ps, NotSentBy(initiator));
  }

  ghost predicate CountsOf(m: FlowMetrics, ps: seq<PacketEvent>, opener: IpAddr) {
    var n := |ps| as real;
    && IsRatio(m.finRatio, Count(ps, HasFlag(0x01)) as real, n)
    && IsRatio(m.synRatio, Count(ps, HasFlag(0x02)) as real, n)
    && IsRatio(m.rstRatio, Count(ps, HasFlag(0x04)) as real, n)
    && IsRatio(m.pshRatio, Count(ps, HasFlag(0x08)) as real, n)
    && IsRatio(m.ackRatio, Count(ps, HasFlag(0x10)) as real, n)
    && IsRatio(m.fwdBwdRatio, Count(ps, SentBy(opener)) as real, Max(Count(ps, NotSentBy(opener)) as real, 1.0))
  }

  lemma {:induction false} WindowCounts(key: FlowKey, hist: seq<PacketSummary>, ps: seq<PacketEvent>, opener: IpAddr)
    requires hist != [] && Summarizes(Window(hist), ps, opener)
    ensures CountsOf(MetricsOf(key, hist), ps, opener)
  {
    hide MetricsOf, Window, TallyOf, Count, FlagRatio, DirectionRatio, Summarizes, HasBit, HasFlag, Goes, SentBy,
      NotSentBy, IsRatio, Max;
    var w := Window(hist);
    FieldsOf(key, hist);
    TallyCounts(w);
    SameSize(w, ps, opener);
    EventCounts(w, ps, opener, 0x01);
    EventCounts(w, ps, opener, 0x02);
    EventCounts(w, ps, opener, 0x04);
    EventCounts(w, ps, opener, 0x08);
    EventCounts(w, ps, opener, 0x10);
    RatioOf(TallyOf(w).fin, w);
    RatioOf(TallyOf(w).syn, w);
    RatioOf(TallyOf(w).rst, w);
    RatioOf(TallyOf(w).psh, w);
    RatioOf(TallyOf(w).ack, w);
    RatioOfDirections(w);
  }

  lemma RatioOfDirections(w: seq<PacketSummary>)
    ensures IsRatio(DirectionRatio(w), TallyOf(w).packetsFwd as real, Max(TallyOf(w).packetsBwd as real, 1.0))
  {
    QuotientTimes(TallyOf(w).packetsFwd as real, Max(TallyOf(w).packetsBwd as real, 1.0), DirectionRatio(w));
  }

  lemma SameSize(w: seq<PacketSummary>, ps: seq<PacketEvent>, opener: IpAddr)
    requires Summarizes(w, ps, opener)
    ensures |w| == |ps| && Lengths(w) == Lens(ps) && Timestamps(w) == Times(ps)
  {
  }

  /** Each flag ratio times the size of the window is the number of its packets with that control bit, and the
      direction ratio is that of packets from the address that opened the flow to all others. */
  lemma {:induction false} ResultCounts(cap: nat, trace: seq<PacketEvent>, k: nat)
    requires cap >= 1 && k < |trace|
    ensures |SentOver(cap, trace)| == |trace|
    ensures CountsOf(SentOver(cap, trace)[k], WindowPackets(cap, trace, k), trace[Admission(cap, trace, k)].srcIp)
  {
    hide FlowPackets, WindowPackets, SentOver, Window, MetricsOf, Admission, CountsOf, Summarizes;
    var hist := ResultOfWindow(cap, trace, k);
    WindowCounts(trace[k].Key(), hist, WindowPackets(cap, trace, k), trace[Admission(cap, trace, k)].srcIp);
  }

  lemma RatioOf(flagged: nat, w: seq<PacketSummary>)
    requires w != []
    ensures IsRatio(FlagRatio(flagged, w), flagged as real, |w| as real)
  {
    QuotientTimes(flagged as real, CountOf(w), FlagRatio(flagged, w));
  }

  // ---------- lengths ----------

  function Lens(ps: seq<PacketEvent>): (xs: seq<real>)
    ensures |xs| == |ps| && forall i :: 0 <= i < |ps| ==> xs[i] == ps[i].len as real
  {
    seq(|ps|, i requires 0 <= i < |ps| => ps[i].len as real)
  }

  /** The mean is the mean of the packets' lengths. The variance is theirs less what the sum of their squares, squares,
      loses modulo 2^64, and never negative. */
  ghost predicate LengthsOf(m: FlowMetrics, xs: seq<real>, squares: nat) {
    var n, lost := |xs| as real, squares - squares % 0x1_0000_0000_0000_0000;
    && n > 0.0
    && IsRatio(m.meanLen, Sum(xs), n)
    && m.varLen == Max(PairSq(xs) / Square(n) - lost as real / n, 0.0)
  }

  lemma {:induction false} WindowLengths(key: FlowKey, hist: seq<PacketSummary>, ps: seq<PacketEvent>, opener: IpAddr,
                                         squares: nat)
    requires hist != [] && Summarizes(Window(hist), ps, opener) && squares as real == SumSq(Lens(ps))
    ensures LengthsOf(MetricsOf(key, hist), Lens(ps), squares)
  {
    hide MetricsOf, TallyOf, Sum, SumSq, PairSq, Window, Summarizes, Square, MeanLength, LengthVariance, Lengths,
      Lens, Max, IsRatio;
    var w := Window(hist);
    FieldsOf(key, hist);
    SameSize(w, ps, opener);
    MeanOfLengths(w);
    VarianceOfLengths(w, squares);
  }

  lemma {:induction false} MeanOfLengths(w: seq<PacketSummary>)
    requires w != []
    ensures IsRatio(MeanLength(w), Sum(Lengths(w)), |w| as real)
  {
    hide Sum, TallyOf;
    LengthSums(w);
    QuotientTimes(Sum(Lengths(w)), CountOf(w), MeanLength(w));
  }

  lemma {:induction false} VarianceOfLengths(w: seq<PacketSummary>, squares: nat)
    requires w != [] && squares as real == SumSq(Lengths(w))
    ensures var n, lost := |w| as real, squares - squares % 0x1_0000_0000_0000_0000;
            LengthVariance(w) == Max(PairSq(Lengths(w)) / Square(n) - lost as real / n, 0.0)
  {
    hide Sum, SumSq, PairSq, TallyOf, RawVariance, Square, Max;
    LengthSums(w);
    VarianceIsPairwise(Lengths(w));
    CountIsSize(w);
    VarianceLoss(|w| as real, Sum(Lengths(w)), squares as real, (squares - Wrap64(squares)) as real);
  }

  lemma CountIsSize(w: seq<PacketSummary>)
    requires w != []
    ensures CountOf(w) == |w| as real
  {
  }

  lemma VarianceLoss(n: real, s: real, q: real, lost: real)
    requires n > 0.0
    ensures RawVariance(n, s, q - lost) == RawVariance(n, s, q) - lost / n
  {
    QuotientIs(q / n - lost / n, n, q - lost);
  }

  lemma {:induction false} ResultLengths(cap: nat, trace: seq<PacketEvent>, k: nat, squares: nat)
    requires cap >= 1 && k < |trace| && squares as real == SumSq(Lens(WindowPackets(cap, trace, k)))
    ensures |SentOver(cap, trace)| == |trace|
    ensures LengthsOf(SentOver(cap, trace)[k], Lens(WindowPackets(cap, trace, k)), squares)
  {
    hide FlowPackets, WindowPackets, SentOver, Window, MetricsOf, Admission, LengthsOf, Summarizes, SumSq, Lens;
    var hist := ResultOfWindow(cap, trace, k);
    WindowLengths(trace[k].Key(), hist, WindowPackets(cap, trace, k), trace[Admission(cap, trace, k)].srcIp, squares);
  }

  // ---------- times ----------

  /** The packets' times in milliseconds. */
  function Times(ps: seq<PacketEvent>): (ts: seq<real>)
    ensures |ts| == |ps| && forall i :: 0 <= i < |ps| ==> ts[i] == TimestampMs(ps[i].timestamp) as real
  {
    seq(|ps|, i requires 0 <= i < |ps| => TimestampMs(ps[i].timestamp) as real)
  }

  /** lo and hi are the oldest and the newest of the times. */
  ghost predicate Spans(ts: seq<real>, lo: real, hi: real) {
    lo in ts && hi in ts && forall t :: t in ts ==> lo <= t <= hi
  }

  /** Packets and bytes per second: over the span of the window in milliseconds, or over one millisecond when the span
      is empty. */
  ghost predicate RatesOf(m: FlowMetrics, ps: seq<PacketEvent>, lo: real, hi: real) {
    var ms := if hi > lo then hi - lo else 1.0;
    && IsRatio(m.packetRate, 1000.0 * |ps| as real, ms)
    && IsRatio(m.byteRate, 1000.0 * Sum(Lens(ps)), ms)
  }

  lemma {:induction false} WindowRates(key: FlowKey, hist: seq<PacketSummary>, ps: seq<PacketEvent>, opener: IpAddr,
                                       lo: real, hi: real)
    requires hist != [] && Summarizes(Window(hist), ps, opener) && Spans(Times(ps), lo, hi)
    ensures RatesOf(MetricsOf(key, hist), ps, lo, hi)
  {
    hide MetricsOf, TallyOf, Sum, Window, Summarizes, Spans, DurationMs, Lens, Times, PacketRate, ByteRate,
      IsRatio, Lengths, Timestamps, Sorted;
    var w := Window(hist);
    FieldsOf(key, hist);
    SameSize(w, ps, opener);
    DurationIsSpan(Times(ps), lo, hi);
    RatesPerDuration(w);
  }

  lemma {:induction false} RatesPerDuration(w: seq<PacketSummary>)
    ensures var ms := DurationMs(Sorted(Timestamps(w)));
            && IsRatio(PacketRate(w), 1000.0 * |w| as real, ms)
            && IsRatio(ByteRate(w), 1000.0 * Sum(Lengths(w)), ms)
  {
    hide TallyOf, Sum, Sorted, DurationMs;
    var ms := DurationMs(Sorted(Timestamps(w)));
    LengthSums(w);
    AllBytes(w);
    PerSecond(|w| as real, ms, PacketRate(w));
    PerSecond(Sum(Lengths(w)), ms, ByteRate(w));
  }

  lemma {:induction false} AllBytes(w: seq<PacketSummary>)
    ensures TallyOf(w).bytesFwd + TallyOf(w).bytesBwd == TallyOf(w).sumLen
  {
    TallyBounds(w, 0xFFFF_FFFF);
  }

  lemma {:induction false} DurationIsSpan(ts: seq<real>, lo: real, hi: real)
    requires Spans(ts, lo, hi)
    ensures DurationMs(Sorted(ts)) == if hi > lo then hi - lo else 1.0
  {
    hide Sorted;
    SortedEnds(ts, lo, hi);
  }

  lemma PerSecond(x: real, ms: real, rate: real)
    requires ms > 0.0 && rate == x / (ms / 1000.0)
    ensures rate * ms == 1000.0 * x
  {
    QuotientTimes(x, ms / 1000.0, rate);
  }

  lemma {:induction false} ResultRates(cap: nat, trace: seq<PacketEvent>, k: nat, lo: real, hi: real)
    requires cap >= 1 && k < |trace| && Spans(Times(WindowPackets(cap, trace, k)), lo, hi)
    ensures |SentOver(cap, trace)| == |trace|
    ensures RatesOf(SentOver(cap, trace)[k], WindowPackets(cap, trace, k), lo, hi)
  {
    hide FlowPackets, WindowPackets, SentOver, Window, MetricsOf, Admission, RatesOf, Summarizes, Spans, Times;
    var hist := ResultOfWindow(cap, trace, k);
    WindowRates(trace[k].Key(), hist, WindowPackets(cap, trace, k), trace[Admission(cap, trace, k)].srcIp, lo, hi);
  }

  /** The inter-arrival features: none for one packet; otherwise the mean times the number of gaps is the span, and the
      variance is that of the gaps between the sorted times. */
  ghost predicate IntervalsOf(m: FlowMetrics, ts: seq<real>, lo: real, hi: real) {
    && (|ts| == 1 ==> m.meanInterval == 0.0 && m.varInterval == 0.0)
    && (|ts| > 1 ==>
          && IsRatio(m.meanInterval, hi - lo, (|ts| - 1) as real)
          && m.varInterval == PairSq(Gaps(Sorted(ts))) / Square((|ts| - 1) as real))
  }

  lemma {:induction false} WindowIntervals(key: FlowKey, hist: seq<PacketSummary>, ps: seq<PacketEvent>, opener: IpAddr,
                                           lo: real, hi: real)
    requires hist != [] && Summarizes(Window(hist), ps, opener) && Spans(Times(ps), lo, hi)
    ensures IntervalsOf(MetricsOf(key, hist), Times(ps), lo, hi)
  {
    hide MetricsOf, TallyOf, Window, Summarizes, PairSq, Sorted, Times, Square, MeanInterval, IntervalVariance,
      IsRatio, Spans, Timestamps;
    var w := Window(hist);
    FieldsOf(key, hist);
    SameSize(w, ps, opener);
    if |w| > 1 {
      MeanGap(w, lo, hi);
      IntervalVarianceIsExact(w);
    } else {
      NoIntervals(w);
    }
  }

  lemma {:induction false} MeanGap(w: seq<PacketSummary>, lo: real, hi: real)
    requires |w| > 1 && Spans(Timestamps(w), lo, hi)
    ensures IsRatio(MeanInterval(w), hi - lo, (|w| - 1) as real)
  {
    hide MeanInterval, Sorted, Timestamps;
    IntervalsMeasureTheSpan(w, lo, hi);
    QuotientTimes(hi - lo, (|w| - 1) as real, MeanInterval(w));
  }

  lemma NoIntervals(w: seq<PacketSummary>)
    requires |w| == 1
    ensures MeanInterval(w) == 0.0 && IntervalVariance(w) == 0.0
  {
  }

  lemma {:induction false} ResultIntervals(cap: nat, trace: seq<PacketEvent>, k: nat, lo: real, hi: real)
    requires cap >= 1 && k < |trace| && Spans(Times(WindowPackets(cap, trace, k)), lo, hi)
    ensures |SentOver(cap, trace)| == |trace|
    ensures IntervalsOf(SentOver(cap, trace)[k], Times(WindowPackets(cap, trace, k)), lo, hi)
  {
    hide FlowPackets, WindowPackets, SentOver, Window, MetricsOf, Admission, IntervalsOf, Summarizes, Spans, Times;
    var hist := ResultOfWindow(cap, trace, k);
    WindowIntervals(trace[k].Key(), hist, WindowPackets(cap, trace, k), trace[Admission(cap, trace, k)].srcIp, lo, hi);
  }
}
