/** The sliding window of a flow, its statistics as folds, and the features computed from it. */
module Windows {
  import opened Counting
  import opened Packets
  import opened Moments
  import opened Sorting

  const WINDOW_SIZE := 128

  /** The ring slot of the k-th packet of a flow. The divisor is WINDOW_SIZE as a literal, which keeps the
      arithmetic linear. */
  function Slot(k: nat): nat {
    k % 128
  }

  /** The largest packet length whose window of squares still fits in 64 bits. */
  const MAX_EXACT_LEN := 379625062

  /** The TCP control bits of section 3.1 of RFC 9293. */
  const FIN: bv8 := 0x01
  const SYN: bv8 := 0x02
  const RST: bv8 := 0x04
  const PSH: bv8 := 0x08
  const ACK: bv8 := 0x10

  function Has(flags: bv8, bit: bv8): nat {
    if flags & bit != 0 then 1 else 0
  }

  /** The quantities FlowState keeps as rolling aggregates, as unbounded numbers. */
  datatype Tally = Tally(packetsFwd: nat, packetsBwd: nat, bytesFwd: nat, bytesBwd: nat,
                         fin: nat, syn: nat, rst: nat, psh: nat, ack: nat, sumLen: nat, sumLenSq: nat)
  {
    function Plus(t: Tally): Tally {
      Tally(packetsFwd + t.packetsFwd, packetsBwd + t.packetsBwd, bytesFwd + t.bytesFwd, bytesBwd + t.bytesBwd,
            fin + t.fin, syn + t.syn, rst + t.rst, psh + t.psh, ack + t.ack,
            sumLen + t.sumLen, sumLenSq + t.sumLenSq)
    }
  }

  const ZERO_TALLY := Tally(0, 0, 0, 0, 0, 0, 0, 0, 0, 0, 0)

  /** What one packet contributes. */
  function Single(p: PacketSummary): Tally {
    Tally(if p.direction == Forward then 1 else 0, if p.direction == Forward then 0 else 1,
          if p.direction == Forward then p.len else 0, if p.direction == Forward then 0 else p.len,
          Has(p.tcpFlags, FIN), Has(p.tcpFlags, SYN), Has(p.tcpFlags, RST),
          Has(p.tcpFlags, PSH), Has(p.tcpFlags, ACK), p.len, p.len * p.len)
  }

  function TallyOf(w: seq<PacketSummary>): Tally {
    if w == [] then ZERO_TALLY else TallyOf(w[..|w| - 1]).Plus(Single(w[|w| - 1]))
  }

  /** The last min(128, n) packets of a flow's history. */
  function Window(hist: seq<PacketSummary>): (w: seq<PacketSummary>)
    ensures |w| == if |hist| < WINDOW_SIZE then |hist| else WINDOW_SIZE
  {
    if |hist| <= WINDOW_SIZE then hist else hist[|hist| - WINDOW_SIZE..]
  }

  /** 64-bit unsigned arithmetic of a release build: results are reduced modulo 2^64. */
  function Wrap64(x: int): U64 {
    x % 0x1_0000_0000_0000_0000
  }

  lemma WrapAbsorbs(x: int, y: int)
    ensures Wrap64(Wrap64(x) + y) == Wrap64(x + y)
    ensures 0 <= x < U64_LIMIT ==> Wrap64(x) == x
  {
  }

  lemma TallyBack(w: seq<PacketSummary>, p: PacketSummary)
    ensures TallyOf(w + [p]) == TallyOf(w).Plus(Single(p))
  {
    assert (w + [p])[..|w|] == w;
  }

  lemma {:induction false} TallyFront(w: seq<PacketSummary>)
    requires w != []
    ensures TallyOf(w) == Single(w[0]).Plus(TallyOf(w[1..]))
  {
    if |w| == 1 {
      assert w[1..] == w[..0] == [];
    } else {
      TallyFront(w[..|w| - 1]);
      assert w[..|w| - 1][1..] == w[1..][..|w| - 2];
      PlusIsAssociative(Single(w[0]), TallyOf(w[1..][..|w| - 2]), Single(w[|w| - 1]));
    }
  }

  lemma PlusIsAssociative(a: Tally, b: Tally, c: Tally)
    ensures a.Plus(b).Plus(c) == a.Plus(b.Plus(c))
  {
  }

  function HasBit(bit: bv8): PacketSummary -> bool {
    (p: PacketSummary) => p.tcpFlags & bit != 0
  }

  function Goes(d: Direction): PacketSummary -> bool {
    (p: PacketSummary) => p.direction == d
  }

  /** Sum of the lengths of the packets in one direction. */
  function LengthsGoing(w: seq<PacketSummary>, d: Direction): nat {
    if w == [] then 0
    else LengthsGoing(w[..|w| - 1], d) + (if w[|w| - 1].direction == d then w[|w| - 1].len else 0)
  }

  /** What the aggregates count: packets and bytes by direction, and packets with each control bit. */
  lemma {:induction false} TallyCounts(w: seq<PacketSummary>)
    ensures var t := TallyOf(w);
            && t.packetsFwd == Count(w, Goes(Forward)) && t.packetsBwd == Count(w, Goes(Backward))
            && t.bytesFwd == LengthsGoing(w, Forward) && t.bytesBwd == LengthsGoing(w, Backward)
            && t.fin == Count(w, HasBit(0x01)) && t.syn == Count(w, HasBit(0x02)) && t.rst == Count(w, HasBit(0x04))
            && t.psh == Count(w, HasBit(0x08)) && t.ack == Count(w, HasBit(0x10))
  {
    if w == [] {
    } else {
      hide TallyOf, Count;
      var front, p := w[..|w| - 1], w[|w| - 1];
      assert w == front + [p];
      TallyCounts(front);
      TallyBack(front, p);
      CountAppend(front, p, Goes(Forward));
      CountAppend(front, p, Goes(Backward));
      CountAppend(front, p, HasBit(0x01));
      CountAppend(front, p, HasBit(0x02));
      CountAppend(front, p, HasBit(0x04));
      CountAppend(front, p, HasBit(0x08));
      CountAppend(front, p, HasBit(0x10));
    }
  }

  lemma WindowAppend(hist: seq<PacketSummary>, p: PacketSummary)
    ensures Window(hist + [p]) ==
            (if |hist| < WINDOW_SIZE then Window(hist) else Window(hist)[1..]) + [p]
  {
  }

  /** Appending a packet to a full window replaces the contribution of the packet that leaves by the new one's:
      the law that makes constant-time rolling updates correct. */
  lemma {:induction false} WindowSlides(hist: seq<PacketSummary>, p: PacketSummary)
    ensures |hist| < WINDOW_SIZE ==>
              TallyOf(Window(hist + [p])) == TallyOf(Window(hist)).Plus(Single(p))
    ensures |hist| >= WINDOW_SIZE ==>
              Single(hist[|hist| - WINDOW_SIZE]).Plus(TallyOf(Window(hist + [p]))) ==
              TallyOf(Window(hist)).Plus(Single(p))
  {
    WindowAppend(hist, p);
    if |hist| < WINDOW_SIZE {
      TallyBack(Window(hist), p);
    } else {
      TallyFront(Window(hist));
      TallyBack(Window(hist)[1..], p);
      PlusIsAssociative(Single(Window(hist)[0]), TallyOf(Window(hist)[1..]), Single(p));
    }
  }

  /** Packet and byte counts split by direction, every flag count is at most the window's size, and sums are
      bounded by the largest length. */
  lemma {:induction false} TallyBounds(w: seq<PacketSummary>, maxLen: nat)
    requires forall i :: 0 <= i < |w| ==> w[i].len <= maxLen
    ensures var t := TallyOf(w);
            && t.packetsFwd + t.packetsBwd == |w|
            && t.bytesFwd + t.bytesBwd == t.sumLen <= |w| * maxLen
            && t.fin <= |w| && t.syn <= |w| && t.rst <= |w| && t.psh <= |w| && t.ack <= |w|
            && t.sumLenSq <= |w| * (maxLen * maxLen)
  {
    if w != [] {
      TallyBounds(w[..|w| - 1], maxLen);
      BoundStep(|w| - 1, maxLen, w[|w| - 1].len);
    }
  }

  lemma BoundStep(n: nat, maxLen: nat, len: nat)
    requires len <= maxLen
    ensures n * maxLen + len <= (n + 1) * maxLen
    ensures n * (maxLen * maxLen) + len * len <= (n + 1) * (maxLen * maxLen)
  {
    SquareGrows(len, maxLen);
  }

  lemma {:induction false} ConstantSquares(p: PacketSummary, n: nat)
    ensures TallyOf(seq(n, _ => p)).sumLenSq == n * (p.len * p.len)
  {
    if n > 0 {
      ConstantSquares(p, n - 1);
      assert seq(n, _ => p)[..n - 1] == seq(n - 1, _ => p);
    }
  }

  lemma SquareGrows(x: nat, y: nat)
    requires x <= y
    ensures x * x <= y * y
  {
    assert x * x <= x * y <= y * y;
  }

  /** No byte sum, and no sum of squares of lengths up to 379625062, ever leaves 64 bits... */
  lemma {:induction false} SumsFit(hist: seq<PacketSummary>)
    ensures TallyOf(Window(hist)).sumLen < U64_LIMIT
    ensures (forall i :: 0 <= i < |Window(hist)| ==> Window(hist)[i].len <= MAX_EXACT_LEN) ==>
              TallyOf(Window(hist)).sumLenSq < U64_LIMIT
  {
    var w := Window(hist);
    TallyBounds(w, 0xFFFF_FFFF);
    if forall i :: 0 <= i < |w| ==> w[i].len <= MAX_EXACT_LEN {
      TallyBounds(w, MAX_EXACT_LEN);
    }
  }

  /** ... and the bound is tight: one byte more, and a window of such packets overflows. */
  lemma {:induction false} SquareBoundIsTight(p: PacketSummary)
    requires p.len == MAX_EXACT_LEN + 1
    ensures TallyOf(Window(seq(WINDOW_SIZE, _ => p))).sumLenSq >= U64_LIMIT
  {
    ConstantSquares(p, WINDOW_SIZE);
  }

  // ---------- features ----------

  datatype FlowMetrics = FlowMetrics(
    srcIp: IpAddr, destIp: IpAddr, srcPort: U16, destPort: U16, protocol: U8, key: FlowKey,
    packetCount: U64, meanLen: real, varLen: real, packetRate: real, byteRate: real, fwdBwdRatio: real,
    synRatio: real, rstRatio: real, finRatio: real, pshRatio: real, ackRatio: real,
    meanInterval: real, varInterval: real)

  function Lengths(w: seq<PacketSummary>): seq<real> {
    seq(|w|, i requires 0 <= i < |w| => w[i].len as real)
  }

  function Timestamps(w: seq<PacketSummary>): (ts: seq<real>)
    ensures |ts| == |w| && forall i :: 0 <= i < |w| ==> ts[i] == w[i].timestampMs as real
  {
    seq(|w|, i requires 0 <= i < |w| => w[i].timestampMs as real)
  }

  /** Differences of neighbours. */
  function Gaps(ts: seq<real>): (gs: seq<real>)
    ensures |gs| == if ts == [] then 0 else |ts| - 1
    ensures forall i :: 0 <= i < |gs| ==> gs[i] == ts[i + 1] - ts[i]
  {
    seq(if ts == [] then 0 else |ts| - 1, i requires 0 <= i < |ts| - 1 => ts[i + 1] - ts[i])
  }

  /** Milliseconds between the oldest and the newest packet, and 1 when that is not positive. */
  function DurationMs(sortedTs: seq<real>): (d: real)
    ensures d > 0.0
  {
    if |sortedTs| > 1 && sortedTs[|sortedTs| - 1] > sortedTs[0]
    then sortedTs[|sortedTs| - 1] - sortedTs[0]
    else 1.0
  }

  function CountOf(w: seq<PacketSummary>): (n: real)
    ensures n > 0.0 && (w != [] ==> n == |w| as real)
  {
    Max(|w| as real, 1.0)
  }

  function MeanLength(w: seq<PacketSummary>): real {
    TallyOf(w).sumLen as real / CountOf(w)
  }

  function LengthVariance(w: seq<PacketSummary>): real {
    Max(RawVariance(CountOf(w), TallyOf(w).sumLen as real, Wrap64(TallyOf(w).sumLenSq) as real), 0.0)
  }

  function Seconds(w: seq<PacketSummary>): (s: real)
    ensures s > 0.0
  {
    DurationMs(Sorted(Timestamps(w))) / 1000.0
  }

  function PacketRate(w: seq<PacketSummary>): real {
    |w| as real / Seconds(w)
  }

  function ByteRate(w: seq<PacketSummary>): real {
    (TallyOf(w).bytesFwd + TallyOf(w).bytesBwd) as real / Seconds(w)
  }

  function DirectionRatio(w: seq<PacketSummary>): real {
    TallyOf(w).packetsFwd as real / Max(TallyOf(w).packetsBwd as real, 1.0)
  }

  function FlagRatio(flagged: nat, w: seq<PacketSummary>): real {
    flagged as real / CountOf(w)
  }

  function MeanInterval(w: seq<PacketSummary>): real {
    var gaps := Gaps(Sorted(Timestamps(w)));
    if gaps == [] then 0.0 else Sum(gaps) / |gaps| as real
  }

  function IntervalVariance(w: seq<PacketSummary>): real {
    var gaps := Gaps(Sorted(Timestamps(w)));
    if gaps == [] then 0.0 else Max(RawVariance(|gaps| as real, Sum(gaps), SumSq(gaps)), 0.0)
  }

  /** The features of a flow as a function of its key and the packets seen since its admission. */
  function MetricsOf(key: FlowKey, hist: seq<PacketSummary>): FlowMetrics {
    var w := Window(hist);
    var t := TallyOf(w);
    FlowMetrics(
      key.ipMin, key.ipMax, key.portMin, key.portMax, key.protocol, key,
      Wrap64(|hist|), MeanLength(w), LengthVariance(w), PacketRate(w), ByteRate(w), DirectionRatio(w),
      FlagRatio(t.syn, w), FlagRatio(t.rst, w), FlagRatio(t.fin, w), FlagRatio(t.psh, w), FlagRatio(t.ack, w),
      MeanInterval(w), IntervalVariance(w))
  }

  lemma {:induction false} LengthSums(w: seq<PacketSummary>)
    ensures Sum(Lengths(w)) == TallyOf(w).sumLen as real
    ensures SumSq(Lengths(w)) == TallyOf(w).sumLenSq as real
  {
    hide *;
    if w == [] {
      EmptySums(0.0);
      EmptyTally(w);
    } else {
      var front, p := w[..|w| - 1], w[|w| - 1];
      assert w == front + [p];
      LengthSums(front);
      LengthsAppend(front, p);
      SumsAppend(Lengths(front), p.len as real);
      TallyBack(front, p);
      LengthOfPlus(TallyOf(front), p);
      SquareAsReal(p.len);
    }
  }

  lemma {:induction false} EmptyTally(w: seq<PacketSummary>)
    requires w == []
    ensures TallyOf(w) == ZERO_TALLY && ZERO_TALLY.sumLen == ZERO_TALLY.sumLenSq == 0 && Lengths(w) == []
  {
  }

  lemma LengthsAppend(w: seq<PacketSummary>, p: PacketSummary)
    ensures Lengths(w + [p]) == Lengths(w) + [p.len as real]
  {
  }

  lemma LengthOfPlus(t: Tally, p: PacketSummary)
    ensures t.Plus(Single(p)).sumLen == t.sumLen + p.len
    ensures t.Plus(Single(p)).sumLenSq == t.sumLenSq + p.len * p.len
  {
  }

  lemma SquareAsReal(n: nat)
    ensures (n * n) as real == n as real * n as real
  {
  }

  /** The reported length variance is the population variance of the window (from squared pairwise
      differences, hence never negative) exactly when the squares fit in 64 bits or all lengths agree;
      otherwise it is too small. */
  lemma {:induction false} LengthVarianceExactIff(w: seq<PacketSummary>)
    requires w != []
    ensures LengthVariance(w) == PairSq(Lengths(w)) / Square(|w| as real) <==>
            TallyOf(w).sumLenSq < U64_LIMIT || AllEqual(Lengths(w))
    ensures 0.0 <= LengthVariance(w) <= PairSq(Lengths(w)) / Square(|w| as real)
    ensures PairSq(Lengths(w)) / Square(|w| as real) == 0.0 <==> AllEqual(Lengths(w))
  {
    var n, q := |w| as real, TallyOf(w).sumLenSq;
    LengthSums(w);
    VarianceIsPairwise(Lengths(w));
    SignOfQuotient(PairSq(Lengths(w)), Square(n));
    WrapLoss(q);
    VarianceShift(n, Sum(Lengths(w)), q as real, (q - Wrap64(q)) as real);
  }

  /** Outside that condition the report is wrong: 127 packets of the greatest length and an empty one wrap the sum
      of squares, and the reported variance is too small. */
  lemma {:induction false} WrappedVarianceIsTooSmall(p: PacketSummary, z: PacketSummary)
    requires p.len == 0xFFFF_FFFF && z.len == 0
    ensures var w := Window(seq(WINDOW_SIZE - 1, _ => p) + [z]);
            LengthVariance(w) < PairSq(Lengths(w)) / Square(|w| as real)
  {
    hide TallyOf, PairSq, LengthVariance, Square;
    var full := seq(WINDOW_SIZE - 1, _ => p);
    var w := Window(full + [z]);
    assert w == full + [z];
    ConstantSquares(p, WINDOW_SIZE - 1);
    TallyBack(full, z);
    LengthOfPlus(TallyOf(full), z);
    assert Lengths(w)[0] == p.len as real && Lengths(w)[WINDOW_SIZE - 1] == 0.0;
    LengthVarianceExactIff(w);
  }

  lemma WrapLoss(q: nat)
    ensures Wrap64(q) <= q
    ensures Wrap64(q) == q <==> q < U64_LIMIT
  {
  }

  lemma VarianceShift(n: real, s: real, q: real, lost: real)
    requires n > 0.0 && lost >= 0.0
    ensures RawVariance(n, s, q - lost) <= RawVariance(n, s, q)
    ensures RawVariance(n, s, q - lost) == RawVariance(n, s, q) <==> lost == 0.0
  {
    SignOfQuotient(lost, n);
    QuotientIs(q / n - lost / n, n, q - lost);
  }

  lemma {:induction false} GapsTelescope(ts: seq<real>)
    requires ts != []
    ensures Sum(Gaps(ts)) == ts[|ts| - 1] - ts[0]
  {
    if |ts| > 1 {
      GapsTelescope(ts[..|ts| - 1]);
      assert Gaps(ts)[..|ts| - 2] == Gaps(ts[..|ts| - 1]);
    }
  }

  /** Whatever order timestamps arrive in, the inter-arrival gaps are non-negative and their mean is the span
      of the window over their number. */
  lemma {:induction false} IntervalsMeasureTheSpan(w: seq<PacketSummary>, lo: real, hi: real)
    requires |w| > 1
    requires lo in Timestamps(w) && hi in Timestamps(w) && forall t :: t in Timestamps(w) ==> lo <= t <= hi
    ensures forall g :: g in Gaps(Sorted(Timestamps(w))) ==> g >= 0.0
    ensures Sum(Gaps(Sorted(Timestamps(w)))) == hi - lo
    ensures MeanInterval(w) == (hi - lo) / (|w| - 1) as real
  {
    var ts := Sorted(Timestamps(w));
    var gaps := Gaps(ts);
    forall i | 0 <= i < |gaps| ensures gaps[i] >= 0.0 {
      assert ts[i] <= ts[i + 1];
    }
    GapsTelescope(ts);
    SortedEnds(Timestamps(w), lo, hi);
  }

  /** The interval variance is the population variance of the gaps: its clamp is idle. */
  lemma {:induction false} IntervalVarianceIsExact(w: seq<PacketSummary>)
    requires |w| > 1
    ensures var gaps := Gaps(Sorted(Timestamps(w)));
            IntervalVariance(w) == PairSq(gaps) / Square(|gaps| as real)
  {
    ClampIsIdle(Gaps(Sorted(Timestamps(w))));
  }

  /** Bytes per second is mean length times packets per second, although the byte rate is computed from the
      two directional sums and the mean from the sum of lengths. */
  lemma {:induction false} ByteRateIsMeanTimesRate(w: seq<PacketSummary>)
    requires w != []
    ensures ByteRate(w) == MeanLength(w) * PacketRate(w)
  {
    hide TallyOf, Seconds;
    TallyBounds(w, 0xFFFF_FFFF);
    ProductOfRatios(TallyOf(w).sumLen as real, |w| as real, Seconds(w), MeanLength(w), PacketRate(w));
  }

  /** Every flag ratio is a fraction. */
  lemma {:induction false} FlagRatiosAreFractions(w: seq<PacketSummary>, flagged: nat)
    requires var t := TallyOf(w); flagged in {t.fin, t.syn, t.rst, t.psh, t.ack}
    ensures 0.0 <= FlagRatio(flagged, w) <= 1.0
  {
    TallyBounds(w, 0xFFFF_FFFF);
    Fraction(flagged as real, CountOf(w));
  }

  lemma ProductOfRatios(x: real, n: real, s: real, a: real, b: real)
    requires n > 0.0 && s > 0.0 && a == x / n && b == n / s
    ensures a * b == x / s
  {
    QuotientTimes(x, n, a);
    QuotientTimes(n, s, b);
    assert (a * b) * s == a * (b * s);
    QuotientIs(a * b, s, x);
  }

  lemma Fraction(x: real, n: real)
    requires 0.0 <= x <= n && n > 0.0
    ensures 0.0 <= x / n <= 1.0
  {
    assert x / n * n == x;
  }
}
