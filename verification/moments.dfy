/** Sums over real sequences and the pairwise form of the variance. */
module Moments {

  function Sum(xs: seq<real>): real {
    if xs == [] then 0.0 else Sum(xs[..|xs| - 1]) + xs[|xs| - 1]
  }

  function SumSq(xs: seq<real>): real {
    if xs == [] then 0.0 else SumSq(xs[..|xs| - 1]) + xs[|xs| - 1] * xs[|xs| - 1]
  }

  function Max(a: real, b: real): real {
    if a >= b then a else b
  }

  /** Sum of (x - y)^2 over the elements x of xs. */
  function SquaredOffsets(xs: seq<real>, y: real): (r: real)
    ensures r >= 0.0
  {
    if xs == [] then 0.0 else SquaredOffsets(xs[..|xs| - 1], y) + Square(xs[|xs| - 1] - y)
  }

  /** Sum of (x - y)^2 over all unordered pairs of positions of xs. */
  function PairSq(xs: seq<real>): (r: real)
    ensures r >= 0.0
  {
    if xs == [] then 0.0 else PairSq(xs[..|xs| - 1]) + SquaredOffsets(xs[..|xs| - 1], xs[|xs| - 1])
  }

  function Square(x: real): (r: real)
    ensures r >= 0.0
    ensures r == 0.0 <==> x == 0.0
  {
    SignOfSquare(x);
    x * x
  }

  predicate AllEqual<T(==)>(xs: seq<T>) {
    forall i, j :: 0 <= i < j < |xs| ==> xs[i] == xs[j]
  }

  /** The three sums, one element at a time. */
  lemma {:induction false} SumsAppend(xs: seq<real>, x: real)
    ensures Sum(xs + [x]) == Sum(xs) + x
    ensures SumSq(xs + [x]) == SumSq(xs) + x * x
    ensures PairSq(xs + [x]) == PairSq(xs) + SquaredOffsets(xs, x)
  {
    assert (xs + [x])[..|xs|] == xs;
  }

  lemma {:induction false} OffsetsAppend(xs: seq<real>, x: real, y: real)
    ensures SquaredOffsets(xs + [x], y) == SquaredOffsets(xs, y) + (x - y) * (x - y)
  {
    assert (xs + [x])[..|xs|] == xs;
  }

  lemma {:induction false} EmptySums(y: real)
    ensures Sum([]) == SumSq([]) == PairSq([]) == SquaredOffsets([], y) == 0.0
  {
  }

  lemma {:induction false} OffsetsExpand(xs: seq<real>, y: real)
    ensures SquaredOffsets(xs, y) == SumSq(xs) - 2.0 * y * Sum(xs) + |xs| as real * (y * y)
  {
    hide *;
    if xs == [] {
      EmptySums(y);
    } else {
      var ys, x := xs[..|xs| - 1], xs[|xs| - 1];
      assert xs == ys + [x];
      OffsetsExpand(ys, y);
      SumsAppend(ys, x);
      OffsetsAppend(ys, x, y);
      ExpandStep(SumSq(ys), Sum(ys), |ys| as real, x, y);
    }
  }

  lemma ExpandStep(q: real, s: real, n: real, x: real, y: real)
    ensures (q - 2.0 * y * s + n * (y * y)) + (x - y) * (x - y)
            == (q + x * x) - 2.0 * y * (s + x) + (n + 1.0) * (y * y)
  {
    assert (x - y) * (x - y) == x * x - 2.0 * y * x + y * y;
    assert 2.0 * y * (s + x) == 2.0 * y * s + 2.0 * y * x;
    assert (n + 1.0) * (y * y) == n * (y * y) + y * y;
  }

  /** n * q - s^2, for a count n, a sum of squares q and a sum s. */
  function Spread(n: real, q: real, s: real): real {
    n * q - s * s
  }

  /** n * sum(x^2) - (sum x)^2 is the sum of squared differences over pairs (Lagrange's identity),
      so it is never negative. */
  lemma {:induction false} PairIdentity(xs: seq<real>)
    ensures Spread(|xs| as real, SumSq(xs), Sum(xs)) == PairSq(xs)
  {
    hide *;
    if xs == [] {
      EmptySums(0.0);
      SpreadOfNothing();
    } else {
      var ys, x := xs[..|xs| - 1], xs[|xs| - 1];
      assert xs == ys + [x];
      PairIdentity(ys);
      SumsAppend(ys, x);
      OffsetsExpand(ys, x);
      PairStep(|ys| as real, SumSq(ys), Sum(ys), x, PairSq(ys), SquaredOffsets(ys, x));
    }
  }

  lemma SpreadOfNothing()
    ensures Spread(0.0, 0.0, 0.0) == 0.0
  {
  }

  lemma PairStep(n: real, q: real, s: real, x: real, pairs: real, offsets: real)
    requires Spread(n, q, s) == pairs && offsets == q - 2.0 * x * s + n * (x * x)
    ensures Spread(n + 1.0, q + x * x, s + x) == pairs + offsets
  {
    assert (n + 1.0) * (q + x * x) == n * q + n * (x * x) + q + x * x;
    assert (s + x) * (s + x) == s * s + 2.0 * x * s + x * x;
  }

  lemma {:induction false} OffsetsVanish(xs: seq<real>, y: real)
    ensures SquaredOffsets(xs, y) == 0.0 <==> forall i :: 0 <= i < |xs| ==> xs[i] == y
  {
    if xs != [] {
      OffsetsVanish(xs[..|xs| - 1], y);
      assert forall i :: 0 <= i < |xs| - 1 ==> xs[..|xs| - 1][i] == xs[i];
    }
  }

  lemma {:induction false} PairSqVanishes(xs: seq<real>)
    ensures PairSq(xs) == 0.0 <==> AllEqual(xs)
  {
    if xs != [] {
      var ys, x := xs[..|xs| - 1], xs[|xs| - 1];
      PairSqVanishes(ys);
      OffsetsVanish(ys, x);
      if AllEqual(xs) {
        assert forall i :: 0 <= i < |ys| ==> ys[i] == xs[i] == x;
      }
    }
  }

  /** sum(x^2)/n - (sum(x)/n)^2 equals the pairwise form over n^2. */
  lemma {:induction false} VarianceIsPairwise(xs: seq<real>)
    requires |xs| > 0
    ensures PairSq(xs) == 0.0 <==> AllEqual(xs)
    ensures RawVariance(|xs| as real, Sum(xs), SumSq(xs)) == PairSq(xs) / Square(|xs| as real)
  {
    PairSqVanishes(xs);
    PairIdentity(xs);
    var n, s, q, p := |xs| as real, Sum(xs), SumSq(xs), PairSq(xs);
    VarianceStep(n, s, q, p);
  }

  /** The rolling form of the variance from the count, the sum and the sum of squares. */
  function RawVariance(n: real, s: real, q: real): real
    requires n > 0.0
  {
    q / n - (s / n) * (s / n)
  }

  /** Over the reals the clamp at zero never changes a variance. */
  lemma {:induction false} ClampIsIdle(xs: seq<real>)
    requires |xs| > 0
    ensures Max(RawVariance(|xs| as real, Sum(xs), SumSq(xs)), 0.0) == PairSq(xs) / Square(|xs| as real)
  {
    VarianceIsPairwise(xs);
    SignOfQuotient(PairSq(xs), Square(|xs| as real));
  }

  lemma VarianceStep(n: real, s: real, q: real, p: real)
    requires n > 0.0 && Spread(n, q, s) == p
    ensures RawVariance(n, s, q) == p / Square(n)
  {
    var mean, e, d := s / n, q / n, Square(n);
    assert mean * n == s && e * n == q;
    assert s * s == Square(mean) * d by {
      assert (mean * n) * (mean * n) == (mean * mean) * (n * n);
    }
    assert n * q == e * d;
    assert (e - Square(mean)) * d == p;
    QuotientIs(e - Square(mean), d, p);
  }

  lemma QuotientIs(x: real, d: real, p: real)
    requires d != 0.0 && x * d == p
    ensures p / d == x
  {
  }

  lemma QuotientTimes(x: real, n: real, m: real)
    requires n != 0.0 && m == x / n
    ensures m * n == x
  {
  }

  lemma SignOfQuotient(p: real, d: real)
    requires d > 0.0
    ensures p >= 0.0 ==> p / d >= 0.0
    ensures p / d == 0.0 <==> p == 0.0
  {
    var x := p / d;
    assert x * d == p;
    SignOfProduct(x, d);
  }

  lemma SignOfProduct(x: real, d: real)
    requires d > 0.0
    ensures x < 0.0 <==> x * d < 0.0
    ensures x == 0.0 <==> x * d == 0.0
  {
  }

  lemma SignOfSquare(x: real)
    ensures x * x >= 0.0
    ensures x * x == 0.0 <==> x == 0.0
  {
    if x > 0.0 { SignOfProduct(x, x); }
    if x < 0.0 { SignOfProduct(x, -x); }
  }
}
