/** Column means of a list of rows and the mean as the centre of least total squared distance. */
module Centroids {
  import opened Moments
  import opened Rff

  function Column(xs: seq<seq<real>>, i: nat): (c: seq<real>)
    requires forall k :: 0 <= k < |xs| ==> i < |xs[k]|
    ensures |c| == |xs|
  {
    seq(|xs|, k requires 0 <= k < |xs| => xs[k][i])
  }

  function MeanOf(c: seq<real>): real
    requires |c| > 0
  {
    Sum(c) / |c| as real
  }

  /** The mean of every column. */
  function Means(xs: seq<seq<real>>, d: nat): (means: seq<real>)
    requires |xs| > 0 && Rows(xs, d)
    ensures |means| == d && forall i :: 0 <= i < d ==> means[i] == MeanOf(Column(xs, i))
  {
    seq(d, i requires 0 <= i < d => MeanOf(Column(xs, i)))
  }

  /** Population variance of a column. */
  function VarianceOf(c: seq<real>): (v: real)
    requires |c| > 0
    ensures v >= 0.0
  {
    SignOfQuotient(SquaredOffsets(c, MeanOf(c)), |c| as real);
    SquaredOffsets(c, MeanOf(c)) / |c| as real
  }

  function StdDevs(e: Elementary, xs: seq<seq<real>>, d: nat): (r: seq<real>)
    requires |xs| > 0 && Rows(xs, d)
    ensures |r| == d && forall i :: 0 <= i < d ==> r[i] == Max(e.sqrt(VarianceOf(Column(xs, i))), STDDEV_FLOOR)
  {
    seq(d, i requires 0 <= i < d => Max(e.sqrt(VarianceOf(Column(xs, i))), STDDEV_FLOOR))
  }

  /** Sum of the squared distances, over the first m coordinates, of all rows to y. */
  function TotalUpTo(xs: seq<seq<real>>, y: seq<real>, m: nat): real
    requires m <= |y| && forall k :: 0 <= k < |xs| ==> m <= |xs[k]|
  {
    if xs == [] then 0.0 else TotalUpTo(xs[..|xs| - 1], y, m) + DistUpTo(xs[|xs| - 1], y, m)
  }

  function TotalDistance(xs: seq<seq<real>>, y: seq<real>): real
    requires Rows(xs, |y|)
  {
    TotalUpTo(xs, y, |y|)
  }

  /** The feature means and the centre of the projections are computed by the same two loops. */
  method ColumnMeans(xs: seq<seq<real>>, d: nat) returns (means: seq<real>)
    requires |xs| > 0 && Rows(xs, d)
    ensures means == Means(xs, d)
  {
    hide Sum;
    var sums := new real[d](_ => 0.0);
    NoRows();
    for k := 0 to |xs|
      invariant forall i :: 0 <= i < d ==> sums[i] == Sum(Column(xs[..k], i))
    {
      for i := 0 to d
        invariant forall l :: 0 <= l < i ==> sums[l] == Sum(Column(xs[..k + 1], l))
        invariant forall l :: i <= l < d ==> sums[l] == Sum(Column(xs[..k], l))
      {
        ColumnSum(xs, k, i);
        sums[i] := sums[i] + xs[k][i];
      }
    }
    assert xs[..|xs|] == xs;
    for i := 0 to d
      invariant forall l :: 0 <= l < i ==> sums[l] == MeanOf(Column(xs, l))
      invariant forall l :: i <= l < d ==> sums[l] == Sum(Column(xs, l))
    {
      sums[i] := sums[i] / |xs| as real;
    }
    means := sums[..];
  }

  /** The second pass of the trainers. */
  method ColumnDeviations(e: Elementary, xs: seq<seq<real>>, means: seq<real>) returns (stddevs: seq<real>)
    requires |xs| > 0 && Rows(xs, |means|) && means == Means(xs, |means|)
    ensures stddevs == StdDevs(e, xs, |means|)
  {
    hide SquaredOffsets, MeanOf, Square, Column;
    var d := |means|;
    var devs := new real[d](_ => 0.0);
    NoRows();
    for k := 0 to |xs|
      invariant forall i :: 0 <= i < d ==> devs[i] == SquaredOffsets(Column(xs[..k], i), means[i])
    {
      for i := 0 to d
        invariant forall l :: 0 <= l < i ==> devs[l] == SquaredOffsets(Column(xs[..k + 1], l), means[l])
        invariant forall l :: i <= l < d ==> devs[l] == SquaredOffsets(Column(xs[..k], l), means[l])
      {
        ColumnOffsets(xs, k, i, means[i]);
        var diff := xs[k][i] - means[i];
        var square := diff * diff;
        SquareIs(diff, square);
        devs[i] := devs[i] + square;
      }
    }
    assert xs[..|xs|] == xs;
    stddevs := Deviations(e, xs, means, devs[..]);
  }

  lemma SquareIs(x: real, square: real)
    requires square == x * x
    ensures Square(x) == square
  {
  }

  /** The square roots of the mean squared offsets, clamped from below. */
  method Deviations(e: Elementary, xs: seq<seq<real>>, means: seq<real>, offsets: seq<real>)
    returns (stddevs: seq<real>)
    requires |xs| > 0 && Rows(xs, |means|) && means == Means(xs, |means|) && |offsets| == |means|
    requires forall i :: 0 <= i < |means| ==> offsets[i] == SquaredOffsets(Column(xs, i), means[i])
    ensures stddevs == StdDevs(e, xs, |means|)
  {
    hide SquaredOffsets, MeanOf;
    var devs := new real[|means|](_ => 0.0);
    for i := 0 to |means|
      invariant forall l :: 0 <= l < i ==> devs[l] == Max(e.sqrt(VarianceOf(Column(xs, l))), STDDEV_FLOOR)
    {
      devs[i] := Max(e.sqrt(offsets[i] / |xs| as real), STDDEV_FLOOR);
    }
    stddevs := devs[..];
  }

  lemma {:induction false} NoRows()
    ensures forall i: nat :: Sum(Column([], i)) == 0.0
    ensures forall i: nat, y: real :: SquaredOffsets(Column([], i), y) == 0.0
  {
  }

  lemma ColumnAppend(xs: seq<seq<real>>, k: nat, i: nat)
    requires k < |xs| && forall l :: 0 <= l < |xs| ==> i < |xs[l]|
    ensures Column(xs[..k + 1], i) == Column(xs[..k], i) + [xs[k][i]]
  {
  }

  lemma {:induction false} ColumnSum(xs: seq<seq<real>>, k: nat, i: nat)
    requires k < |xs| && forall l :: 0 <= l < |xs| ==> i < |xs[l]|
    ensures Sum(Column(xs[..k + 1], i)) == Sum(Column(xs[..k], i)) + xs[k][i]
  {
    ColumnAppend(xs, k, i);
    SumsAppend(Column(xs[..k], i), xs[k][i]);
  }

  lemma {:induction false} ColumnOffsets(xs: seq<seq<real>>, k: nat, i: nat, y: real)
    requires k < |xs| && forall l :: 0 <= l < |xs| ==> i < |xs[l]|
    ensures SquaredOffsets(Column(xs[..k + 1], i), y)
            == SquaredOffsets(Column(xs[..k], i), y) + Square(xs[k][i] - y)
  {
    ColumnAppend(xs, k, i);
    OffsetsAppend(Column(xs[..k], i), xs[k][i], y);
  }

  /** Summing row by row or column by column gives the same total. */
  lemma {:induction false} TotalByColumns(xs: seq<seq<real>>, y: seq<real>, m: nat)
    requires m < |y| && forall k :: 0 <= k < |xs| ==> m < |xs[k]|
    ensures TotalUpTo(xs, y, m + 1) == TotalUpTo(xs, y, m) + SquaredOffsets(Column(xs, m), y[m])
  {
    if xs == [] {
      NoRows();
    } else {
      var init := xs[..|xs| - 1];
      TotalByColumns(init, y, m);
      assert xs[..|xs| - 1 + 1] == xs;
      ColumnOffsets(xs, |xs| - 1, m, y[m]);
    }
  }

  lemma {:induction false} NoCoordinates(xs: seq<seq<real>>, y: seq<real>)
    ensures TotalUpTo(xs, y, 0) == 0.0
  {
    if xs != [] {
      NoCoordinates(xs[..|xs| - 1], y);
    }
  }

  /** Offsets to any y exceed those to the mean by n times the squared distance between them. */
  lemma {:induction false} OffsetsAroundMean(c: seq<real>, y: real)
    requires |c| > 0
    ensures SquaredOffsets(c, y) == SquaredOffsets(c, MeanOf(c)) + |c| as real * Square(MeanOf(c) - y)
  {
    hide Sum, SumSq, SquaredOffsets;
    OffsetsExpand(c, y);
    OffsetsExpand(c, MeanOf(c));
    MeanStep(SumSq(c), Sum(c), |c| as real, MeanOf(c), y);
  }

  lemma MeanStep(q: real, s: real, n: real, mean: real, y: real)
    requires n != 0.0 && mean == s / n
    ensures q - 2.0 * y * s + n * (y * y) == q - 2.0 * mean * s + n * (mean * mean) + n * Square(mean - y)
  {
    QuotientTimes(s, n, mean);
    assert n * Square(mean - y) == n * (mean * mean) - 2.0 * y * (mean * n) + n * (y * y);
    assert 2.0 * mean * s == 2.0 * (n * (mean * mean));
  }

  lemma {:induction false} TotalAroundMeans(xs: seq<seq<real>>, y: seq<real>, m: nat)
    requires |xs| > 0 && Rows(xs, |y|) && m <= |y|
    ensures TotalUpTo(xs, y, m)
            == TotalUpTo(xs, Means(xs, |y|), m) + |xs| as real * DistUpTo(Means(xs, |y|), y, m)
  {
    hide TotalUpTo, Square, SquaredOffsets, MeanOf, Column;
    var c, n := Means(xs, |y|), |xs| as real;
    if m == 0 {
      NoCoordinates(xs, y);
      NoCoordinates(xs, c);
    } else {
      TotalAroundMeans(xs, y, m - 1);
      TotalByColumns(xs, y, m - 1);
      TotalByColumns(xs, c, m - 1);
      OffsetsAroundMean(Column(xs, m - 1), y[m - 1]);
      Distributes(n, DistUpTo(c, y, m - 1), Square(c[m - 1] - y[m - 1]));
    }
  }

  lemma Distributes(n: real, x: real, y: real)
    ensures n * (x + y) == n * x + n * y
  {
  }

  /** The total squared distance of the rows to any y is the total to their centroid plus n times the
      squared distance from the centroid to y; so the centroid is the one point that minimises it. */
  lemma {:induction false} CentroidMinimises(xs: seq<seq<real>>, y: seq<real>)
    requires |xs| > 0 && Rows(xs, |y|)
    ensures TotalDistance(xs, y)
            == TotalDistance(xs, Means(xs, |y|)) + |xs| as real * DistSq(Means(xs, |y|), y)
    ensures TotalDistance(xs, Means(xs, |y|)) <= TotalDistance(xs, y)
    ensures TotalDistance(xs, Means(xs, |y|)) == TotalDistance(xs, y) <==> y == Means(xs, |y|)
  {
    var c := Means(xs, |y|);
    TotalAroundMeans(xs, y, |y|);
    SignOfProduct(DistSq(c, y), |xs| as real);
    ZeroDistance(c, y, |y|);
    if DistSq(c, y) == 0.0 {
      assert c == y;
    }
  }

  lemma {:induction false} ZeroDistance(a: seq<real>, b: seq<real>, m: nat)
    requires m <= |a| && m <= |b|
    ensures DistUpTo(a, b, m) == 0.0 <==> forall j :: 0 <= j < m ==> a[j] == b[j]
  {
    if m > 0 {
      ZeroDistance(a, b, m - 1);
    }
  }

  function Origin(d: nat): seq<real> {
    seq(d, _ => 0.0)
  }

  /** Sum of the squared norms of the rows. */
  function TotalNorm(xs: seq<seq<real>>): real {
    if xs == [] then 0.0 else TotalNorm(xs[..|xs| - 1]) + NormSq(xs[|xs| - 1])
  }

  lemma {:induction false} DistanceToOrigin(a: seq<real>, m: nat)
    requires m <= |a|
    ensures DistUpTo(a, Origin(|a|), m) == NormUpTo(a, m)
  {
    if m > 0 {
      DistanceToOrigin(a, m - 1);
    }
  }

  lemma {:induction false} TotalToOrigin(xs: seq<seq<real>>, d: nat)
    requires Rows(xs, d)
    ensures TotalDistance(xs, Origin(d)) == TotalNorm(xs)
  {
    if xs != [] {
      TotalToOrigin(xs[..|xs| - 1], d);
      DistanceToOrigin(xs[|xs| - 1], d);
    }
  }

  /** Mean squared distance to the centroid == mean squared norm - squared norm of the centroid. */
  lemma {:induction false} MeanDistance(xs: seq<seq<real>>, d: nat)
    requires |xs| > 0 && Rows(xs, d)
    ensures TotalDistance(xs, Means(xs, d)) / |xs| as real
            == TotalNorm(xs) / |xs| as real - NormSq(Means(xs, d))
  {
    hide TotalUpTo, TotalNorm, DistUpTo, NormUpTo, Means;
    var c, n := Means(xs, d), |xs| as real;
    CentroidMinimises(xs, Origin(d));
    TotalToOrigin(xs, d);
    DistanceToOrigin(c, d);
    DivideOut(TotalNorm(xs), TotalDistance(xs, c), n, NormSq(c));
  }

  lemma DivideOut(a: real, b: real, n: real, x: real)
    requires n != 0.0 && a == b + n * x
    ensures b / n == a / n - x
  {
    var u, v := a / n, b / n;
    assert u * n == a && v * n == b;
    assert (u - v - x) * n == 0.0;
  }

  /** Column means of rows inside a cube stay inside it. */
  lemma {:induction false} MeansWithin(xs: seq<seq<real>>, d: nat, bound: real)
    requires |xs| > 0 && Rows(xs, d) && forall k :: 0 <= k < |xs| ==> Within(xs[k], bound)
    ensures Within(Means(xs, d), bound)
  {
    forall i | 0 <= i < d ensures -bound <= Means(xs, d)[i] <= bound {
      SumWithin(Column(xs, i), bound);
      MeanWithin(Sum(Column(xs, i)), |xs| as real, bound);
    }
  }

  lemma {:induction false} SumWithin(c: seq<real>, bound: real)
    requires Within(c, bound)
    ensures -(|c| as real * bound) <= Sum(c) <= |c| as real * bound
  {
    if c != [] {
      SumWithin(c[..|c| - 1], bound);
      OneMore(|c|, bound);
    }
  }

  lemma MeanWithin(s: real, n: real, bound: real)
    requires n > 0.0 && -(n * bound) <= s <= n * bound
    ensures -bound <= s / n <= bound
  {
    var mean := s / n;
    QuotientTimes(s, n, mean);
    SignOfProduct(bound - mean, n);
    SignOfProduct(mean + bound, n);
  }

  /** What normalisation achieves for a column: the z-scores sum to zero, and their squares sum to the
      number of rows exactly when the deviation is not clamped, to less otherwise. */
  lemma {:induction false} ZScoresAreStandard(e: Elementary, c: seq<real>, z: seq<real>)
    requires e.Valid() && |z| == |c| > 0
    requires var sd := Max(e.sqrt(VarianceOf(c)), STDDEV_FLOOR);
             forall k :: 0 <= k < |c| ==> z[k] == (c[k] - MeanOf(c)) / sd
    ensures Sum(z) == 0.0
    ensures SumSq(z) * Square(Max(e.sqrt(VarianceOf(c)), STDDEV_FLOOR)) == |c| as real * Square(e.sqrt(VarianceOf(c)))
    ensures SumSq(z) <= |c| as real
    ensures SumSq(z) == |c| as real <==> e.sqrt(VarianceOf(c)) >= STDDEV_FLOOR
  {
    hide Sum, SumSq, SquaredOffsets;
    var n, mean, root := |c| as real, MeanOf(c), e.sqrt(VarianceOf(c));
    var sd := Max(root, STDDEV_FLOOR);
    ScaledSums(c, z, mean, sd, |c|);
    assert c[..|c|] == c && z[..|z|] == z;
    QuotientTimes(Sum(c), n, mean);
    SignOfProduct(Sum(z), sd);
    var v := VarianceOf(c);
    QuotientTimes(SquaredOffsets(c, mean), n, v);
    StandardStep(SumSq(z), n, v, root, sd);
  }

  lemma {:induction false} ScaledSums(c: seq<real>, z: seq<real>, mean: real, sd: real, m: nat)
    requires |z| == |c| && m <= |c| && sd > 0.0
    requires forall k :: 0 <= k < |c| ==> z[k] == (c[k] - mean) / sd
    ensures Sum(z[..m]) * sd == Sum(c[..m]) - m as real * mean
    ensures SumSq(z[..m]) * Square(sd) == SquaredOffsets(c[..m], mean)
  {
    hide *;
    if m == 0 {
      EmptySums(mean);
      assert c[..0] == [] && z[..0] == [];
    } else {
      ScaledSums(c, z, mean, sd, m - 1);
      assert c[..m] == c[..m - 1] + [c[m - 1]] && z[..m] == z[..m - 1] + [z[m - 1]];
      SumsAppend(c[..m - 1], c[m - 1]);
      SumsAppend(z[..m - 1], z[m - 1]);
      OffsetsAppend(c[..m - 1], c[m - 1], mean);
      ScaledStep(z[..m - 1], z[m - 1], c[m - 1] - mean, sd);
      OneMore(m, mean);
    }
  }

  lemma {:induction false} ScaledStep(zs: seq<real>, z: real, offset: real, sd: real)
    requires sd > 0.0 && z == offset / sd
    ensures (Sum(zs) + z) * sd == Sum(zs) * sd + offset
    ensures (SumSq(zs) + z * z) * Square(sd) == SumSq(zs) * Square(sd) + offset * offset
  {
    hide Sum, SumSq;
    QuotientTimes(offset, sd, z);
    ScaledSquare(z, sd, offset);
    Distributes(sd, Sum(zs), z);
    Distributes(Square(sd), SumSq(zs), z * z);
  }

  lemma ScaledSquare(z: real, sd: real, offset: real)
    requires z * sd == offset
    ensures Square(sd) * (z * z) == offset * offset
  {
    assert (z * z) * (sd * sd) == (z * sd) * (z * sd);
  }

  lemma StandardStep(q: real, n: real, v: real, root: real, sd: real)
    requires n > 0.0 && q >= 0.0 && root >= 0.0 && v == Square(root) && sd == Max(root, STDDEV_FLOOR)
    requires q * Square(sd) == v * n
    ensures q <= n && (q == n <==> root >= STDDEV_FLOOR)
  {
    var d := Square(sd);
    assert d > 0.0;
    SignOfProduct(n - q, d);
    assert (n - q) * d == (d - v) * n by {
      assert (n - q) * d == n * d - q * d;
    }
    SignOfProduct(d - v, n);
    SquareOrder(root, sd);
  }

  lemma SquareOrder(x: real, y: real)
    requires 0.0 <= x <= y
    ensures Square(x) <= Square(y) && (Square(x) == Square(y) <==> x == y)
  {
    if x < y {
      assert Square(y) - Square(x) == (y - x) * (y + x);
      SignOfProduct(y - x, y + x);
    }
  }
}
