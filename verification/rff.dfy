/** Random Fourier features: normalised inputs, their projections, and distances between projections. */
module Rff {
  import opened Moments

  const STDDEV_FLOOR: real := 0.0000001

  /** The square root and cosine of the platform; both values stay real numbers here. */
  datatype Elementary = Elementary(sqrt: real -> real, cos: real -> real) {
    ghost predicate Valid() {
      && (forall v :: v >= 0.0 ==> sqrt(v) >= 0.0 && Square(sqrt(v)) == v)
      && (forall v :: -1.0 <= cos(v) <= 1.0)
    }

    function Scale(dimension: nat): real
      requires dimension > 0
    {
      sqrt(2.0 / dimension as real)
    }
  }

  /** The random matrix and bias vector of one model. */
  datatype Projection = Projection(wMatrix: seq<seq<real>>, bVector: seq<real>) {
    predicate Shaped(features: nat) {
      |wMatrix| == |bVector| > 0 && Rows(wMatrix, features)
    }
  }

  predicate Rows(xs: seq<seq<real>>, d: nat) {
    forall k :: 0 <= k < |xs| ==> |xs[k]| == d
  }

  predicate Within(a: seq<real>, bound: real) {
    forall j :: 0 <= j < |a| ==> -bound <= a[j] <= bound
  }

  /** Inner product of the first m coordinates. */
  function DotUpTo(a: seq<real>, b: seq<real>, m: nat): real
    requires m <= |a| && m <= |b|
  {
    if m == 0 then 0.0 else DotUpTo(a, b, m - 1) + a[m - 1] * b[m - 1]
  }

  /** Squared Euclidean distance over the first m coordinates. */
  function DistUpTo(a: seq<real>, b: seq<real>, m: nat): (r: real)
    requires m <= |a| && m <= |b|
    ensures r >= 0.0
  {
    if m == 0 then 0.0 else DistUpTo(a, b, m - 1) + Square(a[m - 1] - b[m - 1])
  }

  function DistSq(a: seq<real>, b: seq<real>): (r: real)
    requires |a| == |b|
    ensures r >= 0.0
  {
    DistUpTo(a, b, |a|)
  }

  /** Squared norm of the first m coordinates. */
  function NormUpTo(a: seq<real>, m: nat): (r: real)
    requires m <= |a|
    ensures r >= 0.0
  {
    if m == 0 then 0.0 else NormUpTo(a, m - 1) + Square(a[m - 1])
  }

  function NormSq(a: seq<real>): (r: real)
    ensures r >= 0.0
  {
    NormUpTo(a, |a|)
  }

  /** z-scores. */
  function Normalized(x: seq<real>, means: seq<real>, stddevs: seq<real>): (z: seq<real>)
    requires |x| == |means| == |stddevs| && forall i :: 0 <= i < |x| ==> stddevs[i] != 0.0
    ensures |z| == |x|
  {
    seq(|x|, i requires 0 <= i < |x| => (x[i] - means[i]) / stddevs[i])
  }

  function Clamped(stddevs: seq<real>): (r: seq<real>)
    ensures |r| == |stddevs| && forall i :: 0 <= i < |r| ==> r[i] > 0.0
  {
    seq(|stddevs|, i requires 0 <= i < |stddevs| => Max(stddevs[i], STDDEV_FLOOR))
  }

  /** sqrt(2/D) * cos(W z + b), coordinate by coordinate. */
  function Coordinate(e: Elementary, p: Projection, z: seq<real>, j: nat): real
    requires p.Shaped(|z|) && j < |p.bVector|
  {
    e.Scale(|p.bVector|) * e.cos(DotUpTo(p.wMatrix[j], z, |z|) + p.bVector[j])
  }

  function Projected(e: Elementary, p: Projection, z: seq<real>): (phi: seq<real>)
    requires p.Shaped(|z|)
    ensures |phi| == |p.bVector|
  {
    seq(|p.bVector|, j requires 0 <= j < |p.bVector| => Coordinate(e, p, z, j))
  }

  method Dot(a: seq<real>, b: seq<real>) returns (sum: real)
    requires |a| == |b|
    ensures sum == DotUpTo(a, b, |a|)
  {
    sum := 0.0;
    for i := 0 to |a|
      invariant sum == DotUpTo(a, b, i)
    {
      sum := sum + a[i] * b[i];
    }
  }

  /** The projection loops of the trainers and of both classifiers. */
  method ProjectFeatures(e: Elementary, p: Projection, z: seq<real>) returns (phi: seq<real>)
    requires p.Shaped(|z|)
    ensures phi == Projected(e, p, z)
  {
    hide DotUpTo;
    var d := |p.bVector|;
    var scale := e.Scale(d);
    var projected := new real[d](_ => 0.0);
    for j := 0 to d
      invariant forall l :: 0 <= l < j ==> projected[l] == Coordinate(e, p, z, l)
    {
      var proj := Dot(p.wMatrix[j], z);
      proj := proj + p.bVector[j];
      projected[j] := scale * e.cos(proj);
    }
    phi := projected[..];
  }

  method NormalizeFeatures(x: seq<real>, means: seq<real>, stddevs: seq<real>) returns (z: seq<real>)
    requires |x| == |means| == |stddevs|
    ensures z == Normalized(x, means, Clamped(stddevs))
  {
    var scores := new real[|x|](_ => 0.0);
    for i := 0 to |x|
      invariant forall l :: 0 <= l < i ==> scores[l] == (x[l] - means[l]) / Max(stddevs[l], STDDEV_FLOOR)
    {
      scores[i] := (x[i] - means[i]) / Max(stddevs[i], STDDEV_FLOOR);
    }
    z := scores[..];
  }

  /** The clamp in the classifier repeats the clamp of the trainer and changes nothing. */
  lemma ClampIsIdempotent(stddevs: seq<real>)
    requires forall i :: 0 <= i < |stddevs| ==> stddevs[i] >= STDDEV_FLOOR
    ensures Clamped(stddevs) == stddevs
  {
  }

  /** ||a - b||^2 == ||a||^2 - 2<b, a> + ||b||^2. */
  lemma {:induction false} DistanceExpands(a: seq<real>, b: seq<real>, m: nat)
    requires m <= |a| && m <= |b|
    ensures DistUpTo(a, b, m) == NormUpTo(a, m) - 2.0 * DotUpTo(b, a, m) + NormUpTo(b, m)
  {
    if m > 0 {
      DistanceExpands(a, b, m - 1);
      SquareOfDifference(a[m - 1], b[m - 1]);
    }
  }

  lemma SquareOfDifference(x: real, y: real)
    ensures Square(x - y) == Square(x) - 2.0 * (y * x) + Square(y)
  {
  }

  lemma SquareWithin(x: real, bound: real)
    requires -bound <= x <= bound
    ensures Square(x) <= Square(bound)
  {
    SignOfProductOfSigns(bound - x, bound + x);
    assert (bound - x) * (bound + x) == bound * bound - x * x;
  }

  lemma SignOfProductOfSigns(x: real, y: real)
    requires x >= 0.0 && y >= 0.0
    ensures x * y >= 0.0
  {
  }

  lemma {:induction false} NormWithin(a: seq<real>, bound: real, m: nat)
    requires m <= |a| && Within(a, bound)
    ensures NormUpTo(a, m) <= m as real * Square(bound)
  {
    if m > 0 {
      NormWithin(a, bound, m - 1);
      SquareWithin(a[m - 1], bound);
      OneMore(m, Square(bound));
    }
  }

  lemma {:induction false} DistanceWithin(a: seq<real>, b: seq<real>, bound: real, m: nat)
    requires m <= |a| && m <= |b| && Within(a, bound) && Within(b, bound)
    ensures DistUpTo(a, b, m) <= m as real * (4.0 * Square(bound))
  {
    if m > 0 {
      DistanceWithin(a, b, bound, m - 1);
      SquareWithin(a[m - 1] - b[m - 1], 2.0 * bound);
      SquareOfTwice(bound);
      OneMore(m, 4.0 * Square(bound));
    }
  }

  lemma SquareOfTwice(x: real)
    ensures Square(2.0 * x) == 4.0 * Square(x)
  {
  }

  lemma OneMore(m: nat, x: real)
    requires m > 0
    ensures (m - 1) as real * x + x == m as real * x
  {
    assert (m - 1) as real == m as real - 1.0;
  }

  /** D coordinates bounded by the scale: D * scale^2 is 2. */
  lemma ScaleSquared(e: Elementary, dimension: nat)
    requires e.Valid() && dimension > 0
    ensures e.Scale(dimension) >= 0.0
    ensures dimension as real * Square(e.Scale(dimension)) == 2.0
  {
    var v := 2.0 / dimension as real;
    assert v * dimension as real == 2.0;
    assert v >= 0.0 by { SignOfQuotient(2.0, dimension as real); }
    assert e.sqrt(v) >= 0.0 && Square(e.sqrt(v)) == v;
  }

  lemma CoordinateWithin(e: Elementary, p: Projection, z: seq<real>, j: nat)
    requires e.Valid() && p.Shaped(|z|) && j < |p.bVector|
    ensures -e.Scale(|p.bVector|) <= Coordinate(e, p, z, j) <= e.Scale(|p.bVector|)
  {
    var angle := DotUpTo(p.wMatrix[j], z, |z|) + p.bVector[j];
    CosineWithin(e, angle);
    ScaleSquared(e, |p.bVector|);
    ScaledWithin(e.Scale(|p.bVector|), e.cos(angle));
  }

  lemma CosineWithin(e: Elementary, angle: real)
    requires e.Valid()
    ensures -1.0 <= e.cos(angle) <= 1.0
  {
  }

  lemma ProjectedWithin(e: Elementary, p: Projection, z: seq<real>)
    requires e.Valid() && p.Shaped(|z|)
    ensures Within(Projected(e, p, z), e.Scale(|p.bVector|))
  {
    hide Coordinate, Elementary.Valid, Elementary.Scale;
    forall j | 0 <= j < |p.bVector|
      ensures -e.Scale(|p.bVector|) <= Coordinate(e, p, z, j) <= e.Scale(|p.bVector|)
    {
      CoordinateWithin(e, p, z, j);
    }
  }

  lemma ScaledWithin(s: real, c: real)
    requires s >= 0.0 && -1.0 <= c <= 1.0
    ensures -s <= s * c <= s
  {
    SignOfProductOfSigns(s, 1.0 - c);
    SignOfProductOfSigns(s, 1.0 + c);
    assert s * (1.0 - c) == s - s * c && s * (1.0 + c) == s + s * c;
  }

  /** A projection lies in the ball of squared radius 2. */
  lemma ProjectionNorm(e: Elementary, p: Projection, z: seq<real>)
    requires e.Valid() && p.Shaped(|z|)
    ensures NormSq(Projected(e, p, z)) <= 2.0
  {
    hide NormUpTo, Square, Projected, Within, Elementary.Scale, Elementary.Valid;
    ProjectedWithin(e, p, z);
    NormWithin(Projected(e, p, z), e.Scale(|p.bVector|), |p.bVector|);
    ScaleSquared(e, |p.bVector|);
  }

  lemma {:induction false} DotOfSix(a: seq<real>, b: seq<real>)
    requires 6 <= |a| && 6 <= |b|
    ensures DotUpTo(a, b, 6)
            == a[0] * b[0] + a[1] * b[1] + a[2] * b[2] + a[3] * b[3] + a[4] * b[4] + a[5] * b[5]
  {
    assert DotUpTo(a, b, 2) == DotUpTo(a, b, 1) + a[1] * b[1];
    assert DotUpTo(a, b, 4) == DotUpTo(a, b, 3) + a[3] * b[3];
  }

  lemma NormalizedAt(x: seq<real>, means: seq<real>, stddevs: seq<real>, i: nat)
    requires |x| == |means| == |stddevs| && i < |x|
    ensures Normalized(x, means, Clamped(stddevs))[i] == (x[i] - means[i]) / Max(stddevs[i], 0.0000001)
  {
  }
}
