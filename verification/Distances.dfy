/**
 The distance kernels: an eight-lane loop and a scalar tail against the plain sums, and the cosine
 distance over normalized vectors.  Arithmetic is over exact reals.
 */
module Distances {
  import opened Core

  datatype Space = L2 | Ip | Cosine

  const NORM_EPSILON: real := 1.0 / 100000000000000000000000000000000.0
  const LANES := 8

  // ---------------------------------------------------------------------------------------------
  // Plain sums
  // ---------------------------------------------------------------------------------------------

  function Total(s: seq<real>): real {
    if s == [] then 0.0 else Total(s[..|s| - 1]) + s[|s| - 1]
  }

  /** The product of two reals, by name so that proofs can treat it as one symbol. */
  function Mul(x: real, y: real): real {
    x * y
  }

  function Products(a: Embedding, b: Embedding): (s: seq<real>)
    requires |a| == |b|
    ensures |s| == |a| && forall i :: 0 <= i < |s| ==> s[i] == Mul(a[i], b[i])
  {
    seq(|a|, i requires 0 <= i < |a| => Mul(a[i], b[i]))
  }

  function Differences(a: Embedding, b: Embedding): (s: Embedding)
    requires |a| == |b|
    ensures |s| == |a| && forall i :: 0 <= i < |s| ==> s[i] == a[i] - b[i]
  {
    seq(|a|, i requires 0 <= i < |a| => a[i] - b[i])
  }

  /** The dot product as one sum. */
  function DotSum(a: Embedding, b: Embedding): real
    requires |a| == |b|
  {
    Total(Products(a, b))
  }

  /** The squared Euclidean distance as one sum. */
  function SquaredSum(a: Embedding, b: Embedding): real
    requires |a| == |b|
  {
    DotSum(Differences(a, b), Differences(a, b))
  }

  lemma {:induction false} TotalConcat(s: seq<real>, t: seq<real>)
    ensures Total(s + t) == Total(s) + Total(t)
  {
    if t == [] {
      assert s + t == s;
    } else {
      assert (s + t)[..|s + t| - 1] == s + t[..|t| - 1];
      TotalConcat(s, t[..|t| - 1]);
    }
  }

  /** Adding two blocks lane by lane adds their totals. */
  lemma {:induction false} TotalLanes(s: seq<real>, t: seq<real>, u: seq<real>)
    requires |s| == |t| == |u|
    requires forall i :: 0 <= i < |s| ==> u[i] == s[i] + t[i]
    ensures Total(u) == Total(s) + Total(t)
  {
    if s != [] {
      var n := |s| - 1;
      TotalLanes(s[..n], t[..n], u[..n]);
    }
  }

  lemma {:induction false} TotalZeros(s: seq<real>)
    requires forall i :: 0 <= i < |s| ==> s[i] == 0.0
    ensures Total(s) == 0.0
  {
    if s != [] {
      TotalZeros(s[..|s| - 1]);
    }
  }

  lemma {:induction false} TotalScaled(s: seq<real>, t: seq<real>, c: real)
    requires |s| == |t| && forall i :: 0 <= i < |s| ==> t[i] == Mul(c, s[i])
    ensures Total(t) == Mul(c, Total(s))
  {
    if s != [] {
      var n := |s| - 1;
      TotalScaled(s[..n], t[..n], c);
      assert Total(t) == Mul(c, Total(s[..n])) + Mul(c, s[n]);
    }
  }

  lemma {:induction false} TotalNonNegative(s: seq<real>)
    requires forall i :: 0 <= i < |s| ==> s[i] >= 0.0
    ensures Total(s) >= 0.0
    ensures Total(s) == 0.0 ==> forall i :: 0 <= i < |s| ==> s[i] == 0.0
  {
    if s != [] {
      TotalNonNegative(s[..|s| - 1]);
    }
  }

  // ---------------------------------------------------------------------------------------------
  // The kernels
  // ---------------------------------------------------------------------------------------------

  /** One fused multiply-add on every lane. */
  function MulAdd(x: seq<real>, y: seq<real>, acc: seq<real>): (r: seq<real>)
    requires |x| == |y| == |acc|
    ensures |r| == |acc| && Total(r) == Total(acc) + DotSum(x, y)
  {
    var r := seq(|acc|, i requires 0 <= i < |acc| => acc[i] + Mul(x[i], y[i]));
    TotalLanes(acc, Products(x, y), r);
    r
  }

  /** The lane sum of eight lanes, in the order of a tree reduction. */
  function ReduceAdd(acc: seq<real>): (r: real)
    requires |acc| == LANES
    ensures r == Total(acc)
  {
    TotalConcat(acc[..4], acc[4..]);
    assert acc[..4] + acc[4..] == acc;
    TotalOfFour(acc[..4]);
    TotalOfFour(acc[4..]);
    (acc[0] + acc[1]) + (acc[2] + acc[3]) + ((acc[4] + acc[5]) + (acc[6] + acc[7]))
  }

  lemma TotalOfFour(s: seq<real>)
    requires |s| == 4
    ensures Total(s) == (s[0] + s[1]) + (s[2] + s[3])
  {
    assert Total(s[..3]) == Total(s[..3][..2]) + s[2];
    assert s[..3][..2] == s[..2];
    assert Total(s[..2]) == Total(s[..2][..1]) + s[1];
    assert s[..2][..1] == s[..1];
    assert Total(s[..1]) == Total(s[..1][..0]) + s[0];
  }

  lemma DotSumSplit(a: Embedding, b: Embedding, i: nat, j: nat)
    requires |a| == |b| && i <= j <= |a|
    ensures DotSum(a[..j], b[..j]) == DotSum(a[..i], b[..i]) + DotSum(a[i..j], b[i..j])
  {
    hide Mul;
    var p, q, r := Products(a[..j], b[..j]), Products(a[..i], b[..i]), Products(a[i..j], b[i..j]);
    forall k | 0 <= k < j
      ensures p[k] == (q + r)[k]
    {
      assert p[k] == Mul(a[k], b[k]);
      assert k >= i ==> r[k - i] == Mul(a[i..j][k - i], b[i..j][k - i]) && a[i..j][k - i] == a[k] && b[i..j][k - i] == b[k];
    }
    assert p == q + r;
    TotalConcat(Products(a[..i], b[..i]), Products(a[i..j], b[i..j]));
  }

  lemma DotSumNext(a: Embedding, b: Embedding, i: nat)
    requires |a| == |b| && i < |a|
    ensures DotSum(a[..i + 1], b[..i + 1]) == DotSum(a[..i], b[..i]) + Mul(a[i], b[i])
  {
    hide Mul;
    var p := Products(a[..i + 1], b[..i + 1]);
    var q := Products(a[..i], b[..i]);
    forall k | 0 <= k < i
      ensures p[k] == q[k]
    {
      assert p[k] == Mul(a[k], b[k]);
    }
    assert p[..i] == q;
    assert p[i] == Mul(a[i], b[i]);
  }

  method Dot(a: Embedding, b: Embedding) returns (sum: real)
    requires |a| == |b|
    ensures sum == DotSum(a, b)
  {
    hide Total, DotSum, Mul;
    var acc := seq(LANES, _ => 0.0);
    TotalZeros(acc);
    var chunks := |a| / LANES;
    EmptyDot(a, b);
    for i := 0 to chunks
      invariant |acc| == LANES && Total(acc) == DotSum(a[..i * 8], b[..i * 8])
    {
      DotSumSplit(a, b, i * 8, i * 8 + 8);
      acc := MulAdd(a[i * 8..i * 8 + 8], b[i * 8..i * 8 + 8], acc);
    }
    sum := ReduceAdd(acc);
    for i := chunks * 8 to |a|
      invariant sum == DotSum(a[..i], b[..i])
    {
      DotSumNext(a, b, i);
      sum := sum + Mul(a[i], b[i]);
    }
    assert a[..|a|] == a && b[..|b|] == b;
  }

  lemma EmptyDot(a: Embedding, b: Embedding)
    requires |a| == |b|
    ensures DotSum(a[..0], b[..0]) == 0.0
  {
  }

  method L2Squared(a: Embedding, b: Embedding) returns (sum: real)
    requires |a| == |b|
    ensures sum == SquaredSum(a, b)
  {
    hide Total, DotSum, Mul;
    ghost var w := Differences(a, b);
    var acc := seq(LANES, _ => 0.0);
    TotalZeros(acc);
    var chunks := |a| / LANES;
    EmptyDot(w, w);
    for i := 0 to chunks
      invariant |acc| == LANES && Total(acc) == DotSum(w[..i * 8], w[..i * 8])
    {
      var x := a[i * 8..i * 8 + 8];
      var y := b[i * 8..i * 8 + 8];
      var d := Differences(x, y);
      assert d == w[i * 8..i * 8 + 8];
      DotSumSplit(w, w, i * 8, i * 8 + 8);
      acc := MulAdd(d, d, acc);
    }
    sum := ReduceAdd(acc);
    for i := chunks * 8 to |a|
      invariant sum == DotSum(w[..i], w[..i])
    {
      DotSumNext(w, w, i);
      var d := a[i] - b[i];
      sum := sum + Mul(d, d);
    }
    assert w[..|w|] == w;
  }

  // ---------------------------------------------------------------------------------------------
  // What the sums mean
  // ---------------------------------------------------------------------------------------------

  lemma ProductSign(x: real, y: real)
    ensures x > 0.0 && y > 0.0 ==> Mul(x, y) > 0.0
    ensures x > 1.0 && y > 1.0 ==> Mul(x, y) > 1.0
    ensures 0.0 <= x <= 1.0 && 0.0 <= y <= 1.0 ==> 0.0 <= Mul(x, y) <= 1.0
    ensures x == 0.0 ==> Mul(x, y) == 0.0
    ensures Mul(-x, -y) == Mul(x, y)
  {
    if x > 1.0 && y > 1.0 {
      assert x * y > y;
    }
    if 0.0 <= x <= 1.0 && 0.0 <= y <= 1.0 {
      assert (1.0 - x) * y >= 0.0;
      assert (1.0 - x) * y == y - x * y;
    }
  }

  lemma SquareSign(x: real)
    ensures Mul(x, x) >= 0.0
    ensures x != 0.0 ==> Mul(x, x) > 0.0
    ensures Mul(x, x) <= 1.0 ==> -1.0 <= x <= 1.0
  {
    hide Mul;
    ProductSign(x, x);
    ProductSign(-x, -x);
  }

  lemma DotSelf(a: Embedding)
    ensures DotSum(a, a) >= 0.0
    ensures DotSum(a, a) == 0.0 ==> forall i :: 0 <= i < |a| ==> a[i] == 0.0
  {
    hide Mul;
    forall i | 0 <= i < |a|
      ensures Products(a, a)[i] >= 0.0 && (a[i] != 0.0 ==> Products(a, a)[i] > 0.0)
    {
      SquareSign(a[i]);
    }
    TotalNonNegative(Products(a, a));
  }

  function Quadratic(aa: real, ab: real, bb: real, c: real): real {
    aa - 2.0 * (c * ab) + c * (c * bb)
  }

  /** The squared distance of a from c times b, in terms of dot products. */
  lemma {:induction false} Expand(a: Embedding, b: Embedding, d: Embedding, c: real)
    requires |a| == |b| == |d| && forall i :: 0 <= i < |a| ==> d[i] == a[i] - Mul(c, b[i])
    ensures DotSum(d, d) == Quadratic(DotSum(a, a), DotSum(a, b), DotSum(b, b), c)
  {
    if a != [] {
      hide DotSum, Mul, Quadratic;
      var n := |a| - 1;
      Expand(a[..n], b[..n], d[..n], c);
      DotSumNext(a, a, n);
      DotSumNext(a, b, n);
      DotSumNext(b, b, n);
      DotSumNext(d, d, n);
      assert a[..n + 1] == a && b[..n + 1] == b && d[..n + 1] == d;
      ExpandStep(DotSum(a[..n], a[..n]), DotSum(a[..n], b[..n]), DotSum(b[..n], b[..n]), c, a[n], b[n]);
    }
  }

  lemma ExpandStep(aa: real, ab: real, bb: real, c: real, x: real, y: real)
    ensures Quadratic(aa, ab, bb, c) + Mul(x - Mul(c, y), x - Mul(c, y)) ==
            Quadratic(aa + Mul(x, x), ab + Mul(x, y), bb + Mul(y, y), c)
  {
    SquareOfDifference(x, y, c);
    Distribute(c, ab, x * y);
    Distribute(c, bb, y * y);
    Distribute(c, c * bb, c * (y * y));
  }

  lemma SquareOfDifference(x: real, y: real, c: real)
    ensures (x - c * y) * (x - c * y) == x * x - 2.0 * (c * (x * y)) + c * (c * (y * y))
  {
  }

  lemma Distribute(c: real, p: real, q: real)
    ensures c * (p + q) == c * p + c * q
  {
  }

  /** The two kernels fit together: the squared distance is both norms less twice the dot product. */
  lemma Polarization(a: Embedding, b: Embedding)
    requires |a| == |b|
    ensures SquaredSum(a, b) == DotSum(a, a) + DotSum(b, b) - 2.0 * DotSum(a, b)
  {
    Expand(a, b, Differences(a, b), 1.0);
  }

  /** The squared distance separates points. */
  lemma SquaredSumSeparates(a: Embedding, b: Embedding)
    requires |a| == |b|
    ensures SquaredSum(a, b) >= 0.0 && SquaredSum(a, b) == SquaredSum(b, a)
    ensures SquaredSum(a, b) == 0.0 <==> a == b
  {
    DotSelf(Differences(a, b));
    var p, q := Differences(a, b), Differences(b, a);
    forall i | 0 <= i < |a|
      ensures Products(p, p)[i] == Products(q, q)[i]
    {
      assert p[i] == -q[i];
      assert Mul(p[i], p[i]) == Mul(q[i], q[i]);
    }
    assert Products(p, p) == Products(q, q);
    if SquaredSum(a, b) == 0.0 {
      forall i | 0 <= i < |a|
        ensures a[i] == b[i]
      {
        assert Differences(a, b)[i] == 0.0;
      }
    }
    if a == b {
      TotalZeros(Products(Differences(a, b), Differences(a, b)));
    }
  }

  lemma CauchySchwarz(a: Embedding, b: Embedding)
    requires |a| == |b|
    ensures Mul(DotSum(a, b), DotSum(a, b)) <= Mul(DotSum(a, a), DotSum(b, b))
  {
    hide DotSum;
    var ab, bb := DotSum(a, b), DotSum(b, b);
    DotSelf(b);
    if bb == 0.0 {
      DotWithZero(a, b);
      assert ab == 0.0;
    } else {
      var c := ab / bb;
      var d := seq(|a|, i requires 0 <= i < |a| => a[i] - Mul(c, b[i]));
      Expand(a, b, d, c);
      DotSelf(d);
      Discriminant(DotSum(a, a), ab, bb, c);
    }
  }

  lemma DotWithZero(a: Embedding, b: Embedding)
    requires |a| == |b| && forall i :: 0 <= i < |b| ==> b[i] == 0.0
    ensures DotSum(a, b) == 0.0
  {
    TotalZeros(Products(a, b));
  }

  lemma Discriminant(aa: real, ab: real, bb: real, c: real)
    requires bb > 0.0 && c == ab / bb && aa - 2.0 * (c * ab) + c * (c * bb) >= 0.0
    ensures ab * ab <= aa * bb
  {
    assert c * bb == ab;
    assert aa >= c * ab;
    assert aa * bb >= (c * ab) * bb;
    assert (c * ab) * bb == ab * ab;
  }

  // ---------------------------------------------------------------------------------------------
  // Normalization and cosine distance
  // ---------------------------------------------------------------------------------------------

  /** n is the square root of v's dot product with itself. */
  ghost predicate IsNorm(n: real, v: Embedding) {
    n >= 0.0 && Mul(n, n) == DotSum(v, v)
  }

  function Scaled(v: Embedding, s: real): (r: Embedding)
    ensures |r| == |v| && forall i :: 0 <= i < |v| ==> r[i] == Mul(v[i], s)
  {
    seq(|v|, i requires 0 <= i < |v| => Mul(v[i], s))
  }

  /** `normalize`, given the norm. */
  function Normalize(v: Embedding, norm: real): (r: Embedding)
    requires norm >= 0.0
    ensures |r| == |v|
  {
    if norm <= NORM_EPSILON then v else Scaled(v, 1.0 / (norm + NORM_EPSILON))
  }

  lemma Regroup(x: real, y: real, s: real)
    ensures Mul(Mul(x, s), y) == Mul(s, Mul(x, y)) && Mul(x, Mul(y, s)) == Mul(s, Mul(x, y))
  {
  }

  lemma DotScaled(a: Embedding, b: Embedding, s: real)
    requires |a| == |b|
    ensures DotSum(Scaled(a, s), b) == Mul(s, DotSum(a, b))
    ensures DotSum(a, Scaled(b, s)) == Mul(s, DotSum(a, b))
  {
    hide Mul;
    var p, q, r := Products(a, b), Products(Scaled(a, s), b), Products(a, Scaled(b, s));
    forall i | 0 <= i < |a|
      ensures q[i] == Mul(s, p[i]) && r[i] == Mul(s, p[i])
    {
      Regroup(a[i], b[i], s);
      assert p[i] == Mul(a[i], b[i]) && q[i] == Mul(Mul(a[i], s), b[i]) && r[i] == Mul(a[i], Mul(b[i], s));
    }
    TotalScaled(p, q, s);
    TotalScaled(p, r, s);
  }

  lemma Shrinks(norm: real, s: real)
    requires norm > NORM_EPSILON && s == 1.0 / (norm + NORM_EPSILON)
    ensures 0.0 < s && 0.0 < s * norm < 1.0
    ensures s * (s * (norm * norm)) < 1.0
  {
    assert s * (norm + NORM_EPSILON) == 1.0;
    assert s > 0.0;
    var p := s * norm;
    assert p == 1.0 - s * NORM_EPSILON;
    assert s * (s * (norm * norm)) == p * p;
  }

  /** Normalizing never gives a norm above 1; the zero vector comes back unchanged. */
  lemma NormalizedNorm(v: Embedding, norm: real)
    requires IsNorm(norm, v)
    ensures 0.0 <= DotSum(Normalize(v, norm), Normalize(v, norm)) <= 1.0
    ensures norm == 0.0 ==> Normalize(v, norm) == v
  {
    hide DotSum;
    var r := Normalize(v, norm);
    DotSelf(r);
    if norm <= NORM_EPSILON {
      assert norm * norm <= 1.0 * norm;
    } else {
      var s := 1.0 / (norm + NORM_EPSILON);
      DotScaled(v, v, s);
      DotScaled(v, Scaled(v, s), s);
      Shrinks(norm, s);
    }
  }

  /** `distance`; the two norms are the square roots the cosine case takes. */
  function DistanceOf(space: Space, a: Embedding, b: Embedding, na: real, nb: real): real
    requires |a| == |b| && na >= 0.0 && nb >= 0.0
  {
    match space
    case L2 => SquaredSum(a, b)
    case Ip => 1.0 - DotSum(a, b)
    case Cosine => 1.0 - DotSum(Normalize(a, na), Normalize(b, nb))
  }

  method Distance(space: Space, a: Embedding, b: Embedding, na: real, nb: real) returns (d: real)
    requires |a| == |b| && IsNorm(na, a) && IsNorm(nb, b)
    ensures d == DistanceOf(space, a, b, na, nb)
  {
    match space
    case L2 => d := L2Squared(a, b);
    case Ip =>
      var p := Dot(a, b);
      d := 1.0 - p;
    case Cosine =>
      var p := Dot(Normalize(a, na), Normalize(b, nb));
      d := 1.0 - p;
  }

  /** Vectors of norm at most 1 have a dot product between -1 and 1. */
  lemma DotOfUnits(u: Embedding, w: Embedding)
    requires |u| == |w| && DotSum(u, u) <= 1.0 && DotSum(w, w) <= 1.0
    ensures -1.0 <= DotSum(u, w) <= 1.0
  {
    hide DotSum, Mul;
    CauchySchwarz(u, w);
    DotSelf(u);
    DotSelf(w);
    ProductSign(DotSum(u, u), DotSum(w, w));
    SquareSign(DotSum(u, w));
  }

  /** The cosine distance lies in [0, 2], and is 1 exactly when the vectors are orthogonal. */
  lemma CosineRange(a: Embedding, b: Embedding, na: real, nb: real)
    requires |a| == |b| && IsNorm(na, a) && IsNorm(nb, b)
    ensures 0.0 <= DistanceOf(Cosine, a, b, na, nb) <= 2.0
    ensures DistanceOf(Cosine, a, b, na, nb) == 1.0 <==> DotSum(a, b) == 0.0
  {
    hide DotSum;
    NormalizedNorm(a, na);
    NormalizedNorm(b, nb);
    DotOfUnits(Normalize(a, na), Normalize(b, nb));
    NormalizedDot(a, b, na, nb);
  }

  /** The factor normalization multiplies by. */
  function Factor(norm: real): (s: real)
    requires norm >= 0.0
    ensures s > 0.0
  {
    if norm <= NORM_EPSILON then 1.0 else 1.0 / (norm + NORM_EPSILON)
  }

  /** Normalizing only rescales the dot product, by a positive factor. */
  lemma NormalizedDot(a: Embedding, b: Embedding, na: real, nb: real)
    requires |a| == |b| && na >= 0.0 && nb >= 0.0
    ensures DotSum(Normalize(a, na), Normalize(b, nb)) == Factor(na) * (Factor(nb) * DotSum(a, b))
    ensures DotSum(Normalize(a, na), Normalize(b, nb)) == 0.0 <==> DotSum(a, b) == 0.0
  {
    hide DotSum;
    assert Normalize(a, na) == Scaled(a, Factor(na));
    assert Normalize(b, nb) == Scaled(b, Factor(nb));
    DotScaled(a, Scaled(b, Factor(nb)), Factor(na));
    DotScaled(a, b, Factor(nb));
  }

  // ---------------------------------------------------------------------------------------------
  // Lower distance means closer
  // ---------------------------------------------------------------------------------------------

  /** Squared distance: zero exactly between equal vectors, and otherwise what the norms leave of the dot product. */
  lemma L2Law(a: Embedding, b: Embedding, na: real, nb: real)
    requires |a| == |b| && na >= 0.0 && nb >= 0.0
    ensures DistanceOf(L2, a, b, na, nb) >= 0.0 && (DistanceOf(L2, a, b, na, nb) == 0.0 <==> a == b)
    ensures DistanceOf(L2, a, b, na, nb) == DotSum(a, a) + DotSum(b, b) - 2.0 * DotSum(a, b)
  {
    hide DotSum;
    SquaredSumSeparates(a, b);
    Polarization(a, b);
  }

  /** Inner product: the larger the dot product, the closer; zero exactly at a dot product of one. */
  lemma IpOrders(a: Embedding, b: Embedding, c: Embedding, na: real, nb: real, nc: real)
    requires |a| == |b| == |c| && na >= 0.0 && nb >= 0.0 && nc >= 0.0
    ensures DistanceOf(Ip, a, b, na, nb) <= DistanceOf(Ip, a, c, na, nc) <==> DotSum(a, b) >= DotSum(a, c)
    ensures DistanceOf(Ip, a, b, na, nb) == 0.0 <==> DotSum(a, b) == 1.0
  {
    hide DotSum;
  }

  lemma PositiveFactor(s: real, p: real, q: real)
    requires s > 0.0
    ensures Mul(s, p) >= Mul(s, q) <==> p >= q
    ensures Mul(s, p) > 0.0 <==> p > 0.0
  {
    if p > q {
      assert s * (p - q) > 0.0;
    } else if p < q {
      assert s * (q - p) > 0.0;
    }
    if p <= 0.0 {
      assert s * p <= 0.0;
    }
  }

  /** Cosine: below one exactly for a positive dot product, and ordered as the rescaled dot products are. */
  lemma CosineOrders(a: Embedding, b: Embedding, c: Embedding, na: real, nb: real, nc: real)
    requires |a| == |b| == |c| && na >= 0.0 && nb >= 0.0 && nc >= 0.0
    ensures DistanceOf(Cosine, a, b, na, nb) < 1.0 <==> DotSum(a, b) > 0.0
    ensures DistanceOf(Cosine, a, b, na, nb) <= DistanceOf(Cosine, a, c, na, nc) <==>
            Mul(Factor(nb), DotSum(a, b)) >= Mul(Factor(nc), DotSum(a, c))
  {
    hide DotSum, Mul, Normalize, Factor;
    RescaledDot(a, b, na, nb);
    RescaledDot(a, c, na, nc);
    var p, q := Mul(Factor(nb), DotSum(a, b)), Mul(Factor(nc), DotSum(a, c));
    PositiveFactor(Factor(na), p, q);
    PositiveFactor(Factor(nb), DotSum(a, b), 0.0);
  }

  lemma RescaledDot(a: Embedding, b: Embedding, na: real, nb: real)
    requires |a| == |b| && na >= 0.0 && nb >= 0.0
    ensures DotSum(Normalize(a, na), Normalize(b, nb)) == Mul(Factor(na), Mul(Factor(nb), DotSum(a, b)))
  {
    hide DotSum, Normalize, Factor;
    NormalizedDot(a, b, na, nb);
  }

  /** Between vectors that are rescaled, that order is the order of the dot products divided by the norms. */
  lemma CosineOrdersByNorm(a: Embedding, b: Embedding, c: Embedding, na: real, nb: real, nc: real)
    requires |a| == |b| == |c| && na >= 0.0 && nb > NORM_EPSILON && nc > NORM_EPSILON
    ensures DistanceOf(Cosine, a, b, na, nb) <= DistanceOf(Cosine, a, c, na, nc) <==>
            DotSum(a, b) / (nb + NORM_EPSILON) >= DotSum(a, c) / (nc + NORM_EPSILON)
  {
    hide DotSum, Normalize, DistanceOf;
    CosineOrders(a, b, c, na, nb, nc);
    Divides(DotSum(a, b), nb);
    Divides(DotSum(a, c), nc);
  }

  lemma Divides(p: real, norm: real)
    requires norm > NORM_EPSILON
    ensures Mul(Factor(norm), p) == p / (norm + NORM_EPSILON)
  {
  }
}
