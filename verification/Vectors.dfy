/** Cosine similarity and normalised L2 distance over exact reals (youmi/_vec_utils.py). */
module Vectors {

  function Dot(a: seq<real>, b: seq<real>): real
    requires |a| == |b|
  {
    if a == [] then 0.0 else Dot(a[..|a| - 1], b[..|b| - 1]) + a[|a| - 1] * b[|b| - 1]
  }

  /** norm is the Euclidean length of v: the square root is characterised, not computed. */
  predicate IsNorm(v: seq<real>, norm: real) {
    norm >= 0.0 && norm * norm == Dot(v, v)
  }

  function Scale(v: seq<real>, k: real): seq<real> {
    seq(|v|, i requires 0 <= i < |v| => v[i] * k)
  }

  /** normalize_vector: the zero vector is returned as it is. */
  function Normalize(v: seq<real>, norm: real): seq<real> {
    if v == [] || norm == 0.0 then v else Scale(v, 1.0 / norm)
  }

  function DistanceSquared(a: seq<real>, b: seq<real>): real
    requires |a| == |b|
  {
    if a == [] then 0.0
    else DistanceSquared(a[..|a| - 1], b[..|b| - 1]) + (a[|a| - 1] - b[|b| - 1]) * (a[|a| - 1] - b[|b| - 1])
  }

  predicate IsDistance(a: seq<real>, b: seq<real>, d: real)
    requires |a| == |b|
  {
    d >= 0.0 && d * d == DistanceSquared(a, b)
  }

  function L2ToCosine(d: real): real {
    1.0 - (d * d) / 2.0
  }

  /** cosine_to_l2 yields d for similarity s. */
  predicate IsCosineToL2(s: real, d: real) {
    d >= 0.0 && d * d == if 2.0 * (1.0 - s) < 0.0 then 0.0 else 2.0 * (1.0 - s)
  }

  /** cosine_similarity_python, given the two norms. */
  function Cosine(a: seq<real>, b: seq<real>, normA: real, normB: real): real {
    if a == [] || b == [] || |a| != |b| || normA == 0.0 || normB == 0.0 then 0.0
    else Dot(a, b) / (normA * normB)
  }

  // ---- Algebra ----

  lemma Product(x: real, y: real, p: real, q: real)
    ensures (x * p) * (y * q) == (p * q) * (x * y)
  {
    assert (x * p) * (y * q) == x * (p * (y * q)) == x * ((p * q) * y);
  }

  lemma {:induction false} DotScale(a: seq<real>, b: seq<real>, p: real, q: real)
    requires |a| == |b|
    ensures Dot(Scale(a, p), Scale(b, q)) == (p * q) * Dot(a, b)
  {
    if a != [] {
      var a', b' := a[..|a| - 1], b[..|b| - 1];
      var x, y := a[|a| - 1], b[|b| - 1];
      DotScale(a', b', p, q);
      ScaleInit(a, p);
      ScaleInit(b, q);
      Product(x, y, p, q);
      Distribute(p * q, Dot(a', b'), x * y);
    }
  }

  lemma ScaleInit(v: seq<real>, k: real)
    requires v != []
    ensures Scale(v, k)[..|v| - 1] == Scale(v[..|v| - 1], k)
  {
    var init := v[..|v| - 1];
    forall i | 0 <= i < |init| ensures Scale(v, k)[i] == Scale(init, k)[i] {
      assert init[i] == v[i];
    }
  }

  lemma Distribute(k: real, x: real, y: real)
    ensures k * x + k * y == k * (x + y)
  {
  }

  lemma Square(x: real, y: real)
    ensures (x - y) * (x - y) == x * x - 2.0 * (x * y) + y * y
  {
  }

  lemma PositiveProduct(x: real, y: real)
    requires x > 0.0 && y > 0.0
    ensures x * y > 0.0
  {
  }

  lemma NegativeSquare(x: real)
    requires x < 0.0
    ensures x * x > 0.0
  {
    var y := -x;
    PositiveProduct(y, y);
    assert x * x == (-y) * (-y) == y * y;
  }

  lemma PositiveSquare(x: real)
    ensures x * x >= 0.0
  {
    if x > 0.0 {
      PositiveProduct(x, x);
    } else if x < 0.0 {
      NegativeSquare(x);
    }
  }

  lemma {:induction false} DistanceExpansion(a: seq<real>, b: seq<real>)
    requires |a| == |b|
    ensures DistanceSquared(a, b) == Dot(a, a) - 2.0 * Dot(a, b) + Dot(b, b)
    ensures DistanceSquared(a, b) >= 0.0
  {
    if a != [] {
      var a', b' := a[..|a| - 1], b[..|b| - 1];
      DistanceExpansion(a', b');
      ExpandOne(DistanceSquared(a', b'), Dot(a', a'), Dot(a', b'), Dot(b', b'), a[|a| - 1], b[|b| - 1]);
    }
  }

  lemma ExpandOne(d: real, p: real, q: real, r: real, x: real, y: real)
    requires d == p - 2.0 * q + r && d >= 0.0
    ensures d + (x - y) * (x - y) == (p + x * x) - 2.0 * (q + x * y) + (r + y * y)
    ensures d + (x - y) * (x - y) >= 0.0
  {
    Square(x, y);
    PositiveSquare(x - y);
  }

  lemma {:induction false} SquareNonNegative(v: seq<real>)
    ensures Dot(v, v) >= 0.0
  {
    if v != [] {
      SquareNonNegative(v[..|v| - 1]);
      PositiveSquare(v[|v| - 1]);
    }
  }

  /** Only the zero vector has length zero. */
  lemma {:induction false} ZeroVector(v: seq<real>, i: nat)
    requires Dot(v, v) == 0.0 && i < |v|
    ensures v[i] == 0.0
  {
    var init, x := v[..|v| - 1], v[|v| - 1];
    SquareNonNegative(init);
    PositiveSquare(x);
    if i < |init| {
      assert init[i] == v[i];
      ZeroVector(init, i);
    } else {
      SquareZero(x);
    }
  }

  lemma Cancel(x: real, y: real)
    requires x != 0.0
    ensures (x * y) / x == y
  {
  }

  lemma SquareZero(x: real)
    requires x * x == 0.0
    ensures x == 0.0
  {
    if x != 0.0 {
      Cancel(x, x);
    }
  }

  lemma Inverse(n: real, s: real)
    requires n > 0.0 && n * n == s
    ensures (1.0 / n) * (1.0 / n) * s == 1.0
  {
    var r := 1.0 / n;
    assert r * n == 1.0;
    calc {
      r * r * (n * n);
      == { Product(r, n, r, n); }
      (r * n) * (r * n);
    }
  }

  /** A normalised non-zero vector has length one. */
  lemma NormalizedUnit(v: seq<real>, norm: real)
    requires IsNorm(v, norm) && norm != 0.0
    ensures Dot(Normalize(v, norm), Normalize(v, norm)) == 1.0
  {
    PositiveSquare(norm);
    DotScale(v, v, 1.0 / norm, 1.0 / norm);
    Inverse(norm, Dot(v, v));
  }

  lemma Quotient(d: real, p: real, q: real)
    requires p > 0.0 && q > 0.0
    ensures ((1.0 / p) * (1.0 / q)) * d == d / (p * q)
  {
    assert p * q > 0.0;
    var r := (1.0 / p) * (1.0 / q);
    assert r * (p * q) == 1.0 by {
      Product(1.0 / p, 1.0 / q, p, q);
      assert ((1.0 / p) * p) * ((1.0 / q) * q) == (p * q) * ((1.0 / p) * (1.0 / q));
    }
    assert (r * d) * (p * q) == d by { assert (r * d) * (p * q) == (r * (p * q)) * d; }
  }

  lemma CosineIsUnitDot(a: seq<real>, b: seq<real>, na: real, nb: real)
    requires |a| == |b| && a != [] && na > 0.0 && nb > 0.0
    ensures Cosine(a, b, na, nb) == Dot(Normalize(a, na), Normalize(b, nb))
  {
    UnitDot(a, b, na, nb, 1.0 / na, 1.0 / nb);
    Quotient(Dot(a, b), na, nb);
  }

  lemma UnitDot(a: seq<real>, b: seq<real>, na: real, nb: real, p: real, q: real)
    requires |a| == |b| && a != [] && na > 0.0 && nb > 0.0 && p == 1.0 / na && q == 1.0 / nb
    ensures Dot(Normalize(a, na), Normalize(b, nb)) == (p * q) * Dot(a, b)
  {
    DotScale(a, b, p, q);
  }

  // ---- Main results ----

  /** Cauchy-Schwarz: the similarity of any two vectors lies between -1 and 1. */
  lemma CosineInRange(a: seq<real>, b: seq<real>, na: real, nb: real)
    requires IsNorm(a, na) && IsNorm(b, nb)
    ensures -1.0 <= Cosine(a, b, na, nb) <= 1.0
  {
    if a != [] && |a| == |b| && na != 0.0 && nb != 0.0 {
      var u, v := Normalize(a, na), Normalize(b, nb);
      NormalizedUnit(a, na);
      NormalizedUnit(b, nb);
      CosineIsUnitDot(a, b, na, nb);
      DistanceExpansion(u, v);
      var w := Scale(v, -1.0);
      assert Scale(u, 1.0) == u;
      DotScale(u, v, 1.0, -1.0);
      DotScale(v, v, -1.0, -1.0);
      DistanceExpansion(u, w);
    }
  }

  /**
   * The score computed from the distance of the normalised vectors equals the plain cosine exactly when neither vector
   * is zero: a zero vector scores 1/2 or 1 on one path and 0 on the other.
   */
  lemma KnnScoreExactIff(a: seq<real>, b: seq<real>, na: real, nb: real, d: real)
    requires |a| == |b| && IsNorm(a, na) && IsNorm(b, nb)
    requires IsDistance(Normalize(a, na), Normalize(b, nb), d)
    ensures L2ToCosine(d) == Cosine(a, b, na, nb) <==> na != 0.0 && nb != 0.0
  {
    var u, v := Normalize(a, na), Normalize(b, nb);
    DistanceExpansion(u, v);
    if na != 0.0 { NormalizedUnit(a, na); }
    if nb != 0.0 { NormalizedUnit(b, nb); }
    if na != 0.0 && nb != 0.0 {
      PositiveSquare(na);
      CosineIsUnitDot(a, b, na, nb);
    } else {
      if na == 0.0 { ZeroDot(a, v); }
      if nb == 0.0 { ZeroDot(b, u); DotCommutes(u, v); }
    }
  }

  /** The zero vector against a unit vector: one path scores it 1/2, the other 0. */
  lemma ZeroVectorScores(zero: seq<real>, one: seq<real>)
    requires zero == [0.0] && one == [1.0]
    ensures IsNorm(zero, 0.0) && IsNorm(one, 1.0) && IsDistance(Normalize(zero, 0.0), Normalize(one, 1.0), 1.0)
    ensures L2ToCosine(1.0) == 0.5 && Cosine(zero, one, 0.0, 1.0) == 0.0
  {
    assert zero[..0] == one[..0] == [];
    assert Scale(one, 1.0) == one;
  }

  lemma ZeroDot(z: seq<real>, v: seq<real>)
    requires |z| == |v| && Dot(z, z) == 0.0
    ensures Dot(z, v) == 0.0
  {
    forall i | 0 <= i < |z| ensures z[i] == 0.0 { ZeroVector(z, i); }
    DotOfZeros(z, v);
  }

  lemma {:induction false} DotOfZeros(z: seq<real>, v: seq<real>)
    requires |z| == |v| && forall i :: 0 <= i < |z| ==> z[i] == 0.0
    ensures Dot(z, v) == 0.0
  {
    if z != [] { DotOfZeros(z[..|z| - 1], v[..|v| - 1]); }
  }

  lemma {:induction false} DotCommutes(a: seq<real>, b: seq<real>)
    requires |a| == |b|
    ensures Dot(a, b) == Dot(b, a)
  {
    if a != [] { DotCommutes(a[..|a| - 1], b[..|b| - 1]); }
  }

  /** cosine_to_l2 and l2_to_cosine are inverse on similarities up to 1. */
  lemma CosineL2RoundTrip(s: real, d: real)
    requires IsCosineToL2(s, d)
    ensures L2ToCosine(d) == if s <= 1.0 then s else 1.0
  {
  }

  /** A score threshold turned into a bound on the distance selects the same rows if and only if it is at most 1. */
  lemma DistanceFilterExactIff(s: real, d: real)
    requires IsCosineToL2(s, d)
    ensures (forall x :: x >= 0.0 ==> (x <= d <==> L2ToCosine(x) >= s)) <==> s <= 1.0
  {
    CosineL2RoundTrip(s, d);
    if s <= 1.0 {
      forall x | x >= 0.0 ensures x <= d <==> L2ToCosine(x) >= s {
        SquaresOrder(x, d);
      }
    } else {
      assert 0.0 <= d && L2ToCosine(0.0) == 1.0;
    }
  }

  lemma SquaresOrder(x: real, d: real)
    requires x >= 0.0 && d >= 0.0
    ensures x <= d <==> x * x <= d * d
  {
    if x <= d { SquareOrdered(x, d); } else { StrictlyOrdered(d, x); }
  }

  lemma SquareOrdered(x: real, d: real)
    requires 0.0 <= x <= d
    ensures x * x <= d * d
  {
    assert x * x <= x * d <= d * d;
  }

  lemma StrictlyOrdered(d: real, x: real)
    requires 0.0 <= d < x
    ensures d * d < x * x
  {
    var gap, sum := x - d, x + d;
    PositiveProduct(gap, sum);
    assert gap * sum == x * x - d * d;
  }
}
