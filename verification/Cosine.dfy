/** Cosine similarity of embedding vectors, in exact arithmetic. */
module Cosine {

  function Dot(a: seq<real>, b: seq<real>): real
    requires |a| == |b|
  {
    if a == [] then 0.0
    else Dot(a[..|a| - 1], b[..|b| - 1]) + a[|a| - 1] * b[|b| - 1]
  }

  predicate IsRoot(s: real, x: real) {
    s >= 0.0 && s * s == x
  }

  /** All that is used of the square root. */
  ghost predicate IsSqrt(sqrt: real -> real) {
    forall x: real :: x >= 0.0 ==> IsRoot(sqrt(x), x)
  }

  function Ratio(dot: real, rootA: real, rootB: real): real {
    var denom := rootA * rootB;
    if denom == 0.0 then 0.0 else dot / denom
  }

  function Similarity(a: seq<real>, b: seq<real>, sqrt: real -> real): real {
    if |a| != |b| || |a| == 0 then 0.0
    else Ratio(Dot(a, b), sqrt(Dot(a, a)), sqrt(Dot(b, b)))
  }

  method CosineSimilarity(a: seq<real>, b: seq<real>, sqrt: real -> real) returns (similarity: real)
    ensures similarity == Similarity(a, b, sqrt)
  {
    if |a| != |b| || |a| == 0 {
      return 0.0;
    }
    var dot, normA, normB := 0.0, 0.0, 0.0;
    for i := 0 to |a|
      invariant dot == Dot(a[..i], b[..i]) && normA == Dot(a[..i], a[..i]) && normB == Dot(b[..i], b[..i])
    {
      assert a[..i + 1][..i] == a[..i] && b[..i + 1][..i] == b[..i];
      dot := dot + a[i] * b[i];
      normA := normA + a[i] * a[i];
      normB := normB + b[i] * b[i];
    }
    assert a[..|a|] == a && b[..|b|] == b;
    var denom := sqrt(normA) * sqrt(normB);
    if denom == 0.0 {
      return 0.0;
    }
    return dot / denom;
  }

  // ----- the Cauchy-Schwarz inequality

  lemma SquareIsNatural(x: real)
    ensures x * x >= 0.0
  {}

  lemma {:induction false} NormIsNatural(a: seq<real>)
    ensures Dot(a, a) >= 0.0
  {
    if a != [] {
      NormIsNatural(a[..|a| - 1]);
      SquareIsNatural(a[|a| - 1]);
    }
  }

  lemma Scaled(a: real, b: real, m: real)
    requires a <= b && m >= 0.0
    ensures a * m <= b * m
  {}

  /** Comparing squares compares magnitudes. */
  lemma RootsCompare(w: real, s: real)
    requires s >= 0.0 && w * w <= s * s
    ensures -s <= w <= s
  {
    if w > s { ProductGrows(w, s); }
    if w < -s { ProductGrows(-w, s); }
  }

  lemma ProductGrows(w: real, s: real)
    requires w > s >= 0.0
    ensures w * w > s * s
  {
    var d := w - s;
    assert (s + d) * (s + d) == s * s + 2.0 * (s * d) + d * d;
    assert s * d >= 0.0 && d * d > 0.0;
  }

  lemma MeanIsAtLeast(u: real, v: real)
    ensures 4.0 * (u * v) <= (u + v) * (u + v)
  {
    SquareIsNatural(u - v);
    assert (u + v) * (u + v) - 4.0 * (u * v) == (u - v) * (u - v);
  }

  /** The cross terms of one more coordinate. */
  lemma CrossTerms(d: real, p: real, q: real, x: real, y: real)
    requires p >= 0.0 && q >= 0.0 && d * d <= p * q
    ensures 2.0 * (d * (x * y)) <= p * (y * y) + q * (x * x)
  {
    var u, v, w, m := p * (y * y), q * (x * x), 2.0 * (d * (x * y)), (x * y) * (x * y);
    SquareIsNatural(x);
    SquareIsNatural(y);
    SquareIsNatural(x * y);
    assert u >= 0.0 && v >= 0.0;
    assert w * w == 4.0 * ((d * d) * m);
    assert u * v == (p * q) * m;
    Scaled(d * d, p * q, m);
    MeanIsAtLeast(u, v);
    RootsCompare(w, u + v);
  }

  lemma OneMoreCoordinate(d: real, p: real, q: real, x: real, y: real)
    requires p >= 0.0 && q >= 0.0 && d * d <= p * q
    ensures (d + x * y) * (d + x * y) <= (p + x * x) * (q + y * y)
  {
    CrossTerms(d, p, q, x, y);
    assert (d + x * y) * (d + x * y) == d * d + 2.0 * (d * (x * y)) + (x * y) * (x * y);
    assert (p + x * x) * (q + y * y) == p * q + (p * (y * y) + q * (x * x)) + (x * y) * (x * y);
  }

  lemma {:induction false} CauchySchwarz(a: seq<real>, b: seq<real>)
    requires |a| == |b|
    ensures Dot(a, b) * Dot(a, b) <= Dot(a, a) * Dot(b, b)
  {
    if a != [] {
      var a', b' := a[..|a| - 1], b[..|b| - 1];
      CauchySchwarz(a', b');
      NormIsNatural(a');
      NormIsNatural(b');
      OneMoreCoordinate(Dot(a', b'), Dot(a', a'), Dot(b', b'), a[|a| - 1], b[|b| - 1]);
    }
  }

  // ----- similarity

  lemma SquareOfProduct(s: real, t: real, p: real, q: real)
    requires s * s == p && t * t == q
    ensures (s * t) * (s * t) == p * q
  {
    assert (s * t) * (s * t) == (s * s) * (t * t);
  }

  lemma Quotient(x: real, denom: real)
    requires denom > 0.0 && -denom <= x <= denom
    ensures -1.0 <= x / denom <= 1.0
  {}

  predicate SquareWithin(d: real, p: real, q: real) {
    d * d <= p * q
  }

  /** What the product bounds in squares, the product of the roots bounds. */
  lemma RatioIsBounded(d: real, p: real, q: real, s: real, t: real)
    requires IsRoot(s, p) && IsRoot(t, q) && SquareWithin(d, p, q)
    ensures -1.0 <= Ratio(d, s, t) <= 1.0
  {
    SquareOfProduct(s, t, p, q);
    NaturalProduct(s, t);
    var denom := s * t;
    assert d * d <= denom * denom;
    RootsCompare(d, denom);
    if denom != 0.0 { Quotient(d, denom); }
  }

  lemma NaturalProduct(s: real, t: real)
    requires s >= 0.0 && t >= 0.0
    ensures s * t >= 0.0
  {}

  /** Similarity lies between -1 and 1. */
  lemma SimilarityIsBounded(a: seq<real>, b: seq<real>, sqrt: real -> real)
    requires IsSqrt(sqrt)
    ensures -1.0 <= Similarity(a, b, sqrt) <= 1.0
  {
    if |a| == |b| && |a| != 0 {
      var p, q := Dot(a, a), Dot(b, b);
      NormIsNatural(a);
      NormIsNatural(b);
      CauchySchwarz(a, b);
      assert SquareWithin(Dot(a, b), p, q);
      hide Dot, IsRoot, SquareWithin, Ratio;
      RatioIsBounded(Dot(a, b), p, q, sqrt(p), sqrt(q));
    }
  }

  predicate IsProduct(x: real, s: real, t: real, d: real) {
    x * (s * t) == d
  }

  lemma RatioTimesRoots(d: real, p: real, q: real, s: real, t: real)
    requires IsRoot(s, p) && IsRoot(t, q) && SquareWithin(d, p, q)
    ensures IsProduct(Ratio(d, s, t), s, t, d)
  {
    SquareOfProduct(s, t, p, q);
    NaturalProduct(s, t);
    var denom := s * t;
    assert d * d <= denom * denom;
    RootsCompare(d, denom);
  }

  /** It is the dot product measured in the two norms, also when one of them is zero. */
  lemma SimilarityTimesNorms(a: seq<real>, b: seq<real>, sqrt: real -> real)
    requires IsSqrt(sqrt) && |a| == |b|
    ensures IsProduct(Similarity(a, b, sqrt), sqrt(Dot(a, a)), sqrt(Dot(b, b)), Dot(a, b))
  {
    if |a| == 0 {
      assert Dot(a, b) == 0.0;
    } else {
      var p, q := Dot(a, a), Dot(b, b);
      NormIsNatural(a);
      NormIsNatural(b);
      CauchySchwarz(a, b);
      assert SquareWithin(Dot(a, b), p, q);
      hide Dot, IsRoot, SquareWithin, Ratio, IsProduct;
      RatioTimesRoots(Dot(a, b), p, q, sqrt(p), sqrt(q));
    }
  }

  lemma {:induction false} DotIsSymmetric(a: seq<real>, b: seq<real>)
    requires |a| == |b|
    ensures Dot(a, b) == Dot(b, a)
  {
    if a != [] { DotIsSymmetric(a[..|a| - 1], b[..|b| - 1]); }
  }

  lemma RatioIsSymmetric(d: real, s: real, t: real)
    ensures Ratio(d, s, t) == Ratio(d, t, s)
  {
    assert s * t == t * s;
  }

  lemma SimilarityIsSymmetric(a: seq<real>, b: seq<real>, sqrt: real -> real)
    ensures Similarity(a, b, sqrt) == Similarity(b, a, sqrt)
  {
    if |a| == |b| {
      DotIsSymmetric(a, b);
      hide Dot;
      RatioIsSymmetric(Dot(a, b), sqrt(Dot(a, a)), sqrt(Dot(b, b)));
      hide Ratio;
    }
  }

  lemma WholeOfItself(p: real)
    requires p != 0.0
    ensures p / p == 1.0
  {}

  /** The bound is reached: a vector other than zero is wholly similar to itself. */
  lemma SelfSimilarity(a: seq<real>, sqrt: real -> real)
    requires IsSqrt(sqrt)
    ensures Similarity(a, a, sqrt) == if Dot(a, a) == 0.0 then 0.0 else 1.0
  {
    NormIsNatural(a);
    hide Dot, IsRoot, Ratio;
    RatioOfItself(Dot(a, a), sqrt(Dot(a, a)));
    EmptyNorm();
  }

  lemma EmptyNorm()
    ensures Dot([], []) == 0.0
  {}

  lemma RatioOfItself(p: real, s: real)
    requires IsRoot(s, p)
    ensures Ratio(p, s, s) == if p == 0.0 then 0.0 else 1.0
  {
    if p != 0.0 { WholeOfItself(p); }
  }
}
