/** The similarity kernel of the embedding provider, over exact reals. */
module Cosine {
  function MulAdd(x: real, y: real, sum: real): real {
    x * y + sum
  }

  /** `sum(x * y for x, y in zip(a, b))` */
  function Dot(a: seq<real>, b: seq<real>): real
    requires |a| == |b|
  {
    if a == [] then 0.0 else MulAdd(a[0], b[0], Dot(a[1..], b[1..]))
  }

  /** What the code assumes of `math.sqrt`, with rounding error left out. */
  ghost predicate ExactSqrt(sqrt: real -> real) {
    forall x: real {:trigger sqrt(x)} :: x >= 0.0 ==> sqrt(x) >= 0.0 && sqrt(x) * sqrt(x) == x
  }

  lemma {:induction false} DotSelfNonNegative(a: seq<real>)
    ensures Dot(a, a) >= 0.0
  {
    if a != [] {
      DotSelfNonNegative(a[1..]);
      SquareNonNegative(a[0]);
    }
  }

  /** The last two steps of the kernel, once the dot product and the two norms are known. */
  function Quotient(dot: real, normA: real, normB: real): real {
    if normA == 0.0 || normB == 0.0 then 0.0 else dot / (normA * normB)
  }

  function CosineSimilarity(a: seq<real>, b: seq<real>, sqrt: real -> real): real {
    if a == [] || b == [] || |a| != |b| then 0.0
    else Quotient(Dot(a, b), sqrt(Dot(a, a)), sqrt(Dot(b, b)))
  }

  lemma SquareNonNegative(x: real)
    ensures x * x >= 0.0
  {
  }

  lemma ProductNonNegative(x: real, y: real)
    requires x >= 0.0 && y >= 0.0
    ensures x * y >= 0.0
  {
  }

  lemma ProductPositive(x: real, y: real)
    requires x > 0.0 && y > 0.0
    ensures x * y > 0.0
  {
  }

  /** For a non-negative right side, squares compare as the values do. */
  lemma SquareOrder(p: real, q: real)
    requires p * p <= q * q && q >= 0.0
    ensures -q <= p <= q
  {
    assert (p - q) * (p + q) == p * p - q * q;
    assert (-p - q) * (q - p) == p * p - q * q;
    if p > q {
      ProductPositive(p - q, p + q);
    } else if p < -q {
      ProductPositive(-p - q, q - p);
    }
  }

  /** `dot * dot` is at most the product of the two squared norms. */
  predicate WithinNorms(dot: real, aa: real, bb: real) {
    dot * dot <= aa * bb
  }

  lemma SquareOfProduct(u: real, v: real)
    ensures (u * v) * (u * v) == (u * u) * (v * v)
  {
  }

  lemma Regroup(a: real, b: real, x: real, y: real)
    ensures (a * y) * (b * x) == (a * b) * (x * y)
  {
  }

  lemma ScaleInequality(a: real, b: real, s: real)
    requires a <= b && s >= 0.0
    ensures a * s <= b * s
  {
  }

  /** Twice a product is at most the sum of squares, in the form `4uv <= (u + v)^2`. */
  lemma MeanInequality(u: real, v: real)
    ensures 4.0 * (u * v) <= (u + v) * (u + v)
  {
    SquareNonNegative(u - v);
    assert (u + v) * (u + v) - 4.0 * (u * v) == (u - v) * (u - v);
  }

  lemma CrossTerm(d: real, aa: real, bb: real, xy: real, xx: real, yy: real)
    requires aa >= 0.0 && bb >= 0.0 && xx >= 0.0 && yy >= 0.0 && WithinNorms(d, aa, bb) && xy * xy == xx * yy
    ensures 2.0 * (d * xy) <= aa * yy + bb * xx
  {
    var u, v, w := aa * yy, bb * xx, d * xy;
    ProductNonNegative(aa, yy);
    ProductNonNegative(bb, xx);
    ProductNonNegative(xx, yy);
    SquareOfProduct(d, xy);
    ScaleInequality(d * d, aa * bb, xx * yy);
    Regroup(aa, bb, xx, yy);
    MeanInequality(u, v);
    assert w * w <= u * v;
    assert (2.0 * w) * (2.0 * w) == 4.0 * (w * w);
    SquareOrder(2.0 * w, u + v);
  }

  /** The inductive step: adding one coordinate keeps the inequality. */
  lemma CauchySchwarzStep(d: real, aa: real, bb: real, x: real, y: real)
    requires aa >= 0.0 && bb >= 0.0 && WithinNorms(d, aa, bb)
    ensures WithinNorms(MulAdd(x, y, d), MulAdd(x, x, aa), MulAdd(y, y, bb))
  {
    var xy, xx, yy := x * y, x * x, y * y;
    SquareOfProduct(x, y);
    SquareNonNegative(x);
    SquareNonNegative(y);
    CrossTerm(d, aa, bb, xy, xx, yy);
    assert (xy + d) * (xy + d) == xy * xy + 2.0 * (d * xy) + d * d;
    assert (xx + aa) * (yy + bb) == xx * yy + (aa * yy + bb * xx) + aa * bb;
  }

  lemma NothingWithinNorms()
    ensures WithinNorms(0.0, 0.0, 0.0)
  {
  }

  lemma {:induction false} CauchySchwarz(a: seq<real>, b: seq<real>)
    requires |a| == |b|
    ensures WithinNorms(Dot(a, b), Dot(a, a), Dot(b, b))
  {
    hide WithinNorms, MulAdd;
    if a == [] {
      NothingWithinNorms();
    } else {
      CauchySchwarz(a[1..], b[1..]);
      DotSelfNonNegative(a[1..]);
      DotSelfNonNegative(b[1..]);
      CauchySchwarzStep(Dot(a[1..], b[1..]), Dot(a[1..], a[1..]), Dot(b[1..], b[1..]), a[0], b[0]);
    }
  }

  lemma QuotientWithin(d: real, na: real, nb: real)
    requires na >= 0.0 && nb >= 0.0 && WithinNorms(d, na * na, nb * nb)
    ensures -1.0 <= Quotient(d, na, nb) <= 1.0
  {
    if na != 0.0 && nb != 0.0 {
      assert (na * nb) * (na * nb) == (na * na) * (nb * nb);
      ProductPositive(na, nb);
      SquareOrder(d, na * nb);
      var n := na * nb;
      assert -1.0 <= d / n <= 1.0;
    }
  }

  lemma QuotientScales(c: real, d: real, na: real, nb: real, cd: real, cna: real)
    requires c > 0.0 && cd == c * d && cna == c * na
    ensures Quotient(cd, cna, nb) == Quotient(d, na, nb)
  {
    if na != 0.0 && nb != 0.0 {
      var n := na * nb;
      var q := d / n;
      assert d == q * n;
      assert cna * nb == c * n;
      assert cd == q * (c * n);
      assert c * n != 0.0;
      assert cd / (cna * nb) == q;
    }
  }

  /** Every similarity the provider can report lies in [-1, 1], whatever the two vectors are. */
  lemma SimilarityBounded(a: seq<real>, b: seq<real>, sqrt: real -> real)
    requires ExactSqrt(sqrt)
    ensures -1.0 <= CosineSimilarity(a, b, sqrt) <= 1.0
  {
    if |a| == |b| && a != [] {
      hide Quotient, Dot, WithinNorms;
      DotSelfNonNegative(a);
      DotSelfNonNegative(b);
      CauchySchwarz(a, b);
      QuotientWithin(Dot(a, b), sqrt(Dot(a, a)), sqrt(Dot(b, b)));
    }
  }

  lemma {:induction false} DotSymmetric(a: seq<real>, b: seq<real>)
    requires |a| == |b|
    ensures Dot(a, b) == Dot(b, a)
  {
    if a != [] { DotSymmetric(a[1..], b[1..]); }
  }

  lemma SimilaritySymmetric(a: seq<real>, b: seq<real>, sqrt: real -> real)
    ensures CosineSimilarity(a, b, sqrt) == CosineSimilarity(b, a, sqrt)
  {
    if |a| == |b| {
      DotSymmetric(a, b);
      QuotientSymmetric(Dot(a, b), sqrt(Dot(a, a)), sqrt(Dot(b, b)));
    }
  }

  lemma QuotientSymmetric(d: real, na: real, nb: real)
    ensures Quotient(d, na, nb) == Quotient(d, nb, na)
  {
    assert na * nb == nb * na;
  }

  function Scale(c: real, a: seq<real>): (r: seq<real>)
    ensures |r| == |a| && forall i :: 0 <= i < |a| ==> r[i] == c * a[i]
  {
    seq(|a|, i requires 0 <= i < |a| => c * a[i])
  }

  lemma ScaleTail(c: real, a: seq<real>)
    requires a != []
    ensures Scale(c, a)[1..] == Scale(c, a[1..])
  {
    forall i | 0 <= i < |a| - 1
      ensures Scale(c, a)[1..][i] == Scale(c, a[1..])[i]
    {
      assert a[1..][i] == a[i + 1];
    }
  }

  lemma {:induction false} DotScale(c: real, a: seq<real>, b: seq<real>)
    requires |a| == |b|
    ensures Dot(Scale(c, a), b) == c * Dot(a, b)
  {
    if a != [] {
      ScaleTail(c, a);
      DotScale(c, a[1..], b[1..]);
      assert c * (a[0] * b[0]) == (c * a[0]) * b[0];
    }
  }

  lemma {:induction false} DotScaleSelf(c: real, cc: real, a: seq<real>)
    requires cc == c * c
    ensures Dot(Scale(c, a), Scale(c, a)) == cc * Dot(a, a)
  {
    if a != [] {
      ScaleTail(c, a);
      DotScaleSelf(c, cc, a[1..]);
      var x := Scale(c, a)[0];
      assert x * x == cc * (a[0] * a[0]);
    }
  }

  lemma SqrtScales(c: real, cc: real, x: real, r: real, s: real)
    requires c > 0.0 && cc == c * c && r >= 0.0 && s >= 0.0 && r * r == x && s * s == cc * x
    ensures s == c * r
  {
    assert (c * r) * (c * r) == cc * x;
    ProductNonNegative(c, r);
    SquareOrder(s, c * r);
    SquareOrder(c * r, s);
  }

  /** Only the directions of the vectors matter: a positive factor on either side changes nothing. */
  lemma SimilarityScaleFree(c: real, a: seq<real>, b: seq<real>, sqrt: real -> real)
    requires ExactSqrt(sqrt) && c > 0.0
    ensures CosineSimilarity(Scale(c, a), b, sqrt) == CosineSimilarity(a, b, sqrt)
    ensures CosineSimilarity(b, Scale(c, a), sqrt) == CosineSimilarity(b, a, sqrt)
  {
    SimilaritySymmetric(Scale(c, a), b, sqrt);
    SimilaritySymmetric(a, b, sqrt);
    if |a| == |b| && a != [] {
      hide Quotient, Dot;
      DotScale(c, a, b);
      DotScaleSelf(c, c * c, a);
      DotSelfNonNegative(a);
      DotSelfNonNegative(Scale(c, a));
      var na, nca := sqrt(Dot(a, a)), sqrt(Dot(Scale(c, a), Scale(c, a)));
      SqrtScales(c, c * c, Dot(a, a), na, nca);
      QuotientScales(c, Dot(a, b), na, sqrt(Dot(b, b)), Dot(Scale(c, a), b), nca);
    }
  }

  /** Opposite directions have similarity -1, whatever the lengths. */
  lemma SimilarityOfOpposite(c: real, a: seq<real>, sqrt: real -> real)
    requires ExactSqrt(sqrt) && c > 0.0 && a != [] && Dot(a, a) != 0.0
    ensures CosineSimilarity(Scale(-c, a), a, sqrt) == -1.0
  {
    hide Quotient, Dot;
    SimilarityOfParallel(c, a, sqrt);
    NegatedDots(c, a);
    var b := Scale(c, a);
    NegatedQuotient(Dot(b, a), Dot(Scale(-c, a), a), sqrt(Dot(b, b)), sqrt(Dot(a, a)));
  }

  lemma NegatedDots(c: real, a: seq<real>)
    ensures Dot(Scale(-c, a), a) == -Dot(Scale(c, a), a)
    ensures Dot(Scale(-c, a), Scale(-c, a)) == Dot(Scale(c, a), Scale(c, a))
  {
    hide Dot, Scale;
    var dot, minus, square := Dot(a, a), -c, c * c;
    DotScale(minus, a, a);
    DotScale(c, a, a);
    NegatedProducts(c, minus, dot);
    DotScaleSelf(minus, square, a);
    DotScaleSelf(c, square, a);
  }

  lemma NegatedProducts(c: real, minus: real, d: real)
    requires minus == -c
    ensures minus * d == -(c * d) && minus * minus == c * c
  {
  }

  lemma NegatedQuotient(d: real, e: real, na: real, nb: real)
    requires e == -d && Quotient(d, na, nb) == 1.0
    ensures Quotient(e, na, nb) == -1.0
  {
    var n := na * nb;
    assert d / n == 1.0;
    assert d == n;
    assert e / n == -1.0;
  }

  /** Perpendicular vectors, zero vectors and vectors of different length have similarity 0. */
  lemma SimilarityZero(a: seq<real>, b: seq<real>, sqrt: real -> real)
    requires ExactSqrt(sqrt)
    ensures |a| != |b| || a == [] ==> CosineSimilarity(a, b, sqrt) == 0.0
    ensures |a| == |b| && (Dot(a, b) == 0.0 || Dot(a, a) == 0.0 || Dot(b, b) == 0.0) ==> CosineSimilarity(a, b, sqrt) == 0.0
  {
    hide Dot;
    if |a| == |b| && a != [] {
      var na, nb := sqrt(Dot(a, a)), sqrt(Dot(b, b));
      if Dot(a, a) == 0.0 { RootOfZero(na); }
      if Dot(b, b) == 0.0 { RootOfZero(nb); }
      if Dot(a, b) == 0.0 && na != 0.0 && nb != 0.0 { ZeroOver(na * nb, na, nb); }
    }
  }

  lemma RootOfZero(r: real)
    requires r >= 0.0 && r * r == 0.0
    ensures r == 0.0
  {
    SquareOrder(r, 0.0);
  }

  lemma ZeroOver(n: real, na: real, nb: real)
    requires n == na * nb && na != 0.0 && nb != 0.0
    ensures Quotient(0.0, na, nb) == 0.0
  {
  }

  /** The dot product adds up over the coordinates: over one it is the product, over two parts of the vectors the sum. */
  lemma {:induction false} DotExactly(a: seq<real>, b: seq<real>, c: seq<real>, d: seq<real>, x: real, y: real)
    requires |a| == |b| && |c| == |d|
    ensures Dot([], []) == 0.0 && Dot([x], [y]) == x * y
    ensures Dot(a + c, b + d) == Dot(a, b) + Dot(c, d)
  {
    if a == [] {
      assert a + c == c && b + d == d;
    } else {
      assert (a + c)[1..] == a[1..] + c && (b + d)[1..] == b[1..] + d;
      DotExactly(a[1..], b[1..], c, d, x, y);
    }
  }

  lemma SelfQuotient(d: real, n: real)
    requires n * n == d && d != 0.0
    ensures Quotient(d, n, n) == 1.0
  {
    var m := n * n;
    assert n != 0.0;
    assert d / m == 1.0;
  }

  /** A non-zero vector has similarity 1 with every positive multiple of itself. */
  lemma SimilarityOfParallel(c: real, a: seq<real>, sqrt: real -> real)
    requires ExactSqrt(sqrt) && c > 0.0 && a != [] && Dot(a, a) != 0.0
    ensures CosineSimilarity(Scale(c, a), a, sqrt) == 1.0
  {
    hide Quotient, Dot;
    SimilarityScaleFree(c, a, a, sqrt);
    DotSelfNonNegative(a);
    SelfQuotient(Dot(a, a), sqrt(Dot(a, a)));
  }
}
