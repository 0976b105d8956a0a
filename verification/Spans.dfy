/** The span of finitely many vectors: at most k non-zero vectors that are orthogonal to
    each other lie in the span of k vectors. */
module Spans {
  import opened Complex
  import opened Orthogonal
  import opened Vectors
  import Sums

  function Combination(n: nat, vs: seq<Vec>, cs: seq<C>): (r: Vec)
    requires |cs| == |vs|
    ensures |r| == n
  {
    if vs == [] then Zeros(n)
    else
      var k := |vs| - 1;
      ScaledSum(n, Combination(n, vs[..k], cs[..k]), cs[k], vs[k])
  }

  ghost predicate InSpan(n: nat, vs: seq<Vec>, v: Vec) {
    exists cs :: |cs| == |vs| && v == Combination(n, vs, cs)
  }

  // ----- a span is closed under sums -----

  function AddScaled(cs: seq<C>, a: C, ds: seq<C>): seq<C>
    requires |cs| == |ds|
  {
    seq(|cs|, i requires 0 <= i < |cs| => Plus(cs[i], Mul(a, ds[i])))
  }

  lemma Regroup(x: C, y: C, a: C, c: C, d: C, e: C)
    ensures Plus(Plus(x, Mul(a, y)), Mul(Plus(c, Mul(a, d)), e)) == Plus(Plus(x, Mul(c, e)), Mul(a, Plus(y, Mul(d, e))))
  {
    hide Mul;
    Distribute(a, y, Mul(d, e));
    Associate(a, d, e);
    Commute(Plus(c, Mul(a, d)), e);
    Distribute(e, c, Mul(a, d));
    Commute(e, c);
    Commute(e, Mul(a, d));
  }

  lemma ZerosScaled(n: nat, a: C)
    ensures ScaledSum(n, Zeros(n), a, Zeros(n)) == Zeros(n)
  {
    var r := ScaledSum(n, Zeros(n), a, Zeros(n));
    hide Mul, Plus, ScaledSum;
    Units(a);
    Units(ZERO);
    forall i | 0 <= i < n ensures r[i] == ZERO { assert At(r, i) == Plus(ZERO, Mul(a, ZERO)); }
  }

  lemma SumsRegroup(n: nat, x: Vec, y: Vec, a: C, c: C, d: C, e: Vec)
    ensures ScaledSum(n, ScaledSum(n, x, a, y), Plus(c, Mul(a, d)), e) ==
        ScaledSum(n, ScaledSum(n, x, c, e), a, ScaledSum(n, y, d, e))
  {
    var l := ScaledSum(n, ScaledSum(n, x, a, y), Plus(c, Mul(a, d)), e);
    var r := ScaledSum(n, ScaledSum(n, x, c, e), a, ScaledSum(n, y, d, e));
    hide Mul, Plus, ScaledSum;
    forall i | 0 <= i < n ensures l[i] == r[i] {
      Regroup(At(x, i), At(y, i), a, c, d, At(e, i));
      assert At(l, i) == At(r, i);
    }
  }

  lemma {:induction false} CombinationLinear(n: nat, vs: seq<Vec>, cs: seq<C>, a: C, ds: seq<C>)
    requires |cs| == |ds| == |vs|
    ensures Combination(n, vs, AddScaled(cs, a, ds)) ==
        ScaledSum(n, Combination(n, vs, cs), a, Combination(n, vs, ds))
  {
    hide Mul, Plus, ScaledSum, Zeros;
    if vs == [] {
      ZerosScaled(n, a);
    } else {
      var k := |vs| - 1;
      CombinationLinear(n, vs[..k], cs[..k], a, ds[..k]);
      assert AddScaled(cs, a, ds)[..k] == AddScaled(cs[..k], a, ds[..k]);
      SumsRegroup(n, Combination(n, vs[..k], cs[..k]), Combination(n, vs[..k], ds[..k]), a, cs[k], ds[k], vs[k]);
    }
  }

  lemma SpanIsLinear(n: nat, vs: seq<Vec>, v: Vec, a: C, w: Vec)
    requires InSpan(n, vs, v) && InSpan(n, vs, w)
    ensures InSpan(n, vs, ScaledSum(n, v, a, w))
  {
    hide Combination, ScaledSum;
    var cs :| |cs| == |vs| && v == Combination(n, vs, cs);
    var ds :| |ds| == |vs| && w == Combination(n, vs, ds);
    CombinationLinear(n, vs, cs, a, ds);
  }

  // ----- what is orthogonal to the vectors is orthogonal to their span -----

  ghost predicate Meets(n: nat, u: Vec, vs: seq<Vec>) {
    forall i :: 0 <= i < |vs| ==> Dot(n, u, vs[i]) == ZERO
  }

  /** `v` is orthogonal to whatever is orthogonal to all of `vs`. */
  ghost predicate Follows(n: nat, vs: seq<Vec>, v: Vec) {
    forall u: Vec :: Meets(n, u, vs) ==> Dot(n, u, v) == ZERO
  }

  lemma {:induction false} CombinationMeets(n: nat, u: Vec, vs: seq<Vec>, cs: seq<C>)
    requires |cs| == |vs| && Meets(n, u, vs)
    ensures Dot(n, u, Combination(n, vs, cs)) == ZERO
  {
    hide Dot, ScaledSum;
    if vs == [] {
      DotZeros(n, u);
      DotHermitian(n, Zeros(n), u);
      ConjZero();
    } else {
      var k := |vs| - 1;
      CombinationMeets(n, u, vs[..k], cs[..k]);
      DotScaledSum(n, u, Combination(n, vs[..k], cs[..k]), cs[k], vs[k]);
      Units(cs[k]);
      Units(ZERO);
    }
  }

  lemma {:induction false} RestFollows(n: nat, u: Vec, x: Vec, es: seq<Vec>, k: nat)
    requires AllOrthogonal(n, es) && k <= |es| && Meets(n, u, es)
    ensures Dot(n, u, Rest(n, x, es, k)) == Dot(n, u, x)
  {
    hide Dot, ScaledSum, AllOrthogonal, Coefficient;
    if k > 0 {
      RestFollows(n, u, x, es, k - 1);
      OrthogonalNorms(n, es);
      var c := Coefficient(n, x, es[k - 1]);
      DotScaledSum(n, u, Rest(n, x, es, k - 1), c, es[k - 1]);
      Units(c);
      Units(Dot(n, u, x));
    }
  }

  lemma OrthogonalNorms(n: nat, es: seq<Vec>)
    requires AllOrthogonal(n, es)
    ensures forall i :: 0 <= i < |es| ==> Norm2(n, es[i]) > 0.0
  {
  }

  lemma {:induction false} RestMeets(n: nat, x: Vec, es: seq<Vec>, k: nat)
    requires AllOrthogonal(n, es) && k <= |es|
    ensures forall j :: 0 <= j < k ==> Dot(n, es[j], Rest(n, x, es, k)) == ZERO
  {
    hide Dot, ScaledSum, Norm2, Mul, Plus, Square;
    if k > 0 {
      RestMeets(n, x, es, k - 1);
      RestIsOrthogonal(n, x, es, k - 1);
      var r, v := Rest(n, x, es, k - 1), es[k - 1];
      var c := Coefficient(n, x, v);
      TakenAway(n, r, v, Dot(n, v, x), Norm2(n, v), c);
      forall j | 0 <= j < k - 1 ensures Dot(n, es[j], Rest(n, x, es, k)) == ZERO {
        DotScaledSum(n, es[j], r, c, v);
        Units(c);
        Units(ZERO);
      }
    }
  }

  lemma RestIsApart(n: nat, x: Vec, es: seq<Vec>)
    requires AllOrthogonal(n, es)
    ensures Meets(n, Rest(n, x, es, |es|), es)
    ensures Dot(n, Rest(n, x, es, |es|), x) == Real(Norm2(n, Rest(n, x, es, |es|)))
  {
    hide AllOrthogonal, Rest, Dot, Norm2, Conj;
    var r := Rest(n, x, es, |es|);
    RestMeets(n, x, es, |es|);
    ConjZero();
    forall j | 0 <= j < |es| ensures Dot(n, r, es[j]) == ZERO { DotHermitian(n, es[j], r); }
    RestFollows(n, r, x, es, |es|);
    SelfDotIsReal(n, r);
  }

  // ----- counting -----

  /** Orthogonal vectors, no more than given, that everything given follows. */
  lemma {:induction false} OrthogonalBasis(n: nat, vs: seq<Vec>) returns (es: seq<Vec>)
    ensures AllOrthogonal(n, es) && |es| <= |vs|
    ensures forall i :: 0 <= i < |vs| ==> Follows(n, es, vs[i])
  {
    if vs == [] { return []; }
    var k := |vs| - 1;
    es := OrthogonalBasis(n, vs[..k]);
    var more := WithOneMore(n, es, vs[k]);
    forall i | 0 <= i < |vs| ensures Follows(n, more, vs[i]) {
      if i < k { assert vs[..k][i] == vs[i]; FollowsMore(n, es, more, vs[i]); }
    }
    es := more;
  }

  lemma FollowsMore(n: nat, es: seq<Vec>, more: seq<Vec>, v: Vec)
    requires es <= more && Follows(n, es, v)
    ensures Follows(n, more, v)
  {
    hide Dot;
    forall u: Vec | Meets(n, u, more) ensures Dot(n, u, v) == ZERO {
      assert forall i :: 0 <= i < |es| ==> es[i] == more[i];
      assert Meets(n, u, es);
    }
  }

  lemma WithOneMore(n: nat, es: seq<Vec>, v: Vec) returns (more: seq<Vec>)
    requires AllOrthogonal(n, es)
    ensures AllOrthogonal(n, more) && es <= more && |more| <= |es| + 1 && Follows(n, more, v)
  {
    hide Dot, Norm2, Rest, AllOrthogonal;
    var r := Rest(n, v, es, |es|);
    RestIsApart(n, v, es);
    NormIsNonNegative(n, r);
    more := if Norm2(n, r) > 0.0 then es + [r] else es;
    if Norm2(n, r) > 0.0 { OneMoreIsOrthogonal(n, es, r); }
    forall u: Vec | Meets(n, u, more) ensures Dot(n, u, v) == ZERO {
      assert forall i :: 0 <= i < |es| ==> es[i] == more[i];
      RestFollows(n, u, v, es, |es|);
      if Norm2(n, r) > 0.0 { assert more[|es|] == r; } else { NullMeets(n, u, r); }
    }
  }

  lemma OneMoreIsOrthogonal(n: nat, es: seq<Vec>, r: Vec)
    requires AllOrthogonal(n, es) && Meets(n, r, es) && Norm2(n, r) > 0.0
    ensures AllOrthogonal(n, es + [r])
  {
    hide Dot, Norm2, Conj;
    var more := es + [r];
    ConjZero();
    forall i, j | 0 <= i < |more| && 0 <= j < |more| && i != j ensures Dot(n, more[i], more[j]) == ZERO {
      if j == |es| { DotHermitian(n, r, more[i]); }
    }
  }

  /** A vector of norm 0 is orthogonal to everything. */
  lemma NullMeets(n: nat, u: Vec, r: Vec)
    requires Norm2(n, r) == 0.0
    ensures Dot(n, u, r) == ZERO
  {
    NullVanishes(n, Fun(r), Fun(u));
  }

  lemma {:induction false} NullVanishes(m: nat, r: int -> C, u: int -> C)
    requires Inner(m, r, r).re == 0.0
    ensures Inner(m, u, r) == ZERO
  {
    hide Mul, Conj, Square;
    if m > 0 {
      LastSquare(m, r);
      SelfDotIsNonNegative(m - 1, r);
      SumOfSquares(Inner(m - 1, r, r).re, r(m - 1));
      NullVanishes(m - 1, r, u);
      Units(Conj(u(m - 1)));
      Units(ZERO);
    }
  }

  lemma LastSquare(m: nat, r: int -> C)
    requires m > 0
    ensures Inner(m, r, r).re == Inner(m - 1, r, r).re + Square(r(m - 1))
  {
    var a := r(m - 1);
    assert Mul(Conj(a), a).re == Square(a);
  }

  lemma SumOfSquares(s: real, a: C)
    requires s >= 0.0 && s + Square(a) == 0.0
    ensures s == 0.0 && a == ZERO
  {
    NonZeroSquare(a.re, a.re * a.re);
    NonZeroSquare(a.im, a.im * a.im);
  }

  lemma NonZeroSquare(x: real, s: real)
    requires s == x * x
    ensures s >= 0.0 && (s == 0.0 ==> x == 0.0)
  {
    if x > 0.0 { PositiveProduct(x, x, s); }
    if x < 0.0 { PositiveProduct(0.0 - x, 0.0 - x, s); }
  }

  lemma PositiveProduct(a: real, b: real, product: real)
    requires a > 0.0 && b > 0.0 && product == a * b
    ensures product > 0.0
  {
  }

  lemma {:induction false} SharesAgree(n: nat, x: Vec, y: Vec, vs: seq<Vec>, k: nat)
    requires AllOrthogonal(n, vs) && k <= |vs| && forall i :: 0 <= i < |vs| ==> Dot(n, vs[i], x) == Dot(n, vs[i], y)
    ensures Share(n, x, vs, k) == Share(n, y, vs, k)
  {
    if k > 0 {
      SharesAgree(n, x, y, vs, k - 1);
      hide Dot, Norm2, Square;
    }
  }

  lemma AddBack(n: nat, x: Vec, r: Vec)
    requires |x| == n
    ensures ScaledSum(n, Difference(n, x, r), ONE, r) == x
  {
    var p := Difference(n, x, r);
    var sum := ScaledSum(n, p, ONE, r);
    forall i | 0 <= i < n ensures sum[i] == x[i] {
      assert At(p, i) == Plus(x[i], Mul(MINUS_ONE, At(r, i)));
      assert At(sum, i) == Plus(At(p, i), Mul(ONE, At(r, i)));
    }
  }

  /** Taking away what is orthogonal to the rest. */
  lemma Splits(n: nat, x: Vec, r: Vec)
    requires |x| == n && Dot(n, r, x) == Real(Norm2(n, r))
    ensures Norm2(n, Difference(n, x, r)) == Norm2(n, x) - Norm2(n, r)
  {
    hide *;
    AddBack(n, x, r);
    SelfDotIsReal(n, r);
    var p := Difference(n, x, r);
    DifferenceMeets(n, r, x);
    DotHermitian(n, r, p);
    ConjZero();
    NormOfSum(n, p, r);
  }

  lemma DifferenceMeets(n: nat, r: Vec, x: Vec)
    requires Dot(n, r, x) == Dot(n, r, r)
    ensures Dot(n, r, Difference(n, x, r)) == ZERO
  {
    DotScaledSum(n, r, x, MINUS_ONE, r);
    hide Dot, ScaledSum;
  }

  /** Vectors that follow `es` account for no more of any x than `es` does. */
  lemma ShareBelow(n: nat, x: Vec, vs: seq<Vec>, es: seq<Vec>)
    requires AllOrthogonal(n, vs) && AllOrthogonal(n, es) && |x| == n
    requires forall i :: 0 <= i < |vs| ==> Follows(n, es, vs[i])
    ensures Share(n, x, vs, |vs|) <= Share(n, x, es, |es|)
  {
    var r := Rest(n, x, es, |es|);
    RestIsApart(n, x, es);
    RestIsOrthogonal(n, x, es, |es|);
    var p := Difference(n, x, r);
    Splits(n, x, r);
    hide Dot, Norm2, Rest, Share, AllOrthogonal, ScaledSum;
    ConjZero();
    forall i | 0 <= i < |vs| ensures Dot(n, vs[i], x) == Dot(n, vs[i], p) {
      assert Dot(n, r, vs[i]) == ZERO;
      DotHermitian(n, r, vs[i]);
      DotScaledSum(n, vs[i], x, MINUS_ONE, r);
      Units(MINUS_ONE);
      Units(Dot(n, vs[i], x));
    }
    SharesAgree(n, x, p, vs, |vs|);
    Bessel(n, p, vs);
  }

  lemma AtMostSpanning(n: nat, vs: seq<Vec>, basis: seq<Vec>)
    requires AllOrthogonal(n, vs) && forall i :: 0 <= i < |vs| ==> InSpan(n, basis, vs[i])
    ensures |vs| <= |basis|
  {
    var es := OrthogonalBasis(n, basis);
    hide AllOrthogonal, Dot, Combination, Share, Unit;
    forall i | 0 <= i < |vs| ensures Follows(n, es, vs[i]) { SpanFollows(n, es, basis, vs[i]); }
    var f, g := t => Share(n, Unit(n, t), vs, |vs|), t => Share(n, Unit(n, t), es, |es|);
    SharesAddUp(n, vs, |vs|, f);
    SharesAddUp(n, es, |es|, g);
    forall t | 0 <= t < n ensures f(t) <= g(t) {
      UnitLength(n, t);
      ShareBelow(n, Unit(n, t), vs, es);
    }
    Sums.SumMonotone(n, f, g);
  }

  lemma UnitLength(n: nat, t: int)
    ensures |Unit(n, t)| == n
  {
  }

  lemma SpanFollows(n: nat, es: seq<Vec>, basis: seq<Vec>, v: Vec)
    requires (forall i :: 0 <= i < |basis| ==> Follows(n, es, basis[i])) && InSpan(n, basis, v)
    ensures Follows(n, es, v)
  {
    hide Dot, Combination;
    var cs :| |cs| == |basis| && v == Combination(n, basis, cs);
    forall u: Vec | Meets(n, u, es) ensures Dot(n, u, v) == ZERO {
      assert Meets(n, u, basis);
      CombinationMeets(n, u, basis, cs);
    }
  }
}
