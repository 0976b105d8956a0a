/** There are at most n non-zero vectors in an n-dimensional space that are orthogonal to
    each other: Bessel's inequality, summed over the basis. */
module Orthogonal {
  import opened Complex
  import opened Vectors
  import Sums

  ghost predicate AllOrthogonal(n: nat, vs: seq<Vec>) {
    && (forall i :: 0 <= i < |vs| ==> Norm2(n, vs[i]) > 0.0)
    && (forall i, j :: 0 <= i < |vs| && 0 <= j < |vs| && i != j ==> Dot(n, vs[i], vs[j]) == ZERO)
  }

  function Square(c: C): real { c.re * c.re + c.im * c.im }

  // ----- Bessel's inequality -----

  /** `x` without the parts along the first k vectors. */
  ghost function Rest(n: nat, x: Vec, vs: seq<Vec>, k: nat): Vec
    requires k <= |vs| && AllOrthogonal(n, vs)
  {
    if k == 0 then x
    else ScaledSum(n, Rest(n, x, vs, k - 1), Coefficient(n, x, vs[k - 1]), vs[k - 1])
  }

  /** - <v|x> / <v|v> */
  function Coefficient(n: nat, x: Vec, v: Vec): C
    requires Norm2(n, v) > 0.0
  {
    Mul(Real(0.0 - 1.0 / Norm2(n, v)), Dot(n, v, x))
  }

  /** The share of `x` that the first k vectors account for. */
  ghost function Share(n: nat, x: Vec, vs: seq<Vec>, k: nat): real
    requires k <= |vs| && AllOrthogonal(n, vs)
  {
    if k == 0 then 0.0
    else Share(n, x, vs, k - 1) + Square(Dot(n, vs[k - 1], x)) / Norm2(n, vs[k - 1])
  }

  /** Taking away the part along `v` leaves something orthogonal to `v`. */
  lemma TakenAway(n: nat, r: Vec, v: Vec, d: C, m: real, c: C)
    requires m == Norm2(n, v) > 0.0 && d == Dot(n, v, r) && c == Mul(Real(0.0 - 1.0 / m), d)
    ensures var next := ScaledSum(n, r, c, v);
            Dot(n, v, next) == ZERO && Norm2(n, next) == Norm2(n, r) - Square(d) / m
  {
    hide *;
    var next := ScaledSum(n, r, c, v);
    SelfDotIsReal(n, v);
    DotScaledSum(n, v, r, c, v);
    Cancelled(m, d, c);
    DotHermitian(n, v, next);
    DotScaledSum(n, next, r, c, v);
    DotHermitian(n, r, next);
    DotScaledSum(n, r, r, c, v);
    DotHermitian(n, v, r);
    NormsAreDots(n, next);
    NormsAreDots(n, r);
    Reduced(m, d, c);
    Assembled(c, d, Dot(n, r, r));
  }

  /** The real part of conj(conj(q + c conj(d))) + c * conj(0). */
  lemma Assembled(c: C, d: C, q: C)
    ensures Plus(Conj(Plus(q, Mul(c, Conj(d)))), Mul(c, Conj(ZERO))).re == q.re + Mul(c, Conj(d)).re
  {
    ConjZero();
    Units(c);
  }

  lemma NormsAreDots(n: nat, v: Vec)
    ensures Norm2(n, v) == Dot(n, v, v).re
  {
  }

  lemma Cancelled(m: real, d: C, c: C)
    requires m > 0.0 && c == Mul(Real(0.0 - 1.0 / m), d)
    ensures Plus(d, Mul(c, Real(m))) == ZERO
  {
    var k := 0.0 - 1.0 / m;
    assert k * m == 0.0 - 1.0;
    Associate(Real(k), d, Real(m));
    Commute(d, Real(m));
    Associate(Real(k), Real(m), d);
    assert Mul(Real(k), Real(m)) == Real(0.0 - 1.0);
  }

  lemma Reduced(m: real, d: C, c: C)
    requires m > 0.0 && c == Mul(Real(0.0 - 1.0 / m), d)
    ensures Mul(c, Conj(d)).re == 0.0 - Square(d) / m
  {
    var k := 0.0 - 1.0 / m;
    Associate(Real(k), d, Conj(d));
    assert Mul(d, Conj(d)) == Real(Square(d));
    assert Mul(Real(k), Real(Square(d))).re == k * Square(d);
    assert k * Square(d) == 0.0 - Square(d) / m;
  }

  lemma {:induction false} RestIsOrthogonal(n: nat, x: Vec, vs: seq<Vec>, k: nat)
    requires k <= |vs| && AllOrthogonal(n, vs)
    ensures forall j :: k <= j < |vs| ==> Dot(n, vs[j], Rest(n, x, vs, k)) == Dot(n, vs[j], x)
    ensures Norm2(n, Rest(n, x, vs, k)) == Norm2(n, x) - Share(n, x, vs, k)
  {
    if k > 0 {
      RestIsOrthogonal(n, x, vs, k - 1);
      var r, v := Rest(n, x, vs, k - 1), vs[k - 1];
      var c := Coefficient(n, x, v);
      hide Dot, ScaledSum, Norm2, Mul, Plus, Square;
      TakenAway(n, r, v, Dot(n, v, x), Norm2(n, v), c);
      forall j | k <= j < |vs| ensures Dot(n, vs[j], Rest(n, x, vs, k)) == Dot(n, vs[j], x) {
        DotScaledSum(n, vs[j], r, c, v);
        Units(c);
        Units(Dot(n, vs[j], x));
      }
    }
  }

  lemma Bessel(n: nat, x: Vec, vs: seq<Vec>)
    requires AllOrthogonal(n, vs)
    ensures Share(n, x, vs, |vs|) <= Norm2(n, x)
  {
    RestIsOrthogonal(n, x, vs, |vs|);
    NormIsNonNegative(n, Rest(n, x, vs, |vs|));
  }

  // ----- summed over the basis -----

  function Unit(n: nat, t: int): Vec { seq(n, i => if i == t then ONE else ZERO) }

  lemma {:induction false} PickOne(m: nat, u: int -> C, e: int -> C, t: int)
    requires forall i :: 0 <= i < m ==> e(i) == if i == t then ONE else ZERO
    ensures Inner(m, u, e) == if 0 <= t < m then Conj(u(t)) else ZERO
  {
    if m > 0 {
      PickOne(m - 1, u, e, t);
      Units(Conj(u(m - 1)));
    }
  }

  lemma DotUnit(n: nat, v: Vec, t: int)
    requires 0 <= t < n
    ensures Dot(n, v, Unit(n, t)) == Conj(At(v, t)) && Norm2(n, Unit(n, t)) == 1.0
  {
    PickOne(n, Fun(v), Fun(Unit(n, t)), t);
    PickOne(n, Fun(Unit(n, t)), Fun(Unit(n, t)), t);
  }

  lemma {:induction false} NormIsSum(m: nat, u: int -> C, f: int -> real)
    requires forall t :: 0 <= t < m ==> f(t) == Square(u(t))
    ensures Inner(m, u, u).re == Sums.Sum(m, f)
  {
    if m > 0 {
      NormIsSum(m - 1, u, f);
      var a := u(m - 1);
      assert Mul(Conj(a), a).re == Square(a);
    }
  }

  lemma ShareOfUnit(n: nat, v: Vec, t: int, m: real)
    requires 0 <= t < n && m > 0.0
    ensures Square(Dot(n, v, Unit(n, t))) / m == (1.0 / m) * Square(At(v, t))
  {
    hide *;
    DotUnit(n, v, t);
    SquareOfConj(At(v, t));
    Dividing(Square(At(v, t)), m);
  }

  lemma Dividing(a: real, m: real)
    requires m > 0.0
    ensures a / m == (1.0 / m) * a && (1.0 / m) * m == 1.0
  {
  }

  lemma SquareOfConj(a: C)
    ensures Square(Conj(a)) == Square(a)
  {
  }

  /** Over the whole basis every vector accounts for one. */
  lemma {:induction false} SharesAddUp(n: nat, vs: seq<Vec>, k: nat, f: int -> real)
    requires k <= |vs| && AllOrthogonal(n, vs)
    requires forall t :: 0 <= t < n ==> f(t) == Share(n, Unit(n, t), vs, k)
    ensures Sums.Sum(n, f) == k as real
  {
    if k == 0 {
      Sums.SumZero(n, f);
    } else {
      var v := vs[k - 1];
      var before, part := t => Share(n, Unit(n, t), vs, k - 1), t => Square(Dot(n, v, Unit(n, t))) / Norm2(n, v);
      SharesAddUp(n, vs, k - 1, before);
      OneInAll(n, v, part);
      hide Dot, Norm2, Square, Unit;
      Sums.SumAdd(n, before, part, f);
    }
  }

  lemma OneInAll(n: nat, v: Vec, part: int -> real)
    requires Norm2(n, v) > 0.0
    requires forall t :: 0 <= t < n ==> part(t) == Square(Dot(n, v, Unit(n, t))) / Norm2(n, v)
    ensures Sums.Sum(n, part) == 1.0
  {
    hide *;
    var m, squares := Norm2(n, v), t => Square(At(v, t));
    NormIsSquares(n, v, squares);
    var c := 1.0 / m;
    forall t | 0 <= t < n ensures part(t) == c * squares(t) { ShareOfUnit(n, v, t, m); }
    Sums.SumScale(n, c, squares, part);
    Dividing(0.0, m);
  }

  lemma NormIsSquares(n: nat, v: Vec, f: int -> real)
    requires forall t :: 0 <= t < n ==> f(t) == Square(At(v, t))
    ensures Norm2(n, v) == Sums.Sum(n, f)
  {
    NormIsSum(n, Fun(v), f);
  }

  /** At most n of them. */
  lemma AtMostDimension(n: nat, vs: seq<Vec>)
    requires AllOrthogonal(n, vs)
    ensures |vs| <= n
  {
    var f, ones := t => Share(n, Unit(n, t), vs, |vs|), t => 1.0;
    SharesAddUp(n, vs, |vs|, f);
    forall t | 0 <= t < n ensures f(t) <= ones(t) {
      Bessel(n, Unit(n, t), vs);
      DotUnit(n, Unit(n, t), t);
    }
    Sums.SumMonotone(n, f, ones);
    SumOfOnes(n, ones);
  }

  lemma {:induction false} SumOfOnes(n: nat, ones: int -> real)
    requires forall t :: 0 <= t < n ==> ones(t) == 1.0
    ensures Sums.Sum(n, ones) == n as real
  {
    if n > 0 { SumOfOnes(n - 1, ones); }
  }
}
