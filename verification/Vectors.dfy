/** Finite complex vectors, the product <u|v> and the application of a matrix. */
module Vectors {
  import opened Complex

  const MINUS_ONE := C(0.0 - 1.0, 0.0)

  function Fun(v: Vec): int -> C { i => At(v, i) }

  function Applied(n: nat, h: Mat, v: Vec): (r: Vec)
    ensures |r| == n && forall i :: 0 <= i < n ==> At(r, i) == Row(n, h, Fun(v), i)
  {
    seq(n, i requires 0 <= i < n => Row(n, h, Fun(v), i))
  }

  /** v + a * w */
  function ScaledSum(n: nat, v: Vec, a: C, w: Vec): (r: Vec)
    ensures |r| == n && forall i :: 0 <= i < n ==> At(r, i) == Plus(At(v, i), Mul(a, At(w, i)))
  {
    seq(n, i requires 0 <= i < n => Plus(At(v, i), Mul(a, At(w, i))))
  }

  function Dot(n: nat, u: Vec, v: Vec): C { Inner(n, Fun(u), Fun(v)) }

  function Zeros(n: nat): Vec { seq(n, _ => ZERO) }

  lemma AppliedLinear(n: nat, h: Mat, v: Vec, a: C, w: Vec)
    ensures Applied(n, h, ScaledSum(n, v, a, w)) == ScaledSum(n, Applied(n, h, v), a, Applied(n, h, w))
  {
    var l, r := Applied(n, h, ScaledSum(n, v, a, w)), ScaledSum(n, Applied(n, h, v), a, Applied(n, h, w));
    forall i | 0 <= i < n ensures l[i] == r[i] {
      RowLinear(n, h, Fun(v), a, Fun(w), Fun(ScaledSum(n, v, a, w)), i);
      assert At(l, i) == At(r, i);
    }
  }

  lemma AppliedZeros(n: nat, h: Mat)
    ensures Applied(n, h, Zeros(n)) == Zeros(n)
  {
    forall i | 0 <= i < n ensures Applied(n, h, Zeros(n))[i] == ZERO {
      forall j ensures Mul(h(i, j), Fun(Zeros(n))(j)) == ZERO { Units(h(i, j)); }
      SumZero(n, j => Mul(h(i, j), Fun(Zeros(n))(j)));
      assert At(Applied(n, h, Zeros(n)), i) == ZERO;
    }
  }

  lemma SubtractZeros(n: nat, w: Vec)
    requires |w| == n
    ensures ScaledSum(n, w, MINUS_ONE, Zeros(n)) == w
  {
    var r := ScaledSum(n, w, MINUS_ONE, Zeros(n));
    hide Mul, Plus, ScaledSum;
    Units(MINUS_ONE);
    forall i | 0 <= i < n ensures r[i] == w[i] {
      assert At(r, i) == Plus(w[i], Mul(MINUS_ONE, ZERO));
      Units(w[i]);
    }
  }

  lemma DotScaledSum(n: nat, u: Vec, v: Vec, a: C, w: Vec)
    ensures Dot(n, u, ScaledSum(n, v, a, w)) == Plus(Dot(n, u, v), Mul(a, Dot(n, u, w)))
  {
    InnerLinear(n, Fun(u), Fun(v), a, Fun(w), Fun(ScaledSum(n, v, a, w)));
  }

  lemma DotAdjoint(n: nat, q: Mat, v: Vec, z: Vec)
    ensures Dot(n, v, Applied(n, Adjoint(q), z)) == Dot(n, Applied(n, q, v), z)
  {
    AdjointMoves(n, q, Fun(v), Fun(z));
    InnerExt(n, Fun(v), Fun(Applied(n, Adjoint(q), z)), Fun(v), i => Row(n, Adjoint(q), Fun(z), i));
    InnerExt(n, Fun(Applied(n, q, v)), Fun(z), j => Row(n, q, Fun(v), j), Fun(z));
  }

  lemma DotHermitian(n: nat, u: Vec, v: Vec)
    ensures Dot(n, v, u) == Conj(Dot(n, u, v))
  {
    InnerHermitian(n, Fun(u), Fun(v));
  }

  lemma DotZeros(n: nat, z: Vec)
    ensures Dot(n, Zeros(n), z) == ZERO
  {
    hide Mul, Conj, Inner;
    var f := i => Mul(Conj(At(Zeros(n), i)), At(z, i));
    ConjZero();
    forall i ensures At(Zeros(n), i) == ZERO && f(i) == ZERO { Units(At(z, i)); }
    InnerIs(n, Fun(Zeros(n)), Fun(z), f);
    SumZero(n, f);
  }

  function Norm2(n: nat, v: Vec): real { Dot(n, v, v).re }

  function Difference(n: nat, v: Vec, w: Vec): Vec { ScaledSum(n, v, MINUS_ONE, w) }

  lemma {:induction false} SelfDotIsNonNegative(n: nat, v: int -> C)
    ensures Inner(n, v, v).re >= 0.0
  {
    if n > 0 {
      SelfDotIsNonNegative(n - 1, v);
      var a := v(n - 1);
      assert Mul(Conj(a), a).re == a.re * a.re + a.im * a.im;
    }
  }

  lemma NormOfSum(n: nat, a: Vec, b: Vec)
    requires Dot(n, a, b) == ZERO
    ensures Norm2(n, ScaledSum(n, a, ONE, b)) == Norm2(n, a) + Norm2(n, b)
  {
    var s := ScaledSum(n, a, ONE, b);
    hide Dot, ScaledSum;
    DotScaledSum(n, s, a, ONE, b);
    DotHermitian(n, a, s);
    DotHermitian(n, b, s);
    DotScaledSum(n, a, a, ONE, b);
    DotScaledSum(n, b, a, ONE, b);
    DotHermitian(n, a, b);
  }

  lemma ConjZero()
    ensures Conj(ZERO) == ZERO
  {
  }

  lemma NormIsNonNegative(n: nat, v: Vec)
    ensures Norm2(n, v) >= 0.0
  {
    SelfDotIsNonNegative(n, Fun(v));
  }

  lemma SelfDotIsReal(n: nat, v: Vec)
    ensures Dot(n, v, v) == Real(Norm2(n, v))
    ensures Dot(n, v, v).im == 0.0 && Dot(n, v, v).re >= 0.0
  {
    DotHermitian(n, v, v);
    SelfDotIsNonNegative(n, Fun(v));
  }
}
