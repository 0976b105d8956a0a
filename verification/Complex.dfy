/** Complex numbers as pairs of reals, finite sums, vectors and matrices. */
module Complex {

  datatype C = C(re: real, im: real)

  const ZERO := C(0.0, 0.0)
  const ONE := C(1.0, 0.0)

  function Plus(a: C, b: C): C { C(a.re + b.re, a.im + b.im) }

  function Minus(a: C, b: C): C { C(a.re - b.re, a.im - b.im) }

  function Mul(a: C, b: C): C { C(a.re * b.re - a.im * b.im, a.re * b.im + a.im * b.re) }

  function Conj(a: C): C { C(a.re, 0.0 - a.im) }

  function Real(r: real): C { C(r, 0.0) }

  // ----- ring laws, stated once so that sums need not multiply -----

  lemma Distribute(a: C, b: C, c: C)
    ensures Mul(a, Plus(b, c)) == Plus(Mul(a, b), Mul(a, c))
    ensures Mul(a, Minus(b, c)) == Minus(Mul(a, b), Mul(a, c))
  {
    DistributePlus(a, b, c);
    DistributePlus(a, b, Minus(ZERO, c));
    NegatedMul(a, c);
    hide Mul;
  }

  lemma DistributePlus(a: C, b: C, c: C)
    ensures Mul(a, Plus(b, c)) == Plus(Mul(a, b), Mul(a, c))
  {
  }

  lemma NegatedMul(a: C, c: C)
    ensures Mul(a, Minus(ZERO, c)) == Minus(ZERO, Mul(a, c))
  {
  }

  lemma Commute(a: C, b: C)
    ensures Mul(a, b) == Mul(b, a)
  {
  }

  lemma Associate(a: C, b: C, c: C)
    ensures Mul(a, Mul(b, c)) == Mul(Mul(a, b), c)
  {
    var p, q := Mul(a, Mul(b, c)), Mul(Mul(a, b), c);
    assert p.re == a.re * (b.re * c.re - b.im * c.im) - a.im * (b.re * c.im + b.im * c.re);
    assert q.re == (a.re * b.re - a.im * b.im) * c.re - (a.re * b.im + a.im * b.re) * c.im;
    assert p.im == a.re * (b.re * c.im + b.im * c.re) + a.im * (b.re * c.re - b.im * c.im);
    assert q.im == (a.re * b.re - a.im * b.im) * c.im + (a.re * b.im + a.im * b.re) * c.re;
  }

  lemma Units(a: C)
    ensures Mul(a, ZERO) == ZERO && Mul(ZERO, a) == ZERO && Mul(ONE, a) == a && Mul(a, ONE) == a
    ensures Plus(a, ZERO) == a && Plus(ZERO, a) == a && Minus(a, ZERO) == a
  {
  }

  lemma Conjugates(a: C, b: C)
    ensures Conj(Mul(a, b)) == Mul(Conj(a), Conj(b)) && Conj(Plus(a, b)) == Plus(Conj(a), Conj(b))
    ensures Conj(Conj(a)) == a
  {
  }

  // ----- sums -----

  function Sum(n: nat, f: int -> C): C {
    if n == 0 then ZERO else Plus(Sum(n - 1, f), f(n - 1))
  }

  lemma {:induction false} SumExt(n: nat, f: int -> C, g: int -> C)
    requires forall i :: 0 <= i < n ==> f(i) == g(i)
    ensures Sum(n, f) == Sum(n, g)
  {
    if n > 0 { SumExt(n - 1, f, g); }
  }

  lemma {:induction false} SumPlus(n: nat, f: int -> C, g: int -> C, h: int -> C)
    requires forall i :: 0 <= i < n ==> h(i) == Plus(f(i), g(i))
    ensures Sum(n, h) == Plus(Sum(n, f), Sum(n, g))
  {
    if n > 0 { SumPlus(n - 1, f, g, h); }
  }

  lemma {:induction false} SumTimes(n: nat, c: C, f: int -> C, h: int -> C)
    requires forall i :: 0 <= i < n ==> h(i) == Mul(c, f(i))
    ensures Sum(n, h) == Mul(c, Sum(n, f))
  {
    if n == 0 {
      Units(c);
    } else {
      SumTimes(n - 1, c, f, h);
      Distribute(c, Sum(n - 1, f), f(n - 1));
    }
  }

  lemma {:induction false} SumConj(n: nat, f: int -> C, h: int -> C)
    requires forall i :: 0 <= i < n ==> h(i) == Conj(f(i))
    ensures Sum(n, h) == Conj(Sum(n, f))
  {
    if n > 0 { SumConj(n - 1, f, h); }
  }

  lemma {:induction false} SumZero(n: nat, f: int -> C)
    requires forall i :: 0 <= i < n ==> f(i) == ZERO
    ensures Sum(n, f) == ZERO
  {
    if n > 0 { SumZero(n - 1, f); }
  }

  lemma {:induction false} SumExchange(m: nat, n: nat, g: (int, int) -> C)
    ensures Sum(m, j => Sum(n, i => g(j, i))) == Sum(n, i => Sum(m, j => g(j, i)))
  {
    if m == 0 {
      SumZero(n, i => Sum(m, j => g(j, i)));
    } else {
      SumExchange(m - 1, n, g);
      SumPlus(n, i => Sum(m - 1, j => g(j, i)), i => g(m - 1, i), i => Sum(m, j => g(j, i)));
    }
  }

  // ----- vectors over a basis of n states, and matrices -----

  type Vec = seq<C>
  type Mat = (int, int) -> C

  function At(v: Vec, i: int): C { if 0 <= i < |v| then v[i] else ZERO }

  /** <u|v>, conjugate-linear in the first argument. */
  function Inner(n: nat, u: int -> C, v: int -> C): C { Sum(n, i => Mul(Conj(u(i)), v(i))) }

  function Row(n: nat, h: Mat, v: int -> C, i: int): C { Sum(n, j => Mul(h(i, j), v(j))) }

  lemma InnerExt(n: nat, u: int -> C, v: int -> C, u': int -> C, v': int -> C)
    requires forall i :: 0 <= i < n ==> u(i) == u'(i) && v(i) == v'(i)
    ensures Inner(n, u, v) == Inner(n, u', v')
  {
    SumExt(n, i => Mul(Conj(u(i)), v(i)), i => Mul(Conj(u'(i)), v'(i)));
  }

  lemma InnerIs(n: nat, u: int -> C, v: int -> C, f: int -> C)
    requires forall i :: 0 <= i < n ==> f(i) == Mul(Conj(u(i)), v(i))
    ensures Inner(n, u, v) == Sum(n, f)
  {
    SumExt(n, f, i => Mul(Conj(u(i)), v(i)));
  }

  lemma InnerHermitian(n: nat, u: int -> C, v: int -> C)
    ensures Inner(n, v, u) == Conj(Inner(n, u, v))
  {
    forall i ensures Mul(Conj(v(i)), u(i)) == Conj(Mul(Conj(u(i)), v(i))) {
      Conjugates(Conj(u(i)), v(i));
      Conjugates(u(i), u(i));
      Commute(Conj(v(i)), u(i));
    }
    hide Mul, Conj;
    SumConj(n, i => Mul(Conj(u(i)), v(i)), i => Mul(Conj(v(i)), u(i)));
  }

  /** Linear in the second argument: x == v + a * w. */
  lemma InnerLinear(n: nat, u: int -> C, v: int -> C, a: C, w: int -> C, x: int -> C)
    requires forall i :: 0 <= i < n ==> x(i) == Plus(v(i), Mul(a, w(i)))
    ensures Inner(n, u, x) == Plus(Inner(n, u, v), Mul(a, Inner(n, u, w)))
  {
    var fv, fw, fx := i => Mul(Conj(u(i)), v(i)), i => Mul(Conj(u(i)), w(i)), i => Mul(Conj(u(i)), x(i));
    var fa := i => Mul(a, fw(i));
    forall i | 0 <= i < n ensures fx(i) == Plus(fv(i), fa(i)) {
      Distribute(Conj(u(i)), v(i), Mul(a, w(i)));
      MoveLeft(Conj(u(i)), a, w(i));
    }
    hide Mul, Conj, Plus;
    SumPlus(n, fv, fa, fx);
    SumTimes(n, a, fw, fa);
  }

  lemma MoveLeft(a: C, b: C, c: C)
    ensures Mul(a, Mul(b, c)) == Mul(b, Mul(a, c))
  {
    hide Mul;
    Associate(a, b, c);
    Commute(a, b);
    Associate(b, a, c);
  }

  lemma RowLinear(n: nat, h: Mat, v: int -> C, a: C, w: int -> C, x: int -> C, i: int)
    requires forall j :: 0 <= j < n ==> x(j) == Plus(v(j), Mul(a, w(j)))
    ensures Row(n, h, x, i) == Plus(Row(n, h, v, i), Mul(a, Row(n, h, w, i)))
  {
    var fv, fw, fx := j => Mul(h(i, j), v(j)), j => Mul(h(i, j), w(j)), j => Mul(h(i, j), x(j));
    var fa := j => Mul(a, fw(j));
    forall j | 0 <= j < n ensures fx(j) == Plus(fv(j), fa(j)) {
      Distribute(h(i, j), v(j), Mul(a, w(j)));
      MoveLeft(h(i, j), a, w(j));
    }
    hide Mul, Plus;
    SumPlus(n, fv, fa, fx);
    SumTimes(n, a, fw, fa);
  }

  /** The conjugate transpose. */
  function Adjoint(q: Mat): Mat { (i, j) => Conj(q(j, i)) }

  /** <v|Q+ z> == <Q v|z> */
  lemma AdjointMoves(n: nat, q: Mat, v: int -> C, z: int -> C)
    ensures Inner(n, v, i => Row(n, Adjoint(q), z, i)) == Inner(n, j => Row(n, q, v, j), z)
  {
    var g := (i, j) => Mul(Conj(v(i)), Mul(Conj(q(j, i)), z(j)));
    var left, right := i => Mul(Conj(v(i)), Row(n, Adjoint(q), z, i)), j => Mul(Conj(Row(n, q, v, j)), z(j));
    forall i ensures left(i) == Sum(n, j => g(i, j)) {
      SumTimes(n, Conj(v(i)), j => Mul(Adjoint(q)(i, j), z(j)), j => g(i, j));
    }
    forall j ensures right(j) == Sum(n, i => g(i, j)) {
      var terms := i => Mul(q(j, i), v(i));
      var conjs := i => Conj(terms(i));
      SumConj(n, terms, conjs);
      forall i ensures g(i, j) == Mul(z(j), conjs(i)) {
        Conjugates(q(j, i), v(i));
        MoveLeft(Conj(v(i)), Conj(q(j, i)), z(j));
        Associate(Conj(q(j, i)), Conj(v(i)), z(j));
        Commute(Mul(Conj(q(j, i)), Conj(v(i))), z(j));
      }
      SumTimes(n, z(j), conjs, i => g(i, j));
      Commute(z(j), Conj(Row(n, q, v, j)));
      SumExt(n, terms, k => Mul(q(j, k), v(k)));
    }
    InnerIs(n, v, i => Row(n, Adjoint(q), z, i), left);
    InnerIs(n, j => Row(n, q, v, j), z, right);
    hide Mul, Conj, Row, Inner;
    SumExchange(n, n, g);
    SumExt(n, left, i => Sum(n, j => g(i, j)));
    SumExt(n, right, i => Sum(n, j => g(j, i)));
  }
}
