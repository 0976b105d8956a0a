/** The forward Krylov solve of `fock_sirk/src/forward_sirk.rs` over exact complex
    vectors: the shifted recurrence in both frames, the Gram matrix, the projected
    matrix, and the residual read off the Gram matrix alone.
    No gauge charge, pruning or truncation is applied between steps. */
module Krylov {
  import opened Complex
  import opened Brst
  import opened Vectors
  import Gram

  function Scaled(n: nat, tau: real, v: Vec): Vec { ScaledSum(n, Zeros(n), Real(tau), v) }

  /** The square-rooted norm is taken as given. */
  ghost predicate IsNorm(n: nat, norm: Vec -> real) {
    forall v :: norm(v) >= 0.0 && norm(v) * norm(v) == Dot(n, v, v).re
  }

  /** H u_k == tau_{k+1} u_{k+1} + z_k u_k */
  ghost predicate Steps(n: nat, h: Mat, w: seq<Vec>, scales: seq<real>, shifts: seq<C>, k: nat)
    requires k < |shifts| && |w| > k + 1 && |scales| > k + 1
  {
    Applied(n, h, w[k]) == ScaledSum(n, Scaled(n, scales[k + 1], w[k + 1]), shifts[k], w[k])
  }

  ghost predicate Recurrence(n: nat, h: Mat, w: seq<Vec>, scales: seq<real>, shifts: seq<C>) {
    && |w| == |scales| == |shifts| + 1
    && (forall k :: 0 <= k < |w| ==> |w[k]| == n)
    && (forall k :: 0 <= k < |shifts| ==> Steps(n, h, w, scales, shifts, k))
  }

  /** What the frame does to a stored vector: raw, normalised, or raw after a breakdown. */
  ghost predicate Framed(n: nat, unitNorm: bool, norm: Vec -> real, v: Vec, tau: real) {
    || (tau == 1.0 && (unitNorm ==> norm(v) <= BREAKDOWN))
    || (unitNorm && tau > BREAKDOWN && Dot(n, v, v) == ONE)
  }

  /** (H - z) u, divided by tau, steps as the recurrence says. */
  lemma StepIdentity(n: nat, hu: Vec, u: Vec, z: C, tau: real)
    requires |hu| == n && tau != 0.0
    ensures var next := ScaledSum(n, hu, C(0.0 - z.re, 0.0 - z.im), u);
            hu == ScaledSum(n, Scaled(n, tau, Scaled(n, 1.0 / tau, next)), z, u)
  {
    var next := ScaledSum(n, hu, C(0.0 - z.re, 0.0 - z.im), u);
    var v := Scaled(n, 1.0 / tau, next);
    var r := ScaledSum(n, Scaled(n, tau, v), z, u);
    forall i | 0 <= i < n ensures hu[i] == r[i] {
      assert At(next, i) == Plus(At(hu, i), Mul(C(0.0 - z.re, 0.0 - z.im), At(u, i)));
      assert At(v, i) == Plus(ZERO, Mul(Real(1.0 / tau), At(next, i)));
      assert r[i] == At(r, i) == Plus(Plus(ZERO, Mul(Real(tau), At(v, i))), Mul(z, At(u, i)));
      StepEntry(At(hu, i), z, At(u, i), tau);
    }
  }

  lemma StepEntry(a: C, z: C, u: C, tau: real)
    requires tau != 0.0
    ensures var next := Plus(a, Mul(C(0.0 - z.re, 0.0 - z.im), u));
            Plus(Plus(ZERO, Mul(Real(tau), Plus(ZERO, Mul(Real(1.0 / tau), next)))), Mul(z, u)) == a
  {
    var next := Plus(a, Mul(C(0.0 - z.re, 0.0 - z.im), u));
    Undo(tau, next.re);
    Undo(tau, next.im);
    assert Mul(Real(1.0 / tau), next) == C((1.0 / tau) * next.re, (1.0 / tau) * next.im);
  }

  lemma Undo(tau: real, x: real)
    requires tau != 0.0
    ensures tau * ((1.0 / tau) * x) == x
  {
    assert tau * (1.0 / tau) == 1.0;
  }

  lemma RawStep(n: nat, hu: Vec, u: Vec, z: C)
    requires |hu| == n
    ensures hu == ScaledSum(n, Scaled(n, 1.0, ScaledSum(n, hu, C(0.0 - z.re, 0.0 - z.im), u)), z, u)
  {
    var next := ScaledSum(n, hu, C(0.0 - z.re, 0.0 - z.im), u);
    var r := ScaledSum(n, Scaled(n, 1.0, next), z, u);
    forall i | 0 <= i < n ensures hu[i] == r[i] {
      assert At(next, i) == Plus(At(hu, i), Mul(C(0.0 - z.re, 0.0 - z.im), At(u, i)));
      assert r[i] == At(r, i) == Plus(Plus(ZERO, Mul(Real(1.0), At(next, i))), Mul(z, At(u, i)));
      assert At(hu, i) == hu[i];
    }
  }

  lemma DotZerosRight(n: nat, u: Vec)
    ensures Dot(n, u, Zeros(n)) == ZERO
  {
    hide Dot, Zeros;
    DotZeros(n, u);
    DotHermitian(n, Zeros(n), u);
    ConjZero();
  }

  lemma DotScaled(n: nat, u: Vec, tau: real, v: Vec)
    ensures Dot(n, u, Scaled(n, tau, v)) == Mul(Real(tau), Dot(n, u, v))
  {
    hide Dot, ScaledSum, Zeros, Mul, Plus;
    DotScaledSum(n, u, Zeros(n), Real(tau), v);
    DotZerosRight(n, u);
    Units(Mul(Real(tau), Dot(n, u, v)));
  }

  lemma Normalised(n: nat, v: Vec, t: real)
    requires t > 0.0 && t * t == Dot(n, v, v).re
    ensures Dot(n, Scaled(n, 1.0 / t, v), Scaled(n, 1.0 / t, v)) == ONE
  {
    hide Dot, Scaled, Mul, Conj;
    var s := Scaled(n, 1.0 / t, v);
    DotScaled(n, s, 1.0 / t, v);
    DotScaled(n, v, 1.0 / t, v);
    DotHermitian(n, v, s);
    SelfDotIsReal(n, v);
    UnitSquare(t, Dot(n, v, v));
  }

  lemma UnitSquare(t: real, g: C)
    requires t > 0.0 && g == C(t * t, 0.0)
    ensures Mul(Real(1.0 / t), Conj(Mul(Real(1.0 / t), g))) == ONE
  {
    var i := 1.0 / t;
    assert i * t == 1.0;
    assert Mul(Real(i), g) == C(i * (t * t), 0.0);
    assert i * (i * (t * t)) == (i * t) * (i * t);
  }

  method ForwardSequence(n: nat, h: Mat, v0: Vec, shifts: seq<C>, norm: Vec -> real, unitNorm: bool)
    returns (scales: seq<real>, w: seq<Vec>)
    requires |v0| == n && IsNorm(n, norm)
    ensures Recurrence(n, h, w, scales, shifts)
    ensures w[0] == v0 && scales[0] == 1.0
    ensures forall k :: 0 < k < |w| ==> Framed(n, unitNorm, norm, w[k], scales[k])
  {
    hide Applied, ScaledSum, Dot;
    scales, w := [1.0], [v0];
    for k := 0 to |shifts|
      invariant |w| == |scales| == k + 1
      invariant w[0] == v0 && scales[0] == 1.0
      invariant forall j :: 0 <= j < |w| ==> |w[j]| == n
      invariant forall j :: 0 <= j < k ==> Steps(n, h, w, scales, shifts, j)
      invariant forall j :: 0 < j < |w| ==> Framed(n, unitNorm, norm, w[j], scales[j])
    {
      var hu := Applied(n, h, w[k]);
      var nextW := ScaledSum(n, hu, C(0.0 - shifts[k].re, 0.0 - shifts[k].im), w[k]);
      var tau, stored := 1.0, nextW;
      RawStep(n, hu, w[k], shifts[k]);
      if unitNorm {
        var nk := norm(nextW);
        if nk > BREAKDOWN {
          StepIdentity(n, hu, w[k], shifts[k], nk);
          Normalised(n, nextW, nk);
          tau, stored := nk, Scaled(n, 1.0 / nk, nextW);
        }
      }
      ghost var w', scales' := w, scales;
      scales, w := scales + [tau], w + [stored];
      assert forall j :: 0 <= j < k ==> Steps(n, h, w', scales', shifts, j) ==> Steps(n, h, w, scales, shifts, j);
      assert Steps(n, h, w, scales, shifts, k);
    }
  }

  // ----- the Gram matrix and the projected matrix -----

  method SetEntry(g: array2<C>, j: nat, k: nat, val: C)
    requires j < g.Length0 == g.Length1 && k < g.Length0
    modifies g
    ensures g[j, k] == val && (j != k ==> g[k, j] == Conj(val))
    ensures forall a, b :: 0 <= a < g.Length0 && 0 <= b < g.Length0 && (a, b) != (j, k) && (a, b) != (k, j) ==>
              g[a, b] == old(g[a, b])
  {
    g[j, k] := val;
    if j != k { g[k, j] := Conj(val); }
  }

  method GramMatrix(n: nat, w: seq<Vec>) returns (g: array2<C>)
    ensures g.Length0 == g.Length1 == |w|
    ensures forall j, k :: 0 <= j < |w| && 0 <= k < |w| ==> g[j, k] == Dot(n, w[j], w[k])
  {
    hide *;
    g := new C[|w|, |w|]((_, _) => ZERO);
    for j := 0 to |w|
      invariant forall a, b :: 0 <= a < |w| && 0 <= b < |w| && (a < j || b < j) ==> g[a, b] == Dot(n, w[a], w[b])
    {
      for k := j to |w|
        invariant forall a, b :: 0 <= a < |w| && 0 <= b < |w| && (a < j || b < j) ==> g[a, b] == Dot(n, w[a], w[b])
        invariant forall b :: j <= b < k ==> g[j, b] == Dot(n, w[j], w[b]) && g[b, j] == Dot(n, w[b], w[j])
      {
        DotHermitian(n, w[j], w[k]);
        SetEntry(g, j, k, Dot(n, w[j], w[k]));
      }
    }
  }

  lemma ProjectedEntry(n: nat, h: Mat, u: Vec, w: seq<Vec>, scales: seq<real>, shifts: seq<C>, k: nat)
    requires Recurrence(n, h, w, scales, shifts) && k < |shifts|
    ensures Dot(n, u, Applied(n, h, w[k]))
         == Plus(Mul(Real(scales[k + 1]), Dot(n, u, w[k + 1])), Mul(shifts[k], Dot(n, u, w[k])))
  {
    hide Dot, Scaled, ScaledSum, Applied, Mul, Plus;
    assert Steps(n, h, w, scales, shifts, k);
    DotScaledSum(n, u, Scaled(n, scales[k + 1], w[k + 1]), shifts[k], w[k]);
    DotScaled(n, u, scales[k + 1], w[k + 1]);
  }

  method ProjectedMatrix(g: array2<C>, scales: seq<real>, shifts: seq<C>,
                         ghost n: nat, ghost h: Mat, ghost w: seq<Vec>)
    returns (raw: array2<C>)
    requires Recurrence(n, h, w, scales, shifts)
    requires g.Length0 == g.Length1 == |w|
    requires forall j, k :: 0 <= j < |w| && 0 <= k < |w| ==> g[j, k] == Dot(n, w[j], w[k])
    ensures raw.Length0 == raw.Length1 == |shifts|
    ensures forall j, k :: 0 <= j < |shifts| && 0 <= k < |shifts| ==>
              raw[j, k] == Dot(n, w[j], Applied(n, h, w[k]))
  {
    hide Dot, Applied, Mul, Plus, Steps;
    var m := |shifts|;
    raw := new C[m, m]((_, _) => ZERO);
    for j := 0 to m
      invariant forall a, b :: 0 <= a < j && 0 <= b < m ==> raw[a, b] == Dot(n, w[a], Applied(n, h, w[b]))
    {
      for k := 0 to m
        invariant forall a, b :: 0 <= a < j && 0 <= b < m ==> raw[a, b] == Dot(n, w[a], Applied(n, h, w[b]))
        invariant forall b :: 0 <= b < k ==> raw[j, b] == Dot(n, w[j], Applied(n, h, w[b]))
      {
        ProjectedEntry(n, h, w[j], w, scales, shifts, k);
        raw[j, k] := Plus(Mul(Real(scales[k + 1]), g[j, k + 1]), Mul(shifts[k], g[j, k]));
      }
    }
  }

  // ----- linear combinations of the stored vectors -----

  function Combine(n: nat, p: nat, a: int -> C, w: seq<Vec>): (r: Vec)
    requires p <= |w|
    ensures |r| == n
  {
    if p == 0 then Zeros(n) else ScaledSum(n, Combine(n, p - 1, a, w), a(p - 1), w[p - 1])
  }

  lemma {:induction false} CombineExt(n: nat, p: nat, a: int -> C, b: int -> C, w: seq<Vec>)
    requires p <= |w| && forall j :: 0 <= j < p ==> a(j) == b(j)
    ensures Combine(n, p, a, w) == Combine(n, p, b, w)
  {
    if p > 0 { CombineExt(n, p - 1, a, b, w); }
  }

  lemma {:induction false} DotCombine(n: nat, u: Vec, p: nat, a: int -> C, w: seq<Vec>, f: int -> C)
    requires p <= |w| && forall k :: 0 <= k < p ==> f(k) == Mul(a(k), Dot(n, u, w[k]))
    ensures Dot(n, u, Combine(n, p, a, w)) == Sum(p, f)
  {
    hide Dot, ScaledSum, Mul, Conj, Zeros;
    if p == 0 {
      DotZerosRight(n, u);
    } else {
      DotCombine(n, u, p - 1, a, w, f);
      DotScaledSum(n, u, Combine(n, p - 1, a, w), a(p - 1), w[p - 1]);
    }
  }

  /** The coordinates of H psi after the first `p` coefficients of psi. */
  function ImageAt(c: int -> C, scales: seq<real>, shifts: seq<C>, p: nat, j: int): C
    requires p <= |shifts| < |scales|
  {
    Plus(if 0 <= j < p then Mul(shifts[j], c(j)) else ZERO,
         if 1 <= j <= p then Mul(Real(scales[j]), c(j - 1)) else ZERO)
  }

  function Image(c: int -> C, scales: seq<real>, shifts: seq<C>, p: nat): int -> C
    requires p <= |shifts| < |scales|
  {
    j => ImageAt(c, scales, shifts, p, j)
  }

  lemma ImageEntry(x: C, a: C, z: C, c: C, t: C, u: C, v: C)
    ensures Plus(Plus(x, Mul(Plus(a, Mul(z, c)), u)), Mul(Mul(t, c), v))
         == Plus(Plus(x, Mul(a, u)), Mul(c, Plus(Plus(ZERO, Mul(t, v)), Mul(z, u))))
  {
    hide Mul;
    Commute(Plus(a, Mul(z, c)), u);
    Distribute(u, a, Mul(z, c));
    Commute(u, a);
    Commute(u, Mul(z, c));
    Commute(z, c);
    Associate(c, z, u);
    Commute(t, c);
    Associate(c, t, v);
    Units(Mul(t, v));
    Distribute(c, Mul(t, v), Mul(z, u));
  }

  /** One more coefficient extends both sides alike. */
  lemma ImageStep(n: nat, x: Vec, a: C, z: C, c: C, tau: real, u: Vec, v: Vec)
    requires |x| == n
    ensures ScaledSum(n, ScaledSum(n, x, Plus(a, Mul(z, c)), u), Mul(Real(tau), c), v)
         == ScaledSum(n, ScaledSum(n, x, a, u), c, ScaledSum(n, Scaled(n, tau, v), z, u))
  {
    var s := ScaledSum(n, Scaled(n, tau, v), z, u);
    var l := ScaledSum(n, ScaledSum(n, x, Plus(a, Mul(z, c)), u), Mul(Real(tau), c), v);
    var r := ScaledSum(n, ScaledSum(n, x, a, u), c, s);
    hide Mul, Plus;
    forall i | 0 <= i < n ensures l[i] == r[i] {
      assert l[i] == At(l, i) == Plus(Plus(At(x, i), Mul(Plus(a, Mul(z, c)), At(u, i))),
          Mul(Mul(Real(tau), c), At(v, i)));
      assert At(s, i) == Plus(Plus(ZERO, Mul(Real(tau), At(v, i))), Mul(z, At(u, i)));
      assert r[i] == At(r, i) == Plus(Plus(At(x, i), Mul(a, At(u, i))), Mul(c, At(s, i)));
      ImageEntry(At(x, i), a, z, c, Real(tau), At(u, i), At(v, i));
    }
  }

  /** H maps the combination with coefficients c to the one with coordinates d. */
  lemma {:induction false} ImageIsApplied(n: nat, h: Mat, w: seq<Vec>, scales: seq<real>, shifts: seq<C>,
                                          c: int -> C, p: nat)
    requires Recurrence(n, h, w, scales, shifts) && p <= |shifts|
    ensures Applied(n, h, Combine(n, p, c, w)) == Combine(n, p + 1, Image(c, scales, shifts, p), w)
  {
    hide Image, ImageAt, Applied, ScaledSum, Scaled, Mul, Plus, Zeros;
    var d := Image(c, scales, shifts, p);
    if p == 0 {
      assert d(0) == ZERO by { ImageStart(c, scales, shifts); }
      AppliedZeros(n, h);
      AddNothing(n, Zeros(n), w[0]);
    } else {
      var q := p - 1;
      var d' := Image(c, scales, shifts, q);
      ImageIsApplied(n, h, w, scales, shifts, c, q);
      ImageGrows(c, scales, shifts, p);
      CombineExt(n, q, d, d', w);
      var x := Combine(n, q, d', w);
      assert Steps(n, h, w, scales, shifts, q);
      AppliedLinear(n, h, Combine(n, q, c, w), c(q), w[q]);
      ImageStep(n, x, d'(q), shifts[q], c(q), scales[p], w[q], w[p]);
      assert Combine(n, p, d, w) == ScaledSum(n, x, d(q), w[q]);
      assert Combine(n, p, d', w) == ScaledSum(n, x, d'(q), w[q]);
    }
  }

  lemma ImageStart(c: int -> C, scales: seq<real>, shifts: seq<C>)
    requires |shifts| < |scales|
    ensures Image(c, scales, shifts, 0)(0) == ZERO
  {
  }

  lemma ImageGrows(c: int -> C, scales: seq<real>, shifts: seq<C>, p: nat)
    requires 0 < p <= |shifts| < |scales|
    ensures forall j :: 0 <= j < p - 1 ==> Image(c, scales, shifts, p)(j) == Image(c, scales, shifts, p - 1)(j)
    ensures Image(c, scales, shifts, p)(p - 1)
         == Plus(Image(c, scales, shifts, p - 1)(p - 1), Mul(shifts[p - 1], c(p - 1)))
    ensures Image(c, scales, shifts, p)(p) == Mul(Real(scales[p]), c(p - 1))
  {
    hide Mul, Real;
    var z, t := Mul(shifts[p - 1], c(p - 1)), Mul(Real(scales[p]), c(p - 1));
    assert ImageAt(c, scales, shifts, p, p) == Plus(ZERO, t);
    assert Image(c, scales, shifts, p)(p) == ImageAt(c, scales, shifts, p, p);
    assert Image(c, scales, shifts, p)(p - 1) == ImageAt(c, scales, shifts, p, p - 1);
    assert Image(c, scales, shifts, p - 1)(p - 1) == ImageAt(c, scales, shifts, p - 1, p - 1);
  }

  lemma AddNothing(n: nat, v: Vec, u: Vec)
    requires |v| == n
    ensures ScaledSum(n, v, ZERO, u) == v
  {
    var r := ScaledSum(n, v, ZERO, u);
    forall i | 0 <= i < n ensures r[i] == v[i] { assert r[i] == At(r, i); }
  }

  /** Coefficient by coefficient: e == d + s * c. */
  lemma {:induction false} CombineLinear(n: nat, p: nat, d: int -> C, s: C, c: int -> C, e: int -> C, w: seq<Vec>)
    requires p <= |w| && forall j :: 0 <= j < p ==> e(j) == Plus(d(j), Mul(s, c(j)))
    ensures Combine(n, p, e, w) == ScaledSum(n, Combine(n, p, d, w), s, Combine(n, p, c, w))
  {
    var l, r := Combine(n, p, e, w), ScaledSum(n, Combine(n, p, d, w), s, Combine(n, p, c, w));
    if p == 0 {
      forall i | 0 <= i < n ensures l[i] == r[i] {
        assert At(r, i) == Plus(ZERO, Mul(s, ZERO));
        Units(s);
      }
    } else {
      var q := p - 1;
      CombineLinear(n, q, d, s, c, e, w);
      hide Plus, Mul;
      forall i | 0 <= i < n ensures l[i] == r[i] {
        assert l[i] == At(l, i) == Plus(At(Combine(n, q, e, w), i), Mul(e(q), At(w[q], i)));
        assert At(Combine(n, p, d, w), i) == Plus(At(Combine(n, q, d, w), i), Mul(d(q), At(w[q], i)));
        assert At(Combine(n, p, c, w), i) == Plus(At(Combine(n, q, c, w), i), Mul(c(q), At(w[q], i)));
        assert r[i] == At(r, i) == Plus(At(Combine(n, p, d, w), i), Mul(s, At(Combine(n, p, c, w), i)));
        LinearEntry(At(Combine(n, q, d, w), i), At(Combine(n, q, c, w), i), d(q), s, c(q), At(w[q], i));
      }
    }
  }

  lemma LinearEntry(x: C, y: C, d: C, s: C, c: C, u: C)
    ensures Plus(Plus(x, Mul(s, y)), Mul(Plus(d, Mul(s, c)), u)) == Plus(Plus(x, Mul(d, u)), Mul(s, Plus(y, Mul(c, u))))
  {
    hide Mul;
    Distribute(s, y, Mul(c, u));
    Associate(s, c, u);
    Commute(Plus(d, Mul(s, c)), u);
    Distribute(u, d, Mul(s, c));
    Commute(u, d);
    Commute(u, Mul(s, c));
  }

  // ----- the residual -----

  /** H psi - theta psi, for psi the combination of the first |shifts| vectors. */
  function ResidualVector(n: nat, h: Mat, m: nat, c: int -> C, w: seq<Vec>, theta: real): Vec
    requires m <= |w|
  {
    ScaledSum(n, Applied(n, h, Combine(n, m, c, w)), Real(0.0 - theta), Combine(n, m, c, w))
  }

  /** The coordinates `e` that the code forms. */
  ghost predicate IsResidualCoordinates(c: Vec, scales: seq<real>, shifts: seq<C>, theta: real, e: Vec)
    requires |c| == |shifts| > 0 && |scales| == |shifts| + 1
  {
    var m := |shifts|;
    && |e| == m + 1
    && e[m] == Mul(Real(scales[m]), c[m - 1])
    && forall j :: 0 <= j < m ==>
         e[j] == Minus(Image(Fun(c), scales, shifts, m)(j), Mul(Real(theta), c[j]))
  }

  lemma CoordinateAsSum(scales: seq<real>, shifts: seq<C>, c: Vec, theta: real, e: Vec, j: nat)
    requires |c| == |shifts| > 0 && |scales| == |shifts| + 1 && IsResidualCoordinates(c, scales, shifts, theta, e)
    requires j <= |shifts|
    ensures At(e, j) == Plus(Image(Fun(c), scales, shifts, |shifts|)(j), Mul(Real(0.0 - theta), At(c, j)))
  {
    var d := Image(Fun(c), scales, shifts, |shifts|)(j);
    ImageGrows(Fun(c), scales, shifts, |shifts|);
    hide *;
    NegatedTerm(d, theta, At(c, j));
    CoordinateCases(scales, shifts, c, theta, e, j);
  }

  lemma CoordinateCases(scales: seq<real>, shifts: seq<C>, c: Vec, theta: real, e: Vec, j: nat)
    requires |c| == |shifts| > 0 && |scales| == |shifts| + 1 && IsResidualCoordinates(c, scales, shifts, theta, e)
    requires j <= |shifts|
    ensures At(c, |shifts|) == ZERO && Fun(c)(|shifts| - 1) == c[|shifts| - 1]
    ensures j < |shifts| ==> At(e, j) == Minus(Image(Fun(c), scales, shifts, |shifts|)(j), Mul(Real(theta), At(c, j)))
    ensures j == |shifts| ==> At(e, j) == Mul(Real(scales[j]), c[j - 1])
  {
    hide Image, Mul, Minus, Real;
  }

  /** The last stored vector takes no coefficient of psi. */
  lemma PadCombination(n: nat, h: Mat, w: seq<Vec>, c: Vec, theta: real)
    requires |w| == |c| + 1 && forall k :: 0 <= k < |w| ==> |w[k]| == n
    ensures Combine(n, |w|, Fun(c), w) == Combine(n, |c|, Fun(c), w)
    ensures ResidualVector(n, h, |c|, Fun(c), w, theta)
         == ScaledSum(n, Applied(n, h, Combine(n, |c|, Fun(c), w)), Real(0.0 - theta), Combine(n, |c|, Fun(c), w))
  {
    var m := |c|;
    assert Combine(n, m + 1, Fun(c), w) == ScaledSum(n, Combine(n, m, Fun(c), w), Fun(c)(m), w[m]);
    hide ScaledSum, Applied, Combine;
    AddNothing(n, Combine(n, m, Fun(c), w), w[m]);
  }

  lemma CoordinatesOfResidual(n: nat, h: Mat, w: seq<Vec>, scales: seq<real>, shifts: seq<C>,
                              c: Vec, theta: real, e: Vec)
    requires Recurrence(n, h, w, scales, shifts) && |c| == |shifts| > 0
    requires IsResidualCoordinates(c, scales, shifts, theta, e)
    ensures ResidualVector(n, h, |shifts|, Fun(c), w, theta) == Combine(n, |w|, Fun(e), w)
  {
    assert |w| == |shifts| + 1 && forall k :: 0 <= k < |w| ==> |w[k]| == n;
    hide *;
    CombinedCoordinates(n, w, scales, shifts, c, theta, e);
    ImageIsApplied(n, h, w, scales, shifts, Fun(c), |shifts|);
    PadCombination(n, h, w, c, theta);
  }

  lemma CombinedCoordinates(n: nat, w: seq<Vec>, scales: seq<real>, shifts: seq<C>, c: Vec, theta: real, e: Vec)
    requires |c| == |shifts| > 0 && |scales| == |w| == |shifts| + 1 &&
        IsResidualCoordinates(c, scales, shifts, theta, e)
    ensures Combine(n, |w|, Fun(e), w)
         == ScaledSum(n, Combine(n, |w|, Image(Fun(c), scales, shifts, |shifts|), w), Real(0.0 - theta),
             Combine(n, |w|, Fun(c), w))
  {
    hide *;
    var s := Real(0.0 - theta);
    var d := Image(Fun(c), scales, shifts, |shifts|);
    forall j | 0 <= j < |w| ensures Fun(e)(j) == Plus(d(j), Mul(s, Fun(c)(j))) {
      CoordinateAsSum(scales, shifts, c, theta, e, j);
      FunIs(c, j);
      FunIs(e, j);
    }
    CombineLinear(n, |w|, d, s, Fun(c), Fun(e), w);
  }

  lemma FunIs(v: Vec, j: int)
    ensures Fun(v)(j) == At(v, j)
  {
  }

  lemma NegatedTerm(d: C, theta: real, c: C)
    ensures Plus(d, Mul(Real(0.0 - theta), c)) == Minus(d, Mul(Real(theta), c))
    ensures c == ZERO ==> Minus(d, Mul(Real(theta), c)) == d
  {
  }

  /** (e+ G) e, in the order the matrix products are taken. */
  function Quadratic(p: nat, g: (int, int) -> C, e: int -> C): C {
    Sum(p, k => Mul(Sum(p, j => Mul(Conj(e(j)), g(j, k))), e(k)))
  }

  lemma QuadraticIsNorm(n: nat, p: nat, w: seq<Vec>, g: (int, int) -> C, e: int -> C)
    requires p <= |w| && forall j, k :: 0 <= j < p && 0 <= k < p ==> g(j, k) == Dot(n, w[j], w[k])
    ensures Quadratic(p, g, e) == Dot(n, Combine(n, p, e, w), Combine(n, p, e, w))
  {
    var r := Combine(n, p, e, w);
    var f := k => Mul(Sum(p, j => Mul(Conj(e(j)), g(j, k))), e(k));
    forall k | 0 <= k < p ensures f(k) == Mul(e(k), Dot(n, r, w[k])) {
      hide Dot, Combine;
      LeftCombine(n, p, w, g, e, k);
      SumExt(p, j => Mul(Conj(e(j)), g(j, k)), j => Mul(Conj(e(j)), g(j, k)));
      Commute(e(k), Dot(n, r, w[k]));
    }
    hide Mul, Dot, Combine;
    DotCombine(n, r, p, e, w, f);
    SumExt(p, f, k => Mul(Sum(p, j => Mul(Conj(e(j)), g(j, k))), e(k)));
  }

  lemma LeftCombine(n: nat, p: nat, w: seq<Vec>, g: (int, int) -> C, e: int -> C, k: int)
    requires p <= |w| && 0 <= k < p
    requires forall j, k :: 0 <= j < p && 0 <= k < p ==> g(j, k) == Dot(n, w[j], w[k])
    ensures Dot(n, Combine(n, p, e, w), w[k]) == Sum(p, j => Mul(Conj(e(j)), g(j, k)))
  {
    hide Dot, Combine, Mul, Conj;
    var f := j => Mul(e(j), g(k, j));
    var f' := j => Mul(Conj(e(j)), g(j, k));
    DotCombine(n, w[k], p, e, w, f);
    forall j | 0 <= j < p ensures f'(j) == Conj(f(j)) {
      Conjugates(e(j), g(k, j));
      DotHermitian(n, w[k], w[j]);
    }
    SumConj(p, f, f');
    DotHermitian(n, w[k], Combine(n, p, e, w));
  }

  lemma ImageEntryIs(scales: seq<real>, shifts: seq<C>, c: Vec, j: nat)
    requires j < |c| == |shifts| < |scales|
    ensures Image(Fun(c), scales, shifts, |shifts|)(j)
         == if j == 0 then Plus(ZERO, Mul(shifts[j], c[j]))
            else Plus(Plus(ZERO, Mul(shifts[j], c[j])), Mul(Real(scales[j]), c[j - 1]))
  {
    hide Mul, Real;
    assert Image(Fun(c), scales, shifts, |shifts|)(j) == ImageAt(Fun(c), scales, shifts, |shifts|, j);
  }

  method ImageCoordinates(scales: seq<real>, shifts: seq<C>, c: Vec) returns (d: array<C>)
    requires |c| == |shifts| > 0 && |scales| == |shifts| + 1
    ensures fresh(d) && d.Length == |shifts| + 1
    ensures forall j :: 0 <= j < |shifts| ==> d[j] == Image(Fun(c), scales, shifts, |shifts|)(j)
  {
    hide Mul, Plus, Real, Image, ImageAt;
    var m := |shifts|;
    d := new C[m + 1](_ => ZERO);
    for j := 0 to m
      invariant forall i :: 0 <= i < j ==> d[i] == Plus(ZERO, Mul(shifts[i], c[i]))
      invariant forall i :: j <= i <= m ==> d[i] == ZERO
    {
      d[j] := Plus(d[j], Mul(shifts[j], c[j]));
    }
    assert forall i :: 0 <= i < m ==> d[i] == Plus(ZERO, Mul(shifts[i], c[i]));
    ImageEntryIs(scales, shifts, c, 0);
    for j := 1 to m + 1
      invariant forall i :: 0 <= i < j && i < m ==> d[i] == Image(Fun(c), scales, shifts, m)(i)
      invariant forall i :: j <= i < m ==> d[i] == Plus(ZERO, Mul(shifts[i], c[i]))
    {
      d[j] := Plus(d[j], Mul(Real(scales[j]), c[j - 1]));
      if j < m { ImageEntryIs(scales, shifts, c, j); }
    }
  }

  method ResidualCoordinates(scales: seq<real>, shifts: seq<C>, c: Vec, theta: real) returns (coords: Vec)
    requires |c| == |shifts| > 0 && |scales| == |shifts| + 1
    ensures IsResidualCoordinates(c, scales, shifts, theta, coords)
  {
    hide Mul, Plus, Minus, Real, Image, ImageAt;
    var m := |shifts|;
    var d := ImageCoordinates(scales, shifts, c);
    var e := new C[m + 1](_ => ZERO);
    for j := 0 to m
      invariant forall i :: 0 <= i < m ==> d[i] == Image(Fun(c), scales, shifts, m)(i)
      invariant forall i :: 0 <= i < j ==>
                  e[i] == Minus(Image(Fun(c), scales, shifts, m)(i), Mul(Real(theta), c[i]))
    {
      e[j] := Minus(d[j], Mul(Real(theta), c[j]));
    }
    e[m] := Mul(Real(scales[m]), c[m - 1]);
    coords := e[..];
  }

  /** The squared residual read off the Gram matrix: clipping at zero never acts. */
  method SquaredResidual(g: array2<C>, scales: seq<real>, shifts: seq<C>, c: Vec, theta: real,
                         ghost n: nat, ghost h: Mat, ghost w: seq<Vec>)
    returns (res2: real)
    requires Recurrence(n, h, w, scales, shifts) && |c| == |shifts| > 0
    requires g.Length0 == g.Length1 == |w|
    requires forall j, k :: 0 <= j < |w| && 0 <= k < |w| ==> g[j, k] == Dot(n, w[j], w[k])
    ensures res2 == Norm2(n, ResidualVector(n, h, |shifts|, Fun(c), w, theta))
  {
    hide Mul, Plus, Dot, Combine, ScaledSum, Applied, Quadratic, Image, IsResidualCoordinates, Steps;
    var m := |shifts|;
    var e := ResidualCoordinates(scales, shifts, c, theta);
    var entries := seq(m + 1, j requires 0 <= j < m + 1 reads g =>
      seq(m + 1, k requires 0 <= k < m + 1 reads g => g[j, k]));
    var gram := (j, k) => if 0 <= j < |entries| && 0 <= k < |entries[j]| then entries[j][k] else ZERO;
    var value := Quadratic(m + 1, gram, Fun(e)).re;
    res2 := if value < 0.0 then 0.0 else value;
    CoordinatesOfResidual(n, h, w, scales, shifts, c, theta, e);
    QuadraticIsNorm(n, m + 1, w, gram, Fun(e));
    SelfDotIsReal(n, Combine(n, |w|, Fun(e), w));
  }

  // ----- the Galerkin condition and the stated shape of `e` -----

  /** The entries of (h_proj_raw - theta G) c are the residual seen from the stored vectors. */
  lemma ProjectedResidual(n: nat, h: Mat, w: seq<Vec>, scales: seq<real>, shifts: seq<C>,
                          c: int -> C, theta: real, j: nat, raw: int -> C, gram: int -> C)
    requires Recurrence(n, h, w, scales, shifts) && j < |shifts|
    requires forall k :: 0 <= k < |shifts| ==> raw(k) == Mul(c(k), Dot(n, w[j], Applied(n, h, w[k])))
    requires forall k :: 0 <= k < |shifts| ==> gram(k) == Mul(c(k), Dot(n, w[j], w[k]))
    ensures Dot(n, w[j], ResidualVector(n, h, |shifts|, c, w, theta))
         == Minus(Sum(|shifts|, raw), Mul(Real(theta), Sum(|shifts|, gram)))
  {
    hide Mul, Plus, Minus, Dot, Combine, ScaledSum, Applied, Steps;
    var m := |shifts|;
    var psi := Combine(n, m, c, w);
    DotScaledSum(n, w[j], Applied(n, h, psi), Real(0.0 - theta), psi);
    var hw := seq(m, k requires 0 <= k < m => Applied(n, h, w[k]));
    AppliedCombine(n, h, m, c, w, hw);
    DotCombine(n, w[j], m, c, hw, raw);
    DotCombine(n, w[j], m, c, w, gram);
    NegatedTerm(Sum(m, raw), theta, Sum(m, gram));
  }

  lemma {:induction false} AppliedCombine(n: nat, h: Mat, p: nat, c: int -> C, w: seq<Vec>, hw: seq<Vec>)
    requires p <= |w| && p <= |hw| && forall k :: 0 <= k < p ==> hw[k] == Applied(n, h, w[k])
    ensures Applied(n, h, Combine(n, p, c, w)) == Combine(n, p, c, hw)
  {
    hide Applied, ScaledSum, Zeros;
    if p == 0 {
      AppliedZeros(n, h);
    } else {
      AppliedCombine(n, h, p - 1, c, w, hw);
      AppliedLinear(n, h, Combine(n, p - 1, c, w), c(p - 1), w[p - 1]);
    }
  }

  ghost predicate Independent(n: nat, m: nat, w: seq<Vec>)
    requires m <= |w|
  {
    forall a: int -> C :: Combine(n, m, a, w) == Zeros(n) ==> forall j :: 0 <= j < m ==> a(j) == ZERO
  }

  ghost predicate Galerkin(n: nat, m: nat, w: seq<Vec>, r: Vec)
    requires m <= |w|
  {
    forall j :: 0 <= j < m ==> Dot(n, w[j], r) == ZERO
  }

  /** The comment beside `e` says that its first m entries vanish in exact
      arithmetic.  For a Ritz pair over independent vectors they do exactly when
      the last entry, or the overlap of every stored vector with the last, is zero. */
  lemma LeadingEntriesVanishIff(n: nat, m: nat, w: seq<Vec>, e: int -> C)
    requires |w| == m + 1 && (forall k :: 0 <= k <= m ==> |w[k]| == n)
    requires Independent(n, m, w) && Galerkin(n, m, w, Combine(n, m + 1, e, w))
    ensures (forall j :: 0 <= j < m ==> e(j) == ZERO)
       <==> (forall j :: 0 <= j < m ==> Mul(e(m), Dot(n, w[j], w[m])) == ZERO)
  {
    hide Dot, ScaledSum, Mul, Plus, Zeros, Independent;
    var x := Combine(n, m, e, w);
    forall j | 0 <= j < m
      ensures Plus(Dot(n, w[j], x), Mul(e(m), Dot(n, w[j], w[m]))) == ZERO
    {
      DotScaledSum(n, w[j], x, e(m), w[m]);
    }
    if forall j :: 0 <= j < m ==> e(j) == ZERO {
      CombineZero(n, m, e, w);
      forall j | 0 <= j < m ensures Mul(e(m), Dot(n, w[j], w[m])) == ZERO {
        DotZerosRight(n, w[j]);
        Units(Mul(e(m), Dot(n, w[j], w[m])));
      }
    }
    if forall j :: 0 <= j < m ==> Mul(e(m), Dot(n, w[j], w[m])) == ZERO {
      forall j | 0 <= j < m ensures Dot(n, w[j], x) == ZERO { Units(Dot(n, w[j], x)); }
      OrthogonalToItself(n, m, w, e);
      IndependentGives(n, m, w, e);
    }
  }

  lemma IndependentGives(n: nat, m: nat, w: seq<Vec>, e: int -> C)
    requires m <= |w| && Independent(n, m, w) && Combine(n, m, e, w) == Zeros(n)
    ensures forall j :: 0 <= j < m ==> e(j) == ZERO
  {
  }

  lemma {:induction false} CombineZero(n: nat, p: nat, a: int -> C, w: seq<Vec>)
    requires p <= |w| && forall j :: 0 <= j < p ==> a(j) == ZERO
    ensures Combine(n, p, a, w) == Zeros(n)
  {
    hide ScaledSum;
    if p > 0 {
      CombineZero(n, p - 1, a, w);
      AddNothing(n, Zeros(n), w[p - 1]);
    }
  }

  /** A combination orthogonal to all it is made of is zero. */
  lemma OrthogonalToItself(n: nat, m: nat, w: seq<Vec>, e: int -> C)
    requires m <= |w| && Galerkin(n, m, w, Combine(n, m, e, w))
    ensures Combine(n, m, e, w) == Zeros(n)
  {
    var x := Combine(n, m, e, w);
    var f := k => if 0 <= k < m then Mul(e(k), Dot(n, x, w[k])) else ZERO;
    hide Dot, ScaledSum, Mul, Plus, Combine, Conj;
    forall k | 0 <= k < m ensures f(k) == ZERO {
      DotHermitian(n, w[k], x);
      ConjZero();
      Units(e(k));
    }
    DotCombine(n, x, m, e, w, f);
    SumZero(m, f);
    DotSelfZero(n, x);
  }

  lemma DotSelfZero(n: nat, x: Vec)
    requires |x| == n && Dot(n, x, x) == ZERO
    ensures x == Zeros(n)
  {
    hide Inner, Mul, Conj, Sum;
    SelfDotZero(n, Fun(x));
    forall i | 0 <= i < n ensures x[i] == ZERO { assert Fun(x)(i) == x[i]; }
  }

  lemma SelfDotSplits(n: nat, v: int -> C)
    requires n > 0
    ensures var a := v(n - 1); Inner(n, v, v).re == Inner(n - 1, v, v).re + (Gram.Square(a.re) + Gram.Square(a.im))
  {
    var f := i => Mul(Conj(v(i)), v(i));
    InnerIs(n, v, v, f);
    InnerIs(n - 1, v, v, f);
  }

  lemma {:induction false} SelfDotZero(n: nat, v: int -> C)
    requires Inner(n, v, v).re == 0.0
    ensures forall i :: 0 <= i < n ==> v(i) == ZERO
  {
    hide Inner, Gram.Square;
    if n > 0 {
      var a := v(n - 1);
      SelfDotIsNonNegative(n - 1, v);
      SelfDotSplits(n, v);
      Gram.SquareIsNonNegative(a.re);
      Gram.SquareIsNonNegative(a.im);
      if a.re != 0.0 { Gram.SquareIsPositive(a.re); }
      if a.im != 0.0 { Gram.SquareIsPositive(a.im); }
      SelfDotZero(n - 1, v);
    }
  }

  /** One step with H = [[1, 1], [1, 0]] from the first basis state: the Ritz pair
      (1, [1]) satisfies the Galerkin condition and its leading entry is -1. */
  lemma LeadingEntryMayStay()
    ensures var w, scales, shifts := [[ONE, ZERO], [ONE, ONE]], [1.0, 1.0], [ZERO];
            && Recurrence(2, Tiny(), w, scales, shifts)
            && Galerkin(2, 1, w, ResidualVector(2, Tiny(), 1, Fun([ONE]), w, 1.0))
            && IsResidualCoordinates([ONE], scales, shifts, 1.0, [MINUS_ONE, ONE])
  {
    TinyStep();
    TinyResidual();
    TinyCoordinates();
  }

  lemma TinyCoordinates()
    ensures IsResidualCoordinates([ONE], [1.0, 1.0], [ZERO], 1.0, [MINUS_ONE, ONE])
  {
    hide Mul;
    var scales, shifts, c := [1.0, 1.0], [ZERO], [ONE];
    Units(ONE);
    ImageEntryIs(scales, shifts, c, 0);
    assert c[0] == ONE && shifts[0] == ZERO && scales[1] == 1.0;
    assert Image(Fun(c), scales, shifts, 1)(0) == ZERO;
  }

  function Tiny(): Mat { (i, j) => if i + j < 2 then ONE else ZERO }

  lemma TinyRow(i: int)
    requires 0 <= i < 2
    ensures Row(2, Tiny(), Fun([ONE, ZERO]), i) == ONE
  {
    hide Mul, Row;
    TwoTerms(Tiny(), [ONE, ZERO], i);
    assert Tiny()(i, 0) == ONE;
    Units(ONE);
    Units(Tiny()(i, 1));
  }

  lemma TinyApplied()
    ensures Applied(2, Tiny(), [ONE, ZERO]) == [ONE, ONE]
  {
    hide Row, Applied;
    TinyRow(0);
    TinyRow(1);
    var r := Applied(2, Tiny(), [ONE, ZERO]);
    assert r[0] == At(r, 0) && r[1] == At(r, 1);
  }

  lemma TinyStep()
    ensures Recurrence(2, Tiny(), [[ONE, ZERO], [ONE, ONE]], [1.0, 1.0], [ZERO])
  {
    var u0, u1 := [ONE, ZERO], [ONE, ONE];
    TinyApplied();
    RawStep(2, u1, u0, ZERO);
    assert ScaledSum(2, u1, ZERO, u0) == u1 by { AddNothing(2, u1, u0); }
    hide Applied, ScaledSum, Scaled, Mul, Plus;
    assert Steps(2, Tiny(), [u0, u1], [1.0, 1.0], [ZERO], 0);
  }

  lemma TinyPsi()
    ensures Combine(2, 1, Fun([ONE]), [[ONE, ZERO], [ONE, ONE]]) == [ONE, ZERO]
  {
    hide Mul;
    var u0 := [ONE, ZERO];
    assert Combine(2, 0, Fun([ONE]), [u0, [ONE, ONE]]) == Zeros(2);
    var psi := ScaledSum(2, Zeros(2), ONE, u0);
    Units(ONE);
    assert At(psi, 0) == ONE && At(psi, 1) == ZERO;
    assert psi[0] == ONE && psi[1] == ZERO;
  }

  lemma TinyDot(r: Vec)
    requires r == ScaledSum(2, [ONE, ONE], Real(0.0 - 1.0), [ONE, ZERO])
    ensures Dot(2, [ONE, ZERO], r) == ZERO
  {
    hide Inner, Mul, Conj, ScaledSum, Sum;
    var u0 := [ONE, ZERO];
    assert At(r, 0) == ZERO by { Units(Real(0.0 - 1.0)); }
    var f := i => Mul(Conj(At(u0, i)), At(r, i));
    InnerIs(2, Fun(u0), Fun(r), f);
    ConjZero();
    assert f(0) == ZERO by { Units(Conj(ONE)); }
    assert f(1) == ZERO by { Units(At(r, 1)); }
    SumZero(2, f);
  }

  lemma TinyResidual()
    ensures Galerkin(2, 1, [[ONE, ZERO], [ONE, ONE]],
                     ResidualVector(2, Tiny(), 1, Fun([ONE]), [[ONE, ZERO], [ONE, ONE]], 1.0))
  {
    hide Applied, Combine, Inner, Mul, Conj;
    var u0, u1 := [ONE, ZERO], [ONE, ONE];
    TinyPsi();
    TinyApplied();
    TinyDot(ScaledSum(2, u1, Real(0.0 - 1.0), u0));
  }

  lemma TwoTerms(h: Mat, v: Vec, i: int)
    ensures Row(2, h, Fun(v), i) == Plus(Mul(h(i, 0), At(v, 0)), Mul(h(i, 1), At(v, 1)))
  {
    var f := j => Mul(h(i, j), Fun(v)(j));
    assert Sum(2, f) == Plus(Plus(ZERO, f(0)), f(1)) by {
      assert Sum(1, f) == Plus(Sum(0, f), f(0));
    }
    SumExt(2, f, j => Mul(h(i, j), Fun(v)(j)));
  }
}
