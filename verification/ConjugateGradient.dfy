/** The conjugate-gradient iteration for Q Q+ in exact arithmetic: its residuals are orthogonal
    to each other, its directions conjugate, and so it has at most n + 1 residuals. */
module ConjugateGradient {
  import opened Complex
  import opened Orthogonal
  import opened Spans
  import opened Vectors

  /** The normal operator Q Q+. */
  function Normal(n: nat, q: Mat, v: Vec): Vec { Applied(n, q, Applied(n, Adjoint(q), v)) }

  /** The residuals and directions so far, and the numbers between them. */
  datatype History = History(residuals: seq<Vec>, directions: seq<Vec>, alphas: seq<real>, betas: seq<real>)

  /** Each residual and direction is made from the one before as the code makes it. */
  ghost predicate Iterated(n: nat, q: Mat, h: History) {
    && |h.residuals| == |h.directions| == |h.alphas| + 1 == |h.betas| + 1
    && h.directions[0] == h.residuals[0]
    && forall i :: 0 <= i < |h.alphas| ==> Iteration(n, q, h, i)
  }

  ghost predicate Iteration(n: nat, q: Mat, h: History, i: nat)
    requires i < |h.alphas| == |h.betas| && |h.residuals| == |h.directions| == |h.alphas| + 1
  {
    && h.alphas[i] != 0.0
    && h.residuals[i + 1] == ScaledSum(n, h.residuals[i], Real(0.0 - h.alphas[i]), Normal(n, q, h.directions[i]))
    && h.directions[i + 1] == ScaledSum(n, h.residuals[i + 1], Real(h.betas[i]), h.directions[i])
  }

  ghost predicate Conjugate(n: nat, q: Mat, ps: seq<Vec>) {
    forall i, j :: 0 <= i < j < |ps| ==> Dot(n, ps[i], Normal(n, q, ps[j])) == ZERO
  }

  ghost predicate Sound(n: nat, q: Mat, h: History) {
    && Iterated(n, q, h) && AllOrthogonal(n, h.residuals) && Conjugate(n, q, h.directions)
    && var k := |h.alphas|; Dot(n, h.residuals[k], h.directions[k]) == Real(Norm2(n, h.residuals[k]))
  }

  // ----- products -----

  lemma DotScaledLeft(n: nat, v: Vec, a: real, w: Vec, u: Vec)
    ensures Dot(n, ScaledSum(n, v, Real(a), w), u) == Plus(Dot(n, v, u), Mul(Real(a), Dot(n, w, u)))
  {
    var x := ScaledSum(n, v, Real(a), w);
    DotScaledSum(n, u, v, Real(a), w);
    DotHermitian(n, u, x);
    DotHermitian(n, v, u);
    DotHermitian(n, w, u);
    hide Dot, ScaledSum;
    Conjugates(Dot(n, u, v), Mul(Real(a), Dot(n, u, w)));
    Conjugates(Real(a), Dot(n, u, w));
  }

  /** Q Q+ is Hermitian .. */
  lemma NormalMoves(n: nat, q: Mat, u: Vec, v: Vec)
    ensures Dot(n, u, Normal(n, q, v)) == Dot(n, Normal(n, q, u), v)
  {
    hide Dot, Applied;
    var a, b := Applied(n, Adjoint(q), u), Applied(n, Adjoint(q), v);
    // <u|Q b> == <Q+ u|b> == <a|Q+ v> == <Q a|v>
    DotAdjoint(n, q, b, u);
    DotHermitian(n, Applied(n, q, b), u);
    DotHermitian(n, b, a);
    DotAdjoint(n, q, a, v);
  }

  /** .. and its form is the squared norm of Q+ p. */
  lemma NormalForm(n: nat, q: Mat, p: Vec)
    ensures Dot(n, p, Normal(n, q, p)) == Real(Norm2(n, Applied(n, Adjoint(q), p)))
  {
    hide Dot, Applied, Norm2;
    var a := Applied(n, Adjoint(q), p);
    DotAdjoint(n, q, a, p);
    DotHermitian(n, Applied(n, q, a), p);
    SelfDotIsReal(n, a);
  }

  // ----- one iteration -----

  /** A vector without part along the first m directions has none along the first m
      residuals, and the same part along residual m as along direction m. */
  lemma {:induction false} ResidualsFollow(n: nat, q: Mat, h: History, u: Vec, m: nat)
    requires Iterated(n, q, h) && m <= |h.alphas|
    requires forall i :: 0 <= i < m ==> Dot(n, h.directions[i], u) == ZERO
    ensures forall i :: 0 <= i < m ==> Dot(n, h.residuals[i], u) == ZERO
    ensures Dot(n, h.residuals[m], u) == Dot(n, h.directions[m], u)
  {
    hide Dot, Iteration, Mul;
    if m > 0 {
      ResidualsFollow(n, q, h, u, m - 1);
      assert Iteration(n, q, h, m - 1);
      MadeFrom(n, q, h, m - 1);
      DotScaledLeft(n, h.residuals[m], h.betas[m - 1], h.directions[m - 1], u);
      Units(Real(h.betas[m - 1]));
      Units(Dot(n, h.residuals[m], u));
    }
  }

  lemma MadeFrom(n: nat, q: Mat, h: History, i: nat)
    requires Iterated(n, q, h) && i < |h.alphas|
    ensures h.alphas[i] != 0.0
    ensures h.residuals[i + 1] == ScaledSum(n, h.residuals[i], Real(0.0 - h.alphas[i]), Normal(n, q, h.directions[i]))
    ensures h.directions[i + 1] == ScaledSum(n, h.residuals[i + 1], Real(h.betas[i]), h.directions[i])
  {
    assert Iteration(n, q, h, i);
  }

  /** r - alpha * v has no part along x when r has alpha times the part of v. */
  lemma Removed(n: nat, x: Vec, r: Vec, v: Vec, alpha: real, m: real)
    requires Dot(n, x, r) == Real(alpha * m) && Dot(n, x, v) == Real(m)
    ensures Dot(n, x, ScaledSum(n, r, Real(0.0 - alpha), v)) == ZERO
  {
    hide Dot, ScaledSum;
    DotScaledSum(n, x, r, Real(0.0 - alpha), v);
    assert (0.0 - alpha) * m == 0.0 - alpha * m;
  }

  /** What a sound history says about its last residual and direction. */
  lemma LastProducts(n: nat, q: Mat, h: History)
    requires Sound(n, q, h)
    ensures var k := |h.alphas|;
      var r, p := h.residuals[k], h.directions[k];
      var rs, m := Norm2(n, r), Norm2(n, Applied(n, Adjoint(q), p));
      && (forall i :: 0 <= i < k ==>
          Dot(n, h.residuals[i], r) == Real(0.0) && Dot(n, h.residuals[i], Normal(n, q, p)) == Real(0.0))
      && Dot(n, r, r) == Real(rs) && Dot(n, r, Normal(n, q, p)) == Real(m)
      && Dot(n, p, r) == Real(rs) && Dot(n, p, Normal(n, q, p)) == Real(m)
  {
    var k := |h.alphas|;
    var r, p := h.residuals[k], h.directions[k];
    hide Dot, Normal, Norm2, Iteration, Mul;
    ResidualsFollow(n, q, h, Normal(n, q, p), k);
    NormalForm(n, q, p);
    SelfDotIsReal(n, r);
    DotHermitian(n, r, p);
  }

  /** The next residual is orthogonal to all before it. */
  lemma NextResidual(n: nat, q: Mat, h: History, alpha: real)
    requires Sound(n, q, h)
    requires alpha * Norm2(n, Applied(n, Adjoint(q), h.directions[|h.alphas|])) == Norm2(n, h.residuals[|h.alphas|])
    ensures var k := |h.alphas|;
      var next := ScaledSum(n, h.residuals[k], Real(0.0 - alpha), Normal(n, q, h.directions[k]));
      (forall i :: 0 <= i <= k ==> Dot(n, h.residuals[i], next) == ZERO) && Dot(n, h.directions[k], next) == ZERO
  {
    hide Dot, Normal, Norm2, ScaledSum, Applied, Iteration, AllOrthogonal, Conjugate;
    LastProducts(n, q, h);
    var k := |h.alphas|;
    var r, p := h.residuals[k], h.directions[k];
    var ap, m := Normal(n, q, p), Norm2(n, Applied(n, Adjoint(q), p));
    assert alpha * 0.0 == 0.0;
    forall i | 0 <= i <= k ensures Dot(n, h.residuals[i], ScaledSum(n, r, Real(0.0 - alpha), ap)) == ZERO {
      Removed(n, h.residuals[i], r, ap, alpha, if i < k then 0.0 else m);
    }
    Removed(n, p, r, ap, alpha, m);
  }

  /** A direction has no part of Q Q+ along a residual that comes two or more steps later. */
  lemma EarlierDirections(n: nat, q: Mat, h: History, next: Vec, i: nat)
    requires Iterated(n, q, h) && i < |h.alphas|
    requires Dot(n, h.residuals[i], next) == ZERO && Dot(n, h.residuals[i + 1], next) == ZERO
    ensures Dot(n, h.directions[i], Normal(n, q, next)) == ZERO
  {
    hide Dot, Normal, Iteration, Mul, ScaledSum, Plus;
    var a := 0.0 - h.alphas[i];
    MadeFrom(n, q, h, i);
    hide Iterated;
    var ap := Normal(n, q, h.directions[i]);
    DotScaledLeft(n, h.residuals[i], a, ap, next);
    Units(Mul(Real(a), Dot(n, ap, next)));
    NoFactor(a, Dot(n, ap, next));
    NormalMoves(n, q, h.directions[i], next);
  }

  lemma NoFactor(a: real, c: C)
    requires a != 0.0 && Mul(Real(a), c) == ZERO
    ensures c == ZERO
  {
    assert Mul(Real(a), c) == C(a * c.re, a * c.im);
  }

  /** The last direction has just the part that the next direction takes back. */
  lemma LastDirection(n: nat, q: Mat, r: Vec, p: Vec, alpha: real, next: Vec)
    requires alpha != 0.0 && next == ScaledSum(n, r, Real(0.0 - alpha), Normal(n, q, p)) && Dot(n, r, next) == ZERO
    ensures Dot(n, p, Normal(n, q, next)) == Real(0.0 - Norm2(n, next) / alpha)
  {
    hide Dot, Normal, Norm2, ScaledSum;
    var ap := Normal(n, q, p);
    DotScaledLeft(n, r, 0.0 - alpha, ap, next);
    SelfDotIsReal(n, next);
    NormalMoves(n, q, p, next);
    Units(Mul(Real(0.0 - alpha), Dot(n, ap, next)));
    Divided(alpha, Dot(n, ap, next), Norm2(n, next));
  }

  lemma Divided(alpha: real, c: C, m: real)
    requires alpha != 0.0 && Mul(Real(0.0 - alpha), c) == Real(m)
    ensures c == Real(0.0 - m / alpha)
  {
    assert Mul(Real(0.0 - alpha), c) == C((0.0 - alpha) * c.re, (0.0 - alpha) * c.im);
    assert (0.0 - alpha) * c.im == 0.0 ==> c.im == 0.0;
    assert c.re == 0.0 - m / alpha;
  }

  /** The history after one more iteration. */
  function Next(n: nat, q: Mat, h: History, alpha: real, beta: real): History
    requires |h.residuals| == |h.directions| == |h.alphas| + 1
  {
    var k := |h.alphas|;
    var r := ScaledSum(n, h.residuals[k], Real(0.0 - alpha), Normal(n, q, h.directions[k]));
    History(h.residuals + [r], h.directions + [ScaledSum(n, r, Real(beta), h.directions[k])], h.alphas + [alpha],
        h.betas + [beta])
  }

  /** The next direction is conjugate to all before it. */
  lemma NextDirection(n: nat, q: Mat, h: History, alpha: real, beta: real)
    requires Sound(n, q, h) && alpha != 0.0
    requires var k := |h.alphas|;
      && alpha * Norm2(n, Applied(n, Adjoint(q), h.directions[k])) == Norm2(n, h.residuals[k])
      && beta * Norm2(n, h.residuals[k]) == Norm2(n, Next(n, q, h, alpha, beta).residuals[k + 1])
    ensures var k := |h.alphas|;
      forall i :: 0 <= i <= k ==>
          Dot(n, h.directions[i], Normal(n, q, Next(n, q, h, alpha, beta).directions[k + 1])) == ZERO
  {
    var k := |h.alphas|;
    var r, p := h.residuals[k], h.directions[k];
    var next, m := Next(n, q, h, alpha, beta).residuals[k + 1], Norm2(n, Applied(n, Adjoint(q), p));
    var dir := ScaledSum(n, next, Real(beta), p);
    NextResidual(n, q, h, alpha);
    hide Dot, Normal, Norm2, ScaledSum, Iteration, Mul, AllOrthogonal;
    NormalSum(n, q, next, beta, p);
    forall i | 0 <= i <= k ensures Dot(n, h.directions[i], Normal(n, q, dir)) == ZERO {
      var x := h.directions[i];
      DotScaledSum(n, x, Normal(n, q, next), Real(beta), Normal(n, q, p));
      if i < k {
        EarlierDirections(n, q, h, next, i);
        Units(Real(beta));
        Units(ZERO);
      } else {
        LastDirection(n, q, r, p, alpha, next);
        NormalForm(n, q, p);
        TakenBack(alpha, beta, m, Norm2(n, r), Norm2(n, next));
      }
    }
  }

  lemma NormalSum(n: nat, q: Mat, v: Vec, a: real, w: Vec)
    ensures Normal(n, q, ScaledSum(n, v, Real(a), w)) == ScaledSum(n, Normal(n, q, v), Real(a), Normal(n, q, w))
  {
    AppliedLinear(n, Adjoint(q), v, Real(a), w);
    AppliedLinear(n, q, Applied(n, Adjoint(q), v), Real(a), Applied(n, Adjoint(q), w));
  }

  lemma TakenBack(alpha: real, beta: real, m: real, before: real, after: real)
    requires alpha != 0.0 && alpha * m == before && beta * before == after
    ensures Plus(Real(0.0 - after / alpha), Mul(Real(beta), Real(m))) == ZERO
  {
    assert alpha * (beta * m) == after;
    assert beta * m == after / alpha;
  }

  /** One iteration that does not converge keeps the history sound. */
  lemma IterationIsSound(n: nat, q: Mat, h: History, alpha: real, beta: real)
    requires Sound(n, q, h) && alpha != 0.0
    requires var k := |h.alphas|;
      && alpha * Norm2(n, Applied(n, Adjoint(q), h.directions[k])) == Norm2(n, h.residuals[k])
      && beta * Norm2(n, h.residuals[k]) == Norm2(n, Next(n, q, h, alpha, beta).residuals[k + 1])
      && Norm2(n, Next(n, q, h, alpha, beta).residuals[k + 1]) > 0.0
    ensures Sound(n, q, Next(n, q, h, alpha, beta))
    ensures var k, t := |h.alphas|, Next(n, q, h, alpha, beta);
      Norm2(n, t.directions[k + 1]) >= Norm2(n, t.residuals[k + 1])
  {
    hide Norm2, Dot, Normal, ScaledSum, Iteration, Mul, Plus, Applied;
    var k, t := |h.alphas|, Next(n, q, h, alpha, beta);
    NextResidual(n, q, h, alpha);
    NextDirection(n, q, h, alpha, beta);
    NextIsIterated(n, q, h, alpha, beta);
    var r, p := t.residuals[k + 1], h.directions[k];
    NormOfDirection(n, r, beta, p);
    assert forall i :: 0 <= i <= k ==> t.residuals[i] == h.residuals[i] && t.directions[i] == h.directions[i];
    assert AllOrthogonal(n, t.residuals) by {
      forall i, j | 0 <= i < |t.residuals| && 0 <= j < |t.residuals| && i != j
        ensures Dot(n, t.residuals[i], t.residuals[j]) == ZERO
      {
        if i == k + 1 { DotHermitian(n, t.residuals[j], r); ConjZero(); }
      }
    }
  }

  lemma NextIsIterated(n: nat, q: Mat, h: History, alpha: real, beta: real)
    requires Iterated(n, q, h) && alpha != 0.0
    ensures Iterated(n, q, Next(n, q, h, alpha, beta))
  {
    var k, t := |h.alphas|, Next(n, q, h, alpha, beta);
    hide Normal, ScaledSum;
    forall i | 0 <= i <= k ensures Iteration(n, q, t, i) {
      if i < k { assert Iteration(n, q, h, i); }
    }
  }

  lemma DirectionProducts(n: nat, r: Vec, beta: real, p: Vec, m: real)
    requires Dot(n, p, r) == ZERO && m == Norm2(n, p)
    ensures var d := ScaledSum(n, r, Real(beta), p);
      Dot(n, r, d) == Real(Norm2(n, r)) && Dot(n, p, d) == Real(beta * m)
  {
    hide Dot, ScaledSum, Norm2, Mul, Plus, Real, Conj;
    DotHermitian(n, p, r);
    ConjZero();
    SelfDotIsReal(n, r);
    SelfDotIsReal(n, p);
    DotScaledSum(n, r, r, Real(beta), p);
    Units(Real(beta));
    Units(Real(Norm2(n, r)));
    DotScaledSum(n, p, r, Real(beta), p);
    RealTimes(beta, m);
    Units(Real(beta * m));
  }

  lemma NormOfDirection(n: nat, r: Vec, beta: real, p: Vec)
    requires Dot(n, p, r) == ZERO
    ensures var d := ScaledSum(n, r, Real(beta), p);
      Dot(n, r, d) == Real(Norm2(n, r)) && Norm2(n, d) >= Norm2(n, r)
  {
    var d, m := ScaledSum(n, r, Real(beta), p), Norm2(n, p);
    var b := beta * m;
    hide Dot, ScaledSum, Norm2, Mul, Plus, Real, Conj;
    DirectionProducts(n, r, beta, p, m);
    SelfDotIsReal(n, d);
    DotScaledSum(n, d, r, Real(beta), p);
    DotHermitian(n, r, d);
    DotHermitian(n, p, d);
    RealConj(Norm2(n, r));
    RealConj(b);
    RealTimes(beta, b);
    AddsUp(Norm2(n, r), beta * b, Norm2(n, d));
    NormIsNonNegative(n, p);
    SquareTimes(beta, m);
  }

  lemma RealConj(a: real)
    ensures Conj(Real(a)) == Real(a)
  {
  }

  lemma AddsUp(a: real, b: real, c: real)
    requires Plus(Real(a), Real(b)) == Real(c)
    ensures c == a + b
  {
  }

  lemma RealTimes(a: real, b: real)
    ensures Mul(Real(a), Real(b)) == Real(a * b)
  {
  }

  lemma SquareTimes(b: real, m: real)
    requires m >= 0.0
    ensures b * (b * m) >= 0.0
  {
    assert b * (b * m) == (b * b) * m;
  }

  /** A sound history has at most n residuals. */
  lemma HistoryIsShort(n: nat, q: Mat, h: History)
    requires Sound(n, q, h)
    ensures |h.alphas| < n
  {
    AtMostDimension(n, h.residuals);
  }

  // ----- inside a closed span -----

  /** Q Q+ stays in the span of `basis`. */
  ghost predicate Closed(n: nat, q: Mat, basis: seq<Vec>) {
    forall v: Vec :: InSpan(n, basis, v) ==> InSpan(n, basis, Normal(n, q, v))
  }

  /** A closed span that holds the first residual holds all residuals and directions. */
  lemma {:induction false} HistoryInSpan(n: nat, q: Mat, h: History, basis: seq<Vec>, k: nat)
    requires Iterated(n, q, h) && k <= |h.alphas| && Closed(n, q, basis) && InSpan(n, basis, h.residuals[0])
    ensures forall i :: 0 <= i <= k ==> InSpan(n, basis, h.residuals[i]) && InSpan(n, basis, h.directions[i])
  {
    hide InSpan, Iteration, Normal, ScaledSum;
    if k > 0 {
      HistoryInSpan(n, q, h, basis, k - 1);
      MadeFrom(n, q, h, k - 1);
      SpanIsLinear(n, basis, h.residuals[k - 1], Real(0.0 - h.alphas[k - 1]), Normal(n, q, h.directions[k - 1]));
      SpanIsLinear(n, basis, h.residuals[k], Real(h.betas[k - 1]), h.directions[k - 1]);
    }
  }

  /** So there are at most as many residuals as the span has generators. */
  lemma HistoryIsShortIn(n: nat, q: Mat, h: History, basis: seq<Vec>)
    requires Sound(n, q, h) && Closed(n, q, basis) && InSpan(n, basis, h.residuals[0])
    ensures |h.alphas| < |basis|
  {
    hide AllOrthogonal, InSpan, Closed, Iteration, Conjugate, Dot, Norm2;
    HistoryInSpan(n, q, h, basis, |h.alphas|);
    AtMostSpanning(n, h.residuals, basis);
  }
}
