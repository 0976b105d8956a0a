/** `project_physical` of `fock_sirk/src/brst.rs`: the projection onto ker Q by a
    conjugate-gradient solve of (Q Q+) z = Q w, over exact complex vectors.
    `scale_and_add` keeps every component here; the source drops tiny ones. */
module Brst {
  import opened Wrappers
  import opened Complex
  import opened Spans
  import opened Vectors
  import opened ConjugateGradient

  /** 1e-30, below which the code reports a breakdown. */
  const BREAKDOWN: real := 1.0 / 1000000000000000000000000000000.0

  /** The norm of `v` is below `tol`, said without the square root. */
  predicate NormBelow(n: nat, v: Vec, tol: real) { tol > 0.0 && Dot(n, v, v).re < Product(tol, tol) }

  function Product(a: real, b: real): real { a * b }

  lemma Cancels(b: C, x: C, a: C, y: C)
    ensures Plus(Plus(b, Mul(MINUS_ONE, x)), Mul(C(0.0 - a.re, 0.0 - a.im), y)) ==
        Plus(b, Mul(MINUS_ONE, Plus(x, Mul(a, y))))
  {
  }

  /** r == b - Q Q+ z, the invariant of the iteration. */
  ghost predicate IsResidual(n: nat, q: Mat, b: Vec, z: Vec, r: Vec) {
    r == ScaledSum(n, b, MINUS_ONE, Normal(n, q, z))
  }

  lemma ResidualStep(n: nat, q: Mat, b: Vec, z: Vec, r: Vec, p: Vec, alpha: real)
    requires IsResidual(n, q, b, z, r)
    ensures IsResidual(n, q, b, ScaledSum(n, z, Real(alpha), p), ScaledSum(n, r, Real(0.0 - alpha), Normal(n, q, p)))
  {
    var a := Real(alpha);
    AppliedLinear(n, Adjoint(q), z, a, p);
    AppliedLinear(n, q, Applied(n, Adjoint(q), z), a, Applied(n, Adjoint(q), p));
    var az, ap := Normal(n, q, z), Normal(n, q, p);
    assert Normal(n, q, ScaledSum(n, z, a, p)) == ScaledSum(n, az, a, ap);
    var l, m := ScaledSum(n, r, Real(0.0 - alpha), ap), ScaledSum(n, b, MINUS_ONE, ScaledSum(n, az, a, ap));
    forall i | 0 <= i < n ensures l[i] == m[i] {
      Cancels(At(b, i), At(az, i), a, At(ap, i));
      assert At(l, i) == At(m, i);
    }
  }

  /** The answer for a given solution: w - Q+ z. */
  function Projected(n: nat, q: Mat, w: Vec, z: Vec): Vec {
    ScaledSum(n, w, MINUS_ONE, Applied(n, Adjoint(q), z))
  }

  /** Applying Q to the answer leaves exactly the residual. */
  lemma ChargeOfProjected(n: nat, q: Mat, w: Vec, z: Vec, r: Vec)
    requires IsResidual(n, q, Applied(n, q, w), z, r)
    ensures Applied(n, q, Projected(n, q, w, z)) == r
  {
    AppliedLinear(n, q, w, MINUS_ONE, Applied(n, Adjoint(q), z));
  }

  // ----- why it ends -----

  /** What Q reaches at squared norm `floor`, Q+ does not send below the breakdown threshold. */
  ghost predicate WellConditioned(n: nat, q: Mat, floor: real) {
    forall u: Vec :: |u| == n && Norm2(n, Applied(n, q, u)) >= floor ==>
      Norm2(n, Applied(n, Adjoint(q), Applied(n, q, u))) >= BREAKDOWN
  }

  /** The same of what lies in the span of `basis`. */
  ghost predicate ConditionedOn(n: nat, q: Mat, basis: seq<Vec>, floor: real) {
    forall u: Vec :: |u| == n && InSpan(n, basis, Applied(n, q, u)) && Norm2(n, Applied(n, q, u)) >= floor ==>
      Norm2(n, Applied(n, Adjoint(q), Applied(n, q, u))) >= BREAKDOWN
  }

  /** Q w lies in the span of `basis`, and Q Q+ does not lead out of it. */
  ghost predicate Carries(n: nat, q: Mat, w: Vec, basis: seq<Vec>) {
    InSpan(n, basis, Applied(n, q, w)) && Closed(n, q, basis)
  }

  /** Vectors that span the image of Q will do for every w. */
  lemma ImageCarries(n: nat, q: Mat, w: Vec, basis: seq<Vec>)
    requires forall u: Vec :: InSpan(n, basis, Applied(n, q, u))
    ensures Carries(n, q, w, basis)
  {
    hide InSpan;
  }

  /** The residuals and directions so far are sound and end in r and p; p is an image of Q. */
  ghost predicate Progress(n: nat, q: Mat, floor: real, h: History, r: Vec, p: Vec, ur: Vec, up: Vec) {
    && Sound(n, q, h) && h.residuals[|h.alphas|] == r && h.directions[|h.alphas|] == p
    && Norm2(n, p) >= Norm2(n, r) >= floor > 0.0
    && |ur| == |up| == n && r == Applied(n, q, ur) && p == Applied(n, q, up)
  }

  lemma StartProgress(n: nat, q: Mat, floor: real, w: Vec)
    requires |w| == n && Norm2(n, Applied(n, q, w)) >= floor > 0.0
    ensures var b := Applied(n, q, w); Progress(n, q, floor, History([b], [b], [], []), b, b, w, w)
  {
    var b := Applied(n, q, w);
    SelfDotIsReal(n, b);
    hide Applied, Dot;
  }

  lemma Images(n: nat, q: Mat, r: Vec, p: Vec, ur: Vec, up: Vec, alpha: real, beta: real) returns (vr: Vec, vp: Vec)
    requires r == Applied(n, q, ur) && p == Applied(n, q, up)
    ensures var next := ScaledSum(n, r, Real(0.0 - alpha), Normal(n, q, p));
      |vr| == |vp| == n && next == Applied(n, q, vr) && ScaledSum(n, next, Real(beta), p) == Applied(n, q, vp)
  {
    vr := ScaledSum(n, ur, Real(0.0 - alpha), Applied(n, Adjoint(q), p));
    AppliedLinear(n, q, ur, Real(0.0 - alpha), Applied(n, Adjoint(q), p));
    vp := ScaledSum(n, vr, Real(beta), up);
    AppliedLinear(n, q, vr, Real(beta), up);
  }

  lemma StepProgress(n: nat, q: Mat, floor: real, h: History, r: Vec, p: Vec, ur: Vec, up: Vec, alpha: real, beta: real)
    returns (vr: Vec, vp: Vec)
    requires Progress(n, q, floor, h, r, p, ur, up) && alpha != 0.0
    requires alpha * Norm2(n, Applied(n, Adjoint(q), p)) == Norm2(n, r)
    requires var next := ScaledSum(n, r, Real(0.0 - alpha), Normal(n, q, p));
      beta * Norm2(n, r) == Norm2(n, next) && Norm2(n, next) >= floor
    ensures var next := ScaledSum(n, r, Real(0.0 - alpha), Normal(n, q, p));
      Progress(n, q, floor, Next(n, q, h, alpha, beta), next, ScaledSum(n, next, Real(beta), p), vr, vp)
    ensures Next(n, q, h, alpha, beta).residuals[0] == h.residuals[0]
  {
    hide Norm2, Normal, Applied, ScaledSum, Sound;
    SoundLengths(n, q, h);
    IterationIsSound(n, q, h, alpha, beta);
    vr, vp := Images(n, q, r, p, ur, up, alpha, beta);
  }

  lemma SoundLengths(n: nat, q: Mat, h: History)
    requires Sound(n, q, h)
    ensures |h.residuals| == |h.directions| == |h.alphas| + 1 == |h.betas| + 1 && Iterated(n, q, h)
  {
  }

  lemma ResidualIsLarge(n: nat, q: Mat, floor: real, h: History, r: Vec, p: Vec, ur: Vec, up: Vec)
    requires Progress(n, q, floor, h, r, p, ur, up)
    ensures Dot(n, r, r).re > 0.0
  {
  }

  /** A breakdown shows a bad condition, on every span that carries the iteration. */
  lemma BreakdownIsReal(n: nat, q: Mat, floor: real, h: History, r: Vec, p: Vec, ur: Vec, up: Vec)
    requires Progress(n, q, floor, h, r, p, ur, up) && Dot(n, p, Normal(n, q, p)).re < BREAKDOWN
    ensures !WellConditioned(n, q, floor)
    ensures forall basis ::
        InSpan(n, basis, h.residuals[0]) && Closed(n, q, basis) ==> !ConditionedOn(n, q, basis, floor)
  {
    SoundLengths(n, q, h);
    hide Norm2, Applied, Dot, Normal, Sound, Iterated, InSpan, Closed;
    NormalForm(n, q, p);
    assert Norm2(n, Applied(n, q, up)) >= floor;
    forall basis | InSpan(n, basis, h.residuals[0]) && Closed(n, q, basis)
      ensures !ConditionedOn(n, q, basis, floor)
    {
      HistoryInSpan(n, q, h, basis, |h.alphas|);
    }
  }

  /** Without convergence there is no room for another iteration, in any span that carries it. */
  lemma NoRoom(n: nat, q: Mat, floor: real, h: History, r: Vec, p: Vec, ur: Vec, up: Vec)
    requires Progress(n, q, floor, h, r, p, ur, up)
    ensures |h.alphas| < n
    ensures forall basis :: InSpan(n, basis, h.residuals[0]) && Closed(n, q, basis) ==> |h.alphas| < |basis|
  {
    SoundLengths(n, q, h);
    hide Sound, InSpan, Closed;
    HistoryIsShort(n, q, h);
    forall basis | InSpan(n, basis, h.residuals[0]) && Closed(n, q, basis) ensures |h.alphas| < |basis| {
      HistoryIsShortIn(n, q, h, basis);
    }
  }

  lemma StepAgrees(n: nat, q: Mat, floor: real, h: History, r: Vec, p: Vec, ur: Vec, up: Vec, alpha: real, beta: real)
    returns (vr: Vec, vp: Vec)
    requires Progress(n, q, floor, h, r, p, ur, up)
    requires Dot(n, p, Normal(n, q, p)).re != 0.0 && Dot(n, r, r).re != 0.0
    requires alpha == Dot(n, r, r).re / Dot(n, p, Normal(n, q, p)).re
    requires var next := ScaledSum(n, r, Real(0.0 - alpha), Normal(n, q, p));
      beta == Dot(n, next, next).re / Dot(n, r, r).re && Dot(n, next, next).re >= floor
    ensures var next := ScaledSum(n, r, Real(0.0 - alpha), Normal(n, q, p));
      Progress(n, q, floor, Next(n, q, h, alpha, beta), next, ScaledSum(n, next, Real(beta), p), vr, vp)
    ensures Next(n, q, h, alpha, beta).residuals[0] == h.residuals[0]
  {
    hide Applied, Dot, Normal, Sound, ScaledSum, Next;
    NormalForm(n, q, p);
    Ratio(Dot(n, r, r).re, Dot(n, p, Normal(n, q, p)).re);
    var next := ScaledSum(n, r, Real(0.0 - alpha), Normal(n, q, p));
    Ratio(Dot(n, next, next).re, Dot(n, r, r).re);
    vr, vp := StepProgress(n, q, floor, h, r, p, ur, up, alpha, beta);
  }

  lemma ProductIsPositive(a: real, b: real)
    requires a > 0.0 && b > 0.0
    ensures Product(a, b) > 0.0
  {
    assert a * b > 0.0;
  }

  lemma Ratio(a: real, b: real)
    requires b != 0.0
    ensures (a / b) * b == a && (a != 0.0 ==> a / b != 0.0)
  {
  }

  /** Any answer has a charge below `tol` and differs from `w` by an image of Q+.  Without a
      breakdown there is an answer as soon as there is room for as many iterations as the span
      they stay in has generators: at most n, and at most what it takes to span the image of Q. */
  method ProjectPhysical(n: nat, w: Vec, q: Mat, tol: real, maxIter: nat) returns (res: Result<Vec>)
    requires |w| == n
    ensures NormBelow(n, Applied(n, q, w), tol) ==> res == Ok(w)
    ensures res.Ok? ==> NormBelow(n, Applied(n, q, res.value), tol)
    ensures res.Ok? ==> exists z :: |z| == n && res.value == Projected(n, q, w, z)
    ensures forall basis ::
        tol > 0.0 && maxIter >= |basis| && Carries(n, q, w, basis) && ConditionedOn(n, q, basis, Product(tol, tol)) ==>
          res.Ok?
    ensures tol > 0.0 && maxIter >= n && WellConditioned(n, q, Product(tol, tol)) ==> res.Ok?
  {
    var b := Applied(n, q, w);
    if NormBelow(n, b, tol) {
      ProjectedByZero(n, q, w);
      return Ok(w);
    }
    var z, r, p := Zeros(n), b, b;
    var rsOld := Dot(n, r, r).re;
    var converged := false;
    StartResidual(n, q, b);
    ghost var floor, h, ur, up, broken := Product(tol, tol), History([b], [b], [], []), w, w, false;
    if tol > 0.0 {
      ProductIsPositive(tol, tol);
      StartProgress(n, q, floor, w);
    }
    hide IsResidual, Applied, ScaledSum, Projected, Normal, Dot, Progress, Norm2, Next, Product, InSpan, Closed,
        ConditionedOn, WellConditioned;
    for iteration := 0 to maxIter
      invariant |z| == |r| == |p| == n && rsOld == Dot(n, r, r).re
      invariant IsResidual(n, q, b, z, r) && !converged && !broken
      invariant tol > 0.0 ==> Progress(n, q, floor, h, r, p, ur, up) && |h.alphas| == iteration
      invariant |h.residuals| > 0 && h.residuals[0] == b
    {
      if tol > 0.0 { ResidualIsLarge(n, q, floor, h, r, p, ur, up); }
      var ap := Normal(n, q, p);
      var pAp := Dot(n, p, ap).re;
      if (if pAp < 0.0 then 0.0 - pAp else pAp) < BREAKDOWN {
        broken := true;
        if tol > 0.0 { BreakdownIsReal(n, q, floor, h, r, p, ur, up); }
        break;
      }
      var alpha := rsOld / pAp;
      ResidualStep(n, q, b, z, r, p, alpha);
      z := ScaledSum(n, z, Real(alpha), p);
      ghost var before := r;
      r := ScaledSum(n, r, Real(0.0 - alpha), ap);
      var rsNew := Dot(n, r, r).re;
      if NormBelow(n, r, tol) {
        converged := true;
        break;
      }
      // only with tol <= 0: the code divides by zero and never converges
      if rsOld == 0.0 { break; }
      var beta := rsNew / rsOld;
      if tol > 0.0 {
        ur, up := StepAgrees(n, q, floor, h, before, p, ur, up, alpha, beta);
        h := Next(n, q, h, alpha, beta);
      }
      p := ScaledSum(n, r, Real(beta), p);
      rsOld := rsNew;
    }
    if !converged {
      if tol > 0.0 && !broken { NoRoom(n, q, floor, h, r, p, ur, up); }
      return Err("BRST solve did not converge");
    }
    ChargeOfProjected(n, q, w, z, r);
    return Ok(Projected(n, q, w, z));
  }

  lemma StartResidual(n: nat, q: Mat, b: Vec)
    requires |b| == n
    ensures IsResidual(n, q, b, Zeros(n), b)
  {
    hide Applied, ScaledSum, Zeros;
    AppliedZeros(n, Adjoint(q));
    AppliedZeros(n, q);
    SubtractZeros(n, b);
  }

  lemma ProjectedByZero(n: nat, q: Mat, w: Vec)
    requires |w| == n
    ensures Projected(n, q, w, Zeros(n)) == w
  {
    hide Applied, ScaledSum, Zeros;
    AppliedZeros(n, Adjoint(q));
    SubtractZeros(n, w);
  }

  // ----- what the projection is worth -----

  /** What is removed from `w` is orthogonal to every physical state. */
  lemma RemovedIsOrthogonal(n: nat, q: Mat, z: Vec, v: Vec)
    requires Applied(n, q, v) == Zeros(n)
    ensures Dot(n, v, Applied(n, Adjoint(q), z)) == ZERO
  {
    DotAdjoint(n, q, v, z);
    DotZeros(n, z);
  }

  /** w - v is what was removed plus the physical remainder. */
  lemma DifferencesSplit(n: nat, w: Vec, g: Vec, v: Vec)
    requires |w| == |g| == n
    ensures var p := ScaledSum(n, w, MINUS_ONE, g);
            Difference(n, w, p) == g && Difference(n, w, v) == ScaledSum(n, g, ONE, Difference(n, p, v))
  {
    var p := ScaledSum(n, w, MINUS_ONE, g);
    var e, l, m := Difference(n, p, v), Difference(n, w, p), Difference(n, w, v);
    var k := ScaledSum(n, g, ONE, e);
    forall i | 0 <= i < n ensures l[i] == g[i] && m[i] == k[i] {
      assert l[i] == At(l, i) == Plus(At(w, i), Mul(MINUS_ONE, At(p, i)));
      assert m[i] == At(m, i) == Plus(At(w, i), Mul(MINUS_ONE, At(v, i)));
      assert k[i] == At(k, i) == Plus(At(g, i), Mul(ONE, At(e, i)));
      assert At(g, i) == g[i];
      SplitEntry(At(w, i), At(g, i), At(v, i));
    }
  }

  lemma SplitEntry(w: C, g: C, v: C)
    ensures var p := Plus(w, Mul(MINUS_ONE, g));
            Plus(w, Mul(MINUS_ONE, p)) == g &&
            Plus(w, Mul(MINUS_ONE, v)) == Plus(g, Mul(ONE, Plus(p, Mul(MINUS_ONE, v))))
  {
  }

  lemma GapIsOrthogonal(n: nat, q: Mat, z: Vec, p: Vec, v: Vec)
    requires Applied(n, q, p) == Zeros(n) && Applied(n, q, v) == Zeros(n)
    ensures Dot(n, Applied(n, Adjoint(q), z), Difference(n, p, v)) == ZERO
  {
    var g := Applied(n, Adjoint(q), z);
    hide Applied, ScaledSum, Mul, Plus, Dot, Zeros, Conj;
    RemovedIsOrthogonal(n, q, z, p);
    RemovedIsOrthogonal(n, q, z, v);
    DotHermitian(n, p, g);
    DotHermitian(n, v, g);
    DotScaledSum(n, g, p, MINUS_ONE, v);
    Units(MINUS_ONE);
    Units(ZERO);
    ConjZero();
  }

  /** When the answer is exactly physical it is the physical state nearest to `w`. */
  lemma ExactProjectionIsNearest(n: nat, q: Mat, w: Vec, z: Vec, v: Vec)
    requires |w| == |v| == n
    requires Applied(n, q, Projected(n, q, w, z)) == Zeros(n) && Applied(n, q, v) == Zeros(n)
    ensures Norm2(n, Difference(n, w, Projected(n, q, w, z))) <= Norm2(n, Difference(n, w, v))
  {
    hide Applied, ScaledSum, Mul, Plus, Dot, Zeros, Norm2, Difference;
    var p, g := Projected(n, q, w, z), Applied(n, Adjoint(q), z);
    GapIsOrthogonal(n, q, z, p, v);
    NormOfSum(n, g, Difference(n, p, v));
    NormIsNonNegative(n, Difference(n, p, v));
    DifferencesSplit(n, w, g, v);
  }
}
