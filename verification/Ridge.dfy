/** Ridge regression over a stream, one target column at a time: a solution of the
    normal equations is the only minimiser of the loss over every sample. */
module Ridge {
  import opened Sums
  import opened Gram

  function Loss<T>(s: seq<T>, n: nat, penalty: real, y: (T, int) -> real, target: T -> real, w: int -> real): real {
    Total(s, x => Square(Along(n, y, w, x) - target(x))) + penalty * Inner(n, w, w)
  }

  /** The right-hand side, sample by sample. */
  function Rhs<T>(s: seq<T>, y: (T, int) -> real, target: T -> real, i: int): real {
    Total(s, x => y(x, i) * target(x))
  }

  lemma RhsIs<T>(s: seq<T>, y: (T, int) -> real, target: T -> real, i: int, f: T -> real)
    requires forall x :: x in s ==> f(x) == y(x, i) * target(x)
    ensures Rhs(s, y, target, i) == Total(s, f)
  {
    TotalExt(s, f, x => y(x, i) * target(x));
  }

  /** (Gram + penalty I) w == rhs */
  ghost predicate Solves<T>(s: seq<T>, n: nat, penalty: real, y: (T, int) -> real, target: T -> real, w: int -> real) {
    forall i :: 0 <= i < n ==> Apply(s, n, y, w, i) + penalty * w(i) == Rhs(s, y, target, i)
  }

  lemma SquareOfSum(v: real, p: real, d: real, t: real)
    requires v == p + d
    ensures Square(v - t) == Square(p - t) + (2.0 * (d * p - d * t) + Square(d))
  {
  }

  /** d is v - w: how the residuals of `v` split. */
  lemma SplitResiduals<T>(s: seq<T>, n: nat, y: (T, int) -> real, target: T -> real, w: int -> real, d: int -> real,
          v: int -> real)
    requires forall i :: 0 <= i < n ==> v(i) == w(i) + d(i)
    ensures Total(s, x => Square(Along(n, y, v, x) - target(x))) ==
      Total(s, x => Square(Along(n, y, w, x) - target(x)))
      + 2.0 * (Total(s, x => Along(n, y, d, x) * Along(n, y, w, x)) - Total(s, x => Along(n, y, d, x) * target(x)))
      + Total(s, x => Square(Along(n, y, d, x)))
  {
    hide Square, Along;
    var a, e := x => Square(Along(n, y, w, x) - target(x)), x => Square(Along(n, y, d, x));
    var p, q := x => Along(n, y, d, x) * Along(n, y, w, x), x => Along(n, y, d, x) * target(x);
    forall x | x in s
      ensures Square(Along(n, y, v, x) - target(x)) == a(x) + (2.0 * (p(x) - q(x)) + e(x))
    {
      AlongSplits(n, y, w, d, v, x);
      var along, shift, t := Along(n, y, w, x), Along(n, y, d, x), target(x);
      SquareOfSum(Along(n, y, v, x), along, shift, t);
      assert a(x) == Square(along - t) && e(x) == Square(shift);
      assert p(x) == shift * along && q(x) == shift * t;
    }
    FourTotals(s, a, p, q, e, x => Square(Along(n, y, v, x) - target(x)));
  }

  lemma {:induction false} FourTotals<T>(s: seq<T>, a: T -> real, p: T -> real, q: T -> real, e: T -> real,
          f: T -> real)
    requires forall x :: x in s ==> f(x) == a(x) + (2.0 * (p(x) - q(x)) + e(x))
    ensures Total(s, f) == Total(s, a) + 2.0 * (Total(s, p) - Total(s, q)) + Total(s, e)
  {
    if s != [] { FourTotals(s[..|s| - 1], a, p, q, e, f); }
  }

  lemma AlongSplits<T>(n: nat, y: (T, int) -> real, w: int -> real, d: int -> real, v: int -> real, x: T)
    requires forall i :: 0 <= i < n ==> v(i) == w(i) + d(i)
    ensures Along(n, y, v, x) == Along(n, y, w, x) + Along(n, y, d, x)
  {
    var f := j => y(x, j);
    InnerSymmetric(n, v, f);
    InnerSymmetric(n, w, f);
    InnerSymmetric(n, d, f);
    InnerLinear(n, f, w, d, 1.0, v);
  }

  lemma {:induction false} SquaredNorm(n: nat, w: int -> real, d: int -> real, v: int -> real)
    requires forall i :: 0 <= i < n ==> v(i) == w(i) + d(i)
    ensures Inner(n, v, v) == Inner(n, w, w) + 2.0 * Inner(n, d, w) + Inner(n, d, d)
  {
    if n > 0 {
      SquaredNorm(n - 1, w, d, v);
      var a, b := w(n - 1), d(n - 1);
      assert (a + b) * (a + b) == a * a + 2.0 * (b * a) + b * b;
    }
  }

  /** The normal equations make the first-order term vanish. */
  lemma CrossTerm<T>(s: seq<T>, n: nat, penalty: real, y: (T, int) -> real, target: T -> real, w: int -> real,
          d: int -> real)
    requires Solves(s, n, penalty, y, target, w)
    ensures Total(s, x => Along(n, y, d, x) * Along(n, y, w, x)) - Total(s, x => Along(n, y, d, x) * target(x)) ==
        0.0 - penalty * Inner(n, d, w)
  {
    GramBilinear(s, n, y, d, w);
    WeightedExchange(s, n, d, y, target);
    var apply, rhs := i => Apply(s, n, y, w, i), i => Rhs(s, y, target, i);
    InnerExt(n, d, rhs, j => Total(s, x => y(x, j) * target(x)));
    assert forall i :: 0 <= i < n ==> rhs(i) == apply(i) + penalty * w(i);
    hide Apply, Rhs, Inner, Along;
    InnerLinear(n, d, apply, w, penalty, rhs);
  }

  /** The loss of any `v`, seen from a solution `w`. */
  lemma LossFromSolution<T>(s: seq<T>, n: nat, penalty: real, y: (T, int) -> real, target: T -> real, w: int -> real,
          v: int -> real, d: int -> real)
    requires Solves(s, n, penalty, y, target, w)
    requires forall i :: 0 <= i < n ==> v(i) == w(i) + d(i)
    ensures Loss(s, n, penalty, y, target, v) ==
      Loss(s, n, penalty, y, target, w) + (Total(s, x => Square(Along(n, y, d, x))) + penalty * Inner(n, d, d))
  {
    hide Solves, Along, Inner, Square;
    SplitResiduals(s, n, y, target, w, d, v);
    CrossTerm(s, n, penalty, y, target, w, d);
    SquaredNorm(n, w, d, v);
    Regroup(penalty, Inner(n, w, w), Inner(n, d, w), Inner(n, d, d));
  }

  lemma Regroup(penalty: real, ww: real, dw: real, dd: real)
    ensures penalty * (ww + 2.0 * dw + dd) == penalty * ww + 2.0 * (penalty * dw) + penalty * dd
  {
  }

  lemma {:induction false} NormIsPositive(n: nat, d: int -> real)
    ensures Inner(n, d, d) >= 0.0
    ensures Inner(n, d, d) == 0.0 ==> forall i :: 0 <= i < n ==> d(i) == 0.0
  {
    if n > 0 {
      NormIsPositive(n - 1, d);
      assert Inner(n, d, d) == Inner(n - 1, d, d) + Square(d(n - 1));
      hide Square, Inner;
      SquareIsNonNegative(d(n - 1));
      if d(n - 1) != 0.0 { SquareIsPositive(d(n - 1)); }
    }
  }

  /** With penalty > 0 a solution has the smallest loss, and no other weights reach it. */
  lemma SolutionMinimises<T>(s: seq<T>, n: nat, penalty: real, y: (T, int) -> real, target: T -> real, w: int -> real,
          v: int -> real)
    requires penalty > 0.0 && Solves(s, n, penalty, y, target, w)
    ensures Loss(s, n, penalty, y, target, w) <= Loss(s, n, penalty, y, target, v)
    ensures Loss(s, n, penalty, y, target, w) == Loss(s, n, penalty, y, target, v) ==>
        forall i :: 0 <= i < n ==> v(i) == w(i)
  {
    var d := i => v(i) - w(i);
    assert forall i :: 0 <= i < n ==> v(i) == w(i) + d(i);
    hide Loss, Solves, Along, Inner, Square, Total;
    LossFromSolution(s, n, penalty, y, target, w, v, d);
    TotalNonNegative(s, x => Square(Along(n, y, d, x))) by {
      forall x | x in s ensures Square(Along(n, y, d, x)) >= 0.0 { SquareIsNonNegative(Along(n, y, d, x)); }
    }
    NormIsPositive(n, d);
    Positive(penalty, Inner(n, d, d));
  }

  lemma Positive(a: real, b: real)
    requires a > 0.0 && b >= 0.0
    ensures a * b >= 0.0 && (a * b == 0.0 ==> b == 0.0)
  {
  }

  /** Gram + penalty I is positive definite, so the Cholesky factorisation cannot fail. */
  lemma RegularisedGramIsPositive<T>(s: seq<T>, n: nat, penalty: real, y: (T, int) -> real, v: int -> real)
    requires penalty > 0.0 && exists i :: 0 <= i < n && v(i) != 0.0
    ensures Inner(n, v, i => Apply(s, n, y, v, i) + penalty * v(i)) > 0.0
  {
    GramNonNegative(s, n, y, v);
    NormIsPositive(n, v);
    InnerLinear(n, v, i => Apply(s, n, y, v, i), v, penalty, i => Apply(s, n, y, v, i) + penalty * v(i));
    hide Apply, Inner;
    Positive(penalty, Inner(n, v, v));
  }
}
