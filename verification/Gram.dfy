/** Sums of outer products over a stream, as bilinear forms. */
module Gram {
  import opened Sums

  type Vec = seq<real>

  /** Entry `i`, 0 outside the vector. */
  function At(v: Vec, i: int): real { if 0 <= i < |v| then v[i] else 0.0 }

  /** A product kept as one term, so that sums of products stay linear for the solver. */
  function Times(a: real, b: real): real { a * b }

  function Square(r: real): real { Times(r, r) }

  lemma SquareIsNonNegative(a: real)
    ensures Square(a) >= 0.0
  {
  }

  lemma PositiveTimes(a: real, b: real)
    requires a > 0.0 && b > 0.0
    ensures Times(a, b) > 0.0
  {
  }

  lemma NegativeTimes(a: real, b: real)
    requires a < 0.0 && b < 0.0
    ensures Times(a, b) > 0.0
  {
    var c, d := 0.0 - a, 0.0 - b;
    PositiveTimes(c, d);
    assert c * d == a * b;
  }

  lemma SquareIsPositive(a: real)
    requires a != 0.0
    ensures Square(a) > 0.0
  {
    hide Times;
    if a > 0.0 { PositiveTimes(a, a); } else { NegativeTimes(a, a); }
  }

  /** Sum over i < n of a(i) * b(i). */
  function Inner(n: nat, a: int -> real, b: int -> real): real { Sum(n, i => a(i) * b(i)) }

  lemma {:induction false} InnerLinear(n: nat, a: int -> real, b: int -> real, c: int -> real, k: real, d: int -> real)
    requires forall i :: 0 <= i < n ==> d(i) == b(i) + k * c(i)
    ensures Inner(n, a, d) == Inner(n, a, b) + k * Inner(n, a, c)
  {
    if n > 0 { InnerLinear(n - 1, a, b, c, k, d); }
  }

  lemma {:induction false} InnerExt(n: nat, a: int -> real, b: int -> real, c: int -> real)
    requires forall i :: 0 <= i < n ==> b(i) == c(i)
    ensures Inner(n, a, b) == Inner(n, a, c)
  {
    if n > 0 { InnerExt(n - 1, a, b, c); }
  }

  lemma {:induction false} InnerDivided(n: nat, a: int -> real, b: int -> real, m: real, d: int -> real)
    requires forall i :: 0 <= i < n ==> d(i) * m == b(i)
    ensures Inner(n, a, d) * m == Inner(n, a, b)
  {
    if n > 0 {
      InnerDivided(n - 1, a, b, m, d);
      Distribute(Inner(n - 1, a, d), a(n - 1), d(n - 1), m);
    }
  }

  lemma Distribute(s: real, a: real, d: real, m: real)
    ensures (s + a * d) * m == s * m + a * (d * m)
  {
  }

  lemma {:induction false} InnerZero(n: nat, a: int -> real, b: int -> real)
    requires forall i :: 0 <= i < n ==> b(i) == 0.0
    ensures Inner(n, a, b) == 0.0
  {
    if n > 0 { InnerZero(n - 1, a, b); }
  }

  lemma {:induction false} InnerSymmetric(n: nat, a: int -> real, b: int -> real)
    ensures Inner(n, a, b) == Inner(n, b, a)
  {
    if n > 0 { InnerSymmetric(n - 1, a, b); }
  }

  /** The vector y(x, .) against `a`. */
  function Along<T>(n: nat, y: (T, int) -> real, a: int -> real, x: T): real { Inner(n, a, j => y(x, j)) }

  /** Sum over j of c(j) times a stream total is the stream total of the combination. */
  lemma {:induction false} WeightedExchange<T>(s: seq<T>, n: nat, c: int -> real, y: (T, int) -> real, w: T -> real)
    ensures Inner(n, c, j => Total(s, x => y(x, j) * w(x))) == Total(s, x => Along(n, y, c, x) * w(x))
  {
    if s == [] {
      InnerZero(n, c, j => Total(s, x => y(x, j) * w(x)));
    } else {
      var r, z := s[..|s| - 1], s[|s| - 1];
      WeightedExchange(r, n, c, y, w);
      InnerLinear(n, c, j => Total(r, x => y(x, j) * w(x)), j => y(z, j), w(z), j => Total(s, x => y(x, j) * w(x)));
    }
  }

  /** The entry (i, j) of the sum of outer products of y(x, .). */
  function Outer<T>(s: seq<T>, y: (T, int) -> real, i: int, j: int): real { Total(s, x => y(x, i) * y(x, j)) }

  /** Adapters for a concrete stream: name the summand. */
  lemma OuterIs<T>(s: seq<T>, y: (T, int) -> real, i: int, j: int, f: T -> real)
    requires forall x :: x in s ==> f(x) == y(x, i) * y(x, j)
    ensures Outer(s, y, i, j) == Total(s, f)
  {
    TotalExt(s, f, x => y(x, i) * y(x, j));
  }

  /** Row `i` of the Gram matrix applied to `b`. */
  function Apply<T>(s: seq<T>, n: nat, y: (T, int) -> real, b: int -> real, i: int): real {
    Inner(n, b, j => Outer(s, y, i, j))
  }

  lemma ApplyIsTotal<T>(s: seq<T>, n: nat, y: (T, int) -> real, b: int -> real, i: int)
    ensures Apply(s, n, y, b, i) == Total(s, x => y(x, i) * Along(n, y, b, x))
  {
    var w := x => y(x, i);
    WeightedExchange(s, n, b, y, w);
    forall j
      ensures Outer(s, y, i, j) == Total(s, x => y(x, j) * w(x))
    {
      TotalExt(s, x => y(x, i) * y(x, j), x => y(x, j) * w(x));
    }
    InnerExt(n, b, j => Outer(s, y, i, j), j => Total(s, x => y(x, j) * w(x)));
    TotalExt(s, x => Along(n, y, b, x) * w(x), x => y(x, i) * Along(n, y, b, x));
  }

  /** The bilinear form of the Gram matrix is the stream total of the products. */
  lemma GramBilinear<T>(s: seq<T>, n: nat, y: (T, int) -> real, a: int -> real, b: int -> real)
    ensures Inner(n, a, i => Apply(s, n, y, b, i)) == Total(s, x => Along(n, y, a, x) * Along(n, y, b, x))
  {
    var w := x => Along(n, y, b, x);
    forall i
      ensures Apply(s, n, y, b, i) == Total(s, x => y(x, i) * w(x))
    {
      ApplyIsTotal(s, n, y, b, i);
      TotalExt(s, x => y(x, i) * Along(n, y, b, x), x => y(x, i) * w(x));
    }
    hide Apply, Outer, Total, Inner;
    WeightedExchange(s, n, a, y, w);
    InnerExt(n, a, i => Apply(s, n, y, b, i), j => Total(s, x => y(x, j) * w(x)));
    TotalExt(s, x => Along(n, y, a, x) * w(x), x => Along(n, y, a, x) * Along(n, y, b, x));
  }

  /** So it is never negative on the diagonal. */
  lemma GramNonNegative<T>(s: seq<T>, n: nat, y: (T, int) -> real, a: int -> real)
    ensures Inner(n, a, i => Apply(s, n, y, a, i)) >= 0.0
  {
    GramBilinear(s, n, y, a, a);
    TotalNonNegative(s, x => Along(n, y, a, x) * Along(n, y, a, x));
  }
}
