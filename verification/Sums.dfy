/** Finite sums of reals: over an index range, and over the elements of a stream. */
module Sums {

  function Sum(n: nat, f: int -> real): real {
    if n == 0 then 0.0 else Sum(n - 1, f) + f(n - 1)
  }

  lemma {:induction false} SumExt(n: nat, f: int -> real, g: int -> real)
    requires forall i :: 0 <= i < n ==> f(i) == g(i)
    ensures Sum(n, f) == Sum(n, g)
  {
    if n > 0 { SumExt(n - 1, f, g); }
  }

  lemma {:induction false} SumAdd(n: nat, f: int -> real, g: int -> real, h: int -> real)
    requires forall i :: 0 <= i < n ==> h(i) == f(i) + g(i)
    ensures Sum(n, h) == Sum(n, f) + Sum(n, g)
  {
    if n > 0 { SumAdd(n - 1, f, g, h); }
  }

  lemma {:induction false} SumScale(n: nat, c: real, f: int -> real, h: int -> real)
    requires forall i :: 0 <= i < n ==> h(i) == c * f(i)
    ensures Sum(n, h) == c * Sum(n, f)
  {
    if n > 0 { SumScale(n - 1, c, f, h); }
  }

  lemma {:induction false} SumZero(n: nat, f: int -> real)
    requires forall i :: 0 <= i < n ==> f(i) == 0.0
    ensures Sum(n, f) == 0.0
  {
    if n > 0 { SumZero(n - 1, f); }
  }

  lemma {:induction false} SumNonNegative(n: nat, f: int -> real)
    requires forall i :: 0 <= i < n ==> f(i) >= 0.0
    ensures Sum(n, f) >= 0.0
    ensures forall i :: 0 <= i < n ==> f(i) <= Sum(n, f)
  {
    if n > 0 { SumNonNegative(n - 1, f); }
  }

  lemma {:induction false} SumMonotone(n: nat, f: int -> real, g: int -> real)
    requires forall i :: 0 <= i < n ==> f(i) <= g(i)
    ensures Sum(n, f) <= Sum(n, g)
  {
    if n > 0 { SumMonotone(n - 1, f, g); }
  }

  // ----- sums over a stream -----

  function Total<T>(s: seq<T>, f: T -> real): real {
    if s == [] then 0.0 else Total(s[..|s| - 1], f) + f(s[|s| - 1])
  }

  lemma TotalPush<T>(s: seq<T>, x: T, f: T -> real)
    ensures Total(s + [x], f) == Total(s, f) + f(x)
  {
    assert (s + [x])[..|s|] == s;
  }

  lemma {:induction false} TotalConcat<T>(s: seq<T>, t: seq<T>, f: T -> real)
    ensures Total(s + t, f) == Total(s, f) + Total(t, f)
  {
    if t == [] {
      assert s + t == s;
    } else {
      var r := t[..|t| - 1];
      TotalConcat(s, r, f);
      assert (s + t)[..|s + t| - 1] == s + r;
    }
  }

  lemma {:induction false} TotalExt<T>(s: seq<T>, f: T -> real, g: T -> real)
    requires forall x :: x in s ==> f(x) == g(x)
    ensures Total(s, f) == Total(s, g)
  {
    if s != [] { TotalExt(s[..|s| - 1], f, g); }
  }

  lemma {:induction false} TotalAdd<T>(s: seq<T>, f: T -> real, g: T -> real, h: T -> real)
    requires forall x :: x in s ==> h(x) == f(x) + g(x)
    ensures Total(s, h) == Total(s, f) + Total(s, g)
  {
    if s != [] { TotalAdd(s[..|s| - 1], f, g, h); }
  }

  lemma {:induction false} TotalScale<T>(s: seq<T>, c: real, f: T -> real, h: T -> real)
    requires forall x :: x in s ==> h(x) == c * f(x)
    ensures Total(s, h) == c * Total(s, f)
  {
    if s != [] { TotalScale(s[..|s| - 1], c, f, h); }
  }

  lemma {:induction false} TotalNonNegative<T>(s: seq<T>, f: T -> real)
    requires forall x :: x in s ==> f(x) >= 0.0
    ensures Total(s, f) >= 0.0
  {
    if s != [] { TotalNonNegative(s[..|s| - 1], f); }
  }

  lemma {:induction false} TotalConst<T>(s: seq<T>, c: real, f: T -> real)
    requires forall x :: x in s ==> f(x) == c
    ensures Total(s, f) == |s| as real * c
  {
    if s != [] {
      TotalConst(s[..|s| - 1], c, f);
    }
  }

  lemma TotalWithout<T>(t: seq<T>, k: nat, f: T -> real)
    requires k < |t|
    ensures Total(t, f) == Total(t[..k] + t[k + 1..], f) + f(t[k])
  {
    hide Total;
    var a, b := t[..k], t[k + 1..];
    assert t == a + [t[k]] + b;
    TotalConcat(a, b, f);
    TotalPush(a, t[k], f);
    TotalConcat(a + [t[k]], b, f);
  }

  lemma WithoutIsMultiset<T>(t: seq<T>, k: nat)
    requires k < |t|
    ensures multiset(t[..k] + t[k + 1..]) == multiset(t) - multiset{t[k]}
  {
    assert t == t[..k] + [t[k]] + t[k + 1..];
  }

  /** A sum over a stream does not depend on the order of the stream. */
  lemma {:induction false} TotalPermuted<T>(s: seq<T>, t: seq<T>, f: T -> real)
    requires multiset(s) == multiset(t)
    ensures Total(s, f) == Total(t, f)
    decreases |s|
  {
    if s == [] {
      assert |multiset(t)| == 0;
      assert t == [];
    } else {
      var n := |s| - 1;
      var x := s[n];
      assert x in multiset(s) && x in multiset(t);
      var k :| 0 <= k < |t| && t[k] == x;
      WithoutIsMultiset(s, n);
      WithoutIsMultiset(t, k);
      assert s[..n] + s[n + 1..] == s[..n];
      hide Total;
      TotalPermuted(s[..n], t[..k] + t[k + 1..], f);
      TotalWithout(s, n, f);
      TotalWithout(t, k, f);
    }
  }

  // ----- double sums over pairs -----

  /** Everything `g` pays `x` against the stream, and everything it pays against `y`. */
  function Over<T>(s: seq<T>, g: (T, T) -> real, x: T): real { Total(s, y => g(x, y)) }

  function From<T>(s: seq<T>, g: (T, T) -> real, y: T): real { Total(s, x => g(x, y)) }

  lemma OverIs<T>(s: seq<T>, g: (T, T) -> real, x: T, h: T -> real)
    requires forall y :: y in s ==> h(y) == g(x, y)
    ensures Over(s, g, x) == Total(s, h)
  {
    TotalExt(s, h, y => g(x, y));
  }

  lemma FromIs<T>(s: seq<T>, g: (T, T) -> real, y: T, h: T -> real)
    requires forall x :: x in s ==> h(x) == g(x, y)
    ensures From(s, g, y) == Total(s, h)
  {
    TotalExt(s, h, x => g(x, y));
  }

  lemma {:induction false} PairsExchange<T>(s: seq<T>, t: seq<T>, g: (T, T) -> real)
    ensures Total(s, x => Over(t, g, x)) == Total(t, y => From(s, g, y))
  {
    if s == [] {
      TotalScale(t, 0.0, y => 0.0, y => From(s, g, y));
    } else {
      var r, z := s[..|s| - 1], s[|s| - 1];
      PairsExchange(r, t, g);
      TotalAdd(t, y => From(r, g, y), y => g(z, y), y => From(s, g, y));
    }
  }

  lemma OverSplits<T>(s: seq<T>, f: (T, T) -> real, g: (T, T) -> real, x: T, c: real, h: T -> real)
    requires forall y :: y in s ==> f(x, y) + g(x, y) == c * h(y)
    ensures Over(s, f, x) + Over(s, g, x) == c * Total(s, h)
  {
    TotalAdd(s, y => f(x, y), y => g(x, y), y => c * h(y));
    TotalScale(s, c, h, y => c * h(y));
  }
}
