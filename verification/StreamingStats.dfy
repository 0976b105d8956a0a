/** `decide_core/src/stats.rs`: counts and sums accumulated one sample at a time,
    and the one-pass shared covariance, in exact arithmetic. */
module StreamingStats {
  import opened Wrappers
  import opened Sums
  import opened Gram

  datatype Sample = Sample(id: nat, x: Vec)

  // ----- the batch definitions over the whole stream -----

  function Coordinate(s: Sample, i: int): real { At(s.x, i) }

  function CountOf(stream: seq<Sample>, id: nat): nat {
    if stream == [] then 0
    else CountOf(stream[..|stream| - 1], id) + (if stream[|stream| - 1].id == id then 1 else 0)
  }

  function InClass(s: Sample, id: nat, i: int): real { if s.id == id then At(s.x, i) else 0.0 }

  function ClassSum(stream: seq<Sample>, id: nat, i: int): real { Total(stream, s => InClass(s, id, i)) }

  function CoordinateSum(stream: seq<Sample>, i: int): real { Total(stream, s => Coordinate(s, i)) }

  function OuterSum(stream: seq<Sample>, i: int, j: int): real { Total(stream,
          s => Coordinate(s, i) * Coordinate(s, j)) }

  function CoordinateMean(stream: seq<Sample>, i: int): real
    requires stream != []
  {
    CoordinateSum(stream, i) / |stream| as real
  }

  /** The deviation of a sample from the mean of the stream. */
  function Deviation(stream: seq<Sample>, s: Sample, i: int): real
    requires stream != []
  {
    At(s.x, i) - CoordinateMean(stream, i)
  }

  /** The textbook sample covariance: products of deviations, over n - 1. */
  function SampleCovariance(stream: seq<Sample>, i: int, j: int): real
    requires |stream| >= 2
  {
    Total(stream, s => Deviation(stream, s, i) * Deviation(stream, s, j)) / (|stream| - 1) as real
  }

  // ----- the one-pass identity -----

  lemma TimesAdds(a: real, b: real, c: real)
    ensures Times(a, b + c) == Times(a, b) + Times(a, c) && Times(a, 0.0) == 0.0
    ensures Times(b + c, a) == Times(b, a) + Times(c, a)
  {
  }

  lemma DeviationProduct(p: real, q: real, a: real, b: real)
    ensures Times(p - a, q - b) + (Times(a, q) + Times(b, p)) == Times(p, q) + Times(a, b)
  {
  }

  lemma {:induction false} ExpandDeviations(stream: seq<Sample>, i: int, j: int, a: real, b: real)
    ensures Total(stream, s => Times(Coordinate(s, i) - a, Coordinate(s, j) - b)) + (Times(a,
        CoordinateSum(stream, j)) + Times(b, CoordinateSum(stream, i)))
         == Total(stream, s => Times(Coordinate(s, i), Coordinate(s, j))) + Times(|stream| as real, Times(a, b))
  {
    hide Times;
    if stream == [] {
      TimesAdds(a, 0.0, 0.0);
      TimesAdds(b, 0.0, 0.0);
      TimesAdds(Times(a, b), 0.0, 0.0);
    } else {
      var r, z := stream[..|stream| - 1], stream[|stream| - 1];
      ExpandDeviations(r, i, j, a, b);
      DeviationProduct(Coordinate(z, i), Coordinate(z, j), a, b);
      TimesAdds(a, CoordinateSum(r, j), Coordinate(z, j));
      TimesAdds(b, CoordinateSum(r, i), Coordinate(z, i));
      TimesAdds(Times(a, b), |r| as real, 1.0);
      OneTimes(Times(a, b));
    }
  }

  lemma OneTimes(a: real)
    ensures Times(1.0, a) == a
  {
  }

  function Corrected(o: real, n: real, a: real, b: real): real { o - n * a * b }

  function OverDegrees(o: real, n: real, a: real, b: real): real
    requires n > 1.0
  {
    Corrected(o, n, a, b) / (n - 1.0)
  }

  lemma CollapseMeans(t: real, o: real, n: real, a: real, b: real)
    requires t + (Times(a, Times(n, b)) + Times(b, Times(n, a))) == o + Times(n, Times(a, b))
    ensures t == Corrected(o, n, a, b)
  {
    assert a * (n * b) == n * (a * b) == b * (n * a) == n * a * b;
  }

  lemma SumIsCountTimesMean(stream: seq<Sample>, i: int)
    requires stream != []
    ensures CoordinateSum(stream, i) == Times(|stream| as real, CoordinateMean(stream, i))
  {
  }

  lemma DeviationsAsTimes(stream: seq<Sample>, i: int, j: int, a: real, b: real)
    requires stream != [] && a == CoordinateMean(stream, i) && b == CoordinateMean(stream, j)
    ensures Total(stream, s => Deviation(stream, s, i) * Deviation(stream, s, j))
         == Total(stream, s => Times(Coordinate(s, i) - a, Coordinate(s, j) - b))
  {
    TotalExt(stream, s => Deviation(stream, s, i) * Deviation(stream, s, j),
        s => Times(Coordinate(s, i) - a, Coordinate(s, j) - b));
  }

  lemma OuterAsTimes(stream: seq<Sample>, i: int, j: int)
    ensures OuterSum(stream, i, j) == Total(stream, s => Times(Coordinate(s, i), Coordinate(s, j)))
  {
    TotalExt(stream, s => Coordinate(s, i) * Coordinate(s, j), s => Times(Coordinate(s, i), Coordinate(s, j)));
  }

  lemma DeviationTotal(stream: seq<Sample>, i: int, j: int)
    requires stream != []
    ensures Total(stream, s => Deviation(stream, s, i) * Deviation(stream, s, j))
         == Corrected(OuterSum(stream, i, j), |stream| as real, CoordinateMean(stream, i), CoordinateMean(stream, j))
  {
    var n, a, b := |stream| as real, CoordinateMean(stream, i), CoordinateMean(stream, j);
    hide Total, CoordinateSum, Times, Deviation, CoordinateMean, OuterSum, Corrected;
    SumIsCountTimesMean(stream, i);
    SumIsCountTimesMean(stream, j);
    DeviationsAsTimes(stream, i, j, a, b);
    OuterAsTimes(stream, i, j);
    ExpandDeviations(stream, i, j, a, b);
    CollapseMeans(Total(stream, s => Deviation(stream, s, i) * Deviation(stream, s, j)), OuterSum(stream, i, j), n, a,
        b);
  }

  lemma OnePassCovariance(stream: seq<Sample>, i: int, j: int)
    requires |stream| >= 2
    ensures SampleCovariance(stream, i, j) ==
      (OuterSum(stream, i, j) - |stream| as real * CoordinateMean(stream, i) * CoordinateMean(stream,
          j)) / (|stream| - 1) as real
  {
    hide OuterSum, CoordinateMean, Deviation;
    DeviationTotal(stream, i, j);
  }

  lemma CovarianceIs(stream: seq<Sample>, i: int, j: int)
    requires |stream| >= 2
    ensures SampleCovariance(stream, i, j)
         == OverDegrees(OuterSum(stream, i, j), |stream| as real, CoordinateMean(stream, i), CoordinateMean(stream, j))
  {
    hide SampleCovariance, CoordinateMean, OuterSum;
    OnePassCovariance(stream, i, j);
    assert (|stream| - 1) as real == |stream| as real - 1.0;
  }

  /** The covariance is symmetric. */
  lemma CovarianceIsSymmetric(stream: seq<Sample>, i: int, j: int)
    requires |stream| >= 2
    ensures SampleCovariance(stream, i, j) == SampleCovariance(stream, j, i)
  {
    TotalExt(stream, s => Deviation(stream, s, i) * Deviation(stream, s, j),
        s => Deviation(stream, s, j) * Deviation(stream, s, i));
  }

  function CovarianceRow(stream: seq<Sample>, dim: nat, v: int -> real, i: int): real
    requires |stream| >= 2
  {
    Inner(dim, v, j => SampleCovariance(stream, i, j))
  }

  /** The quadratic form of the covariance: the sum over i and j of v(i) * Cov(i, j) * v(j). */
  function CovarianceForm(stream: seq<Sample>, dim: nat, v: int -> real): real
    requires |stream| >= 2
  {
    Inner(dim, v, i => CovarianceRow(stream, dim, v, i))
  }

  lemma Quotient(a: real, n: real)
    requires n != 0.0
    ensures (a / n) * n == a
  {
  }

  lemma RowIsApply(stream: seq<Sample>, dim: nat, y: (Sample, int) -> real, v: int -> real, i: int, m: real)
    requires |stream| >= 2 && m == (|stream| - 1) as real && forall s, j :: y(s, j) == Deviation(stream, s, j)
    ensures CovarianceRow(stream, dim, v, i) * m == Apply(stream, dim, y, v, i)
  {
    forall j
      ensures SampleCovariance(stream, i, j) * m == Outer(stream, y, i, j)
    {
      OuterIs(stream, y, i, j, s => Deviation(stream, s, i) * Deviation(stream, s, j));
      Quotient(Outer(stream, y, i, j), m);
    }
    hide SampleCovariance, Outer, Deviation;
    InnerDivided(dim, v, j => Outer(stream, y, i, j), m, j => SampleCovariance(stream, i, j));
  }

  lemma FormIsGram(stream: seq<Sample>, dim: nat, y: (Sample, int) -> real, v: int -> real, m: real)
    requires |stream| >= 2 && m == (|stream| - 1) as real && forall s, j :: y(s, j) == Deviation(stream, s, j)
    ensures CovarianceForm(stream, dim, v) * m == Inner(dim, v, i => Apply(stream, dim, y, v, i))
  {
    hide CovarianceRow, Apply, Inner, Deviation;
    var rows, grams := i => CovarianceRow(stream, dim, v, i), i => Apply(stream, dim, y, v, i);
    forall i
      ensures rows(i) * m == grams(i)
    {
      RowIsApply(stream, dim, y, v, i, m);
    }
    InnerDivided(dim, v, grams, m, rows);
  }

  /** It is positive semidefinite. */
  lemma CovarianceIsPositive(stream: seq<Sample>, dim: nat, v: int -> real)
    requires |stream| >= 2
    ensures CovarianceForm(stream, dim, v) >= 0.0
  {
    var y := (s: Sample, i: int) => Deviation(stream, s, i);
    var m := (|stream| - 1) as real;
    hide CovarianceForm, Apply, Inner, Deviation;
    GramNonNegative(stream, dim, y, v);
    FormIsGram(stream, dim, y, v, m);
    NonNegativeFactor(CovarianceForm(stream, dim, v), m);
  }

  lemma NonNegativeFactor(a: real, m: real)
    requires m > 0.0 && a * m >= 0.0
    ensures a >= 0.0
  {
  }

  lemma {:induction false} CountIsTotal(stream: seq<Sample>, id: nat)
    ensures CountOf(stream, id) as real == Total(stream, (s: Sample) => if s.id == id then 1.0 else 0.0)
  {
    if stream != [] { CountIsTotal(stream[..|stream| - 1], id); }
  }

  /** Arrival order is irrelevant to every accumulated statistic. */
  lemma StatisticsPermuted(s: seq<Sample>, t: seq<Sample>, id: nat, i: int, j: int)
    requires multiset(s) == multiset(t)
    ensures |s| == |t| && CountOf(s, id) == CountOf(t, id) && ClassSum(s, id, i) == ClassSum(t, id, i)
    ensures CoordinateSum(s, i) == CoordinateSum(t, i) && OuterSum(s, i, j) == OuterSum(t, i, j)
  {
    assert |multiset(s)| == |s| && |multiset(t)| == |t|;
    CountIsTotal(s, id);
    CountIsTotal(t, id);
    TotalPermuted(s, t, (x: Sample) => if x.id == id then 1.0 else 0.0);
    TotalPermuted(s, t, x => InClass(x, id, i));
    TotalPermuted(s, t, x => Coordinate(x, i));
    TotalPermuted(s, t, x => Coordinate(x, i) * Coordinate(x, j));
  }

  lemma CovariancePermuted(s: seq<Sample>, t: seq<Sample>, i: int, j: int)
    requires multiset(s) == multiset(t) && |s| >= 2
    ensures |t| == |s| && SampleCovariance(s, i, j) == SampleCovariance(t, i, j)
  {
    StatisticsPermuted(s, t, 0, i, j);
    StatisticsPermuted(s, t, 0, j, i);
    assert CoordinateMean(s, i) == CoordinateMean(t, i) && CoordinateMean(s, j) == CoordinateMean(t, j);
    hide SampleCovariance, CoordinateMean, CoordinateSum, OuterSum, OverDegrees;
    CovarianceIs(s, i, j);
    CovarianceIs(t, i, j);
  }

  // ----- the accumulator -----

  class Stats {
    const dim: nat
    var counts: seq<nat>
    var sums: seq<Vec>
    const totalSum: array<real>
    const totalOuter: array2<real>
    var n: nat
    ghost var stream: seq<Sample>

    /** Every field is the batch statistic of the samples pushed so far. */
    ghost predicate Valid()
      reads this, totalSum, totalOuter
    {
      && totalSum.Length == dim && totalOuter.Length0 == dim && totalOuter.Length1 == dim
      && n == |stream| && |sums| == |counts|
      && (forall s :: s in stream ==> |s.x| == dim && s.id < |counts|)
      && (forall c :: 0 <= c < |counts| ==> counts[c] == CountOf(stream, c) && |sums[c]| == dim)
      && (forall c, i :: 0 <= c < |counts| && 0 <= i < dim ==> sums[c][i] == ClassSum(stream, c, i))
      && (forall i :: 0 <= i < dim ==> totalSum[i] == CoordinateSum(stream, i))
      && (forall i, j :: 0 <= i < dim && 0 <= j < dim ==> totalOuter[i, j] == OuterSum(stream, i, j))
    }

    constructor (dim: nat)
      ensures Valid() && this.dim == dim && stream == [] && counts == []
      ensures fresh(totalSum) && fresh(totalOuter)
    {
      this.dim := dim;
      counts, sums, n, stream := [], [], 0, [];
      totalSum := new real[dim](_ => 0.0);
      totalOuter := new real[dim, dim]((_, _) => 0.0);
    }

    /** Grow the class vocabulary to hold `id`. */
    method EnsureClass(id: nat)
      requires Valid()
      modifies this`counts, this`sums
      ensures Valid() && id < |counts| && |counts| == if id < old(|counts|) then old(|counts|) else id + 1
      ensures old(counts) <= counts
    {
      while |counts| <= id
        invariant Valid() && old(counts) <= counts
        invariant |counts| <= id + 1 || counts == old(counts)
      {
        EmptyClass(stream, |counts|);
        counts := counts + [0];
        sums := sums + [seq(dim, _ => 0.0)];
      }
    }

    /** One row of the outer product. */
    method AccumulateRow(i: nat, x: Vec)
      requires i < |x| == dim && totalOuter.Length0 == dim && totalOuter.Length1 == dim
      modifies totalOuter
      ensures forall b :: 0 <= b < dim ==> totalOuter[i, b] == old(totalOuter[i, b]) + x[i] * x[b]
      ensures forall a, b :: 0 <= a < dim && a != i && 0 <= b < dim ==> totalOuter[a, b] == old(totalOuter[a, b])
    {
      for j := 0 to dim
        invariant forall b :: 0 <= b < j ==> totalOuter[i, b] == old(totalOuter[i, b]) + x[i] * x[b]
        invariant forall b :: j <= b < dim ==> totalOuter[i, b] == old(totalOuter[i, b])
        invariant forall a, b :: 0 <= a < dim && a != i && 0 <= b < dim ==> totalOuter[a, b] == old(totalOuter[a, b])
      {
        totalOuter[i, j] := totalOuter[i, j] + x[i] * x[j];
      }
    }

    /** The loop nest of `push`: one sample into the sums and the outer products. */
    method Accumulate(row: Vec, x: Vec) returns (newRow: Vec)
      requires |x| == |row| == dim && totalSum.Length == dim && totalOuter.Length0 == dim && totalOuter.Length1 == dim
      modifies totalSum, totalOuter
      ensures |newRow| == dim && forall a :: 0 <= a < dim ==> newRow[a] == row[a] + x[a]
      ensures forall a :: 0 <= a < dim ==> totalSum[a] == old(totalSum[a]) + x[a]
      ensures forall a, b :: 0 <= a < dim && 0 <= b < dim ==> totalOuter[a, b] == old(totalOuter[a, b]) + x[a] * x[b]
    {
      newRow := row;
      for i := 0 to dim
        invariant |newRow| == dim
        invariant forall a :: 0 <= a < i ==> newRow[a] == row[a] + x[a] && totalSum[a] == old(totalSum[a]) + x[a]
        invariant forall a :: i <= a < dim ==> newRow[a] == row[a] && totalSum[a] == old(totalSum[a])
        invariant forall a, b :: 0 <= a < i && 0 <= b < dim ==> totalOuter[a, b] == old(totalOuter[a, b]) + x[a] * x[b]
        invariant forall a, b :: i <= a < dim && 0 <= b < dim ==> totalOuter[a, b] == old(totalOuter[a, b])
      {
        totalSum[i] := totalSum[i] + x[i];
        newRow := newRow[i := newRow[i] + x[i]];
        AccumulateRow(i, x);
      }
    }

    method Push(id: nat, x: Vec)
      requires Valid() && |x| == dim && id < |counts|
      modifies this`counts, this`sums, this`n, this`stream, totalSum, totalOuter
      ensures Valid() && stream == old(stream) + [Sample(id, x)]
      ensures |counts| == old(|counts|)
    {
      hide CountOf, ClassSum, CoordinateSum, OuterSum;
      counts := counts[id := counts[id] + 1];
      n := n + 1;
      var row := Accumulate(sums[id], x);
      sums := sums[id := row];
      PushedStatistics(stream, Sample(id, x));
      stream := stream + [Sample(id, x)];
    }

    method Mean(id: nat) returns (m: Option<Vec>)
      requires Valid()
      ensures m.Some? <==> CountOf(stream, id) > 0
      ensures m.Some? ==> |m.value| == dim && forall i ::
          0 <= i < dim ==> m.value[i] == ClassSum(stream, id, i) / CountOf(stream, id) as real
    {
      if id >= |counts| || counts[id] == 0 {
        if id >= |counts| { EmptyClass(stream, id); }
        return None;
      }
      var k, row := counts[id] as real, sums[id];
      return Some(seq(dim, i requires 0 <= i < dim => row[i] / k));
    }

    /** The one-pass form equals the sum of products of deviations. */
    method SharedCovariance() returns (cov: Option<array2<real>>)
      requires Valid()
      ensures cov.Some? <==> |stream| >= 2
      ensures cov.Some? ==> fresh(cov.value) && cov.value.Length0 == dim && cov.value.Length1 == dim
      ensures cov.Some? ==>
          forall i, j :: 0 <= i < dim && 0 <= j < dim ==> cov.value[i, j] == SampleCovariance(stream, i, j)
    {
      if n < 2 { return None; }
      var k := n as real;
      var totals := totalSum[..];
      var mu := seq(dim, i requires 0 <= i < dim => totals[i] / k);
      assert forall a :: 0 <= a < dim ==> mu[a] == CoordinateMean(stream, a);
      var c := CorrectedOuter(k, mu);
      hide SampleCovariance, OuterSum, CoordinateMean, CoordinateSum, OverDegrees;
      forall i, j | 0 <= i < dim && 0 <= j < dim ensures c[i, j] == SampleCovariance(stream, i, j) {
        CovarianceIs(stream, i, j);
      }
      return Some(c);
    }

    method CorrectedOuter(k: real, mu: Vec) returns (c: array2<real>)
      requires k > 1.0 && |mu| == dim == totalOuter.Length0 == totalOuter.Length1
      ensures fresh(c) && c.Length0 == dim && c.Length1 == dim
      ensures forall i, j :: 0 <= i < dim && 0 <= j < dim ==> c[i, j] == OverDegrees(totalOuter[i, j], k, mu[i], mu[j])
    {
      hide OverDegrees;
      c := new real[dim, dim];
      for i := 0 to dim
        invariant forall a, b ::
            0 <= a < i && 0 <= b < dim ==> c[a, b] == OverDegrees(totalOuter[a, b], k, mu[a], mu[b])
      {
        for j := 0 to dim
          invariant forall a, b ::
              0 <= a < i && 0 <= b < dim ==> c[a, b] == OverDegrees(totalOuter[a, b], k, mu[a], mu[b])
          invariant forall b :: 0 <= b < j ==> c[i, b] == OverDegrees(totalOuter[i, b], k, mu[i], mu[b])
        {
          c[i, j] := OverDegrees(totalOuter[i, j], k, mu[i], mu[j]);
        }
      }
    }
  }

  lemma {:induction false} EmptyClass(stream: seq<Sample>, id: nat)
    requires forall s :: s in stream ==> s.id != id
    ensures CountOf(stream, id) == 0 && forall i :: ClassSum(stream, id, i) == 0.0
  {
    if stream != [] {
      var r := stream[..|stream| - 1];
      assert stream[|stream| - 1] in stream;
      EmptyClass(r, id);
      forall i ensures ClassSum(stream, id, i) == 0.0 {
        assert ClassSum(r, id, i) == 0.0;
      }
    }
  }

  lemma PushedStatistics(was: seq<Sample>, s: Sample)
    ensures forall c: nat :: CountOf(was + [s], c) == CountOf(was, c) + (if s.id == c then 1 else 0)
    ensures forall c: nat, i ::
        ClassSum(was + [s], c, i) == ClassSum(was, c, i) + (if s.id == c then At(s.x, i) else 0.0)
    ensures forall i :: CoordinateSum(was + [s], i) == CoordinateSum(was, i) + At(s.x, i)
    ensures forall i, j :: OuterSum(was + [s], i, j) == OuterSum(was, i, j) + At(s.x, i) * At(s.x, j)
  {
    assert (was + [s])[..|was|] == was;
  }
}
