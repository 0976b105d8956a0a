/** `RidgeHead` of `decide_core/src/heads.rs`: the Gram matrix and the class sums
    accumulated in place, the class means, and the right-hand side of the solve. */
module RidgeHead {
  import opened Wrappers
  import opened Sums
  import opened Gram
  import opened StreamingStats
  import Ridge

  type Matrix = seq<Vec>

  // ----- classes with samples -----

  /** The ids with a positive count, ascending. */
  function NonEmpty(counts: seq<nat>): (ids: seq<nat>)
    ensures forall r :: 0 <= r < |ids| ==> ids[r] < |counts| && counts[ids[r]] > 0
    ensures forall r, q :: 0 <= r < q < |ids| ==> ids[r] < ids[q]
    ensures forall c :: 0 <= c < |counts| && counts[c] > 0 ==> c in ids
  {
    if counts == [] then []
    else
      var last := |counts| - 1;
      NonEmpty(counts[..last]) + (if counts[last] > 0 then [last] else [])
  }

  lemma {:induction false} RowsAscend(counts: seq<nat>, q: nat, r: nat)
    requires q <= r < |NonEmpty(counts)|
    ensures q <= NonEmpty(counts)[q] && NonEmpty(counts)[q] + (r - q) <= NonEmpty(counts)[r]
    decreases r
  {
    hide NonEmpty;
    var ids := NonEmpty(counts);
    if q < r {
      RowsAscend(counts, q, r - 1);
      assert ids[r - 1] < ids[r];
    } else if q > 0 {
      RowsAscend(counts, q - 1, q - 1);
      assert ids[q - 1] < ids[q];
    }
  }

  /** Row r of the means is class r exactly when no class registered before it is empty. */
  lemma RowIsItsClass(counts: seq<nat>, r: nat)
    requires r < |NonEmpty(counts)|
    ensures NonEmpty(counts)[r] == r <==> forall c :: 0 <= c < NonEmpty(counts)[r] ==> counts[c] > 0
  {
    hide NonEmpty;
    var ids := NonEmpty(counts);
    RowsAscend(counts, r, r);
    if ids[r] == r {
      forall c | 0 <= c < r ensures counts[c] > 0 {
        RowsAscend(counts, c, r);
        assert ids[c] == c;
      }
    }
    if forall c :: 0 <= c < ids[r] ==> counts[c] > 0 { PrefixRow(counts, r); }
  }

  lemma {:induction false} PrefixRow(counts: seq<nat>, r: nat)
    requires r < |NonEmpty(counts)|
    requires forall c :: 0 <= c < NonEmpty(counts)[r] ==> counts[c] > 0
    ensures NonEmpty(counts)[r] == r
  {
    hide NonEmpty;
    var ids := NonEmpty(counts);
    if r > 0 {
      assert ids[r - 1] < ids[r];
      PrefixRow(counts, r - 1);
    }
    // every class up to ids[r] has samples, so none can sit between two rows
    assert r <= ids[r] < |counts| && counts[ids[r]] > 0;
    assert counts[r] > 0 && r in ids;
    var q :| 0 <= q < |ids| && ids[q] == r;
  }

  /** Every row is labelled with its class exactly when the classes with samples come
      before all the classes without. */
  lemma RowsMatchLabels(counts: seq<nat>)
    ensures (forall r :: 0 <= r < |NonEmpty(counts)| ==> NonEmpty(counts)[r] == r) <==>
            (forall c, d :: 0 <= c < d < |counts| && counts[d] > 0 ==> counts[c] > 0)
  {
    var ids := NonEmpty(counts);
    if forall c, d :: 0 <= c < d < |counts| && counts[d] > 0 ==> counts[c] > 0 {
      forall r | 0 <= r < |ids| ensures ids[r] == r { RowIsItsClass(counts, r); }
    }
    if forall r :: 0 <= r < |ids| ==> ids[r] == r {
      forall c, d | 0 <= c < d < |counts| && counts[d] > 0 ensures counts[c] > 0 {
        assert d in ids && ids[d] == d;
        assert ids[c] == c;
      }
    }
  }

  // ----- the label of an answer -----

  /** `best` is the first largest entry. */
  predicate FirstLargest(sims: seq<real>, best: nat) {
    && best < |sims| && (forall c :: 0 <= c < |sims| ==> sims[c] <= sims[best])
    && (forall c :: 0 <= c < best ==> sims[c] < sims[best])
  }

  /** Argmax over the similarities, one a prototype row, with the label stored at that row. */
  method Predict(sims: seq<real>, labels: seq<string>) returns (r: Option<(string, real)>, best: nat)
    ensures sims == [] ==> r.None?
    ensures sims != [] ==>
      FirstLargest(sims, best) && r == if best < |labels| then Some((labels[best], sims[best])) else None
  {
    best := 0;
    if sims == [] { return None, best; }
    for c := 1 to |sims|
      invariant best < c && FirstLargest(sims[..c], best)
    {
      if sims[c] > sims[best] { best := c; }
    }
    assert sims[..|sims|] == sims;
    return if best < |labels| then Some((labels[best], sims[best])) else None, best;
  }

  /** An answer carries a label, and it is the label of the class whose prototype won exactly
      when no class registered before that one is empty. */
  lemma PredictedLabelIsRight(labels: seq<string>, counts: seq<nat>, best: nat)
    requires |labels| == |counts| && forall i, j :: 0 <= i < j < |labels| ==> labels[i] != labels[j]
    requires best < |NonEmpty(counts)|
    ensures best < |labels|
    ensures labels[best] == labels[NonEmpty(counts)[best]] <==>
        forall c :: 0 <= c < NonEmpty(counts)[best] ==> counts[c] > 0
  {
    RowsAscend(counts, best, best);
    RowIsItsClass(counts, best);
  }

  /** Labels a, b, c with no sample of a: the prototype of the first row is not that of a. */
  lemma EmptyClassMisnames(labels: seq<string>, counts: seq<nat>)
    requires labels == ["a", "b", "c"] && counts == [0, 1, 1]
    ensures NonEmpty(counts) != [] && NonEmpty(counts)[0] > 0 && labels[0] != labels[NonEmpty(counts)[0]]
  {
    hide NonEmpty;
    assert |labels[0]| == |labels[1]| == |labels[2]| == 1;
    assert labels[0][0] == 'a' && labels[1][0] == 'b' && labels[2][0] == 'c';
    FirstRow(counts);
    PredictedLabelIsRight(labels, counts, 0);
  }

  lemma FirstRow(counts: seq<nat>)
    requires |counts| > 1 && counts[0] == 0 && counts[1] > 0
    ensures NonEmpty(counts) != [] && 0 < NonEmpty(counts)[0]
  {
    hide NonEmpty;
    assert 1 in NonEmpty(counts);
    assert counts[NonEmpty(counts)[0]] > 0;
  }

  function RowOf(ids: seq<nat>, id: nat): nat
  {
    if ids == [] then 0 else if ids[0] == id then 0 else 1 + RowOf(ids[1..], id)
  }

  function Cell(m: Matrix, r: int, k: int): real { if 0 <= r < |m| then At(m[r], k) else 0.0 }

  /** The target of a sample: the row of its class. */
  function TargetOf(ids: seq<nat>, targets: Matrix, s: Sample, t: int): real {
    Cell(targets, RowOf(ids, s.id), t)
  }

  lemma {:induction false} RowOfRow(ids: seq<nat>, r: nat)
    requires r < |ids| && forall p, q :: 0 <= p < q < |ids| ==> ids[p] < ids[q]
    ensures RowOf(ids, ids[r]) == r
  {
    if r > 0 { RowOfRow(ids[1..], r - 1); }
  }

  // ----- B = sum over classes of n_c * mean_c * target_c, sample by sample -----

  function IsRow(ids: seq<nat>, s: Sample, r: int): real { if 0 <= r < |ids| && ids[r] == s.id then 1.0 else 0.0 }

  /** Picking the row of a class out of a sum over the rows. */
  lemma {:induction false} PickRow(n: nat, c: int -> real, hit: int -> real, at: int)
    requires forall r :: 0 <= r < n ==> hit(r) == if r == at then 1.0 else 0.0
    ensures Inner(n, c, hit) == if 0 <= at < n then c(at) else 0.0
  {
    if n > 0 { PickRow(n - 1, c, hit, at); }
  }

  ghost predicate Covers(ids: seq<nat>, stream: seq<Sample>) {
    && (forall p, q :: 0 <= p < q < |ids| ==> ids[p] < ids[q])
    && (forall s :: s in stream ==> s.id in ids)
  }

  function ClassTotals(ids: seq<nat>, stream: seq<Sample>, a: int, r: int): real {
    if 0 <= r < |ids| then ClassSum(stream, ids[r], a) else 0.0
  }

  /** An entry of B as the code builds it: the sum over rows of target times class sum. */
  function ClassForm(ids: seq<nat>, targets: Matrix, stream: seq<Sample>, a: int, t: int): real {
    Inner(|ids|, r => Cell(targets, r, t), r => ClassTotals(ids, stream, a, r))
  }

  /** The same entry, one sample at a time. */
  function SampleForm(ids: seq<nat>, targets: Matrix, stream: seq<Sample>, a: int, t: int): real {
    Total(stream, s => Coordinate(s, a) * TargetOf(ids, targets, s, t))
  }

  lemma SelectsTarget(ids: seq<nat>, targets: Matrix, s: Sample, t: int)
    requires s.id in ids && forall p, q :: 0 <= p < q < |ids| ==> ids[p] < ids[q]
    ensures Inner(|ids|, r => Cell(targets, r, t), r => IsRow(ids, s, r)) == TargetOf(ids, targets, s, t)
  {
    var at :| 0 <= at < |ids| && ids[at] == s.id;
    RowOfRow(ids, at);
    PickRow(|ids|, r => Cell(targets, r, t), r => IsRow(ids, s, r), at);
  }

  /** The class form of an entry of B equals its sample form. */
  lemma {:induction false} ClassFormIsSampleForm(stream: seq<Sample>, ids: seq<nat>, targets: Matrix, a: int, t: int)
    requires Covers(ids, stream)
    ensures ClassForm(ids, targets, stream, a, t) == SampleForm(ids, targets, stream, a, t)
  {
    var c, totals := r => Cell(targets, r, t), r => ClassTotals(ids, stream, a, r);
    if stream == [] {
      InnerZero(|ids|, c, totals);
    } else {
      var rest, z := stream[..|stream| - 1], stream[|stream| - 1];
      assert z in stream;
      ClassFormIsSampleForm(rest, ids, targets, a, t);
      SelectsTarget(ids, targets, z, t);
      hide Cell, TargetOf, Inner;
      InnerLinear(|ids|, c, r => ClassTotals(ids, rest, a, r), r => IsRow(ids, z, r), Coordinate(z, a), totals);
    }
  }

  // ----- the accumulator -----

  /** What the code solves against: the Gram matrix with penalty on the diagonal. */
  function Regularised(stream: seq<Sample>, penalty: real, i: int, j: int): real {
    OuterSum(stream, i, j) + (if i == j then penalty else 0.0)
  }

  class Head {
    const bigD: nat
    const penalty: real
    const gram: array2<real>
    var rpSums: Matrix
    var rpCounts: seq<nat>
    ghost var stream: seq<Sample>

    ghost predicate Valid()
      reads this, gram
    {
      && gram.Length0 == bigD && gram.Length1 == bigD && |rpSums| == |rpCounts|
      && (forall s :: s in stream ==> |s.x| == bigD && s.id < |rpCounts|)
      && (forall c :: 0 <= c < |rpCounts| ==> rpCounts[c] == CountOf(stream, c) && |rpSums[c]| == bigD)
      && (forall c, i :: 0 <= c < |rpCounts| && 0 <= i < bigD ==> rpSums[c][i] == ClassSum(stream, c, i))
      && (forall i, j :: 0 <= i < bigD && 0 <= j < bigD ==> gram[i, j] == OuterSum(stream, i, j))
    }

    constructor (bigD: nat, penalty: real)
      ensures Valid() && this.bigD == bigD && this.penalty == penalty && stream == [] && rpCounts == []
      ensures fresh(gram)
    {
      this.bigD, this.penalty := bigD, penalty;
      rpSums, rpCounts, stream := [], [], [];
      gram := new real[bigD, bigD]((_, _) => 0.0);
    }

    method EnsureClass(id: nat)
      requires Valid()
      modifies this`rpSums, this`rpCounts
      ensures Valid() && |rpCounts| == (if id < old(|rpCounts|) then old(|rpCounts|) else id + 1)
      ensures old(rpCounts) <= rpCounts
      ensures forall c :: old(|rpCounts|) <= c < |rpCounts| ==> rpCounts[c] == 0
    {
      while |rpCounts| <= id
        invariant Valid() && old(rpCounts) <= rpCounts
        invariant |rpCounts| <= id + 1 || |rpCounts| == old(|rpCounts|)
        invariant forall c :: old(|rpCounts|) <= c < |rpCounts| ==> rpCounts[c] == 0
      {
        EmptyClass(stream, |rpCounts|);
        rpCounts := rpCounts + [0];
        rpSums := rpSums + [seq(bigD, _ => 0.0)];
      }
    }

    method AccumulateRow(a: nat, z: Vec)
      requires a < |z| == bigD && gram.Length0 == bigD && gram.Length1 == bigD
      modifies gram
      ensures forall b :: 0 <= b < bigD ==> gram[a, b] == old(gram[a, b]) + z[a] * z[b]
      ensures forall i, b :: 0 <= i < bigD && i != a && 0 <= b < bigD ==> gram[i, b] == old(gram[i, b])
    {
      for b := 0 to bigD
        invariant forall j :: 0 <= j < b ==> gram[a, j] == old(gram[a, j]) + z[a] * z[j]
        invariant forall j :: b <= j < bigD ==> gram[a, j] == old(gram[a, j])
        invariant forall i, j :: 0 <= i < bigD && i != a && 0 <= j < bigD ==> gram[i, j] == old(gram[i, j])
      {
        gram[a, b] := gram[a, b] + z[a] * z[b];
      }
    }

    method Accumulate(row: Vec, z: Vec) returns (newRow: Vec)
      requires |z| == |row| == bigD && gram.Length0 == bigD && gram.Length1 == bigD
      modifies gram
      ensures |newRow| == bigD && forall a :: 0 <= a < bigD ==> newRow[a] == row[a] + z[a]
      ensures forall a, b :: 0 <= a < bigD && 0 <= b < bigD ==> gram[a, b] == old(gram[a, b]) + z[a] * z[b]
    {
      newRow := row;
      for a := 0 to bigD
        invariant |newRow| == bigD
        invariant forall i :: 0 <= i < a ==> newRow[i] == row[i] + z[i]
        invariant forall i :: a <= i < bigD ==> newRow[i] == row[i]
        invariant forall i, b :: 0 <= i < a && 0 <= b < bigD ==> gram[i, b] == old(gram[i, b]) + z[i] * z[b]
        invariant forall i, b :: a <= i < bigD && 0 <= b < bigD ==> gram[i, b] == old(gram[i, b])
      {
        AccumulateRow(a, z);
        newRow := newRow[a := newRow[a] + z[a]];
      }
    }

    /** A += z zT, r_c += z, n_c += 1. */
    method Push(id: nat, z: Vec)
      requires Valid() && |z| == bigD && id < |rpCounts|
      modifies this`rpSums, this`rpCounts, this`stream, gram
      ensures Valid() && stream == old(stream) + [Sample(id, z)] && |rpCounts| == old(|rpCounts|)
    {
      hide CountOf, ClassSum, CoordinateSum, OuterSum;
      var row := Accumulate(rpSums[id], z);
      rpSums := rpSums[id := row];
      rpCounts := rpCounts[id := rpCounts[id] + 1];
      PushedStatistics(stream, Sample(id, z));
      stream := stream + [Sample(id, z)];
    }

    /** Class means, one row for each class with samples; refused below two such classes. */
    method ClassMeans() returns (r: Result<Matrix>)
      requires Valid()
      ensures r.Ok? <==> |NonEmpty(rpCounts)| >= 2
      ensures r.Ok? ==> MeansOf(stream, NonEmpty(rpCounts), bigD, r.value)
    {
      var ids := NonEmpty(rpCounts);
      if |ids| < 2 { return Err("too few classes"); }
      var m: Matrix := [];
      for row := 0 to |ids|
        invariant |m| == row
        invariant forall q :: 0 <= q < row ==> |m[q]| == bigD && forall k :: 0 <= k < bigD ==>
          m[q][k] == ClassSum(stream, ids[q], k) / CountOf(stream, ids[q]) as real
      {
        var n, sums := rpCounts[ids[row]] as real, rpSums[ids[row]];
        m := m + [seq(bigD, k requires 0 <= k < bigD => sums[k] / n)];
      }
      return Ok(m);
    }

    /** One class into B: n_c * mean_c * target_c. */
    method AddClass(b: array2<real>, mean: Vec, n: real, target: Vec)
      requires b.Length0 == bigD == |mean| && b.Length1 == |target|
      modifies b
      ensures forall a, t ::
          0 <= a < bigD && 0 <= t < |target| ==> b[a, t] == old(b[a, t]) + Times(Times(mean[a], n), target[t])
    {
      for a := 0 to bigD
        invariant forall i, t ::
            0 <= i < a && 0 <= t < |target| ==> b[i, t] == old(b[i, t]) + Times(Times(mean[i], n), target[t])
        invariant forall i, t :: a <= i < bigD && 0 <= t < |target| ==> b[i, t] == old(b[i, t])
      {
        var r := mean[a] * n;
        for t := 0 to |target|
          invariant forall i, u ::
              0 <= i < a && 0 <= u < |target| ==> b[i, u] == old(b[i, u]) + Times(Times(mean[i], n), target[u])
          invariant forall u :: 0 <= u < t ==> b[a, u] == old(b[a, u]) + r * target[u]
          invariant forall u :: t <= u < |target| ==> b[a, u] == old(b[a, u])
          invariant forall i, u :: a < i < bigD && 0 <= u < |target| ==> b[i, u] == old(b[i, u])
        {
          b[a, t] := b[a, t] + r * target[t];
        }
      }
    }

    /** `rp_covariance`, with the mean the code computes. */
    method RpCovarianceMatrix() returns (cov: Option<array2<real>>)
      requires Valid()
      ensures cov.Some? <==> |stream| >= 2
      ensures cov.Some? ==> fresh(cov.value) && cov.value.Length0 == bigD && cov.value.Length1 == bigD
      ensures cov.Some? ==>
          forall i, j :: 0 <= i < bigD && 0 <= j < bigD ==> cov.value[i, j] == RpCovariance(stream, |rpCounts|, i, j)
    {
      var total := 0;
      for c := 0 to |rpCounts|
        invariant total == SumCounts(stream, c)
      {
        total := total + rpCounts[c];
      }
      CountsAddUp(stream, |rpCounts|);
      if total < 2 { return None; }
      var mean := SummedMeanVector();
      var m := CorrectedGram(total as real, mean);
      hide OuterSum, SummedMeans, RpCovariance, OverDegrees;
      forall i, j | 0 <= i < bigD && 0 <= j < bigD ensures m[i, j] == RpCovariance(stream, |rpCounts|, i, j) {
        RpCovarianceIs(stream, |rpCounts|, i, j);
      }
      return Some(m);
    }

    method CorrectedGram(n: real, mean: Vec) returns (m: array2<real>)
      requires n > 1.0 && |mean| == bigD == gram.Length0 == gram.Length1
      ensures fresh(m) && m.Length0 == bigD && m.Length1 == bigD
      ensures forall i, j :: 0 <= i < bigD && 0 <= j < bigD ==> m[i, j] == OverDegrees(gram[i, j], n, mean[i], mean[j])
    {
      m := new real[bigD, bigD];
      hide OverDegrees;
      for i := 0 to bigD
        invariant forall p, q :: 0 <= p < i && 0 <= q < bigD ==> m[p, q] == OverDegrees(gram[p, q], n, mean[p], mean[q])
      {
        for j := 0 to bigD
          invariant forall p, q ::
              0 <= p < i && 0 <= q < bigD ==> m[p, q] == OverDegrees(gram[p, q], n, mean[p], mean[q])
          invariant forall q :: 0 <= q < j ==> m[i, q] == OverDegrees(gram[i, q], n, mean[i], mean[q])
        {
          m[i, j] := OverDegrees(gram[i, j], n, mean[i], mean[j]);
        }
      }
    }

    method SummedMeanVector() returns (mean: Vec)
      requires Valid()
      ensures |mean| == bigD && forall k :: 0 <= k < bigD ==> mean[k] == SummedMeans(stream, |rpCounts|, k)
    {
      hide ClassSum, CountOf, OuterSum;
      mean := seq(bigD, _ => 0.0);
      for c := 0 to |rpCounts|
        invariant |mean| == bigD && forall k :: 0 <= k < bigD ==> mean[k] == SummedMeans(stream, c, k)
      {
        if rpCounts[c] == 0 { continue; }
        var sums, n, was := rpSums[c], rpCounts[c] as real, mean;
        mean := seq(bigD, k requires 0 <= k < bigD => was[k] + sums[k] / n);
      }
    }

    method RegularisedGram() returns (a: array2<real>)
      requires Valid()
      ensures fresh(a) && a.Length0 == bigD && a.Length1 == bigD
      ensures forall i, j :: 0 <= i < bigD && 0 <= j < bigD ==> a[i, j] == Regularised(stream, penalty, i, j)
    {
      hide OuterSum;
      a := new real[bigD, bigD];
      for i := 0 to bigD
        invariant forall p, q :: 0 <= p < i && 0 <= q < bigD ==> a[p, q] == Regularised(stream, penalty, p, q)
      {
        for j := 0 to bigD
          invariant forall p, q :: 0 <= p < i && 0 <= q < bigD ==> a[p, q] == Regularised(stream, penalty, p, q)
          invariant forall q :: 0 <= q < j ==> a[i, q] == Regularised(stream, penalty, i, q)
        {
          a[i, j] := gram[i, j] + (if i == j then penalty else 0.0);
        }
      }
    }

    method RightHandSide(means: Matrix, targets: Matrix, width: nat) returns (b: array2<real>)
      requires Valid() && MeansOf(stream, NonEmpty(rpCounts), bigD, means)
      requires |targets| == |means| && forall q :: 0 <= q < |targets| ==> |targets[q]| == width
      ensures fresh(b) && b.Length0 == bigD && b.Length1 == width
      ensures forall a, t ::
          0 <= a < bigD && 0 <= t < width ==> b[a, t] == ClassForm(NonEmpty(rpCounts), targets, stream, a, t)
    {
      var ids := NonEmpty(rpCounts);
      b := new real[bigD, width]((_, _) => 0.0);
      assert forall q :: 0 <= q < |ids| ==> rpCounts[ids[q]] == CountOf(stream, ids[q]);
      assert |means| == |ids| && forall q :: 0 <= q < |ids| ==> |means[q]| == bigD;
      hide Head.Valid, CountOf, MeansOf;
      AddClasses(b, ids, means, targets, width);
    }

    method AddClasses(b: array2<real>, ids: seq<nat>, means: Matrix, targets: Matrix, width: nat)
      requires MeansOf(stream, ids, bigD, means) && |means| == |targets| == |ids|
      requires forall q :: 0 <= q < |ids| ==>
                 && |means[q]| == bigD && |targets[q]| == width
                 && ids[q] < |rpCounts| && rpCounts[ids[q]] == CountOf(stream, ids[q])
      requires b.Length0 == bigD && b.Length1 == width
      requires forall a, t :: 0 <= a < bigD && 0 <= t < width ==> b[a, t] == 0.0
      modifies b
      ensures forall a, t :: 0 <= a < bigD && 0 <= t < width ==> b[a, t] == ClassForm(ids, targets, stream, a, t)
    {
      hide *;
      forall a, t | 0 <= a < bigD && 0 <= t < width ensures b[a, t] == PartialForm(ids, targets, stream, a, t, 0) {
        PartialEnds(ids, targets, stream, a, t);
      }
      for row := 0 to |ids|
        invariant forall a, t ::
            0 <= a < bigD && 0 <= t < width ==> b[a, t] == PartialForm(ids, targets, stream, a, t, row)
      {
        AddClass(b, means[row], rpCounts[ids[row]] as real, targets[row]);
        forall a, t | 0 <= a < bigD && 0 <= t < width
          ensures b[a, t] == PartialForm(ids, targets, stream, a, t, row + 1)
        {
          PartialStep(ids, targets, stream, bigD, means, width, a, t, row);
        }
      }
      forall a, t | 0 <= a < bigD && 0 <= t < width ensures b[a, t] == ClassForm(ids, targets, stream, a, t) {
        PartialEnds(ids, targets, stream, a, t);
      }
    }

    /** The system of `solve_with_targets`, up to the factorisation: A + penalty I and B.
        B, built from one mean a class, is the sum over every sample of its feature times
        the target of its class. */
    method NormalEquations(means: Matrix, targets: Matrix, width: nat) returns (r: Result<(array2<real>, array2<real>)>)
      requires Valid() && MeansOf(stream, NonEmpty(rpCounts), bigD, means)
      requires |targets| == |means| && forall q :: 0 <= q < |targets| ==> |targets[q]| == width
      ensures r.Ok? <==> |NonEmpty(rpCounts)| >= 2
      ensures r.Ok? ==>
        var (a, b) := r.value;
        && a.Length0 == bigD && a.Length1 == bigD && b.Length0 == bigD && b.Length1 == width
        && (forall i, j :: 0 <= i < bigD && 0 <= j < bigD ==> a[i, j] == Regularised(stream, penalty, i, j))
        && (forall i, t :: 0 <= i < bigD && 0 <= t < width ==>
            b[i, t] == SampleForm(NonEmpty(rpCounts), targets, stream, i, t))
    {
      var ids := NonEmpty(rpCounts);
      if |ids| < 2 { return Err("too few classes"); }
      CoversStream(stream, rpCounts);
      hide ClassSum, CountOf, MeansOf, OuterSum, ClassForm, SampleForm, Covers, Regularised;
      var b := RightHandSide(means, targets, width);
      var a := RegularisedGram();
      forall i, t | 0 <= i < bigD && 0 <= t < width
        ensures b[i, t] == SampleForm(ids, targets, stream, i, t)
      {
        ClassFormIsSampleForm(stream, ids, targets, i, t);
      }
      return Ok((a, b));
    }
  }

  /** Row r holds the mean of the class ids[r]. */
  ghost predicate MeansOf(stream: seq<Sample>, ids: seq<nat>, d: nat, m: Matrix) {
    |m| == |ids| && forall q ::
        0 <= q < |ids| ==> |m[q]| == d && CountOf(stream, ids[q]) > 0 && forall k :: 0 <= k < d ==>
      m[q][k] == ClassSum(stream, ids[q], k) / CountOf(stream, ids[q]) as real
  }

  /** The class form over the first `rows` rows. */
  function PartialForm(ids: seq<nat>, targets: Matrix, stream: seq<Sample>, a: int, t: int, rows: nat): real {
    Inner(rows, r => Cell(targets, r, t), r => ClassTotals(ids, stream, a, r))
  }

  lemma PartialEnds(ids: seq<nat>, targets: Matrix, stream: seq<Sample>, a: int, t: int)
    ensures PartialForm(ids, targets, stream, a, t, 0) == 0.0
    ensures PartialForm(ids, targets, stream, a, t, |ids|) == ClassForm(ids, targets, stream, a, t)
  {
  }

  lemma PartialStep(ids: seq<nat>, targets: Matrix, stream: seq<Sample>, d: nat, means: Matrix, width: nat, a: nat,
          t: nat, row: nat)
    requires MeansOf(stream, ids, d, means) && row < |ids| == |targets| && |targets[row]| == width && a < d && t < width
    ensures PartialForm(ids, targets, stream, a, t, row + 1) ==
      PartialForm(ids, targets, stream, a, t, row) + Times(Times(means[row][a], CountOf(stream, ids[row]) as real),
          targets[row][t])
  {
    var sum, n := ClassSum(stream, ids[row], a), CountOf(stream, ids[row]) as real;
    assert n != 0.0 && means[row][a] == sum / n;
    assert Cell(targets, row, t) == targets[row][t] && ClassTotals(ids, stream, a, row) == sum;
    hide *;
    ScaledMean(sum, n, means[row][a], targets[row][t]);
    OneMoreRow(ids, targets, stream, a, t, row, targets[row][t], sum);
  }

  lemma OneMoreRow(ids: seq<nat>, targets: Matrix, stream: seq<Sample>, a: int, t: int, row: nat, x: real, y: real)
    requires x == Cell(targets, row, t) && y == ClassTotals(ids, stream, a, row)
    ensures PartialForm(ids, targets, stream, a, t, row + 1) ==
        PartialForm(ids, targets, stream, a, t, row) + Times(x, y)
  {
    hide Cell, ClassTotals;
  }

  lemma ScaledMean(sum: real, n: real, mean: real, target: real)
    requires n != 0.0 && mean == sum / n
    ensures Times(target, sum) == Times(Times(mean, n), target)
  {
    assert mean * n == sum;
  }

  lemma CoversStream(stream: seq<Sample>, counts: seq<nat>)
    requires forall s :: s in stream ==> s.id < |counts|
    requires forall c :: 0 <= c < |counts| ==> counts[c] == CountOf(stream, c)
    ensures Covers(NonEmpty(counts), stream)
  {
    forall s | s in stream
      ensures s.id in NonEmpty(counts)
    {
      SeenClassHasCount(stream, s);
    }
  }

  lemma {:induction false} SeenClassHasCount(stream: seq<Sample>, s: Sample)
    requires s in stream
    ensures CountOf(stream, s.id) > 0
  {
    if stream[|stream| - 1] != s { SeenClassHasCount(stream[..|stream| - 1], s); }
  }

  // ----- what a solution of the system is worth -----

  /** The loss of one target column over every sample: squared errors plus penalty |w|^2. */
  function ColumnLoss(stream: seq<Sample>, d: nat, penalty: real, ids: seq<nat>, targets: Matrix,
          theta: (int, int) -> real, t: int): real {
    Ridge.Loss(stream, d, penalty, Coordinate, (s: Sample) => TargetOf(ids, targets, s, t), i => theta(i, t))
  }

  function StreamLoss(stream: seq<Sample>, d: nat, penalty: real, ids: seq<nat>, targets: Matrix, width: nat,
          theta: (int, int) -> real): real {
    Sum(width, t => ColumnLoss(stream, d, penalty, ids, targets, theta, t))
  }

  /** theta solves (A + penalty I) theta = B, the system of `Head.NormalEquations`. */
  ghost predicate SolvesSystem(stream: seq<Sample>, d: nat, penalty: real, ids: seq<nat>, targets: Matrix, width: nat,
          theta: (int, int) -> real) {
    forall i, t :: 0 <= i < d && 0 <= t < width ==>
      Inner(d, j => theta(j, t), j => Regularised(stream, penalty, i, j)) == SampleForm(ids, targets, stream, i, t)
  }

  lemma RegularisedRow(stream: seq<Sample>, d: nat, penalty: real, w: int -> real, i: nat)
    requires i < d
    ensures Inner(d, w, j => Regularised(stream, penalty, i, j))
         == Apply(stream, d, Coordinate, w, i) + penalty * w(i)
  {
    var y := Coordinate;
    forall j ensures Outer(stream, y, i, j) == OuterSum(stream, i, j) {
      OuterIs(stream, y, i, j, s => Coordinate(s, i) * Coordinate(s, j));
    }
    var unit := j => if i == j then 1.0 else 0.0;
    hide Outer, OuterSum;
    PickRow(d, w, unit, i);
    InnerLinear(d, w, j => Outer(stream, y, i, j), unit, penalty, j => Regularised(stream, penalty, i, j));
  }

  lemma ColumnIsMinimal(stream: seq<Sample>, d: nat, penalty: real, ids: seq<nat>, targets: Matrix, width: nat,
                        theta: (int, int) -> real, other: (int, int) -> real, t: nat)
    requires penalty > 0.0 && SolvesSystem(stream, d, penalty, ids, targets, width, theta) && t < width
    ensures ColumnLoss(stream, d, penalty, ids, targets, theta, t) <=
        ColumnLoss(stream, d, penalty, ids, targets, other, t)
    ensures (ColumnLoss(stream, d, penalty, ids, targets, theta, t)
          == ColumnLoss(stream, d, penalty, ids, targets, other, t)) ==>
              forall i :: 0 <= i < d ==> other(i, t) == theta(i, t)
  {
    var y, target := Coordinate, (s: Sample) => TargetOf(ids, targets, s, t);
    var w, v := i => theta(i, t), i => other(i, t);
    forall i | 0 <= i < d
      ensures Apply(stream, d, y, w, i) + penalty * w(i) == Ridge.Rhs(stream, y, target, i)
    {
      RegularisedRow(stream, d, penalty, w, i);
      Ridge.RhsIs(stream, y, target, i, s => Coordinate(s, i) * TargetOf(ids, targets, s, t));
      assert Inner(d, w, j => Regularised(stream, penalty, i, j)) == SampleForm(ids, targets, stream, i, t);
    }
    assert Ridge.Solves(stream, d, penalty, y, target, w);
    hide Ridge.Loss, Ridge.Solves;
    Ridge.SolutionMinimises(stream, d, penalty, y, target, w, v);
    assert forall i :: 0 <= i < d ==> w(i) == theta(i, t) && v(i) == other(i, t);
  }

  /** A solution of the system built from per-class sums has the least loss over the whole stream. */
  lemma FitMinimises(stream: seq<Sample>, d: nat, penalty: real, ids: seq<nat>, targets: Matrix, width: nat,
                     theta: (int, int) -> real, other: (int, int) -> real)
    requires penalty > 0.0 && SolvesSystem(stream, d, penalty, ids, targets, width, theta)
    ensures StreamLoss(stream, d, penalty, ids, targets, width, theta) <=
        StreamLoss(stream, d, penalty, ids, targets, width, other)
  {
    forall t | 0 <= t < width
      ensures ColumnLoss(stream, d, penalty, ids, targets, theta, t) <=
          ColumnLoss(stream, d, penalty, ids, targets, other, t)
    {
      ColumnIsMinimal(stream, d, penalty, ids, targets, width, theta, other, t);
    }
    hide ColumnLoss;
    SumMonotone(width, t => ColumnLoss(stream, d, penalty, ids, targets, theta, t),
        t => ColumnLoss(stream, d, penalty, ids, targets, other, t));
  }

  // ----- rp_covariance -----

  /** The `mean` of `rp_covariance`: the sum of the means of the classes with samples. */
  function SummedMeans(stream: seq<Sample>, classes: nat, i: int): real {
    Sum(classes, c => if c >= 0 && CountOf(stream, c) > 0 then ClassSum(stream, c, i) / CountOf(stream, c) as real
        else 0.0)
  }

  /** An entry of `rp_covariance`. */
  function RpCovariance(stream: seq<Sample>, classes: nat, i: int, j: int): real
    requires |stream| >= 2
  {
    (OuterSum(stream, i, j) - |stream| as real * SummedMeans(stream, classes, i) * SummedMeans(stream, classes,
        j)) / (|stream| - 1) as real
  }

  lemma RpCovarianceIs(stream: seq<Sample>, classes: nat, i: int, j: int)
    requires |stream| >= 2
    ensures RpCovariance(stream, classes, i, j) ==
      OverDegrees(OuterSum(stream, i, j), |stream| as real, SummedMeans(stream, classes, i),
          SummedMeans(stream, classes, j))
  {
    hide OuterSum, SummedMeans;
    assert (|stream| - 1) as real == |stream| as real - 1.0;
  }

  function SumCounts(stream: seq<Sample>, classes: nat): nat {
    if classes == 0 then 0 else SumCounts(stream, classes - 1) + CountOf(stream, classes - 1)
  }

  lemma {:induction false} SumCountsPush(rest: seq<Sample>, z: Sample, classes: nat)
    ensures SumCounts(rest + [z], classes) == SumCounts(rest, classes) + (if z.id < classes then 1 else 0)
  {
    if classes > 0 {
      SumCountsPush(rest, z, classes - 1);
      assert (rest + [z])[..|rest|] == rest;
    }
  }

  lemma {:induction false} SumCountsEmpty(classes: nat)
    ensures SumCounts([], classes) == 0
  {
    if classes > 0 { SumCountsEmpty(classes - 1); }
  }

  /** The counts add up to the length of the stream. */
  lemma {:induction false} CountsAddUp(stream: seq<Sample>, classes: nat)
    requires forall s :: s in stream ==> s.id < classes
    ensures SumCounts(stream, classes) == |stream|
  {
    if stream == [] {
      SumCountsEmpty(classes);
    } else {
      var rest, z := stream[..|stream| - 1], stream[|stream| - 1];
      assert stream == rest + [z] && z in stream;
      CountsAddUp(rest, classes);
      SumCountsPush(rest, z, classes);
    }
  }

  lemma Cancel(n: real, x: real, y: real)
    requires n != 0.0 && n * x == n * y
    ensures x == y
  {
    assert x == (n * x) / n && y == (n * y) / n;
  }

  lemma CancelDivisor(m: real, x: real, y: real)
    requires m != 0.0
    ensures x / m == y / m <==> x == y
  {
    if x / m == y / m { assert x == (x / m) * m == y; }
  }

  lemma SameCorrection(o: real, n: real, a: real, b: real, c: real, d: real)
    requires n >= 2.0
    ensures (o - n * a * b) / (n - 1.0) == (o - n * c * d) / (n - 1.0) <==> Times(a, b) == Times(c, d)
  {
    CancelDivisor(n - 1.0, o - n * a * b, o - n * c * d);
    assert n * a * b == n * Times(a, b) && n * c * d == n * Times(c, d);
    if n * a * b == n * c * d { Cancel(n, Times(a, b), Times(c, d)); }
  }

  /** Outer products determine a vector up to its sign. */
  lemma SameOuterProducts(d: nat, m: int -> real, u: int -> real)
    ensures (forall i, j :: 0 <= i < d && 0 <= j < d ==> Times(m(i), m(j)) == Times(u(i), u(j))) <==>
            ((forall i :: 0 <= i < d ==> m(i) == u(i)) || (forall i :: 0 <= i < d ==> m(i) == 0.0 - u(i)))
  {
    if forall i, j :: 0 <= i < d && 0 <= j < d ==> Times(m(i), m(j)) == Times(u(i), u(j)) {
      if k :| 0 <= k < d && u(k) != 0.0 {
        EqualSquares(m(k), u(k));
        forall j | 0 <= j < d
          ensures m(k) == u(k) ==> m(j) == u(j)
          ensures m(k) == 0.0 - u(k) ==> m(j) == 0.0 - u(j)
        {
          assert Times(m(k), m(j)) == Times(u(k), u(j));
          SignedCancel(m(k), u(k), m(j), u(j));
        }
      } else {
        forall j | 0 <= j < d ensures m(j) == u(j) {
          assert Times(m(j), m(j)) == Times(u(j), u(j));
          EqualSquares(m(j), u(j));
        }
      }
    }
    if forall i :: 0 <= i < d ==> m(i) == 0.0 - u(i) {
      forall i, j | 0 <= i < d && 0 <= j < d ensures Times(m(i), m(j)) == Times(u(i), u(j)) {
        assert (0.0 - u(i)) * (0.0 - u(j)) == u(i) * u(j);
      }
    }
  }

  lemma EqualSquares(a: real, b: real)
    requires Times(a, a) == Times(b, b)
    ensures a == b || a == 0.0 - b
  {
    assert (a - b) * (a + b) == 0.0;
    if a - b != 0.0 { Cancel(a - b, a + b, 0.0); }
  }

  lemma SignedCancel(a: real, b: real, c: real, d: real)
    requires b != 0.0 && Times(a, c) == Times(b, d)
    ensures (a == b ==> c == d) && (a == 0.0 - b ==> c == 0.0 - d)
  {
    if a == b { Cancel(b, c, d); }
    if a == 0.0 - b {
      assert b * (0.0 - c) == b * d;
      Cancel(b, 0.0 - c, d);
    }
  }

  lemma RpEntryExactness(stream: seq<Sample>, classes: nat, i: int, j: int)
    requires |stream| >= 2
    ensures RpCovariance(stream, classes, i, j) == SampleCovariance(stream, i, j) <==>
      Times(SummedMeans(stream, classes, i), SummedMeans(stream, classes, j)) ==
          Times(CoordinateMean(stream, i), CoordinateMean(stream, j))
  {
    hide SummedMeans, CoordinateMean, OuterSum, SampleCovariance, Times;
    OnePassCovariance(stream, i, j);
    SameCorrection(OuterSum(stream, i, j), |stream| as real,
      SummedMeans(stream, classes, i), SummedMeans(stream, classes, j), CoordinateMean(stream, i),
          CoordinateMean(stream, j));
  }

  /** `rp_covariance` is documented as the sample covariance of the features. It is exactly
      when the summed class means are the mean of the stream, or its negative. */
  lemma RpCovarianceExactness(stream: seq<Sample>, classes: nat, d: nat)
    requires |stream| >= 2
    ensures (forall i, j ::
        0 <= i < d && 0 <= j < d ==> RpCovariance(stream, classes, i, j) == SampleCovariance(stream, i, j)) <==>
            ((forall i :: 0 <= i < d ==> SummedMeans(stream, classes, i) == CoordinateMean(stream, i)) ||
             (forall i :: 0 <= i < d ==> SummedMeans(stream, classes, i) == 0.0 - CoordinateMean(stream, i)))
  {
    var m, u := i => SummedMeans(stream, classes, i), i => CoordinateMean(stream, i);
    hide SummedMeans, CoordinateMean, RpCovariance, SampleCovariance, Times;
    forall i, j
      ensures RpCovariance(stream, classes, i, j) == SampleCovariance(stream, i, j) <==>
          Times(m(i), m(j)) == Times(u(i), u(j))
    {
      RpEntryExactness(stream, classes, i, j);
    }
    SameOuterProducts(d, m, u);
    assert forall i :: m(i) == SummedMeans(stream, classes, i) && u(i) == CoordinateMean(stream, i);
  }

  /** One class: the documented identity holds. */
  lemma OneClassIsExact(stream: seq<Sample>, id: nat, classes: nat, d: nat)
    requires |stream| >= 2 && id < classes && forall s :: s in stream ==> s.id == id
    ensures forall i, j ::
        0 <= i < d && 0 <= j < d ==> RpCovariance(stream, classes, i, j) == SampleCovariance(stream, i, j)
  {
    forall i ensures SummedMeans(stream, classes, i) == CoordinateMean(stream, i) {
      AllInClass(stream, id, i);
      SingleMean(stream, id, classes, i);
    }
    hide SummedMeans, CoordinateMean, RpCovariance, SampleCovariance;
    RpCovarianceExactness(stream, classes, d);
  }

  lemma {:induction false} AllInClass(stream: seq<Sample>, id: nat, i: int)
    requires forall s :: s in stream ==> s.id == id
    ensures CountOf(stream, id) == |stream| && ClassSum(stream, id, i) == CoordinateSum(stream, i)
  {
    if stream != [] {
      assert stream[|stream| - 1] in stream;
      AllInClass(stream[..|stream| - 1], id, i);
    }
  }

  lemma {:induction false} SingleMean(stream: seq<Sample>, id: nat, classes: nat, i: int)
    requires stream != [] && forall s :: s in stream ==> s.id == id
    requires CountOf(stream, id) == |stream| && ClassSum(stream, id, i) == CoordinateSum(stream, i)
    ensures SummedMeans(stream, classes, i) == if id < classes then CoordinateMean(stream, i) else 0.0
  {
    if classes > 0 {
      SingleMean(stream, id, classes - 1, i);
      if classes - 1 != id { EmptyClass(stream, classes - 1); }
    }
  }

  /** Two classes: two equal samples, one in each, are already enough to break it. */
  lemma TwoClassesBreakIt()
    ensures exists stream: seq<Sample> ::
        |stream| == 2 && RpCovariance(stream, 2, 0, 0) != SampleCovariance(stream, 0, 0)
  {
    var a, b := Sample(0, [1.0]), Sample(1, [1.0]);
    var stream := [a, b];
    assert [] + [a] == [a] && [a] + [b] == stream;
    PushedStatistics([], a);
    PushedStatistics([a], b);
    assert CountOf(stream, 0) == 1 && CountOf(stream, 1) == 1;
    assert ClassSum(stream, 0, 0) == 1.0 && ClassSum(stream, 1, 0) == 1.0 && CoordinateSum(stream, 0) == 2.0;
    var f := c => if c >= 0 && CountOf(stream, c) > 0 then ClassSum(stream, c, 0) / CountOf(stream, c) as real else 0.0;
    assert f(0) == 1.0 && f(1) == 1.0;
    assert Sum(1, f) == 1.0 && Sum(2, f) == 2.0;
    assert SummedMeans(stream, 2, 0) == 2.0 && CoordinateMean(stream, 0) == 1.0;
    RpEntryExactness(stream, 2, 0, 0);
  }

  /** Registering a class without samples changes neither the rows of a fit nor the mean
      its covariance uses: a fit is a function of the accumulated stream alone. */
  lemma RegisteringChangesNothing(stream: seq<Sample>, counts: seq<nat>, i: int)
    requires forall s :: s in stream ==> s.id < |counts|
    ensures NonEmpty(counts + [0]) == NonEmpty(counts)
    ensures SummedMeans(stream, |counts| + 1, i) == SummedMeans(stream, |counts|, i)
  {
    assert (counts + [0])[..|counts|] == counts;
    EmptyClass(stream, |counts|);
    hide ClassSum;
  }
}
