/** The calibration error, the FPR at 95% TPR and the drift monitor of
    `decide_core/src/calibrate.rs`, over exact reals.  NaN results are `None`. */
module Calibration {
  import opened Wrappers
  import opened Sums
  import opened RankMetrics

  function Abs(r: real): real { if r < 0.0 then 0.0 - r else r }

  // ----- expected calibration error -----

  datatype Sample = Sample(p: real, correct: bool)

  const BINS: nat := 10

  function Clamp(p: real): real { if p < 0.0 then 0.0 else if p > 1.0 then 1.0 else p }

  /** Bin b takes the confidences from b / 10 up to (b + 1) / 10; the first also takes what lies
      below, and the last takes 1 and what lies above. */
  function Bin(p: real): (b: nat)
    ensures b < BINS && (b == 0 || p >= b as real / 10.0) && (b == BINS - 1 || p < (b + 1) as real / 10.0)
  {
    var k := (Clamp(p) * 10.0).Floor;
    if k > 9 then 9 else k
  }

  function Hit(s: Sample): real { if s.correct then 1.0 else 0.0 }

  function Said(s: Sample): real { s.p }

  /** How far the confidence of a sample is from what happened. */
  function Gap(s: Sample): real { s.p - Hit(s) }

  function Within(s: Sample, b: int, v: real): real { if Bin(s.p) == b then v else 0.0 }

  function Accuracy(samples: seq<Sample>, b: int): real { Total(samples, s => Within(s, b, Hit(s))) }

  function Confidence(samples: seq<Sample>, b: int): real { Total(samples, s => Within(s, b, Said(s))) }

  function BinGap(samples: seq<Sample>, b: int): real { Total(samples, s => Within(s, b, Gap(s))) }

  function Population(samples: seq<Sample>, b: int): nat {
    if samples == [] then 0 else
      Population(samples[..|samples| - 1], b) + (if Bin(samples[|samples| - 1].p) == b then 1 else 0)
  }

  /** The sum over bins of the absolute total gap of the bin. */
  function GapOverBins(samples: seq<Sample>, bins: nat): real { Sum(bins, b => Abs(BinGap(samples, b))) }

  lemma GapOfBin(samples: seq<Sample>, b: int)
    ensures BinGap(samples, b) == Confidence(samples, b) - Accuracy(samples, b)
  {
    TotalAdd(samples, s => Within(s, b, Gap(s)), s => Within(s, b, Hit(s)), s => Within(s, b, Said(s)));
  }

  lemma {:induction false} EmptyBin(samples: seq<Sample>, b: int)
    requires Population(samples, b) == 0
    ensures BinGap(samples, b) == 0.0
  {
    hide Bin;
    if samples != [] { EmptyBin(samples[..|samples| - 1], b); }
  }

  lemma WeightedGap(m: real, n: real, conf: real, acc: real)
    requires m > 0.0 && n > 0.0
    ensures Weighted(m, n, conf, acc) == Abs(conf - acc) / n
  {
    var d := conf - acc;
    assert conf / m - acc / m == d / m;
    assert Abs(d / m) == Abs(d) / m by { assert d / m * m == d; }
    assert (m / n) * (Abs(d) / m) == Abs(d) / n by {
      var q := Abs(d) / m;
      assert q * m == Abs(d);
      assert (m / n) * q == (q * m) / n;
    }
  }

  /** What the code adds for a bin with samples. */
  function Weighted(m: real, n: real, conf: real, acc: real): real
    requires m > 0.0 && n > 0.0
  {
    (m / n) * Abs(conf / m - acc / m)
  }

  lemma NextBin(samples: seq<Sample>, b: nat, n: real)
    requires n > 0.0
    ensures Population(samples, b) == 0 ==> GapOverBins(samples, b + 1) / n == GapOverBins(samples, b) / n
    ensures Population(samples, b) > 0 ==>
              GapOverBins(samples, b + 1) / n == GapOverBins(samples, b) / n
                + Weighted(Population(samples, b) as real, n, Confidence(samples, b), Accuracy(samples, b))
  {
    hide Accuracy, Confidence, Population, BinGap, Weighted;
    GapOfBin(samples, b);
    SplitQuotient(GapOverBins(samples, b), Abs(BinGap(samples, b)), n);
    if Population(samples, b) == 0 {
      EmptyBin(samples, b);
    } else {
      WeightedGap(Population(samples, b) as real, n, Confidence(samples, b), Accuracy(samples, b));
    }
  }

  lemma SplitQuotient(a: real, b: real, n: real)
    requires n > 0.0
    ensures (a + b) / n == a / n + b / n
  {
  }

  method ExpectedCalibrationError(samples: seq<Sample>) returns (r: Option<real>)
    ensures r == if samples == [] then None else Some(GapOverBins(samples, BINS) / |samples| as real)
  {
    if samples == [] { return None; }
    hide Accuracy, Confidence, Population, BinGap, Weighted, GapOverBins;
    var acc, conf, count := Tally(samples);
    var n := |samples| as real;
    var ece := 0.0;
    NoBins(samples, n);
    for b := 0 to BINS
      modifies {}
      invariant ece == GapOverBins(samples, b) / n
    {
      NextBin(samples, b, n);
      if count[b] == 0 { continue; }
      ece := ece + Weighted(count[b] as real, n, conf[b], acc[b]);
    }
    return Some(ece);
  }

  lemma NoBins(samples: seq<Sample>, n: real)
    requires n > 0.0
    ensures GapOverBins(samples, 0) / n == 0.0
  {
  }

  method Tally(samples: seq<Sample>) returns (acc: array<real>, conf: array<real>, count: array<nat>)
    ensures acc.Length == conf.Length == count.Length == BINS
    ensures forall b :: 0 <= b < BINS ==> acc[b] == Accuracy(samples, b)
    ensures forall b :: 0 <= b < BINS ==> conf[b] == Confidence(samples, b)
    ensures forall b :: 0 <= b < BINS ==> count[b] == Population(samples, b)
  {
    acc, conf, count := new real[BINS](_ => 0.0), new real[BINS](_ => 0.0), new nat[BINS](_ => 0);
    for i := 0 to |samples|
      invariant forall b :: 0 <= b < BINS ==> acc[b] == Accuracy(samples[..i], b)
      invariant forall b :: 0 <= b < BINS ==> conf[b] == Confidence(samples[..i], b)
      invariant forall b :: 0 <= b < BINS ==> count[b] == Population(samples[..i], b)
    {
      hide Bin;
      var s := samples[i];
      var idx := Bin(s.p);
      assert samples[..i + 1][..i] == samples[..i];
      acc[idx] := acc[idx] + (if s.correct then 1.0 else 0.0);
      conf[idx] := conf[idx] + s.p;
      count[idx] := count[idx] + 1;
    }
    assert samples[..|samples|] == samples;
  }

  lemma {:induction false} GapsPermuted(s: seq<Sample>, t: seq<Sample>, bins: nat)
    requires multiset(s) == multiset(t)
    ensures GapOverBins(s, bins) == GapOverBins(t, bins)
  {
    if bins > 0 {
      GapsPermuted(s, t, bins - 1);
      TotalPermuted(s, t, x => Within(x, bins - 1, Gap(x)));
    }
  }

  function TotalGap(samples: seq<Sample>): real { Total(samples, Gap) }

  function SignedIfBelow(s: Sample, bins: nat): real { if Bin(s.p) < bins then Gap(s) else 0.0 }

  /** The bins share out the total gap. */
  lemma {:induction false} BinsShareTheGap(samples: seq<Sample>, bins: nat)
    ensures Sum(bins, b => BinGap(samples, b)) == Total(samples, s => SignedIfBelow(s, bins))
    ensures bins == BINS ==> Sum(bins, b => BinGap(samples, b)) == TotalGap(samples)
  {
    hide Bin, Gap;
    if bins == 0 {
      TotalConst(samples, 0.0, s => SignedIfBelow(s, 0));
    } else {
      var b := bins - 1;
      BinsShareTheGap(samples, b);
      TotalAdd(samples, s => SignedIfBelow(s, b), s => Within(s, b, Gap(s)), s => SignedIfBelow(s, bins));
    }
    if bins == BINS { TotalExt(samples, s => SignedIfBelow(s, bins), Gap); }
  }

  lemma {:induction false} Triangle(n: nat, f: int -> real)
    ensures Abs(Sum(n, f)) <= Sum(n, i => Abs(f(i)))
  {
    if n > 0 { Triangle(n - 1, f); }
  }

  lemma {:induction false} TotalTriangle(s: seq<Sample>, f: Sample -> real, h: Sample -> real)
    requires forall x :: x in s ==> h(x) == Abs(f(x))
    ensures Abs(Total(s, f)) <= Total(s, h)
  {
    if s != [] { TotalTriangle(s[..|s| - 1], f, h); }
  }

  /** Binning hides no overall bias, and adds none beyond the gaps of the samples. */
  lemma ErrorIsBetween(samples: seq<Sample>)
    ensures Abs(TotalGap(samples)) <= GapOverBins(samples, BINS) <= Total(samples, s => Abs(Gap(s)))
  {
    BinsShareTheGap(samples, BINS);
    Triangle(BINS, b => BinGap(samples, b));
    SumExt(BINS, b => Abs(BinGap(samples, b)), i => Abs((b => BinGap(samples, b))(i)));
    BinsBelowGaps(samples, BINS);
  }

  function GapIfBelow(s: Sample, bins: nat): real { if Bin(s.p) < bins then Abs(Gap(s)) else 0.0 }

  function GapsBelow(samples: seq<Sample>, bins: nat): real { Total(samples, s => GapIfBelow(s, bins)) }

  lemma BinsBelowGaps(samples: seq<Sample>, bins: nat)
    ensures GapOverBins(samples, bins) <= GapsBelow(samples, bins)
    ensures bins == BINS ==> GapsBelow(samples, bins) == Total(samples, s => Abs(Gap(s)))
  {
    FirstBins(samples, bins);
    if bins == BINS {
      TotalExt(samples, s => GapIfBelow(s, bins), s => Abs(Gap(s)));
    }
  }

  lemma {:induction false} FirstBins(samples: seq<Sample>, bins: nat)
    ensures GapOverBins(samples, bins) <= GapsBelow(samples, bins)
  {
    hide Bin, Gap;
    if bins == 0 {
      TotalNonNegative(samples, s => GapIfBelow(s, 0));
    } else {
      var b := bins - 1;
      FirstBins(samples, b);
      TotalTriangle(samples, s => Within(s, b, Gap(s)), s => Abs(Within(s, b, Gap(s))));
      TotalAdd(samples, s => GapIfBelow(s, b), s => Abs(Within(s, b, Gap(s))), s => GapIfBelow(s, bins));
    }
  }

  /** No error exactly when every bin is as accurate as it is confident. */
  lemma NoErrorIff(samples: seq<Sample>)
    ensures GapOverBins(samples, BINS) == 0.0 <==>
            forall b :: 0 <= b < BINS ==> Confidence(samples, b) == Accuracy(samples, b)
  {
    hide Confidence, Accuracy, BinGap;
    forall b ensures BinGap(samples, b) == Confidence(samples, b) - Accuracy(samples, b) { GapOfBin(samples, b); }
    var f := b => Abs(BinGap(samples, b));
    SumNonNegative(BINS, f);
    if forall b :: 0 <= b < BINS ==> Confidence(samples, b) == Accuracy(samples, b) {
      SumZero(BINS, f);
    }
    assert forall b :: 0 <= b < BINS ==> f(b) == Abs(BinGap(samples, b));
  }

  // ----- false positive rate at 95% true positive rate -----

  function InsertedDown(r: seq<Scored>, x: Scored): (t: seq<Scored>)
    ensures multiset(t) == multiset(r) + multiset{x}
  {
    if r == [] || r[|r| - 1].score >= x.score then r + [x]
    else
      assert r == r[..|r| - 1] + [r[|r| - 1]];
      InsertedDown(r[..|r| - 1], x) + [r[|r| - 1]]
  }

  ghost predicate SortedDown(s: seq<Scored>) {
    forall i, j :: 0 <= i < j < |s| ==> s[i].score >= s[j].score
  }

  lemma {:induction false} InsertedDownSorted(r: seq<Scored>, x: Scored)
    requires SortedDown(r)
    ensures SortedDown(InsertedDown(r, x))
  {
    if r != [] && r[|r| - 1].score < x.score {
      var init, last := r[..|r| - 1], r[|r| - 1];
      InsertedDownSorted(init, x);
      var t := InsertedDown(init, x);
      forall k | 0 <= k < |t| ensures t[k].score >= last.score {
        assert t[k] in multiset(t);
        assert t[k] in init || t[k] == x;
      }
    }
  }

  /** The stable descending sort. */
  function Descending(s: seq<Scored>): (r: seq<Scored>)
    ensures SortedDown(r) && multiset(r) == multiset(s)
  {
    if s == [] then []
    else
      var rest := Descending(s[..|s| - 1]);
      assert s == s[..|s| - 1] + [s[|s| - 1]];
      InsertedDownSorted(rest, s[|s| - 1]);
      InsertedDown(rest, s[|s| - 1])
  }

  /** The negatives ranked before the `target`-th positive. */
  function Charged(s: seq<Scored>, target: nat): nat {
    if s == [] || target == 0 then 0
    else if s[0].positive then Charged(s[1..], target - 1)
    else 1 + Charged(s[1..], target)
  }

  /** 95% of the positives, rounded up. */
  function Target(positives: nat): (target: nat)
    ensures 100 * target >= 95 * positives > 100 * (target - 1)
  {
    (positives * 95 + 99) / 100
  }

  /** The rate: the negatives charged over all negatives, when both labels occur. */
  function Fpr(scored: seq<Scored>): Option<real> {
    PositivesAreTotal(scored);
    var pos := Positives(scored);
    if pos == 0 || |scored| == pos then None
    else Some(Charged(Descending(scored), Target(pos)) as real / (|scored| - pos) as real)
  }

  method FprAt95Tpr(scored: seq<Scored>) returns (r: Option<real>)
    ensures r == Fpr(scored)
  {
    hide Descending, Target, Positives;
    PositivesAreTotal(scored);
    var sorted := Descending(scored);
    SameCounts(sorted, scored);
    var totalPos := Positives(sorted);
    var totalNeg := |sorted| - totalPos;
    if totalPos == 0 || totalNeg == 0 { return None; }
    var fp := Walk(sorted, Target(totalPos));
    return Some(fp as real / totalNeg as real);
  }

  /** Down the ranking until the target is reached. */
  method Walk(sorted: seq<Scored>, target: nat) returns (fp: nat)
    ensures fp == Charged(sorted, target)
  {
    var tp, i := 0, 0;
    fp := 0;
    while i < |sorted|
      invariant i <= |sorted| && tp <= target
      invariant Charged(sorted, target) == fp + Charged(sorted[i..], target - tp)
    {
      if tp >= target { break; }
      assert sorted[i..][1..] == sorted[i + 1..];
      if sorted[i].positive { tp := tp + 1; } else { fp := fp + 1; }
      i := i + 1;
    }
  }

  lemma SameCounts(s: seq<Scored>, t: seq<Scored>)
    requires multiset(s) == multiset(t)
    ensures Positives(s) == Positives(t) && |s| == |t|
  {
    PositivesAreTotal(s);
    PositivesAreTotal(t);
    TotalPermuted(s, t, One);
    assert |multiset(s)| == |s| && |multiset(t)| == |t|;
  }

  function IfAbove(x: Scored, positive: bool, t: real): real {
    if x.positive == positive && x.score > t then 1.0 else 0.0
  }

  function IfAtLeast(x: Scored, positive: bool, t: real): real {
    if x.positive == positive && x.score >= t then 1.0 else 0.0
  }

  /** How many entries of one kind score above `t`, or at least `t`. */
  function Above(s: seq<Scored>, positive: bool, t: real): real {
    Total(s, x => IfAbove(x, positive, t))
  }

  function AtLeast(s: seq<Scored>, positive: bool, t: real): real {
    Total(s, x => IfAtLeast(x, positive, t))
  }

  lemma CountsFromFront(s: seq<Scored>, positive: bool, t: real)
    requires s != []
    ensures Above(s, positive, t)
         == (if s[0].positive == positive && s[0].score > t then 1.0 else 0.0) + Above(s[1..], positive, t)
    ensures AtLeast(s, positive, t)
         == (if s[0].positive == positive && s[0].score >= t then 1.0 else 0.0) + AtLeast(s[1..], positive, t)
  {
    var f := x => IfAbove(x, positive, t);
    var g := x => IfAtLeast(x, positive, t);
    assert s == [s[0]] + s[1..];
    TotalConcat([s[0]], s[1..], f);
    TotalConcat([s[0]], s[1..], g);
    TotalPush([], s[0], f);
    TotalPush([], s[0], g);
    assert [] + [s[0]] == [s[0]];
  }

  lemma {:induction false} NothingAbove(s: seq<Scored>, positive: bool, t: real)
    requires forall x :: x in s ==> x.score <= t
    ensures Above(s, positive, t) == 0.0
  {
    if s != [] { NothingAbove(s[..|s| - 1], positive, t); }
  }

  lemma {:induction false} CountsAreNonNegative(s: seq<Scored>, positive: bool, t: real)
    ensures Above(s, positive, t) >= 0.0 && AtLeast(s, positive, t) >= 0.0
    ensures (forall x :: x in s ==> x.score < t) ==> AtLeast(s, positive, t) == 0.0
  {
    if s != [] { CountsAreNonNegative(s[..|s| - 1], positive, t); }
  }

  /** Between the positives above `t` and those at `t`, the walk stops inside the ties at `t`. */
  lemma {:induction false} ChargedBounds(s: seq<Scored>, target: nat, t: real)
    requires SortedDown(s)
    requires Above(s, true, t) < target as real <= AtLeast(s, true, t)
    ensures Above(s, false, t) <= Charged(s, target) as real <= AtLeast(s, false, t)
  {
    CountsAreNonNegative(s, true, t);
    CountsAreNonNegative(s, false, t);
    if s != [] {
      CountsFromFront(s, true, t);
      CountsFromFront(s, false, t);
      if s[0].score > t {
        if s[0].positive {
          ChargedBounds(s[1..], target - 1, t);
        } else {
          ChargedBounds(s[1..], target, t);
        }
      } else {
        NothingAbove(s, false, t);
        ChargedUpper(s, target, t);
      }
    }
  }

  lemma {:induction false} ChargedUpper(s: seq<Scored>, target: nat, t: real)
    requires SortedDown(s) && target as real <= AtLeast(s, true, t)
    ensures Charged(s, target) as real <= AtLeast(s, false, t)
  {
    CountsAreNonNegative(s, false, t);
    if s != [] && target > 0 {
      CountsAreNonNegative(s, true, t);
      assert !(forall x :: x in s ==> x.score < t);
      var k :| 0 <= k < |s| && s[k].score >= t;
      assert s[0].score >= s[k].score;
      CountsFromFront(s, true, t);
      CountsFromFront(s, false, t);
      ChargedUpper(s[1..], if s[0].positive then target - 1 else target, t);
    }
  }

  /** `t` is the score of the positive that reaches the target. */
  ghost predicate IsThreshold(scored: seq<Scored>, t: real) {
    Above(scored, true, t) < Target(Positives(scored)) as real <= AtLeast(scored, true, t)
  }

  /** With t the score of the target-th positive, the code charges every negative above t and
      none below; only negatives tied at t depend on the order of the input. */
  lemma FprIsBetween(scored: seq<Scored>, t: real)
    requires IsThreshold(scored, t)
    ensures Above(scored, false, t)
         <= Charged(Descending(scored), Target(Positives(scored))) as real
         <= AtLeast(scored, false, t)
  {
    var s := Descending(scored);
    SameTallies(s, scored, true, t);
    SameTallies(s, scored, false, t);
    ChargedBounds(s, Target(Positives(scored)), t);
  }

  lemma SameTallies(s: seq<Scored>, u: seq<Scored>, positive: bool, t: real)
    requires multiset(s) == multiset(u)
    ensures Above(s, positive, t) == Above(u, positive, t) && AtLeast(s, positive, t) == AtLeast(u, positive, t)
  {
    TotalPermuted(s, u, x => IfAbove(x, positive, t));
    TotalPermuted(s, u, x => IfAtLeast(x, positive, t));
  }

  // ----- when the order of the input matters -----

  lemma {:induction false} ThresholdInside(s: seq<Scored>, target: nat) returns (t: real)
    requires SortedDown(s) && 0 < target <= Positives(s)
    ensures Above(s, true, t) < target as real <= AtLeast(s, true, t)
    ensures exists i :: 0 <= i < |s| && s[i].score == t
  {
    CountsFromFront(s, true, s[0].score);
    PositivesFromFront(s);
    if s[0].positive && target == 1 {
      t := s[0].score;
      NothingAbove(s, true, t);
      CountsAreNonNegative(s[1..], true, t);
    } else {
      t := ThresholdInside(s[1..], if s[0].positive then target - 1 else target);
      var i :| 0 <= i < |s[1..]| && s[1..][i].score == t;
      assert s[i + 1].score == t;
      CountsFromFront(s, true, t);
    }
  }

  lemma PositivesFromFront(s: seq<Scored>)
    requires s != []
    ensures Positives(s) == (if s[0].positive then 1 else 0) + Positives(s[1..])
  {
    PositivesAreTotal(s);
    PositivesAreTotal(s[1..]);
    assert s == [s[0]] + s[1..];
    TotalConcat([s[0]], s[1..], One);
    TotalPush([], s[0], One);
    assert [] + [s[0]] == [s[0]];
  }

  /** As soon as there is a positive, one of them reaches the target. */
  lemma ThresholdExists(scored: seq<Scored>) returns (t: real)
    requires Positives(scored) > 0
    ensures IsThreshold(scored, t)
  {
    var s := Descending(scored);
    SameCounts(s, scored);
    t := ThresholdInside(s, Target(Positives(scored)));
    SameTallies(s, scored, true, t);
  }

  /** All entries of one kind before all of the other. */
  function Kind(s: seq<Scored>, positive: bool): seq<Scored> {
    if s == [] then []
    else Kind(s[..|s| - 1], positive) + (if s[|s| - 1].positive == positive then [s[|s| - 1]] else [])
  }

  lemma {:induction false} KindsMakeUp(s: seq<Scored>)
    ensures multiset(Kind(s, true)) + multiset(Kind(s, false)) == multiset(s)
  {
    if s != [] {
      var front, x := s[..|s| - 1], s[|s| - 1];
      KindsMakeUp(front);
      assert s == front + [x];
      assert multiset(s) == multiset(front) + multiset{x};
      assert Kind(s, x.positive) == Kind(front, x.positive) + [x];
      assert Kind(s, !x.positive) == Kind(front, !x.positive) + [];
    }
  }

  lemma {:induction false} KindIsPure(s: seq<Scored>, positive: bool)
    ensures forall i :: 0 <= i < |Kind(s, positive)| ==> Kind(s, positive)[i].positive == positive
  {
    if s != [] { KindIsPure(s[..|s| - 1], positive); }
  }

  function Regrouped(s: seq<Scored>, first: bool): seq<Scored> { Kind(s, first) + Kind(s, !first) }

  ghost predicate Grouped(s: seq<Scored>, first: bool) {
    forall i, j :: 0 <= i < j < |s| && s[i].positive != first ==> s[j].positive != first
  }

  /** Among entries with the same score, those of kind `first` come first. */
  ghost predicate TiesGrouped(s: seq<Scored>, first: bool) {
    forall i, j :: 0 <= i < j < |s| && s[i].score == s[j].score && s[i].positive != first ==> s[j].positive != first
  }

  lemma RegroupedIsGrouped(s: seq<Scored>, first: bool)
    ensures Grouped(Regrouped(s, first), first) && multiset(Regrouped(s, first)) == multiset(s)
  {
    hide Kind;
    KindsMakeUp(s);
    KindIsPure(s, first);
    KindIsPure(s, !first);
    var a, b := Kind(s, first), Kind(s, !first);
    assert multiset(a + b) == multiset(a) + multiset(b);
  }

  lemma {:induction false} InsertedTies(r: seq<Scored>, x: Scored, first: bool)
    requires SortedDown(r) && TiesGrouped(r, first)
    requires x.positive != first || forall y :: y in r ==> y.positive == first
    ensures TiesGrouped(InsertedDown(r, x), first)
  {
    if r != [] && r[|r| - 1].score < x.score {
      var init, last := r[..|r| - 1], r[|r| - 1];
      assert r == init + [last];
      InsertedTies(init, x, first);
      TiesPushed(init, last, x, first);
    }
  }

  /** Putting the larger `x` in front of the last entry adds no tie with that entry. */
  lemma TiesPushed(init: seq<Scored>, last: Scored, x: Scored, first: bool)
    requires TiesGrouped(init + [last], first) && last.score < x.score
    requires TiesGrouped(InsertedDown(init, x), first)
    ensures TiesGrouped(InsertedDown(init, x) + [last], first)
  {
    hide InsertedDown;
    var r, t := init + [last], InsertedDown(init, x);
    forall i: int | 0 <= i < |t| && t[i].score == last.score && t[i].positive != first
      ensures last.positive != first
    {
      assert t[i] in multiset(t) && multiset(t) == multiset(init) + multiset{x};
      assert t[i] in init;
      var k :| 0 <= k < |init| && init[k] == t[i];
      assert r[k] == t[i] && r[|init|] == last;
    }
  }

  /** The stable sort keeps grouped ties grouped. */
  lemma {:induction false} SortKeepsTies(s: seq<Scored>, first: bool)
    requires Grouped(s, first)
    ensures TiesGrouped(Descending(s), first)
  {
    if s != [] {
      var front, x := s[..|s| - 1], s[|s| - 1];
      SortKeepsTies(front, first);
      if x.positive == first {
        forall y | y in Descending(front) ensures y.positive == first {
          assert y in multiset(Descending(front));
          assert y in front;
          var i :| 0 <= i < |front| && front[i] == y;
          assert s[i] == y;
        }
      }
      InsertedTies(Descending(front), x, first);
    }
  }

  /** Positives first among the ties at t: none of the tied negatives is charged. */
  lemma {:induction false} ChargedPositivesFirst(s: seq<Scored>, target: nat, t: real)
    requires SortedDown(s) && TiesGrouped(s, true)
    requires Above(s, true, t) < target as real <= AtLeast(s, true, t)
    ensures Charged(s, target) as real == Above(s, false, t)
  {
    CountsAreNonNegative(s, true, t);
    if s != [] {
      CountsFromFront(s, true, t);
      CountsFromFront(s, false, t);
      if s[0].score > t {
        ChargedPositivesFirst(s[1..], if s[0].positive then target - 1 else target, t);
      } else {
        NothingAbove(s, false, t);
        NoneCharged(s, target, t);
      }
    }
  }

  lemma {:induction false} NoneCharged(s: seq<Scored>, target: nat, t: real)
    requires SortedDown(s) && TiesGrouped(s, true) && forall x :: x in s ==> x.score <= t
    requires target as real <= AtLeast(s, true, t)
    ensures Charged(s, target) == 0
  {
    if s != [] && target > 0 {
      LivePositive(s, t);
      var k :| 0 <= k < |s| && s[k].positive && s[k].score >= t;
      assert s[0] in s && s[k] in s && s[0].score >= s[k].score;
      CountsFromFront(s, true, t);
      NoneCharged(s[1..], target - 1, t);
    }
  }

  lemma {:induction false} LivePositive(s: seq<Scored>, t: real)
    requires AtLeast(s, true, t) > 0.0
    ensures exists k :: 0 <= k < |s| && s[k].positive && s[k].score >= t
  {
    var x := s[|s| - 1];
    if !(x.positive && x.score >= t) {
      var front := s[..|s| - 1];
      LivePositive(front, t);
      var k :| 0 <= k < |front| && front[k].positive && front[k].score >= t;
      assert s[k] == front[k];
    }
  }

  /** Negatives first among the ties at t: all of the tied negatives are charged. */
  lemma {:induction false} ChargedNegativesFirst(s: seq<Scored>, target: nat, t: real)
    requires SortedDown(s) && TiesGrouped(s, false)
    requires Above(s, true, t) < target as real <= AtLeast(s, true, t)
    ensures Charged(s, target) as real == AtLeast(s, false, t)
  {
    CountsAreNonNegative(s, true, t);
    LivePositive(s, t);
    var k :| 0 <= k < |s| && s[k].positive && s[k].score >= t;
    assert s[0].score >= s[k].score;
    CountsFromFront(s, true, t);
    CountsFromFront(s, false, t);
    if s[0].positive && s[0].score == t {
      forall x | x in s ensures !x.positive ==> x.score < t {
        var i :| 0 <= i < |s| && s[i] == x;
        assert i > 0 ==> s[0].score >= s[i].score;
      }
      NoLiveNegative(s, t);
      ChargedUpper(s, target, t);
    } else {
      ChargedNegativesFirst(s[1..], if s[0].positive then target - 1 else target, t);
    }
  }

  lemma {:induction false} NoLiveNegative(s: seq<Scored>, t: real)
    requires forall x :: x in s && !x.positive ==> x.score < t
    ensures AtLeast(s, false, t) == 0.0
  {
    if s != [] {
      assert s[|s| - 1] in s;
      NoLiveNegative(s[..|s| - 1], t);
    }
  }

  /** The two extremes are reached by listing one kind before the other. */
  lemma ExtremeOrders(scored: seq<Scored>, t: real)
    requires IsThreshold(scored, t)
    ensures multiset(Regrouped(scored, true)) == multiset(scored) == multiset(Regrouped(scored, false))
    ensures Charged(Descending(Regrouped(scored, true)), Target(Positives(scored))) as real == Above(scored, false, t)
    ensures Charged(Descending(Regrouped(scored, false)), Target(Positives(scored))) as real ==
        AtLeast(scored, false, t)
  {
    var target := Target(Positives(scored));
    var p, n := Regrouped(scored, true), Regrouped(scored, false);
    hide Descending, Charged, Regrouped, Target, Positives, Above, AtLeast;
    RegroupedIsGrouped(scored, true);
    RegroupedIsGrouped(scored, false);
    SortKeepsTies(p, true);
    SortKeepsTies(n, false);
    SameTallies(Descending(p), scored, true, t);
    SameTallies(Descending(p), scored, false, t);
    SameTallies(Descending(n), scored, true, t);
    SameTallies(Descending(n), scored, false, t);
    ChargedPositivesFirst(Descending(p), target, t);
    ChargedNegativesFirst(Descending(n), target, t);
  }

  /** The rate is the same for every order of the input exactly when no negative ties with
      the positive that reaches the target. */
  lemma FprPermuted(scored: seq<Scored>, t: real)
    requires IsThreshold(scored, t) && Positives(scored) < |scored|
    ensures (forall other :: multiset(other) == multiset(scored) ==> Fpr(other) == Fpr(scored))
       <==> Above(scored, false, t) == AtLeast(scored, false, t)
  {
    hide Charged, Above, AtLeast, Descending, Target, Regrouped;
    PositivesOf(scored, t);
    if Above(scored, false, t) == AtLeast(scored, false, t) {
      forall other | multiset(other) == multiset(scored) ensures Fpr(other) == Fpr(scored) {
        SameCounts(scored, other);
        SameTallies(scored, other, true, t);
        SameTallies(scored, other, false, t);
        FprIsBetween(scored, t);
        FprIsBetween(other, t);
      }
    }
    if forall other :: multiset(other) == multiset(scored) ==> Fpr(other) == Fpr(scored) {
      var p, n := Regrouped(scored, true), Regrouped(scored, false);
      ExtremeOrders(scored, t);
      SameCounts(scored, p);
      SameCounts(scored, n);
      assert Fpr(p) == Fpr(scored) && Fpr(n) == Fpr(scored);
      SameNumerators(Charged(Descending(p), Target(Positives(p))) as real,
          Charged(Descending(n), Target(Positives(n))) as real,
                     (|scored| - Positives(scored)) as real);
    }
  }

  lemma SameNumerators(a: real, b: real, d: real)
    requires d > 0.0 && a / d == b / d
    ensures a == b
  {
    assert a == (a / d) * d && b == (b / d) * d;
  }

  lemma PositivesOf(scored: seq<Scored>, t: real)
    requires IsThreshold(scored, t)
    ensures Positives(scored) > 0
  {
    CountsAreNonNegative(scored, true, t);
  }

  /** One positive and one negative with the same score: the order decides between 0 and 1. */
  lemma TiesChargeInInputOrder()
    ensures var p, q := Scored(0.5, true), Scored(0.5, false);
            Charged(Descending([p, q]), 1) == 0 && Charged(Descending([q, p]), 1) == 1
  {
    var p, q := Scored(0.5, true), Scored(0.5, false);
    DescendingPair(p, q);
    DescendingPair(q, p);
    hide Descending;
    assert [p, q][1..] == [q] && [q, p][1..] == [p];
    assert Charged([p], 1) == 0 && Charged([q, p], 1) == 1 + Charged([p], 1);
  }

  lemma DescendingPair(x: Scored, y: Scored)
    requires x.score == y.score
    ensures Descending([x, y]) == [x, y]
  {
    assert [x, y][..1] == [x] && [x][..0] == [];
    assert Descending([x]) == [x];
  }

  // ----- the drift monitor -----

  /** Some coordinate both vectors have moved by more than `bound`. */
  ghost predicate Moved(reference: seq<real>, probs: seq<real>, bound: real) {
    exists i :: 0 <= i < |reference| && i < |probs| && Abs(reference[i] - probs[i]) > bound
  }

  /** `d` is the largest shared movement, raised to epsilon when the lengths differ. */
  ghost predicate IsDrift(reference: seq<real>, probs: seq<real>, epsilon: real, d: real) {
    && d >= 0.0 && !Moved(reference, probs, d)
    && (|probs| != |reference| ==> d >= epsilon)
    && (|| d == 0.0 || (|probs| != |reference| && d == epsilon)
        || exists i :: 0 <= i < |reference| && i < |probs| && Abs(reference[i] - probs[i]) == d)
  }

  /** The largest movement among the first `n` coordinates. */
  function Movement(reference: seq<real>, probs: seq<real>, n: nat): (d: real)
    requires n <= |reference| && n <= |probs|
    ensures d >= 0.0 && forall k :: 0 <= k < n ==> Abs(reference[k] - probs[k]) <= d
    ensures d == 0.0 || exists k :: 0 <= k < n && Abs(reference[k] - probs[k]) == d
  {
    if n == 0 then 0.0 else
      var before, here := Movement(reference, probs, n - 1), Abs(reference[n - 1] - probs[n - 1]);
      if here > before then here else before
  }

  function DriftOf(reference: seq<real>, epsilon: real, probs: seq<real>): (d: real)
    ensures IsDrift(reference, probs, epsilon, d)
  {
    var n := if |reference| < |probs| then |reference| else |probs|;
    var d := Movement(reference, probs, n);
    if |probs| != |reference| && d < epsilon then epsilon else d
  }

  lemma DriftUnique(reference: seq<real>, probs: seq<real>, epsilon: real, d: real)
    requires IsDrift(reference, probs, epsilon, d)
    ensures d == DriftOf(reference, epsilon, probs)
  {
    hide Abs, DriftOf;
    var c := DriftOf(reference, epsilon, probs);
    assert IsDrift(reference, probs, epsilon, c);
  }

  /** The largest movement on the shared prefix, raised to epsilon by a change of length. */
  method Drift(reference: seq<real>, epsilon: real, probs: seq<real>) returns (worst: real)
    ensures IsDrift(reference, probs, epsilon, worst) && worst == DriftOf(reference, epsilon, probs)
  {
    hide Abs;
    var n := if |reference| < |probs| then |reference| else |probs|;
    worst := 0.0;
    for i := 0 to n
      invariant worst >= 0.0 && forall k :: 0 <= k < i ==> Abs(reference[k] - probs[k]) <= worst
      invariant worst == 0.0 || exists k :: 0 <= k < i && Abs(reference[k] - probs[k]) == worst
    {
      var d := Abs(reference[i] - probs[i]);
      if d > worst { worst := d; }
    }
    if |probs| != |reference| && worst < epsilon { worst := epsilon; }
    DriftUnique(reference, probs, epsilon, worst);
  }

  /** The drift exceeds epsilon exactly when some shared coordinate moved by more. */
  lemma FlagAgrees(reference: seq<real>, probs: seq<real>, epsilon: real, d: real)
    requires IsDrift(reference, probs, epsilon, d)
    ensures d > epsilon <==> Moved(reference, probs, epsilon) || epsilon < 0.0
  {
    hide Abs;
    if Moved(reference, probs, epsilon) {
      var i :| 0 <= i < |reference| && i < |probs| && Abs(reference[i] - probs[i]) > epsilon;
      assert Abs(reference[i] - probs[i]) <= d;
    }
  }

  /** What the field `observed` holds after a run: the drift of the latest vector. */
  function Latest(reference: seq<real>, epsilon: real, seen: seq<seq<real>>): real {
    if seen == [] then 0.0 else DriftOf(reference, epsilon, seen[|seen| - 1])
  }

  /** What it is documented to hold: the largest drift of the run. */
  function Largest(reference: seq<real>, epsilon: real, seen: seq<seq<real>>): real {
    if seen == [] then 0.0 else
      var before, here := Largest(reference, epsilon, seen[..|seen| - 1]),
          DriftOf(reference, epsilon, seen[|seen| - 1]);
      if here > before then here else before
  }

  lemma {:induction false} LargestIsMaximum(reference: seq<real>, epsilon: real, seen: seq<seq<real>>)
    ensures var d := Largest(reference, epsilon, seen);
            && d >= 0.0 && (forall k :: 0 <= k < |seen| ==> DriftOf(reference, epsilon, seen[k]) <= d)
            && (d == 0.0 || exists k :: 0 <= k < |seen| && DriftOf(reference, epsilon, seen[k]) == d)
  {
    hide DriftOf;
    if seen != [] {
      var front := seen[..|seen| - 1];
      LargestIsMaximum(reference, epsilon, front);
      assert forall k :: 0 <= k < |front| ==> seen[k] == front[k];
    }
  }

  /** After one more vector `observed` is the largest drift exactly when that vector's drift
      is no smaller than the largest before it. */
  lemma LatestIsLargest(reference: seq<real>, epsilon: real, seen: seq<seq<real>>, probs: seq<real>)
    ensures Latest(reference, epsilon, seen + [probs]) == Largest(reference, epsilon, seen + [probs])
       <==> DriftOf(reference, epsilon, probs) >= Largest(reference, epsilon, seen)
  {
    hide DriftOf;
    assert (seen + [probs])[..|seen|] == seen;
  }

  /** It is the largest after every vector exactly when the drifts never fall. */
  lemma {:induction false} LargestThroughout(reference: seq<real>, epsilon: real, seen: seq<seq<real>>)
    ensures (forall n :: 0 <= n <= |seen| ==>
        Latest(reference, epsilon, seen[..n]) == Largest(reference, epsilon, seen[..n]))
       <==> (forall n :: 0 < n < |seen| ==>
           DriftOf(reference, epsilon, seen[n - 1]) <= DriftOf(reference, epsilon, seen[n]))
  {
    hide DriftOf;
    if forall n :: 0 <= n <= |seen| ==>
        Latest(reference, epsilon, seen[..n]) == Largest(reference, epsilon, seen[..n]) {
      forall n | 0 < n < |seen|
        ensures DriftOf(reference, epsilon, seen[n - 1]) <= DriftOf(reference, epsilon, seen[n])
      {
        var now := seen[..n + 1];
        assert Latest(reference, epsilon, now) == Largest(reference, epsilon, now);
        assert now[n - 1] == seen[n - 1];
      }
    }
    if forall n :: 0 < n < |seen| ==> DriftOf(reference, epsilon, seen[n - 1]) <= DriftOf(reference, epsilon, seen[n]) {
      forall n | 0 <= n <= |seen|
        ensures Latest(reference, epsilon, seen[..n]) == Largest(reference, epsilon, seen[..n])
      {
        RisingIsLargest(reference, epsilon, seen, n);
      }
    }
  }

  lemma {:induction false} RisingIsLargest(reference: seq<real>, epsilon: real, seen: seq<seq<real>>, n: nat)
    requires n <= |seen|
    requires forall k :: 0 < k < |seen| ==>
        DriftOf(reference, epsilon, seen[k - 1]) <= DriftOf(reference, epsilon, seen[k])
    ensures Latest(reference, epsilon, seen[..n]) == Largest(reference, epsilon, seen[..n])
  {
    hide DriftOf;
    if n > 0 {
      RisingIsLargest(reference, epsilon, seen, n - 1);
      assert seen[..n][..n - 1] == seen[..n - 1];
      assert n > 1 ==> seen[..n - 1][n - 2] == seen[n - 2];
    }
  }

  /** Reference [0], then [0.5] and [0]: the monitor ends at 0 with a drift of 0.5 behind it. */
  lemma LatestMayBeSmaller(epsilon: real)
    ensures var seen := [[0.5], [0.0]];
            Latest([0.0], epsilon, seen) == 0.0 && Largest([0.0], epsilon, seen) == 0.5
  {
    var first, second := [0.5], [0.0];
    assert DriftOf([0.0], epsilon, first) == 0.5 by { assert Movement([0.0], first, 0) == 0.0; }
    assert DriftOf([0.0], epsilon, second) == 0.0 by { assert Movement([0.0], second, 0) == 0.0; }
    hide DriftOf;
    var none: seq<seq<real>> := [];
    assert [first, second][..1] == [first] && [first][..0] == none;
    assert Largest([0.0], epsilon, none) == 0.0;
    assert Largest([0.0], epsilon, [first]) == 0.5;
  }

  ghost predicate Flagged(reference: seq<real>, epsilon: real, seen: seq<seq<real>>) {
    exists k :: 0 <= k < |seen| && (Moved(reference, seen[k], epsilon) || epsilon < 0.0)
  }

  lemma RunPush(reference: seq<real>, epsilon: real, seen: seq<seq<real>>, probs: seq<real>)
    ensures Flagged(reference, epsilon, seen + [probs])
       <==> Flagged(reference, epsilon, seen) || Moved(reference, probs, epsilon) || epsilon < 0.0
    ensures Latest(reference, epsilon, seen + [probs]) == DriftOf(reference, epsilon, probs)
  {
    hide Moved, DriftOf;
    var run := seen + [probs];
    assert run[|seen|] == probs;
    assert forall k :: 0 <= k < |seen| ==> run[k] == seen[k];
  }

  class DriftMonitor {
    var reference: seq<real>
    var epsilon: real
    var observed: real
    var recalibrated: bool
    ghost var seen: seq<seq<real>>

    /** The flag is up exactly when some vector seen since the last baseline moved a
        shared coordinate by more than epsilon (or epsilon is negative); `observed`
        is the drift of the latest vector, not the largest. */
    ghost predicate Valid()
      reads this
    {
      && (recalibrated <==> Flagged(reference, epsilon, seen))
      && observed == Latest(reference, epsilon, seen)
    }

    constructor (reference: seq<real>, epsilon: real)
      ensures Valid() && this.reference == reference && this.epsilon == epsilon && seen == []
    {
      this.reference, this.epsilon, observed, recalibrated, seen := reference, epsilon, 0.0, false, [];
    }

    method Observe(probs: seq<real>) returns (worst: real)
      requires Valid()
      modifies this`observed, this`recalibrated, this`seen
      ensures Valid() && seen == old(seen) + [probs]
      ensures worst == observed && IsDrift(reference, probs, epsilon, worst)
      ensures observed == Largest(reference, epsilon, seen) <==> worst >= Largest(reference, epsilon, old(seen))
      ensures recalibrated <==> old(recalibrated) || Moved(reference, probs, epsilon) || epsilon < 0.0
    {
      hide Flagged, Latest, Largest, Moved, IsDrift, DriftOf;
      worst := Drift(reference, epsilon, probs);
      observed := worst;
      FlagAgrees(reference, probs, epsilon, worst);
      if worst > epsilon { recalibrated := true; }
      LatestIsLargest(reference, epsilon, seen, probs);
      RunPush(reference, epsilon, seen, probs);
      seen := seen + [probs];
    }

    method Reset(newReference: seq<real>)
      modifies this
      ensures Valid() && reference == newReference && seen == [] && epsilon == old(epsilon) && !recalibrated
    {
      reference, recalibrated, observed, seen := newReference, false, 0.0, [];
    }
  }

  /** The documentation declares a change of class count.  The flag does not: a vector
      that only adds or drops classes is compared on the shared prefix alone. */
  lemma LengthChangeAloneIsSilent(reference: seq<real>, more: seq<real>, epsilon: real)
    requires epsilon >= 0.0
    ensures !Moved(reference, reference + more, epsilon)
    ensures forall k :: 0 <= k <= |reference| ==> !Moved(reference, reference[..k], epsilon)
  {
  }
}
