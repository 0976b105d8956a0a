/** The ranking metric of `decide_core/src/calibrate.rs`, over exact reals. A NaN result is `None`. */
module RankMetrics {
  import opened Wrappers
  import opened Sums

  datatype Scored = Scored(score: real, positive: bool)

  // ----- the pairwise definition -----

  /** What `x` earns against `y`: 1 when it outscores it, 1/2 on a tie. */
  function Credit(x: Scored, y: Scored): real {
    if y.score < x.score then 1.0 else if y.score == x.score then 0.5 else 0.0
  }

  function One(x: Scored): real { if x.positive then 1.0 else 0.0 }

  function Positives(s: seq<Scored>): nat {
    if s == [] then 0 else Positives(s[..|s| - 1]) + (if s[|s| - 1].positive then 1 else 0)
  }

  /** Credit of a positive over a negative, 0 for any other pair. */
  function Win(x: Scored, y: Scored): real { if x.positive && !y.positive then Credit(x, y) else 0.0 }

  /** Pairs where the positive outscores the negative, plus half the tied pairs. */
  function Wins(s: seq<Scored>): real { Total(s, x => Over(s, Win, x)) }

  function PerPair(u: real, pos: nat, neg: nat): real
    requires pos > 0 && neg > 0
  {
    u / (pos * neg) as real
  }

  function PairwiseAuc(s: seq<Scored>): Option<real> {
    PositivesAreTotal(s);
    var pos, neg := Positives(s), |s| - Positives(s);
    if pos == 0 || neg == 0 then None else Some(PerPair(Wins(s), pos, neg))
  }

  lemma {:induction false} PositivesAreTotal(s: seq<Scored>)
    ensures Positives(s) as real == Total(s, One) && Positives(s) <= |s|
  {
    if s != [] { PositivesAreTotal(s[..|s| - 1]); }
  }

  // ----- the rank form -----

  ghost predicate SortedByScore(s: seq<Scored>) {
    forall i, j :: 0 <= i < j < |s| ==> s[i].score <= s[j].score
  }

  function Inserted(r: seq<Scored>, x: Scored): (t: seq<Scored>)
    ensures multiset(t) == multiset(r) + multiset{x}
  {
    if r == [] || r[|r| - 1].score <= x.score then r + [x]
    else
      var init, last := r[..|r| - 1], r[|r| - 1];
      assert r == init + [last];
      Inserted(init, x) + [last]
  }

  lemma {:induction false} InsertedSorted(r: seq<Scored>, x: Scored)
    requires SortedByScore(r)
    ensures SortedByScore(Inserted(r, x))
  {
    if r != [] && r[|r| - 1].score > x.score {
      var init, last := r[..|r| - 1], r[|r| - 1];
      InsertedSorted(init, x);
      var t := Inserted(init, x);
      forall k | 0 <= k < |t|
        ensures t[k].score <= last.score
      {
        assert t[k] in multiset(t);
        assert t[k] in init || t[k] == x;
      }
    }
  }

  /** The stable ascending `sort_by` of the code. */
  function Ascending(s: seq<Scored>): (r: seq<Scored>)
    ensures SortedByScore(r) && multiset(r) == multiset(s)
  {
    if s == [] then []
    else
      var rest := Ascending(s[..|s| - 1]);
      assert s == s[..|s| - 1] + [s[|s| - 1]];
      InsertedSorted(rest, s[|s| - 1]);
      Inserted(rest, s[|s| - 1])
  }

  /** Tie-averaged rank of a positive: one half more than its credit against everybody. */
  function RankOfPositive(s: seq<Scored>, x: Scored): real {
    if x.positive then Over(s, Credit, x) + 0.5 else 0.0
  }

  function RankTotal(s: seq<Scored>, prefix: seq<Scored>): real { Total(prefix, x => RankOfPositive(s, x)) }

  lemma RankTotalPush(s: seq<Scored>, prefix: seq<Scored>, x: Scored)
    ensures RankTotal(s, prefix + [x]) == RankTotal(s, prefix) + RankOfPositive(s, x)
  {
    TotalPush(prefix, x, y => RankOfPositive(s, y));
  }

  /** `s[i..j]` holds exactly the entries tied with `x`. */
  ghost predicate TieBlock(s: seq<Scored>, i: nat, j: nat, x: Scored) {
    && i <= j <= |s|
    && (forall k :: 0 <= k < i ==> s[k].score < x.score)
    && (forall k :: i <= k < j ==> s[k].score == x.score)
    && (forall k :: j <= k < |s| ==> s[k].score > x.score)
  }

  /** A tie block i..j gets the mean of the ranks i+1, .., j. */
  lemma BlockRank(s: seq<Scored>, i: nat, j: nat, k: nat)
    requires i <= k < j <= |s| && TieBlock(s, i, j, s[i])
    ensures RankOfPositive(s, s[k]) == if s[k].positive then (i + j + 1) as real / 2.0 else 0.0
  {
    var x := s[k];
    var f := y => Credit(x, y);
    var lo, mid, hi := s[..i], s[i..j], s[j..];
    assert forall y :: y in lo ==> f(y) == 1.0;
    assert forall y :: y in mid ==> f(y) == 0.5;
    assert forall y :: y in hi ==> f(y) == 0.0;
    hide TieBlock, Credit, Over;
    assert s == lo + mid + hi;
    OverIs(s, Credit, x, f);
    ThreeLevels(lo, mid, hi, f);
  }

  lemma ThreeLevels(lo: seq<Scored>, mid: seq<Scored>, hi: seq<Scored>, f: Scored -> real)
    requires forall y :: y in lo ==> f(y) == 1.0
    requires forall y :: y in mid ==> f(y) == 0.5
    requires forall y :: y in hi ==> f(y) == 0.0
    ensures Total(lo + mid + hi, f) == |lo| as real + |mid| as real * 0.5
  {
    hide Total;
    TotalConcat(lo + mid, hi, f);
    TotalConcat(lo, mid, f);
    TotalConst(lo, 1.0, f);
    TotalConst(mid, 0.5, f);
    TotalConst(hi, 0.0, f);
  }

  /** The end of the tie block that starts at `i`. */
  method BlockEnd(sorted: seq<Scored>, i: nat) returns (j: nat)
    requires SortedByScore(sorted) && i < |sorted|
    requires forall k :: 0 <= k < i ==> sorted[k].score < sorted[i].score
    ensures i < j <= |sorted| && TieBlock(sorted, i, j, sorted[i])
    ensures j < |sorted| ==> forall k :: 0 <= k < j ==> sorted[k].score < sorted[j].score
  {
    j := i;
    while j < |sorted| && sorted[j].score == sorted[i].score
      invariant i <= j <= |sorted|
      invariant forall k :: i <= k < j ==> sorted[k].score == sorted[i].score
    {
      j := j + 1;
    }
  }

  /** The rank-sum form, one pass over the tie blocks of the sorted list. */
  method RocAuc(scored: seq<Scored>) returns (auc: Option<real>)
    ensures auc == PairwiseAuc(scored)
  {
    PositivesAreTotal(scored);
    hide Positives, Total, One, Wins, RankTotal, PerPair, LeastRankSum, Ascending;
    var pos := Positives(scored);
    var neg := |scored| - pos;
    if pos == 0 || neg == 0 { return None; }
    var sorted := Ascending(scored);
    var rankSum := RankSum(sorted);
    var u := rankSum - LeastRankSum(pos);
    RankSumIdentity(sorted);
    WinsPermuted(sorted, scored);
    return Some(PerPair(u, pos, neg));
  }

  method RankSum(sorted: seq<Scored>) returns (rankSum: real)
    requires SortedByScore(sorted)
    ensures rankSum == RankTotal(sorted, sorted)
  {
    var rank, i := 1.0, 0;
    rankSum := 0.0;
    while i < |sorted|
      invariant 0 <= i <= |sorted|
      invariant rank == i as real + 1.0
      invariant i < |sorted| ==> forall k :: 0 <= k < i ==> sorted[k].score < sorted[i].score
      invariant rankSum == RankTotal(sorted, sorted[..i])
    {
      hide RankOfPositive, RankTotal, SortedByScore, TieBlock;
      var j := BlockEnd(sorted, i);
      var avgRank := (rank + (rank + (j - i) as real - 1.0)) / 2.0;
      for k := i to j
        invariant rankSum == RankTotal(sorted, sorted[..k])
      {
        BlockRank(sorted, i, j, k);
        assert sorted[..k + 1] == sorted[..k] + [sorted[k]];
        RankTotalPush(sorted, sorted[..k], sorted[k]);
        if sorted[k].positive { rankSum := rankSum + avgRank; }
      }
      rank := rank + (j - i) as real;
      i := j;
    }
    assert sorted[..|sorted|] == sorted;
  }

  // ----- why the two agree -----

  function Share(x: Scored, y: Scored): real { if x.positive && y.positive then Credit(x, y) else 0.0 }

  lemma ShareTwice(x: Scored, y: Scored)
    ensures Share(x, y) + Share(y, x) == One(x) * One(y)
  {
  }

  /** Among themselves the positives share one point a pair. */
  lemma PositivesShare(s: seq<Scored>)
    ensures 2.0 * Total(s, x => Over(s, Share, x)) == Total(s, One) * Total(s, One)
  {
    hide Share, One, Over, From, Total;
    var p := Total(s, One);
    var over, from := x => Over(s, Share, x), x => From(s, Share, x);
    PairsExchange(s, s, Share);
    forall x | x in s
      ensures p * One(x) == over(x) + from(x)
    {
      var given, back := y => Share(x, y), y => Share(y, x);
      OverIs(s, Share, x, given);
      FromIs(s, Share, x, back);
      forall y ensures given(y) + back(y) == One(x) * One(y) { ShareTwice(x, y); }
      TotalAdd(s, given, back, y => One(x) * One(y));
      TotalScale(s, One(x), One, y => One(x) * One(y));
    }
    TotalAdd(s, over, from, x => p * One(x));
    TotalScale(s, p, One, x => p * One(x));
  }

  lemma RankSplits(s: seq<Scored>, x: Scored)
    ensures RankOfPositive(s, x) == Over(s, Win, x) + Over(s, Share, x) + 0.5 * One(x)
  {
    if x.positive {
      OverIs(s, Credit, x, y => Credit(x, y));
      OverSplits(s, Win, Share, x, 1.0, y => Credit(x, y));
    } else {
      OverSplits(s, Win, Share, x, 0.0, One);
    }
  }

  lemma RankSumParts(s: seq<Scored>)
    ensures RankTotal(s, s) == Wins(s) + Total(s, x => Over(s, Share, x)) + 0.5 * Total(s, One)
  {
    hide RankOfPositive, Win, Share, Credit, Over;
    var win, share, half := x => Over(s, Win, x), x => Over(s, Share, x), x => 0.5 * One(x);
    var both := x => Over(s, Win, x) + Over(s, Share, x);
    forall x | x in s
      ensures RankOfPositive(s, x) == both(x) + half(x)
    {
      RankSplits(s, x);
    }
    TotalAdd(s, both, half, x => RankOfPositive(s, x));
    TotalAdd(s, win, share, both);
    TotalScale(s, 0.5, One, half);
  }

  lemma RankSumIdentity(s: seq<Scored>)
    ensures RankTotal(s, s) == Wins(s) + LeastRankSum(Positives(s))
  {
    hide RankTotal, Wins, Over, Total, Positives, One, LeastRankSum;
    RankSumParts(s);
    PositivesShare(s);
    PositivesAreTotal(s);
    HalfSquare(Positives(s), Total(s, One), Total(s, x => Over(s, Share, x)));
  }

  /** The rank sum of `n` positives that all come first. */
  function LeastRankSum(n: nat): real { (n * (n + 1)) as real / 2.0 }

  lemma HalfSquare(n: nat, p: real, t: real)
    requires p == n as real && 2.0 * t == p * p
    ensures t + 0.5 * p == LeastRankSum(n)
  {
    assert (n * (n + 1)) as real == p * p + p;
  }

  lemma WinsPermuted(s: seq<Scored>, t: seq<Scored>)
    requires multiset(s) == multiset(t)
    ensures Wins(s) == Wins(t) && Positives(s) == Positives(t) && |s| == |t|
  {
    assert |multiset(s)| == |s| && |multiset(t)| == |t|;
    forall x | x in s
      ensures Over(s, Win, x) == Over(t, Win, x)
    {
      var f := y => Win(x, y);
      OverIs(s, Win, x, f);
      OverIs(t, Win, x, f);
      TotalPermuted(s, t, f);
    }
    TotalExt(s, x => Over(s, Win, x), x => Over(t, Win, x));
    TotalPermuted(s, t, x => Over(t, Win, x));
    PositivesAreTotal(s);
    PositivesAreTotal(t);
    TotalPermuted(s, t, One);
  }

  /** The order of the list does not matter. */
  lemma AucPermuted(s: seq<Scored>, t: seq<Scored>)
    requires multiset(s) == multiset(t)
    ensures PairwiseAuc(s) == PairwiseAuc(t)
  {
    WinsPermuted(s, t);
  }

  function Flip(x: Scored): Scored { x.(positive := !x.positive) }

  function Flipped(s: seq<Scored>): seq<Scored> {
    if s == [] then [] else Flipped(s[..|s| - 1]) + [Flip(s[|s| - 1])]
  }

  lemma {:induction false} TotalFlipped(s: seq<Scored>, f: Scored -> real, g: Scored -> real)
    requires forall x :: x in s ==> g(x) == f(Flip(x))
    ensures Total(Flipped(s), f) == Total(s, g) && |Flipped(s)| == |s|
  {
    if s != [] {
      TotalFlipped(s[..|s| - 1], f, g);
      TotalPush(Flipped(s[..|s| - 1]), Flip(s[|s| - 1]), f);
    }
  }

  function Zero(x: Scored): real { 1.0 - One(x) }

  lemma FlippedCounts(s: seq<Scored>)
    ensures Total(s, Zero) == (|s| - Positives(s)) as real
    ensures |Flipped(s)| == |s| && Positives(Flipped(s)) == |s| - Positives(s) >= 0
  {
    PositivesAreTotal(s);
    PositivesAreTotal(Flipped(s));
    TotalFlipped(s, One, Zero);
    TotalAdd(s, One, Zero, x => 1.0);
    TotalConst(s, 1.0, x => 1.0);
  }

  /** What the positive `x` gives away to the negative `y`. */
  function Loss(x: Scored, y: Scored): real { Win(Flip(y), Flip(x)) }

  lemma FlippedWins(s: seq<Scored>)
    ensures Wins(Flipped(s)) == Total(s, x => Over(s, Loss, x))
  {
    var t := Flipped(s);
    forall x | x in s
      ensures From(s, Loss, x) == Over(t, Win, Flip(x))
    {
      var f, g := y => Win(Flip(x), y), y => Loss(y, x);
      OverIs(t, Win, Flip(x), f);
      FromIs(s, Loss, x, g);
      TotalFlipped(s, f, g);
    }
    TotalFlipped(s, x => Over(t, Win, x), x => From(s, Loss, x));
    PairsExchange(s, s, Loss);
  }

  /** Swapping the two labels turns the AUC into 1 - AUC. */
  lemma AucFlips(s: seq<Scored>)
    requires PairwiseAuc(s).Some?
    ensures PairwiseAuc(Flipped(s)) == Some(1.0 - PairwiseAuc(s).value)
  {
    hide Wins, Flipped, Positives, PerPair, Total;
    FlippedCounts(s);
    FlippedWins(s);
    MixedPairs(s);
    PositivesAreTotal(s);
    Complement(Wins(s), Wins(Flipped(s)), Positives(s), |s| - Positives(s), Total(s, One), Total(s, Zero));
  }

  lemma MixedPairs(s: seq<Scored>)
    ensures Wins(s) + Total(s, x => Over(s, Loss, x)) == Total(s, Zero) * Total(s, One)
  {
    var q, win, loss := Total(s, Zero), x => Over(s, Win, x), x => Over(s, Loss, x);
    forall x | x in s
      ensures q * One(x) == win(x) + loss(x)
    {
      OverSplits(s, Win, Loss, x, One(x), Zero);
    }
    TotalAdd(s, win, loss, x => q * One(x));
    TotalScale(s, q, One, x => q * One(x));
  }

  lemma Complement(u: real, v: real, pos: nat, neg: nat, p: real, q: real)
    requires pos > 0 && neg > 0 && p == pos as real && q == neg as real && u + v == q * p
    ensures PerPair(v, neg, pos) == 1.0 - PerPair(u, pos, neg)
  {
    var n := (pos * neg) as real;
    assert pos * neg > 0;
    assert n == q * p;
    assert neg * pos == pos * neg;
    assert v == n - u;
    assert (n - u) / n + u / n == n / n == 1.0;
  }
}
