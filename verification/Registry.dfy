/** The layout of sparse states as dense tensors: `fock_sirk/src/registry.rs`,
    `fock_sirk/src/tensor_state.rs` and the sparse inner product of
    `nested_fock_algebra/src/lib.rs`.  Hash maps are walked in an arbitrary order. */
module Registry {
  import opened Wrappers
  import opened Complex
  import Sums

  datatype OuterState = OuterState(bosonic: map<map<nat, nat>, nat>, fermionic: set<set<nat>>)

  /** The components of a quantum state. */
  type Sparse = map<OuterState, C>

  datatype Tensor = Tensor(re: seq<real>, im: seq<real>)

  function Amplitude(v: Sparse, k: OuterState): C { if k in v then v[k] else ZERO }

  function Term(a: Sparse, b: Sparse): OuterState -> C { k => Mul(Conj(Amplitude(a, k)), Amplitude(b, k)) }

  // ----- sums over a finite set of basis states -----

  ghost function SetSum(keys: set<OuterState>, f: OuterState -> C): C {
    if keys == {} then ZERO else
      var k :| k in keys;
      Plus(f(k), SetSum(keys - {k}, f))
  }

  /** The sum does not depend on which state is taken first. */
  lemma {:induction false} SetSumPick(keys: set<OuterState>, f: OuterState -> C, x: OuterState)
    requires x in keys
    ensures SetSum(keys, f) == Plus(f(x), SetSum(keys - {x}, f))
    decreases |keys|
  {
    var k :| k in keys && SetSum(keys, f) == Plus(f(k), SetSum(keys - {k}, f));
    if k != x {
      SetSumPick(keys - {k}, f, x);
      SetSumPick(keys - {x}, f, k);
      assert keys - {k} - {x} == keys - {x} - {k};
      var rest := SetSum(keys - {k} - {x}, f);
      assert SetSum(keys - {k}, f) == Plus(f(x), rest);
      assert SetSum(keys - {x}, f) == Plus(f(k), rest);
      assert Plus(f(k), Plus(f(x), rest)) == Plus(f(x), Plus(f(k), rest));
    }
  }

  /** States where the term vanishes may be left out. */
  lemma {:induction false} SetSumSupport(keys: set<OuterState>, part: set<OuterState>, f: OuterState -> C)
    requires part <= keys && forall k :: k in keys - part ==> f(k) == ZERO
    ensures SetSum(keys, f) == SetSum(part, f)
    decreases |keys|
  {
    if x :| x in keys - part {
      SetSumPick(keys, f, x);
      SetSumSupport(keys - {x}, part, f);
    } else {
      assert keys <= part by {
        forall k | k in keys ensures k in part { assert k !in keys - part; }
      }
      assert keys == part;
    }
  }

  /** The inner product of two sparse states, as a sum over their common states. */
  ghost function Overlap(a: Sparse, b: Sparse): C { SetSum(a.Keys * b.Keys, Term(a, b)) }

  method SparseInner(a: Sparse, b: Sparse) returns (sum: C)
    ensures sum == Overlap(a, b)
  {
    if |a| < |b| {
      sum := WalkFirst(a, b);
    } else {
      sum := WalkSecond(a, b);
    }
  }

  method WalkFirst(a: Sparse, b: Sparse) returns (sum: C)
    ensures sum == Overlap(a, b)
  {
    hide Mul, Plus, Conj, SetSum, Term, Amplitude;
    var todo := a.Keys;
    ghost var seen: set<OuterState> := {};
    sum := ZERO;
    EmptySum(seen, a, b);
    while todo != {}
      invariant todo <= a.Keys && seen == (a.Keys - todo) * b.Keys && sum == SetSum(seen, Term(a, b))
      decreases |todo|
    {
      var state :| state in todo;
      SeenGrows(a.Keys, b.Keys, todo, state);
      todo := todo - {state};
      if state in b {
        AddCommon(seen, seen + {state}, a, b, state);
        seen := seen + {state};
        sum := Plus(sum, Mul(Conj(a[state]), b[state]));
      }
    }
    assert seen == a.Keys * b.Keys;
  }

  method WalkSecond(a: Sparse, b: Sparse) returns (sum: C)
    ensures sum == Overlap(a, b)
  {
    hide Mul, Plus, Conj, SetSum, Term, Amplitude;
    var todo := b.Keys;
    ghost var seen: set<OuterState> := {};
    sum := ZERO;
    EmptySum(seen, a, b);
    while todo != {}
      invariant todo <= b.Keys && seen == (b.Keys - todo) * a.Keys && sum == SetSum(seen, Term(a, b))
      decreases |todo|
    {
      var state :| state in todo;
      SeenGrows(b.Keys, a.Keys, todo, state);
      todo := todo - {state};
      if state in a {
        AddCommon(seen, seen + {state}, a, b, state);
        seen := seen + {state};
        sum := Plus(sum, Mul(Conj(a[state]), b[state]));
      }
    }
    assert seen == a.Keys * b.Keys;
  }

  lemma SeenGrows(keys: set<OuterState>, other: set<OuterState>, todo: set<OuterState>, x: OuterState)
    requires x in todo && todo <= keys
    ensures var seen := (keys - todo) * other;
            x !in seen && (keys - (todo - {x})) * other == if x in other then seen + {x} else seen
  {
  }

  lemma EmptySum(keys: set<OuterState>, a: Sparse, b: Sparse)
    requires keys == {}
    ensures SetSum(keys, Term(a, b)) == ZERO
  {
  }

  lemma AddCommon(before: set<OuterState>, after: set<OuterState>, a: Sparse, b: Sparse, x: OuterState)
    requires x !in before && after == before + {x} && x in a && x in b
    ensures SetSum(after, Term(a, b)) == Plus(SetSum(before, Term(a, b)), Mul(Conj(a[x]), b[x]))
  {
    hide Mul, Plus, Conj, SetSum;
    AddState(before, after, Term(a, b), x);
  }

  lemma AddState(before: set<OuterState>, after: set<OuterState>, f: OuterState -> C, x: OuterState)
    requires x !in before && after == before + {x}
    ensures SetSum(after, f) == Plus(SetSum(before, f), f(x))
  {
    hide SetSum;
    SetSumPick(after, f, x);
    assert after - {x} == before;
  }

  // ----- the dense side -----

  function Elements(index: seq<OuterState>): set<OuterState> { set k | k in index }

  predicate Distinct(index: seq<OuterState>) {
    forall i, j :: 0 <= i < j < |index| ==> index[i] != index[j]
  }

  /** `t` holds the amplitudes of `v` at the positions `index` gives the states. */
  ghost predicate Flattens(t: Tensor, v: Sparse, index: seq<OuterState>) {
    && |t.re| == |t.im| == |index|
    && v.Keys <= Elements(index)
    && forall i :: 0 <= i < |index| ==> C(t.re[i], t.im[i]) == Amplitude(v, index[i])
  }

  function Entry(a: seq<real>, b: seq<real>, i: int): real
    requires |a| == |b|
  {
    if 0 <= i < |a| then a[i] * b[i] else 0.0
  }

  /** The sum of the entrywise product. */
  function EntrywiseSum(a: seq<real>, b: seq<real>): real
    requires |a| == |b|
  {
    Sums.Sum(|a|, i => Entry(a, b, i))
  }

  /** Tensors of different shapes cannot be multiplied. */
  function InnerProduct(a: Tensor, b: Tensor): Result<C>
    requires |a.re| == |a.im| && |b.re| == |b.im|
  {
    if |a.re| != |b.re| then Err("shape mismatch") else
      Ok(C(EntrywiseSum(a.re, b.re) + EntrywiseSum(a.im, b.im),
           EntrywiseSum(a.re, b.im) - EntrywiseSum(a.im, b.re)))
  }

  lemma {:induction false} FourSums(n: nat, rr: int -> real, ii: int -> real, ri: int -> real, ir: int -> real,
          f: int -> C)
    requires forall i :: 0 <= i < n ==> f(i) == C(rr(i) + ii(i), ri(i) - ir(i))
    ensures Sum(n, f) == C(Sums.Sum(n, rr) + Sums.Sum(n, ii), Sums.Sum(n, ri) - Sums.Sum(n, ir))
  {
    if n > 0 { FourSums(n - 1, rr, ii, ri, ir, f); }
  }

  lemma {:induction false} SumOverIndex(n: nat, index: seq<OuterState>, f: OuterState -> C, g: int -> C)
    requires n <= |index| && Distinct(index)
    requires forall i :: 0 <= i < n ==> g(i) == f(index[i])
    ensures Sum(n, g) == SetSum(Elements(index[..n]), f)
  {
    if n > 0 {
      SumOverIndex(n - 1, index, f, g);
      assert index[..n] == index[..n - 1] + [index[n - 1]];
      AddState(Elements(index[..n - 1]), Elements(index[..n]), f, index[n - 1]);
    }
  }

  lemma TermEntry(s: Tensor, t: Tensor, i: nat)
    requires i < |s.re| == |s.im| == |t.re| == |t.im|
    ensures Mul(Conj(C(s.re[i], s.im[i])), C(t.re[i], t.im[i]))
         == C(Entry(s.re, t.re, i) + Entry(s.im, t.im, i), Entry(s.re, t.im, i) - Entry(s.im, t.re, i))
  {
  }

  lemma TermAt(a: Sparse, b: Sparse, k: OuterState)
    ensures Term(a, b)(k) == Mul(Conj(Amplitude(a, k)), Amplitude(b, k))
  {
  }

  /** The dense inner product is the sparse one, whatever order the states were given indices in. */
  lemma DenseIsSparse(s: Tensor, t: Tensor, a: Sparse, b: Sparse, index: seq<OuterState>)
    requires Distinct(index) && Flattens(s, a, index) && Flattens(t, b, index)
    ensures InnerProduct(s, t) == Ok(Overlap(a, b))
  {
    hide Mul, Conj, SetSum, Amplitude, Term, InnerProduct, Sum;
    var n := |index|;
    var f := Term(a, b);
    var g := i => if 0 <= i < n then f(index[i]) else ZERO;
    DenseTerms(s, t, a, b, index, g);
    SumOverIndex(n, index, f, g);
    assert index[..n] == index;
    forall k | k in Elements(index) - a.Keys * b.Keys ensures f(k) == ZERO {
      OutsideIsZero(a, b, k);
      TermAt(a, b, k);
      VanishingTerm(Amplitude(a, k), Amplitude(b, k));
    }
    SetSumSupport(Elements(index), a.Keys * b.Keys, f);
  }

  lemma DenseTerms(s: Tensor, t: Tensor, a: Sparse, b: Sparse, index: seq<OuterState>, g: int -> C)
    requires Flattens(s, a, index) && Flattens(t, b, index)
    requires forall i :: 0 <= i < |index| ==> g(i) == Term(a, b)(index[i])
    ensures InnerProduct(s, t) == Ok(Sum(|index|, g))
  {
    hide Mul, Conj, Sums.Sum, Amplitude, Term, Entry;
    forall i | 0 <= i < |index|
      ensures g(i) == C(Entry(s.re, t.re, i) + Entry(s.im, t.im, i), Entry(s.re, t.im, i) - Entry(s.im, t.re, i))
    {
      TermAt(a, b, index[i]);
      TermEntry(s, t, i);
    }
    FourEntrySums(s, t, g);
  }

  lemma FourEntrySums(s: Tensor, t: Tensor, g: int -> C)
    requires |s.re| == |s.im| == |t.re| == |t.im|
    requires forall i :: 0 <= i < |s.re| ==>
               g(i) == C(Entry(s.re, t.re, i) + Entry(s.im, t.im, i), Entry(s.re, t.im, i) - Entry(s.im, t.re, i))
    ensures InnerProduct(s, t) == Ok(Sum(|s.re|, g))
  {
    hide Sums.Sum, Entry;
    FourSums(|s.re|, i => Entry(s.re, t.re, i), i => Entry(s.im, t.im, i),
             i => Entry(s.re, t.im, i), i => Entry(s.im, t.re, i), g);
  }

  lemma VanishingTerm(x: C, y: C)
    requires x == ZERO || y == ZERO
    ensures Mul(Conj(x), y) == ZERO
  {
    hide Mul;
    if x == ZERO { Units(y); } else { Units(Conj(x)); }
  }

  lemma OutsideIsZero(a: Sparse, b: Sparse, k: OuterState)
    requires k !in a.Keys * b.Keys
    ensures Amplitude(a, k) == ZERO || Amplitude(b, k) == ZERO
  {
  }

  // ----- the dictionary -----

  /** The two tables are inverse to each other. */
  ghost predicate Inverse(table: map<OuterState, nat>, index: seq<OuterState>) {
    && (forall i :: 0 <= i < |index| ==> index[i] in table && table[index[i]] == i)
    && (forall k :: k in table ==> table[k] < |index| && index[table[k]] == k)
  }

  lemma InverseIsDistinct(table: map<OuterState, nat>, index: seq<OuterState>)
    requires Inverse(table, index)
    ensures Distinct(index) && table.Keys == Elements(index)
  {
    forall k | k in table ensures k in index { assert index[table[k]] == k; }
  }

  lemma {:induction false} ElementsCount(index: seq<OuterState>)
    requires Distinct(index)
    ensures |Elements(index)| == |index|
  {
    if index != [] {
      var front, last := index[..|index| - 1], index[|index| - 1];
      ElementsCount(front);
      assert index == front + [last];
      assert Elements(index) == Elements(front) + {last};
    }
  }

  lemma SameSizeIsAll(small: set<OuterState>, big: set<OuterState>)
    requires small <= big && |small| == |big|
    ensures small == big
  {
    if x :| x in big - small {
      assert small <= big - {x} && |big - {x}| == |big| - 1;
      CardinalityMonotone(small, big - {x});
    } else {
      assert forall k :: k in big ==> k !in big - small ==> k in small;
      assert small == big;
    }
  }

  lemma {:induction false} CardinalityMonotone(small: set<OuterState>, big: set<OuterState>)
    requires small <= big
    ensures |small| <= |big|
  {
    if x :| x in small { CardinalityMonotone(small - {x}, big - {x}); }
  }

  /** Checking one direction and the sizes is enough. */
  lemma OneDirectionSuffices(table: map<OuterState, nat>, index: seq<OuterState>)
    ensures (|table| == |index| && forall i :: 0 <= i < |index| ==> index[i] in table && table[index[i]] == i)
       <==> Inverse(table, index)
  {
    if Inverse(table, index) {
      InverseIsDistinct(table, index);
      ElementsCount(index);
      assert |table.Keys| == |table|;
    }
    if |table| == |index| && forall i :: 0 <= i < |index| ==> index[i] in table && table[index[i]] == i {
      ElementsCount(index);
      assert |table.Keys| == |table|;
      SameSizeIsAll(Elements(index), table.Keys);
      forall k | k in table ensures table[k] < |index| && index[table[k]] == k {
        assert k in Elements(index);
      }
    }
  }

  lemma ElementsAdd(index: seq<OuterState>, x: OuterState)
    ensures Elements(index + (if x in index then [] else [x])) == Elements(index) + {x}
  {
    var more := index + (if x in index then [] else [x]);
    forall k | k in Elements(index) + {x} ensures k in more {
      if k == x && x !in index { assert more[|index|] == x; }
    }
  }

  lemma CoveredGrows(base: set<OuterState>, keys: set<OuterState>, todo: set<OuterState>, x: OuterState)
    requires x in todo && todo <= keys
    ensures base + (keys - todo) + {x} == base + (keys - (todo - {x}))
  {
  }

  class StateDictionary {
    var stateToIndex: map<OuterState, nat>
    var indexToState: seq<OuterState>

    ghost predicate Valid()
      reads this
    {
      Inverse(stateToIndex, indexToState)
    }

    constructor ()
      ensures Valid() && indexToState == []
    {
      stateToIndex, indexToState := map[], [];
    }

    method GetOrInsert(state: OuterState) returns (i: nat)
      requires Valid()
      modifies this
      ensures Valid() && i < |indexToState| && indexToState[i] == state
      ensures indexToState == old(indexToState) + (if state in old(indexToState) then [] else [state])
    {
      if state in stateToIndex {
        i := stateToIndex[state];
      } else {
        i := |indexToState|;
        stateToIndex := stateToIndex[state := i];
        indexToState := indexToState + [state];
      }
    }

    /** Old indices stay, and exactly the states of `v` are added. */
    method Register(v: Sparse)
      requires Valid()
      modifies this
      ensures Valid() && old(indexToState) <= indexToState
      ensures Elements(indexToState) == old(Elements(indexToState)) + v.Keys
    {
      hide Inverse, Elements;
      var todo := v.Keys;
      assert Elements(indexToState) == Elements(indexToState) + (v.Keys - todo);
      while todo != {}
        invariant todo <= v.Keys && Valid() && old(indexToState) <= indexToState
        invariant Elements(indexToState) == old(Elements(indexToState)) + (v.Keys - todo)
        decreases |todo|
      {
        var state :| state in todo;
        ElementsAdd(indexToState, state);
        CoveredGrows(old(Elements(indexToState)), v.Keys, todo, state);
        var _ := GetOrInsert(state);
        todo := todo - {state};
      }
    }

    /** The runtime layout check, on tables in any state. */
    predicate IsBijective()
      reads this
    {
      && |stateToIndex| == |indexToState|
      && forall i :: 0 <= i < |indexToState| ==> indexToState[i] in stateToIndex && stateToIndex[indexToState[i]] == i
    }

    method BijectiveViolation() returns (violation: Option<nat>)
      ensures violation.None? <==> Inverse(stateToIndex, indexToState)
      ensures violation.Some? && violation.value < |indexToState| ==>
                var s := indexToState[violation.value];
                s !in stateToIndex || stateToIndex[s] != violation.value
      ensures violation.Some? ==> violation.value <= |indexToState|
      ensures violation.Some? ==> forall j :: 0 <= j < violation.value ==>
                indexToState[j] in stateToIndex && stateToIndex[indexToState[j]] == j
    {
      OneDirectionSuffices(stateToIndex, indexToState);
      for i := 0 to |indexToState|
        invariant forall j :: 0 <= j < i ==> indexToState[j] in stateToIndex && stateToIndex[indexToState[j]] == j
      {
        var s := indexToState[i];
        if s !in stateToIndex || stateToIndex[s] != i { return Some(i); }
      }
      if |stateToIndex| != |indexToState| { return Some(|indexToState|); }
      return None;
    }
  }

  /** A fresh index lengthens the tensor by exactly one slot, so it always ends as
      long as the dictionary; a state registered before adds no index. */
  method FromQuantumState(v: Sparse, registry: StateDictionary) returns (t: Tensor)
    requires registry.Valid()
    modifies registry
    ensures registry.Valid() && old(registry.indexToState) <= registry.indexToState
    ensures Flattens(t, v, registry.indexToState)
    ensures v.Keys <= old(Elements(registry.indexToState)) ==>
              registry.indexToState == old(registry.indexToState)
  {
    var dim := |registry.indexToState|;
    var re := seq(dim, _ => 0.0);
    var im := seq(dim, _ => 0.0);
    var todo := v.Keys;
    while todo != {}
      invariant todo <= v.Keys && registry.Valid() && old(registry.indexToState) <= registry.indexToState
      invariant |re| == |im| == |registry.indexToState|
      invariant v.Keys - todo <= Elements(registry.indexToState)
      invariant forall i :: 0 <= i < |re| ==>
                  C(re[i], im[i]) == if registry.indexToState[i] in todo then ZERO
                                     else Amplitude(v, registry.indexToState[i])
      invariant v.Keys <= old(Elements(registry.indexToState)) ==>
                  registry.indexToState == old(registry.indexToState)
      decreases |todo|
    {
      var outer :| outer in todo;
      ghost var before := registry.indexToState;
      var idx := registry.GetOrInsert(outer);
      InverseIsDistinct(registry.stateToIndex, registry.indexToState);
      if idx >= |re| {
        re := re + seq(idx + 1 - |re|, _ => 0.0);
        im := im + seq(idx + 1 - |im|, _ => 0.0);
      }
      re := re[idx := v[outer].re];
      im := im[idx := v[outer].im];
      todo := todo - {outer};
      assert registry.indexToState[idx] == outer;
      assert Elements(before) <= Elements(registry.indexToState);
    }
    t := Tensor(re, im);
  }

  /** Register every vector, then flatten each: all tensors share one layout, and
      every Gram entry computed from them is the sparse inner product. */
  method FlattenAll(ws: seq<Sparse>) returns (tensors: seq<Tensor>, registry: StateDictionary)
    ensures fresh(registry) && registry.Valid() && registry.IsBijective() && |tensors| == |ws|
    ensures forall j :: 0 <= j < |ws| ==> Flattens(tensors[j], ws[j], registry.indexToState)
    ensures forall j, k :: 0 <= j < |ws| && 0 <= k < |ws| ==>
              |tensors[j].re| == |tensors[j].im| && |tensors[k].re| == |tensors[k].im| &&
              InnerProduct(tensors[j], tensors[k]) == Ok(Overlap(ws[j], ws[k]))
  {
    registry := new StateDictionary();
    for j := 0 to |ws|
      invariant registry.Valid() && fresh(registry)
      invariant forall i :: 0 <= i < j ==> ws[i].Keys <= Elements(registry.indexToState)
    {
      registry.Register(ws[j]);
    }
    ghost var index := registry.indexToState;
    tensors := [];
    for j := 0 to |ws|
      invariant registry.Valid() && fresh(registry) && registry.indexToState == index && |tensors| == j
      invariant forall i :: 0 <= i < j ==> Flattens(tensors[i], ws[i], index)
    {
      var t := FromQuantumState(ws[j], registry);
      tensors := tensors + [t];
    }
    InverseIsDistinct(registry.stateToIndex, index);
    OneDirectionSuffices(registry.stateToIndex, index);
    forall j, k | 0 <= j < |ws| && 0 <= k < |ws|
      ensures InnerProduct(tensors[j], tensors[k]) == Ok(Overlap(ws[j], ws[k]))
    {
      DenseIsSparse(tensors[j], tensors[k], ws[j], ws[k], index);
    }
  }
}
