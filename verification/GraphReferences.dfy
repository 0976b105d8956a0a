/** `check_references` and `is_forward`, and what a clean reference check says about cycles. */
module GraphReferences {
  import opened Wrappers
  import opened Text
  import opened DependencyGraph
  import opened GraphFaults

  function LineOf(d: Decl): nat {
    if d.proofLine.Some? then d.proofLine.value else if d.specLine.Some? then d.specLine.value else 0
  }

  /** Is `b` declared later than `a`? Only within one file. */
  predicate IsForward(a: Decl, b: Decl) {
    if a.proofLine.Some? && b.proofLine.Some? then b.proofLine.value > a.proofLine.value
    else
      a.specLine.Some? && b.specLine.Some? && a.proofLine.None? && b.proofLine.None? &&
      b.specLine.value > a.specLine.value
  }

  predicate ForwardRef(g: seq<Decl>, index: Index, i: nat, k: nat)
    requires i < |g| && k < |g[i].deps|
  {
    var t := Target(g, index, i, k);
    t.Some? && t.value < |g| && IsForward(g[i], g[t.value])
  }

  predicate SameFile(a: Decl, b: Decl) { a.proofLine.Some? <==> b.proofLine.Some? }

  /** Among declarations that have a line, forward means a later line of the same file. */
  lemma ForwardIsLaterLine(a: Decl, b: Decl)
    requires (a.proofLine.Some? || a.specLine.Some?) && (b.proofLine.Some? || b.specLine.Some?)
    ensures IsForward(a, b) <==> SameFile(a, b) && LineOf(a) < LineOf(b)
  {
  }

  /** Reference `k` of declaration `i` points to a later line of its file. */
  predicate PointsLater(g: seq<Decl>, index: Index, i: nat, k: nat)
    requires i < |g| && k < |g[i].deps|
  {
    var t := Target(g, index, i, k);
    t.Some? && t.value < |g| && SameFile(g[i], g[t.value]) && LineOf(g[i]) < LineOf(g[t.value])
  }

  function ForwardFault(g: seq<Decl>, index: Index, i: nat, k: nat): Fault
    requires i < |g| && k < |g[i].deps| && ForwardRef(g, index, i, k)
  {
    Fault(Forward, g[i].name,
      "uses `" + g[i].deps[k] + "`, declared later (line " + Decimal(LineOf(g[Target(g, index, i, k).value])) + ")")
  }

  function UnknownFault(node: string, dep: string, hasImports: bool): Fault {
    Fault(if hasImports then External else Unresolved, node,
      "uses `" + dep + "`, which neither file declares" +
      (if hasImports then " — it must come from an imported module" else ""))
  }

  ghost predicate ReferenceFault(g: seq<Decl>, index: Index, unknown: seq<seq<string>>, hasImports: bool, f: Fault)
    requires |unknown| == |g|
  {
    || (exists i, k :: 0 <= i < |g| && 0 <= k < |unknown[i]| && f == UnknownFault(g[i].name, unknown[i][k], hasImports))
    || (exists i, k ::
          0 <= i < |g| && 0 <= k < |g[i].deps| && ForwardRef(g, index, i, k) && f == ForwardFault(g, index, i, k))
  }

  ghost predicate NoForward(g: seq<Decl>, index: Index) {
    forall u: nat, v: nat :: Edge(g, index, u, v) ==> !IsForward(g[u], g[v])
  }

  /** Every declaration is in the proof file, or none is and all are in the spec. */
  ghost predicate OneFile(g: seq<Decl>) {
    (forall i :: 0 <= i < |g| ==> g[i].proofLine.Some?) ||
    (forall i :: 0 <= i < |g| ==> g[i].proofLine.None? && g[i].specLine.Some?)
  }

  lemma {:induction false} LinesFall(g: seq<Decl>, index: Index, c: seq<nat>)
    requires OneFile(g) && NoForward(g, index) && IsChain(g, index, c)
    ensures forall i :: 0 <= i < |c| ==> c[i] < |g|
    ensures forall i :: 0 <= i < |c| ==> LineOf(g[c[|c| - 1]]) <= LineOf(g[c[i]]) <= LineOf(g[c[0]])
    decreases |c|
  {
    if |c| > 1 {
      assert Edge(g, index, c[0], c[1]);
      assert !IsForward(g[c[0]], g[c[1]]);
      var rest := c[1..];
      LinesFall(g, index, rest);
      assert forall i :: 1 <= i < |c| ==> c[i] == rest[i - 1];
    }
  }

  /** In one file with no forward reference, a cycle stays on a single line. */
  lemma CyclesStayOnOneLine(g: seq<Decl>, index: Index, c: seq<nat>)
    requires OneFile(g) && NoForward(g, index) && IsCycle(g, index, c)
    ensures forall i :: 0 <= i < |c| ==> c[i] < |g| && LineOf(g[c[i]]) == LineOf(g[c[0]])
  {
    LinesFall(g, index, c);
    assert !IsForward(g[c[|c| - 1]], g[c[0]]);
  }

  /** So with one declaration a line and no self reference, the reference check rules out cycles. */
  lemma NoForwardNoCycle(g: seq<Decl>, index: Index)
    requires OneFile(g) && NoForward(g, index)
    requires DistinctLines(g) && NoSelfReference(g, index)
    ensures Acyclic(g, index)
  {
    forall c
      ensures !IsCycle(g, index, c)
    {
      if IsCycle(g, index, c) {
        assert |c| > 1 ==> Edge(g, index, c[0], c[1]);
        CyclesStayOnOneLine(g, index, c);
      }
    }
  }

  ghost predicate DistinctLines(g: seq<Decl>) {
    forall i, j :: 0 <= i < j < |g| ==> LineOf(g[i]) != LineOf(g[j])
  }

  /** Every declaration comes from at least one file. */
  ghost predicate EachHasALine(g: seq<Decl>) {
    forall i :: 0 <= i < |g| ==> g[i].proofLine.Some? || g[i].specLine.Some?
  }

  /** The same declarations, at the same lines, with other references. */
  ghost predicate SameLayout(g: seq<Decl>, h: seq<Decl>) {
    |h| == |g| && forall i :: 0 <= i < |g| ==>
      h[i].name == g[i].name && h[i].proofLine == g[i].proofLine && h[i].specLine == g[i].specLine
  }

  ghost predicate NoSelfReference(g: seq<Decl>, index: Index) {
    forall u: nat :: !Edge(g, index, u, u)
  }

  /** A cycle that the reference check does not see. */
  ghost predicate UnseenCycle(g: seq<Decl>, index: Index, c: seq<nat>) {
    Indexed(g, index) && NoForward(g, index) && IsCycle(g, index, c) && NoSelfReference(g, index)
  }

  /** Declaration `i` refers to `j` and `j` to `i`; nothing else refers to anything. */
  function Paired(g: seq<Decl>, i: nat, j: nat): seq<Decl>
    requires i < |g| && j < |g|
  {
    seq(|g|, k requires 0 <= k < |g| =>
      g[k].(deps := if k == i then [g[j].name] else if k == j then [g[i].name] else []))
  }

  lemma PairedEdges(g: seq<Decl>, index: Index, i: nat, j: nat)
    requires Indexed(g, index) && i < |g| && j < |g| && i != j
    ensures Indexed(Paired(g, i, j), index) && SameLayout(g, Paired(g, i, j))
    ensures forall u: nat, v: nat :: Edge(Paired(g, i, j), index, u, v) <==> (u == i && v == j) || (u == j && v == i)
  {
    var h := Paired(g, i, j);
    forall u: nat, v: nat
      ensures Edge(h, index, u, v) <==> (u == i && v == j) || (u == j && v == i)
    {
      if u == i { assert Target(h, index, u, 0) == Some(j); }
      if u == j { assert Target(h, index, u, 0) == Some(i); }
    }
  }

  /** Two declarations neither of which is later than the other hide a cycle. */
  lemma PairedIsUnseen(g: seq<Decl>, index: Index, i: nat, j: nat)
    requires Indexed(g, index) && i < |g| && j < |g| && i != j && !IsForward(g[i], g[j]) && !IsForward(g[j], g[i])
    ensures UnseenCycle(Paired(g, i, j), index, [i, j]) && SameLayout(g, Paired(g, i, j))
  {
    PairedEdges(g, index, i, j);
    hide Edge, Indexed;
    var h := Paired(g, i, j);
    assert Edge(h, index, i, j) && Edge(h, index, j, i);
    forall u: nat, v: nat | Edge(h, index, u, v) ensures !IsForward(h[u], h[v]) {
      assert (u == i && v == j) || (u == j && v == i);
    }
  }

  /** Outside one file with one declaration a line there are two such declarations. */
  lemma UnorderedPair(g: seq<Decl>) returns (i: nat, j: nat)
    requires EachHasALine(g) && !(OneFile(g) && DistinctLines(g))
    ensures i < |g| && j < |g| && i != j && !IsForward(g[i], g[j]) && !IsForward(g[j], g[i])
  {
    if OneFile(g) {
      i, j :| 0 <= i < j < |g| && LineOf(g[i]) == LineOf(g[j]);
    } else {
      i :| 0 <= i < |g| && g[i].proofLine.Some?;
      j :| 0 <= j < |g| && g[j].proofLine.None?;
    }
  }

  /** A clean reference check rules out cycles, whatever the declarations refer to, exactly
      when they come from one file with one declaration a line. */
  lemma ForwardCheckSuffices(g: seq<Decl>, index: Index)
    requires Indexed(g, index) && EachHasALine(g)
    ensures OneFile(g) && DistinctLines(g) <==>
      forall h :: SameLayout(g, h) && NoForward(h, index) && NoSelfReference(h, index) ==> Acyclic(h, index)
  {
    if OneFile(g) && DistinctLines(g) {
      forall h | SameLayout(g, h) && NoForward(h, index) && NoSelfReference(h, index)
        ensures Acyclic(h, index)
      {
        assert forall i :: 0 <= i < |g| ==> LineOf(h[i]) == LineOf(g[i]);
        hide Edge, Acyclic, Indexed, LineOf;
        NoForwardNoCycle(h, index);
      }
    } else {
      var i, j := UnorderedPair(g);
      PairedIsUnseen(g, index, i, j);
      var h := Paired(g, i, j);
      assert IsCycle(h, index, [i, j]);
      assert SameLayout(g, h) && NoForward(h, index) && NoSelfReference(h, index) && !Acyclic(h, index);
    }
  }

  /** Two declarations on one line, and two of different files, are the smallest cases. */
  lemma ForwardCheckHasGaps()
    ensures exists g, index, c :: UnseenCycle(g, index, c) && OneFile(g)
    ensures exists g, index, c :: UnseenCycle(g, index, c) && DistinctLines(g)
  {
    var a, shared, other := Decl("a", None, Some(1), []), Decl("b", None, Some(1), []), Decl("b", Some(2), None, []);
    assert "a"[0] != "b"[0];
    var index: Index := map["a" := 0, "b" := 1];
    PairedIsUnseen([a, shared], index, 0, 1);
    PairedIsUnseen([a, other], index, 0, 1);
    assert OneFile(Paired([a, shared], 0, 1)) && DistinctLines(Paired([a, other], 0, 1));
  }

  method ReferencesOf(decls: seq<Decl>, index: Index, i: nat, unknown: seq<string>, hasImports: bool)
    returns (found: seq<Fault>)
    requires Indexed(decls, index) && i < |decls|
    ensures forall f :: f in found ==>
      (exists k :: 0 <= k < |unknown| && f == UnknownFault(decls[i].name, unknown[k], hasImports)) ||
      (exists k :: 0 <= k < |decls[i].deps| && ForwardRef(decls, index, i, k) && f == ForwardFault(decls, index, i, k))
    ensures forall k :: 0 <= k < |unknown| ==> UnknownFault(decls[i].name, unknown[k], hasImports) in found
    ensures forall k :: 0 <= k < |decls[i].deps| && ForwardRef(decls, index, i, k) ==>
        ForwardFault(decls, index, i, k) in found
    ensures EachHasALine(decls) ==>
      ((exists f :: f in found && f.kind == Forward) <==>
          exists k :: 0 <= k < |decls[i].deps| && PointsLater(decls, index, i, k))
  {
    hide UnknownFault, ForwardFault, Indexed;
    found := [];
    for m := 0 to |unknown|
      invariant forall f ::
          f in found ==> exists k :: 0 <= k < |unknown| && f == UnknownFault(decls[i].name, unknown[k], hasImports)
      invariant forall k :: 0 <= k < m ==> UnknownFault(decls[i].name, unknown[k], hasImports) in found
    {
      found := found + [UnknownFault(decls[i].name, unknown[m], hasImports)];
    }
    for m := 0 to |decls[i].deps|
      invariant forall f :: f in found ==>
        (exists k :: 0 <= k < |unknown| && f == UnknownFault(decls[i].name, unknown[k], hasImports)) ||
        (exists k :: 0 <= k < |decls[i].deps| && ForwardRef(decls, index, i, k) &&
            f == ForwardFault(decls, index, i, k))
      invariant forall k :: 0 <= k < |unknown| ==> UnknownFault(decls[i].name, unknown[k], hasImports) in found
      invariant forall k :: 0 <= k < m && ForwardRef(decls, index, i, k) ==> ForwardFault(decls, index, i, k) in found
    {
      if ForwardRef(decls, index, i, m) {
        found := found + [ForwardFault(decls, index, i, m)];
      }
    }
    if EachHasALine(decls) { ForwardFound(decls, index, i, unknown, hasImports, found); }
  }

  /** A Forward fault is found exactly when some reference points to a later line. */
  lemma ForwardFound(g: seq<Decl>, index: Index, i: nat, unknown: seq<string>, hasImports: bool, found: seq<Fault>)
    requires i < |g| && EachHasALine(g)
    requires forall f :: f in found ==>
      (exists k :: 0 <= k < |unknown| && f == UnknownFault(g[i].name, unknown[k], hasImports)) ||
      (exists k :: 0 <= k < |g[i].deps| && ForwardRef(g, index, i, k) && f == ForwardFault(g, index, i, k))
    requires forall k :: 0 <= k < |g[i].deps| && ForwardRef(g, index, i, k) ==> ForwardFault(g, index, i, k) in found
    ensures (exists f :: f in found && f.kind == Forward) <==>
      exists k :: 0 <= k < |g[i].deps| && PointsLater(g, index, i, k)
  {
    forall k | 0 <= k < |g[i].deps| ensures ForwardRef(g, index, i, k) <==> PointsLater(g, index, i, k) {
      var t := Target(g, index, i, k);
      if t.Some? && t.value < |g| { ForwardIsLaterLine(g[i], g[t.value]); }
    }
    forall k | 0 <= k < |unknown| ensures UnknownFault(g[i].name, unknown[k], hasImports).kind != Forward {
    }
    forall k | 0 <= k < |g[i].deps| && ForwardRef(g, index, i, k)
      ensures ForwardFault(g, index, i, k).kind == Forward
    {
    }
    hide UnknownFault, ForwardFault, ForwardRef, PointsLater;
    if k :| 0 <= k < |g[i].deps| && PointsLater(g, index, i, k) {
      assert ForwardFault(g, index, i, k) in found;
    }
  }
}
