/** `Graph` and the passes that append to its faults. */
module GraphPasses {
  import opened Wrappers
  import opened Text
  import opened DependencyGraph
  import opened GraphFaults
  import opened GraphCycles
  import opened GraphReferences
  import GraphBuild

  class Graph {
    var decls: seq<Decl>
    var imports: seq<string>
    var faults: seq<Fault>

    constructor (decls: seq<Decl>, imports: seq<string>)
      ensures this.decls == decls && this.imports == imports && faults == []
    {
      this.decls, this.imports, faults := decls, imports, [];
    }

    /** Iterative depth-first search; exact on every graph. */
    method CheckCycles(index: Index)
      requires Indexed(decls, index)
      modifies this`faults
      ensures old(faults) <= faults
      ensures CycleReport(decls, index, faults[|old(faults)|..])
    {
      hide *;
      var found := FindCycles(decls, index);
      var kept := WithoutRepeats(found);
      ghost var at :| FirstAppearances(found, at) && Picked(found, at, kept);
      KeptFaults(decls, index, found, at, kept);
      faults := faults + kept;
      assert faults[|old(faults)|..] == kept;
    }

    /** Unknown names, and references to a declaration that appears later. */
    method CheckReferences(index: Index, unknown: seq<seq<string>>)
      requires Indexed(decls, index) && |unknown| == |decls|
      modifies this`faults
      ensures old(faults) <= faults
      ensures var extra := faults[|old(faults)|..];
        && (forall f :: f in extra ==> ReferenceFault(decls, index, unknown, imports != [], f))
        && (forall i, k :: 0 <= i < |decls| && 0 <= k < |unknown[i]| ==>
            UnknownFault(decls[i].name, unknown[i][k], imports != []) in extra)
        && (forall i, k :: 0 <= i < |decls| && 0 <= k < |decls[i].deps| && ForwardRef(decls, index, i, k) ==>
            ForwardFault(decls, index, i, k) in extra)
    {
      var hasImports := imports != [];
      var extra: seq<Fault> := [];
      for i := 0 to |decls|
        invariant faults == old(faults)
        invariant forall f :: f in extra ==> ReferenceFault(decls, index, unknown, hasImports, f)
        invariant forall a, k ::
            0 <= a < i && 0 <= k < |unknown[a]| ==> UnknownFault(decls[a].name, unknown[a][k], hasImports) in extra
        invariant forall a, k ::
            0 <= a < i && 0 <= k < |decls[a].deps| && ForwardRef(decls, index, a, k) ==>
                ForwardFault(decls, index, a, k) in extra
      {
        hide UnknownFault, ForwardFault, ForwardRef;
        var more := ReferencesOf(decls, index, i, unknown[i], hasImports);
        assert forall f :: f in more ==> ReferenceFault(decls, index, unknown, hasImports, f);
        extra := extra + more;
      }
      faults := faults + extra;
      assert faults[|old(faults)|..] == extra;
    }
  }

  ghost predicate HasKind(faults: seq<Fault>, kind: FaultKind) {
    exists i :: 0 <= i < |faults| && faults[i].kind == kind
  }

  /** The fault for a use of a declaration that comes later. */
  function LateFault(proof: seq<GraphBuild.Parsed>, spec: seq<GraphBuild.Parsed>, name: string, id: string): Fault
    requires GraphBuild.LateUse(proof, spec, name, id)
  {
    var line := if GraphBuild.LastLine(proof, id).Some? then GraphBuild.LastLine(proof, id).value
                else GraphBuild.LastLine(spec, id).value;
    Fault(Forward, name, "uses `" + id + "`, declared later (line " + Decimal(line) + ")")
  }

  /** The graph of a submission. Its edges are exactly the uses of one declaration by another,
      and its unknown names exactly those nothing accounts for. A Cycle fault is listed exactly
      when the uses have a cycle; and a submission of one file with one declaration a line that
      shows no Forward fault shows no Cycle fault either. */
  method Build(proof: seq<GraphBuild.Parsed>, spec: seq<GraphBuild.Parsed>, symbols: set<string>, imports: seq<string>)
    returns (g: Graph, ghost index: Index)
    ensures fresh(g) && Indexed(g.decls, index)
    ensures forall name :: name in index <==> GraphBuild.Declared(proof, spec, name)
    ensures forall u: nat, v: nat :: Edge(g.decls, index, u, v) <==>
              u < |g.decls| && v < |g.decls| && GraphBuild.Uses(proof, spec, g.decls[u].name, g.decls[v].name)
    ensures forall name, id :: name in index && GraphBuild.Unaccounted(proof, spec, symbols, name, id) ==>
              UnknownFault(name, id, imports != []) in g.faults
    ensures forall f :: f in g.faults && (f.kind == Unresolved || f.kind == External) ==>
              exists name, id :: name in index && GraphBuild.Unaccounted(proof, spec, symbols, name, id) &&
                  f == UnknownFault(name, id, imports != [])
    ensures HasKind(g.faults, External) <==>
      imports != [] && exists name, id :: name in index && GraphBuild.Unaccounted(proof, spec, symbols, name, id)
    ensures HasKind(g.faults, Unresolved) <==>
      imports == [] && exists name, id :: name in index && GraphBuild.Unaccounted(proof, spec, symbols, name, id)
    ensures forall name, id :: GraphBuild.LateUse(proof, spec, name, id) ==>
              LateFault(proof, spec, name, id) in g.faults
    ensures forall f :: f in g.faults && f.kind == Forward ==>
              exists name, id :: GraphBuild.LateUse(proof, spec, name, id) && f == LateFault(proof, spec, name, id)
    ensures HasKind(g.faults, Forward) <==> exists name, id :: GraphBuild.LateUse(proof, spec, name, id)
    ensures GraphBuild.UsesPointBack(proof, spec) ==> !HasKind(g.faults, Forward)
    ensures HasKind(g.faults, Forward) <==> !NoForward(g.decls, index)
    ensures forall f :: f in g.faults && f.kind == Cycle ==> NamesCycle(g.decls, index, f)
    ensures forall c :: IsCycle(g.decls, index, c) ==> IsTold(g.decls, index, g.faults, c)
    ensures HasKind(g.faults, Cycle) <==> !Acyclic(g.decls, index)
    ensures (proof == [] || spec == []) && DistinctLines(g.decls) && HasKind(g.faults, Cycle) ==>
        HasKind(g.faults, Forward)
  {
    hide *;
    var decls, table, unknown := GraphBuild.Declarations(proof, spec, symbols);
    index := table;
    g := new Graph(decls, imports);
    g.CheckReferences(table, unknown);
    ghost var refs := g.faults;
    g.CheckCycles(table);
    ghost var cycles := g.faults[|refs|..];
    assert g.faults == refs + cycles;
    assert refs == refs[0..];
    FaultKinds(decls, table, unknown, imports, refs, cycles);
    UnknownFaults(decls, table, unknown, imports != [], refs, cycles, proof, spec, symbols);
    UnknownKinds(table, imports != [], refs + cycles, proof, spec, symbols);
    ForwardFaults(decls, table, unknown, imports != [], refs, cycles, proof, spec, symbols);
    ForwardKinds(refs + cycles, proof, spec);
    CycleFaults(decls, table, unknown, imports != [], refs, cycles);
    forall u: nat, v: nat
      ensures Edge(decls, table, u, v) <==>
        u < |decls| && v < |decls| && GraphBuild.Uses(proof, spec, decls[u].name, decls[v].name)
    {
      EdgesAreUses(decls, table, unknown, proof, spec, symbols, u, v);
    }
    OneFileAcyclic(decls, table, unknown, proof, spec, symbols);
  }

  lemma EdgesAreUses(g: seq<Decl>, index: Index, unknown: seq<seq<string>>,
                     proof: seq<GraphBuild.Parsed>, spec: seq<GraphBuild.Parsed>, symbols: set<string>, u: nat, v: nat)
    requires Indexed(g, index) && |unknown| == |g|
    requires forall i :: 0 <= i < |g| ==> GraphBuild.DeclOk(g[i], unknown[i], proof, spec, symbols)
    requires forall name :: name in index <==> GraphBuild.Declared(proof, spec, name)
    ensures Edge(g, index, u, v) <==> u < |g| && v < |g| && GraphBuild.Uses(proof, spec, g[u].name, g[v].name)
  {
    hide GraphBuild.Uses, GraphBuild.Declared, GraphBuild.Unaccounted, GraphBuild.LastLine, GraphBuild.Distinct;
    if u < |g| && v < |g| {
      assert GraphBuild.DeclOk(g[u], unknown[u], proof, spec, symbols);
      if Edge(g, index, u, v) {
        var k :| 0 <= k < |g[u].deps| && Target(g, index, u, k) == Some(v);
        assert g[u].deps[k] in g[u].deps && g[u].deps[k] == g[v].name;
      }
      if GraphBuild.Uses(proof, spec, g[u].name, g[v].name) {
        assert g[v].name in g[u].deps;
        var k :| 0 <= k < |g[u].deps| && g[u].deps[k] == g[v].name;
        assert Target(g, index, u, k) == Some(v);
      }
    }
  }

  lemma OneFileAcyclic(g: seq<Decl>, index: Index, unknown: seq<seq<string>>,
                       proof: seq<GraphBuild.Parsed>, spec: seq<GraphBuild.Parsed>, symbols: set<string>)
    requires Indexed(g, index) && |unknown| == |g|
    requires forall i :: 0 <= i < |g| ==> GraphBuild.DeclOk(g[i], unknown[i], proof, spec, symbols)
    requires forall name :: name in index <==> GraphBuild.Declared(proof, spec, name)
    ensures (proof == [] || spec == []) && DistinctLines(g) && NoForward(g, index) ==> Acyclic(g, index)
  {
    forall u: nat ensures !Edge(g, index, u, u) {
      EdgesAreUses(g, index, unknown, proof, spec, symbols, u, u);
    }
    hide Edge, NoForward, Acyclic, Indexed;
    if (proof == [] || spec == []) && DistinctLines(g) && NoForward(g, index) {
      OneFileOnly(g, unknown, proof, spec, symbols);
      NoForwardNoCycle(g, index);
    }
  }

  /** Faults about unknown names are exactly about the names nothing accounts for. */
  lemma UnknownFaults(g: seq<Decl>, index: Index, unknown: seq<seq<string>>, hasImports: bool, refs: seq<Fault>,
          cycles: seq<Fault>,
                      proof: seq<GraphBuild.Parsed>, spec: seq<GraphBuild.Parsed>, symbols: set<string>)
    requires |unknown| == |g| && Indexed(g, index)
    requires forall i :: 0 <= i < |g| ==> GraphBuild.DeclOk(g[i], unknown[i], proof, spec, symbols)
    requires forall f :: f in refs ==> ReferenceFault(g, index, unknown, hasImports, f)
    requires forall i, k ::
        0 <= i < |g| && 0 <= k < |unknown[i]| ==> UnknownFault(g[i].name, unknown[i][k], hasImports) in refs
    requires CycleReport(g, index, cycles)
    ensures forall name, id :: name in index && GraphBuild.Unaccounted(proof, spec, symbols, name, id) ==>
              UnknownFault(name, id, hasImports) in refs + cycles
    ensures forall f :: f in refs + cycles && (f.kind == Unresolved || f.kind == External) ==>
              exists name, id :: name in index && GraphBuild.Unaccounted(proof, spec, symbols, name, id) &&
                  f == UnknownFault(name, id, hasImports)
  {
    CyclesAreCycles(g, index, cycles);
    hide GraphBuild.Uses, GraphBuild.Declared, GraphBuild.Unaccounted, GraphBuild.LastLine, GraphBuild.Distinct,
        UnknownFault, ForwardFault, ForwardRef, CycleReport;
    forall name, id | name in index && GraphBuild.Unaccounted(proof, spec, symbols, name, id)
      ensures UnknownFault(name, id, hasImports) in refs + cycles
    {
      var i := index[name];
      assert GraphBuild.DeclOk(g[i], unknown[i], proof, spec, symbols) && id in unknown[i];
      var k :| 0 <= k < |unknown[i]| && unknown[i][k] == id;
    }
    forall f | f in refs + cycles && (f.kind == Unresolved || f.kind == External)
      ensures exists name, id ::
          name in index && GraphBuild.Unaccounted(proof, spec, symbols, name, id) &&
              f == UnknownFault(name, id, hasImports)
    {
      assert f in refs || f in cycles;
      UnknownIsReported(g, index, unknown, hasImports, f);
      var i, k :| 0 <= i < |g| && 0 <= k < |unknown[i]| && f == UnknownFault(g[i].name, unknown[i][k], hasImports);
      assert GraphBuild.DeclOk(g[i], unknown[i], proof, spec, symbols) && unknown[i][k] in unknown[i];
      assert g[i].name in index;
    }
  }

  lemma UnknownKinds(index: Index, hasImports: bool, faults: seq<Fault>,
                     proof: seq<GraphBuild.Parsed>, spec: seq<GraphBuild.Parsed>, symbols: set<string>)
    requires forall name, id :: name in index && GraphBuild.Unaccounted(proof, spec, symbols, name, id) ==>
               UnknownFault(name, id, hasImports) in faults
    requires forall f :: f in faults && (f.kind == Unresolved || f.kind == External) ==>
               exists name, id :: name in index && GraphBuild.Unaccounted(proof, spec, symbols, name, id) &&
                   f == UnknownFault(name, id, hasImports)
    ensures HasKind(faults, External) <==>
              hasImports && exists name, id :: name in index && GraphBuild.Unaccounted(proof, spec, symbols, name, id)
    ensures HasKind(faults, Unresolved) <==>
              !hasImports && exists name, id :: name in index && GraphBuild.Unaccounted(proof, spec, symbols, name, id)
  {
    hide GraphBuild.Unaccounted;
    forall name, dep ensures UnknownFault(name, dep, hasImports).kind == if hasImports then External else Unresolved {
    }
    hide UnknownFault;
    forall i | 0 <= i < |faults| && (faults[i].kind == Unresolved || faults[i].kind == External)
      ensures faults[i].kind == (if hasImports then External else Unresolved)
      ensures exists name, id :: name in index && GraphBuild.Unaccounted(proof, spec, symbols, name, id)
    {
      assert faults[i] in faults;
    }
    if name, id :| name in index && GraphBuild.Unaccounted(proof, spec, symbols, name, id) {
      assert UnknownFault(name, id, hasImports) in faults;
    }
  }

  /** Lines of the merged declarations are those of the submission. */
  lemma ForwardIsLate(g: seq<Decl>, index: Index, unknown: seq<seq<string>>,
                      proof: seq<GraphBuild.Parsed>, spec: seq<GraphBuild.Parsed>, symbols: set<string>, u: nat, v: nat)
    requires Indexed(g, index) && |unknown| == |g| && u < |g| && v < |g|
    requires forall i :: 0 <= i < |g| ==> GraphBuild.DeclOk(g[i], unknown[i], proof, spec, symbols)
    ensures IsForward(g[u], g[v]) <==> GraphBuild.DeclaredLater(proof, spec, g[u].name, g[v].name)
    ensures LineOf(g[v]) == if GraphBuild.LastLine(proof, g[v].name).Some?
                            then GraphBuild.LastLine(proof, g[v].name).value
                            else if GraphBuild.LastLine(spec, g[v].name).Some?
                            then GraphBuild.LastLine(spec, g[v].name).value else 0
    ensures GraphBuild.Declared(proof, spec, g[u].name) && GraphBuild.Declared(proof, spec, g[v].name)
  {
    hide GraphBuild.Uses, GraphBuild.Unaccounted, GraphBuild.LastLine, GraphBuild.Distinct, GraphBuild.Declared,
        Indexed;
    assert GraphBuild.DeclOk(g[u], unknown[u], proof, spec, symbols);
    assert GraphBuild.DeclOk(g[v], unknown[v], proof, spec, symbols);
  }

  /** A forward reference is a late use, with the same fault .. */
  lemma ForwardFaultIsLate(g: seq<Decl>, index: Index, unknown: seq<seq<string>>, proof: seq<GraphBuild.Parsed>,
                           spec: seq<GraphBuild.Parsed>, symbols: set<string>, i: nat, k: nat)
    requires Indexed(g, index) && |unknown| == |g|
    requires forall i :: 0 <= i < |g| ==> GraphBuild.DeclOk(g[i], unknown[i], proof, spec, symbols)
    requires forall name :: name in index <==> GraphBuild.Declared(proof, spec, name)
    requires i < |g| && k < |g[i].deps| && ForwardRef(g, index, i, k)
    ensures GraphBuild.LateUse(proof, spec, g[i].name, g[i].deps[k])
    ensures ForwardFault(g, index, i, k) == LateFault(proof, spec, g[i].name, g[i].deps[k])
  {
    var v := Target(g, index, i, k).value;
    assert g[v].name == g[i].deps[k] && Edge(g, index, i, v);
    EdgesAreUses(g, index, unknown, proof, spec, symbols, i, v);
    ForwardIsLate(g, index, unknown, proof, spec, symbols, i, v);
    hide Edge, Indexed, GraphBuild.Uses, GraphBuild.Declared, GraphBuild.LastLine, GraphBuild.DeclOk;
  }

  /** .. and every late use is one. */
  lemma LateUseIsForward(g: seq<Decl>, index: Index, unknown: seq<seq<string>>, proof: seq<GraphBuild.Parsed>,
                         spec: seq<GraphBuild.Parsed>, symbols: set<string>, name: string, id: string)
    requires Indexed(g, index) && |unknown| == |g|
    requires forall i :: 0 <= i < |g| ==> GraphBuild.DeclOk(g[i], unknown[i], proof, spec, symbols)
    requires forall name :: name in index <==> GraphBuild.Declared(proof, spec, name)
    requires GraphBuild.LateUse(proof, spec, name, id)
    ensures exists i, k ::
        0 <= i < |g| && 0 <= k < |g[i].deps| && g[i].name == name && g[i].deps[k] == id && ForwardRef(g, index, i, k)
  {
    var u, v := index[name], index[id];
    EdgesAreUses(g, index, unknown, proof, spec, symbols, u, v);
    ForwardIsLate(g, index, unknown, proof, spec, symbols, u, v);
    hide GraphBuild.Uses, GraphBuild.Declared, GraphBuild.LastLine, GraphBuild.DeclOk, GraphBuild.DeclaredLater,
        IsForward;
    var k :| 0 <= k < |g[u].deps| && Target(g, index, u, k) == Some(v);
    assert g[u].deps[k] == id && ForwardRef(g, index, u, k);
  }

  /** Forward faults are exactly about the late uses of the submission. */
  lemma ForwardFaults(g: seq<Decl>, index: Index, unknown: seq<seq<string>>, hasImports: bool, refs: seq<Fault>,
                      cycles: seq<Fault>, proof: seq<GraphBuild.Parsed>, spec: seq<GraphBuild.Parsed>,
                      symbols: set<string>)
    requires |unknown| == |g| && Indexed(g, index)
    requires forall i :: 0 <= i < |g| ==> GraphBuild.DeclOk(g[i], unknown[i], proof, spec, symbols)
    requires forall name :: name in index <==> GraphBuild.Declared(proof, spec, name)
    requires forall f :: f in refs ==> ReferenceFault(g, index, unknown, hasImports, f)
    requires forall i, k ::
        0 <= i < |g| && 0 <= k < |g[i].deps| && ForwardRef(g, index, i, k) ==> ForwardFault(g, index, i, k) in refs
    requires CycleReport(g, index, cycles)
    ensures forall name, id ::
        GraphBuild.LateUse(proof, spec, name, id) ==> LateFault(proof, spec, name, id) in refs + cycles
    ensures forall f :: f in refs + cycles && f.kind == Forward ==>
              exists name, id :: GraphBuild.LateUse(proof, spec, name, id) && f == LateFault(proof, spec, name, id)
  {
    CyclesAreCycles(g, index, cycles);
    hide *;
    forall name, id | GraphBuild.LateUse(proof, spec, name, id)
      ensures LateFault(proof, spec, name, id) in refs + cycles
    {
      LateUseIsForward(g, index, unknown, proof, spec, symbols, name, id);
      var i, k :| 0 <= i < |g| && 0 <= k < |g[i].deps| && g[i].name == name && g[i].deps[k] == id &&
          ForwardRef(g, index, i, k);
      ForwardFaultIsLate(g, index, unknown, proof, spec, symbols, i, k);
      assert ForwardFault(g, index, i, k) in refs;
    }
    forall f | f in refs + cycles && f.kind == Forward
      ensures exists name, id :: GraphBuild.LateUse(proof, spec, name, id) && f == LateFault(proof, spec, name, id)
    {
      assert f in refs || f in cycles;
      KindOfReference(g, index, unknown, hasImports, f);
      var i, k :| 0 <= i < |g| && 0 <= k < |g[i].deps| && ForwardRef(g, index, i, k) &&
          f == ForwardFault(g, index, i, k);
      ForwardFaultIsLate(g, index, unknown, proof, spec, symbols, i, k);
    }
  }

  lemma CyclesAreCycles(g: seq<Decl>, index: Index, cycles: seq<Fault>)
    requires CycleReport(g, index, cycles)
    ensures forall f :: f in cycles ==> NamesCycle(g, index, f) && f.kind == Cycle
  {
    hide IsCycle, CycleText, Names, IsTold, Acyclic;
  }

  lemma ForwardKinds(faults: seq<Fault>, proof: seq<GraphBuild.Parsed>, spec: seq<GraphBuild.Parsed>)
    requires forall name, id ::
        GraphBuild.LateUse(proof, spec, name, id) ==> LateFault(proof, spec, name, id) in faults
    requires forall f :: f in faults && f.kind == Forward ==>
               exists name, id :: GraphBuild.LateUse(proof, spec, name, id) && f == LateFault(proof, spec, name, id)
    ensures HasKind(faults, Forward) <==> exists name, id :: GraphBuild.LateUse(proof, spec, name, id)
    ensures GraphBuild.UsesPointBack(proof, spec) ==> !HasKind(faults, Forward)
  {
    hide GraphBuild.Uses, GraphBuild.Declared, GraphBuild.LastLine, Decimal;
    if name, id :| GraphBuild.LateUse(proof, spec, name, id) {
      var i :| 0 <= i < |faults| && faults[i] == LateFault(proof, spec, name, id);
      assert faults[i].kind == Forward;
    }
    if i :| 0 <= i < |faults| && faults[i].kind == Forward {
      assert faults[i] in faults;
    }
  }

  /** Cycle faults are those of the cycle check, and the reference check hides none. */
  lemma CycleFaults(g: seq<Decl>, index: Index, unknown: seq<seq<string>>, hasImports: bool, refs: seq<Fault>,
                    cycles: seq<Fault>)
    requires |unknown| == |g| && CycleReport(g, index, cycles)
    requires forall f :: f in refs ==> ReferenceFault(g, index, unknown, hasImports, f)
    ensures forall f :: f in refs + cycles && f.kind == Cycle ==> NamesCycle(g, index, f)
    ensures forall c :: IsCycle(g, index, c) ==> IsTold(g, index, refs + cycles, c)
  {
    hide IsCycle, NamesCycle, ReferenceFault, Tells, Acyclic, Crosses;
    forall f | f in refs ensures f.kind != Cycle { KindOfReference(g, index, unknown, hasImports, f); }
    forall c | IsCycle(g, index, c) ensures IsTold(g, index, refs + cycles, c) {
      ToldIsKept(g, index, refs, cycles, c);
    }
  }

  lemma ToldIsKept(g: seq<Decl>, index: Index, refs: seq<Fault>, cycles: seq<Fault>, c: seq<nat>)
    requires IsTold(g, index, cycles, c)
    ensures IsTold(g, index, refs + cycles, c)
  {
    var m, d :| 0 <= m < |cycles| && Tells(g, index, cycles[m], d) && Crosses(c, d[|d| - 1], d[0]);
    assert (refs + cycles)[|refs| + m] == cycles[m];
  }

  lemma UnknownIsReported(g: seq<Decl>, index: Index, unknown: seq<seq<string>>, hasImports: bool, f: Fault)
    requires |unknown| == |g| && ReferenceFault(g, index, unknown, hasImports, f) &&
        (f.kind == Unresolved || f.kind == External)
    ensures exists i, k ::
        0 <= i < |g| && 0 <= k < |unknown[i]| && f == UnknownFault(g[i].name, unknown[i][k], hasImports)
  {
    hide UnknownFault, ForwardRef;
    forall i, k | 0 <= i < |g| && 0 <= k < |g[i].deps| && ForwardRef(g, index, i, k)
      ensures ForwardFault(g, index, i, k).kind == Forward
    {
      KindOfForward(g, index, i, k);
    }
  }

  lemma OneFileOnly(g: seq<Decl>, unknown: seq<seq<string>>,
                    proof: seq<GraphBuild.Parsed>, spec: seq<GraphBuild.Parsed>, symbols: set<string>)
    requires (proof == [] || spec == []) && |unknown| == |g|
    requires forall i :: 0 <= i < |g| ==> GraphBuild.DeclOk(g[i], unknown[i], proof, spec, symbols)
    ensures OneFile(g)
  {
  }

  lemma KindsConcat(a: seq<Fault>, b: seq<Fault>, kind: FaultKind)
    ensures HasKind(a + b, kind) <==> HasKind(a, kind) || HasKind(b, kind)
  {
    var all := a + b;
    if i :| 0 <= i < |a| && a[i].kind == kind { assert all[i].kind == kind; }
    if i :| 0 <= i < |b| && b[i].kind == kind { assert all[|a| + i].kind == kind; }
  }

  lemma CycleKinds(g: seq<Decl>, index: Index, cycles: seq<Fault>)
    requires CycleReport(g, index, cycles)
    ensures HasKind(cycles, Cycle) <==> !Acyclic(g, index)
    ensures !HasKind(cycles, Forward)
  {
    CyclesAreCycles(g, index, cycles);
    hide NamesCycle, Acyclic, IsCycle, IsTold;
    forall i | 0 <= i < |cycles| ensures cycles[i].kind == Cycle {
      assert cycles[i] in cycles;
    }
    if cycles != [] { assert cycles[0].kind == Cycle; }
  }

  lemma ReferenceKinds(g: seq<Decl>, index: Index, unknown: seq<seq<string>>, hasImports: bool, refs: seq<Fault>)
    requires |unknown| == |g| && Indexed(g, index)
    requires forall f :: f in refs ==> ReferenceFault(g, index, unknown, hasImports, f)
    requires forall i, k ::
        0 <= i < |g| && 0 <= k < |g[i].deps| && ForwardRef(g, index, i, k) ==> ForwardFault(g, index, i, k) in refs
    ensures !HasKind(refs, Cycle)
    ensures HasKind(refs, Forward) <==> !NoForward(g, index)
  {
    hide UnknownFault, ForwardFault, ReferenceFault, Indexed, IsForward;
    forall i | 0 <= i < |refs| ensures refs[i].kind != Cycle {
      assert refs[i] in refs;
      KindOfReference(g, index, unknown, hasImports, refs[i]);
    }
    if !NoForward(g, index) {
      var u: nat, v: nat :| Edge(g, index, u, v) && IsForward(g[u], g[v]);
      var k :| 0 <= k < |g[u].deps| && Target(g, index, u, k) == Some(v);
      assert ForwardRef(g, index, u, k);
      var i :| 0 <= i < |refs| && refs[i] == ForwardFault(g, index, u, k);
      KindOfForward(g, index, u, k);
    }
    if HasKind(refs, Forward) {
      var m :| 0 <= m < |refs| && refs[m].kind == Forward;
      assert refs[m] in refs;
      KindOfReference(g, index, unknown, hasImports, refs[m]);
      var i, k :| 0 <= i < |g| && 0 <= k < |g[i].deps| && ForwardRef(g, index, i, k);
      assert Edge(g, index, i, Target(g, index, i, k).value);
    }
  }

  lemma KindOfForward(g: seq<Decl>, index: Index, i: nat, k: nat)
    requires i < |g| && k < |g[i].deps| && ForwardRef(g, index, i, k)
    ensures ForwardFault(g, index, i, k).kind == Forward
  {
  }

  lemma KindOfReference(g: seq<Decl>, index: Index, unknown: seq<seq<string>>, hasImports: bool, f: Fault)
    requires |unknown| == |g| && ReferenceFault(g, index, unknown, hasImports, f)
    ensures f.kind != Cycle
    ensures f.kind == Forward ==> exists i, k ::
        0 <= i < |g| && 0 <= k < |g[i].deps| && ForwardRef(g, index, i, k) && f == ForwardFault(g, index, i, k)
  {
    hide ForwardRef;
    forall name, dep ensures UnknownFault(name, dep, hasImports).kind == if hasImports then External else Unresolved {
    }
    hide UnknownFault;
    forall i, k | 0 <= i < |g| && 0 <= k < |g[i].deps| && ForwardRef(g, index, i, k)
      ensures ForwardFault(g, index, i, k).kind == Forward
    {
      KindOfForward(g, index, i, k);
    }
  }

  lemma FaultKinds(g: seq<Decl>, index: Index, unknown: seq<seq<string>>, imports: seq<string>, refs: seq<Fault>,
          cycles: seq<Fault>)
    requires |unknown| == |g| && Indexed(g, index)
    requires forall f :: f in refs ==> ReferenceFault(g, index, unknown, imports != [], f)
    requires forall i, k ::
        0 <= i < |g| && 0 <= k < |g[i].deps| && ForwardRef(g, index, i, k) ==> ForwardFault(g, index, i, k) in refs
    requires CycleReport(g, index, cycles)
    ensures HasKind(refs + cycles, Cycle) <==> !Acyclic(g, index)
    ensures HasKind(refs + cycles, Forward) <==> !NoForward(g, index)
  {
    hide *;
    ReferenceKinds(g, index, unknown, imports != [], refs);
    CycleKinds(g, index, cycles);
    KindsConcat(refs, cycles, Cycle);
    KindsConcat(refs, cycles, Forward);
  }
}
