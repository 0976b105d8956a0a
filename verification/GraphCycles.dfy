/** `check_cycles`: an explicit-stack depth-first search, exact on every graph. */
module GraphCycles {
  import opened Wrappers
  import opened Text
  import opened DependencyGraph
  import opened GraphFaults

  // ----- the messages -----

  function Names(g: seq<Decl>, c: seq<nat>): seq<string>
    requires forall i :: 0 <= i < |c| ==> c[i] < |g|
  {
    seq(|c|, i requires 0 <= i < |c| => g[c[i]].name)
  }

  function CycleText(members: seq<string>, dep: string): string {
    Join(members, " → ") + " → `" + dep + "`"
  }

  /** The fault is about a real chain of references that closes on itself. */
  ghost predicate NamesCycle(g: seq<Decl>, index: Index, f: Fault) {
    exists c :: CycleFault(g, index, f, c)
  }

  /** The fault has the kind and the message of the cycle `c`. */
  ghost predicate Tells(g: seq<Decl>, index: Index, f: Fault, c: seq<nat>) {
    && f.kind == Cycle && IsCycle(g, index, c) && (forall i :: 0 <= i < |c| ==> c[i] < |g|)
    && f.detail == CycleText(Names(g, c), g[c[0]].name)
  }

  /** .. and stands at the node whose reference closes it. */
  ghost predicate CycleFault(g: seq<Decl>, index: Index, f: Fault, c: seq<nat>) {
    Tells(g, index, f, c) && f.node == g[c[|c| - 1]].name
  }

  /** Some fault found is that of a cycle whose closing reference is the one from `u` to `v`. */
  ghost predicate Closes(g: seq<Decl>, index: Index, found: seq<Fault>, u: nat, v: nat) {
    exists m, d :: 0 <= m < |found| && CycleFault(g, index, found[m], d) && d[|d| - 1] == u && d[0] == v
  }

  ghost function Closing(g: seq<Decl>, index: Index, found: seq<Fault>): iset<(nat, nat)> {
    iset u: nat, v: nat | Closes(g, index, found, u, v) :: (u, v)
  }

  /** The cycle passes through the closing reference of a fault found. */
  ghost predicate IsHit(g: seq<Decl>, index: Index, found: seq<Fault>, c: seq<nat>) {
    exists m, d :: 0 <= m < |found| && CycleFault(g, index, found[m], d) && Crosses(c, d[|d| - 1], d[0])
  }

  /** The cycle passes through the closing reference of a cycle whose message is listed. */
  ghost predicate IsTold(g: seq<Decl>, index: Index, faults: seq<Fault>, c: seq<nat>) {
    exists m, d :: 0 <= m < |faults| && Tells(g, index, faults[m], d) && Crosses(c, d[|d| - 1], d[0])
  }

  method Position(path: seq<nat>, v: nat) returns (at: nat)
    ensures v in path ==> at < |path| && path[at] == v
    ensures v !in path ==> at == 0
  {
    for i := 0 to |path|
      invariant v !in path[..i]
    {
      if path[i] == v { return i; }
      assert path[..i + 1] == path[..i] + [path[i]];
    }
    assert path[..|path|] == path;
    return 0;
  }

  /** The message of fault `m` appears there for the first time. */
  predicate First(found: seq<Fault>, m: nat)
    requires m < |found|
  {
    forall n :: 0 <= n < m ==> found[n].detail != found[m].detail
  }

  /** `at` lists, in order, exactly the first appearances. */
  ghost predicate FirstAppearances(found: seq<Fault>, at: seq<nat>) {
    && (forall k :: 0 <= k < |at| ==> at[k] < |found| && First(found, at[k]))
    && (forall j, k :: 0 <= j < k < |at| ==> at[j] < at[k])
    && (forall m :: 0 <= m < |found| && First(found, m) ==> m in at)
  }

  /** `kept` is `found` at those places. */
  ghost predicate Picked(found: seq<Fault>, at: seq<nat>, kept: seq<Fault>) {
    |kept| == |at| && forall k :: 0 <= k < |at| ==> at[k] < |found| && kept[k] == found[at[k]]
  }

  /** One fault a message, in order of first appearance. */
  method WithoutRepeats(found: seq<Fault>) returns (kept: seq<Fault>)
    ensures exists at :: FirstAppearances(found, at) && Picked(found, at, kept)
  {
    kept := [];
    ghost var at: seq<nat> := [];
    var seen: set<string> := {};
    for i := 0 to |found|
      invariant |kept| == |at| && forall k ::
          0 <= k < |at| ==> at[k] < i && kept[k] == found[at[k]] && First(found, at[k])
      invariant forall j, k :: 0 <= j < k < |at| ==> at[j] < at[k]
      invariant forall m :: 0 <= m < i && First(found, m) ==> m in at
      invariant forall m :: 0 <= m < i ==> found[m].detail in seen
      invariant forall d :: d in seen ==> exists m :: 0 <= m < i && found[m].detail == d
    {
      if found[i].detail !in seen {
        seen := seen + {found[i].detail};
        kept := kept + [found[i]];
        at := at + [i];
        assert at[|at| - 1] == i;
      }
    }
    assert FirstAppearances(found, at) && Picked(found, at, kept);
  }

  /** So no message comes twice .. */
  lemma FirstsAreDistinct(found: seq<Fault>, at: seq<nat>)
    requires FirstAppearances(found, at)
    ensures forall j, k :: 0 <= j < k < |at| ==> found[at[j]].detail != found[at[k]].detail
  {
    forall j, k | 0 <= j < k < |at| ensures found[at[j]].detail != found[at[k]].detail {
      var a, b := at[j], at[k];
      assert a < b && First(found, b);
    }
  }

  /** .. and none is missing. */
  lemma {:induction false} MessageIsKept(found: seq<Fault>, at: seq<nat>, m: nat) returns (k: nat)
    requires FirstAppearances(found, at) && m < |found|
    ensures k < |at| && at[k] <= m && found[at[k]].detail == found[m].detail
  {
    if First(found, m) {
      k :| 0 <= k < |at| && at[k] == m;
    } else {
      var n :| 0 <= n < m && found[n].detail == found[m].detail;
      k := MessageIsKept(found, at, n);
    }
  }

  /** So a cycle that a fault found hits is told by a fault kept. */
  lemma HitsAreTold(g: seq<Decl>, index: Index, found: seq<Fault>, at: seq<nat>, kept: seq<Fault>, c: seq<nat>)
    requires FirstAppearances(found, at) && Picked(found, at, kept) && IsHit(g, index, found, c)
    requires forall f :: f in found ==> NamesCycle(g, index, f)
    ensures IsTold(g, index, kept, c)
  {
    hide CycleText, Names, Crosses, FirstAppearances, Edge;
    var m, d :| 0 <= m < |found| && CycleFault(g, index, found[m], d) && Crosses(c, d[|d| - 1], d[0]);
    var k := MessageIsKept(found, at, m);
    assert NamesCycle(g, index, found[at[k]]);
    assert Tells(g, index, kept[k], d);
  }

  /** Every fault is a real cycle, every cycle is told, and no message comes twice. */
  ghost predicate CycleReport(g: seq<Decl>, index: Index, faults: seq<Fault>) {
    && (forall f :: f in faults ==> NamesCycle(g, index, f))
    && (forall c :: IsCycle(g, index, c) ==> IsTold(g, index, faults, c))
    && (faults == [] <==> Acyclic(g, index))
    && (forall i, j :: 0 <= i < j < |faults| ==> faults[i].detail != faults[j].detail)
  }

  /** What one fault a message leaves of the faults found. */
  lemma KeptFaults(g: seq<Decl>, index: Index, found: seq<Fault>, at: seq<nat>, kept: seq<Fault>)
    requires FirstAppearances(found, at) && Picked(found, at, kept)
    requires forall f :: f in found ==> NamesCycle(g, index, f)
    requires (forall c :: IsCycle(g, index, c) ==> IsHit(g, index, found, c)) && (found == [] <==> Acyclic(g, index))
    ensures CycleReport(g, index, kept)
  {
    hide Acyclic, IsCycle, IsHit, IsTold, NamesCycle, FirstAppearances;
    FirstsAreDistinct(found, at);
    forall c | IsCycle(g, index, c) ensures IsTold(g, index, kept, c) { HitsAreTold(g, index, found, at, kept, c); }
    forall f | f in kept ensures f in found {
      var k :| 0 <= k < |kept| && kept[k] == f;
      assert found[at[k]] == f;
    }
    if found != [] { var _ := MessageIsKept(found, at, 0); }
    if kept != [] { assert kept[0] == found[at[0]]; }
  }

  // ----- the search -----

  /** The faults found so far are real, and a reference into the stack was followed only if it
      closes the cycle of one of them. */
  ghost predicate SearchInv(g: seq<Decl>, index: Index, state: seq<nat>, frames: seq<Frame>, order: seq<nat>,
          found: seq<Fault>) {
    && DfsInv(g, index, state, frames, order)
    && (forall f :: f in found ==> NamesCycle(g, index, f))
    && CleanInv(g, index, frames, order, Closing(g, index, found))
  }

  lemma StackFacts(g: seq<Decl>, index: Index, state: seq<nat>, frames: seq<Frame>, order: seq<nat>)
    requires DfsInv(g, index, state, frames, order)
    ensures |state| == |g| && forall v :: 0 <= v < |g| ==> state[v] <= DONE && (state[v] == DONE <==> v in order)
    ensures frames != [] ==> Top(frames).node < |g| && Top(frames).next <= |g[Top(frames).node].deps|
    ensures forall v :: 0 <= v < |g| && state[v] == ON_PATH ==> v in Nodes(frames)
    ensures frames != [] ==> state[Top(frames).node] == ON_PATH
    ensures forall name :: name in index ==> index[name] < |g|
  {
    forall v | 0 <= v < |g| && state[v] == ON_PATH
      ensures v in Nodes(frames)
    {
      var i :| 0 <= i < |frames| && frames[i].node == v;
      assert Nodes(frames)[i] == v;
    }
  }

  /** The fault the code reports for a back edge into the path at `from`. */
  lemma BackEdgeFault(g: seq<Decl>, index: Index, state: seq<nat>, frames: seq<Frame>, order: seq<nat>, from: nat)
    requires DfsInv(g, index, state, frames, order) && CanFollow(g, frames) && from < |frames|
    requires Target(g, index, Top(frames).node, Top(frames).next) == Some(frames[from].node)
    ensures forall i :: from <= i < |frames| ==> frames[i].node < |g|
    ensures CycleFault(g, index,
      Fault(Cycle, g[Top(frames).node].name, CycleText(Names(g, Nodes(frames)[from..]),
          g[Top(frames).node].deps[Top(frames).next])), Nodes(frames)[from..])
  {
    BackEdgeIsCycle(g, index, state, frames, order, from);
    StackEdges(g, index, state, frames, order);
    assert Top(frames).node < |g| && Top(frames).next < |g[Top(frames).node].deps|;
    hide DfsInv, CanFollow, Target, Indexed, IsCycle, Edge, CycleText, Names;
    var c := Nodes(frames)[from..];
    assert forall i :: 0 <= i < |c| ==> c[i] == frames[from + i].node;
  }

  lemma ClosingGrows(g: seq<Decl>, index: Index, found: seq<Fault>, f: Fault, d: seq<nat>)
    requires CycleFault(g, index, f, d)
    ensures Closing(g, index, found) <= Closing(g, index, found + [f])
    ensures (d[|d| - 1], d[0]) in Closing(g, index, found + [f])
  {
    hide CycleText, Names, Edge;
    var more := found + [f];
    forall u: nat, v: nat | Closes(g, index, found, u, v) ensures Closes(g, index, more, u, v) {
      var m, e :| 0 <= m < |found| && CycleFault(g, index, found[m], e) && e[|e| - 1] == u && e[0] == v;
      assert more[m] == found[m];
    }
    assert more[|found|] == f && CycleFault(g, index, more[|found|], d);
    assert Closes(g, index, more, d[|d| - 1], d[0]);
  }

  /** Every cycle is hit, and so nothing is found only on an acyclic graph. */
  lemma CyclesAreHit(g: seq<Decl>, index: Index, found: seq<Fault>, order: seq<nat>)
    requires Ordered(g, index, order, Closing(g, index, found)) && forall v: nat :: v < |g| ==> v in order
    ensures forall c :: IsCycle(g, index, c) ==> IsHit(g, index, found, c)
  {
    forall c | IsCycle(g, index, c) ensures IsHit(g, index, found, c) {
      OrderedCutsCycles(g, index, order, Closing(g, index, found), c);
      var u: nat, v: nat :| (u, v) in Closing(g, index, found) && Crosses(c, u, v);
      assert Closes(g, index, found, u, v);
    }
  }

  lemma FaultsOrNoCycle(g: seq<Decl>, index: Index, found: seq<Fault>)
    requires forall f :: f in found ==> NamesCycle(g, index, f)
    requires forall c :: IsCycle(g, index, c) ==> IsHit(g, index, found, c)
    ensures found == [] <==> Acyclic(g, index)
  {
    if found != [] {
      hide CycleText, Names, IsCycle;
      assert NamesCycle(g, index, found[0]);
      var c :| CycleFault(g, index, found[0], c);
      assert IsCycle(g, index, c);
    }
  }

  method FindCycles(decls: seq<Decl>, index: Index) returns (found: seq<Fault>)
    requires Indexed(decls, index)
    ensures forall f :: f in found ==> NamesCycle(decls, index, f)
    ensures forall c :: IsCycle(decls, index, c) ==> IsHit(decls, index, found, c)
    ensures found == [] <==> Acyclic(decls, index)
  {
    var n := |decls|;
    var state := new nat[n](_ => WHITE);
    ghost var order: seq<nat> := [];
    found := [];
    assert state[..] == seq(n, _ => WHITE);
    for start := 0 to n
      invariant SearchInv(decls, index, state[..], [], order, found)
      invariant forall v :: 0 <= v < start ==> state[v] == DONE
    {
      StackFacts(decls, index, state[..], [], order);
      hide SearchInv;
      if state[start] != WHITE { continue; }
      found, order := Search(decls, index, state, start, found, order);
    }
    StackFacts(decls, index, state[..], [], order);
    CyclesAreHit(decls, index, found, order);
    FaultsOrNoCycle(decls, index, found);
  }

  lemma RootKeepsSearch(g: seq<Decl>, index: Index, state: seq<nat>, order: seq<nat>, found: seq<Fault>, start: nat)
    requires SearchInv(g, index, state, [], order, found) && start < |g| == |state| && state[start] == WHITE
    ensures SearchInv(g, index, state[start := ON_PATH], [Frame(start, 0)], order, found)
  {
    PushKeepsInv(g, index, state, [], order, start);
    assert [] + [Frame(start, 0)] == [Frame(start, 0)];
  }

  /** The search from one root: the inner loop. */
  method Search(decls: seq<Decl>, index: Index, state: array<nat>, start: nat, before: seq<Fault>,
          ghost finished: seq<nat>)
    returns (found: seq<Fault>, ghost order: seq<nat>)
    requires state.Length == |decls| && start < |decls| && state[start] == WHITE
    requires SearchInv(decls, index, state[..], [], finished, before)
    modifies state
    ensures SearchInv(decls, index, state[..], [], order, found)
    ensures state[start] == DONE && forall v :: 0 <= v < |decls| && old(state[v]) == DONE ==> state[v] == DONE
  {
    hide SearchInv, DfsInv, CleanInv, White;
    found, order := before, finished;
    RootKeepsSearch(decls, index, state[..], order, found, start);
    ghost var s0 := state[..];
    state[start] := ON_PATH;
    var path := [start];
    var frames := [Frame(start, 0)];
    assert state[..] == s0[start := ON_PATH];
    while frames != []
      invariant SearchInv(decls, index, state[..], frames, order, found) && path == Nodes(frames)
      invariant forall v :: 0 <= v < |decls| && old(state[v]) == DONE ==> state[v] == DONE
      invariant if frames == [] then state[start] == DONE else frames[0].node == start
      decreases White(state[..]), |frames|, Remaining(decls, frames)
    {
      SearchFacts(decls, index, state[..], frames, order, found);
      var u, k := Top(frames).node, Top(frames).next;
      if k < |decls[u].deps| {
        frames, path, found := Follow(decls, index, state, frames, path, found, order);
      } else {
        order := Finish(decls, index, state, frames, found, order);
        frames := frames[..|frames| - 1];
        path := path[..|path| - 1];
      }
    }
  }

  function Remaining(g: seq<Decl>, frames: seq<Frame>): int {
    if frames != [] && Top(frames).node < |g| then |g[Top(frames).node].deps| - Top(frames).next else 0
  }

  lemma SearchFacts(g: seq<Decl>, index: Index, state: seq<nat>, frames: seq<Frame>, order: seq<nat>, found: seq<Fault>)
    requires SearchInv(g, index, state, frames, order, found)
    ensures DfsInv(g, index, state, frames, order) && |state| == |g|
    ensures forall v :: 0 <= v < |g| ==> state[v] <= DONE
    ensures frames != [] ==> Top(frames).node < |g| && Top(frames).next <= |g[Top(frames).node].deps|
    ensures frames != [] ==> state[Top(frames).node] == ON_PATH
    ensures forall v :: 0 <= v < |g| && state[v] == ON_PATH ==> v in Nodes(frames)
    ensures forall name :: name in index ==> index[name] < |g|
  {
    StackFacts(g, index, state, frames, order);
  }

  lemma SkipKeepsSearch(g: seq<Decl>, index: Index, state: seq<nat>, frames: seq<Frame>, order: seq<nat>,
          found: seq<Fault>)
    requires SearchInv(g, index, state, frames, order, found) && CanFollow(g, frames)
    requires var t := Target(g, index, Top(frames).node, Top(frames).next);
        t.Some? ==> t.value < |state| && state[t.value] == DONE
    ensures SearchInv(g, index, state, Advanced(frames), order, found)
  {
    StackFacts(g, index, state, frames, order);
    AdvanceKeepsInv(g, index, state, frames, order);
    hide DfsInv, CleanInv, NamesCycle, Closing;
    AdvanceKeepsClean(g, index, frames, order, Closing(g, index, found));
  }

  lemma DescendKeepsSearch(g: seq<Decl>, index: Index, state: seq<nat>, frames: seq<Frame>, order: seq<nat>,
          found: seq<Fault>, v: nat)
    requires SearchInv(g, index, state, frames, order, found) && CanFollow(g, frames)
    requires Target(g, index, Top(frames).node, Top(frames).next) == Some(v) && v < |g| && v < |state| &&
        state[v] == WHITE
    ensures SearchInv(g, index, state[v := ON_PATH], Advanced(frames) + [Frame(v, 0)], order, found)
    ensures White(state[v := ON_PATH]) < White(state)
  {
    DescendKeepsInv(g, index, state, frames, order, v);
    hide DfsInv, CleanInv, NamesCycle, White, Closing;
    DescendKeepsClean(g, index, frames, order, Closing(g, index, found), v);
  }

  lemma ReportKeepsSearch(g: seq<Decl>, index: Index, state: seq<nat>, frames: seq<Frame>, order: seq<nat>,
          found: seq<Fault>, f: Fault, d: seq<nat>)
    requires SearchInv(g, index, state, frames, order, found) && CanFollow(g, frames)
    requires CycleFault(g, index, f, d) && d[|d| - 1] == Top(frames).node
    requires Target(g, index, Top(frames).node, Top(frames).next) == Some(d[0])
    ensures SearchInv(g, index, state, Advanced(frames), order, found + [f])
  {
    AdvanceKeepsInv(g, index, state, frames, order);
    assert NamesCycle(g, index, f);
    ClosingGrows(g, index, found, f, d);
    hide DfsInv, CleanInv, NamesCycle, Closing, CycleFault;
    var more := Closing(g, index, found + [f]);
    CutGrows(g, index, frames, order, Closing(g, index, found), more);
    AdvanceKeepsClean(g, index, frames, order, more);
  }

  /** Follow the next reference of the top node. */
  method Follow(decls: seq<Decl>, index: Index, state: array<nat>, frames: seq<Frame>, path: seq<nat>,
          before: seq<Fault>, ghost order: seq<nat>)
    returns (frames': seq<Frame>, path': seq<nat>, found: seq<Fault>)
    requires state.Length == |decls| && CanFollow(decls, frames) && path == Nodes(frames)
    requires SearchInv(decls, index, state[..], frames, order, before)
    modifies state
    ensures SearchInv(decls, index, state[..], frames', order, found) && path' == Nodes(frames')
    ensures frames' != [] && frames'[0].node == frames[0].node
    ensures forall v :: 0 <= v < |decls| && old(state[v]) == DONE ==> state[v] == DONE
    ensures White(state[..]) < White(old(state[..])) ||
      (White(state[..]) == White(old(state[..])) && |frames'| == |frames| &&
          Remaining(decls, frames') < Remaining(decls, frames))
  {
    ghost var s := state[..];
    hide *;
    SearchFacts(decls, index, s, frames, order, before);
    FollowFacts(decls, index, frames);
    var u, k := frames[|frames| - 1].node, frames[|frames| - 1].next;
    var dep := decls[u].deps[k];
    frames', path', found := frames[..|frames| - 1] + [Frame(u, k + 1)], path, before;
    if dep !in index {
      SkipKeepsSearch(decls, index, s, frames, order, found);
      return;
    }
    var v := index[dep];
    if state[v] == WHITE {
      DescendKeepsSearch(decls, index, s, frames, order, found, v);
      PathGrows(frames', v);
      state[v] := ON_PATH;
      assert state[..] == s[v := ON_PATH];
      frames', path' := frames' + [Frame(v, 0)], path' + [v];
    } else if state[v] == ON_PATH {
      var from := Position(path, v);
      BackEdgeFault(decls, index, s, frames, order, from);
      var fault := Fault(Cycle, decls[u].name, CycleText(Names(decls, path[from..]), dep));
      PathEnds(frames, from);
      ReportKeepsSearch(decls, index, s, frames, order, found, fault, path[from..]);
      found := found + [fault];
    } else {
      SkipKeepsSearch(decls, index, s, frames, order, found);
    }
  }

  lemma FollowFacts(g: seq<Decl>, index: Index, frames: seq<Frame>)
    requires CanFollow(g, frames)
    ensures frames != [] && Top(frames) == frames[|frames| - 1] && Top(frames).node < |g| &&
        Top(frames).next < |g[Top(frames).node].deps|
    ensures Advanced(frames) == frames[..|frames| - 1] + [Frame(Top(frames).node, Top(frames).next + 1)]
    ensures Nodes(Advanced(frames)) == Nodes(frames) && Remaining(g, Advanced(frames)) < Remaining(g, frames)
    ensures var dep := g[Top(frames).node].deps[Top(frames).next];
            Target(g, index, Top(frames).node, Top(frames).next) == if dep in index then Some(index[dep]) else None
  {
  }

  lemma PathGrows(frames: seq<Frame>, v: nat)
    ensures Nodes(frames + [Frame(v, 0)]) == Nodes(frames) + [v]
  {
  }

  method Finish(decls: seq<Decl>, index: Index, state: array<nat>, frames: seq<Frame>, found: seq<Fault>,
          ghost order: seq<nat>)
    returns (ghost order': seq<nat>)
    requires state.Length == |decls| && frames != [] && Top(frames).node < |decls| && !CanFollow(decls, frames)
    requires SearchInv(decls, index, state[..], frames, order, found)
    modifies state
    ensures SearchInv(decls, index, state[..], frames[..|frames| - 1], order', found)
    ensures state[Top(frames).node] == DONE && White(state[..]) == White(old(state[..]))
    ensures forall v :: 0 <= v < |decls| && old(state[v]) == DONE ==> state[v] == DONE
  {
    var u := Top(frames).node;
    ghost var s := state[..];
    FinishKeepsInv(decls, index, s, frames, order, Closing(decls, index, found));
    hide DfsInv, CleanInv, White, Closing;
    state[u] := DONE;
    assert state[..] == s[u := DONE];
    order' := order + [u];
  }
}
