/** `layers`: longest-path layering by the same explicit-stack search, on graphs
    that may have cycles. */
module GraphLayers {
  import opened Wrappers
  import opened DependencyGraph

  // ----- the independent definition -----

  ghost predicate ChainFrom(g: seq<Decl>, index: Index, u: nat, c: seq<nat>, edges: nat) {
    IsChain(g, index, c) && c[0] == u && |c| == edges + 1
  }

  ghost predicate HasChain(g: seq<Decl>, index: Index, u: nat, edges: nat) {
    exists c :: ChainFrom(g, index, u, c, edges)
  }

  /** `l` is the length of the longest dependency chain from `u`. */
  ghost predicate Longest(g: seq<Decl>, index: Index, u: nat, l: nat) {
    HasChain(g, index, u, l) && forall c, e: nat :: ChainFrom(g, index, u, c, e) ==> e <= l
  }

  ghost predicate StrictlyLayered(g: seq<Decl>, index: Index, layer: seq<nat>) {
    |layer| == |g| && forall u, v :: 0 <= u < |g| && 0 <= v < |g| && Edge(g, index, u, v) ==> layer[v] < layer[u]
  }

  lemma {:induction false} ChainIsBounded(g: seq<Decl>, index: Index, layer: seq<nat>, c: seq<nat>)
    requires StrictlyLayered(g, index, layer) && IsChain(g, index, c)
    ensures c[|c| - 1] < |g| && layer[c[|c| - 1]] + |c| - 1 <= layer[c[0]]
    decreases |c|
  {
    if |c| > 1 {
      assert Edge(g, index, c[0], c[1]);
      ChainIsBounded(g, index, layer, c[1..]);
    }
  }

  /** Falling layers leave no room for a cycle. */
  lemma StrictlyLayeredIsAcyclic(g: seq<Decl>, index: Index, layer: seq<nat>)
    requires StrictlyLayered(g, index, layer)
    ensures Acyclic(g, index)
  {
    forall c
      ensures !IsCycle(g, index, c)
    {
      if IsCycle(g, index, c) { ChainIsBounded(g, index, layer, c); }
    }
  }

  lemma StrictlyLayeredIsLongest(g: seq<Decl>, index: Index, layer: seq<nat>, u: nat)
    requires StrictlyLayered(g, index, layer) && u < |g| && HasChain(g, index, u, layer[u])
    ensures Longest(g, index, u, layer[u])
  {
    forall c, e: nat | ChainFrom(g, index, u, c, e)
      ensures e <= layer[u]
    {
      ChainIsBounded(g, index, layer, c);
    }
  }

  /** No chain of references from `u` runs into a cycle. */
  ghost predicate Safe(g: seq<Decl>, index: Index, u: nat) {
    forall c, d :: IsChain(g, index, c) && c[0] == u && IsCycle(g, index, d) ==> c[|c| - 1] != d[0]
  }

  /** The references that close some cycle. */
  ghost predicate ClosesCycle(g: seq<Decl>, index: Index, u: nat, v: nat) {
    exists c :: IsCycle(g, index, c) && c[|c| - 1] == u && c[0] == v
  }

  ghost function CycleEdges(g: seq<Decl>, index: Index): iset<(nat, nat)> {
    iset u: nat, v: nat | ClosesCycle(g, index, u, v) :: (u, v)
  }

  lemma SafeStep(g: seq<Decl>, index: Index, u: nat, v: nat)
    requires Safe(g, index, u) && Edge(g, index, u, v)
    ensures Safe(g, index, v) && (u, v) !in CycleEdges(g, index)
  {
    hide Edge;
    forall c, d | IsChain(g, index, c) && c[0] == v && IsCycle(g, index, d) ensures c[|c| - 1] != d[0] {
      var more := [u] + c;
      ChainFollows(g, index, u, c);
      assert more[0] == u && more[|more| - 1] == c[|c| - 1];
    }
    if c :| IsCycle(g, index, c) && c[|c| - 1] == u && c[0] == v {
      ChainFollows(g, index, u, [v]);
      assert false;
    }
  }

  lemma ChainFollows(g: seq<Decl>, index: Index, u: nat, c: seq<nat>)
    requires IsChain(g, index, c) && Edge(g, index, u, c[0])
    ensures IsChain(g, index, [u] + c)
  {
    var more := [u] + c;
    assert u < |g| && forall i :: 1 <= i < |more| ==> more[i] == c[i - 1];
    hide Edge;
  }

  lemma AcyclicIsSafe(g: seq<Decl>, index: Index)
    requires Acyclic(g, index)
    ensures forall u: nat :: Safe(g, index, u)
  {
  }

  ghost predicate FallsWhereSafe(g: seq<Decl>, index: Index, layer: seq<nat>) {
    |layer| == |g| && forall u, v ::
      0 <= u < |g| && 0 <= v < |g| && Safe(g, index, u) && Edge(g, index, u, v) ==> layer[v] < layer[u]
  }

  lemma {:induction false} SafeChainIsBounded(g: seq<Decl>, index: Index, layer: seq<nat>, c: seq<nat>)
    requires FallsWhereSafe(g, index, layer) && IsChain(g, index, c) && Safe(g, index, c[0])
    ensures c[|c| - 1] < |g| && layer[c[|c| - 1]] + |c| - 1 <= layer[c[0]]
    decreases |c|
  {
    hide Safe;
    if |c| > 1 {
      assert Edge(g, index, c[0], c[1]);
      SafeStep(g, index, c[0], c[1]);
      SafeChainIsBounded(g, index, layer, c[1..]);
    }
  }

  /** A cycle elsewhere does not disturb the nodes that do not lead to one. */
  lemma SafeIsLongest(g: seq<Decl>, index: Index, layer: seq<nat>, u: nat)
    requires FallsWhereSafe(g, index, layer) && Safe(g, index, u) && u < |g| && HasChain(g, index, u, layer[u])
    ensures Longest(g, index, u, layer[u])
  {
    hide Safe, IsChain;
    forall c, e: nat | ChainFrom(g, index, u, c, e)
      ensures e <= layer[u]
    {
      SafeChainIsBounded(g, index, layer, c);
    }
  }

  lemma ChainGrows(g: seq<Decl>, index: Index, u: nat, v: nat, edges: nat)
    requires Edge(g, index, u, v) && HasChain(g, index, v, edges)
    ensures HasChain(g, index, u, edges + 1)
  {
    var c :| ChainFrom(g, index, v, c, edges);
    var d := [u] + c;
    assert forall i :: 1 <= i < |d| ==> d[i] == c[i - 1];
    assert ChainFrom(g, index, u, d, edges + 1);
  }

  // ----- the search -----

  /** What holds of the layers assigned so far. They fall from the nodes that lead to no cycle. */
  ghost predicate LayerInv(g: seq<Decl>, index: Index, layer: seq<nat>, order: seq<nat>) {
    && |layer| == |g| && (forall v :: v in order ==> v < |g|)
    && (forall u :: 0 <= u < |g| ==> HasChain(g, index, u, layer[u]))
    && (forall u :: 0 <= u < |g| && u !in order ==> layer[u] == 0)
    && (forall u :: 0 <= u < |g| ==> layer[u] <= |order|)
    && (forall u, v :: 0 <= u < |g| && 0 <= v < |g| && u in order && Safe(g, index, u) && Edge(g, index, u, v) ==>
        layer[v] < layer[u])
  }

  ghost predicate SearchInv(g: seq<Decl>, index: Index, state: seq<nat>, layer: seq<nat>, frames: seq<Frame>,
          order: seq<nat>) {
    && DfsInv(g, index, state, frames, order) && LayerInv(g, index, layer, order)
    && CleanInv(g, index, frames, order, CycleEdges(g, index))
  }

  /** `l` is one more than the largest layer among the followed references, or 0. */
  ghost predicate MaxBelow(g: seq<Decl>, index: Index, layer: seq<nat>, u: nat, l: nat, upTo: nat)
    requires |layer| == |g| && u < |g| && upTo <= |g[u].deps|
  {
    && (forall k :: 0 <= k < upTo ==> var t := Target(g, index, u, k); t.Some? && t.value < |g| ==> layer[t.value] < l)
    && (l == 0 || exists k ::
        0 <= k < upTo && var t := Target(g, index, u, k); t.Some? && t.value < |g| && l == layer[t.value] + 1)
  }

  method LayerAbove(g: seq<Decl>, index: Index, layer: array<nat>, u: nat) returns (l: nat)
    requires Indexed(g, index) && layer.Length == |g| && u < |g|
    ensures MaxBelow(g, index, layer[..], u, l, |g[u].deps|)
  {
    l := 0;
    for k := 0 to |g[u].deps|
      invariant MaxBelow(g, index, layer[..], u, l, k)
    {
      var dep := g[u].deps[k];
      if dep in index {
        var v := index[dep];
        assert Target(g, index, u, k) == Some(v);
        if layer[v] + 1 > l { l := layer[v] + 1; }
      }
    }
  }

  lemma AssignLayer(g: seq<Decl>, index: Index, layer: seq<nat>, order: seq<nat>, u: nat, l: nat)
    requires LayerInv(g, index, layer, order) && u < |g| && u !in order
    requires Indexed(g, index) && MaxBelow(g, index, layer, u, l, |g[u].deps|)
    requires Ordered(g, index, order + [u], CycleEdges(g, index))
    ensures LayerInv(g, index, layer[u := l], order + [u])
  {
    var n, o := layer[u := l], order + [u];
    if l > 0 {
      var k :| 0 <= k < |g[u].deps| && var t := Target(g, index, u, k);
          t.Some? && t.value < |g| && l == layer[t.value] + 1;
      var v := Target(g, index, u, k).value;
      assert Edge(g, index, u, v);
      ChainGrows(g, index, u, v, layer[v]);
    } else {
      assert ChainFrom(g, index, u, [u], 0);
    }
    forall a, v | 0 <= a < |g| && 0 <= v < |g| && a in o && Safe(g, index, a) && Edge(g, index, a, v)
      ensures n[v] < n[a]
    {
      FinishedBefore(g, index, order, u, a, v);
    }
  }

  /** Away from cycles the node just finished is no reference of an earlier one. */
  lemma FinishedBefore(g: seq<Decl>, index: Index, order: seq<nat>, u: nat, a: nat, v: nat)
    requires Ordered(g, index, order + [u], CycleEdges(g, index)) && a in order + [u]
    requires Safe(g, index, a) && Edge(g, index, a, v)
    ensures v in order
  {
    SafeStep(g, index, a, v);
    hide Edge, Safe, CycleEdges;
    var o := order + [u];
    var i :| 0 <= i < |o| && o[i] == a;
    assert Edge(g, index, o[i], v);
    assert v in o[..i];
    assert o[..i] == order[..i];
  }

  lemma {:induction false} DistinctBound(s: seq<nat>, n: nat)
    requires (forall v :: v in s ==> v < n) && (forall i, j :: 0 <= i < j < |s| ==> s[i] != s[j])
    ensures |s| <= n
    decreases n
  {
    if s == [] { return; }
    assert s[0] in s;
    if n - 1 in s {
      var k :| 0 <= k < |s| && s[k] == n - 1;
      var rest := s[..k] + s[k + 1..];
      assert forall v :: v in rest ==> v in s && v != n - 1;
      DistinctBound(rest, n - 1);
    } else {
      DistinctBound(s, n - 1);
    }
  }

  // ----- the passes -----

  /** The name table the pass builds for itself. */
  method NameTable(decls: seq<Decl>) returns (index: Index)
    requires forall i, j :: 0 <= i < j < |decls| ==> decls[i].name != decls[j].name
    ensures Indexed(decls, index)
  {
    index := map[];
    for i := 0 to |decls|
      invariant forall name :: name in index ==> index[name] < i && decls[index[name]].name == name
      invariant forall m :: 0 <= m < i ==> decls[m].name in index && index[decls[m].name] == m
    {
      index := index[decls[i].name := i];
    }
  }

  /** On any graph: every node gets a layer, some dependency chain has that length, and no
      layer exceeds the number of declarations. It is the longest chain of every node that does
      not lead to a cycle, so of every node when there is none. Layers fall along every
      reference exactly when there is no cycle. */
  method Layers(decls: seq<Decl>) returns (layers: seq<nat>, ghost index: Index)
    requires forall i, j :: 0 <= i < j < |decls| ==> decls[i].name != decls[j].name
    ensures Indexed(decls, index) && |layers| == |decls|
    ensures forall u :: 0 <= u < |decls| ==> layers[u] <= |decls| && HasChain(decls, index, u, layers[u])
    ensures forall u :: 0 <= u < |decls| && Safe(decls, index, u) ==> Longest(decls, index, u, layers[u])
    ensures Acyclic(decls, index) ==> forall u :: 0 <= u < |decls| ==> Longest(decls, index, u, layers[u])
    ensures StrictlyLayered(decls, index, layers) <==> Acyclic(decls, index)
  {
    hide SearchInv, HasChain, Longest, StrictlyLayered, Acyclic, Indexed, DfsInv, LayerInv, Safe, FallsWhereSafe;
    var table := NameTable(decls);
    index := table;
    var n := |decls|;
    var layer := new nat[n](_ => 0);
    var state := new nat[n](_ => WHITE);
    ghost var order: seq<nat> := [];
    SearchStarts(decls, index, state[..], layer[..]);
    for start := 0 to n
      invariant SearchInv(decls, index, state[..], layer[..], [], order)
      invariant forall v :: 0 <= v < start ==> state[v] == DONE
    {
      SearchFacts(decls, index, state[..], layer[..], [], order);
      if state[start] == DONE { continue; }
      order := Visit(decls, table, state, layer, start, order);
    }
    SearchFacts(decls, index, state[..], layer[..], [], order);
    DistinctBound(order, n);
    layers := layer[..];
    LayersAreDone(decls, index, layers, order);
    forall u | 0 <= u < n && Safe(decls, index, u) ensures Longest(decls, index, u, layers[u]) {
      SafeIsLongest(decls, index, layers, u);
    }
    if Acyclic(decls, index) {
      AcyclicIsSafe(decls, index);
      FallingIsStrict(decls, index, layers);
    }
    if StrictlyLayered(decls, index, layers) { StrictlyLayeredIsAcyclic(decls, index, layers); }
  }

  lemma SearchStarts(g: seq<Decl>, index: Index, state: seq<nat>, layer: seq<nat>)
    requires Indexed(g, index) && |state| == |layer| == |g|
    requires forall v :: 0 <= v < |g| ==> state[v] == WHITE && layer[v] == 0
    ensures SearchInv(g, index, state, layer, [], [])
  {
    forall u | 0 <= u < |g| ensures HasChain(g, index, u, 0) { assert ChainFrom(g, index, u, [u], 0); }
  }

  /** What the search leaves once every node is finished. */
  lemma LayersAreDone(g: seq<Decl>, index: Index, layers: seq<nat>, order: seq<nat>)
    requires LayerInv(g, index, layers, order) && |layers| == |g| && Indexed(g, index) && |order| <= |g|
    requires forall v :: 0 <= v < |g| ==> v in order
    ensures forall u :: 0 <= u < |g| ==> layers[u] <= |g| && HasChain(g, index, u, layers[u])
    ensures FallsWhereSafe(g, index, layers)
  {
  }

  lemma FallingIsStrict(g: seq<Decl>, index: Index, layers: seq<nat>)
    requires FallsWhereSafe(g, index, layers) && forall u: nat :: Safe(g, index, u)
    ensures StrictlyLayered(g, index, layers)
  {
  }

  lemma SearchFacts(g: seq<Decl>, index: Index, state: seq<nat>, layer: seq<nat>, frames: seq<Frame>, order: seq<nat>)
    requires SearchInv(g, index, state, layer, frames, order)
    ensures DfsInv(g, index, state, frames, order) && LayerInv(g, index, layer, order) && |state| == |layer| == |g| &&
        Indexed(g, index)
    ensures forall v :: 0 <= v < |g| ==> state[v] <= DONE && (state[v] == DONE <==> v in order)
    ensures frames != [] ==> Top(frames).node < |g| && Top(frames).next <= |g[Top(frames).node].deps|
    ensures frames != [] ==> state[Top(frames).node] == ON_PATH
    ensures frames == [] ==> forall v :: 0 <= v < |g| ==> state[v] != ON_PATH
    ensures forall i, j :: 0 <= i < j < |order| ==> order[i] != order[j]
    ensures forall v :: v in order ==> v < |g|
  {
  }

  method Visit(decls: seq<Decl>, index: Index, state: array<nat>, layer: array<nat>, start: nat,
          ghost finished: seq<nat>)
    returns (ghost order: seq<nat>)
    requires state.Length == layer.Length == |decls| && state != layer && start < |decls| && state[start] == WHITE
    requires SearchInv(decls, index, state[..], layer[..], [], finished)
    modifies state, layer
    ensures SearchInv(decls, index, state[..], layer[..], [], order)
    ensures state[start] == DONE && forall v :: 0 <= v < |decls| && old(state[v]) == DONE ==> state[v] == DONE
  {
    hide SearchInv, DfsInv, CleanInv, LayerInv, White;
    order := finished;
    RootKeepsSearch(decls, index, state[..], layer[..], order, start);
    ghost var s0 := state[..];
    state[start] := ON_PATH;
    assert state[..] == s0[start := ON_PATH];
    var frames := [Frame(start, 0)];
    while frames != []
      invariant SearchInv(decls, index, state[..], layer[..], frames, order)
      invariant forall v :: 0 <= v < |decls| && old(state[v]) == DONE ==> state[v] == DONE
      invariant if frames == [] then state[start] == DONE else frames[0].node == start
      decreases White(state[..]), |frames|, if CanFollow(decls, frames)
          then |decls[Top(frames).node].deps| - Top(frames).next else 0
    {
      SearchFacts(decls, index, state[..], layer[..], frames, order);
      var u, k := Top(frames).node, Top(frames).next;
      if k < |decls[u].deps| {
        frames := Follow(decls, index, state, layer, frames, order);
      } else {
        order := Finish(decls, index, state, layer, frames, order);
        frames := frames[..|frames| - 1];
      }
    }
  }

  lemma RootKeepsSearch(g: seq<Decl>, index: Index, state: seq<nat>, layer: seq<nat>, order: seq<nat>, start: nat)
    requires SearchInv(g, index, state, layer, [], order) && start < |g| == |state| && state[start] == WHITE
    ensures SearchInv(g, index, state[start := ON_PATH], layer, [Frame(start, 0)], order)
  {
    PushKeepsInv(g, index, state, [], order, start);
    assert [] + [Frame(start, 0)] == [Frame(start, 0)];
  }

  lemma SkipKeepsSearch(g: seq<Decl>, index: Index, state: seq<nat>, layer: seq<nat>, frames: seq<Frame>,
          order: seq<nat>)
    requires SearchInv(g, index, state, layer, frames, order) && CanFollow(g, frames)
    requires var t := Target(g, index, Top(frames).node, Top(frames).next);
             t.Some? ==> t.value < |state| && state[t.value] != WHITE
    ensures SearchInv(g, index, state, layer, Advanced(frames), order)
  {
    AdvanceKeepsInv(g, index, state, frames, order);
    SearchFacts(g, index, state, layer, frames, order);
    var t := Target(g, index, Top(frames).node, Top(frames).next);
    if t.Some? && state[t.value] == ON_PATH {
      OnPathClosesCycle(g, index, state, frames, order, t.value);
    }
    hide DfsInv, CleanInv, LayerInv, ClosesCycle;
    AdvanceKeepsClean(g, index, frames, order, CycleEdges(g, index));
  }

  /** A reference into the stack closes a cycle. */
  lemma OnPathClosesCycle(g: seq<Decl>, index: Index, state: seq<nat>, frames: seq<Frame>, order: seq<nat>, v: nat)
    requires DfsInv(g, index, state, frames, order) && CanFollow(g, frames)
    requires Target(g, index, Top(frames).node, Top(frames).next) == Some(v) && v < |g| == |state| &&
        state[v] == ON_PATH
    ensures (Top(frames).node, v) in CycleEdges(g, index)
  {
    hide DfsInv, IsCycle, CanFollow, Target, Nodes;
    var from := OnStack(g, index, state, frames, order, v);
    BackEdgeIsCycle(g, index, state, frames, order, from);
    PathEnds(frames, from);
  }

  lemma DescendKeepsSearch(g: seq<Decl>, index: Index, state: seq<nat>, layer: seq<nat>, frames: seq<Frame>,
          order: seq<nat>, v: nat)
    requires SearchInv(g, index, state, layer, frames, order) && CanFollow(g, frames)
    requires Target(g, index, Top(frames).node, Top(frames).next) == Some(v) && v < |g| == |state| && state[v] == WHITE
    ensures SearchInv(g, index, state[v := ON_PATH], layer, Advanced(frames) + [Frame(v, 0)], order)
    ensures White(state[v := ON_PATH]) < White(state)
  {
    DescendKeepsInv(g, index, state, frames, order, v);
    hide DfsInv, CleanInv, LayerInv, CycleEdges, White;
    DescendKeepsClean(g, index, frames, order, CycleEdges(g, index), v);
  }

  method Follow(decls: seq<Decl>, index: Index, state: array<nat>, layer: array<nat>, frames: seq<Frame>,
          ghost order: seq<nat>)
    returns (frames': seq<Frame>)
    requires state.Length == layer.Length == |decls| && state != layer && CanFollow(decls, frames)
    requires SearchInv(decls, index, state[..], layer[..], frames, order)
    modifies state
    ensures SearchInv(decls, index, state[..], layer[..], frames', order)
    ensures frames' != [] && frames'[0].node == frames[0].node
    ensures forall v :: 0 <= v < |decls| && old(state[v]) == DONE ==> state[v] == DONE
    ensures White(state[..]) < White(old(state[..])) || (state[..] == old(state[..]) && frames' == Advanced(frames))
  {
    hide SearchInv, DfsInv, LayerInv, White;
    ghost var s := state[..];
    SearchFacts(decls, index, s, layer[..], frames, order);
    var u, k := Top(frames).node, Top(frames).next;
    var dep := decls[u].deps[k];
    frames' := frames[..|frames| - 1] + [Frame(u, k + 1)];
    if dep in index && state[index[dep]] == WHITE {
      var v := index[dep];
      DescendKeepsSearch(decls, index, s, layer[..], frames, order, v);
      state[v] := ON_PATH;
      assert state[..] == s[v := ON_PATH];
      frames' := frames' + [Frame(v, 0)];
    } else {
      SkipKeepsSearch(decls, index, s, layer[..], frames, order);
    }
  }

  lemma FinishKeepsSearch(g: seq<Decl>, index: Index, state: seq<nat>, layer: seq<nat>, frames: seq<Frame>,
          order: seq<nat>, l: nat)
    requires SearchInv(g, index, state, layer, frames, order) && frames != [] && !CanFollow(g, frames)
    requires |state| == |layer| == |g| && Top(frames).node < |g|
    requires MaxBelow(g, index, layer, Top(frames).node, l, |g[Top(frames).node].deps|)
    ensures var u := Top(frames).node;
            && SearchInv(g, index, state[u := DONE], layer[u := l], frames[..|frames| - 1], order + [u])
            && White(state[u := DONE]) == White(state)
  {
    var u := Top(frames).node;
    SearchFacts(g, index, state, layer, frames, order);
    FinishKeepsInv(g, index, state, frames, order, CycleEdges(g, index));
    hide DfsInv, LayerInv, CycleEdges, White, MaxBelow, Ordered;
    AssignLayer(g, index, layer, order, u, l);
  }

  method Finish(decls: seq<Decl>, index: Index, state: array<nat>, layer: array<nat>, frames: seq<Frame>,
          ghost order: seq<nat>)
    returns (ghost order': seq<nat>)
    requires state.Length == layer.Length == |decls| && state != layer
    requires frames != [] && Top(frames).node < |decls| && !CanFollow(decls, frames)
    requires SearchInv(decls, index, state[..], layer[..], frames, order)
    modifies state, layer
    ensures SearchInv(decls, index, state[..], layer[..], frames[..|frames| - 1], order')
    ensures state[Top(frames).node] == DONE && White(state[..]) == White(old(state[..]))
    ensures forall v :: 0 <= v < |decls| && old(state[v]) == DONE ==> state[v] == DONE
  {
    hide SearchInv, DfsInv, LayerInv, White, MaxBelow;
    var u := Top(frames).node;
    SearchFacts(decls, index, state[..], layer[..], frames, order);
    var l := LayerAbove(decls, index, layer, u);
    ghost var s, w := state[..], layer[..];
    FinishKeepsSearch(decls, index, s, w, frames, order, l);
    layer[u] := l;
    state[u] := DONE;
    assert state[..] == s[u := DONE] && layer[..] == w[u := l];
    order' := order + [u];
  }
}
