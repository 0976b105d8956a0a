/** The declaration graph of `mm0web/src/graph.rs`: edges, cycles, and the state
    of the explicit-stack depth-first search both passes share. */
module DependencyGraph {
  import opened Wrappers

  datatype Decl = Decl(name: string, specLine: Option<nat>, proofLine: Option<nat>, deps: seq<string>)

  type Index = map<string, nat>

  /** The name table of `build`: each name to its one position. */
  ghost predicate Indexed(g: seq<Decl>, index: Index) {
    && (forall name :: name in index ==> index[name] < |g| && g[index[name]].name == name)
    && (forall i :: 0 <= i < |g| ==> g[i].name in index && index[g[i].name] == i)
  }

  /** `u` refers to `v`. */
  ghost predicate Edge(g: seq<Decl>, index: Index, u: nat, v: nat) {
    u < |g| && v < |g| && exists k :: 0 <= k < |g[u].deps| && Target(g, index, u, k) == Some(v)
  }

  function Target(g: seq<Decl>, index: Index, u: nat, k: nat): Option<nat>
    requires u < |g| && k < |g[u].deps|
  {
    if g[u].deps[k] in index then Some(index[g[u].deps[k]]) else None
  }

  ghost predicate IsChain(g: seq<Decl>, index: Index, c: seq<nat>) {
    |c| > 0 && c[0] < |g| && forall i :: 0 <= i < |c| - 1 ==> Edge(g, index, c[i], c[i + 1])
  }

  /** A chain of references that closes on itself. */
  ghost predicate IsCycle(g: seq<Decl>, index: Index, c: seq<nat>) {
    IsChain(g, index, c) && Edge(g, index, c[|c| - 1], c[0])
  }

  ghost predicate Acyclic(g: seq<Decl>, index: Index) {
    forall c :: !IsCycle(g, index, c)
  }

  /** The reference from `u` to `v` lies on the chain `c`, closed. */
  ghost predicate Crosses(c: seq<nat>, u: nat, v: nat) {
    exists i :: 0 <= i < |c| && c[i] == u && c[if i + 1 < |c| then i + 1 else 0] == v
  }

  // ----- what a finishing order certifies -----

  /** Every reference of a listed node, apart from those in `cut`, points at a node listed before it. */
  ghost predicate Ordered(g: seq<Decl>, index: Index, order: seq<nat>, cut: iset<(nat, nat)>) {
    forall i, v: nat ::
      0 <= i < |order| && Edge(g, index, order[i], v) && (order[i], v) !in cut ==> v in order[..i]
  }

  ghost predicate Avoids(c: seq<nat>, cut: iset<(nat, nat)>) {
    forall i :: 0 <= i < |c| - 1 ==> (c[i], c[i + 1]) !in cut
  }

  lemma {:induction false} ChainStaysBefore(g: seq<Decl>, index: Index, order: seq<nat>, cut: iset<(nat, nat)>,
                                            c: seq<nat>, at: nat)
    requires IsChain(g, index, c) && Avoids(c, cut) && Ordered(g, index, order, cut)
    requires at < |order| && order[at] == c[0]
    ensures c[|c| - 1] in order[..at + 1]
    decreases |c|
  {
    if |c| == 1 {
      assert order[..at + 1][at] == c[0];
    } else {
      assert Edge(g, index, order[at], c[1]);
      var k :| 0 <= k < at && order[k] == c[1];
      assert forall i :: 0 <= i < |c| - 1 ==> c[1..][i] == c[i + 1];
      ChainStaysBefore(g, index, order, cut, c[1..], k);
    }
  }

  /** Every cycle crosses the cut. */
  lemma OrderedCutsCycles(g: seq<Decl>, index: Index, order: seq<nat>, cut: iset<(nat, nat)>, c: seq<nat>)
    requires Ordered(g, index, order, cut) && (forall v: nat :: v < |g| ==> v in order) && IsCycle(g, index, c)
    ensures exists u: nat, v: nat :: (u, v) in cut && Crosses(c, u, v)
  {
    if !exists u: nat, v: nat :: (u, v) in cut && Crosses(c, u, v) {
      FirstOccurrence(order, c[0]);
      var at :| 0 <= at < |order| && order[at] == c[0] && c[0] !in order[..at];
      CycleReturns(g, index, order, cut, c, at);
    }
  }

  lemma OrderedIsAcyclic(g: seq<Decl>, index: Index, order: seq<nat>)
    requires Ordered(g, index, order, iset{}) && (forall v: nat :: v < |g| ==> v in order)
    ensures Acyclic(g, index)
  {
    forall c ensures !IsCycle(g, index, c) {
      if IsCycle(g, index, c) { OrderedCutsCycles(g, index, order, iset{}, c); }
    }
  }

  lemma {:induction false} FirstOccurrence(order: seq<nat>, v: nat)
    requires v in order
    ensures exists at :: 0 <= at < |order| && order[at] == v && v !in order[..at]
  {
    if v in order[..|order| - 1] {
      FirstOccurrence(order[..|order| - 1], v);
      var at :| 0 <= at < |order| - 1 && order[..|order| - 1][at] == v && v !in order[..|order| - 1][..at];
      assert order[..|order| - 1][..at] == order[..at];
    } else {
      assert order[|order| - 1] == v;
    }
  }

  lemma CycleReturns(g: seq<Decl>, index: Index, order: seq<nat>, cut: iset<(nat, nat)>, c: seq<nat>, at: nat)
    requires IsCycle(g, index, c) && Ordered(g, index, order, cut)
    requires forall u: nat, v: nat :: Crosses(c, u, v) ==> (u, v) !in cut
    requires at < |order| && order[at] == c[0]
    ensures c[0] in order[..at]
  {
    var round := c[1..] + [c[0]];
    assert Crosses(c, c[0], round[0]);
    assert Edge(g, index, order[at], round[0]);
    var k :| 0 <= k < at && order[k] == round[0];
    forall i | 0 <= i < |round| - 1
      ensures Edge(g, index, round[i], round[i + 1]) && (round[i], round[i + 1]) !in cut
    {
      assert round[i] == c[i + 1];
      assert round[i + 1] == if i + 2 < |c| then c[i + 2] else c[0];
      assert Crosses(c, round[i], round[i + 1]);
    }
    ChainStaysBefore(g, index, order, cut, round, k);
  }

  // ----- the explicit-stack search -----

  const WHITE: nat := 0
  const ON_PATH: nat := 1
  const DONE: nat := 2

  /** A stack frame: the node, and how many of its references were followed. */
  datatype Frame = Frame(node: nat, next: nat)

  /** `state` mirrors the stack and the list of finished nodes. */
  ghost predicate DfsInv(g: seq<Decl>, index: Index, state: seq<nat>, frames: seq<Frame>, order: seq<nat>) {
    && Indexed(g, index) && |state| == |g|
    && (forall v :: 0 <= v < |g| ==> state[v] <= DONE)
    && (forall v :: 0 <= v < |g| ==> (state[v] == DONE <==> v in order))
    && (forall v :: v in order ==> v < |g|)
    && (forall i, j :: 0 <= i < j < |order| ==> order[i] != order[j])
    && (forall i :: 0 <= i < |frames| ==>
        frames[i].node < |g| && state[frames[i].node] == ON_PATH && frames[i].next <= |g[frames[i].node].deps|)
    && (forall v :: 0 <= v < |g| && state[v] == ON_PATH ==> exists i :: 0 <= i < |frames| && frames[i].node == v)
    && (forall i, j :: 0 <= i < j < |frames| ==> frames[i].node != frames[j].node)
    && (forall i :: 0 <= i < |frames| - 1 ==> Edge(g, index, frames[i].node, frames[i + 1].node))
  }

  /** What was followed is finished, or is the next frame, or is in `cut`. */
  ghost predicate CleanInv(g: seq<Decl>, index: Index, frames: seq<Frame>, order: seq<nat>, cut: iset<(nat, nat)>) {
    && Ordered(g, index, order, cut)
    && forall i, k ::
         0 <= i < |frames| && frames[i].node < |g| && 0 <= k < frames[i].next && k < |g[frames[i].node].deps| ==>
         var t := Target(g, index, frames[i].node, k);
         t.Some? ==> t.value in order || (i + 1 < |frames| && t.value == frames[i + 1].node) ||
                     (frames[i].node, t.value) in cut
  }

  lemma CutGrows(g: seq<Decl>, index: Index, frames: seq<Frame>, order: seq<nat>, cut: iset<(nat, nat)>,
                 more: iset<(nat, nat)>)
    requires CleanInv(g, index, frames, order, cut) && cut <= more
    ensures CleanInv(g, index, frames, order, more)
  {
  }

  function White(state: seq<nat>): set<nat> {
    set v | 0 <= v < |state| && state[v] == WHITE
  }

  function Top(frames: seq<Frame>): Frame
    requires frames != []
  {
    frames[|frames| - 1]
  }

  /** The stack after following one more reference of the top node. */
  function Advanced(frames: seq<Frame>): seq<Frame>
    requires frames != []
  {
    frames[..|frames| - 1] + [Frame(Top(frames).node, Top(frames).next + 1)]
  }

  predicate CanFollow(g: seq<Decl>, frames: seq<Frame>) {
    frames != [] && Top(frames).node < |g| && Top(frames).next < |g[Top(frames).node].deps|
  }

  lemma AdvanceKeepsInv(g: seq<Decl>, index: Index, state: seq<nat>, frames: seq<Frame>, order: seq<nat>)
    requires DfsInv(g, index, state, frames, order) && CanFollow(g, frames)
    ensures DfsInv(g, index, state, Advanced(frames), order)
  {
    var f := Advanced(frames);
    assert |f| == |frames| && forall i :: 0 <= i < |frames| ==> f[i].node == frames[i].node;
    forall v | 0 <= v < |g| && state[v] == ON_PATH
      ensures exists i :: 0 <= i < |f| && f[i].node == v
    {
      var i :| 0 <= i < |frames| && frames[i].node == v;
      assert f[i].node == v;
    }
  }

  lemma AdvanceKeepsClean(g: seq<Decl>, index: Index, frames: seq<Frame>, order: seq<nat>, cut: iset<(nat, nat)>)
    requires CanFollow(g, frames) && CleanInv(g, index, frames, order, cut)
    requires var u, t := Top(frames).node, Target(g, index, Top(frames).node, Top(frames).next);
             t.Some? ==> t.value in order || (u, t.value) in cut
    ensures CleanInv(g, index, Advanced(frames), order, cut)
  {
    var f := Advanced(frames);
    assert |f| == |frames| && forall i :: 0 <= i < |frames| ==> f[i].node == frames[i].node;
    assert forall i :: 0 <= i < |frames| - 1 ==> f[i] == frames[i];
  }

  /** Descending into an unvisited node. */
  lemma DescendKeepsInv(g: seq<Decl>, index: Index, state: seq<nat>, frames: seq<Frame>, order: seq<nat>, v: nat)
    requires DfsInv(g, index, state, frames, order) && CanFollow(g, frames)
    requires Target(g, index, Top(frames).node, Top(frames).next) == Some(v) && v < |g| && state[v] == WHITE
    ensures DfsInv(g, index, state[v := ON_PATH], Advanced(frames) + [Frame(v, 0)], order)
    ensures White(state[v := ON_PATH]) < White(state)
  {
    AdvanceKeepsInv(g, index, state, frames, order);
    assert Edge(g, index, Top(frames).node, v);
    PushKeepsInv(g, index, state, Advanced(frames), order, v);
  }

  lemma PushKeepsInv(g: seq<Decl>, index: Index, state: seq<nat>, frames: seq<Frame>, order: seq<nat>, v: nat)
    requires DfsInv(g, index, state, frames, order) && v < |g| && state[v] == WHITE
    requires frames != [] ==> Edge(g, index, Top(frames).node, v)
    ensures DfsInv(g, index, state[v := ON_PATH], frames + [Frame(v, 0)], order)
    ensures White(state[v := ON_PATH]) < White(state)
  {
    var f, s := frames + [Frame(v, 0)], state[v := ON_PATH];
    assert v in White(state) && v !in White(s);
    assert White(s) <= White(state);
    hide White, Edge, Indexed;
    assert forall i :: 0 <= i < |frames| ==> f[i] == frames[i];
    forall w | 0 <= w < |g| && s[w] == ON_PATH
      ensures exists i :: 0 <= i < |f| && f[i].node == w
    {
      if w == v {
        assert f[|frames|].node == v;
      } else {
        var i :| 0 <= i < |frames| && frames[i].node == w;
        assert f[i].node == w;
      }
    }
  }

  lemma DescendKeepsClean(g: seq<Decl>, index: Index, frames: seq<Frame>, order: seq<nat>, cut: iset<(nat, nat)>,
                          v: nat)
    requires CanFollow(g, frames) && CleanInv(g, index, frames, order, cut)
    requires Target(g, index, Top(frames).node, Top(frames).next) == Some(v)
    ensures CleanInv(g, index, Advanced(frames) + [Frame(v, 0)], order, cut)
  {
    var f := Advanced(frames) + [Frame(v, 0)];
    assert forall i :: 0 <= i < |frames| ==> f[i].node == frames[i].node;
    assert forall i :: 0 <= i < |frames| - 1 ==> f[i] == frames[i];
    assert f[|frames|] == Frame(v, 0);
  }

  /** A back edge closes the part of the path above its target into a cycle. */
  lemma BackEdgeIsCycle(g: seq<Decl>, index: Index, state: seq<nat>, frames: seq<Frame>, order: seq<nat>, from: nat)
    requires DfsInv(g, index, state, frames, order) && CanFollow(g, frames) && from < |frames|
    requires Target(g, index, Top(frames).node, Top(frames).next) == Some(frames[from].node)
    ensures IsCycle(g, index, Nodes(frames)[from..])
  {
    var c := Nodes(frames)[from..];
    StackEdges(g, index, state, frames, order);
    TopEdge(g, index, frames, frames[from].node);
    hide DfsInv, Edge, CanFollow, Nodes;
    forall i | 0 <= i < |c| - 1 ensures Edge(g, index, c[i], c[i + 1]) {
      assert c[i] == frames[from + i].node && c[i + 1] == frames[from + i + 1].node;
    }
    assert c[0] == frames[from].node && c[|c| - 1] == Top(frames).node;
  }

  lemma StackEdges(g: seq<Decl>, index: Index, state: seq<nat>, frames: seq<Frame>, order: seq<nat>)
    requires DfsInv(g, index, state, frames, order)
    ensures Indexed(g, index) && forall i :: 0 <= i < |frames| ==> frames[i].node < |g|
    ensures forall i :: 0 <= i < |frames| - 1 ==> Edge(g, index, frames[i].node, frames[i + 1].node)
  {
  }

  lemma TopEdge(g: seq<Decl>, index: Index, frames: seq<Frame>, v: nat)
    requires Indexed(g, index) && CanFollow(g, frames)
    requires Target(g, index, Top(frames).node, Top(frames).next) == Some(v)
    ensures Edge(g, index, Top(frames).node, v)
  {
  }

  function Nodes(frames: seq<Frame>): (path: seq<nat>)
    ensures |path| == |frames| && forall i :: 0 <= i < |path| ==> path[i] == frames[i].node
  {
    seq(|frames|, i requires 0 <= i < |frames| => frames[i].node)
  }

  lemma PathEnds(frames: seq<Frame>, from: nat)
    requires from < |frames|
    ensures var c := Nodes(frames)[from..]; |c| > 0 && c[0] == frames[from].node && c[|c| - 1] == Top(frames).node
  {
  }

  lemma OnStack(g: seq<Decl>, index: Index, state: seq<nat>, frames: seq<Frame>, order: seq<nat>, v: nat)
    returns (from: nat)
    requires DfsInv(g, index, state, frames, order) && v < |g| && state[v] == ON_PATH
    ensures from < |frames| && frames[from].node == v
  {
    from :| 0 <= from < |frames| && frames[from].node == v;
  }

  /** Finishing the top node. */
  lemma FinishKeepsInv(g: seq<Decl>, index: Index, state: seq<nat>, frames: seq<Frame>, order: seq<nat>,
                       cut: iset<(nat, nat)>)
    requires DfsInv(g, index, state, frames, order) && frames != [] && !CanFollow(g, frames)
    requires CleanInv(g, index, frames, order, cut)
    ensures var u := Top(frames).node;
            && DfsInv(g, index, state[u := DONE], frames[..|frames| - 1], order + [u])
            && CleanInv(g, index, frames[..|frames| - 1], order + [u], cut)
            && White(state[u := DONE]) == White(state)
  {
    FinishDfs(g, index, state, frames, order);
    StackEdges(g, index, state, frames, order);
    FinishStack(g, index, state, frames, order);
    hide DfsInv;
    FinishKeepsClean(g, index, frames, order, cut);
  }

  lemma FinishStack(g: seq<Decl>, index: Index, state: seq<nat>, frames: seq<Frame>, order: seq<nat>)
    requires DfsInv(g, index, state, frames, order) && frames != [] && !CanFollow(g, frames)
    ensures Top(frames).node < |g| && Top(frames).next == |g[Top(frames).node].deps|
  {
  }

  lemma FinishKeepsClean(g: seq<Decl>, index: Index, frames: seq<Frame>, order: seq<nat>, cut: iset<(nat, nat)>)
    requires frames != [] && Top(frames).node < |g| && Top(frames).next == |g[Top(frames).node].deps|
    requires CleanInv(g, index, frames, order, cut)
    ensures CleanInv(g, index, frames[..|frames| - 1], order + [Top(frames).node], cut)
  {
    var u := Top(frames).node;
    var f, o := frames[..|frames| - 1], order + [u];
    forall i, v: nat | 0 <= i < |o| && Edge(g, index, o[i], v) && (o[i], v) !in cut ensures v in o[..i] {
      if i < |order| {
        assert o[..i] == order[..i];
      } else {
        assert o[..i] == order;
        var k :| 0 <= k < |g[u].deps| && Target(g, index, u, k) == Some(v);
        assert frames[|frames| - 1].node == u;
      }
    }
    assert o[|order|] == u;
    assert forall v :: v in order ==> v in o;
  }

  lemma FinishDfs(g: seq<Decl>, index: Index, state: seq<nat>, frames: seq<Frame>, order: seq<nat>)
    requires DfsInv(g, index, state, frames, order) && frames != [] && !CanFollow(g, frames)
    ensures var u := Top(frames).node;
            && DfsInv(g, index, state[u := DONE], frames[..|frames| - 1], order + [u])
            && White(state[u := DONE]) == White(state)
  {
    var u := Top(frames).node;
    var s, f, o := state[u := DONE], frames[..|frames| - 1], order + [u];
    assert forall v :: v in o <==> v in order || v == u;
    forall v | 0 <= v < |g| && s[v] == ON_PATH
      ensures exists i :: 0 <= i < |f| && f[i].node == v
    {
      var i :| 0 <= i < |frames| && frames[i].node == v;
      assert f[i].node == v;
    }
  }
}
