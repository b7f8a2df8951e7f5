/**
 Tarjan's strongly connected components, as written inside auto_layout
 (once over modules, once over the components of a module).

 The finder is a class because the algorithm works on shared mutable tables.
 The proof speaks about snapshots of those tables: SccFinder.Snap() is the
 whole state as a value, and every step of the algorithm is one lemma about
 snapshots.
*/
module Tarjan {
  import opened Graphs

  type Block = seq<Id>

  /** A snapshot of the algorithm's tables. */
  datatype State = State(
    counter: nat,
    stack: seq<Id>,
    onStack: set<Id>,
    index: map<Id, nat>,
    lowlink: map<Id, nat>,
    sccs: seq<Block>)

  // ----- what the algorithm is for -----------------------------------------

  ghost predicate InBlocks(sccs: seq<Block>, v: Id) {
    exists k :: 0 <= k < |sccs| && v in sccs[k]
  }

  /** No vertex is listed twice, in one block or in two. */
  ghost predicate NoRepeats(sccs: seq<Block>) {
    forall k, a, l, b | 0 <= k < |sccs| && 0 <= a < |sccs[k]| && 0 <= l < |sccs| && 0 <= b < |sccs[l]| ::
      sccs[k][a] == sccs[l][b] ==> k == l && a == b
  }

  ghost predicate MutuallyReach(g: Graph<Id>, block: Block) {
    forall v, w :: v in block && w in block ==> Reach(g, v, w)
  }

  /** Every edge that leaves block k enters block k or an earlier one. */
  ghost predicate ReverseTopological(g: Graph<Id>, sccs: seq<Block>) {
    forall k, v, w :: 0 <= k < |sccs| && v in sccs[k] && w in Succ(g, v) ==> InBlocks(sccs[..k + 1], w)
  }

  ghost predicate GoodBlocks(g: Graph<Id>, sccs: seq<Block>) {
    && NoRepeats(sccs)
    && ReverseTopological(g, sccs)
    && (forall k :: 0 <= k < |sccs| ==> sccs[k] != [] && MutuallyReach(g, sccs[k]))
  }

  /** sccs is exactly the list of strongly connected components of g. */
  ghost predicate IsSccList(g: Graph<Id>, vs: set<Id>, sccs: seq<Block>) {
    GoodBlocks(g, sccs) && forall v :: v in vs <==> InBlocks(sccs, v)
  }

  lemma BlocksOfPrefix(sccs: seq<Block>, k: nat, v: Id)
    requires k <= |sccs| && InBlocks(sccs[..k], v)
    ensures exists j :: 0 <= j < k && v in sccs[j]
  {
    var j :| 0 <= j < k && v in sccs[..k][j];
    assert v in sccs[j];
  }

  /** What a vertex of block k reaches lies in block k or an earlier one. */
  lemma ReachGoesDown(g: Graph<Id>, sccs: seq<Block>, k: nat, v: Id, w: Id)
    requires GoodBlocks(g, sccs)
    requires k < |sccs| && v in sccs[k] && Reach(g, v, w)
    ensures exists j :: 0 <= j <= k && w in sccs[j]
  {
    var low := set j, u | 0 <= j <= k && u in sccs[j] :: u;
    forall u | u in low
      ensures Succ(g, u) <= low
    {
      var j :| 0 <= j <= k && u in sccs[j];
      forall x | x in Succ(g, u)
        ensures x in low
      {
        BlocksOfPrefix(sccs, j + 1, x);
      }
    }
    ReachStaysIn(g, low, v, w);
  }

  /**
   The specification of the result, free of the algorithm: two vertices share
   a block exactly when each reaches the other, and an edge between two
   different blocks always goes to the one listed earlier.
  */
  lemma SccListIsCorrect(g: Graph<Id>, vs: set<Id>, sccs: seq<Block>, k: nat, l: nat, v: Id, w: Id)
    requires IsSccList(g, vs, sccs)
    requires k < |sccs| && l < |sccs| && v in sccs[k] && w in sccs[l]
    ensures k == l <==> Reach(g, v, w) && Reach(g, w, v)
    ensures w in Succ(g, v) ==> l <= k
  {
    if Reach(g, v, w) && Reach(g, w, v) {
      ReachGoesDown(g, sccs, k, v, w);
      ReachGoesDown(g, sccs, l, w, v);
    }
    if w in Succ(g, v) {
      ReachEdge(g, v, w);
      ReachGoesDown(g, sccs, k, v, w);
    }
  }

  // ----- invariant ----------------------------------------------------------

  ghost predicate Tables(vs: set<Id>, s: State) {
    && s.index.Keys == s.lowlink.Keys
    && s.index.Keys <= vs
    && (forall v :: v in s.onStack <==> v in s.stack)
    && (forall v :: v in s.index <==> v in s.onStack || InBlocks(s.sccs, v))
    && (forall v :: v in s.onStack ==> !InBlocks(s.sccs, v))
    && (forall v :: v in s.index ==> s.index[v] < s.counter)
    && (forall i, j :: 0 <= i < j < |s.stack| ==> s.index[s.stack[i]] < s.index[s.stack[j]])
  }

  /** Older stack entries reach newer ones. */
  ghost predicate StackReaches(g: Graph<Id>, s: State) {
    forall i, j :: 0 <= i <= j < |s.stack| ==> Reach(g, s.stack[i], s.stack[j])
  }

  ghost predicate Inv(g: Graph<Id>, vs: set<Id>, s: State) {
    Tables(vs, s) && StackReaches(g, s) && GoodBlocks(g, s.sccs)
  }

  ghost predicate AllReach(g: Graph<Id>, ys: seq<Id>, v: Id) {
    forall y :: y in ys ==> Reach(g, y, v)
  }

  /** s1 only adds to s0. */
  ghost predicate Extends(s0: State, s1: State) {
    && s0.stack <= s1.stack
    && s0.sccs <= s1.sccs
    && s0.counter <= s1.counter
    && s0.index.Keys <= s1.index.Keys
    && s0.index.Keys <= s0.lowlink.Keys <= s1.lowlink.Keys
    && (forall v :: v in s0.index ==> s1.index[v] == s0.index[v] && s1.lowlink[v] == s0.lowlink[v])
    && (forall v :: v in s1.index && v !in s0.index ==> s0.counter <= s1.index[v])
  }

  /** No edge from ys to the stack of s0 goes below low; targets are visited. */
  ghost predicate EdgesBounded(g: Graph<Id>, ys: seq<Id>, s0: State, s1: State, low: nat) {
    forall y, w :: y in ys && w in Succ(g, y) ==>
      w in s1.index && (w in s0.stack ==> w in s0.index && low <= s0.index[w])
  }

  /** low is the index of an entry of ys that v reaches. */
  ghost predicate Anchored(g: Graph<Id>, ys: seq<Id>, index: map<Id, nat>, v: Id, low: nat) {
    exists z :: z in ys && z in index && index[z] == low && Reach(g, v, z)
  }

  /** What strongconnect(v), called in s0, has achieved in s1. */
  ghost predicate Connected(g: Graph<Id>, s0: State, s1: State, v: Id) {
    && Extends(s0, s1)
    && v in s1.index && v in s1.lowlink
    && var top := s1.stack[|s0.stack|..];
    if top == [] then s1.lowlink[v] == s0.counter
    else
      && Anchored(g, s0.stack, s0.index, v, s1.lowlink[v])
      && AllReach(g, top, v)
      && EdgesBounded(g, top, s0, s1, s1.lowlink[v])
  }

  /** The invariant of strongconnect's loop; todo are the successors left. */
  ghost predicate Scanning(g: Graph<Id>, s0: State, s: State, v: Id, todo: set<Id>) {
    && Extends(s0, s)
    && |s0.stack| < |s.stack| && s.stack[|s0.stack|] == v
    && v in s.index && v in s.lowlink && v !in s0.index
    && s.index[v] == s0.counter
    && s.lowlink[v] <= s.index[v]
    && Anchored(g, s0.stack + [v], s.index, v, s.lowlink[v])
    && AllReach(g, s.stack[|s0.stack|..], v)
    && EdgesBounded(g, s.stack[|s0.stack| + 1..], s0, s, s.lowlink[v])
    && (forall w :: w in Succ(g, v) && w !in todo ==>
          w in s.index && (w in s0.stack ==> w in s0.index && s.lowlink[v] <= s0.index[w]))
  }

  // ----- steps --------------------------------------------------------------

  function Pushed(s: State, v: Id): State {
    State(s.counter + 1, s.stack + [v], s.onStack + {v}, s.index[v := s.counter], s.lowlink[v := s.counter], s.sccs)
  }

  lemma PushKeepsTables(vs: set<Id>, s: State, v: Id)
    requires Tables(vs, s) && v in vs && v !in s.index
    ensures Tables(vs, Pushed(s, v))
    ensures Extends(s, Pushed(s, v))
  {
    hide InBlocks;
    var t := Pushed(s, v);
    StackIsVisited(vs, s);
    forall i, j | 0 <= i < j < |t.stack|
      ensures t.index[t.stack[i]] < t.index[t.stack[j]]
    {
      assert s.stack[i] in s.stack;
      if j < |s.stack| {
        assert s.stack[j] in s.stack;
      }
    }
  }

  lemma PushKeepsStackReaches(g: Graph<Id>, s: State, v: Id)
    requires StackReaches(g, s) && AllReach(g, s.stack, v)
    ensures StackReaches(g, Pushed(s, v))
  {
    ReachSelf(g, v);
    var t := Pushed(s, v);
    forall i, j | 0 <= i <= j < |t.stack|
      ensures Reach(g, t.stack[i], t.stack[j])
    {
      if j == |s.stack| && i < j {
        assert t.stack[i] in s.stack;
      }
    }
  }

  lemma PushStartsScan(g: Graph<Id>, vs: set<Id>, s: State, v: Id, todo: set<Id>)
    requires Tables(vs, s) && v in vs && v !in s.index && Succ(g, v) <= todo
    ensures Scanning(g, s, Pushed(s, v), v, todo)
  {
    PushKeepsTables(vs, s, v);
    ReachSelf(g, v);
    var t := Pushed(s, v);
    assert t.stack[|s.stack|..] == [v];
    assert v in s.stack + [v];
    assert Anchored(g, s.stack + [v], t.index, v, t.lowlink[v]);
  }

  /** Everything on the stack reaches the successor about to be visited. */
  lemma StackReachesSuccessor(g: Graph<Id>, s0: State, s: State, v: Id, todo: set<Id>, w: Id)
    requires Scanning(g, s0, s, v, todo) && AllReach(g, s0.stack, v) && w in Succ(g, v)
    ensures AllReach(g, s.stack, w)
  {
    ReachEdge(g, v, w);
    forall y | y in s.stack
      ensures Reach(g, y, w)
    {
      var i :| 0 <= i < |s.stack| && s.stack[i] == y;
      if i >= |s0.stack| {
        assert y == s.stack[|s0.stack|..][i - |s0.stack|];
      }
      ReachTrans(g, y, v, w);
    }
  }

  function Lowered(s: State, v: Id, low: nat): State
    requires v in s.lowlink
  {
    s.(lowlink := s.lowlink[v := if low < s.lowlink[v] then low else s.lowlink[v]])
  }

  lemma LoweringKeepsInv(g: Graph<Id>, vs: set<Id>, s: State, v: Id, low: nat)
    requires Inv(g, vs, s) && v in s.lowlink
    ensures Inv(g, vs, Lowered(s, v, low))
  {
  }

  /** Everything on the stack reaches the vertex whose scan is open. */
  lemma StackReachesOpen(g: Graph<Id>, s0: State, s: State, v: Id, todo: set<Id>)
    requires Scanning(g, s0, s, v, todo) && AllReach(g, s0.stack, v)
    ensures AllReach(g, s.stack, v)
  {
    forall y | y in s.stack
      ensures Reach(g, y, v)
    {
      var i :| 0 <= i < |s.stack| && s.stack[i] == y;
      if i >= |s0.stack| {
        assert y == s.stack[|s0.stack|..][i - |s0.stack|];
      }
    }
  }

  lemma BelowOpenIsOld(vs: set<Id>, s0: State, s: State, z: Id)
    requires Tables(vs, s) && s0.stack <= s.stack && |s0.stack| < |s.stack|
    requires z in s.stack && z in s.index
    requires s.stack[|s0.stack|] in s.index && s.index[z] < s.index[s.stack[|s0.stack|]]
    ensures z in s0.stack
  {
    var i :| 0 <= i < |s.stack| && s.stack[i] == z;
  }

  lemma ExtendsTrans(s0: State, s1: State, s2: State)
    requires Extends(s0, s1) && Extends(s1, s2)
    ensures Extends(s0, s2)
  {
  }

  lemma StackIsVisited(vs: set<Id>, s: State)
    requires Tables(vs, s)
    ensures forall y :: y in s.stack ==> y in s.index
  {
    assert forall y :: y in s.stack ==> y in s.onStack;
  }

  lemma CallAnchors(g: Graph<Id>, vs: set<Id>, s0: State, s: State, s1: State, v: Id, w: Id, todo: set<Id>)
    requires Tables(vs, s) && Scanning(g, s0, s, v, todo) && w in Succ(g, v) && Connected(g, s, s1, w)
    ensures v in s1.index && v in s1.lowlink
    ensures var s2 := Lowered(s1, v, s1.lowlink[w]);
      s2.lowlink[v] <= s2.index[v] && Anchored(g, s0.stack + [v], s2.index, v, s2.lowlink[v])
  {
    var low := s1.lowlink[w];
    if low < s.lowlink[v] {
      assert Anchored(g, s.stack, s.index, w, low);
      var z :| z in s.stack && z in s.index && s.index[z] == low && Reach(g, w, z);
      ReachEdge(g, v, w);
      ReachTrans(g, v, w, z);
      BelowOpenIsOld(vs, s0, s, z);
      assert z in s0.stack + [v] && s1.index[z] == low;
    } else {
      var z :| z in s0.stack + [v] && z in s.index && s.index[z] == s.lowlink[v] && Reach(g, v, z);
      assert s1.index[z] == s.lowlink[v];
    }
  }

  lemma CallReaches(g: Graph<Id>, s0: State, s: State, s1: State, v: Id, w: Id, todo: set<Id>)
    requires Scanning(g, s0, s, v, todo) && AllReach(g, s0.stack, v) && Connected(g, s, s1, w)
    ensures AllReach(g, s1.stack[|s0.stack|..], v)
  {
    StackReachesOpen(g, s0, s, v, todo);
    var top := s1.stack[|s.stack|..];
    assert s1.stack == s.stack + top;
    forall y | y in s1.stack[|s0.stack|..]
      ensures Reach(g, y, v)
    {
      if y in top {
        var z :| z in s.stack && z in s.index && s.index[z] == s1.lowlink[w] && Reach(g, w, z);
        ReachTrans(g, y, w, z);
        ReachTrans(g, y, z, v);
      }
    }
  }

  lemma BoundsWiden(g: Graph<Id>, ys: seq<Id>, s0: State, s: State, s1: State, low: nat, low1: nat)
    requires EdgesBounded(g, ys, s0, s, low) && s.index.Keys <= s1.index.Keys && low1 <= low
    ensures EdgesBounded(g, ys, s0, s1, low1)
  {
  }

  /** The bound a call gives for the stack s holds for the older stack s0. */
  lemma BoundsForOlder(g: Graph<Id>, ys: seq<Id>, s0: State, s: State, s1: State, low: nat)
    requires EdgesBounded(g, ys, s, s1, low)
    requires s0.stack <= s.stack && forall y :: y in s0.stack ==> y in s0.index
    requires forall y :: y in s0.index ==> y in s.index && s.index[y] == s0.index[y]
    ensures EdgesBounded(g, ys, s0, s1, low)
  {
    forall y, x | y in ys && x in Succ(g, y) && x in s0.stack
      ensures low <= s0.index[x]
    {
      assert x in s.stack;
    }
  }

  lemma BoundsConcat(g: Graph<Id>, xs: seq<Id>, ys: seq<Id>, s0: State, s1: State, low: nat)
    requires EdgesBounded(g, xs, s0, s1, low) && EdgesBounded(g, ys, s0, s1, low)
    ensures EdgesBounded(g, xs + ys, s0, s1, low)
  {
  }

  lemma CallBounds(g: Graph<Id>, s0: State, s: State, s1: State, v: Id, w: Id, todo: set<Id>, low: nat)
    requires forall y :: y in s0.stack ==> y in s0.index
    requires Scanning(g, s0, s, v, todo) && Connected(g, s, s1, w)
    requires low <= s.lowlink[v] && low <= s1.lowlink[w]
    ensures EdgesBounded(g, s1.stack[|s0.stack| + 1..], s0, s1, low)
  {
    var older, top := s.stack[|s0.stack| + 1..], s1.stack[|s.stack|..];
    assert s1.stack[|s0.stack| + 1..] == older + top;
    BoundsWiden(g, older, s0, s, s1, s.lowlink[v], low);
    if top != [] {
      BoundsForOlder(g, top, s0, s, s1, s1.lowlink[w]);
      BoundsWiden(g, top, s0, s1, s1, s1.lowlink[w], low);
    } else {
      assert EdgesBounded(g, top, s0, s1, low);
    }
    BoundsConcat(g, older, top, s0, s1, low);
  }

  /** Lowering lowlink[v], v new, changes nothing the old state can see. */
  lemma LoweredExtends(s0: State, s: State, v: Id, low: nat)
    requires Extends(s0, s) && v !in s0.index && v in s.lowlink
    ensures Extends(s0, Lowered(s, v, low))
  {
  }

  /** Loop step, branch "w not in index": after strongconnect(w) and lowering. */
  lemma StepAfterCall(g: Graph<Id>, vs: set<Id>, s0: State, s: State, s1: State, v: Id, w: Id, todo: set<Id>)
    requires forall y :: y in s0.stack ==> y in s0.index
    requires Tables(vs, s)
    requires Scanning(g, s0, s, v, todo) && AllReach(g, s0.stack, v)
    requires w in Succ(g, v) && w !in s.index && Connected(g, s, s1, w)
    ensures v in s1.lowlink && w in s1.lowlink && s.index.Keys <= s1.index.Keys
    ensures Scanning(g, s0, Lowered(s1, v, s1.lowlink[w]), v, todo - {w})
  {
    hide Tables, AllReach, Anchored, EdgesBounded;
    CallAnchors(g, vs, s0, s, s1, v, w, todo);
    CallReaches(g, s0, s, s1, v, w, todo);
    var s2 := Lowered(s1, v, s1.lowlink[w]);
    CallBounds(g, s0, s, s1, v, w, todo, s2.lowlink[v]);
    BoundsWiden(g, s1.stack[|s0.stack| + 1..], s0, s1, s2, s2.lowlink[v], s2.lowlink[v]);
    ExtendsTrans(s0, s, s1);
    LoweredExtends(s0, s1, v, s1.lowlink[w]);
  }

  /** Loop step, branch "w in on_stack". */
  lemma StepOnStack(g: Graph<Id>, vs: set<Id>, s0: State, s: State, v: Id, w: Id, todo: set<Id>)
    requires forall y :: y in s0.stack ==> y in s0.index
    requires Tables(vs, s) && Scanning(g, s0, s, v, todo)
    requires w in Succ(g, v) && w in s.index && w in s.onStack
    ensures Scanning(g, s0, Lowered(s, v, s.index[w]), v, todo - {w})
  {
    var s2 := Lowered(s, v, s.index[w]);
    LoweredExtends(s0, s, v, s.index[w]);
    BoundsWiden(g, s.stack[|s0.stack| + 1..], s0, s, s2, s.lowlink[v], s2.lowlink[v]);
    if s.index[w] < s.lowlink[v] {
      BelowOpenIsOld(vs, s0, s, w);
      ReachEdge(g, v, w);
      assert w in s0.stack + [v];
      assert Anchored(g, s0.stack + [v], s2.index, v, s2.lowlink[v]);
    }
  }

  /** Loop step for a name that is not a module. */
  lemma StepOutside(g: Graph<Id>, s0: State, s: State, v: Id, w: Id, todo: set<Id>)
    requires Scanning(g, s0, s, v, todo) && w !in Succ(g, v)
    ensures Scanning(g, s0, s, v, todo - {w})
  {
  }

  /** Loop step for a successor that is visited and no longer on the stack. */
  lemma StepDone(g: Graph<Id>, vs: set<Id>, s0: State, s: State, v: Id, w: Id, todo: set<Id>)
    requires Tables(vs, s) && Scanning(g, s0, s, v, todo)
    requires w in s.index && w !in s.onStack
    ensures Scanning(g, s0, s, v, todo - {w})
  {
    assert w !in s.stack;
    assert forall y :: y in s0.stack ==> y in s.stack;
  }

  /** strongconnect(v) ends without closing a block: lowlink[v] < index[v]. */
  lemma EndOpen(g: Graph<Id>, s0: State, s: State, v: Id)
    requires Scanning(g, s0, s, v, {}) && s.lowlink[v] != s.index[v]
    requires forall y :: y in s0.stack ==> y in s0.index
    ensures Connected(g, s0, s, v)
  {
    var z :| z in s0.stack + [v] && z in s.index && s.index[z] == s.lowlink[v] && Reach(g, v, z);
    assert z in s0.stack;
    assert Anchored(g, s0.stack, s0.index, v, s.lowlink[v]);
    var top := s.stack[|s0.stack|..];
    assert top[0] == v && top[1..] == s.stack[|s0.stack| + 1..];
  }

  // ----- closing a block ------------------------------------------------------

  ghost predicate IsReverse(xs: seq<Id>, ys: seq<Id>) {
    |xs| == |ys| && forall i :: 0 <= i < |xs| ==> xs[i] == ys[|ys| - 1 - i]
  }

  lemma ReverseSameElements(xs: seq<Id>, ys: seq<Id>)
    requires IsReverse(xs, ys)
    ensures forall v :: v in xs <==> v in ys
  {
    forall v | v in ys
      ensures v in xs
    {
      var i :| 0 <= i < |ys| && ys[i] == v;
      assert xs[|ys| - 1 - i] == v;
    }
  }

  function Closed(s: State, n: nat, scc: Block): State
    requires n <= |s.stack|
  {
    s.(stack := s.stack[..n], onStack := s.onStack - (set w | w in scc), sccs := s.sccs + [scc])
  }

  lemma InBlocksAppend(sccs: seq<Block>, scc: Block, v: Id)
    ensures InBlocks(sccs + [scc], v) <==> InBlocks(sccs, v) || v in scc
  {
    var t := sccs + [scc];
    if InBlocks(sccs, v) {
      var k :| 0 <= k < |sccs| && v in sccs[k];
      assert v in t[k];
    }
    if v in scc {
      assert v in t[|sccs|];
    }
  }

  lemma StackSplit(vs: set<Id>, s: State, n: nat, scc: Block)
    requires Tables(vs, s) && n <= |s.stack| && IsReverse(scc, s.stack[n..])
    ensures forall v :: v in s.stack <==> v in s.stack[..n] || v in scc
    ensures forall v :: v in s.stack[..n] ==> v !in scc
  {
    ReverseSameElements(scc, s.stack[n..]);
    assert s.stack == s.stack[..n] + s.stack[n..];
    forall i, j | 0 <= i < n <= j < |s.stack|
      ensures s.stack[i] != s.stack[j]
    {
      assert s.index[s.stack[i]] < s.index[s.stack[j]];
    }
  }

  lemma CloseKeepsTables(vs: set<Id>, s: State, n: nat, scc: Block)
    requires Tables(vs, s) && n <= |s.stack| && IsReverse(scc, s.stack[n..])
    ensures Tables(vs, Closed(s, n, scc))
  {
    StackSplit(vs, s, n, scc);
    var t := Closed(s, n, scc);
    forall v
      ensures InBlocks(t.sccs, v) <==> InBlocks(s.sccs, v) || v in scc
    {
      InBlocksAppend(s.sccs, scc, v);
    }
  }

  lemma CloseNoRepeats(vs: set<Id>, s: State, n: nat, scc: Block)
    requires Tables(vs, s) && NoRepeats(s.sccs) && n <= |s.stack| && IsReverse(scc, s.stack[n..])
    ensures NoRepeats(s.sccs + [scc])
  {
    hide NoRepeats, Tables, InBlocks;
    StackSplit(vs, s, n, scc);
    StackFacts(vs, s);
    forall a, b | 0 <= a < b < |scc|
      ensures scc[a] != scc[b]
    {
      assert scc[a] == s.stack[|s.stack| - 1 - a] && scc[b] == s.stack[|s.stack| - 1 - b];
    }
    NoRepeatsAppend(s.sccs, scc);
  }

  lemma StackFacts(vs: set<Id>, s: State)
    requires Tables(vs, s)
    ensures forall v :: v in s.stack ==> !InBlocks(s.sccs, v)
    ensures forall i, j :: 0 <= i < j < |s.stack| ==> s.stack[i] != s.stack[j]
  {
    hide InBlocks;
    forall i, j | 0 <= i < j < |s.stack|
      ensures s.stack[i] != s.stack[j]
    {
      assert s.index[s.stack[i]] < s.index[s.stack[j]];
    }
  }

  lemma NoRepeatsAppend(sccs: seq<Block>, scc: Block)
    requires NoRepeats(sccs)
    requires forall v :: v in scc ==> !InBlocks(sccs, v)
    requires forall a, b :: 0 <= a < b < |scc| ==> scc[a] != scc[b]
    ensures NoRepeats(sccs + [scc])
  {
    var t := sccs + [scc];
    forall k, a, l, b | 0 <= k < |t| && 0 <= a < |t[k]| && 0 <= l < |t| && 0 <= b < |t[l]| && t[k][a] == t[l][b]
      ensures k == l && a == b
    {
      assert k < |sccs| ==> InBlocks(sccs, t[k][a]);
      assert l < |sccs| ==> InBlocks(sccs, t[l][b]);
      assert k == |sccs| ==> t[k][a] in scc;
      assert l == |sccs| ==> t[l][b] in scc;
    }
  }

  lemma CloseMutual(g: Graph<Id>, s: State, n: nat, scc: Block, v: Id)
    requires n < |s.stack| && IsReverse(scc, s.stack[n..]) && s.stack[n] == v
    requires StackReaches(g, s) && AllReach(g, s.stack[n..], v)
    ensures MutuallyReach(g, scc)
  {
    ReverseSameElements(scc, s.stack[n..]);
    forall x, y | x in scc && y in scc
      ensures Reach(g, x, y)
    {
      var j :| 0 <= j < |s.stack[n..]| && s.stack[n..][j] == y;
      assert s.stack[n + j] == y && Reach(g, s.stack[n], s.stack[n + j]);
      ReachTrans(g, x, v, y);
    }
  }

  lemma OpenIsUnique(g: Graph<Id>, vs: set<Id>, s0: State, s: State, v: Id)
    requires Tables(vs, s) && Scanning(g, s0, s, v, {})
    ensures |s0.stack| < |s.stack| && s.stack[|s0.stack|] == v
    ensures s.stack[..|s0.stack|] == s0.stack
    ensures forall i :: |s0.stack| < i < |s.stack| ==> s.stack[i] != v
  {
    forall i | |s0.stack| < i < |s.stack|
      ensures s.stack[i] != v
    {
      assert s.index[v] < s.index[s.stack[i]];
    }
  }

  /** With lowlink[v] == index[v] no edge leaves the block downwards on the stack. */
  lemma CloseTopological(g: Graph<Id>, vs: set<Id>, s0: State, s: State, v: Id, scc: Block)
    requires Tables(vs, s) && ReverseTopological(g, s.sccs)
    requires Scanning(g, s0, s, v, {}) && s.lowlink[v] == s.index[v]
    requires forall y :: y in s0.stack ==> y in s0.index && s0.index[y] < s0.counter
    requires IsReverse(scc, s.stack[|s0.stack|..])
    ensures ReverseTopological(g, s.sccs + [scc])
  {
    hide Tables, Scanning, ReverseTopological;
    var n := |s0.stack|;
    OpenIsUnique(g, vs, s0, s, v);
    ReverseSameElements(scc, s.stack[n..]);
    StackSplit(vs, s, n, scc);
    VisitedSplit(vs, s);
    assert s.stack[n..] == [v] + s.stack[n + 1..];
    BlockEdges(g, s0, s, v);
    assert forall x :: x in scc ==> x in [v] + s.stack[n + 1..];
    TopologicalAppend(g, s.sccs, scc);
  }

  lemma VisitedSplit(vs: set<Id>, s: State)
    requires Tables(vs, s)
    ensures forall w :: w in s.index ==> w in s.stack || InBlocks(s.sccs, w)
  {
  }

  lemma BlockEdges(g: Graph<Id>, s0: State, s: State, v: Id)
    requires Scanning(g, s0, s, v, {}) && s.lowlink[v] == s.index[v]
    requires forall y :: y in s0.stack ==> y in s0.index && s0.index[y] < s0.counter
    ensures forall x, w :: x in [v] + s.stack[|s0.stack| + 1..] && w in Succ(g, x) ==> w in s.index && w !in s0.stack
  {
  }

  lemma TopologicalAppend(g: Graph<Id>, sccs: seq<Block>, scc: Block)
    requires ReverseTopological(g, sccs)
    requires forall x, w :: x in scc && w in Succ(g, x) ==> InBlocks(sccs, w) || w in scc
    ensures ReverseTopological(g, sccs + [scc])
  {
    var t := sccs + [scc];
    forall k, x, w | 0 <= k < |t| && x in t[k] && w in Succ(g, x)
      ensures InBlocks(t[..k + 1], w)
    {
      if k < |sccs| {
        assert t[..k + 1] == sccs[..k + 1];
      } else {
        assert t[..k + 1] == t;
        InBlocksAppend(sccs, scc, w);
      }
    }
  }

  lemma CloseConnects(g: Graph<Id>, s0: State, s: State, v: Id, scc: Block)
    requires Scanning(g, s0, s, v, {}) && s.lowlink[v] == s.index[v]
    ensures s0.stack == s.stack[..|s0.stack|]
    ensures Connected(g, s0, Closed(s, |s0.stack|, scc), v)
  {
    hide Anchored, AllReach, EdgesBounded;
    assert Closed(s, |s0.stack|, scc).stack[|s0.stack|..] == [];
  }

  lemma CloseKeepsInv(g: Graph<Id>, vs: set<Id>, s0: State, s: State, v: Id, scc: Block)
    requires Inv(g, vs, s) && Tables(vs, s0)
    requires Scanning(g, s0, s, v, {}) && s.lowlink[v] == s.index[v]
    requires IsReverse(scc, s.stack[|s0.stack|..])
    ensures Inv(g, vs, Closed(s, |s0.stack|, scc))
    ensures Connected(g, s0, Closed(s, |s0.stack|, scc), v)
  {
    var n := |s0.stack|;
    StackIsVisited(vs, s0);
    CloseConnects(g, s0, s, v, scc);
    CloseInvParts(g, vs, s0, s, v, scc);
  }

  lemma CloseInvParts(g: Graph<Id>, vs: set<Id>, s0: State, s: State, v: Id, scc: Block)
    requires Inv(g, vs, s) && Scanning(g, s0, s, v, {}) && s.lowlink[v] == s.index[v]
    requires forall y :: y in s0.stack ==> y in s0.index && s0.index[y] < s0.counter
    requires IsReverse(scc, s.stack[|s0.stack|..])
    ensures Inv(g, vs, Closed(s, |s0.stack|, scc))
  {
    hide Tables, MutuallyReach, AllReach, NoRepeats, ReverseTopological, EdgesBounded, Anchored, Extends;
    var n := |s0.stack|;
    CloseKeepsTables(vs, s, n, scc);
    CloseNoRepeats(vs, s, n, scc);
    CloseMutual(g, s, n, scc, v);
    CloseTopological(g, vs, s0, s, v, scc);
    CloseGood(g, s.sccs, scc);
  }

  lemma CloseGood(g: Graph<Id>, sccs: seq<Block>, scc: Block)
    requires GoodBlocks(g, sccs) && scc != [] && MutuallyReach(g, scc)
    requires NoRepeats(sccs + [scc]) && ReverseTopological(g, sccs + [scc])
    ensures GoodBlocks(g, sccs + [scc])
  {
  }

  lemma StartKeepsInv(g: Graph<Id>, vs: set<Id>)
    ensures Inv(g, vs, State(0, [], {}, map[], map[], []))
  {
  }

  /** A call on an empty stack leaves it empty: there is nothing older to anchor to. */
  lemma TopCallEmptiesStack(g: Graph<Id>, s0: State, s1: State, v: Id)
    requires s0.stack == [] && Connected(g, s0, s1, v)
    ensures s1.stack == [] && v in s1.index && s0.index.Keys <= s1.index.Keys
  {
    assert s1.stack[|s0.stack|..] == s1.stack;
  }

  lemma EmptyStackIsDone(g: Graph<Id>, vs: set<Id>, s: State)
    requires Inv(g, vs, s) && s.stack == [] && vs <= s.index.Keys
    ensures IsSccList(g, vs, s.sccs)
  {
  }

  // ----- the algorithm --------------------------------------------------------

  class SccFinder {
    const graph: Graph<Id>
    const modules: set<Id>
    var counter: nat
    var stack: seq<Id>
    var onStack: set<Id>
    var index: map<Id, nat>
    var lowlink: map<Id, nat>
    var sccs: seq<Block>

    constructor (graph: Graph<Id>, modules: set<Id>)
      ensures this.graph == graph && this.modules == modules
      ensures Snap() == State(0, [], {}, map[], map[], [])
    {
      this.graph, this.modules := graph, modules;
      counter, stack, onStack, index, lowlink, sccs := 0, [], {}, map[], map[], [];
    }

    ghost function Snap(): State
      reads this
    {
      State(counter, stack, onStack, index, lowlink, sccs)
    }

    /** The graph the algorithm walks: edges between known modules. */
    ghost function Net(): Graph<Id> {
      Within(graph, modules)
    }

    /** The inner "while True" that pops one component off the stack. */
    method PopComponent(v: Id, ghost n: nat) returns (scc: Block)
      requires n < |stack| && stack[n] == v && forall i :: n < i < |stack| ==> stack[i] != v
      modifies this`stack, this`onStack
      ensures IsReverse(scc, old(stack)[n..])
      ensures stack == old(stack)[..n]
      ensures onStack == old(onStack) - (set w | w in scc)
    {
      scc := [];
      while true
        invariant n < |stack| <= |old(stack)| && stack == old(stack)[..|stack|]
        invariant forall i :: n < i < |stack| ==> old(stack)[i] != v
        invariant IsReverse(scc, old(stack)[|stack|..])
        invariant onStack == old(onStack) - (set w | w in scc)
        decreases |stack|
      {
        var w := stack[|stack| - 1];
        stack := stack[..|stack| - 1];
        onStack := onStack - {w};
        scc := scc + [w];
        if w == v {
          break;
        }
      }
    }

    method StrongConnect(v: Id)
      requires Inv(Net(), modules, Snap())
      requires v in modules && v !in index && AllReach(Net(), stack, v)
      modifies this
      ensures Inv(Net(), modules, Snap())
      ensures Connected(Net(), old(Snap()), Snap(), v)
      decreases modules - index.Keys
    {
      hide Tables, StackReaches, GoodBlocks, Scanning, Connected, AllReach, Extends, Anchored, EdgesBounded, InBlocks, IsReverse;
      ghost var g, s0 := Net(), Snap();
      PushKeepsTables(modules, s0, v);
      PushKeepsStackReaches(g, s0, v);
      PushStartsScan(g, modules, s0, v, Succ(graph, v));
      StackIsVisited(modules, s0);

      index := index[v := counter];
      lowlink := lowlink[v := counter];
      counter := counter + 1;
      stack := stack + [v];
      onStack := onStack + {v};

      var todo := Succ(graph, v);
      assert forall w :: w in Succ(g, v) <==> w in todo && w in modules;
      while todo != {}
        invariant todo <= Succ(graph, v)
        invariant Inv(g, modules, Snap())
        invariant Scanning(g, s0, Snap(), v, todo)
        invariant s0.index.Keys + {v} <= index.Keys && v in lowlink
        decreases todo
      {
        var w :| w in todo;
        ghost var s, rest := Snap(), todo;
        todo := todo - {w};
        if w !in modules {
          StepOutside(g, s0, s, v, w, rest);
          continue;
        }
        if w !in index {
          StackReachesSuccessor(g, s0, s, v, rest, w);
          StrongConnect(w);
          ghost var s1 := Snap();
          StepAfterCall(g, modules, s0, s, s1, v, w, rest);
          LoweringKeepsInv(g, modules, s1, v, s1.lowlink[w]);
          lowlink := lowlink[v := if lowlink[w] < lowlink[v] then lowlink[w] else lowlink[v]];
        } else if w in onStack {
          StepOnStack(g, modules, s0, s, v, w, rest);
          LoweringKeepsInv(g, modules, s, v, s.index[w]);
          lowlink := lowlink[v := if index[w] < lowlink[v] then index[w] else lowlink[v]];
        } else {
          StepDone(g, modules, s0, s, v, w, rest);
        }
      }

      ghost var s := Snap();
      if lowlink[v] == index[v] {
        OpenIsUnique(g, modules, s0, s, v);
        var scc := PopComponent(v, |s0.stack|);
        sccs := sccs + [scc];
        CloseKeepsInv(g, modules, s0, s, v, scc);
        assert Snap() == Closed(s, |s0.stack|, scc);
      } else {
        EndOpen(g, s0, s, v);
      }
    }

    /** The driver loop over mod_ids. */
    method Run(modIds: seq<Id>)
      requires Snap() == State(0, [], {}, map[], map[], [])
      requires forall v :: v in modIds <==> v in modules
      modifies this
      ensures IsSccList(Net(), modules, sccs)
    {
      hide Tables, StackReaches, GoodBlocks, Connected;
      ghost var g := Net();
      StartKeepsInv(g, modules);
      for i := 0 to |modIds|
        invariant Inv(g, modules, Snap()) && stack == []
        invariant forall j :: 0 <= j < i ==> modIds[j] in index
      {
        var v := modIds[i];
        if v !in index {
          ghost var s := Snap();
          StrongConnect(v);
          TopCallEmptiesStack(g, s, Snap(), v);
        }
      }
      EmptyStackIsDone(g, modules, Snap());
    }
  }
}
