/**
 auto_layout put together: the module graph is built from node and edge rows,
 its strongly connected components are ranked, and every module gets a cell
 (flow_rank, flow_col).
*/
module AutoLayout {
  import opened Graphs
  import opened Tarjan
  import opened Layering
  import opened EdgeTable

  // ----- building the module graph --------------------------------------------

  /** The module whose "contains" edge to x comes last; "" stands for none. */
  function Owner(modules: set<Id>, edges: seq<Edge>, x: Id): Id {
    if edges == [] then "" else
      var e := edges[|edges| - 1];
      if e.kind == "contains" && e.from in modules && e.to == x then e.from
      else Owner(modules, edges[..|edges| - 1], x)
  }

  /** A row's endpoint lifted to module level; "" when there is no module. */
  function Lift(modules: set<Id>, edges: seq<Edge>, x: Id): Id {
    if x in modules && x != "" then x else Owner(modules, edges, x)
  }

  ghost predicate Depends(modules: set<Id>, edges: seq<Edge>, seen: seq<Edge>, a: Id, b: Id) {
    && a != "" && b != "" && a != b
    && exists e :: e in seen && IsDependency(e) && Lift(modules, edges, e.from) == a && Lift(modules, edges, e.to) == b
  }

  ghost predicate IsReversed(graph: Graph<Id>, reverse: Graph<Id>) {
    && (forall a, b :: b in Succ(graph, a) <==> a in Succ(reverse, b))
    && (forall a :: a in graph ==> graph[a] != {})
    && (forall b :: b in reverse ==> reverse[b] != {})
  }

  lemma OwnerIsModule(modules: set<Id>, edges: seq<Edge>, x: Id)
    ensures Owner(modules, edges, x) == "" || Owner(modules, edges, x) in modules
  {
  }

  function Link(g: Graph<Id>, a: Id, b: Id): Graph<Id> {
    g[a := Succ(g, a) + {b}]
  }

  method MapChildren(modules: set<Id>, edges: seq<Edge>) returns (child: map<Id, Id>)
    ensures forall x :: (if x in child then child[x] else "") == Owner(modules, edges, x)
  {
    child := map[];
    for i := 0 to |edges|
      invariant forall x :: (if x in child then child[x] else "") == Owner(modules, edges[..i], x)
    {
      assert edges[..i + 1][..i] == edges[..i];
      var e := edges[i];
      if e.kind == "contains" && e.from in modules {
        child := child[e.to := e.from];
      }
    }
    assert edges[..|edges|] == edges;
  }

  method BuildModuleGraph(modules: set<Id>, edges: seq<Edge>) returns (graph: Graph<Id>, reverse: Graph<Id>)
    ensures forall a, b :: b in Succ(graph, a) <==> Depends(modules, edges, edges, a, b)
    ensures IsReversed(graph, reverse)
  {
    hide Depends, IsReversed, Succ;
    var child := MapChildren(modules, edges);
    graph, reverse := map[], map[];
    NoRows(modules, edges);
    for i := 0 to |edges|
      invariant forall a, b :: b in Succ(graph, a) <==> Depends(modules, edges, edges[..i], a, b)
      invariant IsReversed(graph, reverse)
    {
      var e := edges[i];
      assert edges[..i + 1] == edges[..i] + [e];
      OneMoreRow(modules, edges, edges[..i], e);
      if e.kind == "contains" || e.kind == "constrains" {
        continue;
      }
      var from := if e.from in modules then e.from else "";
      if from == "" {
        from := if e.from in child then child[e.from] else "";
      }
      var to := if e.to in modules then e.to else "";
      if to == "" {
        to := if e.to in child then child[e.to] else "";
      }
      assert from == Lift(modules, edges, e.from) && to == Lift(modules, edges, e.to);
      if from != "" && to != "" && from != to {
        LinkKeepsReversed(graph, reverse, from, to);
        graph := graph[from := Succ(graph, from) + {to}];
        reverse := reverse[to := Succ(reverse, to) + {from}];
      }
    }
    assert edges[..|edges|] == edges;
  }

  lemma NoRows(modules: set<Id>, edges: seq<Edge>)
    ensures IsReversed(map[], map[])
    ensures forall a, b :: b in Succ<Id>(map[], a) <==> Depends(modules, edges, [], a, b)
  {
  }

  /** Both ends of an edge of the module graph are modules. */
  lemma DependencyInside(modules: set<Id>, edges: seq<Edge>, a: Id, b: Id)
    requires Depends(modules, edges, edges, a, b)
    ensures a in modules && b in modules
  {
    var e :| e in edges && IsDependency(e) && Lift(modules, edges, e.from) == a && Lift(modules, edges, e.to) == b;
    OwnerIsModule(modules, edges, e.from);
    OwnerIsModule(modules, edges, e.to);
  }

  /** Row k is the last "contains" row that puts x into a module, and m is that module. */
  predicate IsLastHome(modules: set<Id>, edges: seq<Edge>, x: Id, k: nat, m: Id) {
    && k < |edges| && IsHome(modules, edges[k], x) && edges[k].from == m
    && forall l :: k < l < |edges| ==> !IsHome(modules, edges[l], x)
  }

  predicate IsHome(modules: set<Id>, e: Edge, x: Id) {
    e.kind == "contains" && e.from in modules && e.to == x
  }

  /** A module stands for itself, and anything else for the module that contains it last. */
  ghost predicate StandsFor(modules: set<Id>, edges: seq<Edge>, x: Id, m: Id) {
    if x in modules && x != "" then m == x else exists k: nat :: IsLastHome(modules, edges, x, k, m)
  }

  lemma {:induction false} OwnerIsLastHome(modules: set<Id>, edges: seq<Edge>, x: Id, m: Id)
    requires m != ""
    ensures Owner(modules, edges, x) == m <==> exists k: nat :: IsLastHome(modules, edges, x, k, m)
    decreases |edges|
  {
    if edges == [] {
    } else {
      var last := |edges| - 1;
      OwnerIsLastHome(modules, edges[..last], x, m);
      if IsHome(modules, edges[last], x) {
        assert edges[last].from == m ==> IsLastHome(modules, edges, x, last, m);
      } else {
        if k: nat :| IsLastHome(modules, edges[..last], x, k, m) {
          assert IsLastHome(modules, edges, x, k, m);
        }
        if k: nat :| IsLastHome(modules, edges, x, k, m) {
          assert IsLastHome(modules, edges[..last], x, k, m);
        }
      }
    }
  }

  /** Module a depends on module b exactly when a row of some other type than contains and constrains says so. */
  lemma DependsIff(modules: set<Id>, edges: seq<Edge>, a: Id, b: Id)
    ensures Depends(modules, edges, edges, a, b) <==>
      a != "" && b != "" && a != b
      && exists e :: e in edges && e.kind !in {"contains", "constrains"}
                     && StandsFor(modules, edges, e.from, a) && StandsFor(modules, edges, e.to, b)
  {
    if a != "" && b != "" {
      forall x
        ensures Lift(modules, edges, x) == a <==> StandsFor(modules, edges, x, a)
        ensures Lift(modules, edges, x) == b <==> StandsFor(modules, edges, x, b)
      {
        OwnerIsLastHome(modules, edges, x, a);
        OwnerIsLastHome(modules, edges, x, b);
      }
      hide Lift, StandsFor;
    }
  }

  lemma OneMoreRow(modules: set<Id>, edges: seq<Edge>, seen: seq<Edge>, e: Edge)
    ensures forall a, b :: Depends(modules, edges, seen + [e], a, b) <==>
      Depends(modules, edges, seen, a, b)
      || (a != "" && b != "" && a != b && IsDependency(e) && a == Lift(modules, edges, e.from) && b == Lift(modules, edges, e.to))
  {
    forall a, b | Depends(modules, edges, seen, a, b)
      ensures Depends(modules, edges, seen + [e], a, b)
    {
      var d :| d in seen && IsDependency(d) && Lift(modules, edges, d.from) == a && Lift(modules, edges, d.to) == b;
      assert d in seen + [e];
    }
    assert e in seen + [e];
  }

  lemma LinkKeepsReversed(graph: Graph<Id>, reverse: Graph<Id>, a: Id, b: Id)
    requires IsReversed(graph, reverse)
    ensures IsReversed(Link(graph, a, b), Link(reverse, b, a))
    ensures forall x, y :: y in Succ(Link(graph, a, b), x) <==> y in Succ(graph, x) || (x == a && y == b)
  {
    var g, r := Link(graph, a, b), Link(reverse, b, a);
    forall x, y
      ensures y in Succ(g, x) <==> y in Succ(graph, x) || (x == a && y == b)
      ensures x in Succ(r, y) <==> x in Succ(reverse, y) || (x == a && y == b)
    {
    }
  }

  // ----- flow ranks -----------------------------------------------------------

  ghost predicate IsConnected(graph: Graph<Id>, reverse: Graph<Id>, v: Id) {
    v in graph || v in reverse
  }

  /**
   flow_rank of a connected vertex is the longest-path depth of its strongly
   connected component, plus an offset: 1 for modules, which leave row 0 to
   system nodes, and 0 for the components inside a module.
  */
  ghost predicate RanksByDepth(graph: Graph<Id>, reverse: Graph<Id>, comp: map<Id, nat>, dag: Graph<nat>, offset: nat, rank: map<Id, nat>) {
    forall v :: v in rank && IsConnected(graph, reverse, v) ==>
      v in comp && rank[v] >= offset && IsDepth<nat>(dag, comp[v], rank[v] - offset)
  }

  /**
   flow_rank strictly increases along an edge between two components and is
   equal inside one, whatever cycles the module graph has.
  */
  lemma RanksFollowEdges(graph: Graph<Id>, reverse: Graph<Id>, vs: set<Id>, sccs: seq<Block>, comp: map<Id, nat>,
                         dag: Graph<nat>, offset: nat, rank: map<Id, nat>, a: Id, b: Id)
    requires IsReversed(graph, reverse) && IsSccList(Within(graph, vs), vs, sccs)
    requires IsComponentOf(sccs, comp) && IsCondensation(graph, comp, dag)
    requires RanksByDepth(graph, reverse, comp, dag, offset, rank)
    requires a in vs && b in vs && a in rank && b in rank && b in Succ(graph, a)
    ensures if Reach(Within(graph, vs), b, a) then rank[a] == rank[b] else rank[a] < rank[b]
  {
    hide IsDepth, IsSccList, IsComponentOf, Reach, Within, Joins;
    ComponentOfEdge(graph, vs, sccs, comp, a, b);
    CondensedEdge(graph, comp, dag, a, b);
    assert a in Succ(reverse, b);
    assert IsConnected(graph, reverse, a) && IsConnected(graph, reverse, b);
    hide IsReversed, IsCondensation;
    if comp[a] == comp[b] {
      DepthIsUnique<nat>(dag, comp[a], rank[a] - offset, rank[b] - offset);
    } else {
      DepthGrows<nat>(dag, comp[a], comp[b], rank[a] - offset, rank[b] - offset);
    }
  }

  /** The ends of an edge share a component exactly when the edge lies on a cycle. */
  lemma ComponentOfEdge(graph: Graph<Id>, vs: set<Id>, sccs: seq<Block>, comp: map<Id, nat>, a: Id, b: Id)
    requires IsSccList(Within(graph, vs), vs, sccs) && IsComponentOf(sccs, comp)
    requires a in vs && b in vs && b in Succ(graph, a)
    ensures a in comp && b in comp
    ensures comp[a] == comp[b] <==> Reach(Within(graph, vs), b, a)
  {
    hide Reach;
    ComponentsListed(graph, vs, sccs, comp);
    var g := Within(graph, vs);
    assert b in Succ(g, a);
    ReachEdge(g, a, b);
    SccListIsCorrect(g, vs, sccs, comp[a], comp[b], a, b);
  }

  lemma CondensedEdge(graph: Graph<Id>, comp: map<Id, nat>, dag: Graph<nat>, a: Id, b: Id)
    requires IsCondensation(graph, comp, dag) && b in Succ(graph, a) && a in comp && b in comp
    ensures comp[a] != comp[b] ==> comp[b] in Succ(dag, comp[a])
  {
  }

  lemma ComponentsListed(graph: Graph<Id>, vs: set<Id>, sccs: seq<Block>, comp: map<Id, nat>)
    requires IsSccList(Within(graph, vs), vs, sccs) && IsComponentOf(sccs, comp)
    ensures forall v :: v in vs <==> v in comp
    ensures forall v :: v in comp ==> comp[v] < |sccs| && v in sccs[comp[v]]
  {
    hide GoodBlocks;
    forall v | v in vs
      ensures v in comp
    {
      var k :| 0 <= k < |sccs| && v in sccs[k];
      var j :| 0 <= j < |sccs[k]| && sccs[k][j] == v;
    }
    forall v | v in comp
      ensures v in vs
    {
      assert InBlocks(sccs, v);
    }
  }

  ghost predicate HasConnected(graph: Graph<Id>, reverse: Graph<Id>, rank: map<Id, nat>) {
    exists v :: v in rank && IsConnected(graph, reverse, v)
  }

  /** r is one more than the largest rank of a connected vertex. */
  ghost predicate IsJustBelow(graph: Graph<Id>, reverse: Graph<Id>, rank: map<Id, nat>, r: nat) {
    && (forall v :: v in rank && IsConnected(graph, reverse, v) ==> rank[v] < r)
    && (exists v :: v in rank && IsConnected(graph, reverse, v) && rank[v] + 1 == r)
  }

  /** Vertices without any edge share the first row below all connected ones, or row offset + 1 if there are none. */
  ghost predicate IsolatedAtBottom(graph: Graph<Id>, reverse: Graph<Id>, offset: nat, rank: map<Id, nat>) {
    forall w :: w in rank && !IsConnected(graph, reverse, w) ==>
      if HasConnected(graph, reverse, rank) then IsJustBelow(graph, reverse, rank, rank[w]) else rank[w] == offset + 1
  }

  ghost predicate IsHighest(n: nat, depth: map<nat, nat>, highest: nat) {
    && (forall j: nat :: j < n ==> j in depth && depth[j] <= highest)
    && if n == 0 then highest == 0 else exists j: nat :: j < n && j in depth && depth[j] == highest
  }

  method HighestRank(n: nat, depth: map<nat, nat>) returns (highest: nat)
    requires forall j: nat :: j < n ==> j in depth
    ensures IsHighest(n, depth, highest)
  {
    highest := 0;
    for j := 0 to n
      invariant IsHighest(j, depth, highest)
    {
      assert j in depth;
      if depth[j] > highest {
        highest := depth[j];
      }
    }
  }

  /** A component below the top row is entered by an edge, so its depth is the rank of a connected vertex. */
  lemma EnteredComponent(graph: Graph<Id>, reverse: Graph<Id>, comp: map<Id, nat>, dag: Graph<nat>, c: nat, d: nat) returns (v: Id)
    requires IsReversed(graph, reverse) && IsCondensation(graph, comp, dag) && IsDepth<nat>(dag, c, d) && d > 0
    ensures v in comp && comp[v] == c && IsConnected(graph, reverse, v)
  {
    var p :| EndsAt(dag, p, c) && |p| == d + 1;
    PathInit<nat>(dag, p, c);
    var a, b :| Joins(graph, comp, a, b, p[|p| - 2], c);
    assert a in Succ(reverse, b);
    v := b;
  }

  lemma IsolatedBelowHighest(graph: Graph<Id>, reverse: Graph<Id>, comp: map<Id, nat>, dag: Graph<nat>, n: nat,
                             depth: map<nat, nat>, highest: nat, offset: nat, rank: map<Id, nat>)
    requires IsReversed(graph, reverse) && IsCondensation(graph, comp, dag) && IsHighest(n, depth, highest)
    requires forall j: nat :: j < n ==> j in depth && IsDepth<nat>(dag, j, depth[j])
    requires forall v :: v in rank <==> v in comp
    requires forall v :: v in comp ==> comp[v] < n
    requires forall v :: v in rank ==> rank[v] == if IsConnected(graph, reverse, v) then depth[comp[v]] + offset else highest + offset + 1
    ensures IsolatedAtBottom(graph, reverse, offset, rank)
  {
    hide IsReversed, IsCondensation, IsConnected, IsDepth;
    if highest > 0 {
      var c: nat :| c < n && c in depth && depth[c] == highest;
      var v := EnteredComponent(graph, reverse, comp, dag, c, highest);
      assert v in rank && rank[v] == highest + offset;
    }
    forall w | w in rank && !IsConnected(graph, reverse, w)
      ensures if HasConnected(graph, reverse, rank) then IsJustBelow(graph, reverse, rank, rank[w]) else rank[w] == offset + 1
    {
    }
  }

  method AssignRanks(modIds: seq<Id>, graph: Graph<Id>, reverse: Graph<Id>, comp: map<Id, nat>, depth: map<nat, nat>, highest: nat, offset: nat)
    returns (rank: map<Id, nat>)
    requires forall v :: v in modIds ==> v in comp && comp[v] in depth && depth[comp[v]] <= highest
    ensures forall v :: v in rank <==> v in modIds
    ensures forall v :: v in rank ==> rank[v] == if IsConnected(graph, reverse, v) then depth[comp[v]] + offset else highest + offset + 1
  {
    rank := map[];
    for i := 0 to |modIds|
      invariant forall v :: v in rank <==> v in modIds[..i]
      invariant forall v :: v in rank ==> rank[v] == if IsConnected(graph, reverse, v) then depth[comp[v]] + offset else highest + offset + 1
    {
      var v := modIds[i];
      assert modIds[..i + 1] == modIds[..i] + [v];
      if v in comp && (v in graph || v in reverse) {
        rank := rank[v := depth[comp[v]] + offset];
      } else {
        rank := rank[v := highest + offset + 1];
      }
    }
    assert modIds[..|modIds|] == modIds;
  }

  /** Tarjan, condensation, Kahn and the assignment of flow_rank. */
  method FlowRanks(modIds: seq<Id>, modules: set<Id>, graph: Graph<Id>, reverse: Graph<Id>, offset: nat)
    returns (rank: map<Id, nat>, sccs: seq<Block>, comp: map<Id, nat>, dag: Graph<nat>)
    requires forall v :: v in modIds <==> v in modules
    requires IsReversed(graph, reverse)
    ensures IsSccList(Within(graph, modules), modules, sccs)
    ensures IsComponentOf(sccs, comp) && IsCondensation(graph, comp, dag)
    ensures forall v :: v in rank <==> v in modules
    ensures RanksByDepth(graph, reverse, comp, dag, offset, rank)
    ensures IsolatedAtBottom(graph, reverse, offset, rank)
  {
    hide IsReversed, IsolatedAtBottom, IsDepth, IsCondensation, IsComponentOf, GoodBlocks, IsSccList, Downwards;
    var finder := new SccFinder(graph, modules);
    finder.Run(modIds);
    sccs := finder.sccs;
    BlocksDoNotRepeat(Within(graph, modules), modules, sccs);
    comp := NumberComponents(sccs);
    ComponentsListed(graph, modules, sccs, comp);
    var degree;
    dag, degree := Condense(graph, comp, |sccs|);
    CondensationGoesDown(graph, modules, sccs, comp, dag);
    var depth, _ := RankComponents(dag, |sccs|, degree);
    var highest := HighestRank(|sccs|, depth);
    rank := AssignRanks(modIds, graph, reverse, comp, depth, highest, offset);
    IsolatedBelowHighest(graph, reverse, comp, dag, |sccs|, depth, highest, offset, rank);
  }

  lemma BlocksDoNotRepeat(g: Graph<Id>, vs: set<Id>, sccs: seq<Block>)
    requires IsSccList(g, vs, sccs)
    ensures NoRepeats(sccs)
  {
  }

  // ----- flow columns ---------------------------------------------------------

  ghost predicate Descending(count: map<Id, nat>, row: seq<Id>) {
    && (forall v :: v in row ==> v in count)
    && (forall i, j :: 0 <= i < j < |row| ==> count[row[i]] >= count[row[j]])
  }

  lemma DescendingCons(count: map<Id, nat>, v: Id, row: seq<Id>)
    requires Descending(count, row) && v in count
    requires forall x :: x in row ==> x in count && count[x] <= count[v]
    ensures Descending(count, [v] + row)
  {
    forall i, j | 0 <= i < j < |[v] + row|
      ensures count[([v] + row)[i]] >= count[([v] + row)[j]]
    {
      assert ([v] + row)[j] == row[j - 1] && row[j - 1] in row;
    }
  }

  lemma HeadIsLargest(count: map<Id, nat>, row: seq<Id>)
    requires Descending(count, row) && row != []
    ensures Descending(count, row[1..]) && row[0] in count
    ensures forall x :: x in row ==> x in count && count[x] <= count[row[0]]
  {
  }

  function Inserted(count: map<Id, nat>, row: seq<Id>, v: Id): (r: seq<Id>)
    requires Descending(count, row) && v in count
    ensures Descending(count, r)
    ensures multiset(r) == multiset(row) + multiset{v}
    ensures forall x :: x in r ==> x in row || x == v
  {
    if row == [] then [v] else
      HeadIsLargest(count, row);
      if count[row[0]] < count[v] then
        DescendingCons(count, v, row);
        [v] + row
      else
        var r := Inserted(count, row[1..], v);
        DescendingCons(count, row[0], r);
        assert row == [row[0]] + row[1..];
        [row[0]] + r
  }

  /** The library's stable sort by decreasing edge count. */
  function SortedRow(count: map<Id, nat>, row: seq<Id>): (r: seq<Id>)
    requires forall v :: v in row ==> v in count
    ensures Descending(count, r) && multiset(r) == multiset(row)
  {
    if row == [] then [] else
      var last := |row| - 1;
      assert row == row[..last] + [row[last]];
      Inserted(count, SortedRow(count, row[..last]), row[last])
  }

  /** x stands before y in the list. */
  ghost predicate Before(ids: seq<Id>, x: Id, y: Id) {
    exists a, b :: 0 <= a < b < |ids| && ids[a] == x && ids[b] == y
  }

  lemma BeforeInLonger(ids: seq<Id>, longer: seq<Id>, x: Id, y: Id)
    requires ids <= longer && Before(ids, x, y)
    ensures Before(longer, x, y)
  {
    var a, b :| 0 <= a < b < |ids| && ids[a] == x && ids[b] == y;
    assert longer[a] == x && longer[b] == y;
  }

  /** x comes before y in a row: it has more edges, or as many and stands earlier in the list. */
  ghost predicate Ahead(ids: seq<Id>, count: map<Id, nat>, x: Id, y: Id) {
    x in count && y in count && (count[x] > count[y] || (count[x] == count[y] && Before(ids, x, y)))
  }

  ghost predicate InOrder(ids: seq<Id>, count: map<Id, nat>, row: seq<Id>) {
    forall i, j :: 0 <= i < j < |row| ==> Ahead(ids, count, row[i], row[j])
  }

  lemma InsertedStep(count: map<Id, nat>, row: seq<Id>, v: Id)
    requires Descending(count, row) && v in count
    ensures row == [] ==> Inserted(count, row, v) == [v]
    ensures row != [] ==>
      && Descending(count, row[1..]) && row[0] in count && (forall i :: 0 <= i < |row| ==> row[i] in count && count[row[i]] <= count[row[0]])
      && Inserted(count, row, v) == if count[row[0]] < count[v] then [v] + row else [row[0]] + Inserted(count, row[1..], v)
  {
    if row != [] {
      HeadIsLargest(count, row);
      assert forall i :: 0 <= i < |row| ==> row[i] in row;
    }
  }

  /** Where the sort inserts: behind everything with as many edges. */
  ghost predicate GoesTo(count: map<Id, nat>, row: seq<Id>, v: Id, k: nat) {
    && k <= |row| && v in count && (forall i :: 0 <= i < |row| ==> row[i] in count)
    && (forall i :: k <= i < |row| ==> count[row[i]] < count[v])
    && (forall i :: 0 <= i < k ==> count[row[i]] >= count[v])
  }

  lemma GoesOneOn(count: map<Id, nat>, row: seq<Id>, v: Id, j: nat)
    requires row != [] && GoesTo(count, row[1..], v, j) && row[0] in count && count[row[0]] >= count[v]
    ensures GoesTo(count, row, v, j + 1)
    ensures [row[0]] + (row[1..][..j] + [v] + row[1..][j..]) == row[..j + 1] + [v] + row[j + 1..]
  {
    assert forall i :: 1 <= i < |row| ==> row[i] == row[1..][i - 1];
  }

  lemma {:induction false} InsertedAt(count: map<Id, nat>, row: seq<Id>, v: Id) returns (k: nat)
    requires Descending(count, row) && v in count
    ensures GoesTo(count, row, v, k) && Inserted(count, row, v) == row[..k] + [v] + row[k..]
    decreases |row|
  {
    InsertedStep(count, row, v);
    hide Inserted, Descending;
    if row == [] {
      k := 0;
    } else if count[row[0]] < count[v] {
      k := 0;
      assert row[..0] + [v] + row[0..] == [v] + row;
    } else {
      var j := InsertedAt(count, row[1..], v);
      hide GoesTo;
      GoesOneOn(count, row, v, j);
      k := j + 1;
    }
  }

  lemma InsertedInOrder(ids: seq<Id>, count: map<Id, nat>, row: seq<Id>, v: Id)
    requires Descending(count, row) && v in count && InOrder(ids, count, row)
    requires forall x :: x in row ==> Before(ids, x, v)
    ensures InOrder(ids, count, Inserted(count, row, v))
  {
    var k := InsertedAt(count, row, v);
    var r := Inserted(count, row, v);
    hide Before, Inserted;
    forall i, j | 0 <= i < j < |r|
      ensures Ahead(ids, count, r[i], r[j])
    {
      assert i < k ==> r[i] == row[i] && row[i] in row;
      assert i > k ==> r[i] == row[i - 1];
      assert j < k ==> r[j] == row[j];
      assert j > k ==> r[j] == row[j - 1] && row[j - 1] in row;
    }
  }

  /** The row is listed as in ids. */
  ghost predicate Follows(ids: seq<Id>, row: seq<Id>) {
    forall i, j :: 0 <= i < j < |row| ==> Before(ids, row[i], row[j])
  }

  lemma SortedSnoc(count: map<Id, nat>, row: seq<Id>)
    requires row != [] && forall v :: v in row ==> v in count
    ensures var init := row[..|row| - 1];
      && (forall v :: v in init ==> v in count)
      && SortedRow(count, row) == Inserted(count, SortedRow(count, init), row[|row| - 1])
      && forall x :: x in SortedRow(count, init) <==> x in init
  {
    var init := row[..|row| - 1];
    var r := SortedRow(count, init);
    assert forall x :: x in r <==> x in multiset(r);
    assert forall x :: x in init <==> x in multiset(init);
  }

  /** The sort is stable: among equals the order of the list is kept. */
  lemma {:induction false} SortedInOrder(ids: seq<Id>, count: map<Id, nat>, row: seq<Id>)
    requires (forall v :: v in row ==> v in count) && Follows(ids, row)
    ensures InOrder(ids, count, SortedRow(count, row))
    decreases |row|
  {
    hide Before;
    if row == [] {
    } else {
      var init, last := row[..|row| - 1], row[|row| - 1];
      assert row == init + [last];
      SortedInOrder(ids, count, init);
      SortedSnoc(count, row);
      hide SortedRow, Inserted, Descending, InOrder;
      forall x | x in SortedRow(count, init)
        ensures Before(ids, x, last)
      {
        var i :| 0 <= i < |init| && init[i] == x;
        assert row[i] == x;
      }
      InsertedInOrder(ids, count, SortedRow(count, init), last);
    }
  }

  method CountEdges(modIds: seq<Id>, graph: Graph<Id>, reverse: Graph<Id>) returns (count: map<Id, nat>)
    ensures forall v :: v in modIds ==> v in count && count[v] == |Succ(graph, v)| + |Succ(reverse, v)|
  {
    count := map[];
    var left := graph.Keys;
    while left != {}
      invariant left <= graph.Keys
      invariant forall v :: v in count <==> v in graph && v !in left
      invariant forall v :: v in count ==> count[v] == |Succ(graph, v)|
      decreases left
    {
      var v :| v in left;
      count := count[v := |graph[v]|];
      left := left - {v};
    }
    left := reverse.Keys;
    while left != {}
      invariant left <= reverse.Keys
      invariant forall v :: v in count <==> v in graph || (v in reverse && v !in left)
      invariant forall v :: v in count ==> count[v] == |Succ(graph, v)| + if v in left then 0 else |Succ(reverse, v)|
      decreases left
    {
      var v :| v in left;
      count := count[v := (if v in count then count[v] else 0) + |reverse[v]|];
      left := left - {v};
    }
    for i := 0 to |modIds|
      invariant forall j :: 0 <= j < i ==> modIds[j] in count
      invariant forall v :: v in graph || v in reverse ==> v in count
      invariant forall v :: v in count ==> count[v] == |Succ(graph, v)| + |Succ(reverse, v)|
    {
      if modIds[i] !in count {
        count := count[modIds[i] := 0];
      }
    }
  }

  ghost predicate Distinct(xs: seq<Id>) {
    forall i, j :: 0 <= i < j < |xs| ==> xs[i] != xs[j]
  }

  /** rows[r] lists, once each, the modules among ids that have rank r. */
  ghost predicate IsGrouped(ids: seq<Id>, rank: map<Id, nat>, rows: map<nat, seq<Id>>) {
    && (forall v :: v in ids ==> v in rank && rank[v] in rows)
    && (forall r :: r in rows ==> Distinct(rows[r]))
    && (forall r, v :: r in rows ==> (v in rows[r] <==> v in ids && v in rank && rank[v] == r))
  }

  ghost predicate AllFollow(ids: seq<Id>, rows: map<nat, seq<Id>>) {
    forall r :: r in rows ==> Follows(ids, rows[r])
  }

  lemma FollowOneMore(ids: seq<Id>, i: nat, row: seq<Id>)
    requires i < |ids| && Follows(ids[..i], row) && forall x :: x in row ==> x in ids[..i]
    ensures Follows(ids[..i + 1], row + [ids[i]])
  {
    var more := ids[..i + 1];
    forall a, b | 0 <= a < b < |row + [ids[i]]|
      ensures Before(more, (row + [ids[i]])[a], (row + [ids[i]])[b])
    {
      if b < |row| {
        BeforeInLonger(ids[..i], more, row[a], row[b]);
      } else {
        assert row[a] in row;
        var k :| 0 <= k < i && ids[..i][k] == row[a];
        assert more[k] == row[a] && more[i] == ids[i];
      }
    }
  }

  lemma FollowsLonger(ids: seq<Id>, longer: seq<Id>, row: seq<Id>)
    requires ids <= longer && Follows(ids, row)
    ensures Follows(longer, row)
  {
    forall a, b | 0 <= a < b < |row|
      ensures Before(longer, row[a], row[b])
    {
      BeforeInLonger(ids, longer, row[a], row[b]);
    }
  }

  lemma AllFollowOneMore(ids: seq<Id>, i: nat, rows: map<nat, seq<Id>>, r: nat, row: seq<Id>)
    requires i < |ids| && AllFollow(ids[..i], rows) && row == (if r in rows then rows[r] else [])
    requires forall x :: x in row ==> x in ids[..i]
    ensures AllFollow(ids[..i + 1], rows[r := row + [ids[i]]])
  {
    FollowOneMore(ids, i, row);
    forall s | s in rows
      ensures Follows(ids[..i + 1], rows[s])
    {
      FollowsLonger(ids[..i], ids[..i + 1], rows[s]);
    }
    hide Follows;
  }

  lemma DistinctSnoc(row: seq<Id>, v: Id)
    requires Distinct(row) && v !in row
    ensures Distinct(row + [v])
  {
  }

  lemma GroupOneMore(modIds: seq<Id>, i: nat, rank: map<Id, nat>, rows: map<nat, seq<Id>>)
    requires Distinct(modIds) && i < |modIds| && modIds[i] in rank && IsGrouped(modIds[..i], rank, rows)
    ensures var r := rank[modIds[i]];
      IsGrouped(modIds[..i + 1], rank, rows[r := (if r in rows then rows[r] else []) + [modIds[i]]])
  {
    var v := modIds[i];
    var row := if rank[v] in rows then rows[rank[v]] else [];
    assert modIds[..i + 1] == modIds[..i] + [v];
    assert v !in modIds[..i];
    assert forall x :: x in row <==> x in modIds[..i] && rank[x] == rank[v];
    DistinctSnoc(row, v);
    hide Distinct;
  }

  lemma NoRowsFollow(ids: seq<Id>)
    ensures AllFollow(ids, map[])
  {
  }

  method GroupByRank(modIds: seq<Id>, rank: map<Id, nat>) returns (rows: map<nat, seq<Id>>)
    requires Distinct(modIds) && forall v :: v in modIds ==> v in rank
    ensures IsGrouped(modIds, rank, rows) && AllFollow(modIds, rows)
  {
    hide AllFollow;
    rows := map[];
    NoRowsFollow(modIds[..0]);
    for i := 0 to |modIds|
      invariant IsGrouped(modIds[..i], rank, rows) && AllFollow(modIds[..i], rows)
    {
      var r := rank[modIds[i]];
      GroupOneMore(modIds, i, rank, rows);
      AllFollowOneMore(modIds, i, rows, r, if r in rows then rows[r] else []);
      rows := rows[r := (if r in rows then rows[r] else []) + [modIds[i]]];
    }
    assert modIds[..|modIds|] == modIds;
  }

  lemma SortKeepsDistinct(xs: seq<Id>, ys: seq<Id>)
    requires Distinct(xs) && multiset(xs) == multiset(ys)
    ensures Distinct(ys)
    ensures forall v :: v in xs <==> v in ys
  {
    assert forall v :: v in xs <==> v in multiset(xs);
    assert forall v :: v in ys <==> v in multiset(ys);
    forall i, j | 0 <= i < j < |ys|
      ensures ys[i] != ys[j]
    {
      if ys[i] == ys[j] {
        assert ys == ys[..i] + [ys[i]] + ys[i + 1..j] + [ys[j]] + ys[j + 1..];
        assert multiset(ys)[ys[i]] >= 2;
        DistinctMultiplicity(xs, ys[i]);
      }
    }
  }

  lemma {:induction false} DistinctMultiplicity(xs: seq<Id>, v: Id)
    requires Distinct(xs)
    ensures multiset(xs)[v] <= 1
  {
    if xs == [] {
    } else {
      assert xs == [xs[0]] + xs[1..];
      DistinctMultiplicity(xs[1..], v);
      if v == xs[0] {
        assert v !in xs[1..];
        assert v !in multiset(xs[1..]);
      }
    }
  }

  /** Every module has its own cell; rows are filled from the left, busiest modules first, and equally busy ones as listed. */
  ghost predicate GoodCells(ids: seq<Id>, count: map<Id, nat>, rank: map<Id, nat>, rows: map<nat, seq<Id>>, col: map<Id, nat>) {
    && IsGrouped(ids, rank, rows)
    && (forall r :: r in rows ==> Descending(count, rows[r]) && InOrder(ids, count, rows[r]))
    && (forall r, i :: r in rows && 0 <= i < |rows[r]| ==> rows[r][i] in col && col[rows[r][i]] == i)
  }

  lemma CellsAreUnique(ids: seq<Id>, count: map<Id, nat>, rank: map<Id, nat>, rows: map<nat, seq<Id>>, col: map<Id, nat>, v: Id, w: Id)
    requires GoodCells(ids, count, rank, rows, col) && v in ids && w in ids
    ensures v in col && col[v] < |rows[rank[v]]| && rows[rank[v]][col[v]] == v
    ensures v in col && w in col && rank[v] == rank[w] && col[v] == col[w] ==> v == w
  {
    var i :| 0 <= i < |rows[rank[v]]| && rows[rank[v]][i] == v;
    var j :| 0 <= j < |rows[rank[w]]| && rows[rank[w]][j] == w;
  }

  /** The modules of the same rank that come before v. */
  ghost function InFront(ids: seq<Id>, count: map<Id, nat>, rank: map<Id, nat>, v: Id): set<Id>
    requires v in rank
  {
    set w | w in ids && w in rank && rank[w] == rank[v] && w != v && Ahead(ids, count, w, v)
  }

  lemma AheadIsOneWay(ids: seq<Id>, count: map<Id, nat>, x: Id, y: Id)
    requires Distinct(ids) && Ahead(ids, count, x, y)
    ensures !Ahead(ids, count, y, x)
  {
  }

  lemma {:induction false} SizeOfDistinct(xs: seq<Id>)
    requires Distinct(xs)
    ensures |set x | x in xs| == |xs|
  {
    if xs == [] {
    } else {
      var init, last := xs[..|xs| - 1], xs[|xs| - 1];
      SizeOfDistinct(init);
      assert xs == init + [last];
      assert last !in init;
      assert (set x | x in xs) == (set x | x in init) + {last};
    }
  }

  lemma PlaceInRow(row: seq<Id>, c: nat, w: Id)
    requires Distinct(row) && c < |row|
    ensures forall j :: 0 <= j < |row| && row[j] == w ==> (w in row[..c] <==> j < c)
    ensures w in row[..c] ==> w in row
  {
    assert forall j :: 0 <= j < c ==> row[..c][j] == row[j];
  }

  /**
   The column is the number of modules in front of it in its row, so the cells
   are determined by the ranks, the edge counts and the order of the modules.
  */
  lemma ColumnIs(ids: seq<Id>, count: map<Id, nat>, rank: map<Id, nat>, rows: map<nat, seq<Id>>, col: map<Id, nat>, v: Id)
    requires Distinct(ids) && GoodCells(ids, count, rank, rows, col) && v in ids
    ensures v in col && v in rank && col[v] == |InFront(ids, count, rank, v)|
  {
    CellsAreUnique(ids, count, rank, rows, col, v, v);
    var row, c := rows[rank[v]], col[v];
    hide Descending;
    forall w
      ensures w in row[..c] <==> w in InFront(ids, count, rank, v)
    {
      PlaceInRow(row, c, w);
      if j :| 0 <= j < |row| && row[j] == w {
        assert j < c ==> Ahead(ids, count, row[j], row[c]);
        assert j > c ==> Ahead(ids, count, row[c], row[j]);
        if j > c {
          AheadIsOneWay(ids, count, row[c], row[j]);
        }
      }
    }
    hide Ahead;
    assert InFront(ids, count, rank, v) == set w | w in row[..c];
    SizeOfDistinct(row[..c]);
  }

  lemma GroupedRows(ids: seq<Id>, rank: map<Id, nat>, rows: map<nat, seq<Id>>)
    requires IsGrouped(ids, rank, rows)
    ensures forall r :: r in rows ==> forall v :: v in rows[r] ==> v in ids
  {
  }

  lemma SortedRowGrouped(ids: seq<Id>, rank: map<Id, nat>, rows: map<nat, seq<Id>>, r: nat, sorted: seq<Id>)
    requires IsGrouped(ids, rank, rows) && r in rows && multiset(sorted) == multiset(rows[r])
    ensures IsGrouped(ids, rank, rows[r := sorted])
    ensures forall v :: v in sorted <==> v in rows[r]
  {
    SortKeepsDistinct(rows[r], sorted);
    hide Distinct;
  }

  method SortRows(modIds: seq<Id>, count: map<Id, nat>, rank: map<Id, nat>, rows0: map<nat, seq<Id>>) returns (rows: map<nat, seq<Id>>)
    requires IsGrouped(modIds, rank, rows0) && AllFollow(modIds, rows0) && forall v :: v in modIds ==> v in count
    ensures IsGrouped(modIds, rank, rows)
    ensures forall r :: r in rows ==> Descending(count, rows[r]) && InOrder(modIds, count, rows[r])
  {
    hide Follows, InOrder, Descending, IsGrouped, Distinct;
    rows := rows0;
    GroupedRows(modIds, rank, rows);
    var left := rows.Keys;
    while left != {}
      invariant left <= rows.Keys && IsGrouped(modIds, rank, rows)
      invariant forall r :: r in left ==> Follows(modIds, rows[r])
      invariant forall r :: r in rows ==> forall v :: v in rows[r] ==> v in count
      invariant forall r :: r in rows && r !in left ==> Descending(count, rows[r]) && InOrder(modIds, count, rows[r])
      decreases left
    {
      var r :| r in left;
      var sorted := SortedRow(count, rows[r]);
      SortedInOrder(modIds, count, rows[r]);
      SortedRowGrouped(modIds, rank, rows, r, sorted);
      rows := rows[r := sorted];
      left := left - {r};
    }
  }

  method AssignColumns(modIds: seq<Id>, count: map<Id, nat>, rank: map<Id, nat>) returns (rows: map<nat, seq<Id>>, col: map<Id, nat>)
    requires Distinct(modIds) && forall v :: v in modIds ==> v in rank && v in count
    ensures GoodCells(modIds, count, rank, rows, col)
  {
    rows := GroupByRank(modIds, rank);
    rows := SortRows(modIds, count, rank, rows);
    col := map[];
    var left := rows.Keys;
    while left != {}
      invariant left <= rows.Keys
      invariant forall r, i :: r in rows && r !in left && 0 <= i < |rows[r]| ==> rows[r][i] in col && col[rows[r][i]] == i
      decreases left
    {
      var r :| r in left;
      left := left - {r};
      for i := 0 to |rows[r]|
        invariant forall s, j :: s in rows && s !in left && s != r && 0 <= j < |rows[s]| ==> rows[s][j] in col && col[rows[s][j]] == j
        invariant forall j :: 0 <= j < i ==> rows[r][j] in col && col[rows[r][j]] == j
      {
        assert rows[r][i] in rows[r];
        assert forall s, j :: s in rows && 0 <= j < |rows[s]| ==> rows[s][j] in rows[s];
        col := col[rows[r][i] := i];
      }
    }
  }

  // ----- the whole layout -----------------------------------------------------

  /** rank respects every edge of graph: strictly larger unless the edge lies on a cycle. */
  ghost predicate RanksFollow(graph: Graph<Id>, rank: map<Id, nat>) {
    forall a, b :: b in Succ(graph, a) ==>
      a in rank && b in rank && if Reach(graph, b, a) then rank[a] == rank[b] else rank[a] < rank[b]
  }

  /** sccs, comp and dag are the components of graph, and rank gives each connected vertex its depth plus the offset. */
  ghost predicate IsRanking(ids: set<Id>, graph: Graph<Id>, reverse: Graph<Id>, offset: nat, rank: map<Id, nat>,
                            sccs: seq<Block>, comp: map<Id, nat>, dag: Graph<nat>) {
    && IsSccList(Within(graph, ids), ids, sccs) && IsComponentOf(sccs, comp) && IsCondensation(graph, comp, dag)
    && RanksByDepth(graph, reverse, comp, dag, offset, rank)
  }

  ghost predicate HasDepthRanks(ids: set<Id>, graph: Graph<Id>, reverse: Graph<Id>, offset: nat, rank: map<Id, nat>) {
    exists sccs, comp, dag :: IsRanking(ids, graph, reverse, offset, rank, sccs, comp, dag)
  }

  /**
   What auto_layout promises for one level: modules, whose depths start at row 1,
   or the components of a module, whose depths start at row 0.
  */
  ghost predicate IsLayout(ids: seq<Id>, graph: Graph<Id>, reverse: Graph<Id>, offset: nat, rank: map<Id, nat>, rows: map<nat, seq<Id>>, col: map<Id, nat>) {
    && IsReversed(graph, reverse)
    && (forall v :: v in rank <==> v in ids)
    && HasDepthRanks((set v | v in ids), graph, reverse, offset, rank)
    && RanksFollow(graph, rank)
    && IsolatedAtBottom(graph, reverse, offset, rank)
    && exists count :: CountsEdges(ids, graph, reverse, count) && GoodCells(ids, count, rank, rows, col)
  }

  ghost predicate CountsEdges(ids: seq<Id>, graph: Graph<Id>, reverse: Graph<Id>, count: map<Id, nat>) {
    forall v :: v in ids ==> v in count && count[v] == |Succ(graph, v)| + |Succ(reverse, v)|
  }

  ghost predicate JoinsOnly(ids: set<Id>, graph: Graph<Id>) {
    forall x, y {:trigger y in Succ(graph, x)} :: y in Succ(graph, x) ==> x in ids && y in ids
  }

  /** Tarjan, Kahn and cells over one graph, the part both levels share. */
  method LayoutGraph(ids: seq<Id>, graph: Graph<Id>, reverse: Graph<Id>, offset: nat)
    returns (rank: map<Id, nat>, rows: map<nat, seq<Id>>, col: map<Id, nat>)
    requires Distinct(ids) && IsReversed(graph, reverse) && JoinsOnly((set v | v in ids), graph)
    ensures IsLayout(ids, graph, reverse, offset, rank, rows, col)
  {
    hide Distinct, RanksByDepth, IsolatedAtBottom, GoodCells, IsReversed, IsSccList, IsComponentOf, IsCondensation, Reach;
    var all := set v | v in ids;
    var sccs, comp, dag;
    rank, sccs, comp, dag := FlowRanks(ids, all, graph, reverse, offset);
    assert IsRanking(all, graph, reverse, offset, rank, sccs, comp, dag);
    forall a, b | b in Succ(graph, a)
      ensures a in rank && b in rank && if Reach(graph, b, a) then rank[a] == rank[b] else rank[a] < rank[b]
    {
      WithinIsWhole(graph, all, b, a);
      RanksFollowEdges(graph, reverse, all, sccs, comp, dag, offset, rank, a, b);
    }
    var count := CountEdges(ids, graph, reverse);
    rows, col := AssignColumns(ids, count, rank);
    assert CountsEdges(ids, graph, reverse, count);
  }

  lemma GraphInside(modules: set<Id>, edges: seq<Edge>, graph: Graph<Id>)
    requires forall a, b :: b in Succ(graph, a) <==> Depends(modules, edges, edges, a, b)
    ensures JoinsOnly(modules, graph)
  {
    forall a, b | b in Succ(graph, a)
      ensures a in modules && b in modules
    {
      DependencyInside(modules, edges, a, b);
    }
  }

  method LayoutModules(modIds: seq<Id>, edges: seq<Edge>)
    returns (rank: map<Id, nat>, rows: map<nat, seq<Id>>, col: map<Id, nat>, graph: Graph<Id>, reverse: Graph<Id>)
    requires Distinct(modIds)
    ensures forall a, b :: b in Succ(graph, a) <==> Depends((set v | v in modIds), edges, edges, a, b)
    ensures IsLayout(modIds, graph, reverse, 1, rank, rows, col)
  {
    hide IsLayout, IsReversed, Depends, Distinct;
    var modules := set v | v in modIds;
    graph, reverse := BuildModuleGraph(modules, edges);
    GraphInside(modules, edges, graph);
    rank, rows, col := LayoutGraph(modIds, graph, reverse, 1);
  }

  /** A dependency row between two different components of one module. */
  ghost predicate DependsInside(comps: set<Id>, seen: seq<Edge>, a: Id, b: Id) {
    && a in comps && b in comps && a != b
    && exists e :: e in seen && IsDependency(e) && e.from == a && e.to == b
  }

  method BuildComponentGraph(comps: set<Id>, edges: seq<Edge>) returns (graph: Graph<Id>, reverse: Graph<Id>)
    ensures forall a, b :: b in Succ(graph, a) <==> DependsInside(comps, edges, a, b)
    ensures IsReversed(graph, reverse)
  {
    hide IsReversed, Succ;
    graph, reverse := map[], map[];
    NoRows(comps, edges);
    for i := 0 to |edges|
      invariant forall a, b :: b in Succ(graph, a) <==> DependsInside(comps, edges[..i], a, b)
      invariant IsReversed(graph, reverse)
    {
      var e := edges[i];
      assert edges[..i + 1] == edges[..i] + [e];
      if IsDependency(e) && e.from in comps && e.to in comps && e.from != e.to {
        LinkKeepsReversed(graph, reverse, e.from, e.to);
        graph := graph[e.from := Succ(graph, e.from) + {e.to}];
        reverse := reverse[e.to := Succ(reverse, e.to) + {e.from}];
      }
    }
    assert edges[..|edges|] == edges;
  }

  method LayoutComponents(compIds: seq<Id>, edges: seq<Edge>)
    returns (rank: map<Id, nat>, rows: map<nat, seq<Id>>, col: map<Id, nat>, graph: Graph<Id>, reverse: Graph<Id>)
    requires Distinct(compIds)
    ensures forall a, b :: b in Succ(graph, a) <==> DependsInside((set v | v in compIds), edges, a, b)
    ensures |compIds| != 1 ==> IsLayout(compIds, graph, reverse, 0, rank, rows, col)
    ensures |compIds| == 1 ==> rank == map[compIds[0] := 0] && col == map[compIds[0] := 0]
  {
    hide IsLayout, IsReversed, Distinct;
    var comps := set v | v in compIds;
    graph, reverse := BuildComponentGraph(comps, edges);
    if |compIds| == 1 {
      rank, rows, col := map[compIds[0] := 0], map[0 := compIds], map[compIds[0] := 0];
    } else {
      rank, rows, col := LayoutGraph(compIds, graph, reverse, 0);
    }
  }

  /** The guard "w not in modules" cuts nothing off a graph over the modules. */
  lemma WithinIsWhole(graph: Graph<Id>, modules: set<Id>, a: Id, b: Id)
    requires JoinsOnly(modules, graph)
    ensures Reach(Within(graph, modules), a, b) <==> Reach(graph, a, b)
  {
    var net := Within(graph, modules);
    forall x, y
      ensures y in Succ(net, x) <==> y in Succ(graph, x)
    {
    }
    forall p | IsPathFrom(net, p, a, b)
      ensures IsPathFrom(graph, p, a, b)
    {
    }
    forall p | IsPathFrom(graph, p, a, b)
      ensures IsPathFrom(net, p, a, b)
    {
    }
  }
}
