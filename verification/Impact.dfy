/**
 render_impact: a breadth-first walk over incoming dependency edges that lists
 everything affected by a change, nearest first.
*/
module Impact {
  import opened Graphs
  import opened EdgeTable

  /** One line of the impact chain. */
  datatype Entry = Entry(id: Id, depth: nat, kind: string)

  /** e lets a change travel from e.to to e.from. */
  predicate Carries(nodes: set<Id>, e: Edge) {
    IsDependency(e) && e.from in nodes
  }

  /** p walks against dependency edges, inside the known nodes. */
  ghost predicate IsWalk(nodes: set<Id>, edges: seq<Edge>, p: seq<Id>) {
    |p| > 0 && forall i :: 0 <= i < |p| - 1 ==> PassesOn(nodes, edges, p[i], p[i + 1])
  }

  ghost predicate PassesOn(nodes: set<Id>, edges: seq<Edge>, v: Id, w: Id) {
    exists e :: e in edges && Carries(nodes, e) && e.to == v && e.from == w
  }

  ghost predicate WalkFrom(nodes: set<Id>, edges: seq<Edge>, p: seq<Id>, s: Id, v: Id, d: nat) {
    IsWalk(nodes, edges, p) && p[0] == s && p[|p| - 1] == v && |p| == d + 1
  }

  ghost predicate HasWalk(nodes: set<Id>, edges: seq<Edge>, s: Id, v: Id, d: nat) {
    exists p :: WalkFrom(nodes, edges, p, s, v, d)
  }

  /** d is the least number of dependency edges from v to s. */
  ghost predicate IsDistance(nodes: set<Id>, edges: seq<Edge>, s: Id, v: Id, d: nat) {
    HasWalk(nodes, edges, s, v, d) && forall k: nat :: HasWalk(nodes, edges, s, v, k) ==> d <= k
  }

  /** Rows of type contains or constrains, and rows from unknown nodes, pass no change on; all others do. */
  lemma OneMoreEdge(nodes: set<Id>, edges: seq<Edge>, e: Edge, v: Id, w: Id)
    ensures PassesOn(nodes, edges + [e], v, w) <==>
      PassesOn(nodes, edges, v, w)
      || (e.kind !in {"contains", "constrains"} && w in nodes && e.from == w && e.to == v)
  {
    if PassesOn(nodes, edges, v, w) {
      var d :| d in edges && Carries(nodes, d) && d.to == v && d.from == w;
      assert d in edges + [e];
    }
    assert e in edges + [e];
  }

  lemma WalkExtends(nodes: set<Id>, edges: seq<Edge>, s: Id, v: Id, d: nat, w: Id)
    requires HasWalk(nodes, edges, s, v, d) && PassesOn(nodes, edges, v, w)
    ensures HasWalk(nodes, edges, s, w, d + 1)
  {
    var p :| WalkFrom(nodes, edges, p, s, v, d);
    assert WalkFrom(nodes, edges, p + [w], s, w, d + 1);
  }

  /** Nothing on the frontier is nearer than dist says: dist bounds every walk. */
  lemma {:induction false} DistBoundsWalk(nodes: set<Id>, edges: seq<Edge>, s: Id, dist: map<Id, nat>, p: seq<Id>)
    requires s in dist && dist[s] == 0
    requires forall v, w :: v in dist && PassesOn(nodes, edges, v, w) ==> w in dist && dist[w] <= dist[v] + 1
    requires IsWalk(nodes, edges, p) && p[0] == s
    ensures p[|p| - 1] in dist && dist[p[|p| - 1]] <= |p| - 1
    decreases |p|
  {
    if |p| <= 1 {
    } else {
      var q := p[..|p| - 1];
      DistBoundsWalk(nodes, edges, s, dist, q);
      assert PassesOn(nodes, edges, p[|p| - 2], p[|p| - 2 + 1]);
    }
  }

  ghost predicate Sorted(queue: seq<(Id, nat)>, level: nat) {
    && (forall i :: 0 <= i < |queue| ==> level <= queue[i].1 <= level + 1)
    && (forall i, j :: 0 <= i < j < |queue| ==> queue[i].1 <= queue[j].1)
  }

  ghost predicate Queued(queue: seq<(Id, nat)>, w: Id, k: nat) {
    exists i :: 0 <= i < |queue| && queue[i].0 == w && queue[i].1 <= k
  }

  /** Whatever v touches is visited no later than one level on, or waits in the queue. */
  ghost predicate Covered(dist: map<Id, nat>, queue: seq<(Id, nat)>, v: Id, w: Id)
    requires v in dist
  {
    (w in dist && dist[w] <= dist[v] + 1) || Queued(queue, w, dist[v] + 1)
  }

  ghost predicate ChainSorted(chain: seq<Entry>, level: nat) {
    && (forall i :: 0 <= i < |chain| ==> chain[i].depth <= level + 1)
    && (forall i, j :: 0 <= i < j < |chain| ==> chain[i].depth <= chain[j].depth)
  }

  ghost predicate Listed(chain: seq<Entry>, v: Id, d: nat) {
    exists i :: 0 <= i < |chain| && chain[i].id == v && chain[i].depth == d
  }

  /** What holds at every point of the walk; cur is the node being expanded, edges[..k] are done for it. */
  ghost predicate Walking(nodes: set<Id>, edges: seq<Edge>, s: Id, queue: seq<(Id, nat)>, dist: map<Id, nat>,
                          chain: seq<Entry>, level: nat, cur: Id, k: nat) {
    && k <= |edges|
    && Sorted(queue, level) && ChainSorted(chain, level)
    && dist.Keys <= nodes
    && (forall v :: v in dist ==> dist[v] <= level && HasWalk(nodes, edges, s, v, dist[v]))
    && (forall v :: v in dist ==> v == s || Listed(chain, v, dist[v]))
    && (forall i :: 0 <= i < |queue| ==> queue[i].0 in nodes && HasWalk(nodes, edges, s, queue[i].0, queue[i].1))
    && (forall i :: 0 <= i < |queue| ==> (queue[i].0 == s && queue[i].1 == 0) || Listed(chain, queue[i].0, queue[i].1))
    && (forall i :: 0 <= i < |chain| ==> chain[i].id in nodes && chain[i].id != s && HasWalk(nodes, edges, s, chain[i].id, chain[i].depth))
    && (forall v, w :: v in dist && v != cur && PassesOn(nodes, edges, v, w) ==> Covered(dist, queue, v, w))
    && (cur in dist ==> forall w :: PassesOn(nodes, edges[..k], cur, w) ==> Covered(dist, queue, cur, w))
    && (if s in dist then dist[s] == 0 else queue == [(s, 0)] && dist == map[])
  }

  /** v depends on s, directly or through others. */
  ghost predicate IsAffected(nodes: set<Id>, edges: seq<Edge>, s: Id, v: Id) {
    exists d: nat :: HasWalk(nodes, edges, s, v, d)
  }

  ghost predicate InChain(chain: seq<Entry>, v: Id) {
    exists i :: 0 <= i < |chain| && chain[i].id == v
  }

  /**
   The chain is sorted by depth, lists exactly the affected nodes, and the
   first line of each node carries its distance.
  */
  ghost predicate IsImpact(nodes: set<Id>, edges: seq<Edge>, s: Id, chain: seq<Entry>) {
    && (forall i, j :: 0 <= i < j < |chain| ==> chain[i].depth <= chain[j].depth)
    && (forall v :: InChain(chain, v) <==> v != s && IsAffected(nodes, edges, s, v))
    && (forall i :: 0 <= i < |chain| && (forall j :: 0 <= j < i ==> chain[j].id != chain[i].id)
          ==> IsDistance(nodes, edges, s, chain[i].id, chain[i].depth))
  }

  lemma StartWalking(nodes: set<Id>, edges: seq<Edge>, s: Id)
    requires s in nodes
    ensures Walking(nodes, edges, s, [(s, 0)], map[], [], 0, s, |edges|)
  {
    assert WalkFrom(nodes, edges, [s], s, s, 0);
  }

  /** Popping the front entry moves the level up to its depth. */
  lemma PopLevels(queue: seq<(Id, nat)>, chain: seq<Entry>, level: nat)
    requires queue != [] && Sorted(queue, level) && ChainSorted(chain, level)
    ensures level <= queue[0].1
    ensures Sorted(queue[1..], queue[0].1) && ChainSorted(chain, queue[0].1)
  {
  }

  lemma PopQueued(queue: seq<(Id, nat)>, w: Id, k: nat)
    requires queue != [] && Queued(queue, w, k)
    ensures Queued(queue[1..], w, k) || (w == queue[0].0 && queue[0].1 <= k)
  {
    var i :| 0 <= i < |queue| && queue[i].0 == w && queue[i].1 <= k;
    if i > 0 {
      assert queue[1..][i - 1] == queue[i];
    }
  }

  lemma PopSeen(nodes: set<Id>, edges: seq<Edge>, s: Id, queue: seq<(Id, nat)>, dist: map<Id, nat>, chain: seq<Entry>, level: nat, cur: Id)
    requires queue != [] && queue[0].0 in dist
    requires Walking(nodes, edges, s, queue, dist, chain, level, cur, |edges|)
    ensures Walking(nodes, edges, s, queue[1..], dist, chain, queue[0].1, cur, |edges|)
  {
    hide HasWalk, PassesOn, Listed;
    PopLevels(queue, chain, level);
    assert edges[..|edges|] == edges;
    forall v, w | v in dist && PassesOn(nodes, edges, v, w)
      ensures Covered(dist, queue[1..], v, w)
    {
      assert Covered(dist, queue, v, w);
      if Queued(queue, w, dist[v] + 1) {
        PopQueued(queue, w, dist[v] + 1);
      }
    }
    hide Sorted, ChainSorted, Covered;
  }

  lemma PopNew(nodes: set<Id>, edges: seq<Edge>, s: Id, queue: seq<(Id, nat)>, dist: map<Id, nat>, chain: seq<Entry>, level: nat, cur: Id)
    requires queue != [] && queue[0].0 !in dist
    requires Walking(nodes, edges, s, queue, dist, chain, level, cur, |edges|)
    ensures Walking(nodes, edges, s, queue[1..], dist[queue[0].0 := queue[0].1], chain, queue[0].1, queue[0].0, 0)
  {
    hide HasWalk, Listed;
    PopLevels(queue, chain, level);
    assert edges[..|edges|] == edges;
    var dist' := dist[queue[0].0 := queue[0].1];
    forall v, w | v in dist && PassesOn(nodes, edges, v, w)
      ensures Covered(dist', queue[1..], v, w)
    {
      assert Covered(dist, queue, v, w);
      if Queued(queue, w, dist[v] + 1) {
        PopQueued(queue, w, dist[v] + 1);
      }
    }
    hide Sorted, ChainSorted, Covered;
  }

  lemma PassesOnOneMore(nodes: set<Id>, edges: seq<Edge>, k: nat, v: Id, w: Id)
    requires k < |edges| && PassesOn(nodes, edges[..k + 1], v, w)
    ensures PassesOn(nodes, edges[..k], v, w) || (Carries(nodes, edges[k]) && edges[k].to == v && edges[k].from == w)
  {
    assert edges[..k + 1] == edges[..k] + [edges[k]];
  }

  /** The row does not add anything: wrong row, or its source is visited already. */
  lemma SkipRow(nodes: set<Id>, edges: seq<Edge>, s: Id, queue: seq<(Id, nat)>, dist: map<Id, nat>, chain: seq<Entry>, level: nat, cur: Id, k: nat)
    requires k < |edges| && Walking(nodes, edges, s, queue, dist, chain, level, cur, k)
    requires cur in dist && dist[cur] == level
    requires Carries(nodes, edges[k]) && edges[k].to == cur ==> edges[k].from in dist
    ensures Walking(nodes, edges, s, queue, dist, chain, level, cur, k + 1)
  {
    hide HasWalk, Listed, Queued, Sorted, ChainSorted;
    forall w | PassesOn(nodes, edges[..k + 1], cur, w)
      ensures Covered(dist, queue, cur, w)
    {
      PassesOnOneMore(nodes, edges, k, cur, w);
    }
  }

  lemma QueuedGrows(queue: seq<(Id, nat)>, e: (Id, nat), w: Id, k: nat)
    requires Queued(queue, w, k)
    ensures Queued(queue + [e], w, k)
  {
    var i :| 0 <= i < |queue| && queue[i].0 == w && queue[i].1 <= k;
    assert (queue + [e])[i] == queue[i];
  }

  lemma ListedGrows(chain: seq<Entry>, e: Entry)
    ensures forall v, d: nat :: Listed(chain, v, d) ==> Listed(chain + [e], v, d)
    ensures Listed(chain + [e], e.id, e.depth)
  {
    forall v, d: nat | Listed(chain, v, d)
      ensures Listed(chain + [e], v, d)
    {
      var i :| 0 <= i < |chain| && chain[i].id == v && chain[i].depth == d;
      assert (chain + [e])[i] == chain[i];
    }
    assert (chain + [e])[|chain|] == e;
  }

  lemma AddCovers(nodes: set<Id>, edges: seq<Edge>, queue: seq<(Id, nat)>, dist: map<Id, nat>, cur: Id, k: nat, x: (Id, nat))
    requires k < |edges| && cur in dist && x == (edges[k].from, dist[cur] + 1)
    requires forall v, w :: v in dist && v != cur && PassesOn(nodes, edges, v, w) ==> Covered(dist, queue, v, w)
    requires forall w :: PassesOn(nodes, edges[..k], cur, w) ==> Covered(dist, queue, cur, w)
    ensures forall v, w :: v in dist && v != cur && PassesOn(nodes, edges, v, w) ==> Covered(dist, queue + [x], v, w)
    ensures forall w :: PassesOn(nodes, edges[..k + 1], cur, w) ==> Covered(dist, queue + [x], cur, w)
  {
    hide Queued;
    forall v, w | v in dist && Covered(dist, queue, v, w)
      ensures Covered(dist, queue + [x], v, w)
    {
      if Queued(queue, w, dist[v] + 1) {
        QueuedGrows(queue, x, w, dist[v] + 1);
      }
    }
    NewIsQueued(queue, x);
    forall w | PassesOn(nodes, edges[..k + 1], cur, w)
      ensures Covered(dist, queue + [x], cur, w)
    {
      PassesOnOneMore(nodes, edges, k, cur, w);
    }
  }

  lemma NewIsQueued(queue: seq<(Id, nat)>, x: (Id, nat))
    ensures Queued(queue + [x], x.0, x.1)
  {
    assert (queue + [x])[|queue|] == x;
  }

  lemma AddRow(nodes: set<Id>, edges: seq<Edge>, s: Id, queue: seq<(Id, nat)>, dist: map<Id, nat>, chain: seq<Entry>, level: nat, cur: Id, k: nat)
    requires k < |edges| && Walking(nodes, edges, s, queue, dist, chain, level, cur, k)
    requires cur in dist && dist[cur] == level
    requires Carries(nodes, edges[k]) && edges[k].to == cur && edges[k].from !in dist
    ensures var e := edges[k];
      Walking(nodes, edges, s, queue + [(e.from, level + 1)], dist, chain + [Entry(e.from, level + 1, e.kind)], level, cur, k + 1)
  {
    var e := edges[k];
    assert PassesOn(nodes, edges, cur, e.from);
    assert HasWalk(nodes, edges, s, cur, level);
    WalkExtends(nodes, edges, s, cur, level, e.from);
    AddCovers(nodes, edges, queue, dist, cur, k, (e.from, level + 1));
    ListedGrows(chain, Entry(e.from, level + 1, e.kind));
    hide HasWalk, PassesOn, Listed, Covered, Queued;
    assert s in dist;
  }

  /** The walk is over: the chain is the answer. */
  lemma WalkIsImpact(nodes: set<Id>, edges: seq<Edge>, s: Id, dist: map<Id, nat>, chain: seq<Entry>, level: nat, cur: Id)
    requires Walking(nodes, edges, s, [], dist, chain, level, cur, |edges|)
    ensures IsImpact(nodes, edges, s, chain)
  {
    assert edges[..|edges|] == edges;
    forall v, d: nat | HasWalk(nodes, edges, s, v, d)
      ensures v in dist && dist[v] <= d
    {
      var p :| WalkFrom(nodes, edges, p, s, v, d);
      DistBoundsWalk(nodes, edges, s, dist, p);
    }
    hide HasWalk;
    forall i | 0 <= i < |chain| && forall j :: 0 <= j < i ==> chain[j].id != chain[i].id
      ensures IsDistance(nodes, edges, s, chain[i].id, chain[i].depth)
    {
      var v := chain[i].id;
      assert v in dist && Listed(chain, v, dist[v]);
      var j :| 0 <= j < |chain| && chain[j].id == v && chain[j].depth == dist[v];
      assert chain[i].depth <= chain[j].depth;
    }
  }

  /** The line shows the type of a dependency row that leads from its node to one a step nearer. */
  ghost predicate ShowsRow(nodes: set<Id>, edges: seq<Edge>, s: Id, x: Entry) {
    exists e :: e in edges && Carries(nodes, e) && e.from == x.id && e.kind == x.kind
      && x.depth > 0 && HasWalk(nodes, edges, s, e.to, x.depth - 1)
  }

  lemma NewLineShows(nodes: set<Id>, edges: seq<Edge>, s: Id, queue: seq<(Id, nat)>, dist: map<Id, nat>, chain: seq<Entry>, level: nat, cur: Id, k: nat, e: Edge)
    requires k <= |edges| && Walking(nodes, edges, s, queue, dist, chain, level, cur, k)
    requires cur in dist && dist[cur] == level && e in edges && Carries(nodes, e) && e.to == cur
    ensures ShowsRow(nodes, edges, s, Entry(e.from, level + 1, e.kind))
  {
    assert HasWalk(nodes, edges, s, cur, level);
  }

  method ImpactChain(nodes: set<Id>, edges: seq<Edge>, start: Id) returns (chain: seq<Entry>)
    requires start in nodes
    ensures IsImpact(nodes, edges, start, chain)
    ensures forall i :: 0 <= i < |chain| ==> ShowsRow(nodes, edges, start, chain[i])
  {
    hide Walking, IsImpact, ShowsRow;
    var visited: set<Id> := {};
    var queue: seq<(Id, nat)> := [(start, 0)];
    chain := [];
    ghost var dist: map<Id, nat>, level: nat, last := map[], 0, start;
    StartWalking(nodes, edges, start);
    while queue != []
      invariant Walking(nodes, edges, start, queue, dist, chain, level, last, |edges|)
      invariant visited == dist.Keys && visited <= nodes
      invariant forall i :: 0 <= i < |chain| ==> ShowsRow(nodes, edges, start, chain[i])
      decreases nodes - visited, |queue|
    {
      var (current, depth) := queue[0];
      if current in visited {
        PopSeen(nodes, edges, start, queue, dist, chain, level, last);
        queue, level := queue[1..], depth;
        continue;
      }
      FrontIsNode(nodes, edges, start, queue, dist, chain, level, last);
      PopNew(nodes, edges, start, queue, dist, chain, level, last);
      queue := queue[1..];
      visited := visited + {current};
      dist, level, last := dist[current := depth], depth, current;
      for k := 0 to |edges|
        invariant Walking(nodes, edges, start, queue, dist, chain, level, last, k)
        invariant forall i :: 0 <= i < |chain| ==> ShowsRow(nodes, edges, start, chain[i])
      {
        var e := edges[k];
        if Carries(nodes, e) && e.to == current && e.from !in visited {
          NewLineShows(nodes, edges, start, queue, dist, chain, level, last, k, e);
          AddRow(nodes, edges, start, queue, dist, chain, level, last, k);
          chain := chain + [Entry(e.from, depth + 1, e.kind)];
          queue := queue + [(e.from, depth + 1)];
        } else {
          SkipRow(nodes, edges, start, queue, dist, chain, level, last, k);
        }
      }
    }
    WalkIsImpact(nodes, edges, start, dist, chain, level, last);
  }

  lemma FrontIsNode(nodes: set<Id>, edges: seq<Edge>, s: Id, queue: seq<(Id, nat)>, dist: map<Id, nat>, chain: seq<Entry>, level: nat, cur: Id)
    requires queue != [] && Walking(nodes, edges, s, queue, dist, chain, level, cur, |edges|)
    ensures queue[0].0 in nodes
  {
  }
}
