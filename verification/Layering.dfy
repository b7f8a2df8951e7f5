/**
 The second half of auto_layout: the graph of components is condensed from the
 module graph and ranked by Kahn's algorithm. The rank of a component is the
 length of the longest path that ends in it.
*/
module Layering {
  import opened Graphs
  import opened Tarjan

  // ----- longest paths --------------------------------------------------------

  ghost predicate EndsAt<V(!new)>(g: Graph<V>, p: seq<V>, v: V) {
    IsPath(g, p) && p[|p| - 1] == v
  }

  /** d is the number of edges of a longest path that ends in v. */
  ghost predicate IsDepth<V(!new)>(g: Graph<V>, v: V, d: nat) {
    && (exists p :: EndsAt(g, p, v) && |p| == d + 1)
    && (forall p :: EndsAt(g, p, v) ==> |p| <= d + 1)
  }

  lemma DepthIsUnique<V(!new)>(g: Graph<V>, v: V, d: nat, e: nat)
    requires IsDepth(g, v, d) && IsDepth(g, v, e)
    ensures d == e
  {
    var p :| EndsAt(g, p, v) && |p| == d + 1;
    var q :| EndsAt(g, q, v) && |q| == e + 1;
  }

  lemma PathInit<V(!new)>(g: Graph<V>, p: seq<V>, v: V)
    requires EndsAt(g, p, v) && |p| >= 2
    ensures v in Succ(g, p[|p| - 2]) && EndsAt(g, p[..|p| - 1], p[|p| - 2])
  {
    assert p[|p| - 2 + 1] in Succ(g, p[|p| - 2]);
  }

  lemma PathSnoc<V(!new)>(g: Graph<V>, p: seq<V>, u: V, v: V)
    requires EndsAt(g, p, u) && v in Succ(g, u)
    ensures EndsAt(g, p + [v], v)
  {
    var q := p + [v];
    forall i | 0 <= i < |q| - 1
      ensures q[i + 1] in Succ(g, q[i])
    {
      if i < |p| - 1 {
        assert p[i + 1] in Succ(g, p[i]);
      }
    }
  }

  lemma DepthOfSource<V(!new)>(g: Graph<V>, v: V)
    requires forall u :: v !in Succ(g, u)
    ensures IsDepth(g, v, 0)
  {
    assert EndsAt(g, [v], v);
    forall p | EndsAt(g, p, v)
      ensures |p| <= 1
    {
      if |p| >= 2 {
        PathInit(g, p, v);
      }
    }
  }

  /** One step of the longest-path recurrence. */
  lemma DepthFromPreds<V(!new)>(g: Graph<V>, v: V, best: V, rank: map<V, nat>)
    requires v in Succ(g, best) && best in rank
    requires forall u :: v in Succ(g, u) ==> u in rank && IsDepth(g, u, rank[u]) && rank[u] <= rank[best]
    ensures IsDepth(g, v, rank[best] + 1)
  {
    var p :| EndsAt(g, p, best) && |p| == rank[best] + 1;
    PathSnoc(g, p, best, v);
    forall q | EndsAt(g, q, v)
      ensures |q| <= rank[best] + 2
    {
      if |q| >= 2 {
        PathInit(g, q, v);
      }
    }
  }

  /** Depth strictly increases along every edge. */
  lemma DepthGrows<V(!new)>(g: Graph<V>, u: V, v: V, d: nat, e: nat)
    requires v in Succ(g, u) && IsDepth(g, u, d) && IsDepth(g, v, e)
    ensures d < e
  {
    var p :| EndsAt(g, p, u) && |p| == d + 1;
    PathSnoc(g, p, u, v);
  }

  // ----- Kahn's algorithm -----------------------------------------------------

  /** An acyclic graph over 0..n-1 whose edges all go downwards. */
  ghost predicate Downwards(g: Graph<nat>, n: nat) {
    forall f: nat, t: nat :: t in Succ(g, f) ==> t < f && f < n
  }

  ghost function Preds(g: Graph<nat>, n: nat, j: nat): set<nat> {
    set f: nat | f < n && j in Succ(g, f)
  }

  /** The processed predecessors that component j has been told about. */
  ghost function Told(done: set<nat>, cur: nat, todo: set<nat>, j: nat): set<nat> {
    if j in todo then done - {cur} else done
  }

  ghost predicate DegreesCount(g: Graph<nat>, n: nat, degree: map<nat, int>, done: set<nat>, cur: nat, todo: set<nat>) {
    forall j: nat :: j < n ==> j in degree && degree[j] == |Preds(g, n, j) - Told(done, cur, todo, j)|
  }

  ghost predicate QueueIsFrontier(n: nat, queue: seq<nat>, degree: map<nat, int>, done: set<nat>) {
    && (forall j :: j in queue ==> j < n && j !in done)
    && (forall a, b :: 0 <= a < b < |queue| ==> queue[a] != queue[b])
    && (forall j: nat :: j < n && j in degree && j !in done ==> (degree[j] == 0 <==> j in queue))
  }

  ghost predicate DoneRanked(g: Graph<nat>, n: nat, rank: map<nat, nat>, done: set<nat>, cur: nat, todo: set<nat>) {
    forall j :: j in done ==>
      j < n && Preds(g, n, j) <= Told(done, cur, todo, j) && j in rank && IsDepth<nat>(g, j, rank[j])
  }

  ghost predicate IsBest(rank: map<nat, nat>, told: set<nat>, j: nat) {
    && j in rank
    && (exists p :: p in told && p in rank && rank[j] == rank[p] + 1)
    && (forall p :: p in told ==> p in rank && rank[p] + 1 <= rank[j])
  }

  /** A waiting component holds the best rank among the predecessors told so far. */
  ghost predicate WaitingRanked(g: Graph<nat>, n: nat, rank: map<nat, nat>, done: set<nat>, cur: nat, todo: set<nat>) {
    forall j: nat :: j < n && j !in done ==>
      var told := Preds(g, n, j) * Told(done, cur, todo, j);
      if told == {} then j !in rank else IsBest(rank, told, j)
  }

  ghost predicate KahnInv(g: Graph<nat>, n: nat, queue: seq<nat>, degree: map<nat, int>, rank: map<nat, nat>,
                          done: set<nat>, cur: nat, todo: set<nat>) {
    && done <= degree.Keys
    && DegreesCount(g, n, degree, done, cur, todo)
    && QueueIsFrontier(n, queue, degree, done)
    && DoneRanked(g, n, rank, done, cur, todo)
    && WaitingRanked(g, n, rank, done, cur, todo)
  }

  lemma PredsInside(g: Graph<nat>, n: nat, j: nat)
    requires Downwards(g, n)
    ensures forall f: nat {:trigger Succ(g, f)} :: j in Succ(g, f) <==> f in Preds(g, n, j)
  {
  }

  lemma NoneLeft(g: Graph<nat>, n: nat, degree: map<nat, int>, done: set<nat>, j: nat)
    requires j < n && DegreesCount(g, n, degree, done, 0, {})
    ensures j in degree && (degree[j] == 0 <==> Preds(g, n, j) <= done)
  {
    var left := Preds(g, n, j) - done;
    assert Told(done, 0, {}, j) == done;
    assert degree[j] == |left|;
    if Preds(g, n, j) <= done {
      assert left == {};
    } else {
      var f :| f in Preds(g, n, j) && f !in done;
      assert f in left;
    }
  }

  /** The rank a component holds when it leaves the queue is its depth. */
  lemma DequeuedDepth(g: Graph<nat>, n: nat, rank: map<nat, nat>, done: set<nat>, j: nat)
    requires Downwards(g, n) && j < n && j !in done
    requires Preds(g, n, j) <= done && DoneRanked(g, n, rank, done, 0, {})
    requires WaitingRanked(g, n, rank, done, 0, {})
    ensures IsDepth<nat>(g, j, if j in rank then rank[j] else 0)
  {
    hide IsDepth;
    PredsInside(g, n, j);
    assert Preds(g, n, j) * Told(done, 0, {}, j) == Preds(g, n, j);
    if Preds(g, n, j) == {} {
      DepthOfSource(g, j);
    } else {
      assert IsBest(rank, Preds(g, n, j), j);
      var best :| best in Preds(g, n, j) && best in rank && rank[j] == rank[best] + 1;
      forall u: nat | j in Succ(g, u)
        ensures u in rank && IsDepth<nat>(g, u, rank[u]) && rank[u] <= rank[best]
      {
        assert u in Preds(g, n, j) && u in done;
      }
      DepthFromPreds(g, j, best, rank);
    }
  }

  /** An empty queue means that every component was dequeued. */
  lemma {:induction false} AllDequeued(g: Graph<nat>, n: nat, degree: map<nat, int>, done: set<nat>, j: nat)
    requires Downwards(g, n) && j < n
    requires DegreesCount(g, n, degree, done, 0, {}) && QueueIsFrontier(n, [], degree, done)
    ensures j in done
    decreases n - j
  {
    forall f | f in Preds(g, n, j)
      ensures f in done
    {
      AllDequeued(g, n, degree, done, f);
    }
    hide DegreesCount;
    NoneLeft(g, n, degree, done, j);
  }

  // One step of the outer loop: c leaves the queue, no successor is told yet.

  lemma ToldAfterDequeue(g: Graph<nat>, n: nat, done: set<nat>, c: nat, j: nat)
    requires c !in done
    ensures Preds(g, n, j) - Told(done + {c}, c, Succ(g, c), j) == Preds(g, n, j) - done
    ensures Preds(g, n, j) * Told(done + {c}, c, Succ(g, c), j) == Preds(g, n, j) * done
    ensures done <= Told(done + {c}, c, Succ(g, c), j)
  {
    if j in Succ(g, c) {
      assert done + {c} - {c} == done;
    } else {
      assert c !in Preds(g, n, j);
    }
  }

  lemma DequeueStep(g: Graph<nat>, n: nat, queue: seq<nat>, degree: map<nat, int>, rank: map<nat, nat>, done: set<nat>)
    requires Downwards(g, n) && queue != [] && KahnInv(g, n, queue, degree, rank, done, 0, {})
    ensures var c := queue[0];
      var r := if c in rank then rank else rank[c := 0];
      c !in done && c in degree && KahnInv(g, n, queue[1..], degree, r, done + {c}, c, Succ(g, c))
  {
    hide IsDepth, WaitingRanked;
    var c := queue[0];
    var r := if c in rank then rank else rank[c := 0];
    assert c in queue;
    assert c in degree;
    NoneLeft(g, n, degree, done, c);
    DequeuedDepth(g, n, rank, done, c);
    DequeueDegrees(g, n, degree, done, c);
    DequeueFrontier(n, queue, degree, done);
    DequeueWaiting(g, n, rank, r, done, c);
    DequeueDone(g, n, rank, r, done, c);
    hide DoneRanked, DegreesCount, QueueIsFrontier;
  }

  lemma DequeueDegrees(g: Graph<nat>, n: nat, degree: map<nat, int>, done: set<nat>, c: nat)
    requires c !in done && DegreesCount(g, n, degree, done, 0, {})
    ensures DegreesCount(g, n, degree, done + {c}, c, Succ(g, c))
  {
    forall j: nat | j < n
      ensures Preds(g, n, j) - Told(done + {c}, c, Succ(g, c), j) == Preds(g, n, j) - Told(done, 0, {}, j)
    {
      ToldAfterDequeue(g, n, done, c, j);
    }
  }

  lemma DequeueFrontier(n: nat, queue: seq<nat>, degree: map<nat, int>, done: set<nat>)
    requires queue != [] && QueueIsFrontier(n, queue, degree, done)
    ensures QueueIsFrontier(n, queue[1..], degree, done + {queue[0]})
  {
    assert queue == [queue[0]] + queue[1..];
    forall i | 0 <= i < |queue[1..]|
      ensures queue[1..][i] in queue && queue[1..][i] != queue[0]
    {
      assert queue[1..][i] == queue[i + 1];
    }
  }

  lemma DequeueDone(g: Graph<nat>, n: nat, rank: map<nat, nat>, r: map<nat, nat>, done: set<nat>, c: nat)
    requires c !in done && c < n && Preds(g, n, c) <= done && c !in Succ(g, c)
    requires if c in rank then r == rank else r == rank[c := 0]
    requires IsDepth<nat>(g, c, r[c]) && DoneRanked(g, n, rank, done, 0, {})
    ensures DoneRanked(g, n, r, done + {c}, c, Succ(g, c))
  {
    hide IsDepth;
    forall j: nat
      ensures done <= Told(done + {c}, c, Succ(g, c), j)
    {
      ToldAfterDequeue(g, n, done, c, j);
    }
    forall j | j in done
      ensures Preds(g, n, j) <= done && j in r && IsDepth<nat>(g, j, r[j])
    {
      assert Told(done, 0, {}, j) == done;
    }
  }

  lemma DequeueWaiting(g: Graph<nat>, n: nat, rank: map<nat, nat>, r: map<nat, nat>, done: set<nat>, c: nat)
    requires c !in done && (r == rank || (c !in rank && r == rank[c := 0]))
    requires WaitingRanked(g, n, rank, done, 0, {})
    ensures WaitingRanked(g, n, r, done + {c}, c, Succ(g, c))
  {
    forall j: nat | j < n && j !in done + {c}
      ensures var told := Preds(g, n, j) * Told(done + {c}, c, Succ(g, c), j);
        if told == {} then j !in r else IsBest(r, told, j)
    {
      ToldAfterDequeue(g, n, done, c, j);
      var told := Preds(g, n, j) * Told(done, 0, {}, j);
      if told != {} {
        assert IsBest(rank, told, j);
      }
    }
  }

  // One step of the inner loop: successor t of c is told about c.

  function Relaxed(rank: map<nat, nat>, c: nat, t: nat): map<nat, nat>
    requires c in rank
  {
    rank[t := if t in rank && rank[c] + 1 <= rank[t] then rank[t] else rank[c] + 1]
  }

  lemma OneMoreToTell(p: set<nat>, done: set<nat>, c: nat)
    requires c in p && c in done
    ensures |p - (done - {c})| == |p - done| + 1
  {
    assert p - (done - {c}) == (p - done) + {c};
  }

  lemma TellDegrees(g: Graph<nat>, n: nat, degree: map<nat, int>, done: set<nat>, c: nat, todo: set<nat>, t: nat)
    requires DegreesCount(g, n, degree, done, c, todo)
    requires c in done && t in todo && t in Succ(g, c) && c < n && t < n
    ensures t in degree && degree[t] >= 1
    ensures DegreesCount(g, n, degree[t := degree[t] - 1], done, c, todo - {t})
  {
    var p := Preds(g, n, t);
    OneMoreToTell(p, done, c);
    forall j: nat | j < n && j != t
      ensures Told(done, c, todo - {t}, j) == Told(done, c, todo, j)
    {
    }
  }

  lemma TellWaiting(g: Graph<nat>, n: nat, rank: map<nat, nat>, done: set<nat>, c: nat, todo: set<nat>, t: nat)
    requires WaitingRanked(g, n, rank, done, c, todo)
    requires c in done && t in todo && t in Succ(g, c) && c < n && t < n && t !in done && c in rank
    ensures WaitingRanked(g, n, Relaxed(rank, c, t), done, c, todo - {t})
  {
    var r := Relaxed(rank, c, t);
    forall j: nat | j < n && j !in done
      ensures var told := Preds(g, n, j) * Told(done, c, todo - {t}, j);
        if told == {} then j !in r else IsBest(r, told, j)
    {
      var told := Preds(g, n, j) * Told(done, c, todo, j);
      if j == t {
        var told' := Preds(g, n, j) * Told(done, c, todo - {t}, j);
        assert told' == told + {c};
        assert if told == {} then t !in rank else IsBest(rank, told, t);
        BestWithOneMore(rank, told, c, t);
      } else {
        assert told == Preds(g, n, j) * Told(done, c, todo - {t}, j);
        assert if told == {} then j !in rank else IsBest(rank, told, j);
      }
    }
  }

  lemma BestWithOneMore(rank: map<nat, nat>, told: set<nat>, c: nat, t: nat)
    requires c in rank && t !in told && t != c
    requires if told == {} then t !in rank else IsBest(rank, told, t)
    ensures IsBest(Relaxed(rank, c, t), told + {c}, t)
  {
    var r := Relaxed(rank, c, t);
    if t in rank && rank[c] + 1 <= rank[t] {
      var p :| p in told && p in rank && rank[t] == rank[p] + 1;
      assert p in told + {c} && r[t] == r[p] + 1;
    } else {
      assert c in told + {c} && r[t] == r[c] + 1;
    }
  }

  lemma TellStep(g: Graph<nat>, n: nat, queue: seq<nat>, degree: map<nat, int>, rank: map<nat, nat>,
                 done: set<nat>, c: nat, todo: set<nat>, t: nat)
    requires Downwards(g, n) && KahnInv(g, n, queue, degree, rank, done, c, todo)
    requires c in done && t in todo && t in Succ(g, c)
    ensures c in rank && t in degree
    ensures var d := degree[t := degree[t] - 1];
      var q := if d[t] == 0 then queue + [t] else queue;
      KahnInv(g, n, q, d, Relaxed(rank, c, t), done, c, todo - {t})
  {
    hide IsDepth;
    TellIsNew(g, n, rank, done, c, todo, t);
    TellDegrees(g, n, degree, done, c, todo, t);
    TellWaiting(g, n, rank, done, c, todo, t);
    TellDone(g, n, rank, done, c, todo, t);
    TellFrontier(n, queue, degree, done, t);
    hide DegreesCount, WaitingRanked, DoneRanked, QueueIsFrontier;
  }

  lemma TellIsNew(g: Graph<nat>, n: nat, rank: map<nat, nat>, done: set<nat>, c: nat, todo: set<nat>, t: nat)
    requires Downwards(g, n) && DoneRanked(g, n, rank, done, c, todo)
    requires c in done && t in todo && t in Succ(g, c)
    ensures t !in done && t < n && c < n && c in rank
  {
    hide IsDepth;
    assert c in Preds(g, n, t) && c !in Told(done, c, todo, t);
  }

  lemma TellDone(g: Graph<nat>, n: nat, rank: map<nat, nat>, done: set<nat>, c: nat, todo: set<nat>, t: nat)
    requires DoneRanked(g, n, rank, done, c, todo) && t !in done && c in rank
    ensures DoneRanked(g, n, Relaxed(rank, c, t), done, c, todo - {t})
  {
    hide IsDepth;
    forall j | j in done
      ensures Told(done, c, todo - {t}, j) == Told(done, c, todo, j)
    {
    }
  }

  lemma TellFrontier(n: nat, queue: seq<nat>, degree: map<nat, int>, done: set<nat>, t: nat)
    requires QueueIsFrontier(n, queue, degree, done) && t < n && t !in done
    requires t in degree && degree[t] >= 1
    ensures var d := degree[t := degree[t] - 1];
      QueueIsFrontier(n, if d[t] == 0 then queue + [t] else queue, d, done)
  {
    assert t !in queue;
  }

  /**
   Kahn's pass. Every component is dequeued exactly once (order lists them as
   they leave the queue), so the loop that gives rank 0 to
   components "not reached" never assigns, and each rank is the longest-path depth.
  */
  method RankComponents(g: Graph<nat>, n: nat, degree0: map<nat, int>)
    returns (rank: map<nat, nat>, ghost order: seq<nat>)
    requires Downwards(g, n)
    requires forall j: nat :: j < n ==> j in degree0 && degree0[j] == |Preds(g, n, j)|
    ensures forall j: nat :: j < n ==> j in rank && IsDepth<nat>(g, j, rank[j])
    ensures IsOnceEach(order, n)
  {
    hide IsOnceEach, OrderOf;
    hide IsDepth, DegreesCount, WaitingRanked, QueueIsFrontier, DoneRanked;
    var degree: map<nat, int> := degree0;
    var queue: seq<nat> := [];
    for i := 0 to n
      invariant forall j: nat :: j in queue <==> j < i && degree[j] == 0
      invariant forall a :: 0 <= a < |queue| ==> queue[a] in queue
      invariant forall a, b :: 0 <= a < b < |queue| ==> queue[a] < queue[b]
    {
      if degree[i] == 0 {
        queue := queue + [i];
      }
    }
    rank := map[];
    ghost var done: set<nat> := {};
    order := [];
    KahnStart(g, n, queue, degree);
    NothingDequeued();
    while queue != []
      invariant KahnInv(g, n, queue, degree, rank, done, 0, {})
      invariant OrderOf(order, done)
      decreases degree.Keys - done
    {
      ghost var before, keys := done, degree.Keys;
      DequeueStep(g, n, queue, degree, rank, done);
      var c := queue[0];
      queue := queue[1..];
      if c !in rank {
        rank := rank[c := 0];
      }
      DequeuedNext(order, done, c);
      done := done + {c};
      order := order + [c];
      var todo := Succ(g, c);
      while todo != {}
        invariant todo <= Succ(g, c)
        invariant degree.Keys == keys && before < done <= keys
        invariant KahnInv(g, n, queue, degree, rank, done, c, todo)
        decreases todo
      {
        var t :| t in todo;
        TellStep(g, n, queue, degree, rank, done, c, todo, t);
        var newRank := rank[c] + 1;
        rank := rank[t := if t in rank && newRank <= rank[t] then rank[t] else newRank];
        degree := degree[t := degree[t] - 1];
        if degree[t] == 0 {
          queue := queue + [t];
        }
        todo := todo - {t};
      }
      NobodyLeftToTell(g, n, queue, degree, rank, done, c);
    }
    AllRanked(g, n, degree, rank, done);
    AllOnce(g, n, degree, rank, done, order);
    for i := 0 to n {
      if i !in rank {
        assert false;  // the assignment of rank 0 at this point is dead
      }
    }
  }

  /** order lists every component below n exactly once. */
  ghost predicate IsOnceEach(order: seq<nat>, n: nat) {
    (forall j: nat :: j in order <==> j < n) && forall a, b :: 0 <= a < b < |order| ==> order[a] != order[b]
  }

  ghost predicate OrderOf(order: seq<nat>, done: set<nat>) {
    (forall j: nat :: j in order <==> j in done) && forall a, b :: 0 <= a < b < |order| ==> order[a] != order[b]
  }

  lemma NothingDequeued()
    ensures OrderOf([], {})
  {
  }

  lemma DequeuedNext(order: seq<nat>, done: set<nat>, c: nat)
    requires OrderOf(order, done) && c !in done
    ensures OrderOf(order + [c], done + {c})
  {
  }

  lemma AllOnce(g: Graph<nat>, n: nat, degree: map<nat, int>, rank: map<nat, nat>, done: set<nat>, order: seq<nat>)
    requires KahnInv(g, n, [], degree, rank, done, 0, {}) && OrderOf(order, done)
    requires forall j: nat :: j < n ==> j in done
    ensures IsOnceEach(order, n)
  {
  }

  lemma KahnStart(g: Graph<nat>, n: nat, queue: seq<nat>, degree: map<nat, int>)
    requires forall j: nat :: j < n ==> j in degree && degree[j] == |Preds(g, n, j)|
    requires forall j: nat :: j in queue <==> j < n && degree[j] == 0
    requires forall a, b :: 0 <= a < b < |queue| ==> queue[a] < queue[b]
    ensures KahnInv(g, n, queue, degree, map[], {}, 0, {})
  {
    forall j: nat | j < n
      ensures Preds(g, n, j) - Told({}, 0, {}, j) == Preds(g, n, j)
      ensures Preds(g, n, j) * Told({}, 0, {}, j) == {}
    {
    }
  }

  lemma NobodyLeftToTell(g: Graph<nat>, n: nat, queue: seq<nat>, degree: map<nat, int>, rank: map<nat, nat>, done: set<nat>, c: nat)
    requires KahnInv(g, n, queue, degree, rank, done, c, {})
    ensures KahnInv(g, n, queue, degree, rank, done, 0, {})
  {
    hide IsDepth, QueueIsFrontier;
    NobodyLeftDegrees(g, n, degree, done, c);
    NobodyLeftRanks(g, n, rank, done, c);
    hide DegreesCount, DoneRanked, WaitingRanked;
  }

  lemma NobodyLeftDegrees(g: Graph<nat>, n: nat, degree: map<nat, int>, done: set<nat>, c: nat)
    requires DegreesCount(g, n, degree, done, c, {})
    ensures DegreesCount(g, n, degree, done, 0, {})
  {
    forall j: nat
      ensures Told(done, c, {}, j) == Told(done, 0, {}, j)
    {
    }
  }

  lemma NobodyLeftRanks(g: Graph<nat>, n: nat, rank: map<nat, nat>, done: set<nat>, c: nat)
    requires DoneRanked(g, n, rank, done, c, {}) && WaitingRanked(g, n, rank, done, c, {})
    ensures DoneRanked(g, n, rank, done, 0, {}) && WaitingRanked(g, n, rank, done, 0, {})
  {
    hide IsDepth, IsBest;
    forall j: nat
      ensures Told(done, c, {}, j) == Told(done, 0, {}, j)
    {
    }
  }

  lemma AllRanked(g: Graph<nat>, n: nat, degree: map<nat, int>, rank: map<nat, nat>, done: set<nat>)
    requires Downwards(g, n) && KahnInv(g, n, [], degree, rank, done, 0, {})
    ensures forall j: nat :: j < n ==> j in done && j in rank && IsDepth<nat>(g, j, rank[j])
  {
    hide IsDepth;
    forall j: nat | j < n
      ensures j in done && j in rank && IsDepth<nat>(g, j, rank[j])
    {
      AllDequeued(g, n, degree, done, j);
    }
  }

  // ----- condensation ---------------------------------------------------------

  /** m maps every listed vertex to the number of its component. */
  ghost predicate IsComponentOf(sccs: seq<Block>, m: map<Id, nat>) {
    && (forall v :: v in m ==> m[v] < |sccs| && v in sccs[m[v]])
    && (forall k, a :: 0 <= k < |sccs| && 0 <= a < |sccs[k]| ==> sccs[k][a] in m && m[sccs[k][a]] == k)
  }

  method NumberComponents(sccs: seq<Block>) returns (m: map<Id, nat>)
    requires NoRepeats(sccs)
    ensures IsComponentOf(sccs, m)
  {
    m := map[];
    for i := 0 to |sccs|
      invariant forall v :: v in m ==> m[v] < i && v in sccs[m[v]]
      invariant forall k, a :: 0 <= k < i && 0 <= a < |sccs[k]| ==> sccs[k][a] in m && m[sccs[k][a]] == k
    {
      for j := 0 to |sccs[i]|
        invariant forall v :: v in m ==> m[v] <= i && v in sccs[m[v]]
        invariant forall k, a :: 0 <= k < i && 0 <= a < |sccs[k]| ==> sccs[k][a] in m && m[sccs[k][a]] == k
        invariant forall a :: 0 <= a < j ==> sccs[i][a] in m && m[sccs[i][a]] == i
      {
        m := m[sccs[i][j] := i];
      }
    }
  }

  /** The edge a -> b between known vertices joins components f and t. */
  ghost predicate Joins(graph: Graph<Id>, m: map<Id, nat>, a: Id, b: Id, f: nat, t: nat) {
    b in Succ(graph, a) && a in m && b in m && m[a] == f && m[b] == t && f != t
  }

  ghost predicate IsCondensation(graph: Graph<Id>, m: map<Id, nat>, g: Graph<nat>) {
    && (forall a, b :: b in Succ(graph, a) && a in m && b in m && m[a] != m[b] ==> m[b] in Succ(g, m[a]))
    && (forall f: nat, t: nat :: t in Succ(g, f) ==> exists a, b :: Joins(graph, m, a, b, f, t))
  }

  ghost predicate CountsPreds(g: Graph<nat>, n: nat, degree: map<nat, int>) {
    forall j: nat :: j < n ==> j in degree && degree[j] == |Preds(g, n, j)|
  }

  lemma AddEdgeCounts(g: Graph<nat>, n: nat, degree: map<nat, int>, f: nat, t: nat)
    requires CountsPreds(g, n, degree) && f < n && t < n && t !in Succ(g, f)
    ensures CountsPreds(g[f := Succ(g, f) + {t}], n, degree[t := degree[t] + 1])
  {
    var h := g[f := Succ(g, f) + {t}];
    AddEdgePreds(g, n, f, t);
    forall j: nat | j < n
      ensures |Preds(h, n, j)| == if j == t then |Preds(g, n, j)| + 1 else |Preds(g, n, j)|
    {
      assert f !in Preds(g, n, t);
    }
  }

  lemma AddEdgePreds(g: Graph<nat>, n: nat, f: nat, t: nat)
    requires f < n
    ensures forall j: nat :: Preds(g[f := Succ(g, f) + {t}], n, j) == if j == t then Preds(g, n, j) + {f} else Preds(g, n, j)
  {
  }

  /** Edges of the condensation found so far: all those that start in a vertex outside left. */
  ghost predicate CondensedBut(graph: Graph<Id>, m: map<Id, nat>, g: Graph<nat>, left: set<Id>, cur: Id, todo: set<Id>) {
    && (forall a, b :: b in Succ(graph, a) && a in m && b in m && m[a] != m[b] && a !in left && !(a == cur && b in todo)
          ==> m[b] in Succ(g, m[a]))
    && (forall f: nat, t: nat :: t in Succ(g, f) ==> exists a, b :: Joins(graph, m, a, b, f, t))
  }

  lemma AddJoin(graph: Graph<Id>, m: map<Id, nat>, g: Graph<nat>, left: set<Id>, a: Id, todo: set<Id>, b: Id)
    requires CondensedBut(graph, m, g, left, a, todo) && a in m && b in m && b in Succ(graph, a) && m[a] != m[b]
    ensures CondensedBut(graph, m, g[m[a] := Succ(g, m[a]) + {m[b]}], left, a, todo - {b})
  {
    var h := g[m[a] := Succ(g, m[a]) + {m[b]}];
    forall f: nat, t: nat | t in Succ(h, f)
      ensures exists a, b :: Joins(graph, m, a, b, f, t)
    {
      if f == m[a] && t == m[b] {
        assert Joins(graph, m, a, b, f, t);
      } else {
        assert t in Succ(g, f);
      }
    }
  }

  method Condense(graph: Graph<Id>, m: map<Id, nat>, n: nat) returns (g: Graph<nat>, degree: map<nat, int>)
    requires forall v :: v in m ==> m[v] < n
    ensures IsCondensation(graph, m, g)
    ensures CountsPreds(g, n, degree)
  {
    hide CountsPreds, CondensedBut;
    g := map[];
    degree := map[];
    for i := 0 to n
      invariant forall j: nat :: j < i ==> j in degree && degree[j] == 0
    {
      degree := degree[i := 0];
    }
    NoEdgesYet(graph, m, n, degree);
    var left := graph.Keys;
    while left != {}
      invariant left <= graph.Keys
      invariant CountsPreds(g, n, degree) && CondensedBut(graph, m, g, left, "", {})
      decreases left
    {
      var a :| a in left;
      var todo := graph[a];
      VertexStarts(graph, m, g, left, a);
      left := left - {a};
      if a !in m {
        UnknownVertex(graph, m, g, left, a, todo);
        continue;
      }
      while todo != {}
        invariant todo <= graph[a]
        invariant CountsPreds(g, n, degree) && CondensedBut(graph, m, g, left, a, todo)
        decreases todo
      {
        var b :| b in todo;
        ghost var rest := todo;
        todo := todo - {b};
        if b in m && m[a] != m[b] && m[b] !in Succ(g, m[a]) {
          AddEdgeCounts(g, n, degree, m[a], m[b]);
          AddJoin(graph, m, g, left, a, rest, b);
          CountsInDomain(g, n, degree, m[b]);
          g := g[m[a] := Succ(g, m[a]) + {m[b]}];
          degree := degree[m[b] := degree[m[b]] + 1];
        } else {
          NothingToJoin(graph, m, g, left, a, rest, b);
        }
      }
      VertexEnds(graph, m, g, left, a);
    }
    CondensationComplete(graph, m, g);
  }

  lemma NoEdgesYet(graph: Graph<Id>, m: map<Id, nat>, n: nat, degree: map<nat, int>)
    requires forall j: nat :: j < n ==> j in degree && degree[j] == 0
    ensures CountsPreds(map[], n, degree) && CondensedBut(graph, m, map[], graph.Keys, "", {})
  {
    assert forall j: nat {:trigger Preds(map[], n, j)} :: Preds(map[], n, j) == {};
  }

  lemma VertexStarts(graph: Graph<Id>, m: map<Id, nat>, g: Graph<nat>, left: set<Id>, a: Id)
    requires a in left && a in graph && CondensedBut(graph, m, g, left, "", {})
    ensures CondensedBut(graph, m, g, left - {a}, a, graph[a])
  {
  }

  lemma UnknownVertex(graph: Graph<Id>, m: map<Id, nat>, g: Graph<nat>, left: set<Id>, a: Id, todo: set<Id>)
    requires a !in m && CondensedBut(graph, m, g, left, a, todo)
    ensures CondensedBut(graph, m, g, left, "", {})
  {
  }

  lemma NothingToJoin(graph: Graph<Id>, m: map<Id, nat>, g: Graph<nat>, left: set<Id>, a: Id, todo: set<Id>, b: Id)
    requires CondensedBut(graph, m, g, left, a, todo) && a in m
    requires b in m && m[a] != m[b] ==> m[b] in Succ(g, m[a])
    ensures CondensedBut(graph, m, g, left, a, todo - {b})
  {
  }

  lemma VertexEnds(graph: Graph<Id>, m: map<Id, nat>, g: Graph<nat>, left: set<Id>, a: Id)
    requires CondensedBut(graph, m, g, left, a, {})
    ensures CondensedBut(graph, m, g, left, "", {})
  {
  }

  lemma CountsInDomain(g: Graph<nat>, n: nat, degree: map<nat, int>, j: nat)
    requires CountsPreds(g, n, degree) && j < n
    ensures j in degree
  {
  }

  lemma CondensationComplete(graph: Graph<Id>, m: map<Id, nat>, g: Graph<nat>)
    requires CondensedBut(graph, m, g, {}, "", {})
    ensures IsCondensation(graph, m, g)
  {
  }

  /** Tarjan lists components in reverse topological order, so the condensation goes downwards. */
  lemma CondensationGoesDown(graph: Graph<Id>, vs: set<Id>, sccs: seq<Block>, m: map<Id, nat>, g: Graph<nat>)
    requires IsSccList(Within(graph, vs), vs, sccs) && IsComponentOf(sccs, m) && IsCondensation(graph, m, g)
    ensures Downwards(g, |sccs|)
  {
    forall f: nat, t: nat | t in Succ(g, f)
      ensures t < f && f < |sccs|
    {
      var a, b :| Joins(graph, m, a, b, f, t);
      assert InBlocks(sccs, a) && InBlocks(sccs, b);
      assert b in Succ(Within(graph, vs), a);
      SccListIsCorrect(Within(graph, vs), vs, sccs, f, t, a, b);
    }
  }
}
