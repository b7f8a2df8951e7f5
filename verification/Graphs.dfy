/** Directed graphs as adjacency maps, paths and reachability. */
module Graphs {

  type Id = string

  /** Adjacency map; a vertex that is not a key has no outgoing edge. */
  type Graph<V(==)> = map<V, set<V>>

  function Succ<V>(g: Graph<V>, v: V): set<V> {
    if v in g then g[v] else {}
  }

  ghost predicate IsPath<V(!new)>(g: Graph<V>, p: seq<V>) {
    |p| > 0 && forall i :: 0 <= i < |p| - 1 ==> p[i + 1] in Succ(g, p[i])
  }

  ghost predicate IsPathFrom<V(!new)>(g: Graph<V>, p: seq<V>, a: V, b: V) {
    IsPath(g, p) && p[0] == a && p[|p| - 1] == b
  }

  /** b can be reached from a by zero or more edges. */
  ghost predicate Reach<V(!new)>(g: Graph<V>, a: V, b: V) {
    exists p :: IsPathFrom(g, p, a, b)
  }

  lemma ReachSelf<V(!new)>(g: Graph<V>, a: V)
    ensures Reach(g, a, a)
  {
    assert IsPathFrom(g, [a], a, a);
  }

  lemma ReachEdge<V(!new)>(g: Graph<V>, a: V, b: V)
    requires b in Succ(g, a)
    ensures Reach(g, a, b)
  {
    assert IsPathFrom(g, [a, b], a, b);
  }

  lemma PathConcat<V(!new)>(g: Graph<V>, p: seq<V>, q: seq<V>)
    requires IsPath(g, p) && IsPath(g, q) && p[|p| - 1] == q[0]
    ensures IsPathFrom(g, p + q[1..], p[0], q[|q| - 1])
  {
    var r := p + q[1..];
    forall i | 0 <= i < |r| - 1
      ensures r[i + 1] in Succ(g, r[i])
    {
      if i >= |p| - 1 {
        assert r[i] == q[i - (|p| - 1)] && r[i + 1] == q[i + 1 - (|p| - 1)];
      }
    }
  }

  lemma ReachTrans<V(!new)>(g: Graph<V>, a: V, b: V, c: V)
    requires Reach(g, a, b) && Reach(g, b, c)
    ensures Reach(g, a, c)
  {
    var p :| IsPathFrom(g, p, a, b);
    var q :| IsPathFrom(g, q, b, c);
    PathConcat(g, p, q);
  }

  /** A set that contains the successors of its members contains all they reach. */
  lemma {:induction false} PathStaysIn<V(!new)>(g: Graph<V>, s: set<V>, p: seq<V>)
    requires forall v :: v in s ==> Succ(g, v) <= s
    requires IsPath(g, p) && p[0] in s
    ensures p[|p| - 1] in s
    decreases |p|
  {
    if |p| == 1 {
    } else {
      assert p[1] in Succ(g, p[0]);
      forall i | 0 <= i < |p[1..]| - 1
        ensures p[1..][i + 1] in Succ(g, p[1..][i])
      {
        assert p[i + 2] in Succ(g, p[i + 1]);
      }
      PathStaysIn(g, s, p[1..]);
    }
  }

  lemma ReachStaysIn<V(!new)>(g: Graph<V>, s: set<V>, a: V, b: V)
    requires forall v :: v in s ==> Succ(g, v) <= s
    requires a in s && Reach(g, a, b)
    ensures b in s
  {
    var p :| IsPathFrom(g, p, a, b);
    PathStaysIn(g, s, p);
  }

  /** g cut down to the vertices vs, as the guard "w not in modules" does. */
  function Within<V>(g: Graph<V>, vs: set<V>): Graph<V> {
    map v | v in vs :: Succ(g, v) * vs
  }
}
