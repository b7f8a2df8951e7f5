/**
 Which edges the store keeps apart. An edge is the triple of its ends and its
 type; its key in the table is made from the three joined by colons.
*/
module KnowledgeEdges {
  import opened Options
  import opened EdgeTable
  import opened KnowledgeIndex

  datatype Triple = Triple(from: Id, to: Id, kind: string)

  function TripleOf(e: Edge): Triple {
    Triple(e.from, e.to, e.kind)
  }

  function Triples(db: Db): set<Triple> {
    set k | k in db.edges :: TripleOf(db.edges[k])
  }

  predicate SharesId(a: Triple, b: Triple) {
    EdgeIdOf(a.from, a.to, a.kind) == EdgeIdOf(b.from, b.to, b.kind)
  }

  // ----- when two triples have one id ----------------------------------------------

  /** The shorter of two ends followed by a colon in the same text is followed by one in the longer as well. */
  lemma FirstPart(a: string, x: string, b: string, y: string)
    requires a + ":" + x == b + ":" + y && |a| <= |b|
    ensures (a == b && x == y) || (|a| < |b| && b == a + ":" + b[|a| + 1..])
  {
    var s := a + ":" + x;
    assert s[..|a|] == a && s[|a|] == ':' && s[|a| + 1..] == x;
    assert s == b + ":" + y;
    assert s[..|b|] == b && s[|b| + 1..] == y;
    if |a| < |b| {
      assert b[..|a|] == s[..|b|][..|a|] == a && b[|a|] == s[..|b|][|a|] == ':';
      assert b == b[..|a|] + [b[|a|]] + b[|a| + 1..];
    }
  }

  /** y is x, a colon and more. */
  predicate Extends(y: Id, x: Id) {
    x + ":" <= y
  }

  lemma SplitId(from: Id, to: Id, kind: string)
    ensures EdgeIdOf(from, to, kind) == from + ":" + (to + ":" + kind)
  {
  }

  /** Two triples with the same key are equal, unless an end of one extends the same end of the other. */
  lemma SharedId(a: Triple, b: Triple)
    requires SharesId(a, b)
    ensures a == b || Extends(a.from, b.from) || Extends(b.from, a.from) || Extends(a.to, b.to) || Extends(b.to, a.to)
  {
    SplitId(a.from, a.to, a.kind);
    SplitId(b.from, b.to, b.kind);
    hide EdgeIdOf;
    OneSplit(a.from, a.to + ":" + a.kind, b.from, b.to + ":" + b.kind);
    if a.from == b.from && a.to + ":" + a.kind == b.to + ":" + b.kind {
      OneSplit(a.to, a.kind, b.to, b.kind);
    }
  }

  lemma OneSplit(a: string, x: string, b: string, y: string)
    requires a + ":" + x == b + ":" + y
    ensures (a == b && x == y) || Extends(b, a) || Extends(a, b)
  {
    if |a| <= |b| {
      FirstPart(a, x, b, y);
    } else {
      FirstPart(b, y, a, x);
    }
  }

  predicate HasColon(t: Triple) {
    ':' in t.from || ':' in t.to || ':' in t.kind
  }

  lemma Regrouped(a: string, b: string, c: string, d: string)
    ensures EdgeIdOf(a + ":" + b, c, d) == EdgeIdOf(a, b, c + ":" + d) == EdgeIdOf(a, b + ":" + c, d)
  {
  }

  /** A part with a colon in it can be cut there. */
  lemma CutAt(part: string) returns (a: string, b: string)
    requires ':' in part
    ensures part == a + ":" + b
  {
    var i :| 0 <= i < |part| && part[i] == ':';
    a, b := part[..i], part[i + 1..];
  }

  /** Another triple with the same key. */
  lemma OtherCut(t: Triple) returns (u: Triple)
    requires HasColon(t)
    ensures u != t && SharesId(t, u)
  {
    hide EdgeIdOf;
    if ':' in t.from {
      var a, b := CutAt(t.from);
      Regrouped(a, b, t.to, t.kind);
      u := Triple(a, b, t.to + ":" + t.kind);
    } else if ':' in t.to {
      var a, b := CutAt(t.to);
      Regrouped(t.from, a, b, t.kind);
      u := Triple(t.from, a, b + ":" + t.kind);
    } else {
      var a, b := CutAt(t.kind);
      Regrouped(t.from, t.to, a, b);
      u := Triple(t.from, t.to + ":" + a, b);
    }
  }

  /** A key has a second reading as a triple if and only if one of the three parts has a colon. */
  lemma SharedIdIff(t: Triple)
    ensures (exists u :: u != t && SharesId(t, u)) <==> HasColon(t)
  {
    if HasColon(t) {
      var u := OtherCut(t);
    } else {
      forall u | SharesId(t, u)
        ensures u == t
      {
        OnlyCut(t, u);
      }
    }
  }

  lemma OnlyCut(t: Triple, u: Triple)
    requires !HasColon(t) && SharesId(t, u)
    ensures u == t
  {
    var id := EdgeIdOf(u.from, u.to, u.kind);
    var m, n := |u.from|, |u.from| + 1 + |u.to|;
    assert id[m] == ':' && id[n] == ':';
    assert id == EdgeIdOf(t.from, t.to, t.kind);
    assert id[..|t.from|] == t.from && id[|t.from| + 1..|t.from| + 1 + |t.to|] == t.to && id[|t.from| + 2 + |t.to|..] == t.kind;
    ColonAt(t, id, m);
    ColonAt(t, id, n);
    assert id[..m] == u.from && id[m + 1..n] == u.to && id[n + 1..] == u.kind;
  }

  lemma ColonAt(t: Triple, id: string, i: nat)
    requires id == EdgeIdOf(t.from, t.to, t.kind) && i < |id| && id[i] == ':'
    ensures i == |t.from| || i == |t.from| + 1 + |t.to| || HasColon(t)
  {
    var m, n := |t.from|, |t.from| + 1 + |t.to|;
    assert i < m ==> id[i] == t.from[i] && id[i] in t.from;
    assert m < i < n ==> id[i] == t.to[i - m - 1] && id[i] in t.to;
    assert i > n ==> id[i] == t.kind[i - n - 1] && id[i] in t.kind;
  }

  /** No id is another one, a colon and more. */
  ghost predicate KeptApart(ids: set<Id>) {
    forall x, y :: x in ids && y in ids ==> !Extends(y, x)
  }

  ghost predicate IsOver(t: Triple, ids: set<Id>) {
    t.from in ids && t.to in ids
  }

  /** Edges between given nodes, of whatever types, never share a key if and only if no node id extends another. */
  lemma KeptApartIff(ids: set<Id>)
    ensures KeptApart(ids) <==> forall a, b :: IsOver(a, ids) && IsOver(b, ids) && SharesId(a, b) ==> a == b
  {
    hide EdgeIdOf, Extends;
    if KeptApart(ids) {
      forall a, b | IsOver(a, ids) && IsOver(b, ids) && SharesId(a, b)
        ensures a == b
      {
        SharedId(a, b);
      }
    } else {
      var x, y :| x in ids && y in ids && Extends(y, x);
      var a, b := ClashOver(x, y);
      assert IsOver(a, ids) && IsOver(b, ids);
    }
  }

  lemma ClashOver(x: Id, y: Id) returns (a: Triple, b: Triple)
    requires Extends(y, x)
    ensures a != b && SharesId(a, b)
    ensures a.from == b.from == a.to == x && b.to == y
  {
    var rest := y[|x| + 1..];
    assert y == x + ":" + rest;
    a, b := Triple(x, x, rest + ":"), Triple(x, y, "");
    assert EdgeIdOf(x, x, rest + ":") == EdgeIdOf(x, y, "");
  }

  // ----- what adding and removing an edge does to the table ------------------------------

  /** Every edge is stored under the key made from it. */
  ghost predicate Keyed(db: Db) {
    forall k :: k in db.edges ==> k == EdgeIdOf(db.edges[k].from, db.edges[k].to, db.edges[k].kind)
  }

  /** A different stored edge has the key of t. */
  ghost predicate Clashes(db: Db, t: Triple) {
    exists u :: u in Triples(db) && u != t && SharesId(t, u)
  }

  lemma StoredUnder(db: Db, t: Triple)
    requires Keyed(db)
    ensures t in Triples(db) <==> var k := EdgeIdOf(t.from, t.to, t.kind); k in db.edges && TripleOf(db.edges[k]) == t
  {
  }

  /** Adding an edge keeps every other edge, and adds this one, if and only if no other stored edge has its key. */
  lemma AddingIsExactIff(db: Db, e: Edge)
    requires Keyed(db) && e.from in db.nodes && e.to in db.nodes
    ensures var after := AddEdgeImpl(db, e).0;
      && Keyed(after) && TripleOf(e) in Triples(after)
      && (forall k :: k in after.edges && TripleOf(after.edges[k]) == TripleOf(e) ==> after.edges[k] == e)
      && (Triples(after) == Triples(db) + {TripleOf(e)} <==> !Clashes(db, TripleOf(e)))
  {
    var after := AddEdgeImpl(db, e).0;
    var t, key := TripleOf(e), EdgeIdOf(e.from, e.to, e.kind);
    hide EdgeIdOf;
    assert key in after.edges && after.edges[key] == e;
    forall u: Triple
      ensures u in Triples(after) <==> u == t || (u in Triples(db) && !SharesId(t, u))
    {
      StoredUnder(db, u);
      StoredUnder(after, u);
    }
  }

  /** Removing an edge removes exactly it if and only if no other stored edge has its key. */
  lemma RemovingIsExactIff(db: Db, t: Triple)
    requires Keyed(db)
    ensures var after := Impl(db, RemoveEdge(t.from, t.to, t.kind)).0;
      && Keyed(after) && t !in Triples(after)
      && (Triples(after) == Triples(db) - {t} <==> !Clashes(db, t))
  {
    var after := Impl(db, RemoveEdge(t.from, t.to, t.kind)).0;
    hide EdgeIdOf;
    forall u: Triple
      ensures u in Triples(after) <==> u in Triples(db) && !SharesId(t, u)
    {
      StoredUnder(db, u);
      StoredUnder(after, u);
    }
  }

  /** Removing a node removes exactly the edges at it. */
  lemma RemovingNodeIsExact(db: Db, id: Id)
    requires Keyed(db)
    ensures var after := Impl(db, RemoveNode(id)).0;
      && Keyed(after)
      && forall u :: u in Triples(after) <==> u in Triples(db) && u.from != id && u.to != id
  {
    hide EdgeIdOf;
    var after := Impl(db, RemoveNode(id)).0;
    forall u: Triple
      ensures u in Triples(after) <==> u in Triples(db) && u.from != id && u.to != id
    {
      StoredUnder(db, u);
      StoredUnder(after, u);
    }
  }

  // ----- over runs ---------------------------------------------------------------------

  lemma KeyedOp(db: Db, op: Op)
    requires Keyed(db)
    ensures Keyed(Impl(db, op).0)
  {
    hide EdgeIdOf, RowFor, DeleteRows;
  }

  lemma {:induction false} KeyedBatch(t: Tally, ops: seq<Op>)
    requires Keyed(t.db)
    ensures Keyed(Batch(t, ops).db)
    decreases |ops|
  {
    if ops == [] {
    } else {
      KeyedOp(t.db, ops[0]);
      hide Keyed, Impl;
      KeyedBatch(BatchStep(t, ops[0]), ops[1..]);
    }
  }

  lemma KeyedCall(db: Db, call: Call)
    requires Keyed(db) && Enabled(db, call)
    ensures Keyed(Next(db, call))
  {
    match call {
      case Public(op) =>
        KeyedOp(db, op);
        hide Keyed, Impl;
      case BatchOf(ops) =>
        KeyedBatch(Tally(db, 0, 0), ops);
        hide Keyed, Batch;
      case Layout(id, values) => hide EdgeIdOf;
      case Rebuild(order) =>
        SameEdges(db, order);
        hide EdgeIdOf, Filled;
    }
  }

  lemma SameEdges(db: Db, order: seq<Id>)
    requires Enabled(db, Rebuild(order))
    ensures Next(db, Rebuild(order)).edges == db.edges
  {
  }

  lemma {:induction false} EdgesStayKeyed(dbs: seq<Db>, calls: seq<Call>, n: nat)
    requires IsRun(dbs, calls) && n < |dbs|
    ensures Keyed(dbs[n])
  {
    if n == 0 {
    } else {
      EdgesStayKeyed(dbs, calls, n - 1);
      StepOfRun(dbs, calls, n - 1);
      hide IsRun, Next, Enabled, Keyed;
      KeyedCall(dbs[n - 1], calls[n - 1]);
    }
  }

  lemma StoredIsOver(db: Db, u: Triple)
    requires NoDanglingEdge(db) && u in Triples(db)
    ensures IsOver(u, db.nodes.Keys)
  {
  }

  /**
   In every run, while no node id extends another by a colon, removing an edge
   removes exactly it, and adding one between known nodes keeps all others.
  */
  lemma EdgesAreKeptApart(dbs: seq<Db>, calls: seq<Call>, n: nat, t: Triple, text: Option<string>)
    requires IsRun(dbs, calls) && n < |dbs|
    requires KeptApart(dbs[n].nodes.Keys + {t.from, t.to})
    ensures var removed := Commit(dbs[n], RemoveEdge(t.from, t.to, t.kind));
      Triples(removed) == Triples(dbs[n]) - {t}
    ensures t.from in dbs[n].nodes && t.to in dbs[n].nodes ==>
      Triples(Commit(dbs[n], AddEdge(t.from, t.to, t.kind, text))) == Triples(dbs[n]) + {t}
  {
    var db := dbs[n];
    EdgesStayKeyed(dbs, calls, n);
    NeverDangles(dbs, calls, n);
    hide IsRun, KeptApart, Keyed, NoDanglingEdge, Sound;
    var ids := db.nodes.Keys + {t.from, t.to};
    KeptApartIff(ids);
    forall u | u in Triples(db) && SharesId(t, u)
      ensures u == t
    {
      StoredIsOver(db, u);
      assert IsOver(t, ids) && IsOver(u, ids);
    }
    hide SharesId, Triples;
    RemovingIsExactIff(db, t);
    if t.from in db.nodes && t.to in db.nodes {
      AddingIsExactIff(db, Edge(t.from, t.to, t.kind, text));
    }
  }
}
