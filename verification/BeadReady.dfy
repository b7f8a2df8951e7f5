/**
 get_ready, the dependency-driven work queue, and the schedule it induces when
 ready beads are closed one after the other.
*/
module BeadReady {
  import opened Beads
  import opened Options
  import G = Graphs

  const STALE_CLAIM_MINUTES := 30

  predicate Resolved(status: Status) {
    status == Closed || status == Pinned
  }

  /** The sub-select of get_ready: some unresolved bead blocks id. */
  predicate HasBlocker(beads: map<Id, Bead>, deps: set<Dep>, id: Id) {
    exists d :: d in deps && d.to == id && Blocks(d.depType) && d.from in beads && !Resolved(beads[d.from].status)
  }

  predicate IsFreeTask(b: Bead) {
    b.status == Open && Unclaimed(b.assignee)
  }

  predicate IsStaleClaim(b: Bead, threshold: Time) {
    b.status == InProgress && b.issueType != "epic" && b.lastActivity.Some? && b.lastActivity.value < threshold
  }

  predicate IsReady(beads: map<Id, Bead>, deps: set<Dep>, id: Id, now: Time) {
    && id in beads
    && (IsFreeTask(beads[id]) || IsStaleClaim(beads[id], now - STALE_CLAIM_MINUTES))
    && !beads[id].pinned
    && (beads[id].deferUntil == None || beads[id].deferUntil.value <= now)
    && !HasBlocker(beads, deps, id)
  }

  function GetReady(beads: map<Id, Bead>, deps: set<Dep>, now: Time): set<Id> {
    set id | id in beads && IsReady(beads, deps, id, now)
  }

  // ----- ready does not always mean claimable -----------------------------------------

  /**
   A bead from the ready list can be claimed exactly when it is no epic and it is
   free or already held by the caller; a stale claim of another session is listed
   but refused.
  */
  lemma ReadyIsClaimableIff(beads: map<Id, Bead>, deps: set<Dep>, id: Id, claimant: string, now: Time)
    requires id in GetReady(beads, deps, now)
    ensures ClaimOutcome(beads, id, claimant) == Ok(true) <==>
      beads[id].issueType != "epic" && (Unclaimed(beads[id].assignee) || beads[id].assignee == Some(claimant))
  {
    if beads[id].assignee == Some(claimant) && !Unclaimed(beads[id].assignee) {
      assert IsStaleClaim(beads[id], now - STALE_CLAIM_MINUTES);
    }
  }

  lemma StaleClaimIsRefused(now: Time)
    ensures var b := Bead(InProgress, Some("session-1"), "task", None, false, None, Some(now - 31));
      var beads := map["bd-1" := b];
      "bd-1" in GetReady(beads, {}, now) && ClaimOutcome(beads, "bd-1", "session-2") == Ok(false)
  {
    var b := Bead(InProgress, Some("session-1"), "task", None, false, None, Some(now - 31));
    assert IsReady(map["bd-1" := b], {}, "bd-1", now);
  }

  // ----- the blocking graph -----------------------------------------------------------

  function Unresolved(beads: map<Id, Bead>): set<Id> {
    set id | id in beads && !Resolved(beads[id].status)
  }

  /** Blocking edges between unresolved beads, from blocker to blocked. */
  function BlockGraph(beads: map<Id, Bead>, deps: set<Dep>): G.Graph<Id> {
    map id | id in Unresolved(beads) ::
      set d | d in deps && d.from == id && Blocks(d.depType) && d.to in Unresolved(beads) :: d.to
  }

  ghost predicate Acyclic(g: G.Graph<Id>) {
    forall a, b :: b in G.Succ(g, a) ==> !G.Reach(g, b, a)
  }

  lemma BlockerIsEdge(beads: map<Id, Bead>, deps: set<Dep>, id: Id)
    requires id in Unresolved(beads)
    ensures HasBlocker(beads, deps, id) <==> exists a :: a in Unresolved(beads) && id in G.Succ(BlockGraph(beads, deps), a)
  {
    var g := BlockGraph(beads, deps);
    if HasBlocker(beads, deps, id) {
      var d :| d in deps && d.to == id && Blocks(d.depType) && d.from in beads && !Resolved(beads[d.from].status);
      assert d.from in Unresolved(beads) && id in G.Succ(g, d.from);
    }
  }

  /** A bead on a cycle of unresolved blockers is not ready while the cycle lasts. */
  lemma CycleIsNotReady(beads: map<Id, Bead>, deps: set<Dep>, a: Id, b: Id, now: Time)
    requires b in G.Succ(BlockGraph(beads, deps), a) && G.Reach(BlockGraph(beads, deps), b, a)
    ensures a !in GetReady(beads, deps, now) && b !in GetReady(beads, deps, now)
  {
    var g := BlockGraph(beads, deps);
    BlockerIsEdge(beads, deps, b);
    var p :| G.IsPathFrom(g, p, b, a);
    if |p| == 1 {
      assert a == b;
    } else {
      assert p[|p| - 2 + 1] in G.Succ(g, p[|p| - 2]);
      BlockerIsEdge(beads, deps, a);
    }
  }

  // ----- some bead is always ready -----------------------------------------------------

  ghost function Ancestors(g: G.Graph<Id>, vs: set<Id>, v: Id): set<Id> {
    set u | u in vs && G.Reach(g, u, v)
  }

  lemma AncestorsShrink(g: G.Graph<Id>, vs: set<Id>, a: Id, v: Id)
    requires Acyclic(g) && v in vs && v in G.Succ(g, a)
    ensures Ancestors(g, vs, a) < Ancestors(g, vs, v)
  {
    G.ReachSelf(g, v);
    G.ReachEdge(g, a, v);
    forall u | u in Ancestors(g, vs, a)
      ensures u in Ancestors(g, vs, v)
    {
      G.ReachTrans(g, u, a, v);
    }
    assert v in Ancestors(g, vs, v) && v !in Ancestors(g, vs, a);
  }

  /** Walking from a bead to a blocker of it must end: in an acyclic graph some bead has no blocker. */
  lemma {:induction false} FindSource(g: G.Graph<Id>, vs: set<Id>, v: Id) returns (s: Id)
    requires Acyclic(g) && v in vs
    ensures s in vs && forall a :: a in vs ==> s !in G.Succ(g, a)
    decreases Ancestors(g, vs, v)
  {
    if a :| a in vs && v in G.Succ(g, a) {
      AncestorsShrink(g, vs, a, v);
      s := FindSource(g, vs, a);
    } else {
      s := v;
    }
  }

  /** All unresolved beads are open, free, unpinned and not deferred into the future. */
  ghost predicate OnlyBlockersMatter(beads: map<Id, Bead>, now: Time) {
    forall id :: id in Unresolved(beads) ==>
      && IsFreeTask(beads[id]) && !beads[id].pinned
      && (beads[id].deferUntil == None || beads[id].deferUntil.value <= now)
  }

  lemma ReadyMeansNoBlocker(beads: map<Id, Bead>, deps: set<Dep>, id: Id, now: Time)
    requires OnlyBlockersMatter(beads, now)
    ensures id in GetReady(beads, deps, now) <==>
      id in Unresolved(beads) && forall a :: a in Unresolved(beads) ==> id !in G.Succ(BlockGraph(beads, deps), a)
  {
    if id in Unresolved(beads) {
      BlockerIsEdge(beads, deps, id);
    }
  }

  lemma SomethingIsReady(beads: map<Id, Bead>, deps: set<Dep>, now: Time)
    requires OnlyBlockersMatter(beads, now) && Acyclic(BlockGraph(beads, deps)) && Unresolved(beads) != {}
    ensures GetReady(beads, deps, now) != {}
  {
    var v :| v in Unresolved(beads);
    var s := FindSource(BlockGraph(beads, deps), Unresolved(beads), v);
    ReadyMeansNoBlocker(beads, deps, s, now);
  }

  // ----- closing ready beads one by one ----------------------------------------------------

  /** The effect of update_status(id, "closed"). */
  function Close(beads: map<Id, Bead>, id: Id, now: Time): map<Id, Bead>
    requires id in beads
  {
    beads[id := beads[id].(status := Closed, lastActivity := Some(now))]
  }

  /** Each bead of order was ready when its turn came. */
  ghost predicate IsSchedule(beads: map<Id, Bead>, deps: set<Dep>, now: Time, order: seq<Id>)
    decreases |order|
  {
    order == [] || (order[0] in GetReady(beads, deps, now) && IsSchedule(Close(beads, order[0], now), deps, now, order[1..]))
  }

  /** A schedule that leaves nothing unresolved. */
  ghost predicate IsFullSchedule(beads: map<Id, Bead>, deps: set<Dep>, now: Time, order: seq<Id>)
    decreases |order|
  {
    if order == [] then Unresolved(beads) == {}
    else order[0] in GetReady(beads, deps, now) && IsFullSchedule(Close(beads, order[0], now), deps, now, order[1..])
  }

  lemma CloseStep(beads: map<Id, Bead>, deps: set<Dep>, now: Time, id: Id)
    requires OnlyBlockersMatter(beads, now) && id in GetReady(beads, deps, now)
    ensures OnlyBlockersMatter(Close(beads, id, now), now)
    ensures id in Unresolved(beads) && Unresolved(Close(beads, id, now)) == Unresolved(beads) - {id}
    ensures forall a, b :: b in G.Succ(BlockGraph(Close(beads, id, now), deps), a) <==>
      b in G.Succ(BlockGraph(beads, deps), a) && a != id && b != id
  {
    assert Unresolved(Close(beads, id, now)) == Unresolved(beads) - {id};
    forall a, b
      ensures b in G.Succ(BlockGraph(Close(beads, id, now), deps), a) <==>
        b in G.Succ(BlockGraph(beads, deps), a) && a != id && b != id
    {
    }
  }

  lemma SubgraphReach(g: G.Graph<Id>, h: G.Graph<Id>, a: Id, b: Id)
    requires forall x, y :: y in G.Succ(h, x) ==> y in G.Succ(g, x)
    requires G.Reach(h, a, b)
    ensures G.Reach(g, a, b)
  {
    var p :| G.IsPathFrom(h, p, a, b);
    assert G.IsPathFrom(g, p, a, b);
  }

  lemma CloseKeepsAcyclic(beads: map<Id, Bead>, deps: set<Dep>, now: Time, id: Id)
    requires OnlyBlockersMatter(beads, now) && id in GetReady(beads, deps, now) && Acyclic(BlockGraph(beads, deps))
    ensures Acyclic(BlockGraph(Close(beads, id, now), deps))
  {
    CloseStep(beads, deps, now, id);
    var g, h := BlockGraph(beads, deps), BlockGraph(Close(beads, id, now), deps);
    forall a, b | b in G.Succ(h, a) && G.Reach(h, b, a)
      ensures false
    {
      SubgraphReach(g, h, b, a);
    }
  }

  /** However far a schedule has got, it can be finished. */
  lemma {:induction false} EveryScheduleCanFinish(beads: map<Id, Bead>, deps: set<Dep>, now: Time, order: seq<Id>) returns (rest: seq<Id>)
    requires OnlyBlockersMatter(beads, now) && Acyclic(BlockGraph(beads, deps))
    requires IsSchedule(beads, deps, now, order)
    ensures IsFullSchedule(beads, deps, now, order + rest)
    decreases |Unresolved(beads)|
  {
    if order != [] {
      CloseStep(beads, deps, now, order[0]);
      CloseKeepsAcyclic(beads, deps, now, order[0]);
      rest := EveryScheduleCanFinish(Close(beads, order[0], now), deps, now, order[1..]);
      assert (order + rest)[1..] == order[1..] + rest;
    } else if Unresolved(beads) == {} {
      rest := [];
    } else {
      SomethingIsReady(beads, deps, now);
      var id :| id in GetReady(beads, deps, now);
      CloseStep(beads, deps, now, id);
      CloseKeepsAcyclic(beads, deps, now, id);
      var tail := EveryScheduleCanFinish(Close(beads, id, now), deps, now, []);
      rest := [id] + tail;
      assert rest[1..] == [] + tail && order + rest == rest;
    }
  }

  ghost predicate BlockersFirst(beads: map<Id, Bead>, deps: set<Dep>, order: seq<Id>) {
    && (forall id :: id in order <==> id in Unresolved(beads))
    && (forall i, j :: 0 <= i < j < |order| ==> order[i] != order[j])
    && (forall i, j :: 0 <= i < |order| && 0 <= j < |order| && order[j] in G.Succ(BlockGraph(beads, deps), order[i]) ==> i < j)
  }

  lemma BlockersFirstStep(beads: map<Id, Bead>, deps: set<Dep>, now: Time, id: Id, rest: seq<Id>)
    requires OnlyBlockersMatter(beads, now) && id in GetReady(beads, deps, now)
    requires BlockersFirst(Close(beads, id, now), deps, rest)
    ensures BlockersFirst(beads, deps, [id] + rest)
  {
    var g := BlockGraph(beads, deps);
    var order := [id] + rest;
    CloseStep(beads, deps, now, id);
    ReadyMeansNoBlocker(beads, deps, id, now);
    hide BlockGraph, GetReady, Unresolved;
    forall i, j | 0 <= i < |order| && 0 <= j < |order| && order[j] in G.Succ(g, order[i])
      ensures i < j
    {
      EdgeEnds(beads, deps, order[i], order[j]);
      if i > 0 && j > 0 {
        assert rest[i - 1] == order[i] && rest[j - 1] == order[j];
        assert rest[i - 1] in rest && rest[j - 1] in rest;
      }
    }
  }

  /** A full schedule closes every unresolved bead once, blockers before what they block. */
  lemma {:induction false} FullScheduleRespectsBlockers(beads: map<Id, Bead>, deps: set<Dep>, now: Time, order: seq<Id>)
    requires OnlyBlockersMatter(beads, now) && IsFullSchedule(beads, deps, now, order)
    ensures BlockersFirst(beads, deps, order)
    decreases |order|
  {
    hide BlockersFirst, GetReady;
    if order == [] {
      NothingToClose(beads, deps);
    } else {
      CloseStep(beads, deps, now, order[0]);
      FullScheduleRespectsBlockers(Close(beads, order[0], now), deps, now, order[1..]);
      BlockersFirstStep(beads, deps, now, order[0], order[1..]);
      assert order == [order[0]] + order[1..];
    }
  }

  lemma NothingToClose(beads: map<Id, Bead>, deps: set<Dep>)
    requires Unresolved(beads) == {}
    ensures BlockersFirst(beads, deps, [])
  {
  }

  lemma EdgeEnds(beads: map<Id, Bead>, deps: set<Dep>, a: Id, b: Id)
    requires b in G.Succ(BlockGraph(beads, deps), a)
    ensures a in Unresolved(beads) && b in Unresolved(beads)
  {
  }

  /**
   Closing ready beads one by one can resolve everything if and only if the
   blocking dependencies among the unresolved beads are acyclic.
  */
  lemma ScheduleExistsIffAcyclic(beads: map<Id, Bead>, deps: set<Dep>, now: Time)
    requires OnlyBlockersMatter(beads, now)
    ensures (exists order :: IsFullSchedule(beads, deps, now, order)) <==> Acyclic(BlockGraph(beads, deps))
  {
    var g := BlockGraph(beads, deps);
    if Acyclic(g) {
      var rest := EveryScheduleCanFinish(beads, deps, now, []);
      assert [] + rest == rest;
      assert IsFullSchedule(beads, deps, now, rest);
    }
    if order :| IsFullSchedule(beads, deps, now, order) {
      FullScheduleRespectsBlockers(beads, deps, now, order);
      forall a, b | b in G.Succ(g, a) && G.Reach(g, b, a)
        ensures false
      {
        EdgeEnds(beads, deps, a, b);
        var i :| 0 <= i < |order| && order[i] == a;
        var j :| 0 <= j < |order| && order[j] == b;
        LaterStaysLater(beads, deps, order, j, a);
      }
      assert Acyclic(g);
    }
  }

  /** What a scheduled bead reaches is not scheduled before it. */
  lemma LaterStaysLater(beads: map<Id, Bead>, deps: set<Dep>, order: seq<Id>, j: nat, a: Id)
    requires BlockersFirst(beads, deps, order)
    requires j < |order| && G.Reach(BlockGraph(beads, deps), order[j], a)
    ensures exists k :: j <= k < |order| && order[k] == a
  {
    var g := BlockGraph(beads, deps);
    var later := set k | j <= k < |order| :: order[k];
    forall v | v in later
      ensures G.Succ(g, v) <= later
    {
      var k :| j <= k < |order| && order[k] == v;
      forall w | w in G.Succ(g, v)
        ensures w in later
      {
        EdgeEnds(beads, deps, v, w);
        var l :| 0 <= l < |order| && order[l] == w;
      }
    }
    G.ReachStaysIn(g, later, order[j], a);
  }
}
