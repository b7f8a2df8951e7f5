/**
 Several sessions on one bead database. Every method that reads a row in one SQL
 statement and writes it in a later one is two steps, so other sessions may act in
 between; its UPDATE and the events it records share one write transaction.
*/
module BeadSessions {
  import opened Beads
  import opened Options

  type Session = nat

  /** Where a session is: between calls, or between the SELECT and the UPDATE of one. */
  datatype Phase =
    | Idle
    | Claiming(bead: Id, claimant: string, assignee: Option<string>)
    | Releasing(claimant: string, ids: set<Id>)
    | Changing(bead: Id, change: Change, seen: Status)

  /** update_status, reopen and defer. */
  datatype Change = ToStatus(status: Status) | Reopening | Deferring(until: Option<Time>)

  datatype World = World(beads: map<Id, Bead>, events: seq<Event>, phases: map<Session, Phase>)

  datatype Action =
    | ClaimSelect(s: Session, bead: Id, claimant: string)
    | ClaimUpdate(s: Session, now: Time)
    | ReleaseSelect(s: Session, claimant: string)
    | ReleaseUpdate(s: Session, now: Time, order: seq<Id>)
    | ChangeSelect(s: Session, bead: Id, change: Change)
    | ChangeUpdate(s: Session, now: Time)
    | Add(bead: Id, row: Bead)
    | Touch(bead: Id, now: Time)

  function PhaseOf(w: World, s: Session): Phase {
    if s in w.phases then w.phases[s] else Idle
  }

  ghost predicate Enabled(w: World, a: Action) {
    match a
    case ClaimSelect(s, _, _) => PhaseOf(w, s).Idle?
    case ClaimUpdate(s, _) => PhaseOf(w, s).Claiming?
    case ReleaseSelect(s, _) => PhaseOf(w, s).Idle?
    case ReleaseUpdate(s, _, order) => PhaseOf(w, s).Releasing? && (forall id :: id in order <==> id in PhaseOf(w, s).ids)
    case ChangeSelect(s, _, _) => PhaseOf(w, s).Idle?
    case ChangeUpdate(s, _) => PhaseOf(w, s).Changing?
    case Add(bead, row) => bead !in w.beads && row.status == Open
    case Touch(_, _) => true
  }

  function Changed(b: Bead, change: Change, now: Time): Bead {
    match change
    case ToStatus(status) => b.(status := status, lastActivity := Some(now))
    case Reopening => b.(status := Open, deferUntil := None, lastActivity := Some(now))
    case Deferring(until) => b.(status := Deferred, deferUntil := until, lastActivity := Some(now))
  }

  function ChangeEvent(bead: Id, change: Change, seen: Status): Event {
    match change
    case ToStatus(status) => StatusChanged(bead, seen, status)
    case Reopening => Reopened(bead, seen)
    case Deferring(_) => StatusChanged(bead, seen, Deferred)
  }

  function ReleaseLog(order: seq<Id>, claimant: string): seq<Event> {
    if order == [] then [] else ReleaseLog(order[..|order| - 1], claimant) + [Released(order[|order| - 1], claimant)]
  }

  ghost function Next(w: World, a: Action): World
    requires Enabled(w, a)
  {
    match a
    case ClaimSelect(s, bead, claimant) =>
      // missing bead, epic and "already mine" return without an UPDATE
      if bead !in w.beads || w.beads[bead].issueType == "epic" || HeldBy(w.beads[bead], claimant) then w
      else w.(phases := w.phases[s := Claiming(bead, claimant, w.beads[bead].assignee)])
    case ClaimUpdate(s, now) =>
      var p := PhaseOf(w, s);
      var idle := w.(phases := w.phases[s := Idle]);
      if p.bead !in w.beads || !Unclaimed(w.beads[p.bead].assignee) then idle
      else idle.(
        beads := w.beads[p.bead := w.beads[p.bead].(assignee := Some(p.claimant), status := InProgress, lastActivity := Some(now))],
        events := w.events + [Claimed(p.bead, p.assignee, p.claimant)])
    case ReleaseSelect(s, claimant) =>
      if Held(w.beads, claimant) == {} then w
      else w.(phases := w.phases[s := Releasing(claimant, Held(w.beads, claimant))])
    case ReleaseUpdate(s, now, order) =>
      var p := PhaseOf(w, s);
      World(Release(w.beads, p.claimant, now), w.events + ReleaseLog(order, p.claimant), w.phases[s := Idle])
    case ChangeSelect(s, bead, change) =>
      if bead !in w.beads then w else w.(phases := w.phases[s := Changing(bead, change, w.beads[bead].status)])
    case ChangeUpdate(s, now) =>
      var p := PhaseOf(w, s);
      var idle := w.(phases := w.phases[s := Idle]);
      if p.bead !in w.beads then idle
      else idle.(beads := w.beads[p.bead := Changed(w.beads[p.bead], p.change, now)],
                 events := w.events + [ChangeEvent(p.bead, p.change, p.seen)])
    case Add(bead, row) =>
      w.(beads := w.beads[bead := row], events := w.events + [Created(bead)])
    case Touch(bead, now) =>
      if bead !in w.beads then w else w.(beads := w.beads[bead := w.beads[bead].(lastActivity := Some(now))])
  }

  ghost predicate IsRun(ws: seq<World>, acts: seq<Action>) {
    |ws| == |acts| + 1 && forall i :: 0 <= i < |acts| ==> Enabled(ws[i], acts[i]) && ws[i + 1] == Next(ws[i], acts[i])
  }

  // ----- mutual exclusion ---------------------------------------------------------

  ghost predicate Holds(w: World, bead: Id, holder: string) {
    bead in w.beads && w.beads[bead].assignee == Some(holder)
  }

  /** This step gives the holder's tasks back. */
  ghost predicate ReleasesFor(w: World, a: Action, holder: string) {
    a.ReleaseUpdate? && PhaseOf(w, a.s).Releasing? && PhaseOf(w, a.s).claimant == holder
  }

  lemma HolderStep(w: World, a: Action, bead: Id, holder: string)
    requires Enabled(w, a) && Holds(w, bead, holder) && !Unclaimed(Some(holder))
    ensures Holds(Next(w, a), bead, holder) || (ReleasesFor(w, a, holder) && Holds(Next(w, a), bead, "agent"))
  {
  }

  /**
   In any interleaving a bead never passes from one claimant to another without
   a release by the first, back to 'agent', in between.
  */
  lemma {:induction false} NoHandover(ws: seq<World>, acts: seq<Action>, bead: Id, first: string, second: string, i: nat, j: nat)
    requires IsRun(ws, acts) && i <= j < |ws|
    requires Holds(ws[i], bead, first) && Holds(ws[j], bead, second) && first != second
    requires !Unclaimed(Some(first))
    ensures exists k :: i <= k < j && ReleasesFor(ws[k], acts[k], first) && Holds(ws[k + 1], bead, "agent")
    decreases j - i
  {
    if i == j {
      assert false;
    } else {
      HolderStep(ws[i], acts[i], bead, first);
      if Holds(ws[i + 1], bead, first) {
        NoHandover(ws, acts, bead, first, second, i + 1, j);
      }
    }
  }

  /** Of two sessions that both read the bead as free, the one that updates second is refused. */
  lemma SecondClaimIsRefused(w: World, s: Session, t: Session, now: Time, later: Time)
    requires s != t && PhaseOf(w, s).Claiming? && PhaseOf(w, t).Claiming? && PhaseOf(w, s).bead == PhaseOf(w, t).bead
    requires !Unclaimed(Some(PhaseOf(w, s).claimant))
    requires PhaseOf(w, s).bead in w.beads && Unclaimed(w.beads[PhaseOf(w, s).bead].assignee)
    ensures var w1 := Next(w, ClaimUpdate(s, now));
      && Holds(w1, PhaseOf(w, s).bead, PhaseOf(w, s).claimant)
      && Enabled(w1, ClaimUpdate(t, later)) && Next(w1, ClaimUpdate(t, later)).beads == w1.beads
  {
  }

  // ----- epics -----------------------------------------------------------------------

  ghost predicate NoEpicClaims(w: World) {
    forall s :: s in w.phases && w.phases[s].Claiming? ==>
      w.phases[s].bead in w.beads && w.beads[w.phases[s].bead].issueType != "epic"
  }

  lemma EpicStep(w: World, a: Action)
    requires NoEpicClaims(w) && Enabled(w, a)
    ensures NoEpicClaims(Next(w, a))
    ensures a.ClaimSelect? || a.ClaimUpdate? ==>
      forall id :: id in w.beads && w.beads[id].issueType == "epic" ==> id in Next(w, a).beads && Next(w, a).beads[id] == w.beads[id]
  {
  }

  /** claim never touches an epic, however its steps interleave with the others. */
  lemma {:induction false} ClaimNeverMovesEpics(ws: seq<World>, acts: seq<Action>, i: nat)
    requires IsRun(ws, acts) && i < |acts| && NoEpicClaims(ws[0])
    requires acts[i].ClaimSelect? || acts[i].ClaimUpdate?
    ensures forall id :: id in ws[i].beads && ws[i].beads[id].issueType == "epic" ==>
      id in ws[i + 1].beads && ws[i + 1].beads[id] == ws[i].beads[id]
  {
    NoEpicClaimsUpTo(ws, acts, i);
    EpicStep(ws[i], acts[i]);
  }

  lemma {:induction false} NoEpicClaimsUpTo(ws: seq<World>, acts: seq<Action>, i: nat)
    requires IsRun(ws, acts) && i < |ws| && NoEpicClaims(ws[0])
    ensures NoEpicClaims(ws[i])
  {
    if i == 0 {
    } else {
      NoEpicClaimsUpTo(ws, acts, i - 1);
      EpicStep(ws[i - 1], acts[i - 1]);
    }
  }

  // ----- the audit trail under interleaving ----------------------------------------------

  lemma {:induction false} ReplayReleases(events: seq<Event>, order: seq<Id>, claimant: string, id: Id)
    ensures Replay(events + ReleaseLog(order, claimant), id) == if id in order then Some(Open) else Replay(events, id)
    decreases |order|
  {
    if order == [] {
      assert events + [] == events;
    } else {
      var init := order[..|order| - 1];
      var last := order[|order| - 1];
      ReplayReleases(events, init, claimant, id);
      assert order == init + [last];
      assert events + ReleaseLog(order, claimant) == events + ReleaseLog(init, claimant) + [Released(last, claimant)];
      ReplayOneMore(events + ReleaseLog(init, claimant), Released(last, claimant), id);
    }
  }

  /** Every step but the UPDATE of a release keeps the log in step with the table. */
  lemma AuditStep(w: World, a: Action)
    requires Audited(w.beads, w.events) && Enabled(w, a) && !a.ReleaseUpdate?
    ensures Audited(Next(w, a).beads, Next(w, a).events)
  {
    match a
    case ClaimUpdate(s, now) =>
      var p := PhaseOf(w, s);
      if p.bead in w.beads && Unclaimed(w.beads[p.bead].assignee) {
        AuditedOneMore(w.beads, w.events, Claimed(p.bead, p.assignee, p.claimant),
          w.beads[p.bead].(assignee := Some(p.claimant), status := InProgress, lastActivity := Some(now)));
      }
    case ChangeUpdate(s, now) =>
      var p := PhaseOf(w, s);
      if p.bead in w.beads {
        AuditedOneMore(w.beads, w.events, ChangeEvent(p.bead, p.change, p.seen), Changed(w.beads[p.bead], p.change, now));
      }
    case Add(bead, row) =>
      AuditedOneMore(w.beads, w.events, Created(bead), row);
    case _ =>
  }

  /**
   The ids the release read before still cover what its UPDATE frees, and
   whatever else they name is open.
  */
  ghost predicate IsCovered(w: World, s: Session) {
    PhaseOf(w, s).Releasing? ==>
      var p := PhaseOf(w, s);
      && Held(w.beads, p.claimant) <= p.ids
      && forall id :: id in p.ids && id !in Held(w.beads, p.claimant) ==> id in w.beads && w.beads[id].status == Open
  }

  /** The UPDATE of a release keeps the log right exactly when it is covered. */
  lemma ReleaseAuditIff(w: World, s: Session, now: Time, order: seq<Id>)
    requires Audited(w.beads, w.events) && Enabled(w, ReleaseUpdate(s, now, order)) && ReleasesKnown(w)
    ensures var next := Next(w, ReleaseUpdate(s, now, order)); Audited(next.beads, next.events) <==> IsCovered(w, s)
  {
    var p := PhaseOf(w, s);
    var next := Next(w, ReleaseUpdate(s, now, order));
    forall id
      ensures Replay(next.events, id) == if id in p.ids then Some(Open) else Replay(w.events, id)
    {
      ReplayReleases(w.events, order, p.claimant, id);
    }
    if Audited(next.beads, next.events) {
      forall id | id in w.beads
        ensures Replay(next.events, id) == Some(next.beads[id].status)
      {
      }
    }
  }

  /** What a release has read are known beads. */
  ghost predicate ReleasesKnown(w: World) {
    forall s :: s in w.phases && w.phases[s].Releasing? ==> w.phases[s].ids <= w.beads.Keys
  }

  lemma BeadsStay(w: World, a: Action)
    requires Enabled(w, a)
    ensures w.beads.Keys <= Next(w, a).beads.Keys
  {
  }

  lemma ReleasesKnownStep(w: World, a: Action)
    requires Enabled(w, a) && ReleasesKnown(w)
    ensures ReleasesKnown(Next(w, a))
  {
    BeadsStay(w, a);
    if a.ReleaseSelect? {
      assert Held(w.beads, a.claimant) <= w.beads.Keys;
    }
  }

  lemma {:induction false} ReleasesKnownUpTo(ws: seq<World>, acts: seq<Action>, n: nat)
    requires IsRun(ws, acts) && n < |ws| && ReleasesKnown(ws[0])
    ensures ReleasesKnown(ws[n])
  {
    if n == 0 {
    } else {
      ReleasesKnownUpTo(ws, acts, n - 1);
      ReleasesKnownStep(ws[n - 1], acts[n - 1]);
    }
  }

  ghost predicate AuditedAt(ws: seq<World>, n: nat)
    requires n < |ws|
  {
    Audited(ws[n].beads, ws[n].events)
  }

  ghost predicate CoveredAt(ws: seq<World>, acts: seq<Action>, i: nat)
    requires i < |acts| < |ws|
  {
    acts[i].ReleaseUpdate? ==> IsCovered(ws[i], acts[i].s)
  }

  lemma AuditStepIff(w: World, a: Action)
    requires Audited(w.beads, w.events) && Enabled(w, a) && ReleasesKnown(w)
    ensures Audited(Next(w, a).beads, Next(w, a).events) <==> (a.ReleaseUpdate? ==> IsCovered(w, a.s))
  {
    hide Next, Audited, IsCovered;
    if a.ReleaseUpdate? {
      ReleaseAuditIff(w, a.s, a.now, a.order);
    } else {
      AuditStep(w, a);
    }
  }

  /**
   In every run, under any interleaving of SELECTs and UPDATEs, the log replays to
   the table at every state if and only if every UPDATE of a release is covered.
  */
  lemma {:induction false} AuditedRunIff(ws: seq<World>, acts: seq<Action>, n: nat)
    requires IsRun(ws, acts) && n < |ws| && ReleasesKnown(ws[0]) && AuditedAt(ws, 0)
    ensures |ws| == |acts| + 1
    ensures (forall k :: 0 <= k <= n ==> AuditedAt(ws, k)) <==> (forall i :: 0 <= i < n ==> CoveredAt(ws, acts, i))
  {
    if n == 0 {
    } else {
      AuditedRunIff(ws, acts, n - 1);
      ReleasesKnownUpTo(ws, acts, n - 1);
      hide Next, Enabled, Audited, IsCovered, ReleasesKnown;
      if forall k :: 0 <= k <= n - 1 ==> AuditedAt(ws, k) {
        assert AuditedAt(ws, n - 1);
        AuditStepIff(ws[n - 1], acts[n - 1]);
        assert AuditedAt(ws, n) <==> CoveredAt(ws, acts, n - 1);
      }
    }
  }

  function ExampleRow(now: Time): Bead {
    Bead(Open, Some("agent"), "task", None, false, None, Some(now))
  }

  function ExampleActions(now: Time): seq<Action> {
    [Add("bd-1", ExampleRow(now)), ClaimSelect(1, "bd-1", "session-1"), ClaimUpdate(1, now),
     ReleaseSelect(1, "session-1"), ChangeSelect(2, "bd-1", ToStatus(Closed)), ChangeUpdate(2, now),
     ReleaseUpdate(1, now, ["bd-1"])]
  }

  function ExampleWorlds(now: Time): seq<World> {
    var id := "bd-1";
    var row := ExampleRow(now);
    var taken := row.(assignee := Some("session-1"), status := InProgress);
    var log := [Created(id), Claimed(id, Some("agent"), "session-1")];
    var closedLog := log + [StatusChanged(id, InProgress, Closed)];
    [World(map[], [], map[]),
     World(map[id := row], [Created(id)], map[]),
     World(map[id := row], [Created(id)], map[1 := Claiming(id, "session-1", Some("agent"))]),
     World(map[id := taken], log, map[1 := Idle]),
     World(map[id := taken], log, map[1 := Releasing("session-1", {id})]),
     World(map[id := taken], log, map[1 := Releasing("session-1", {id}), 2 := Changing(id, ToStatus(Closed), InProgress)]),
     World(map[id := taken.(status := Closed)], closedLog, map[1 := Releasing("session-1", {id}), 2 := Idle]),
     World(map[id := taken.(status := Closed)], closedLog + [Released(id, "session-1")], map[1 := Idle, 2 := Idle])]
  }

  lemma ExampleStarts(now: Time)
    ensures var ws, acts := ExampleWorlds(now), ExampleActions(now);
      forall i :: 0 <= i < 3 ==> Enabled(ws[i], acts[i]) && ws[i + 1] == Next(ws[i], acts[i])
  {
  }

  lemma ExampleReads(now: Time)
    ensures var ws, acts := ExampleWorlds(now), ExampleActions(now);
      forall i :: 3 <= i < 6 ==> Enabled(ws[i], acts[i]) && ws[i + 1] == Next(ws[i], acts[i])
  {
    var w := ExampleWorlds(now)[3];
    assert Held(w.beads, "session-1") == {"bd-1"};
  }

  lemma ExampleEnds(now: Time)
    ensures var ws, acts := ExampleWorlds(now), ExampleActions(now);
      && Enabled(ws[6], acts[6]) && ws[7] == Next(ws[6], acts[6])
      && !Audited(ws[7].beads, ws[7].events)
  {
    var ws, acts := ExampleWorlds(now), ExampleActions(now);
    assert ReleaseLog(["bd-1"], "session-1") == ReleaseLog([], "session-1") + [Released("bd-1", "session-1")];
    assert Release(ws[6].beads, "session-1", now) == ws[6].beads;
    ReplayOneMore(ws[6].events, Released("bd-1", "session-1"), "bd-1");
  }

  /** Closing a task between the two statements of its session's release breaks the log. */
  lemma InterleavedReleaseBreaksAudit(now: Time)
    ensures var ws, acts := ExampleWorlds(now), ExampleActions(now);
      && IsRun(ws, acts) && ws[0] == World(map[], [], map[])
      && !Audited(ws[|acts|].beads, ws[|acts|].events)
  {
    ExampleStarts(now);
    ExampleReads(now);
    ExampleEnds(now);
    hide Enabled, Next, Audited;
    var ws, acts := ExampleWorlds(now), ExampleActions(now);
    forall i | 0 <= i < |acts|
      ensures Enabled(ws[i], acts[i]) && ws[i + 1] == Next(ws[i], acts[i])
    {
      assert i < 3 || 3 <= i < 6 || i == 6;
    }
  }
}
