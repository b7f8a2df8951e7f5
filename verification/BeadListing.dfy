/**
 When the operations of the task store make a task appear in the ready list and
 keep it off, from the step that last updated its row, whatever other sessions do
 to other tasks in between.
*/
module BeadListing {
  import opened Beads
  import opened BeadReady
  import opened BeadSessions
  import opened Options

  // ----- rows nobody updates stay as they are -------------------------------------------

  /** This step updates the row of the task. */
  ghost predicate UpdatesBead(w: World, a: Action, id: Id) {
    match a
    case ClaimUpdate(s, _) => PhaseOf(w, s).Claiming? && PhaseOf(w, s).bead == id
    case ChangeUpdate(s, _) => PhaseOf(w, s).Changing? && PhaseOf(w, s).bead == id
    case Touch(bead, _) => bead == id
    case ReleaseUpdate(s, _, _) => PhaseOf(w, s).Releasing? && id in w.beads && HeldBy(w.beads[id], PhaseOf(w, s).claimant)
    case _ => false
  }

  /** No step from i up to j updates the row of the task. */
  ghost predicate Quiet(ws: seq<World>, acts: seq<Action>, id: Id, i: nat, j: nat)
    requires j <= |acts| < |ws|
  {
    forall k :: i <= k < j ==> !UpdatesBead(ws[k], acts[k], id)
  }

  lemma RowStaysStep(w: World, a: Action, id: Id)
    requires Enabled(w, a) && id in w.beads && !UpdatesBead(w, a, id)
    ensures id in Next(w, a).beads && Next(w, a).beads[id] == w.beads[id]
  {
  }

  lemma {:induction false} RowStays(ws: seq<World>, acts: seq<Action>, id: Id, i: nat, j: nat)
    requires IsRun(ws, acts) && i <= j < |ws| == |acts| + 1 && id in ws[i].beads && Quiet(ws, acts, id, i, j)
    ensures id in ws[j].beads && ws[j].beads[id] == ws[i].beads[id]
    decreases j - i
  {
    if i == j {
    } else {
      RowStaysStep(ws[i], acts[i], id);
      RowStays(ws, acts, id, i + 1, j);
    }
  }

  /** Nobody in particular has the task. */
  predicate IsNobodys(assignee: Option<string>) {
    assignee in {None, Some(""), Some("agent")}
  }

  predicate IsDue(b: Bead, now: Time) {
    b.deferUntil.Some? ==> b.deferUntil.value <= now
  }

  // ----- what puts a task on the list and keeps it off -------------------------------------

  /**
   A claimed task is off the list for thirty minutes, whoever claimed it. Later
   it is listed again, unless it is an epic, pinned, deferred or blocked; but then
   another session that claims it is still refused.
  */
  lemma ClaimedListsIff(ws: seq<World>, acts: seq<Action>, s: Session, t: Time,
                        id: Id, i: nat, j: nat, deps: set<Dep>, now: Time)
    requires IsRun(ws, acts) && i < j < |ws| == |acts| + 1 && acts[i] == ClaimUpdate(s, t) && PhaseOf(ws[i], s).bead == id
    requires id in ws[i].beads && Unclaimed(ws[i].beads[id].assignee)
    requires Quiet(ws, acts, id, i + 1, j)
    ensures id in ws[j].beads
    ensures id in GetReady(ws[j].beads, deps, now) <==>
      var row := ws[i].beads[id];
      now > t + 30 && row.issueType != "epic" && !row.pinned && IsDue(row, now) && !HasBlocker(ws[j].beads, deps, id)
    ensures var claimant := PhaseOf(ws[i], s).claimant;
      !Unclaimed(Some(claimant)) && ws[i].beads[id].issueType != "epic" ==>
      forall other :: other != claimant ==> ClaimOutcome(ws[j].beads, id, other) == Ok(false)
  {
    hide HasBlocker;
    RowStays(ws, acts, id, i + 1, j);
  }

  /** Each touch keeps a claimed task off the list for another thirty minutes. */
  lemma TouchedListsIff(ws: seq<World>, acts: seq<Action>, t: Time, id: Id, i: nat, j: nat, deps: set<Dep>, now: Time)
    requires IsRun(ws, acts) && i < j < |ws| == |acts| + 1 && acts[i] == Touch(id, t)
    requires id in ws[i].beads && ws[i].beads[id].status == InProgress && Quiet(ws, acts, id, i + 1, j)
    ensures id in GetReady(ws[j].beads, deps, now) <==>
      var row := ws[i].beads[id];
      now > t + 30 && row.issueType != "epic" && !row.pinned && IsDue(row, now) && !HasBlocker(ws[j].beads, deps, id)
  {
    hide HasBlocker;
    RowStays(ws, acts, id, i + 1, j);
  }

  /** A new task is listed exactly from the time it is deferred to, if it is free and not blocked. */
  lemma AddedListsIff(ws: seq<World>, acts: seq<Action>, row: Bead, id: Id, i: nat, j: nat, deps: set<Dep>, now: Time)
    requires IsRun(ws, acts) && i < j < |ws| == |acts| + 1 && acts[i] == Add(id, row)
    requires Quiet(ws, acts, id, i + 1, j)
    ensures id in GetReady(ws[j].beads, deps, now) <==>
      IsNobodys(row.assignee) && !row.pinned && IsDue(row, now) && !HasBlocker(ws[j].beads, deps, id)
  {
    hide HasBlocker;
    RowStays(ws, acts, id, i + 1, j);
  }

  /**
   A task put off by defer() is not listed at any time, its defer_until included,
   until something else updates it.
  */
  lemma DeferredStaysOff(ws: seq<World>, acts: seq<Action>, s: Session, t: Time, until: Option<Time>,
                         id: Id, i: nat, j: nat, deps: set<Dep>, now: Time)
    requires IsRun(ws, acts) && i < j < |ws| == |acts| + 1 && acts[i] == ChangeUpdate(s, t)
    requires PhaseOf(ws[i], s).bead == id && PhaseOf(ws[i], s).change == Deferring(until) && id in ws[i].beads
    ensures id in GetReady(ws[j].beads, deps, now) ==> exists k :: i < k < j && UpdatesBead(ws[k], acts[k], id)
  {
    hide HasBlocker, UpdatesBead;
    if Quiet(ws, acts, id, i + 1, j) {
      RowStays(ws, acts, id, i + 1, j);
    }
  }

  /** Reopening a task lifts its deferral; it is listed exactly when it is free, unpinned and not blocked. */
  lemma ReopenedListsIff(ws: seq<World>, acts: seq<Action>, s: Session, t: Time,
                         id: Id, i: nat, j: nat, deps: set<Dep>, now: Time)
    requires IsRun(ws, acts) && i < j < |ws| == |acts| + 1 && acts[i] == ChangeUpdate(s, t)
    requires PhaseOf(ws[i], s).bead == id && PhaseOf(ws[i], s).change == Reopening && id in ws[i].beads
    requires Quiet(ws, acts, id, i + 1, j)
    ensures id in ws[j].beads && ws[j].beads[id].assignee == ws[i].beads[id].assignee
    ensures id in GetReady(ws[j].beads, deps, now) <==>
      IsNobodys(ws[i].beads[id].assignee) && !ws[i].beads[id].pinned && !HasBlocker(ws[j].beads, deps, id)
  {
    hide HasBlocker;
    RowStays(ws, acts, id, i + 1, j);
  }

  /** update_status lists a free task at once by "open", an inactive one after thirty minutes by "in_progress", and hides it otherwise. */
  lemma StatusListsIff(ws: seq<World>, acts: seq<Action>, s: Session, t: Time, status: Status,
                       id: Id, i: nat, j: nat, deps: set<Dep>, now: Time)
    requires IsRun(ws, acts) && i < j < |ws| == |acts| + 1 && acts[i] == ChangeUpdate(s, t)
    requires PhaseOf(ws[i], s).bead == id && PhaseOf(ws[i], s).change == ToStatus(status) && id in ws[i].beads
    requires Quiet(ws, acts, id, i + 1, j)
    ensures id in GetReady(ws[j].beads, deps, now) <==>
      var row := ws[i].beads[id];
      && (if status == Open then IsNobodys(row.assignee) else status == InProgress && row.issueType != "epic" && now > t + 30)
      && !row.pinned && IsDue(row, now) && !HasBlocker(ws[j].beads, deps, id)
  {
    hide HasBlocker;
    RowStays(ws, acts, id, i + 1, j);
  }

  /** A released task is listed at once unless it is pinned, deferred or blocked. */
  lemma ReleasedListsIff(ws: seq<World>, acts: seq<Action>, s: Session, t: Time, order: seq<Id>,
                         id: Id, i: nat, j: nat, deps: set<Dep>, now: Time)
    requires IsRun(ws, acts) && i < j < |ws| == |acts| + 1 && acts[i] == ReleaseUpdate(s, t, order)
    requires id in ws[i].beads && HeldBy(ws[i].beads[id], PhaseOf(ws[i], s).claimant)
    requires Quiet(ws, acts, id, i + 1, j)
    ensures id in GetReady(ws[j].beads, deps, now) <==>
      !ws[i].beads[id].pinned && IsDue(ws[i].beads[id], now) && !HasBlocker(ws[j].beads, deps, id)
  {
    hide HasBlocker;
    RowStays(ws, acts, id, i + 1, j);
  }

  // ----- blockers ---------------------------------------------------------------------------

  /** Without dependencies nothing is blocked. */
  lemma NothingBlocks(beads: map<Id, Bead>, id: Id)
    ensures !HasBlocker(beads, {}, id)
  {
  }

  /**
   One more dependency takes exactly its target off the list if its type blocks
   and its source is neither closed nor pinned, and otherwise changes nothing.
  */
  lemma OneMoreDependency(beads: map<Id, Bead>, deps: set<Dep>, d: Dep, now: Time)
    ensures GetReady(beads, deps + {d}, now) ==
      if d.depType in {"blocks", "conditional-blocks", "waits-for"} && d.from in beads && beads[d.from].status !in {Closed, Pinned}
      then GetReady(beads, deps, now) - {d.to}
      else GetReady(beads, deps, now)
  {
    forall id
      ensures HasBlocker(beads, deps + {d}, id) <==>
        HasBlocker(beads, deps, id) || (d.to == id && Blocks(d.depType) && d.from in beads && !Resolved(beads[d.from].status))
    {
      if HasBlocker(beads, deps, id) {
        var c :| c in deps && c.to == id && Blocks(c.depType) && c.from in beads && !Resolved(beads[c.from].status);
        assert c in deps + {d};
      }
    }
    hide HasBlocker;
  }
}
