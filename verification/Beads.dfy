/**
 The bead store: task rows, dependency rows and the append-only event table.
 Each public method runs in one transaction and is modelled as one method here;
 BeadSessions.dfy splits claims and releases into their SQL steps.
*/
module Beads {
  import opened Options

  type Id = string
  type Time = int

  datatype Status = Open | InProgress | Blocked | Deferred | Closed | Pinned | Hooked

  function ParseStatus(text: string): Option<Status> {
    if text == "open" then Some(Open)
    else if text == "in_progress" then Some(InProgress)
    else if text == "blocked" then Some(Blocked)
    else if text == "deferred" then Some(Deferred)
    else if text == "closed" then Some(Closed)
    else if text == "pinned" then Some(Pinned)
    else if text == "hooked" then Some(Hooked)
    else None
  }

  function StatusText(status: Status): string {
    match status
    case Open => "open"
    case InProgress => "in_progress"
    case Blocked => "blocked"
    case Deferred => "deferred"
    case Closed => "closed"
    case Pinned => "pinned"
    case Hooked => "hooked"
  }

  /** The texts of the statuses are the only ones accepted, each for its own status. */
  lemma ParseStatusInverts(text: string, status: Status)
    ensures ParseStatus(text) == Some(status) <==> text == StatusText(status)
  {
  }

  predicate ValidIssueType(text: string) {
    text in ["bug", "feature", "task", "epic", "chore", "decision"]
  }

  predicate Blocks(depType: string) {
    depType in ["blocks", "conditional-blocks", "waits-for"]
  }

  predicate ValidDepType(depType: string) {
    Blocks(depType) || depType in ["related", "discovered-from", "caused-by", "tracks", "validates", "supersedes", "duplicates", "parent-child"]
  }

  datatype Bead = Bead(
    status: Status,
    assignee: Option<string>,
    issueType: string,
    parent: Option<Id>,
    pinned: bool,
    deferUntil: Option<Time>,
    lastActivity: Option<Time>)

  /** from blocks to, or is related to it. */
  datatype Dep = Dep(from: Id, to: Id, depType: string)

  datatype Event =
    | Created(bead: Id)
    | StatusChanged(bead: Id, before: Status, after: Status)
    | Claimed(bead: Id, holder: Option<string>, claimant: string)
    | Reopened(bead: Id, before: Status)
    | Released(bead: Id, claimant: string)

  datatype Error = InvalidValue | NotFound | IsEpic | BrokenReference

  datatype Result<+T> = Ok(value: T) | Err(error: Error)

  /** The test in the UPDATE of claim: nobody, or the default 'agent', holds the bead. */
  predicate Unclaimed(assignee: Option<string>) {
    assignee == None || assignee == Some("") || assignee == Some("agent")
  }

  // ----- the audit trail ----------------------------------------------------------

  /** The status an event says its bead now has. */
  function StatusAfter(e: Event): Status {
    match e
    case Created(_) => Open
    case StatusChanged(_, _, after) => after
    case Claimed(_, _, _) => InProgress
    case Reopened(_, _) => Open
    case Released(_, _) => Open
  }

  /** Folding the event log of one bead. */
  function Replay(events: seq<Event>, id: Id): Option<Status> {
    if events == [] then None
    else if events[|events| - 1].bead == id then Some(StatusAfter(events[|events| - 1]))
    else Replay(events[..|events| - 1], id)
  }

  /** The log replays to the table. */
  ghost predicate Audited(beads: map<Id, Bead>, events: seq<Event>) {
    forall id :: Replay(events, id) == if id in beads then Some(beads[id].status) else None
  }

  lemma ReplayOneMore(events: seq<Event>, e: Event, id: Id)
    ensures Replay(events + [e], id) == if e.bead == id then Some(StatusAfter(e)) else Replay(events, id)
  {
    assert (events + [e])[..|events|] == events;
  }

  /** A row update recorded by its event keeps the log in step with the table. */
  lemma AuditedOneMore(beads: map<Id, Bead>, events: seq<Event>, e: Event, bead: Bead)
    requires Audited(beads, events) && bead.status == StatusAfter(e)
    ensures Audited(beads[e.bead := bead], events + [e])
  {
    forall id
      ensures Replay(events + [e], id) == if id in beads[e.bead := bead] then Some(beads[e.bead := bead][id].status) else None
    {
      ReplayOneMore(events, e, id);
    }
  }

  // ----- release --------------------------------------------------------------------

  predicate HeldBy(bead: Bead, claimant: string) {
    bead.assignee == Some(claimant) && bead.status == InProgress
  }

  function Freed(bead: Bead, now: Time): Bead {
    bead.(assignee := Some("agent"), status := Open, lastActivity := Some(now))
  }

  /** The UPDATE of release_session. */
  function Release(beads: map<Id, Bead>, claimant: string, now: Time): map<Id, Bead> {
    map id | id in beads :: if HeldBy(beads[id], claimant) then Freed(beads[id], now) else beads[id]
  }

  /** The SELECT of release_session. */
  function Held(beads: map<Id, Bead>, claimant: string): set<Id> {
    set id | id in beads && HeldBy(beads[id], claimant)
  }

  class BeadStore {
    var beads: map<Id, Bead>
    var deps: set<Dep>
    var events: seq<Event>

    constructor ()
      ensures Valid() && beads == map[] && deps == {} && events == []
    {
      beads, deps, events := map[], {}, [];
    }

    /** The audit log replays to the table, and no foreign key dangles. */
    ghost predicate Valid()
      reads this
    {
      && Audited(beads, events)
      && (forall d :: d in deps ==> d.from in beads && d.to in beads)
      && (forall id :: id in beads && beads[id].parent.Some? ==> beads[id].parent.value in beads)
    }

    method AddBead(id: Id, issueType: string, parent: Option<Id>, assignee: Option<string>, deferUntil: Option<Time>, now: Time)
      returns (r: Result<Id>)
      requires Valid()
      modifies this
      ensures Valid() && deps == old(deps)
      ensures r == if !ValidIssueType(issueType) then Err(InvalidValue)
                   else if id !in old(beads) && parent.Some? && parent.value !in old(beads) && parent.value != id then Err(BrokenReference)
                   else Ok(id)
      ensures r.Err? || id in old(beads) ==> beads == old(beads) && events == old(events)
      ensures r.Ok? && id !in old(beads) ==>
        && beads == old(beads)[id := Bead(Open, assignee, issueType, parent, false, deferUntil, Some(now))]
        && events == old(events) + [Created(id)]
    {
      if !ValidIssueType(issueType) {
        return Err(InvalidValue);
      }
      if id !in beads {
        if parent.Some? && parent.value !in beads && parent.value != id {
          return Err(BrokenReference);
        }
        var row := Bead(Open, assignee, issueType, parent, false, deferUntil, Some(now));
        AuditedOneMore(beads, events, Created(id), row);
        beads := beads[id := row];
        events := events + [Created(id)];
      }
      return Ok(id);
    }

    method UpdateStatus(id: Id, text: string, now: Time) returns (r: Result<()>)
      requires Valid()
      modifies this
      ensures Valid() && deps == old(deps)
      ensures r == if ParseStatus(text).None? then Err(InvalidValue) else if id !in old(beads) then Err(NotFound) else Ok(())
      ensures r.Err? ==> beads == old(beads) && events == old(events)
      ensures r.Ok? ==>
        && beads == old(beads)[id := old(beads)[id].(status := ParseStatus(text).value, lastActivity := Some(now))]
        && events == old(events) + [StatusChanged(id, old(beads)[id].status, ParseStatus(text).value)]
    {
      var status := ParseStatus(text);
      if status.None? {
        return Err(InvalidValue);
      }
      if id !in beads {
        return Err(NotFound);
      }
      var e := StatusChanged(id, beads[id].status, status.value);
      var row := beads[id].(status := status.value, lastActivity := Some(now));
      AuditedOneMore(beads, events, e, row);
      beads := beads[id := row];
      events := events + [e];
      return Ok(());
    }

    method Claim(id: Id, claimant: string, now: Time) returns (r: Result<bool>)
      requires Valid()
      modifies this
      ensures Valid() && deps == old(deps)
      ensures r == ClaimOutcome(old(beads), id, claimant)
      ensures Takes(old(beads), id, claimant) ==>
        && beads == old(beads)[id := old(beads)[id].(assignee := Some(claimant), status := InProgress, lastActivity := Some(now))]
        && events == old(events) + [Claimed(id, old(beads)[id].assignee, claimant)]
      ensures !Takes(old(beads), id, claimant) ==> beads == old(beads) && events == old(events)
    {
      if id !in beads {
        return Err(NotFound);
      }
      var row := beads[id];
      if row.issueType == "epic" {
        return Err(IsEpic);
      }
      if row.assignee == Some(claimant) && row.status == InProgress {
        return Ok(true);
      }
      if !Unclaimed(beads[id].assignee) {
        return Ok(false);
      }
      var taken := beads[id].(assignee := Some(claimant), status := InProgress, lastActivity := Some(now));
      AuditedOneMore(beads, events, Claimed(id, row.assignee, claimant), taken);
      beads := beads[id := taken];
      events := events + [Claimed(id, row.assignee, claimant)];
      return Ok(true);
    }

    method Reopen(id: Id, now: Time) returns (r: Result<()>)
      requires Valid()
      modifies this
      ensures Valid() && deps == old(deps)
      ensures r == if id !in old(beads) then Err(NotFound) else Ok(())
      ensures r.Err? ==> beads == old(beads) && events == old(events)
      ensures r.Ok? ==>
        && beads == old(beads)[id := old(beads)[id].(status := Open, deferUntil := None, lastActivity := Some(now))]
        && events == old(events) + [Reopened(id, old(beads)[id].status)]
    {
      if id !in beads {
        return Err(NotFound);
      }
      var e := Reopened(id, beads[id].status);
      var row := beads[id].(status := Open, deferUntil := None, lastActivity := Some(now));
      AuditedOneMore(beads, events, e, row);
      beads := beads[id := row];
      events := events + [e];
      return Ok(());
    }

    method Defer(id: Id, until: Option<Time>, now: Time) returns (r: Result<()>)
      requires Valid()
      modifies this
      ensures Valid() && deps == old(deps)
      ensures r == if id !in old(beads) then Err(NotFound) else Ok(())
      ensures r.Err? ==> beads == old(beads) && events == old(events)
      ensures r.Ok? ==>
        && beads == old(beads)[id := old(beads)[id].(status := Deferred, deferUntil := until, lastActivity := Some(now))]
        && events == old(events) + [StatusChanged(id, old(beads)[id].status, Deferred)]
    {
      if id !in beads {
        return Err(NotFound);
      }
      var e := StatusChanged(id, beads[id].status, Deferred);
      var row := beads[id].(status := Deferred, deferUntil := until, lastActivity := Some(now));
      AuditedOneMore(beads, events, e, row);
      beads := beads[id := row];
      events := events + [e];
      return Ok(());
    }

    /** Keeps a claim fresh; an unknown task changes nothing, and nothing is recorded. */
    method Touch(id: Id, now: Time)
      requires Valid()
      modifies this
      ensures Valid() && deps == old(deps) && events == old(events)
      ensures beads == if id in old(beads) then old(beads)[id := old(beads)[id].(lastActivity := Some(now))] else old(beads)
    {
      if id in beads {
        beads := beads[id := beads[id].(lastActivity := Some(now))];
      }
    }

    method AddDependency(from: Id, to: Id, depType: string) returns (r: Result<()>)
      requires Valid()
      modifies this
      ensures Valid() && beads == old(beads) && events == old(events)
      ensures r == if !ValidDepType(depType) then Err(InvalidValue)
                   else if Dep(from, to, depType) !in old(deps) && (from !in beads || to !in beads) then Err(BrokenReference)
                   else Ok(())
      ensures deps == if r.Ok? then old(deps) + {Dep(from, to, depType)} else old(deps)
    {
      if !ValidDepType(depType) {
        return Err(InvalidValue);
      }
      if Dep(from, to, depType) !in deps {
        if from !in beads || to !in beads {
          return Err(BrokenReference);
        }
        deps := deps + {Dep(from, to, depType)};
      }
      return Ok(());
    }

    /** Gives every task the session holds back to the pool. */
    method ReleaseSession(claimant: string, now: Time) returns (count: nat)
      requires Valid()
      modifies this
      ensures Valid() && deps == old(deps)
      ensures beads == Release(old(beads), claimant, now)
      ensures forall id :: id in Held(old(beads), claimant) ==>
        id in beads && beads[id] == old(beads)[id].(assignee := Some("agent"), status := Open, lastActivity := Some(now))
      ensures count == |Held(old(beads), claimant)|
      ensures RecordsReleases(old(events), events, Held(old(beads), claimant), claimant)
    {
      hide Audited, RecordsReleases, FreedAmong, Release, Held, Freed;
      var ids := Held(beads, claimant);
      ReleaseKeepsRows(beads, claimant, now);
      NothingRecorded(events, claimant);
      FreeingNobody(beads, now);
      FreedRows(beads, claimant, now);
      if ids == {} {
        return 0;
      }
      ghost var before := beads;
      beads := Release(beads, claimant, now);
      count := |ids|;
      RecordReleases(ids, claimant, before, now);
    }

    method RecordReleases(ids: set<Id>, claimant: string, ghost before: map<Id, Bead>, ghost now: Time)
      requires ids <= before.Keys && Audited(before, events)
      modifies this`events
      ensures Audited(FreedAmong(before, ids, now), events)
      ensures RecordsReleases(old(events), events, ids, claimant)
    {
      hide Audited, RecordsReleases, FreedAmong, Freed;
      FreeingNobody(before, now);
      NothingRecorded(events, claimant);
      var left := ids;
      assert ids - left == {};
      while left != {}
        invariant left <= ids
        invariant Audited(FreedAmong(before, ids - left, now), events)
        invariant RecordsReleases(old(events), events, ids - left, claimant)
        decreases left
      {
        var id :| id in left;
        RecordOneRelease(before, ids, left, id, events, claimant, now);
        RecordsOneMore(old(events), events, ids - left, id, claimant);
        assert ids - (left - {id}) == (ids - left) + {id};
        events := events + [Released(id, claimant)];
        left := left - {id};
      }
      assert ids - {} == ids;
    }
  }

  /** The table with only some of the held beads freed. */
  ghost function FreedAmong(beads: map<Id, Bead>, ids: set<Id>, now: Time): map<Id, Bead> {
    map id | id in beads :: if id in ids then Freed(beads[id], now) else beads[id]
  }

  ghost predicate RecordsReleases(log: seq<Event>, events: seq<Event>, ids: set<Id>, claimant: string) {
    log <= events && |events| == |log| + |ids| && forall id :: id in ids ==> Released(id, claimant) in events[|log|..]
  }

  lemma FreeingNobody(beads: map<Id, Bead>, now: Time)
    ensures FreedAmong(beads, {}, now) == beads
  {
  }

  lemma ReleaseKeepsRows(beads: map<Id, Bead>, claimant: string, now: Time)
    ensures Release(beads, claimant, now).Keys == beads.Keys && Held(beads, claimant) <= beads.Keys
    ensures forall id :: id in beads ==> Release(beads, claimant, now)[id].parent == beads[id].parent
    ensures FreedAmong(beads, Held(beads, claimant), now) == Release(beads, claimant, now)
  {
  }

  lemma FreedRows(beads: map<Id, Bead>, claimant: string, now: Time)
    ensures forall id :: id in Held(beads, claimant) ==>
      id in Release(beads, claimant, now) && id in beads
      && Release(beads, claimant, now)[id] == beads[id].(assignee := Some("agent"), status := Open, lastActivity := Some(now))
  {
  }

  lemma NothingRecorded(log: seq<Event>, claimant: string)
    ensures RecordsReleases(log, log, {}, claimant)
  {
  }

  lemma RecordOneRelease(beads: map<Id, Bead>, ids: set<Id>, left: set<Id>, id: Id, events: seq<Event>, claimant: string, now: Time)
    requires id in left && left <= ids && ids <= beads.Keys && Audited(FreedAmong(beads, ids - left, now), events)
    ensures Audited(FreedAmong(beads, ids - (left - {id}), now), events + [Released(id, claimant)])
  {
    var t := FreedAmong(beads, ids - left, now);
    AuditedOneMore(t, events, Released(id, claimant), Freed(beads[id], now));
    assert FreedAmong(beads, ids - (left - {id}), now) == t[id := Freed(beads[id], now)];
  }

  lemma RecordsOneMore(log: seq<Event>, events: seq<Event>, ids: set<Id>, id: Id, claimant: string)
    requires RecordsReleases(log, events, ids, claimant) && id !in ids
    ensures RecordsReleases(log, events + [Released(id, claimant)], ids + {id}, claimant)
  {
    assert (events + [Released(id, claimant)])[|log|..] == events[|log|..] + [Released(id, claimant)];
  }

  /** The compare-and-swap of claim succeeds. */
  predicate Takes(beads: map<Id, Bead>, id: Id, claimant: string) {
    id in beads && beads[id].issueType != "epic" && !HeldBy(beads[id], claimant) && Unclaimed(beads[id].assignee)
  }

  function ClaimOutcome(beads: map<Id, Bead>, id: Id, claimant: string): Result<bool> {
    if id !in beads then Err(NotFound)
    else if beads[id].issueType == "epic" then Err(IsEpic)
    else Ok(HeldBy(beads[id], claimant) || Unclaimed(beads[id].assignee))
  }
}
