/**
 What the answer of the gate and of the user leads to for each call of a round,
 told without the phases: which text a call gets, and that a call nobody allowed
 is never executed and never shows anything of what executing it would give.
*/
module ToolGates {
  import opened Options
  import opened ToolContext
  import opened ToolPhases

  /** The gate lets the call through, or asked the user, who approved it. */
  predicate MayRun(g: Gate) {
    g == Allow || g == NeedsApproval(Approved)
  }

  /** What the model is told about a call that may not run. */
  function Refusal(g: Gate): string
    requires !MayRun(g)
  {
    match g
    case BlockedRepeat(m) => m
    case Deny(m) => m
    case NeedsApproval(TimedOut) => "Tool call approval timed out"
    case NeedsApproval(Cancelled) => "Tool call cancelled by user (stream interrupted)"
    case NeedsApproval(Rejected(feedback)) =>
      if feedback == "" then "Tool call rejected by user" else "User rejected with feedback: " + feedback
  }

  const SKIPPED := "Tool call skipped (previous tool rejected by user)"

  /** The user said no without feedback, or interrupted the stream. */
  predicate EndsRound(g: Gate) {
    g == NeedsApproval(Rejected("")) || g == NeedsApproval(Cancelled)
  }

  ghost predicate EndedBefore(ws: seq<World>, n: nat)
    requires n <= |ws|
  {
    exists j :: 0 <= j < n && EndsRound(ws[j].gate)
  }

  predicate AsksUser(c: Call) {
    c.name == "clarify" || c.name == "request_plan_approval"
  }

  predicate RefusesPlan(c: Call, w: World) {
    MayRun(w.gate) && c.name == "request_plan_approval" && w.planRejected
  }

  ghost predicate PlanRefusedBefore(calls: seq<Call>, ws: seq<World>, n: nat)
    requires n <= |calls| == |ws|
  {
    exists j :: 0 <= j < n && RefusesPlan(calls[j], ws[j])
  }

  /** The text call i gets; None if the round ended before it, or its outcome was lost. */
  ghost function Outcome(calls: seq<Call>, ws: seq<World>, i: nat): Option<string>
    requires i < |calls| == |ws|
  {
    var g := ws[i].gate;
    if !MayRun(g) then if EndedBefore(ws, i) then None else Some(Refusal(g))
    else if EndedBefore(ws, |ws|) then None
    else if AsksUser(calls[i]) then if PlanRefusedBefore(calls, ws, i) then None else Some(ws[i].reply)
    else if PlanRefusedBefore(calls, ws, |calls|) then None
    else ws[i].ran
  }

  /** What phase A makes of a call depends on the gate alone, and on the name if the call may run. */
  lemma FateIs(c: Call, w: World)
    ensures FateOf(c, w).Stops? <==> EndsRound(w.gate)
    ensures FateOf(c, w).Answered? <==> !MayRun(w.gate) && !EndsRound(w.gate)
    ensures FateOf(c, w).Interactive? <==> MayRun(w.gate) && AsksUser(c)
    ensures FateOf(c, w).Executable? <==> MayRun(w.gate) && !AsksUser(c)
    ensures RejectsPlan(c, w) <==> RefusesPlan(c, w)
    ensures Reply(c, w) == Tool(CallId(c, w), c.name,
      if !MayRun(w.gate) then Refusal(w.gate) else if AsksUser(c) then w.reply else if w.ran.Some? then w.ran.value else "")
  {
  }

  lemma StopAIs(calls: seq<Call>, ws: seq<World>, n: nat)
    requires |ws| == |calls| && n <= |calls|
    ensures StopA(calls, ws, 0) < n <==> EndedBefore(ws, n)
    ensures StopB(calls, ws, 0) < n <==> PlanRefusedBefore(calls, ws, n)
  {
    forall j | 0 <= j < |calls|
      ensures FateOf(calls[j], ws[j]).Stops? <==> EndsRound(ws[j].gate)
      ensures RejectsPlan(calls[j], ws[j]) <==> RefusesPlan(calls[j], ws[j])
    {
      FateIs(calls[j], ws[j]);
    }
    hide FateOf, RejectsPlan, RefusesPlan, EndsRound;
  }

  /** A round is rejected exactly when the user refuses a call without feedback, interrupts, or rejects a plan. */
  lemma RejectedIff(calls: seq<Call>, ws: seq<World>)
    requires |ws| == |calls|
    ensures IsRejected(calls, ws) <==> EndedBefore(ws, |ws|) || PlanRefusedBefore(calls, ws, |calls|)
  {
    StopAIs(calls, ws, |calls|);
    hide StopA, StopB;
  }

  /** The phases process exactly the calls that get a text, and reply with it. */
  lemma ProcessedIsOutcome(calls: seq<Call>, ws: seq<World>, i: nat)
    requires |ws| == |calls| && i < |calls|
    ensures IsProcessed(calls, ws, i) <==> Outcome(calls, ws, i).Some?
    ensures IsProcessed(calls, ws, i) ==> Reply(calls[i], ws[i]) == Tool(CallId(calls[i], ws[i]), calls[i].name, Outcome(calls, ws, i).value)
  {
    StopAIs(calls, ws, |calls|);
    StopAIs(calls, ws, i);
    FateIs(calls[i], ws[i]);
    if StopA(calls, ws, 0) == i {
      assert EndsRound(ws[i].gate);
    }
    hide FateOf, Reply, EndsRound, EndedBefore, PlanRefusedBefore, MayRun, AsksUser, Refusal;
    hide StopA, StopB;
  }

  /**
   The messages of a round, call by call: a call with an outcome has it as the only
   message under its id; any other one is told it was skipped if the round was
   rejected, and has no message if not.
  */
  lemma EachCallGetsItsOutcome(calls: seq<Call>, ws: seq<World>, i: nat)
    requires |ws| == |calls| && GoodIds(calls, ws) && i < |calls|
    ensures var id, outcome := CallId(calls[i], ws[i]), Outcome(calls, ws, i);
      var rejected := EndedBefore(ws, |ws|) || PlanRefusedBefore(calls, ws, |calls|);
      && (outcome.Some? ==> Tool(id, calls[i].name, outcome.value) in ToolMessages(calls, ws))
      && (outcome.None? && rejected ==> Tool(calls[i].id, calls[i].name, SKIPPED) in ToolMessages(calls, ws))
      && forall m :: m in ToolMessages(calls, ws) && m.Tool? && m.callId == id ==>
           if outcome.Some? then m == Tool(id, calls[i].name, outcome.value)
           else rejected && m == Tool(calls[i].id, calls[i].name, SKIPPED)
  {
    hide IsProcessed, Reply, Outcome, IsRejected, EndedBefore, PlanRefusedBefore, GoodIds, Skipped, Replies, IdsAnswered;
    ProcessedIsOutcome(calls, ws, i);
    RejectedIff(calls, ws);
    AnsweredIff(calls, ws, i);
    if IsProcessed(calls, ws, i) {
      ReplyIncluded(calls, ws, |calls|, i);
    } else {
      SkippedUnless(calls, ws, i);
    }
    forall m | m in ToolMessages(calls, ws) && m.Tool? && m.callId == CallId(calls[i], ws[i])
      ensures if IsProcessed(calls, ws, i) then m == Reply(calls[i], ws[i]) else IsRejected(calls, ws) && m == SkipMessage(calls[i])
    {
      MessageOf(calls, ws, i, m);
    }
  }

  lemma SkippedUnless(calls: seq<Call>, ws: seq<World>, i: nat)
    requires |ws| == |calls| && GoodIds(calls, ws) && i < |calls| && !IsProcessed(calls, ws, i)
    ensures IsRejected(calls, ws) ==> SkipMessage(calls[i]) in ToolMessages(calls, ws)
  {
    hide IsProcessed, IsRejected, GoodIds, Skipped, Replies, IdsAnswered;
    AnsweredIff(calls, ws, i);
    SkipIncluded(calls, IdsAnswered(Replies(calls, ws, |calls|)), i);
  }

  /** A call that may not run is in neither queue: it is never executed, and no handler sees it. */
  lemma RefusedIsNotQueued(calls: seq<Call>, ws: seq<World>, idxs: seq<nat>, n: nat, interactive: bool, i: nat)
    requires |ws| == |calls| && n <= |calls| && Queues(idxs, calls, ws, n, interactive) && i in idxs
    ensures i < |calls| && MayRun(ws[i].gate) && (AsksUser(calls[i]) <==> interactive)
  {
    FateIs(calls[i], ws[i]);
    hide FateOf, MayRun;
  }

  /** What running or asking would have given. */
  function WithTool(w: World, reply: string, planRejected: bool, ran: Option<string>): World {
    w.(reply := reply, planRejected := planRejected, ran := ran)
  }

  lemma SameFates(calls: seq<Call>, ws: seq<World>, ws': seq<World>, i: nat, n: nat)
    requires |ws| == |ws'| == |calls| && n <= |calls|
    requires forall k :: 0 <= k < |calls| ==> FateOf(calls[k], ws[k]) == FateOf(calls[k], ws'[k])
    requires forall k :: 0 <= k < |calls| ==> RejectsPlan(calls[k], ws[k]) == RejectsPlan(calls[k], ws'[k])
    ensures StopA(calls, ws, n) == StopA(calls, ws', n) && StopB(calls, ws, n) == StopB(calls, ws', n)
  {
    hide FateOf, RejectsPlan;
  }

  lemma {:induction false} SameReplies(calls: seq<Call>, ws: seq<World>, ws': seq<World>, n: nat)
    requires |ws| == |ws'| == |calls| && n <= |calls|
    requires forall k :: 0 <= k < |calls| ==> IsProcessed(calls, ws, k) == IsProcessed(calls, ws', k)
    requires forall k :: 0 <= k < |calls| && IsProcessed(calls, ws, k) ==> Reply(calls[k], ws[k]) == Reply(calls[k], ws'[k])
    ensures Replies(calls, ws, n) == Replies(calls, ws', n)
  {
    hide IsProcessed, Reply;
    if n == 0 {
    } else {
      SameReplies(calls, ws, ws', n - 1);
    }
  }

  /**
   Whatever a call that may not run would have answered, the messages of the round
   are the same: nothing of a blocked, denied, rejected, timed out or interrupted
   call ever reaches the model but its refusal.
  */
  lemma RefusedLeavesNoTrace(calls: seq<Call>, ws: seq<World>, i: nat, reply: string, planRejected: bool, ran: Option<string>)
    requires |ws| == |calls| && i < |calls| && !MayRun(ws[i].gate)
    ensures ToolMessages(calls, ws[i := WithTool(ws[i], reply, planRejected, ran)]) == ToolMessages(calls, ws)
  {
    var ws' := ws[i := WithTool(ws[i], reply, planRejected, ran)];
    forall k | 0 <= k < |calls|
      ensures FateOf(calls[k], ws[k]) == FateOf(calls[k], ws'[k])
      ensures RejectsPlan(calls[k], ws[k]) == RejectsPlan(calls[k], ws'[k])
      ensures k == i ==> !FateOf(calls[k], ws[k]).Executable? && Reply(calls[k], ws[k]) == Reply(calls[k], ws'[k])
    {
      FateIs(calls[k], ws[k]);
      FateIs(calls[k], ws'[k]);
    }
    hide FateOf, RejectsPlan, Reply, MayRun;
    SameFates(calls, ws, ws', i, 0);
    hide StopA, StopB;
    SameReplies(calls, ws, ws', |calls|);
  }
}
