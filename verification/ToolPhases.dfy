/**
 One round of tool execution in stream_response: gate and approve (phase A),
 interactive tools (B1), parallel tools (B2 and C), merge in call order, and
 fill in skipped results after a rejection. What gates, users and tools answer
 is given from outside.
*/
module ToolPhases {
  import opened Options
  import opened Sequences
  import opened ToolContext

  /** The user's answer to an approval prompt. */
  datatype Answer = Approved | Rejected(feedback: string) | TimedOut | Cancelled

  datatype Gate = BlockedRepeat(message: string) | Deny(message: string) | NeedsApproval(answer: Answer) | Allow

  /**
   Everything the outside world decides about one call: the gate, the uuid a
   call without id gets, an interactive tool's reply and whether a plan was
   rejected, and the tool's result, None when gather returned a BaseException.
  */
  datatype World = World(gate: Gate, freshId: Id, reply: string, planRejected: bool, ran: Option<string>)

  /** What phase A does with a call. Stops ends the phase (user_rejected). */
  datatype Fate = Answered(content: string) | Stops(content: string) | Interactive | Executable

  function FateOf(c: Call, w: World): Fate {
    match w.gate
    case BlockedRepeat(m) => Answered(m)
    case Deny(m) => Answered(m)
    case NeedsApproval(Rejected(feedback)) =>
      if feedback != "" then Answered("User rejected with feedback: " + feedback) else Stops("Tool call rejected by user")
    case NeedsApproval(TimedOut) => Answered("Tool call approval timed out")
    case NeedsApproval(Cancelled) => Stops("Tool call cancelled by user (stream interrupted)")
    case NeedsApproval(Approved) => Classify(c)
    case Allow => Classify(c)
  }

  function Classify(c: Call): Fate {
    if c.name == "clarify" || c.name == "request_plan_approval" then Interactive else Executable
  }

  function CallId(c: Call, w: World): Id {
    if c.id != "" then c.id else w.freshId
  }

  predicate RejectsPlan(c: Call, w: World) {
    FateOf(c, w).Interactive? && c.name == "request_plan_approval" && w.planRejected
  }

  /** The tool message of a call that was processed. */
  function Reply(c: Call, w: World): Msg {
    var content := match FateOf(c, w)
                   case Answered(m) => m
                   case Stops(m) => m
                   case Interactive => w.reply
                   case Executable => if w.ran.Some? then w.ran.value else "";
    Tool(CallId(c, w), c.name, content)
  }

  // ----- which calls are processed --------------------------------------------------

  /** The first call at which phase A stops, or the number of calls. */
  function StopA(calls: seq<Call>, ws: seq<World>, i: nat): (k: nat)
    requires |ws| == |calls| && i <= |calls|
    ensures i <= k <= |calls|
    ensures forall j :: i <= j < k ==> !FateOf(calls[j], ws[j]).Stops?
    ensures k < |calls| ==> FateOf(calls[k], ws[k]).Stops?
    decreases |calls| - i
  {
    if i == |calls| || FateOf(calls[i], ws[i]).Stops? then i else StopA(calls, ws, i + 1)
  }

  /** The first rejected plan, or the number of calls. */
  function StopB(calls: seq<Call>, ws: seq<World>, i: nat): (k: nat)
    requires |ws| == |calls| && i <= |calls|
    ensures i <= k <= |calls|
    ensures forall j :: i <= j < k ==> !RejectsPlan(calls[j], ws[j])
    ensures k < |calls| ==> RejectsPlan(calls[k], ws[k])
    decreases |calls| - i
  {
    if i == |calls| || RejectsPlan(calls[i], ws[i]) then i else StopB(calls, ws, i + 1)
  }

  predicate IsRejected(calls: seq<Call>, ws: seq<World>)
    requires |ws| == |calls|
  {
    StopA(calls, ws, 0) < |calls| || StopB(calls, ws, 0) < |calls|
  }

  predicate IsProcessed(calls: seq<Call>, ws: seq<World>, i: nat)
    requires |ws| == |calls| && i < |calls|
  {
    var a, b, fate := StopA(calls, ws, 0), StopB(calls, ws, 0), FateOf(calls[i], ws[i]);
    if a < |calls| then i <= a && (fate.Answered? || fate.Stops?)
    else if b < |calls| then fate.Answered? || (fate.Interactive? && i <= b)
    else fate.Executable? ==> ws[i].ran.Some?
  }

  /** The replies to the processed calls among the first n, in call order. */
  function Replies(calls: seq<Call>, ws: seq<World>, n: nat): seq<Msg>
    requires |ws| == |calls| && n <= |calls|
  {
    if n == 0 then [] else
      Replies(calls, ws, n - 1) + if IsProcessed(calls, ws, n - 1) then [Reply(calls[n - 1], ws[n - 1])] else []
  }

  function SkipMessage(c: Call): Msg {
    Tool(c.id, c.name, "Tool call skipped (previous tool rejected by user)")
  }

  function SkipOne(c: Call, processed: set<Id>): seq<Msg> {
    if c.id !in processed then [SkipMessage(c)] else []
  }

  /** fill_skipped_tool_results */
  function Skipped(calls: seq<Call>, processed: set<Id>): seq<Msg> {
    if calls == [] then [] else SkipOne(calls[0], processed) + Skipped(calls[1..], processed)
  }

  function IdsAnswered(msgs: seq<Msg>): set<Id> {
    set m | m in msgs && m.Tool? :: m.callId
  }

  /** All tool messages the round appends after the assistant message. */
  function ToolMessages(calls: seq<Call>, ws: seq<World>): seq<Msg>
    requires |ws| == |calls|
  {
    var replies := Replies(calls, ws, |calls|);
    replies + if IsRejected(calls, ws) then Skipped(calls, IdsAnswered(replies)) else []
  }

  // ----- one message per call -------------------------------------------------------

  /**
   What providers and uuids give: the ids the calls have are distinct, and the
   ids made up for the others are new and distinct. Any call may lack an id.
  */
  ghost predicate GoodIds(calls: seq<Call>, ws: seq<World>)
    requires |ws| == |calls|
  {
    && (forall i, j :: 0 <= i < j < |calls| ==> CallId(calls[i], ws[i]) != CallId(calls[j], ws[j]))
    && (forall i :: 0 <= i < |calls| ==> CallId(calls[i], ws[i]) != "")
  }

  ghost predicate AllNamed(calls: seq<Call>) {
    forall i :: 0 <= i < |calls| ==> calls[i].id != ""
  }

  /** A parallel tool's outcome was dropped. */
  predicate IsLost(c: Call, w: World) {
    FateOf(c, w).Executable? && w.ran.None?
  }

  ghost predicate LosesOutcome(calls: seq<Call>, ws: seq<World>)
    requires |ws| == |calls|
  {
    exists i :: 0 <= i < |calls| && IsLost(calls[i], ws[i])
  }

  /** In a round that is not rejected every call is processed but those whose outcome is lost. */
  lemma ProcessedIff(calls: seq<Call>, ws: seq<World>, i: nat)
    requires |ws| == |calls| && i < |calls| && !IsRejected(calls, ws)
    ensures IsProcessed(calls, ws, i) <==> !IsLost(calls[i], ws[i])
  {
    hide FateOf;
  }

  lemma AllProcessedIff(calls: seq<Call>, ws: seq<World>)
    requires |ws| == |calls| && !IsRejected(calls, ws)
    ensures (forall i :: 0 <= i < |calls| ==> IsProcessed(calls, ws, i)) <==> !LosesOutcome(calls, ws)
  {
    forall i | 0 <= i < |calls|
      ensures IsProcessed(calls, ws, i) <==> !IsLost(calls[i], ws[i])
    {
      ProcessedIff(calls, ws, i);
    }
    hide IsProcessed, IsRejected, IsLost;
  }

  /** How many messages answer an id. */
  function Count(msgs: seq<Msg>, id: Id): nat {
    if msgs == [] then 0 else (if msgs[0].Tool? && msgs[0].callId == id then 1 else 0) + Count(msgs[1..], id)
  }

  lemma {:induction false} CountConcat(a: seq<Msg>, b: seq<Msg>, id: Id)
    ensures Count(a + b, id) == Count(a, id) + Count(b, id)
  {
    if a == [] {
      assert a + b == b;
    } else {
      assert (a + b)[0] == a[0] && (a + b)[1..] == a[1..] + b;
      CountConcat(a[1..], b, id);
    }
  }

  /** The replies hold one message for every processed call, under its own or its made-up id. */
  lemma {:induction false} RepliesCount(calls: seq<Call>, ws: seq<World>, n: nat, i: nat)
    requires |ws| == |calls| && GoodIds(calls, ws) && n <= |calls| && i < |calls|
    ensures Count(Replies(calls, ws, n), CallId(calls[i], ws[i])) == if i < n && IsProcessed(calls, ws, i) then 1 else 0
  {
    hide IsProcessed, FateOf, CallId;
    if n == 0 {
    } else {
      RepliesCount(calls, ws, n - 1, i);
      var last := if IsProcessed(calls, ws, n - 1) then [Reply(calls[n - 1], ws[n - 1])] else [];
      CountConcat(Replies(calls, ws, n - 1), last, CallId(calls[i], ws[i]));
      assert n - 1 != i ==> CallId(calls[n - 1], ws[n - 1]) != CallId(calls[i], ws[i]);
    }
  }

  lemma {:induction false} CountIsMembership(msgs: seq<Msg>, id: Id)
    ensures Count(msgs, id) > 0 <==> id in IdsAnswered(msgs)
  {
    if msgs == [] {
    } else {
      CountIsMembership(msgs[1..], id);
      assert msgs == [msgs[0]] + msgs[1..];
    }
  }

  lemma AnsweredIff(calls: seq<Call>, ws: seq<World>, i: nat)
    requires |ws| == |calls| && GoodIds(calls, ws) && i < |calls|
    ensures CallId(calls[i], ws[i]) in IdsAnswered(Replies(calls, ws, |calls|)) <==> IsProcessed(calls, ws, i)
    ensures "" !in IdsAnswered(Replies(calls, ws, |calls|))
  {
    hide IsProcessed, Count, Replies, IdsAnswered;
    var replies := Replies(calls, ws, |calls|);
    RepliesCount(calls, ws, |calls|, i);
    CountIsMembership(replies, CallId(calls[i], ws[i]));
    NoEmptyReply(calls, ws, |calls|);
  }

  lemma NoEmptyReply(calls: seq<Call>, ws: seq<World>, n: nat)
    requires |ws| == |calls| && GoodIds(calls, ws) && n <= |calls|
    ensures "" !in IdsAnswered(Replies(calls, ws, n))
  {
    hide IsProcessed, FateOf, CallId, Replies;
    forall m | m in Replies(calls, ws, n) && m.Tool?
      ensures m.callId != ""
    {
      ReplyOf(calls, ws, n, m);
    }
  }

  lemma {:induction false} SkippedSnoc(calls: seq<Call>, c: Call, processed: set<Id>)
    ensures Skipped(calls + [c], processed) == Skipped(calls, processed) + SkipOne(c, processed)
  {
    hide SkipOne;
    if calls == [] {
      assert [c][1..] == [];
      assert SkipOne(c, processed) + [] == [] + SkipOne(c, processed);
    } else {
      var one, rest := SkipOne(calls[0], processed), Skipped(calls[1..], processed);
      assert (calls + [c])[1..] == calls[1..] + [c];
      SkippedSnoc(calls[1..], c, processed);
      Assoc(one, rest, SkipOne(c, processed));
    }
  }

  /** How many of the first n calls are processed although they have no id. */
  function UnnamedProcessed(calls: seq<Call>, ws: seq<World>, n: nat): nat
    requires |ws| == |calls| && n <= |calls|
  {
    if n == 0 then 0
    else UnnamedProcessed(calls, ws, n - 1) + if calls[n - 1].id == "" && IsProcessed(calls, ws, n - 1) then 1 else 0
  }

  /** How many outcomes of the first n calls are lost. */
  function Losses(calls: seq<Call>, ws: seq<World>, n: nat): nat
    requires |ws| == |calls| && n <= |calls|
  {
    if n == 0 then 0 else Losses(calls, ws, n - 1) + if IsLost(calls[n - 1], ws[n - 1]) then 1 else 0
  }

  lemma {:induction false} RejectedTotal(calls: seq<Call>, ws: seq<World>, n: nat)
    requires |ws| == |calls| && GoodIds(calls, ws) && n <= |calls|
    ensures |Replies(calls, ws, n)| + |Skipped(calls[..n], IdsAnswered(Replies(calls, ws, |calls|)))|
      == n + UnnamedProcessed(calls, ws, n)
  {
    hide IsProcessed, FateOf, IdsAnswered, GoodIds;
    if n == 0 {
    } else {
      RejectedTotal(calls, ws, n - 1);
      AnsweredIff(calls, ws, n - 1);
      hide Skipped;
      assert calls[..n] == calls[..n - 1] + [calls[n - 1]];
      SkippedSnoc(calls[..n - 1], calls[n - 1], IdsAnswered(Replies(calls, ws, |calls|)));
    }
  }

  lemma {:induction false} AcceptedTotal(calls: seq<Call>, ws: seq<World>, n: nat)
    requires |ws| == |calls| && n <= |calls| && !IsRejected(calls, ws)
    ensures |Replies(calls, ws, n)| + Losses(calls, ws, n) == n
  {
    hide IsProcessed, FateOf, IsRejected, IsLost;
    if n == 0 {
    } else {
      AcceptedTotal(calls, ws, n - 1);
      ProcessedIff(calls, ws, n - 1);
    }
  }

  /**
   The number of tool messages of every round: a rejected one has a message too
   many for each processed call without an id, any other one too few for each
   lost outcome.
  */
  lemma MessagesTotal(calls: seq<Call>, ws: seq<World>)
    requires |ws| == |calls|
    ensures IsRejected(calls, ws) && GoodIds(calls, ws) ==>
      |ToolMessages(calls, ws)| == |calls| + UnnamedProcessed(calls, ws, |calls|)
    ensures !IsRejected(calls, ws) ==> |ToolMessages(calls, ws)| == |calls| - Losses(calls, ws, |calls|)
  {
    hide IsRejected, Replies, Skipped, GoodIds;
    assert calls[..|calls|] == calls;
    if !IsRejected(calls, ws) {
      AcceptedTotal(calls, ws, |calls|);
    } else if GoodIds(calls, ws) {
      RejectedTotal(calls, ws, |calls|);
    }
  }

  lemma {:induction false} NoneUnnamed(calls: seq<Call>, ws: seq<World>, n: nat)
    requires |ws| == |calls| && n <= |calls|
    ensures UnnamedProcessed(calls, ws, n) == 0 <==> forall i :: 0 <= i < n && calls[i].id == "" ==> !IsProcessed(calls, ws, i)
  {
    hide IsProcessed;
    if n == 0 {
    } else {
      NoneUnnamed(calls, ws, n - 1);
    }
  }

  lemma {:induction false} NoneLost(calls: seq<Call>, ws: seq<World>, n: nat)
    requires |ws| == |calls| && n <= |calls|
    ensures Losses(calls, ws, n) == 0 <==> forall i :: 0 <= i < n ==> !IsLost(calls[i], ws[i])
  {
    hide IsLost;
    if n == 0 {
    } else {
      NoneLost(calls, ws, n - 1);
    }
  }

  /**
   Whatever mix of blocked, denied, approved, rejected, interactive and parallel
   calls a round has, it adds as many messages as it has calls if and only if,
   when it is rejected, no call without an id was processed, and otherwise no
   parallel outcome was lost.
  */
  lemma OneMessagePerCall(calls: seq<Call>, ws: seq<World>)
    requires |ws| == |calls| && GoodIds(calls, ws)
    ensures |ToolMessages(calls, ws)| == |calls| <==>
      if IsRejected(calls, ws) then forall i :: 0 <= i < |calls| && calls[i].id == "" ==> !IsProcessed(calls, ws, i)
      else !LosesOutcome(calls, ws)
  {
    MessagesTotal(calls, ws);
    NoneUnnamed(calls, ws, |calls|);
    NoneLost(calls, ws, |calls|);
    hide ToolMessages, IsProcessed, IsRejected, GoodIds, IsLost;
  }

  /** A message under the id of a call is its reply, or its skip message if it was not processed. */
  lemma MessageOf(calls: seq<Call>, ws: seq<World>, i: nat, m: Msg)
    requires |ws| == |calls| && GoodIds(calls, ws) && i < |calls|
    requires m in ToolMessages(calls, ws) && m.Tool? && m.callId == CallId(calls[i], ws[i])
    ensures if IsProcessed(calls, ws, i) then m == Reply(calls[i], ws[i]) else IsRejected(calls, ws) && m == SkipMessage(calls[i])
  {
    hide IsProcessed, FateOf, Replies, Skipped, IdsAnswered;
    var replies := Replies(calls, ws, |calls|);
    AnsweredIff(calls, ws, i);
    if m in replies {
      ReplyOf(calls, ws, |calls|, m);
      var k :| 0 <= k < |calls| && IsProcessed(calls, ws, k) && m == Reply(calls[k], ws[k]);
      assert k == i;
    } else {
      SkippedOf(calls, IdsAnswered(replies), m);
      var k :| 0 <= k < |calls| && calls[k].id !in IdsAnswered(replies) && m == SkipMessage(calls[k]);
      assert calls[k].id != "" && k == i;
    }
  }

  /** A call with an id gets exactly one message, unless its outcome is lost in a round that is not rejected. */
  lemma MessagesForCall(calls: seq<Call>, ws: seq<World>, i: nat)
    requires |ws| == |calls| && GoodIds(calls, ws) && i < |calls| && calls[i].id != ""
    ensures Count(ToolMessages(calls, ws), calls[i].id) == if IsRejected(calls, ws) || !IsLost(calls[i], ws[i]) then 1 else 0
  {
    hide IsProcessed, Count, IdsAnswered, Skipped, Replies, IsRejected, IsLost;
    var replies := Replies(calls, ws, |calls|);
    RepliesCount(calls, ws, |calls|, i);
    AnsweredIff(calls, ws, i);
    if IsRejected(calls, ws) {
      SkippedCount(calls, ws, IdsAnswered(replies), i, |calls|);
      assert calls[..|calls|] == calls;
      CountConcat(replies, Skipped(calls, IdsAnswered(replies)), calls[i].id);
    } else {
      ProcessedIff(calls, ws, i);
      assert replies + [] == replies;
    }
  }

  lemma {:induction false} SkippedCount(calls: seq<Call>, ws: seq<World>, processed: set<Id>, i: nat, n: nat)
    requires |ws| == |calls| && GoodIds(calls, ws) && i < |calls| && calls[i].id != "" && n <= |calls|
    ensures Count(Skipped(calls[..n], processed), calls[i].id) == if i < n && calls[i].id !in processed then 1 else 0
  {
    hide Count, SkipOne, Skipped, GoodIds;
    if n == 0 {
      NothingSkipped(calls[..n], processed, calls[i].id);
    } else {
      SkippedCount(calls, ws, processed, i, n - 1);
      IdsDiffer(calls, ws, n - 1, i);
      assert calls[..n] == calls[..n - 1] + [calls[n - 1]];
      SkippedSnoc(calls[..n - 1], calls[n - 1], processed);
      CountConcat(Skipped(calls[..n - 1], processed), SkipOne(calls[n - 1], processed), calls[i].id);
      CountSkip(calls[n - 1], processed, calls[i].id);
    }
  }

  lemma NothingSkipped(calls: seq<Call>, processed: set<Id>, id: Id)
    requires calls == []
    ensures Count(Skipped(calls, processed), id) == 0
  {
  }

  lemma CountSkip(c: Call, processed: set<Id>, id: Id)
    ensures Count(SkipOne(c, processed), id) == if c.id == id && id !in processed then 1 else 0
  {
    CountUpToOne(SkipOne(c, processed), id);
  }

  lemma IdsDiffer(calls: seq<Call>, ws: seq<World>, k: nat, i: nat)
    requires |ws| == |calls| && GoodIds(calls, ws) && i < |calls| && k < |calls| && calls[i].id != ""
    ensures calls[k].id == calls[i].id <==> k == i
  {
    assert CallId(calls[k], ws[k]) == CallId(calls[i], ws[i]) <==> k == i;
  }

  lemma CountUpToOne(msgs: seq<Msg>, id: Id)
    requires |msgs| <= 1
    ensures Count(msgs, id) == if msgs != [] && msgs[0].Tool? && msgs[0].callId == id then 1 else 0
  {
    if msgs != [] {
      assert msgs[1..] == [];
    }
  }

  /** A call without an id gets its reply under the made-up id; a rejection adds a skip message without id. */
  lemma MessagesForUnnamed(calls: seq<Call>, ws: seq<World>, i: nat)
    requires |ws| == |calls| && GoodIds(calls, ws) && i < |calls| && calls[i].id == ""
    ensures Reply(calls[i], ws[i]) in ToolMessages(calls, ws) || !IsProcessed(calls, ws, i)
    ensures IsRejected(calls, ws) ==> SkipMessage(calls[i]) in ToolMessages(calls, ws)
  {
    hide IsProcessed, FateOf, Skipped, IdsAnswered, IsRejected;
    AnsweredIff(calls, ws, i);
    SkipIncluded(calls, IdsAnswered(Replies(calls, ws, |calls|)), i);
    if IsProcessed(calls, ws, i) {
      ReplyIncluded(calls, ws, |calls|, i);
    }
  }

  lemma {:induction false} ReplyIncluded(calls: seq<Call>, ws: seq<World>, n: nat, i: nat)
    requires |ws| == |calls| && i < n <= |calls| && IsProcessed(calls, ws, i)
    ensures Reply(calls[i], ws[i]) in Replies(calls, ws, n)
  {
    hide IsProcessed, Reply;
    if i == n - 1 {
    } else {
      ReplyIncluded(calls, ws, n - 1, i);
    }
  }

  lemma {:induction false} SkipIncluded(calls: seq<Call>, processed: set<Id>, i: nat)
    requires i < |calls| && calls[i].id !in processed
    ensures SkipMessage(calls[i]) in Skipped(calls, processed)
  {
    if i == 0 {
    } else {
      SkipIncluded(calls[1..], processed, i - 1);
    }
  }

  /** There are no further messages either. */
  lemma OnlyTheCallsAreAnswered(calls: seq<Call>, ws: seq<World>, m: Msg)
    requires |ws| == |calls| && m in ToolMessages(calls, ws)
    ensures m.Tool?
    ensures exists i :: 0 <= i < |calls| && m.name == calls[i].name && (m.callId == CallId(calls[i], ws[i]) || m.callId == calls[i].id)
  {
    var replies := Replies(calls, ws, |calls|);
    if m in replies {
      ReplyOf(calls, ws, |calls|, m);
    } else {
      SkippedOf(calls, IdsAnswered(replies), m);
    }
  }

  lemma {:induction false} ReplyOf(calls: seq<Call>, ws: seq<World>, n: nat, m: Msg)
    requires |ws| == |calls| && n <= |calls| && m in Replies(calls, ws, n)
    ensures exists i :: 0 <= i < n && IsProcessed(calls, ws, i) && m == Reply(calls[i], ws[i])
  {
    if m in Replies(calls, ws, n - 1) {
      ReplyOf(calls, ws, n - 1, m);
    }
  }

  lemma {:induction false} SkippedOf(calls: seq<Call>, processed: set<Id>, m: Msg)
    requires m in Skipped(calls, processed)
    ensures exists i :: 0 <= i < |calls| && calls[i].id !in processed && m == SkipMessage(calls[i])
  {
    if m in Skipped(calls[1..], processed) {
      SkippedOf(calls[1..], processed, m);
      var i :| 0 <= i < |calls[1..]| && calls[1..][i].id !in processed && m == SkipMessage(calls[1..][i]);
      assert calls[i + 1] == calls[1..][i];
    }
  }

  /** The smallest such round: a single call without id that the user rejects leaves two messages. */
  lemma MissingIdIsAnsweredTwice()
    ensures var calls := [Call("", "bash")];
      var ws := [World(NeedsApproval(Rejected("")), "call_1", "", false, None)];
      |ToolMessages(calls, ws)| == 2
  {
    var calls := [Call("", "bash")];
    var ws := [World(NeedsApproval(Rejected("")), "call_1", "", false, None)];
    assert FateOf(calls[0], ws[0]).Stops?;
    assert Replies(calls, ws, 0) == [];
    assert Replies(calls, ws, 1) == [Reply(calls[0], ws[0])];
    assert Skipped(calls[1..], IdsAnswered(Replies(calls, ws, 1))) == [];
    assert "" !in IdsAnswered(Replies(calls, ws, 1));
  }

  // ----- call order, and what the next repair does ------------------------------------

  lemma {:induction false} AllReplies(calls: seq<Call>, ws: seq<World>, n: nat)
    requires |ws| == |calls| && n <= |calls| && forall i :: 0 <= i < n ==> IsProcessed(calls, ws, i)
    ensures |Replies(calls, ws, n)| == n
    ensures forall i :: 0 <= i < n ==> Replies(calls, ws, n)[i] == Reply(calls[i], ws[i])
  {
    hide IsProcessed, Reply;
    if n == 0 {
    } else {
      AllReplies(calls, ws, n - 1);
    }
  }

  lemma {:induction false} IdsWhenAllNamed(calls: seq<Call>)
    requires forall i :: 0 <= i < |calls| ==> calls[i].id != ""
    ensures |Ids(calls)| == |calls| && forall i :: 0 <= i < |calls| ==> Ids(calls)[i] == calls[i].id
  {
    if calls == [] {
    } else {
      IdsWhenAllNamed(calls[1..]);
    }
  }

  /** Without a rejection and without a dropped outcome the messages answer the calls in call order. */
  lemma MessagesInCallOrder(calls: seq<Call>, ws: seq<World>)
    requires |ws| == |calls| && !IsRejected(calls, ws) && !LosesOutcome(calls, ws)
    requires forall i :: 0 <= i < |calls| ==> calls[i].id != ""
    ensures AnswersInOrder(ToolMessages(calls, ws), Ids(calls))
  {
    hide IsProcessed, IsRejected, Replies, FateOf, Ids;
    AllProcessedIff(calls, ws);
    AllReplies(calls, ws, |calls|);
    IdsWhenAllNamed(calls);
    assert ToolMessages(calls, ws) == Replies(calls, ws, |calls|);
  }

  lemma {:induction false} NormalConcat(a: seq<Msg>, b: seq<Msg>)
    requires Normal(a) && Normal(b)
    ensures Normal(a + b)
    decreases |a|
  {
    if a == [] {
      assert a + b == b;
    } else {
      match a[0]
      case Other(_, _) =>
        assert (a + b)[1..] == a[1..] + b;
        NormalConcat(a[1..], b);
      case Assistant(_, calls) =>
        var n := |Ids(calls)|;
        assert (a + b)[1..1 + n] == a[1..1 + n] && (a + b)[1 + n..] == a[1 + n..] + b;
        NormalConcat(a[1 + n..], b);
    }
  }

  /** No result of ctx is under an id of the new round. */
  ghost predicate FreshFor(ctx: seq<Msg>, calls: seq<Call>, ws: seq<World>)
    requires |ws| == |calls|
  {
    forall m, i :: m in ctx && m.Tool? && 0 <= i < |calls| ==> m.callId != CallId(calls[i], ws[i])
  }

  /** What a call with an id has after the next repair: its reply, its skip message, or a synthetic result. */
  function ResultFor(calls: seq<Call>, ws: seq<World>, i: nat): Msg
    requires |ws| == |calls| && i < |calls|
  {
    if IsProcessed(calls, ws, i) then Reply(calls[i], ws[i])
    else if IsRejected(calls, ws) then SkipMessage(calls[i])
    else Synthetic(calls[i].id, calls[i].name)
  }

  /** The answers to the calls with an id from the n-th on, in call order. */
  function Answers(calls: seq<Call>, ws: seq<World>, n: nat): seq<Msg>
    requires |ws| == |calls| && n <= |calls|
    decreases |calls| - n
  {
    if n == |calls| then []
    else (if calls[n].id != "" then [ResultFor(calls, ws, n)] else []) + Answers(calls, ws, n + 1)
  }

  lemma {:induction false} RebuildConcat(a: seq<Msg>, b: seq<Msg>, results: map<Id, Msg>)
    ensures Rebuild(a + b, results) == Rebuild(a, results) + Rebuild(b, results)
  {
    if a == [] {
      assert a + b == b;
    } else {
      assert (a + b)[1..] == a[1..] + b;
      RebuildConcat(a[1..], b, results);
    }
  }

  lemma {:induction false} NamesAfterTools(ctx: seq<Msg>, tools: seq<Msg>)
    requires forall m :: m in tools ==> m.Tool?
    ensures Names(ctx + tools) == Names(ctx)
  {
    if tools == [] {
      assert ctx + tools == ctx;
    } else {
      var init := tools[..|tools| - 1];
      assert (ctx + tools)[..|ctx + tools| - 1] == ctx + init;
      assert (ctx + tools)[|ctx + tools| - 1] == tools[|tools| - 1] && tools[|tools| - 1] in tools;
      NamesAfterTools(ctx, init);
    }
  }

  lemma {:induction false} NameOfCall(names: map<Id, string>, calls: seq<Call>, ws: seq<World>, n: nat, i: nat)
    requires |ws| == |calls| && GoodIds(calls, ws) && i < n <= |calls| && calls[i].id != ""
    ensures var t := NamesOf(names, calls[..n]); calls[i].id in t && t[calls[i].id] == calls[i].name
  {
    assert calls[..n][..n - 1] == calls[..n - 1];
    if i == n - 1 {
    } else {
      NameOfCall(names, calls, ws, n - 1, i);
      assert CallId(calls[n - 1], ws[n - 1]) != CallId(calls[i], ws[i]);
    }
  }

  lemma NameInRound(ctx: seq<Msg>, body: string, calls: seq<Call>, ws: seq<World>, tools: seq<Msg>, i: nat)
    requires |ws| == |calls| && GoodIds(calls, ws) && i < |calls| && calls[i].id != ""
    requires forall m :: m in tools ==> m.Tool?
    ensures var names := Names(ctx + [Assistant(body, calls)] + tools); calls[i].id in names && names[calls[i].id] == calls[i].name
  {
    var a := ctx + [Assistant(body, calls)];
    NamesAfterTools(a, tools);
    assert a[..|a| - 1] == ctx && calls[..|calls|] == calls;
    NameOfCall(Names(ctx), calls, ws, |calls|, i);
  }

  lemma ToolsOnly(calls: seq<Call>, ws: seq<World>)
    requires |ws| == |calls|
    ensures forall m :: m in ToolMessages(calls, ws) ==> m.Tool?
  {
    forall m | m in ToolMessages(calls, ws)
      ensures m.Tool?
    {
      OnlyTheCallsAreAnswered(calls, ws, m);
    }
  }

  /** The result the repair places for a call with an id. */
  lemma ResultIsAnswer(ctx: seq<Msg>, body: string, calls: seq<Call>, ws: seq<World>, i: nat)
    requires |ws| == |calls| && GoodIds(calls, ws) && FreshFor(ctx, calls, ws) && i < |calls| && calls[i].id != ""
    ensures var all := ctx + [Assistant(body, calls)] + ToolMessages(calls, ws);
      calls[i].id in Results(all) && Results(all)[calls[i].id] == ResultFor(calls, ws, i)
  {
    hide ToolMessages, IsProcessed, IsRejected, Names, Existing, Count, GoodIds;
    var msgs, id := ToolMessages(calls, ws), calls[i].id;
    var all := ctx + [Assistant(body, calls)] + msgs;
    ToolsOnly(calls, ws);
    NameInRound(ctx, body, calls, ws, msgs, i);
    ExistingIsFromContext(all, id);
    MessagesForCall(calls, ws, i);
    CountIsMembership(msgs, id);
    if id in Existing(all) {
      var m := Existing(all)[id];
      assert m in ctx || m == Assistant(body, calls) || m in msgs;
      MessageOf(calls, ws, i, m);
    } else {
      assert forall k :: 0 <= k < |msgs| ==> msgs[k] == all[|ctx| + 1 + k];
      assert id !in IdsAnswered(msgs);
      ProcessedIff(calls, ws, i);
    }
  }

  lemma {:induction false} ResultsAreAnswers(ctx: seq<Msg>, body: string, calls: seq<Call>, ws: seq<World>, n: nat)
    requires |ws| == |calls| && GoodIds(calls, ws) && FreshFor(ctx, calls, ws) && n <= |calls|
    ensures var all := ctx + [Assistant(body, calls)] + ToolMessages(calls, ws);
      ResultsOf(calls[n..], Results(all)) == Answers(calls, ws, n)
    decreases |calls| - n
  {
    hide ToolMessages, ResultFor, Results, FreshFor, GoodIds;
    if n == |calls| {
    } else {
      assert calls[n..][1..] == calls[n + 1..] && calls[n..][0] == calls[n];
      ResultsAreAnswers(ctx, body, calls, ws, n + 1);
      if calls[n].id != "" {
        ResultIsAnswer(ctx, body, calls, ws, n);
      }
    }
  }

  /** The results of the older context stay what they are. */
  lemma OldResultsStay(ctx: seq<Msg>, body: string, calls: seq<Call>, ws: seq<World>)
    requires |ws| == |calls| && GoodIds(calls, ws) && FreshFor(ctx, calls, ws) && Normal(ctx) && Consistent(ctx)
    ensures Tabled(ctx, Results(ctx + [Assistant(body, calls)] + ToolMessages(calls, ws)))
  {
    hide ToolMessages, Normal, Existing, Names, GoodIds;
    var msgs := ToolMessages(calls, ws);
    var all := ctx + [Assistant(body, calls)] + msgs;
    NormalIdsNonEmpty(ctx);
    forall k | 0 <= k < |ctx| && ctx[k].Tool?
      ensures ctx[k].callId in Results(all) && Results(all)[ctx[k].callId] == ctx[k]
    {
      var id := ctx[k].callId;
      assert all[k] == ctx[k] && ctx[k] in ctx;
      ExistingIsFromContext(all, id);
      var m := Existing(all)[id];
      assert m in ctx || m == Assistant(body, calls) || m in msgs;
      if m in msgs {
        OnlyTheCallsAreAnswered(calls, ws, m);
      }
      assert m in ctx;
    }
  }

  /**
   What the next repair makes of any round: it keeps the context before it, and
   answers each call that has an id exactly once, in call order, with its reply,
   its skip message or, if its outcome was lost, a synthetic result. Results
   under made-up ids are dropped.
  */
  lemma RepairAfterRound(ctx: seq<Msg>, body: string, calls: seq<Call>, ws: seq<World>)
    requires |ws| == |calls| && GoodIds(calls, ws)
    requires Normal(ctx) && Consistent(ctx) && FreshFor(ctx, calls, ws)
    ensures Repair(ctx + [Assistant(body, calls)] + ToolMessages(calls, ws)) == ctx + [Assistant(body, calls)] + Answers(calls, ws, 0)
  {
    hide ToolMessages, Answers, Results, Rebuild, Normal, GoodIds, FreshFor, Consistent;
    var msgs := ToolMessages(calls, ws);
    var all := ctx + [Assistant(body, calls)] + msgs;
    var results := Results(all);
    OldResultsStay(ctx, body, calls, ws);
    ResultsCover(all);
    CoversPrefix(all, ctx, results);
    RebuildIsIdentity(ctx, results);
    ToolsOnly(calls, ws);
    RebuildSkipsAnswers(msgs, [], results);
    NothingToRebuild(results);
    assert msgs + [] == msgs && calls[0..] == calls;
    ResultsAreAnswers(ctx, body, calls, ws, 0);
    RebuildOne(Assistant(body, calls), results);
    RebuildConcat(ctx + [Assistant(body, calls)], msgs, results);
    RebuildConcat(ctx, [Assistant(body, calls)], results);
  }

  lemma RebuildOne(m: Msg, results: map<Id, Msg>)
    ensures Rebuild([m], results) == Placed(m, results)
  {
    assert [m][1..] == [];
    assert Rebuild([], results) == [];
  }

  lemma CoversPrefix(all: seq<Msg>, ctx: seq<Msg>, results: map<Id, Msg>)
    requires ctx <= all && Covers(all, results)
    ensures Covers(ctx, results)
  {
  }

  /**
   In particular the next repair leaves a round unchanged in which every call has
   an id and nothing is rejected or lost.
  */
  lemma RoundStaysNormal(ctx: seq<Msg>, body: string, calls: seq<Call>, ws: seq<World>)
    requires |ws| == |calls| && GoodIds(calls, ws) && AllNamed(calls) && !IsRejected(calls, ws) && !LosesOutcome(calls, ws)
    requires Normal(ctx) && Consistent(ctx) && FreshFor(ctx, calls, ws)
    ensures var next := ctx + ([Assistant(body, calls)] + ToolMessages(calls, ws)); Repair(next) == next
  {
    hide IsProcessed, IsRejected, ToolMessages, Repair, Normal;
    var msgs := ToolMessages(calls, ws);
    MessagesInCallOrder(calls, ws);
    NormalEmpty();
    NormalBlock(Assistant(body, calls), msgs, []);
    assert [Assistant(body, calls)] + msgs + [] == [Assistant(body, calls)] + msgs;
    NormalConcat(ctx, [Assistant(body, calls)] + msgs);
    IdsWhenAllNamed(calls);
    ConsistentConcat(ctx, [Assistant(body, calls)] + msgs, calls, ws);
    RepairIsIdentityIff(ctx + ([Assistant(body, calls)] + msgs));
  }

  lemma NormalEmpty()
    ensures Normal([])
  {
  }

  lemma ConsistentConcat(ctx: seq<Msg>, round: seq<Msg>, calls: seq<Call>, ws: seq<World>)
    requires |ws| == |calls| && Consistent(ctx) && FreshFor(ctx, calls, ws) && GoodIds(calls, ws) && AllNamed(calls)
    requires |round| == 1 + |calls| && !round[0].Tool?
    requires forall i :: 0 <= i < |calls| ==> round[1..][i].Tool? && round[1..][i].callId == calls[i].id
    ensures Consistent(ctx + round)
  {
    var all := ctx + round;
    forall i, j | 0 <= i < |all| && 0 <= j < |all| && all[i].Tool? && all[j].Tool? && all[i].callId == all[j].callId
      ensures all[i] == all[j]
    {
      if i > |ctx| {
        assert all[i] == round[1..][i - |ctx| - 1];
      } else {
        assert all[i] in ctx;
      }
      if j > |ctx| {
        assert all[j] == round[1..][j - |ctx| - 1];
      } else {
        assert all[j] in ctx;
      }
    }
  }

  // ----- the code ------------------------------------------------------------------------

  type Entry = (nat, Msg)

  ghost predicate IsReply(e: Entry, calls: seq<Call>, ws: seq<World>)
    requires |ws| == |calls|
  {
    e.0 < |calls| && e.1 == Reply(calls[e.0], ws[e.0])
  }

  /** entries holds the reply of every call in s, once, in any order. */
  ghost predicate Lists(entries: seq<Entry>, calls: seq<Call>, ws: seq<World>, s: set<nat>)
    requires |ws| == |calls|
  {
    && (forall k :: 0 <= k < |entries| ==> entries[k].0 in s && IsReply(entries[k], calls, ws))
    && (forall i :: i in s ==> exists k :: 0 <= k < |entries| && entries[k].0 == i)
    && (forall k, l :: 0 <= k < l < |entries| ==> entries[k].0 != entries[l].0)
  }

  lemma ListsOneMore(entries: seq<Entry>, calls: seq<Call>, ws: seq<World>, s: set<nat>, i: nat)
    requires |ws| == |calls| && i < |calls| && i !in s && Lists(entries, calls, ws, s)
    ensures Lists(entries + [(i, Reply(calls[i], ws[i]))], calls, ws, s + {i})
  {
    hide Reply;
    var t := entries + [(i, Reply(calls[i], ws[i]))];
    forall j | j in s + {i}
      ensures exists k :: 0 <= k < |t| && t[k].0 == j
    {
      if j == i {
        assert t[|entries|].0 == i;
      } else {
        var k :| 0 <= k < |entries| && entries[k].0 == j;
        assert t[k].0 == j;
      }
    }
  }

  ghost predicate Ascending(entries: seq<Entry>) {
    forall k, l :: 0 <= k < l < |entries| ==> entries[k].0 < entries[l].0
  }

  /** resolved.sort(key = index) */
  function InsertByIndex(entries: seq<Entry>, e: Entry): (r: seq<Entry>)
    ensures multiset(r) == multiset(entries) + multiset{e}
  {
    if entries == [] || e.0 < entries[0].0 then [e] + entries
    else
      assert entries == [entries[0]] + entries[1..];
      [entries[0]] + InsertByIndex(entries[1..], e)
  }

  function SortByIndex(entries: seq<Entry>): (r: seq<Entry>)
    ensures multiset(r) == multiset(entries)
  {
    if entries == [] then [] else
      assert entries == [entries[0]] + entries[1..];
      InsertByIndex(SortByIndex(entries[1..]), entries[0])
  }

  lemma {:induction false} InsertAscending(entries: seq<Entry>, e: Entry)
    requires Ascending(entries) && forall k :: 0 <= k < |entries| ==> entries[k].0 != e.0
    ensures Ascending(InsertByIndex(entries, e))
  {
    if entries != [] && e.0 >= entries[0].0 {
      var r := InsertByIndex(entries[1..], e);
      InsertAscending(entries[1..], e);
      forall k | 0 <= k < |r|
        ensures entries[0].0 < r[k].0
      {
        assert r[k] in multiset(r);
        assert r[k] in entries[1..] || r[k] == e;
      }
    }
  }

  lemma {:induction false} SortAscending(entries: seq<Entry>)
    requires forall k, l :: 0 <= k < l < |entries| ==> entries[k].0 != entries[l].0
    ensures Ascending(SortByIndex(entries))
  {
    if entries == [] {
    } else {
      var r := SortByIndex(entries[1..]);
      SortAscending(entries[1..]);
      forall k | 0 <= k < |r|
        ensures r[k].0 != entries[0].0
      {
        assert r[k] in multiset(r);
        assert r[k] in entries[1..];
      }
      InsertAscending(r, entries[0]);
    }
  }

  function Messages(entries: seq<Entry>): seq<Msg> {
    if entries == [] then [] else Messages(entries[..|entries| - 1]) + [entries[|entries| - 1].1]
  }

  /** An ascending listing of the processed calls below n. */
  ghost predicate ListsBelow(entries: seq<Entry>, calls: seq<Call>, ws: seq<World>, n: nat)
    requires |ws| == |calls| && n <= |calls|
  {
    && Ascending(entries)
    && (forall k :: 0 <= k < |entries| ==> IsReply(entries[k], calls, ws))
    && (forall k :: 0 <= k < |entries| ==> entries[k].0 < n && IsProcessed(calls, ws, entries[k].0))
    && (forall i :: 0 <= i < n && IsProcessed(calls, ws, i) ==> exists k :: 0 <= k < |entries| && entries[k].0 == i)
  }

  lemma {:induction false} AscendingReads(entries: seq<Entry>, calls: seq<Call>, ws: seq<World>, n: nat)
    requires |ws| == |calls| && n <= |calls| && ListsBelow(entries, calls, ws, n)
    ensures Messages(entries) == Replies(calls, ws, n)
    decreases n
  {
    hide ListsBelow, IsProcessed, Reply;
    if n == 0 {
      NothingBelow(entries, calls, ws);
    } else if IsProcessed(calls, ws, n - 1) {
      LastEntry(entries, calls, ws, n);
      AscendingReads(entries[..|entries| - 1], calls, ws, n - 1);
    } else {
      NotListed(entries, calls, ws, n);
      AscendingReads(entries, calls, ws, n - 1);
    }
  }

  lemma NothingBelow(entries: seq<Entry>, calls: seq<Call>, ws: seq<World>)
    requires |ws| == |calls| && ListsBelow(entries, calls, ws, 0)
    ensures entries == []
  {
    hide IsProcessed, IsReply;
    assert |entries| > 0 ==> entries[0].0 < 0;
  }

  lemma NotListed(entries: seq<Entry>, calls: seq<Call>, ws: seq<World>, n: nat)
    requires |ws| == |calls| && 0 < n <= |calls| && ListsBelow(entries, calls, ws, n) && !IsProcessed(calls, ws, n - 1)
    ensures ListsBelow(entries, calls, ws, n - 1)
  {
    hide IsProcessed, IsReply;
  }

  lemma LastEntry(entries: seq<Entry>, calls: seq<Call>, ws: seq<World>, n: nat)
    requires |ws| == |calls| && 0 < n <= |calls| && ListsBelow(entries, calls, ws, n) && IsProcessed(calls, ws, n - 1)
    ensures entries != []
    ensures entries[|entries| - 1] == (n - 1, Reply(calls[n - 1], ws[n - 1]))
    ensures ListsBelow(entries[..|entries| - 1], calls, ws, n - 1)
  {
    hide IsProcessed, Reply;
    var k :| 0 <= k < |entries| && entries[k].0 == n - 1;
    var last := |entries| - 1;
    assert entries[k].0 <= entries[last].0;
    var init := entries[..last];
    forall i | 0 <= i < n - 1 && IsProcessed(calls, ws, i)
      ensures exists k :: 0 <= k < |init| && init[k].0 == i
    {
      var k :| 0 <= k < |entries| && entries[k].0 == i;
      assert init[k].0 == i;
    }
  }

  ghost function ProcessedSet(calls: seq<Call>, ws: seq<World>): set<nat>
    requires |ws| == |calls|
  {
    set i: nat | i < |calls| && IsProcessed(calls, ws, i)
  }

  lemma SortedReads(entries: seq<Entry>, calls: seq<Call>, ws: seq<World>)
    requires |ws| == |calls| && Lists(entries, calls, ws, ProcessedSet(calls, ws))
    ensures Messages(SortByIndex(entries)) == Replies(calls, ws, |calls|)
  {
    hide IsProcessed, Reply;
    var r := SortByIndex(entries);
    SortAscending(entries);
    forall e: Entry
      ensures e in r <==> e in entries
    {
      assert e in r <==> e in multiset(r);
      assert e in entries <==> e in multiset(entries);
    }
    forall k | 0 <= k < |r|
      ensures r[k] in entries
    {
      assert r[k] in r;
    }
    forall i | 0 <= i < |calls| && IsProcessed(calls, ws, i)
      ensures exists k :: 0 <= k < |r| && r[k].0 == i
    {
      assert i in ProcessedSet(calls, ws);
      var k :| 0 <= k < |entries| && entries[k].0 == i;
      assert entries[k] in r;
    }
    AscendingReads(r, calls, ws, |calls|);
  }

  /** idxs lists, in order, the calls among the first n with the given fate. */
  ghost predicate Queues(idxs: seq<nat>, calls: seq<Call>, ws: seq<World>, n: nat, interactive: bool)
    requires |ws| == |calls| && n <= |calls|
  {
    && (forall k :: 0 <= k < |idxs| ==> idxs[k] < n)
    && (forall k, l :: 0 <= k < l < |idxs| ==> idxs[k] < idxs[l])
    && (forall i :: 0 <= i < n ==>
          (i in idxs <==> if interactive then FateOf(calls[i], ws[i]).Interactive? else FateOf(calls[i], ws[i]).Executable?))
  }

  lemma QueueOneMore(idxs: seq<nat>, calls: seq<Call>, ws: seq<World>, n: nat, interactive: bool)
    requires |ws| == |calls| && n < |calls| && Queues(idxs, calls, ws, n, interactive)
    ensures var fate := FateOf(calls[n], ws[n]);
      Queues(if (if interactive then fate.Interactive? else fate.Executable?) then idxs + [n] else idxs, calls, ws, n + 1, interactive)
  {
    hide FateOf;
  }

  /** The calls among the first n that phase A resolves by itself. */
  ghost function ResolvedInA(calls: seq<Call>, ws: seq<World>, n: nat): set<nat>
    requires |ws| == |calls| && n <= |calls|
  {
    set i: nat | i < n && (FateOf(calls[i], ws[i]).Answered? || FateOf(calls[i], ws[i]).Stops?)
  }

  lemma NothingResolved(calls: seq<Call>, ws: seq<World>)
    requires |ws| == |calls|
    ensures Lists([], calls, ws, ResolvedInA(calls, ws, 0))
    ensures Queues([], calls, ws, 0, true) && Queues([], calls, ws, 0, false)
  {
  }

  method PhaseA(calls: seq<Call>, ws: seq<World>)
    returns (resolved: seq<Entry>, interactive: seq<nat>, executable: seq<nat>, userRejected: bool, ghost n: nat)
    requires |ws| == |calls|
    ensures n <= |calls| && Lists(resolved, calls, ws, ResolvedInA(calls, ws, n))
    ensures Queues(interactive, calls, ws, n, true) && Queues(executable, calls, ws, n, false)
    ensures userRejected <==> StopA(calls, ws, 0) < |calls|
    ensures n == if userRejected then StopA(calls, ws, 0) + 1 else |calls|
  {
    hide FateOf, Reply, Lists, Queues, ResolvedInA;
    resolved, interactive, executable, userRejected := [], [], [], false;
    var idx := 0;
    NothingResolved(calls, ws);
    while idx < |calls| && !userRejected
      invariant idx <= |calls| && Lists(resolved, calls, ws, ResolvedInA(calls, ws, idx))
      invariant Queues(interactive, calls, ws, idx, true) && Queues(executable, calls, ws, idx, false)
      invariant userRejected ==> idx > 0 && StopA(calls, ws, 0) == idx - 1
      invariant !userRejected ==> StopA(calls, ws, 0) == StopA(calls, ws, idx)
      decreases |calls| - idx
    {
      QueueOneMore(interactive, calls, ws, idx, true);
      QueueOneMore(executable, calls, ws, idx, false);
      ResolvedOneMore(calls, ws, idx);
      match FateOf(calls[idx], ws[idx]) {
        case Answered(_) =>
          ListsOneMore(resolved, calls, ws, ResolvedInA(calls, ws, idx), idx);
          resolved := resolved + [(idx, Reply(calls[idx], ws[idx]))];
        case Stops(_) =>
          ListsOneMore(resolved, calls, ws, ResolvedInA(calls, ws, idx), idx);
          resolved := resolved + [(idx, Reply(calls[idx], ws[idx]))];
          userRejected := true;
        case Interactive => interactive := interactive + [idx];
        case Executable => executable := executable + [idx];
      }
      idx := idx + 1;
    }
    n := idx;
  }

  lemma ResolvedOneMore(calls: seq<Call>, ws: seq<World>, n: nat)
    requires |ws| == |calls| && n < |calls|
    ensures var fate := FateOf(calls[n], ws[n]);
      ResolvedInA(calls, ws, n + 1) ==
        if fate.Answered? || fate.Stops? then ResolvedInA(calls, ws, n) + {n} else ResolvedInA(calls, ws, n)
    ensures n !in ResolvedInA(calls, ws, n)
  {
    hide FateOf;
  }

  /** The interactive calls up to and including the k-th one that B1 has handled. */
  ghost function HandledInB(idxs: seq<nat>, k: nat): set<nat>
    requires k <= |idxs|
  {
    set j | 0 <= j < k :: idxs[j]
  }

  method PhaseB1(calls: seq<Call>, ws: seq<World>, resolved0: seq<Entry>, interactive: seq<nat>, ghost done: set<nat>)
    returns (resolved: seq<Entry>, userRejected: bool, ghost k: nat)
    requires |ws| == |calls| && Lists(resolved0, calls, ws, done)
    requires Queues(interactive, calls, ws, |calls|, true) && forall i :: i in interactive ==> i !in done
    ensures k <= |interactive| && Lists(resolved, calls, ws, done + HandledInB(interactive, k))
    ensures userRejected ==> k > 0 && RejectsPlan(calls[interactive[k - 1]], ws[interactive[k - 1]])
    ensures forall j :: 0 <= j < (if userRejected then k - 1 else k) ==> !RejectsPlan(calls[interactive[j]], ws[interactive[j]])
    ensures !userRejected ==> k == |interactive|
    ensures userRejected <==> StopB(calls, ws, 0) < |calls|
  {
    hide Reply, FateOf, Lists, RejectsPlan, HandledInB, StopB, Queues;
    resolved, userRejected := resolved0, false;
    var j := 0;
    NothingHandled(interactive, done);
    InOrder(interactive, calls, ws, |calls|, true);
    while j < |interactive| && !userRejected
      invariant j <= |interactive| && Lists(resolved, calls, ws, done + HandledInB(interactive, j))
      invariant userRejected ==> j > 0 && RejectsPlan(calls[interactive[j - 1]], ws[interactive[j - 1]])
      invariant forall l :: 0 <= l < (if userRejected then j - 1 else j) ==> !RejectsPlan(calls[interactive[l]], ws[interactive[l]])
      decreases |interactive| - j
    {
      var idx := interactive[j];
      HandledOneMore(interactive, j);
      QueuedIsInteractive(calls, ws, interactive, idx);
      ListsOneMore(resolved, calls, ws, done + HandledInB(interactive, j), idx);
      assert done + HandledInB(interactive, j) + {idx} == done + (HandledInB(interactive, j) + {idx});
      resolved := resolved + [(idx, Reply(calls[idx], ws[idx]))];
      if calls[idx].name == "request_plan_approval" && ws[idx].planRejected {
        userRejected := true;
      }
      j := j + 1;
    }
    k := j;
    PlanStop(calls, ws, interactive, k, userRejected);
  }

  lemma QueuedIsInteractive(calls: seq<Call>, ws: seq<World>, interactive: seq<nat>, i: nat)
    requires |ws| == |calls| && Queues(interactive, calls, ws, |calls|, true) && i in interactive
    ensures i < |calls| && FateOf(calls[i], ws[i]).Interactive?
    ensures RejectsPlan(calls[i], ws[i]) <==> calls[i].name == "request_plan_approval" && ws[i].planRejected
  {
    hide FateOf;
  }

  lemma NothingHandled(idxs: seq<nat>, done: set<nat>)
    ensures done + HandledInB(idxs, 0) == done
  {
  }

  lemma InOrder(idxs: seq<nat>, calls: seq<Call>, ws: seq<World>, n: nat, interactive: bool)
    requires |ws| == |calls| && n <= |calls| && Queues(idxs, calls, ws, n, interactive)
    ensures forall k :: 0 <= k < |idxs| ==> idxs[k] < n
    ensures forall k, l :: 0 <= k < l < |idxs| ==> idxs[k] < idxs[l]
  {
    hide FateOf;
  }

  lemma HandledOneMore(idxs: seq<nat>, k: nat)
    requires k < |idxs| && forall i, j :: 0 <= i < j < |idxs| ==> idxs[i] < idxs[j]
    ensures HandledInB(idxs, k + 1) == HandledInB(idxs, k) + {idxs[k]}
    ensures idxs[k] in idxs && idxs[k] !in HandledInB(idxs, k)
  {
  }

  /** The executable calls whose outcome came back. */
  ghost function RanAmong(idxs: seq<nat>, ws: seq<World>, k: nat): set<nat>
    requires k <= |idxs| && forall j :: 0 <= j < |idxs| ==> idxs[j] < |ws|
  {
    set j | 0 <= j < k && ws[idxs[j]].ran.Some? :: idxs[j]
  }

  method PhaseC(calls: seq<Call>, ws: seq<World>, resolved0: seq<Entry>, executable: seq<nat>, ghost done: set<nat>)
    returns (resolved: seq<Entry>)
    requires |ws| == |calls| && Lists(resolved0, calls, ws, done)
    requires Queues(executable, calls, ws, |calls|, false) && forall i :: i in executable ==> i !in done
    ensures Lists(resolved, calls, ws, done + RanAmong(executable, ws, |executable|))
  {
    hide Reply;
    resolved := resolved0;
    assert done + RanAmong(executable, ws, 0) == done;
    for j := 0 to |executable|
      invariant Lists(resolved, calls, ws, done + RanAmong(executable, ws, j))
    {
      var idx := executable[j];
      RanOneMore(executable, ws, j);
      if ws[idx].ran.Some? {
        ListsOneMore(resolved, calls, ws, done + RanAmong(executable, ws, j), idx);
        assert done + RanAmong(executable, ws, j) + {idx} == done + RanAmong(executable, ws, j + 1);
        resolved := resolved + [(idx, Reply(calls[idx], ws[idx]))];
      }
    }
  }

  lemma RanOneMore(idxs: seq<nat>, ws: seq<World>, k: nat)
    requires k < |idxs| && forall i, j :: 0 <= i < j < |idxs| ==> idxs[i] < idxs[j]
    requires forall j :: 0 <= j < |idxs| ==> idxs[j] < |ws|
    ensures RanAmong(idxs, ws, k + 1) == RanAmong(idxs, ws, k) + if ws[idxs[k]].ran.Some? then {idxs[k]} else {}
    ensures idxs[k] in idxs && idxs[k] !in RanAmong(idxs, ws, k)
  {
  }

  method FillSkipped(calls: seq<Call>, processed: set<Id>) returns (skipped: seq<Msg>)
    ensures skipped == Skipped(calls, processed)
  {
    skipped := [];
    for i := 0 to |calls|
      invariant skipped + Skipped(calls[i..], processed) == Skipped(calls, processed)
    {
      assert calls[i..][0] == calls[i] && calls[i..][1..] == calls[i + 1..];
      if calls[i].id !in processed {
        skipped := skipped + [Tool(calls[i].id, calls[i].name, "Tool call skipped (previous tool rejected by user)")];
      }
    }
  }

  /** One whole round. */
  method RunTools(calls: seq<Call>, ws: seq<World>) returns (toolMessages: seq<Msg>, userRejected: bool)
    requires |ws| == |calls|
    ensures toolMessages == ToolMessages(calls, ws)
    ensures userRejected == IsRejected(calls, ws)
  {
    hide FateOf, Reply, Lists, Skipped, Replies, IdsAnswered;
    var resolved, interactive, executable;
    ghost var n, k;
    ghost var done: set<nat>;
    resolved, interactive, executable, userRejected, n := PhaseA(calls, ws);
    done := ResolvedInA(calls, ws, n);
    if !userRejected {
      resolved, userRejected, k := PhaseB1(calls, ws, resolved, interactive, done);
      PlanStop(calls, ws, interactive, k, userRejected);
      done := done + HandledInB(interactive, k);
      if !userRejected && executable != [] {
        resolved := PhaseC(calls, ws, resolved, executable, done);
      }
      if !userRejected {
        assert executable == [] ==> done + RanAmong(executable, ws, |executable|) == done;
        done := done + RanAmong(executable, ws, |executable|);
      }
      DoneAfterB(calls, ws, interactive, executable, k, userRejected);
    } else {
      DoneAfterA(calls, ws);
    }
    assert done == ProcessedSet(calls, ws);
    SortedReads(resolved, calls, ws);
    resolved := SortByIndex(resolved);
    toolMessages := Messages(resolved);
    if userRejected {
      var skipped := FillSkipped(calls, IdsAnswered(toolMessages));
      toolMessages := toolMessages + skipped;
    } else {
      assert toolMessages + [] == toolMessages;
    }
  }

  lemma DoneAfterA(calls: seq<Call>, ws: seq<World>)
    requires |ws| == |calls| && StopA(calls, ws, 0) < |calls|
    ensures ResolvedInA(calls, ws, StopA(calls, ws, 0) + 1) == ProcessedSet(calls, ws)
  {
    hide FateOf;
  }

  lemma PlanStop(calls: seq<Call>, ws: seq<World>, interactive: seq<nat>, k: nat, rejected: bool)
    requires |ws| == |calls| && Queues(interactive, calls, ws, |calls|, true) && k <= |interactive|
    requires rejected ==> k > 0 && RejectsPlan(calls[interactive[k - 1]], ws[interactive[k - 1]])
    requires forall j :: 0 <= j < (if rejected then k - 1 else k) ==> !RejectsPlan(calls[interactive[j]], ws[interactive[j]])
    requires !rejected ==> k == |interactive|
    ensures StopB(calls, ws, 0) == if rejected then interactive[k - 1] else |calls|
  {
    hide FateOf;
    var b := StopB(calls, ws, 0);
    if b < |calls| {
      assert b in interactive;
      var j :| 0 <= j < |interactive| && interactive[j] == b;
    }
  }

  lemma DoneAfterB(calls: seq<Call>, ws: seq<World>, interactive: seq<nat>, executable: seq<nat>, k: nat, rejected: bool)
    requires |ws| == |calls| && StopA(calls, ws, 0) == |calls|
    requires Queues(interactive, calls, ws, |calls|, true) && Queues(executable, calls, ws, |calls|, false)
    requires k <= |interactive| && (rejected ==> k > 0) && (!rejected ==> k == |interactive|)
    requires StopB(calls, ws, 0) == if rejected then interactive[k - 1] else |calls|
    ensures ProcessedSet(calls, ws) ==
      ResolvedInA(calls, ws, |calls|) + HandledInB(interactive, k) + if rejected then {} else RanAmong(executable, ws, |executable|)
  {
    hide FateOf;
    var done := ResolvedInA(calls, ws, |calls|) + HandledInB(interactive, k) + if rejected then {} else RanAmong(executable, ws, |executable|);
    forall i: nat | i < |calls|
      ensures i in done <==> IsProcessed(calls, ws, i)
    {
      HandledUpTo(calls, ws, interactive, k, i);
      RanExactly(calls, ws, executable, i);
    }
  }

  lemma HandledUpTo(calls: seq<Call>, ws: seq<World>, interactive: seq<nat>, k: nat, i: nat)
    requires |ws| == |calls| && Queues(interactive, calls, ws, |calls|, true) && k <= |interactive| && i < |calls|
    ensures i in HandledInB(interactive, k) <==>
      FateOf(calls[i], ws[i]).Interactive? && (k == |interactive| || (k > 0 && i <= interactive[k - 1]))
  {
    hide FateOf;
    if i in interactive {
      var j :| 0 <= j < |interactive| && interactive[j] == i;
      assert j < k ==> i in HandledInB(interactive, k);
    }
  }

  lemma RanExactly(calls: seq<Call>, ws: seq<World>, executable: seq<nat>, i: nat)
    requires |ws| == |calls| && Queues(executable, calls, ws, |calls|, false) && i < |calls|
    ensures i in RanAmong(executable, ws, |executable|) <==> FateOf(calls[i], ws[i]).Executable? && ws[i].ran.Some?
  {
    hide FateOf;
    if i in executable {
      var j :| 0 <= j < |executable| && executable[j] == i;
    }
  }
}
