/**
 _fix_orphaned_tool_calls: before each model call the conversation is put in the
 normal form the provider demands, every assistant message directly followed by
 one result for each of its identified tool calls, in call order.
*/
module ToolContext {
  import opened Sequences

  /** An identifier; "" stands for a missing or empty one. */
  type Id = string

  datatype Call = Call(id: Id, name: string)

  datatype Msg =
    | Assistant(body: string, calls: seq<Call>)
    | Tool(callId: Id, name: string, content: string)
    | Other(role: string, body: string)

  const INTERRUPTED := "Tool call was interrupted."

  // ----- normal form, stated without the algorithm ------------------------------

  /** The ids of the identified calls, in call order. */
  function Ids(calls: seq<Call>): seq<Id> {
    if calls == [] then []
    else (if calls[0].id != "" then [calls[0].id] else []) + Ids(calls[1..])
  }

  ghost predicate AnswersInOrder(results: seq<Msg>, ids: seq<Id>) {
    |results| == |ids| && forall j :: 0 <= j < |ids| ==> results[j].Tool? && results[j].callId == ids[j]
  }

  /** Each assistant message is followed by exactly its results, and there are no other results. */
  ghost predicate Normal(ctx: seq<Msg>)
    decreases |ctx|
  {
    ctx == []
    || match ctx[0]
       case Tool(_, _, _) => false
       case Other(_, _) => Normal(ctx[1..])
       case Assistant(_, calls) =>
         var n := |Ids(calls)|;
         1 + n <= |ctx| && AnswersInOrder(ctx[1..1 + n], Ids(calls)) && Normal(ctx[1 + n..])
  }

  /** Two results for the same id are the same result. */
  ghost predicate Consistent(ctx: seq<Msg>) {
    forall i, j :: 0 <= i < |ctx| && 0 <= j < |ctx| && ctx[i].Tool? && ctx[j].Tool? && ctx[i].callId == ctx[j].callId
      ==> ctx[i] == ctx[j]
  }

  function NonTool(ctx: seq<Msg>): seq<Msg> {
    if ctx == [] then []
    else (if ctx[0].Tool? then [] else [ctx[0]]) + NonTool(ctx[1..])
  }

  // ----- the tables the code fills ----------------------------------------------

  function NamesOf(names: map<Id, string>, calls: seq<Call>): map<Id, string> {
    if calls == [] then names else
      var last := calls[|calls| - 1];
      var before := NamesOf(names, calls[..|calls| - 1]);
      if last.id != "" then before[last.id := last.name] else before
  }

  /** tool_call_info: the name of the last call that carries each id. */
  function Names(ctx: seq<Msg>): map<Id, string> {
    if ctx == [] then map[] else
      var last := ctx[|ctx| - 1];
      var before := Names(ctx[..|ctx| - 1]);
      if last.Assistant? then NamesOf(before, last.calls) else before
  }

  /** existing_tool_results: the last result for each id. */
  function Existing(ctx: seq<Msg>): map<Id, Msg> {
    if ctx == [] then map[] else
      var last := ctx[|ctx| - 1];
      var before := Existing(ctx[..|ctx| - 1]);
      if last.Tool? && last.callId != "" then before[last.callId := last] else before
  }

  function Synthetic(id: Id, name: string): Msg {
    Tool(id, name, INTERRUPTED)
  }

  /** All results after the orphans got theirs. */
  function Results(ctx: seq<Msg>): map<Id, Msg> {
    var names, existing := Names(ctx), Existing(ctx);
    map id | id in names.Keys + existing.Keys :: if id in existing then existing[id] else Synthetic(id, names[id])
  }

  function ResultsOf(calls: seq<Call>, results: map<Id, Msg>): seq<Msg> {
    if calls == [] then []
    else (if calls[0].id != "" && calls[0].id in results then [results[calls[0].id]] else []) + ResultsOf(calls[1..], results)
  }

  /** What one message of the context becomes. */
  function Placed(m: Msg, results: map<Id, Msg>): seq<Msg> {
    match m
    case Tool(_, _, _) => []
    case Other(_, _) => [m]
    case Assistant(_, calls) => [m] + ResultsOf(calls, results)
  }

  function Rebuild(ctx: seq<Msg>, results: map<Id, Msg>): seq<Msg> {
    if ctx == [] then [] else Placed(ctx[0], results) + Rebuild(ctx[1..], results)
  }

  function Repair(ctx: seq<Msg>): seq<Msg> {
    Rebuild(ctx, Results(ctx))
  }

  // ----- facts about the tables ---------------------------------------------------

  ghost predicate Called(ctx: seq<Msg>, id: Id) {
    exists i :: 0 <= i < |ctx| && ctx[i].Assistant? && id in Ids(ctx[i].calls)
  }

  lemma {:induction false} IdsOf(calls: seq<Call>, id: Id)
    ensures id in Ids(calls) <==> id != "" && exists k :: 0 <= k < |calls| && calls[k].id == id
  {
    if calls == [] {
    } else {
      IdsOf(calls[1..], id);
      if id != "" && exists k :: 0 <= k < |calls| && calls[k].id == id {
        var k :| 0 <= k < |calls| && calls[k].id == id;
        if k > 0 {
          assert calls[1..][k - 1].id == id;
        }
      }
    }
  }

  lemma {:induction false} NamesOfKey(names: map<Id, string>, calls: seq<Call>, id: Id)
    ensures id in NamesOf(names, calls) <==> id in names || id in Ids(calls)
    decreases |calls|
  {
    if calls == [] {
    } else {
      var init := calls[..|calls| - 1];
      NamesOfKey(names, init, id);
      IdsOf(init, id);
      IdsOf(calls, id);
      assert forall k :: 0 <= k < |init| ==> init[k] == calls[k];
    }
  }

  lemma {:induction false} NamesAreCalled(ctx: seq<Msg>, id: Id)
    ensures id in Names(ctx) <==> Called(ctx, id)
  {
    if ctx == [] {
    } else {
      var init := ctx[..|ctx| - 1];
      NamesAreCalled(init, id);
      if ctx[|ctx| - 1].Assistant? {
        NamesOfKey(Names(init), ctx[|ctx| - 1].calls, id);
      }
      assert forall k :: 0 <= k < |init| ==> init[k] == ctx[k];
    }
  }

  /** existing_tool_results holds results of the context, under their own ids. */
  lemma {:induction false} ExistingIsFromContext(ctx: seq<Msg>, id: Id)
    ensures id in Existing(ctx) <==> id != "" && exists i :: 0 <= i < |ctx| && ctx[i].Tool? && ctx[i].callId == id
    ensures id in Existing(ctx) ==> Existing(ctx)[id] in ctx && Existing(ctx)[id].Tool? && Existing(ctx)[id].callId == id
  {
    if ctx == [] {
    } else {
      var init := ctx[..|ctx| - 1];
      ExistingIsFromContext(init, id);
      assert forall k :: 0 <= k < |init| ==> init[k] == ctx[k];
      assert ctx == init + [ctx[|ctx| - 1]];
    }
  }

  /** The k-th message is the last result for this id. */
  predicate IsLastResult(ctx: seq<Msg>, k: nat, id: Id) {
    && k < |ctx| && ctx[k].Tool? && ctx[k].callId == id
    && forall l :: k < l < |ctx| ==> !(ctx[l].Tool? && ctx[l].callId == id)
  }

  lemma {:induction false} ExistingIsLast(ctx: seq<Msg>, k: nat, id: Id)
    requires IsLastResult(ctx, k, id) && id != ""
    ensures id in Existing(ctx) && Existing(ctx)[id] == ctx[k]
  {
    if k == |ctx| - 1 {
    } else {
      assert IsLastResult(ctx[..|ctx| - 1], k, id);
      ExistingIsLast(ctx[..|ctx| - 1], k, id);
    }
  }

  lemma {:induction false} SomeLastResult(ctx: seq<Msg>, id: Id)
    requires exists i :: 0 <= i < |ctx| && ctx[i].Tool? && ctx[i].callId == id
    ensures exists k: nat :: IsLastResult(ctx, k, id)
  {
    var last := |ctx| - 1;
    if ctx[last].Tool? && ctx[last].callId == id {
      assert IsLastResult(ctx, last, id);
    } else {
      var i :| 0 <= i < |ctx| && ctx[i].Tool? && ctx[i].callId == id;
      assert ctx[..last][i] == ctx[i];
      SomeLastResult(ctx[..last], id);
      var k: nat :| IsLastResult(ctx[..last], k, id);
      assert IsLastResult(ctx, k, id);
    }
  }

  /** The j-th call of the i-th message is the last call with this id. */
  predicate IsLastCall(ctx: seq<Msg>, i: nat, j: nat, id: Id) {
    && i < |ctx| && ctx[i].Assistant? && j < |ctx[i].calls| && ctx[i].calls[j].id == id
    && (forall l :: j < l < |ctx[i].calls| ==> ctx[i].calls[l].id != id)
    && (forall k, l :: i < k < |ctx| && ctx[k].Assistant? && 0 <= l < |ctx[k].calls| ==> ctx[k].calls[l].id != id)
  }

  lemma {:induction false} NamesOfOthers(names: map<Id, string>, calls: seq<Call>, id: Id)
    requires forall l :: 0 <= l < |calls| ==> calls[l].id != id
    ensures id in NamesOf(names, calls) <==> id in names
    ensures id in names ==> NamesOf(names, calls)[id] == names[id]
    decreases |calls|
  {
    if calls == [] {
    } else {
      NamesOfOthers(names, calls[..|calls| - 1], id);
    }
  }

  lemma {:induction false} NamesOfLast(names: map<Id, string>, calls: seq<Call>, j: nat, id: Id)
    requires j < |calls| && calls[j].id == id && id != "" && forall l :: j < l < |calls| ==> calls[l].id != id
    ensures id in NamesOf(names, calls) && NamesOf(names, calls)[id] == calls[j].name
    decreases |calls|
  {
    if j == |calls| - 1 {
    } else {
      NamesOfLast(names, calls[..|calls| - 1], j, id);
    }
  }

  lemma {:induction false} NamesIsLast(ctx: seq<Msg>, i: nat, j: nat, id: Id)
    requires IsLastCall(ctx, i, j, id) && id != ""
    ensures id in Names(ctx) && Names(ctx)[id] == ctx[i].calls[j].name
    decreases |ctx|
  {
    var last := |ctx| - 1;
    hide NamesOf;
    if i == last {
      NamesOfLast(Names(ctx[..last]), ctx[last].calls, j, id);
    } else {
      assert IsLastCall(ctx[..last], i, j, id);
      NamesIsLast(ctx[..last], i, j, id);
      if ctx[last].Assistant? {
        NamesOfOthers(Names(ctx[..last]), ctx[last].calls, id);
      }
    }
  }

  lemma ResultsAreResults(ctx: seq<Msg>, id: Id)
    ensures Called(ctx, id) ==> id in Results(ctx)
    ensures id in Results(ctx) ==> Results(ctx)[id].Tool? && Results(ctx)[id].callId == id
  {
    NamesAreCalled(ctx, id);
    ExistingIsFromContext(ctx, id);
  }

  // ----- what the rebuilt context looks like -----------------------------------------

  ghost predicate Covers(ctx: seq<Msg>, results: map<Id, Msg>) {
    && (forall id :: id in results ==> results[id].Tool? && results[id].callId == id)
    && (forall i, id :: 0 <= i < |ctx| && ctx[i].Assistant? && id in Ids(ctx[i].calls) ==> id in results)
  }

  lemma {:induction false} ResultsOfAnswer(calls: seq<Call>, results: map<Id, Msg>)
    requires forall id :: id in results ==> results[id].Tool? && results[id].callId == id
    requires forall id :: id in Ids(calls) ==> id in results
    ensures |ResultsOf(calls, results)| == |Ids(calls)|
    ensures forall j :: 0 <= j < |Ids(calls)| ==> Ids(calls)[j] in results && ResultsOf(calls, results)[j] == results[Ids(calls)[j]]
  {
    if calls == [] {
    } else {
      ResultsOfAnswer(calls[1..], results);
    }
  }

  lemma CoversTail(ctx: seq<Msg>, results: map<Id, Msg>, n: nat)
    requires n <= |ctx| && Covers(ctx, results)
    ensures Covers(ctx[n..], results)
  {
  }

  lemma {:induction false} RebuildIsNormal(ctx: seq<Msg>, results: map<Id, Msg>)
    requires Covers(ctx, results)
    ensures Normal(Rebuild(ctx, results))
    ensures NonTool(Rebuild(ctx, results)) == NonTool(ctx)
  {
    if ctx == [] {
    } else {
      var rest := Rebuild(ctx[1..], results);
      CoversTail(ctx, results, 1);
      RebuildIsNormal(ctx[1..], results);
      match ctx[0]
      case Tool(_, _, _) => assert [] + rest == rest;
      case Other(_, _) => assert ([ctx[0]] + rest)[1..] == rest;
      case Assistant(_, calls) =>
        hide Normal, NonTool;
        ResultsOfAnswer(calls, results);
        NormalBlock(ctx[0], ResultsOf(calls, results), rest);
        NonToolStep(ctx);
    }
  }

  lemma NonToolStep(ctx: seq<Msg>)
    requires ctx != [] && !ctx[0].Tool?
    ensures NonTool(ctx) == [ctx[0]] + NonTool(ctx[1..])
  {
  }

  lemma NormalBlock(a: Msg, answers: seq<Msg>, rest: seq<Msg>)
    requires a.Assistant? && AnswersInOrder(answers, Ids(a.calls)) && Normal(rest)
    ensures Normal([a] + answers + rest)
    ensures NonTool([a] + answers + rest) == [a] + NonTool(rest)
  {
    var t := [a] + answers + rest;
    assert t[1..1 + |answers|] == answers && t[1 + |answers|..] == rest;
    assert t[1..] == answers + rest;
    SkipAnswers(answers, rest);
  }

  lemma {:induction false} SkipAnswers(answers: seq<Msg>, rest: seq<Msg>)
    requires forall j :: 0 <= j < |answers| ==> answers[j].Tool?
    ensures NonTool(answers + rest) == NonTool(rest)
  {
    if answers == [] {
      assert answers + rest == rest;
    } else {
      assert (answers + rest)[1..] == answers[1..] + rest;
      SkipAnswers(answers[1..], rest);
    }
  }

  ghost predicate Tabled(ctx: seq<Msg>, results: map<Id, Msg>) {
    forall i :: 0 <= i < |ctx| && ctx[i].Tool? ==> ctx[i].callId in results && results[ctx[i].callId] == ctx[i]
  }

  lemma TabledTail(ctx: seq<Msg>, results: map<Id, Msg>, n: nat)
    requires n <= |ctx| && Tabled(ctx, results)
    ensures Tabled(ctx[n..], results)
  {
  }

  /** A normal context whose results are the tabled ones is rebuilt to itself. */
  lemma {:induction false} RebuildIsIdentity(ctx: seq<Msg>, results: map<Id, Msg>)
    requires Normal(ctx) && Covers(ctx, results) && Tabled(ctx, results)
    ensures Rebuild(ctx, results) == ctx
    decreases |ctx|
  {
    if ctx == [] {
    } else {
      match ctx[0]
      case Other(_, _) =>
        CoversTail(ctx, results, 1);
        TabledTail(ctx, results, 1);
        RebuildIsIdentity(ctx[1..], results);
      case Assistant(_, calls) =>
        var n := |Ids(calls)|;
        assert Normal(ctx[1 + n..]);
        CoversTail(ctx, results, 1 + n);
        TabledTail(ctx, results, 1 + n);
        RebuildIsIdentity(ctx[1 + n..], results);
        RebuildsBlock(ctx, results);
    }
  }

  lemma RebuildsBlock(ctx: seq<Msg>, results: map<Id, Msg>)
    requires ctx != [] && ctx[0].Assistant? && Covers(ctx, results) && Tabled(ctx, results)
    requires var n := |Ids(ctx[0].calls)|;
      1 + n <= |ctx| && AnswersInOrder(ctx[1..1 + n], Ids(ctx[0].calls)) && Rebuild(ctx[1 + n..], results) == ctx[1 + n..]
    ensures Rebuild(ctx, results) == ctx
  {
    hide Rebuild;
    var n := |Ids(ctx[0].calls)|;
    var answers, rest := ctx[1..1 + n], ctx[1 + n..];
    BlockAnswers(ctx, results);
    RebuildSkipsAnswers(answers, rest, results);
    SplitBlock(ctx, n);
    RebuildStep(ctx, 0, results);
    hide Covers, Tabled, AnswersInOrder, ResultsOf, Ids;
  }

  lemma SplitBlock(ctx: seq<Msg>, n: nat)
    requires 1 + n <= |ctx|
    ensures ctx[1..] == ctx[1..1 + n] + ctx[1 + n..]
    ensures ctx == [ctx[0]] + ctx[1..1 + n] + ctx[1 + n..]
    ensures ctx[0..] == ctx
  {
  }

  lemma RebuildStep(ctx: seq<Msg>, i: nat, results: map<Id, Msg>)
    requires i < |ctx|
    ensures Rebuild(ctx[i..], results) == Placed(ctx[i], results) + Rebuild(ctx[i + 1..], results)
  {
    assert ctx[i..][0] == ctx[i] && ctx[i..][1..] == ctx[i + 1..];
  }

  lemma NothingToRebuild(results: map<Id, Msg>)
    ensures Rebuild([], results) == []
  {
  }

  lemma BlockAnswers(ctx: seq<Msg>, results: map<Id, Msg>)
    requires ctx != [] && ctx[0].Assistant? && Covers(ctx, results) && Tabled(ctx, results)
    requires var n := |Ids(ctx[0].calls)|;
      1 + n <= |ctx| && AnswersInOrder(ctx[1..1 + n], Ids(ctx[0].calls))
    ensures ResultsOf(ctx[0].calls, results) == ctx[1..1 + |Ids(ctx[0].calls)|]
    ensures forall m :: m in ctx[1..1 + |Ids(ctx[0].calls)|] ==> m.Tool?
  {
    var ids := Ids(ctx[0].calls);
    var answers := ctx[1..1 + |ids|];
    ResultsOfAnswer(ctx[0].calls, results);
    forall j | 0 <= j < |ids|
      ensures ResultsOf(ctx[0].calls, results)[j] == answers[j]
    {
      assert answers[j] == ctx[1 + j];
    }
  }

  lemma {:induction false} RebuildSkipsAnswers(answers: seq<Msg>, rest: seq<Msg>, results: map<Id, Msg>)
    requires forall m :: m in answers ==> m.Tool?
    ensures Rebuild(answers + rest, results) == Rebuild(rest, results)
  {
    if answers == [] {
      assert answers + rest == rest;
    } else {
      assert (answers + rest)[1..] == answers[1..] + rest;
      RebuildSkipsAnswers(answers[1..], rest, results);
    }
  }

  lemma ResultsCover(ctx: seq<Msg>)
    ensures Covers(ctx, Results(ctx))
  {
    forall id: Id
      ensures Called(ctx, id) ==> id in Results(ctx)
      ensures id in Results(ctx) ==> Results(ctx)[id].Tool? && Results(ctx)[id].callId == id
    {
      ResultsAreResults(ctx, id);
    }
    forall i, id | 0 <= i < |ctx| && ctx[i].Assistant? && id in Ids(ctx[i].calls)
      ensures id in Results(ctx)
    {
      assert Called(ctx, id);
    }
  }

  // ----- main results --------------------------------------------------------------------

  /** Whatever the context, the repair puts it in normal form and keeps all other messages in order. */
  lemma RepairIsNormal(ctx: seq<Msg>)
    ensures Normal(Repair(ctx)) && Consistent(Repair(ctx))
    ensures NonTool(Repair(ctx)) == NonTool(ctx)
  {
    ResultsCover(ctx);
    RebuildIsNormal(ctx, Results(ctx));
    var r := Repair(ctx);
    hide Results, Rebuild, Repair;
    forall i | 0 <= i < |r| && r[i].Tool?
      ensures r[i].callId in Results(ctx) && r[i] == Results(ctx)[r[i].callId]
    {
      RebuiltResults(ctx, Results(ctx), r[i]);
    }
  }

  /** The repair changes nothing exactly when the context is in normal form with one result per id. */
  lemma RepairIsIdentityIff(ctx: seq<Msg>)
    ensures Repair(ctx) == ctx <==> Normal(ctx) && Consistent(ctx)
  {
    RepairIsNormal(ctx);
    if Normal(ctx) && Consistent(ctx) {
      ResultsCover(ctx);
      NormalIdsNonEmpty(ctx);
      forall i | 0 <= i < |ctx| && ctx[i].Tool?
        ensures ctx[i].callId in Results(ctx) && Results(ctx)[ctx[i].callId] == ctx[i]
      {
        assert ctx[i] in ctx;
        ExistingIsFromContext(ctx, ctx[i].callId);
        var m := Existing(ctx)[ctx[i].callId];
        var j :| 0 <= j < |ctx| && ctx[j] == m;
      }
      RebuildIsIdentity(ctx, Results(ctx));
    }
  }

  lemma {:induction false} NormalIdsNonEmpty(ctx: seq<Msg>)
    requires Normal(ctx)
    ensures forall i :: 0 <= i < |ctx| && ctx[i].Tool? ==> ctx[i].callId != ""
    decreases |ctx|
  {
    if ctx == [] {
    } else {
      match ctx[0]
      case Other(_, _) =>
        NormalIdsNonEmpty(ctx[1..]);
        assert forall i :: 1 <= i < |ctx| ==> ctx[i] == ctx[1..][i - 1];
      case Assistant(_, calls) =>
        var n := |Ids(calls)|;
        NormalIdsNonEmpty(ctx[1 + n..]);
        forall i | 0 <= i < |ctx| && ctx[i].Tool?
          ensures ctx[i].callId != ""
        {
          if i < 1 + n {
            assert ctx[i] == ctx[1..1 + n][i - 1];
            IdsOf(calls, ctx[i].callId);
          } else {
            assert ctx[i] == ctx[1 + n..][i - 1 - n];
          }
        }
    }
  }

  lemma RepairIsIdempotent(ctx: seq<Msg>)
    ensures Repair(Repair(ctx)) == Repair(ctx)
  {
    RepairIsNormal(ctx);
    RepairIsIdentityIff(Repair(ctx));
  }

  /** Every result in the output answers a call; it is the context's last one for that id, or synthetic if there is none. */
  lemma RepairKeepsResults(ctx: seq<Msg>, m: Msg)
    requires m in Repair(ctx) && m.Tool?
    ensures Called(ctx, m.callId)
    ensures m.callId in Existing(ctx) ==> m == Existing(ctx)[m.callId] && m in ctx
    ensures m.callId !in Existing(ctx) ==>
      && (forall x :: x in ctx && x.Tool? ==> x.callId != m.callId)
      && m.callId in Names(ctx) && m == Synthetic(m.callId, Names(ctx)[m.callId])
  {
    ResultsCover(ctx);
    RebuiltResults(ctx, Results(ctx), m);
    IdNotEmpty(ctx, m.callId);
    ExistingIsFromContext(ctx, m.callId);
    NamesAreCalled(ctx, m.callId);
  }

  /**
   In terms of positions: a result in the output is the last one the context has
   for its id; if there is none, it says that the call was interrupted, under the
   name of the last call with that id.
  */
  lemma ResultsAreTheLast(ctx: seq<Msg>, m: Msg)
    requires m in Repair(ctx) && m.Tool?
    ensures forall k: nat :: IsLastResult(ctx, k, m.callId) ==> m == ctx[k]
    ensures (exists k: nat :: IsLastResult(ctx, k, m.callId)) || m.content == "Tool call was interrupted."
    ensures !(exists k: nat :: IsLastResult(ctx, k, m.callId)) ==>
      forall i: nat, j: nat :: IsLastCall(ctx, i, j, m.callId) ==> m.name == ctx[i].calls[j].name
  {
    var id := m.callId;
    RepairKeepsResults(ctx, m);
    IdNotEmpty(ctx, id);
    ExistingIsFromContext(ctx, id);
    hide Repair, Existing, Names;
    forall k: nat | IsLastResult(ctx, k, id)
      ensures m == ctx[k]
    {
      ExistingIsLast(ctx, k, id);
    }
    if id in Existing(ctx) {
      SomeLastResult(ctx, id);
    } else {
      forall i: nat, j: nat | IsLastCall(ctx, i, j, id)
        ensures m.name == ctx[i].calls[j].name
      {
        NamesIsLast(ctx, i, j, id);
      }
    }
  }

  lemma IdNotEmpty(ctx: seq<Msg>, id: Id)
    requires Called(ctx, id)
    ensures id != ""
  {
    var i :| 0 <= i < |ctx| && ctx[i].Assistant? && id in Ids(ctx[i].calls);
    IdsOf(ctx[i].calls, id);
  }

  lemma {:induction false} RebuiltResults(ctx: seq<Msg>, results: map<Id, Msg>, m: Msg)
    requires forall id :: id in results ==> results[id].Tool? && results[id].callId == id
    requires m in Rebuild(ctx, results) && m.Tool?
    ensures Called(ctx, m.callId) && m.callId in results && m == results[m.callId]
  {
    if ctx[0].Assistant? && m in ResultsOf(ctx[0].calls, results) {
      PlacedResult(ctx[0].calls, results, m);
      assert ctx[0].Assistant? && m.callId in Ids(ctx[0].calls);
    } else {
      assert m in Rebuild(ctx[1..], results);
      RebuiltResults(ctx[1..], results, m);
      var i :| 0 <= i < |ctx[1..]| && ctx[1..][i].Assistant? && m.callId in Ids(ctx[1..][i].calls);
      assert ctx[i + 1] == ctx[1..][i];
    }
  }

  lemma {:induction false} PlacedResult(calls: seq<Call>, results: map<Id, Msg>, m: Msg)
    requires forall id :: id in results ==> results[id].Tool? && results[id].callId == id
    requires m in ResultsOf(calls, results)
    ensures m.Tool? && m.callId in Ids(calls) && m.callId in results && m == results[m.callId]
  {
    if calls[0].id != "" && calls[0].id in results && m == results[calls[0].id] {
    } else {
      PlacedResult(calls[1..], results, m);
    }
  }

  // ----- the method ------------------------------------------------------------------------

  /** The part of the agent the repair touches: results persisted to the message store. */
  class ContextFixer {
    var persisted: seq<Msg>

    constructor ()
      ensures persisted == []
    {
      persisted := [];
    }

    method CollectCalls(context: seq<Msg>) returns (needed: set<Id>, info: map<Id, string>)
      ensures info == Names(context) && needed == info.Keys
    {
      needed, info := {}, map[];
      for i := 0 to |context|
        invariant info == Names(context[..i]) && needed == info.Keys
      {
        var msg := context[i];
        assert context[..i + 1][..i] == context[..i];
        if msg.Assistant? {
          ghost var before := info;
          for k := 0 to |msg.calls|
            invariant info == NamesOf(before, msg.calls[..k]) && needed == info.Keys
          {
            assert msg.calls[..k + 1][..k] == msg.calls[..k];
            var tc := msg.calls[k];
            if tc.id != "" {
              needed := needed + {tc.id};
              info := info[tc.id := tc.name];
            }
          }
          assert msg.calls[..|msg.calls|] == msg.calls;
        }
      }
      assert context[..|context|] == context;
    }

    method CollectResults(context: seq<Msg>) returns (existing: map<Id, Msg>)
      ensures existing == Existing(context)
    {
      existing := map[];
      for i := 0 to |context|
        invariant existing == Existing(context[..i])
      {
        assert context[..i + 1][..i] == context[..i];
        if context[i].Tool? && context[i].callId != "" {
          existing := existing[context[i].callId := context[i]];
        }
      }
      assert context[..|context|] == context;
    }

    /** Every orphaned call gets one synthetic result, and exactly those are persisted, once each. */
    method FillOrphans(orphans: set<Id>, info: map<Id, string>, existing: map<Id, Msg>)
      returns (results: map<Id, Msg>, ghost added: seq<Msg>)
      requires orphans <= info.Keys && orphans !! existing.Keys
      modifies this
      ensures results == map id | id in orphans + existing.Keys :: if id in existing then existing[id] else Synthetic(id, info[id])
      ensures persisted == old(persisted) + added && PersistsOrphans(added, orphans, info)
    {
      results, added := existing, [];
      var left := orphans;
      while left != {}
        invariant left <= orphans
        invariant results == map id | id in (orphans - left) + existing.Keys :: if id in existing then existing[id] else Synthetic(id, info[id])
        invariant persisted == old(persisted) + added && PersistsOrphans(added, orphans - left, info)
        decreases left
      {
        var id :| id in left;
        var synthetic := Synthetic(id, info[id]);
        PersistOneMore(added, orphans - left, info, id);
        results := results[id := synthetic];
        persisted := persisted + [synthetic];
        added := added + [synthetic];
        assert orphans - (left - {id}) == (orphans - left) + {id};
        left := left - {id};
      }
      assert orphans - {} == orphans;
    }

    method PlaceResults(start: seq<Msg>, calls: seq<Call>, results: map<Id, Msg>) returns (result: seq<Msg>)
      ensures result == start + ResultsOf(calls, results)
    {
      result := start;
      for k := 0 to |calls|
        invariant result + ResultsOf(calls[k..], results) == start + ResultsOf(calls, results)
      {
        var tc := calls[k];
        assert calls[k..][0] == tc && calls[k..][1..] == calls[k + 1..];
        if tc.id != "" && tc.id in results {
          result := result + [results[tc.id]];
        }
      }
    }

    method RebuildContext(context: seq<Msg>, results: map<Id, Msg>) returns (result: seq<Msg>)
      ensures result == Rebuild(context, results)
    {
      hide Rebuild, ResultsOf;
      result := [];
      assert context[0..] == context;
      for i := 0 to |context|
        invariant result + Rebuild(context[i..], results) == Rebuild(context, results)
      {
        var msg := context[i];
        RebuildStep(context, i, results);
        ghost var before, rest := result, Rebuild(context[i + 1..], results);
        if msg.Tool? {
          assert [] + rest == rest;
          continue;
        }
        result := result + [msg];
        if msg.Assistant? {
          result := PlaceResults(result, msg.calls, results);
          Assoc(before, [msg], ResultsOf(msg.calls, results));
          Assoc(before, [msg] + ResultsOf(msg.calls, results), rest);
        } else {
          Assoc(before, [msg], rest);
        }
      }
      NothingToRebuild(results);
      assert context[|context|..] == [] && result + [] == result;
    }

    method FixOrphanedToolCalls(context: seq<Msg>) returns (result: seq<Msg>, ghost added: seq<Msg>)
      modifies this
      ensures result == Repair(context)
      ensures persisted == old(persisted) + added
      ensures PersistsOrphans(added, Names(context).Keys - Existing(context).Keys, Names(context))
    {
      var needed, info := CollectCalls(context);
      var existing := CollectResults(context);
      var results;
      results, added := FillOrphans(needed - existing.Keys, info, existing);
      assert needed - existing.Keys + existing.Keys == info.Keys + existing.Keys;
      assert results == Results(context);
      result := RebuildContext(context, results);
    }
  }

  /** added holds one synthetic result for each orphan and nothing else. */
  ghost predicate PersistsOrphans(added: seq<Msg>, orphans: set<Id>, info: map<Id, string>) {
    && (forall m :: m in added ==> m.Tool? && m.callId in orphans && m.callId in info && m == Synthetic(m.callId, info[m.callId]))
    && (forall id :: id in orphans ==> id in info && Synthetic(id, info[id]) in added)
    && (forall i, j :: 0 <= i < j < |added| ==> added[i] != added[j])
  }

  lemma PersistOneMore(added: seq<Msg>, orphans: set<Id>, info: map<Id, string>, id: Id)
    requires PersistsOrphans(added, orphans, info) && id !in orphans && id in info
    ensures PersistsOrphans(added + [Synthetic(id, info[id])], orphans + {id}, info)
  {
    var m := Synthetic(id, info[id]);
    assert m !in added;
    assert m in added + [m];
    forall x | x in added
      ensures x in added + [m]
    {
    }
  }
}
