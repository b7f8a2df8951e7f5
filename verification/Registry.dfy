/**
 The background task registry. asyncio runs one step at a time, so every public
 method is one step, and a task's coroutine takes one step between two awaits.
*/
module Registry {
  import opened Options

  type Id = nat  // bg-1, bg-2, ...

  datatype Status = Running | Completed | Failed | TimedOut | Cancelled

  /** The await a coroutine is suspended at. */
  datatype Phase =
    | Created    // the asyncio task exists, its body has not started
    | Spawning   // create_subprocess
    | Waiting    // asyncio.wait for the output, with the timeout
    | Killing    // _kill_process after a timeout
    | Reaping    // awaiting the cancelled communicate task
    | Done

  datatype Task = Task(status: Status, phase: Phase, cancelRequested: bool, known: bool)

  /** What the awaited thing answers when a coroutine is resumed. */
  datatype Answer = Succeeds | ReturnsNonZero | TimesOut | Raises

  /**
   The registry's fields, and for the claims about whole runs everything ever
   queued, drained and removed. known says that _async_tasks has the task.
  */
  datatype State = State(
    tasks: map<Id, Task>,
    queue: seq<Id>,
    counter: nat,
    enqueued: multiset<Id>,
    drained: multiset<Id>,
    removed: multiset<Id>)

  const MAX_CONCURRENT_TASKS := 5

  function Init(): State {
    State(map[], [], 0, multiset{}, multiset{}, multiset{})
  }

  function RunningIds(s: State): set<Id> {
    set id | id in s.tasks && s.tasks[id].status == Running
  }

  // ----- public methods ---------------------------------------------------------------

  function Launch(s: State): State {
    if |RunningIds(s)| >= MAX_CONCURRENT_TASKS then s
    else s.(counter := s.counter + 1, tasks := s.tasks[s.counter + 1 := Task(Running, Created, false, true)])
  }

  /** Replaces a task and, if queued, appends it to the completed queue. */
  function Update(s: State, id: Id, t: Task, queued: bool): State {
    var u := s.(tasks := s.tasks[id := t]);
    if queued then u.(queue := s.queue + [id], enqueued := s.enqueued + multiset{id}) else u
  }

  /** async_task.cancel(), if the task is known and not done. */
  function RequestCancel(t: Task): Task {
    if t.known && !t.phase.Done? then t.(cancelRequested := true) else t
  }

  function Cancel(s: State, id: Id): State {
    if id !in s.tasks || s.tasks[id].status != Running then s
    else Update(s, id, RequestCancel(s.tasks[id]).(status := Cancelled), true)
  }

  function CancelAll(s: State): State {
    s.(tasks := map id | id in s.tasks ::
      if s.tasks[id].status == Running then RequestCancel(s.tasks[id]).(status := Cancelled) else s.tasks[id])
  }

  function Drain(s: State): State {
    s.(queue := [], drained := s.drained + multiset(s.queue))
  }

  function Without(queue: seq<Id>, id: Id): seq<Id> {
    if queue == [] then [] else (if queue[0] == id then [] else [queue[0]]) + Without(queue[1..], id)
  }

  function Remove(s: State, id: Id): State {
    s.(queue := Without(s.queue, id), removed := s.removed + (multiset(s.queue) - multiset(Without(s.queue, id))))
  }

  function Cleanup(s: State): State {
    s.(tasks := map id | id in s.tasks :: RequestCancel(s.tasks[id]).(known := false))
  }

  // ----- the coroutine ------------------------------------------------------------------

  /** The finally block: RUNNING becomes FAILED, and anything but CANCELLED is queued. */
  function Finish(t: Task, status: Status): (Task, bool) {
    var final := if status == Running then Failed else status;
    (t.(status := final, phase := Done, cancelRequested := false), final != Cancelled)
  }

  predicate CanResume(s: State, id: Id) {
    id in s.tasks && !s.tasks[id].phase.Done?
  }

  /** One step of _run_command, and whether it queues the task. A requested cancel is raised at the await. */
  function RunStep(t: Task, answer: Answer): (Task, bool)
    requires !t.phase.Done?
  {
    match t.phase
    case Created =>
      // cancelled before its first step, the body does not run at all;
      // an exception before the try block ends the task without the finally
      if t.cancelRequested || answer == Raises then (t.(phase := Done, cancelRequested := false), false)
      else (t.(phase := Spawning), false)
    case Spawning =>
      if t.cancelRequested then Finish(t, Cancelled)
      else if answer == Raises then Finish(t, Failed)
      else (t.(phase := Waiting), false)
    case Waiting =>
      if t.cancelRequested then Finish(t, Cancelled)
      else if answer == TimesOut then (t.(phase := Killing), false)
      else Finish(t, if answer == Succeeds then Completed else Failed)
    case Killing =>
      if t.cancelRequested then Finish(t, Cancelled)
      else if answer == Raises then Finish(t, Failed)
      else (t.(phase := Reaping), false)
    case Reaping =>
      // "except (CancelledError, Exception): pass" swallows a requested cancel
      Finish(t, TimedOut)
  }

  function Resume(s: State, id: Id, answer: Answer): State
    requires CanResume(s, id)
  {
    var (t, queued) := RunStep(s.tasks[id], answer);
    Update(s, id, t, queued)
  }

  // ----- runs --------------------------------------------------------------------------------

  datatype Action =
    | DoLaunch
    | DoCancel(id: Id)
    | DoCancelAll
    | DoDrain
    | DoRemove(id: Id)
    | DoCleanup
    | DoResume(id: Id, answer: Answer)

  predicate Enabled(s: State, a: Action) {
    a.DoResume? ==> CanResume(s, a.id)
  }

  function Next(s: State, a: Action): State
    requires Enabled(s, a)
  {
    match a
    case DoLaunch => Launch(s)
    case DoCancel(id) => Cancel(s, id)
    case DoCancelAll => CancelAll(s)
    case DoDrain => Drain(s)
    case DoRemove(id) => Remove(s, id)
    case DoCleanup => Cleanup(s)
    case DoResume(id, answer) => Resume(s, id, answer)
  }

  ghost predicate IsRun(ss: seq<State>, acts: seq<Action>) {
    && |ss| == |acts| + 1 && ss[0] == Init()
    && forall i :: 0 <= i < |acts| ==> Enabled(ss[i], acts[i]) && ss[i + 1] == Next(ss[i], acts[i])
  }

  /** The step in which a cancelled task's coroutine swallows the cancel in its timeout cleanup. */
  predicate SwallowsCancel(s: State, a: Action) {
    a.DoResume? && CanResume(s, a.id) && s.tasks[a.id].phase.Reaping? && s.tasks[a.id].status == Cancelled
  }

  ghost predicate Inv(s: State) {
    && |RunningIds(s)| <= MAX_CONCURRENT_TASKS
    && (forall id :: id in s.tasks ==> 1 <= id <= s.counter)
    && QueueBalances(s)
    && AllTasksInv(s)
  }

  ghost predicate TaskInv(t: Task) {
    && (!t.phase.Done? && !t.known ==> t.cancelRequested)
    && (!t.phase.Done? ==> t.status == Running || (t.status == Cancelled && t.cancelRequested))
  }

  /** As long as no cancel is swallowed: queued at most once, and not while running. */
  ghost predicate QueuedOnce(s: State) {
    forall id :: id in s.tasks ==> s.enqueued[id] <= 1 && (s.tasks[id].status == Running ==> s.enqueued[id] == 0)
  }

  lemma {:induction false} WithoutIsPart(queue: seq<Id>, id: Id)
    ensures multiset(Without(queue, id)) <= multiset(queue)
  {
    if queue == [] {
    } else {
      assert queue == [queue[0]] + queue[1..];
      WithoutIsPart(queue[1..], id);
    }
  }

  /** Taking a task out of the queue treats each entry by itself, so the others keep their order. */
  lemma {:induction false} WithoutConcat(a: seq<Id>, b: seq<Id>, id: Id)
    ensures Without(a + b, id) == Without(a, id) + Without(b, id)
  {
    if a == [] {
      assert a + b == b;
    } else {
      assert (a + b)[1..] == a[1..] + b;
      WithoutConcat(a[1..], b, id);
    }
  }

  /** All entries of the task go, and no other. */
  lemma {:induction false} WithoutIsExact(queue: seq<Id>, id: Id)
    ensures multiset(Without(queue, id)) == multiset(queue)[id := 0]
  {
    if queue == [] {
    } else {
      var first := if queue[0] == id then [] else [queue[0]];
      assert queue == [queue[0]] + queue[1..];
      WithoutIsExact(queue[1..], id);
      assert multiset(Without(queue, id)) == multiset(first) + multiset(Without(queue[1..], id));
    }
  }

  /** What one step can do to its own task. */
  lemma OneTaskStep(t: Task, answer: Answer)
    requires TaskInv(t) && !t.phase.Done?
    ensures var (u, queued) := RunStep(t, answer);
      && TaskInv(u)
      && (t.status != Running ==> u.status != Running)
      && (queued ==> u.status != Running)
      && (queued && t.status == Cancelled <==> t.phase.Reaping? && t.status == Cancelled)
  {
  }

  /** Statuses and the running limit across one step. */
  ghost predicate StatusesMoveOn(s: State, t: State) {
    && s.tasks.Keys <= t.tasks.Keys && s.counter <= t.counter
    && (forall id :: id in s.tasks && s.tasks[id].status != Running ==> t.tasks[id].status != Running)
    && (forall id :: id in t.tasks && id !in s.tasks ==> id == s.counter + 1 == t.counter && |RunningIds(s)| < MAX_CONCURRENT_TASKS)
  }

  lemma UpdateMovesOn(s: State, id: Id, t: Task, queued: bool)
    requires Inv(s) && id in s.tasks && TaskInv(t) && (s.tasks[id].status != Running ==> t.status != Running)
    ensures StatusesMoveOn(s, Update(s, id, t, queued)) && AllTasksInv(Update(s, id, t, queued))
  {
    hide RunningIds, TaskInv;
  }

  ghost predicate AllTasksInv(s: State) {
    forall id :: id in s.tasks ==> TaskInv(s.tasks[id])
  }

  lemma LaunchMovesOn(s: State)
    requires Inv(s)
    ensures StatusesMoveOn(s, Launch(s)) && AllTasksInv(Launch(s))
  {
    hide RunningIds, QueueBalances;
  }

  lemma CancelAllMovesOn(s: State)
    requires Inv(s)
    ensures StatusesMoveOn(s, CancelAll(s)) && AllTasksInv(CancelAll(s))
  {
    hide RunningIds, QueueBalances;
  }

  lemma CleanupMovesOn(s: State)
    requires Inv(s)
    ensures StatusesMoveOn(s, Cleanup(s)) && AllTasksInv(Cleanup(s))
  {
    hide RunningIds, QueueBalances;
  }

  lemma SameTasksMoveOn(s: State, t: State)
    requires Inv(s) && t.tasks == s.tasks && t.counter == s.counter
    ensures StatusesMoveOn(s, t) && AllTasksInv(t)
  {
    hide RunningIds, QueueBalances, TaskInv;
  }

  lemma InvOfTask(s: State, id: Id)
    requires Inv(s) && id in s.tasks
    ensures TaskInv(s.tasks[id])
  {
    hide RunningIds, QueueBalances, TaskInv;
  }

  lemma StatusStep(s: State, a: Action)
    requires Inv(s) && Enabled(s, a)
    ensures StatusesMoveOn(s, Next(s, a)) && AllTasksInv(Next(s, a))
  {
    hide Inv, StatusesMoveOn, AllTasksInv, RunningIds, RunStep, Without;
    match a {
      case DoLaunch => LaunchMovesOn(s);
      case DoCancel(id) =>
        SameTasksMoveOn(s, s);
        if id in s.tasks && s.tasks[id].status == Running {
          InvOfTask(s, id);
          UpdateMovesOn(s, id, RequestCancel(s.tasks[id]).(status := Cancelled), true);
        }
      case DoCancelAll => CancelAllMovesOn(s);
      case DoDrain => SameTasksMoveOn(s, Drain(s));
      case DoRemove(id) => SameTasksMoveOn(s, Remove(s, id));
      case DoCleanup => CleanupMovesOn(s);
      case DoResume(id, answer) =>
        InvOfTask(s, id);
        OneTaskStep(s.tasks[id], answer);
        var (t, queued) := RunStep(s.tasks[id], answer);
        UpdateMovesOn(s, id, t, queued);
    }
  }

  lemma RunningStep(s: State, t: State)
    requires Inv(s) && StatusesMoveOn(s, t)
    ensures |RunningIds(t)| <= MAX_CONCURRENT_TASKS
  {
    var added := set id | id in t.tasks && id !in s.tasks;
    assert RunningIds(t) <= RunningIds(s) + added;
    if added == {} {
      SubsetSize(RunningIds(t), RunningIds(s));
    } else {
      assert added == {t.counter};
      SubsetSize(RunningIds(t), RunningIds(s) + {t.counter});
    }
  }

  lemma SubsetSize(a: set<Id>, b: set<Id>)
    requires a <= b
    ensures |a| <= |b|
  {
    assert b == a + (b - a);
  }

  ghost predicate QueueBalances(s: State) {
    && s.drained + s.removed + multiset(s.queue) == s.enqueued
    && forall id :: id in s.enqueued ==> id in s.tasks
  }

  lemma UpdateBalances(s: State, id: Id, t: Task, queued: bool)
    requires QueueBalances(s)
    ensures QueueBalances(Update(s, id, t, queued))
  {
  }

  lemma DrainBalances(s: State)
    requires QueueBalances(s)
    ensures QueueBalances(Drain(s))
  {
  }

  lemma RemoveBalances(s: State, id: Id)
    requires QueueBalances(s)
    ensures QueueBalances(Remove(s, id))
  {
    WithoutIsPart(s.queue, id);
    hide Without;
  }

  lemma MoreTasksBalance(s: State, t: State)
    requires QueueBalances(s) && s.tasks.Keys <= t.tasks.Keys
    requires t.queue == s.queue && t.enqueued == s.enqueued && t.drained == s.drained && t.removed == s.removed
    ensures QueueBalances(t)
  {
  }

  lemma QueueStep(s: State, a: Action)
    requires QueueBalances(s) && Enabled(s, a)
    ensures QueueBalances(Next(s, a))
  {
    hide QueueBalances, RunStep, Without;
    match a {
      case DoLaunch => MoreTasksBalance(s, Launch(s));
      case DoCancel(id) =>
        if id in s.tasks && s.tasks[id].status == Running {
          UpdateBalances(s, id, RequestCancel(s.tasks[id]).(status := Cancelled), true);
        }
      case DoCancelAll => MoreTasksBalance(s, CancelAll(s));
      case DoDrain => DrainBalances(s);
      case DoRemove(id) => RemoveBalances(s, id);
      case DoCleanup => MoreTasksBalance(s, Cleanup(s));
      case DoResume(id, answer) =>
        var (t, queued) := RunStep(s.tasks[id], answer);
        UpdateBalances(s, id, t, queued);
    }
  }

  lemma StepKeepsInv(s: State, a: Action)
    requires Inv(s) && Enabled(s, a)
    ensures Inv(Next(s, a))
  {
    var t := Next(s, a);
    StatusStep(s, a);
    RunningStep(s, t);
    QueueStep(s, a);
    hide Next, RunningIds, TaskInv;
  }

  /** The swallowed cancel came from cancel(), which had already queued the task; cancel_all() queues nothing. */
  predicate QueuesTwice(s: State, a: Action) {
    SwallowsCancel(s, a) && s.enqueued[a.id] > 0
  }

  /** A step queues a task a second time exactly when it swallows the cancel of a task that cancel() had queued. */
  lemma SecondQueueing(s: State, a: Action, id: Id)
    requires Inv(s) && QueuedOnce(s) && Enabled(s, a) && id in s.tasks
    ensures Next(s, a).enqueued[id] > 1 <==> QueuesTwice(s, a) && a.id == id
    ensures id in Next(s, a).tasks && (Next(s, a).tasks[id].status == Running ==> Next(s, a).enqueued[id] == 0)
  {
    hide RunStep, RunningIds, Without;
    if a.DoResume? {
      OneTaskStep(s.tasks[a.id], a.answer);
    } else {
      OtherStepsQueueOnce(s, a, id);
    }
  }

  lemma OtherStepsQueueOnce(s: State, a: Action, id: Id)
    requires Inv(s) && QueuedOnce(s) && Enabled(s, a) && id in s.tasks && !a.DoResume?
    ensures id in Next(s, a).tasks && Next(s, a).enqueued[id] <= 1
    ensures Next(s, a).tasks[id].status == Running ==> Next(s, a).enqueued[id] == 0
  {
    hide RunningIds, Without, AllTasksInv, QueueBalances;
  }

  lemma QueuedOnceStep(s: State, a: Action)
    requires Inv(s) && QueuedOnce(s) && Enabled(s, a)
    ensures if QueuesTwice(s, a) then !AtMostOnce(Next(s, a)) else QueuedOnce(Next(s, a))
  {
    hide Next, Inv, SwallowsCancel;
    forall id | id in Next(s, a).tasks && !QueuesTwice(s, a)
      ensures Next(s, a).enqueued[id] <= 1 && (Next(s, a).tasks[id].status == Running ==> Next(s, a).enqueued[id] == 0)
    {
      if id in s.tasks {
        SecondQueueing(s, a, id);
      } else {
        NewIsNotQueued(s, a, id);
      }
    }
    if QueuesTwice(s, a) {
      ResumedIsKnown(s, a);
      SecondQueueing(s, a, a.id);
    }
  }

  lemma ResumedIsKnown(s: State, a: Action)
    requires QueuesTwice(s, a)
    ensures a.DoResume? && a.id in s.tasks
  {
  }

  /** No task is queued more than once. */
  ghost predicate AtMostOnce(s: State) {
    forall id :: id in s.tasks ==> s.enqueued[id] <= 1
  }

  /** Being queued twice is not undone by any later step. */
  lemma EnqueuedGrows(s: State, a: Action)
    requires Inv(s) && Enabled(s, a)
    ensures s.enqueued <= Next(s, a).enqueued && s.tasks.Keys <= Next(s, a).tasks.Keys
  {
    hide Without, RunStep, RunningIds, Inv;
  }

  lemma NewIsNotQueued(s: State, a: Action, id: Id)
    requires Inv(s) && Enabled(s, a) && id in Next(s, a).tasks && id !in s.tasks
    ensures Next(s, a).enqueued[id] == 0
  {
    hide Without, RunStep, RunningIds;
    assert s.enqueued[id] == 0;
  }

  /**
   In every interleaving at most five tasks run, and what was drained, removed
   and is still queued adds up to everything ever queued.
  */
  lemma {:induction false} RegistryInvariant(ss: seq<State>, acts: seq<Action>, n: nat)
    requires IsRun(ss, acts) && n < |ss|
    ensures Inv(ss[n])
    ensures |RunningIds(ss[n])| <= 5
  {
    if n == 0 {
    } else {
      RegistryInvariant(ss, acts, n - 1);
      StepKeepsInv(ss[n - 1], acts[n - 1]);
    }
  }

  /** A task that left RUNNING never runs again. */
  lemma {:induction false} NeverRunsAgain(ss: seq<State>, acts: seq<Action>, id: Id, i: nat, j: nat)
    requires IsRun(ss, acts) && i <= j < |ss|
    requires id in ss[i].tasks && ss[i].tasks[id].status != Running
    ensures id in ss[j].tasks && ss[j].tasks[id].status != Running
    decreases j - i
  {
    if i == j {
    } else {
      RegistryInvariant(ss, acts, i);
      StatusStep(ss[i], acts[i]);
      NeverRunsAgain(ss, acts, id, i + 1, j);
    }
  }

  /** A cancelled task stays cancelled, unless it is in the timeout cleanup. */
  predicate IsCancelledFor(s: State, id: Id, reaping: bool) {
    id in s.tasks && var t := s.tasks[id];
    if t.status == Cancelled then t.phase.Reaping? ==> reaping else reaping && t.status == TimedOut && t.phase.Done?
  }

  lemma CancelledStep(s: State, a: Action, id: Id, reaping: bool)
    requires Inv(s) && Enabled(s, a) && IsCancelledFor(s, id, reaping)
    ensures IsCancelledFor(Next(s, a), id, reaping)
  {
    hide RunningIds, Without, QueueBalances;
  }

  /**
   Whatever happens later, a running task that cancel() hits ends as cancelled; only
   if it was in its timeout cleanup by then it can end as timed out instead.
  */
  lemma {:induction false} CancelIsFinal(ss: seq<State>, acts: seq<Action>, i: nat, j: nat, id: Id)
    requires IsRun(ss, acts) && i < j < |ss| && acts[i] == DoCancel(id)
    requires id in ss[i].tasks && ss[i].tasks[id].status == Running
    ensures IsCancelledFor(ss[j], id, ss[i].tasks[id].phase.Reaping?)
    decreases j
  {
    RegistryInvariant(ss, acts, j - 1);
    if j == i + 1 {
      hide RunningIds, Without, QueueBalances, AllTasksInv;
    } else {
      CancelIsFinal(ss, acts, i, j - 1, id);
      hide Next, Inv, IsCancelledFor;
      CancelledStep(ss[j - 1], acts[j - 1], id, ss[i].tasks[id].phase.Reaping?);
    }
  }

  /** Cancelled before its first step, or ended by that, and still counted as running. */
  predicate IsStuck(s: State, id: Id) {
    id in s.tasks && var t := s.tasks[id];
    t.status == Running && (t.phase.Done? || (t.phase.Created? && t.cancelRequested))
  }

  lemma StuckStep(s: State, a: Action, id: Id)
    requires Inv(s) && Enabled(s, a) && IsStuck(s, id) && a != DoCancel(id) && a != DoCancelAll
    ensures IsStuck(Next(s, a), id)
  {
    hide RunningIds, Without, QueueBalances;
  }

  /**
   A task that cleanup cancels before its first step never runs and never ends: it
   stays RUNNING, and takes up one of the five places, until somebody cancels it.
  */
  lemma {:induction false} CleanedUpStaysRunning(ss: seq<State>, acts: seq<Action>, i: nat, j: nat, id: Id)
    requires IsRun(ss, acts) && i < j < |ss| == |acts| + 1 && acts[i] == DoCleanup
    requires id in ss[i].tasks && ss[i].tasks[id] == Task(Running, Created, false, true)
    requires forall k :: i < k < j ==> acts[k] != DoCancel(id) && acts[k] != DoCancelAll
    ensures IsStuck(ss[j], id) && id in RunningIds(ss[j])
    decreases j
  {
    RegistryInvariant(ss, acts, j - 1);
    if j == i + 1 {
      hide Without, QueueBalances, AllTasksInv;
    } else {
      CleanedUpStaysRunning(ss, acts, i, j - 1, id);
      assert acts[j - 1] != DoCancel(id) && acts[j - 1] != DoCancelAll;
      hide Next, Inv;
      StuckStep(ss[j - 1], acts[j - 1], id);
    }
  }

  /** In every run each task enters the completed queue at most once exactly when no step queues one twice. */
  lemma {:induction false} OnceUnlessQueuedTwice(ss: seq<State>, acts: seq<Action>, n: nat)
    requires IsRun(ss, acts) && n < |ss|
    ensures AtMostOnce(ss[n]) <==> forall i :: 0 <= i < n ==> !QueuesTwice(ss[i], acts[i])
    ensures AtMostOnce(ss[n]) ==> QueuedOnce(ss[n])
  {
    hide Next, Inv, QueuesTwice, AtMostOnce, QueuedOnce;
    if n == 0 {
      NothingQueuedYet();
    } else {
      OnceUnlessQueuedTwice(ss, acts, n - 1);
      RegistryInvariant(ss, acts, n - 1);
      if !AtMostOnce(ss[n - 1]) {
        TwiceIsForever(ss[n - 1], acts[n - 1]);
      } else {
        QueuedOnceStep(ss[n - 1], acts[n - 1]);
        OnceIsAtMostOnce(ss[n]);
      }
    }
  }

  lemma NothingQueuedYet()
    ensures QueuedOnce(Init()) && AtMostOnce(Init())
  {
  }

  lemma OnceIsAtMostOnce(s: State)
    ensures QueuedOnce(s) ==> AtMostOnce(s)
  {
  }

  lemma TwiceIsForever(s: State, a: Action)
    requires Inv(s) && Enabled(s, a) && !AtMostOnce(s)
    ensures !AtMostOnce(Next(s, a))
  {
    hide Next, Inv;
    EnqueuedGrows(s, a);
    var id :| id in s.tasks && s.enqueued[id] > 1;
    assert s.enqueued[id] <= Next(s, a).enqueued[id];
  }

  // ----- cancels in the timeout cleanup ---------------------------------------------------------

  /** This cancel() finds its task running, in the await of its timeout cleanup. */
  predicate LandsInCleanup(s: State, a: Action) {
    a.DoCancel? && a.id in s.tasks && s.tasks[a.id].status == Running && s.tasks[a.id].phase.Reaping?
  }

  ghost predicate CancelledInCleanup(ss: seq<State>, acts: seq<Action>, n: nat, id: Id)
    requires n <= |acts| < |ss|
  {
    exists i :: 0 <= i < n && acts[i] == DoCancel(id) && LandsInCleanup(ss[i], acts[i])
  }

  predicate IsReapedOrDone(s: State, id: Id) {
    id in s.tasks && s.tasks[id].phase in {Reaping, Done}
  }

  lemma PhaseStep(s: State, a: Action, id: Id)
    requires Enabled(s, a) && IsReapedOrDone(s, id) && (forall k :: k in s.tasks ==> 1 <= k <= s.counter)
    ensures IsReapedOrDone(Next(s, a), id)
  {
    hide RunningIds, Without;
  }

  lemma {:induction false} PhaseStays(ss: seq<State>, acts: seq<Action>, id: Id, i: nat, j: nat)
    requires IsRun(ss, acts) && i <= j < |ss| && IsReapedOrDone(ss[i], id)
    ensures IsReapedOrDone(ss[j], id)
    decreases j - i
  {
    if i == j {
    } else {
      PhaseStays(ss, acts, id, i, j - 1);
      RegistryInvariant(ss, acts, j - 1);
      hide RunningIds, IsReapedOrDone, Next, Enabled;
      PhaseStep(ss[j - 1], acts[j - 1], id);
    }
  }

  /** A running task has not been queued. */
  ghost predicate RunningUnqueued(s: State) {
    forall id :: id in s.tasks && s.tasks[id].status == Running ==> s.enqueued[id] == 0
  }

  lemma UnqueuedStep(s: State, a: Action)
    requires Inv(s) && Enabled(s, a) && RunningUnqueued(s)
    ensures RunningUnqueued(Next(s, a))
  {
    forall id | id in Next(s, a).tasks && Next(s, a).tasks[id].status == Running
      ensures Next(s, a).enqueued[id] == 0
    {
      if id in s.tasks {
        UnqueuedTask(s, a, id);
      } else {
        NewIsNotQueued(s, a, id);
      }
    }
    hide Next, Inv;
  }

  lemma UnqueuedTask(s: State, a: Action, id: Id)
    requires Inv(s) && Enabled(s, a) && RunningUnqueued(s) && id in s.tasks
    ensures id in Next(s, a).tasks && (Next(s, a).tasks[id].status == Running ==> Next(s, a).enqueued[id] == 0)
  {
    hide RunStep, RunningIds, Without, QueueBalances;
    if a.DoResume? {
      OneTaskStep(s.tasks[a.id], a.answer);
    }
  }

  lemma {:induction false} RunningIsUnqueued(ss: seq<State>, acts: seq<Action>, n: nat)
    requires IsRun(ss, acts) && n < |ss|
    ensures RunningUnqueued(ss[n])
  {
    if n == 0 {
    } else {
      RunningIsUnqueued(ss, acts, n - 1);
      RegistryInvariant(ss, acts, n - 1);
      hide Next, Inv, RunningUnqueued;
      UnqueuedStep(ss[n - 1], acts[n - 1]);
    }
  }

  /** A task in its cleanup that is cancelled and queued. */
  predicate CancelledWhileReaped(s: State, id: Id) {
    id in s.tasks && s.tasks[id].phase.Reaping? && s.tasks[id].status == Cancelled && s.enqueued[id] > 0
  }

  /** While a task stays in its cleanup, only a cancel() that lands there cancels and queues it. */
  lemma ReapedStep(s: State, a: Action, id: Id)
    requires Inv(s) && Enabled(s, a) && RunningUnqueued(s) && id in s.tasks && s.tasks[id].phase.Reaping?
    requires id in Next(s, a).tasks && Next(s, a).tasks[id].phase.Reaping?
    ensures CancelledWhileReaped(Next(s, a), id) <==> CancelledWhileReaped(s, id) || (a == DoCancel(id) && LandsInCleanup(s, a))
  {
    hide RunningIds, Without, QueueBalances, AllTasksInv;
  }

  /** Who enters the cleanup is running, not queued, and was not there before. */
  lemma EntersReaping(s: State, a: Action, id: Id)
    requires Inv(s) && Enabled(s, a) && RunningUnqueued(s)
    requires id in s.tasks ==> !s.tasks[id].phase.Reaping?
    requires id in Next(s, a).tasks && Next(s, a).tasks[id].phase.Reaping?
    ensures id in s.tasks && !s.tasks[id].phase.Done? && !CancelledWhileReaped(Next(s, a), id) && a.DoResume?
  {
    hide RunningIds, Without, QueueBalances;
  }

  lemma {:induction false} ReapedCancelIff(ss: seq<State>, acts: seq<Action>, n: nat, id: Id)
    requires IsRun(ss, acts) && n < |ss| == |acts| + 1 && id in ss[n].tasks && ss[n].tasks[id].phase.Reaping?
    ensures CancelledWhileReaped(ss[n], id) <==> CancelledInCleanup(ss, acts, n, id)
  {
    hide IsRun, Next, Inv, Enabled, RunningUnqueued, CancelledWhileReaped, CancelledInCleanup, LandsInCleanup;
    NoTaskYet(ss, acts);
    if n == 0 {
    } else {
      var s, a := ss[n - 1], acts[n - 1];
      RegistryInvariant(ss, acts, n - 1);
      RunningIsUnqueued(ss, acts, n - 1);
      StepOfRun(ss, acts, n - 1);
      OneMoreCancel(ss, acts, n, id);
      if id in s.tasks && s.tasks[id].phase.Reaping? {
        ReapedCancelIff(ss, acts, n - 1, id);
        ReapedStep(s, a, id);
      } else {
        EntersReaping(s, a, id);
        NotReapedBefore(ss, acts, n - 1, id);
      }
    }
  }

  lemma NoTaskYet(ss: seq<State>, acts: seq<Action>)
    requires IsRun(ss, acts)
    ensures ss[0].tasks == map[]
  {
    hide Next, Enabled;
  }

  lemma StepOfRun(ss: seq<State>, acts: seq<Action>, n: nat)
    requires IsRun(ss, acts) && n < |acts|
    ensures |ss| == |acts| + 1 && Enabled(ss[n], acts[n]) && ss[n + 1] == Next(ss[n], acts[n])
  {
    hide Next, Enabled;
  }

  lemma OneMoreCancel(ss: seq<State>, acts: seq<Action>, n: nat, id: Id)
    requires 0 < n <= |acts| < |ss|
    ensures CancelledInCleanup(ss, acts, n, id) <==>
      CancelledInCleanup(ss, acts, n - 1, id) || (acts[n - 1] == DoCancel(id) && LandsInCleanup(ss[n - 1], acts[n - 1]))
  {
    hide LandsInCleanup;
  }

  lemma NotReapedBefore(ss: seq<State>, acts: seq<Action>, n: nat, id: Id)
    requires IsRun(ss, acts) && n < |ss| == |acts| + 1 && !IsReapedOrDone(ss[n], id)
    ensures !CancelledInCleanup(ss, acts, n, id)
  {
    hide IsRun;
    if i :| 0 <= i < n && acts[i] == DoCancel(id) && LandsInCleanup(ss[i], acts[i]) {
      PhaseStays(ss, acts, id, i, n);
    }
  }

  /** The cancel() of step i lands in a cleanup, and step k ends that cleanup. */
  predicate IsSwallowed(ss: seq<State>, acts: seq<Action>, i: nat, k: nat)
    requires i < k < |acts| < |ss|
  {
    LandsInCleanup(ss[i], acts[i]) && acts[k].DoResume? && acts[k].id == acts[i].id
  }

  lemma TwiceIffSwallowed(ss: seq<State>, acts: seq<Action>, k: nat)
    requires IsRun(ss, acts) && k < |acts|
    ensures |ss| == |acts| + 1 && (QueuesTwice(ss[k], acts[k]) <==> exists i: nat :: i < k && IsSwallowed(ss, acts, i, k))
  {
    var s, a := ss[k], acts[k];
    assert Enabled(s, a);
    hide Next;
    if a.DoResume? {
      if i: nat :| i < k && IsSwallowed(ss, acts, i, k) {
        PhaseStays(ss, acts, a.id, i, k);
      }
      if s.tasks[a.id].phase.Reaping? {
        ReapedCancelIff(ss, acts, k, a.id);
        if CancelledInCleanup(ss, acts, k, a.id) {
          var i :| 0 <= i < k && acts[i] == DoCancel(a.id) && LandsInCleanup(ss[i], acts[i]);
          assert IsSwallowed(ss, acts, i, k);
        }
      }
    }
  }

  /**
   In every run each task enters the completed queue at most once if and only if
   no cancel() lands in the timeout cleanup of a running task that is then resumed.
  */
  lemma QueuedAtMostOnceIff(ss: seq<State>, acts: seq<Action>, n: nat)
    requires IsRun(ss, acts) && n < |ss| == |acts| + 1
    ensures AtMostOnce(ss[n]) <==> forall i, k :: 0 <= i < k < n ==> !IsSwallowed(ss, acts, i, k)
  {
    OnceUnlessQueuedTwice(ss, acts, n);
    forall k | 0 <= k < n
      ensures QueuesTwice(ss[k], acts[k]) <==> exists i: nat :: i < k && IsSwallowed(ss, acts, i, k)
    {
      TwiceIffSwallowed(ss, acts, k);
    }
    hide IsRun, AtMostOnce, QueuesTwice, QueuedOnce;
    if forall i, k :: 0 <= i < k < n ==> !IsSwallowed(ss, acts, i, k) {
    } else {
      var i: nat, k: nat :| i < k < n && IsSwallowed(ss, acts, i, k);
      assert QueuesTwice(ss[k], acts[k]);
    }
  }

  // ----- what a final status tells -------------------------------------------------------------

  /** The command could not be run, watched or killed, or it answered with an error. */
  predicate Fails(t: Task, answer: Answer) {
    || (t.phase.Waiting? && answer in {ReturnsNonZero, Raises})
    || (t.phase in {Spawning, Killing} && answer == Raises)
  }

  /** What has to happen to a task for it to end as completed, timed out or failed. */
  predicate TaskEndsAs(t: Task, answer: Answer, status: Status) {
    match status
    case Completed => t.phase.Waiting? && !t.cancelRequested && answer == Succeeds
    case TimedOut => t.phase.Reaping?
    case Failed => !t.cancelRequested && Fails(t, answer)
    case _ => false
  }

  predicate EndsAs(s: State, a: Action, id: Id, status: Status) {
    a.DoResume? && a.id == id && CanResume(s, id) && TaskEndsAs(s.tasks[id], a.answer, status)
  }

  predicate Ended(s: State, id: Id, status: Status) {
    id in s.tasks && s.tasks[id].status == status
  }

  lemma EndedTask(t: Task, answer: Answer, status: Status)
    requires TaskInv(t) && !t.phase.Done? && status in {Completed, Failed, TimedOut}
    ensures t.status != status && (RunStep(t, answer).0.status == status <==> TaskEndsAs(t, answer, status))
  {
  }

  lemma EndedStep(s: State, a: Action, id: Id, status: Status)
    requires Inv(s) && Enabled(s, a) && status in {Completed, Failed, TimedOut}
    ensures Ended(Next(s, a), id, status) <==> Ended(s, id, status) || EndsAs(s, a, id, status)
  {
    hide RunningIds, Without, QueueBalances, RunStep, TaskEndsAs, AllTasksInv, TaskInv;
    if a.DoResume? {
      InvOfTask(s, a.id);
      EndedTask(s.tasks[a.id], a.answer, status);
    }
  }

  /**
   In every run a task is completed exactly when its process was waited for, not
   cancelled, and returned 0; timed out exactly when it was killed and reaped; and
   failed exactly when spawning, waiting or killing failed or it returned an error.
  */
  lemma {:induction false} FinalStatusIff(ss: seq<State>, acts: seq<Action>, n: nat, id: Id, status: Status)
    requires IsRun(ss, acts) && n < |ss| == |acts| + 1 && status in {Completed, Failed, TimedOut}
    ensures Ended(ss[n], id, status) <==> exists i :: 0 <= i < n && EndsAs(ss[i], acts[i], id, status)
  {
    if n == 0 {
    } else {
      FinalStatusIff(ss, acts, n - 1, id, status);
      RegistryInvariant(ss, acts, n - 1);
      EndedStep(ss[n - 1], acts[n - 1], id, status);
      hide Next, Inv, EndsAs, Ended;
    }
  }

  /** A task that completed, failed or timed out has been queued for delivery. */
  ghost predicate AllReported(s: State) {
    forall id :: id in s.tasks && s.tasks[id].status in {Completed, Failed, TimedOut} ==> s.enqueued[id] >= 1
  }

  lemma ReportedTask(t: Task, answer: Answer)
    requires TaskInv(t) && !t.phase.Done?
    ensures var (u, queued) := RunStep(t, answer);
      (u.status in {Completed, Failed, TimedOut} <==> queued)
  {
  }

  lemma UpdateReports(s: State, id: Id, t: Task, queued: bool)
    requires AllReported(s) && id in s.tasks && (t.status in {Completed, Failed, TimedOut} ==> queued)
    ensures AllReported(Update(s, id, t, queued))
  {
  }

  lemma ReportStep(s: State, a: Action)
    requires Inv(s) && AllReported(s) && Enabled(s, a)
    ensures AllReported(Next(s, a))
  {
    hide Inv, RunningIds, Without, RunStep;
    match a {
      case DoResume(id, answer) =>
        InvOfTask(s, id);
        ReportedTask(s.tasks[id], answer);
        var (t, queued) := RunStep(s.tasks[id], answer);
        UpdateReports(s, id, t, queued);
      case DoCancel(id) =>
        if id in s.tasks && s.tasks[id].status == Running {
          UpdateReports(s, id, RequestCancel(s.tasks[id]).(status := Cancelled), true);
        }
      case _ =>
    }
  }

  /** In every run no result is lost: whatever completed, failed or timed out has entered the completed queue. */
  lemma {:induction false} ResultsAreReported(ss: seq<State>, acts: seq<Action>, n: nat)
    requires IsRun(ss, acts) && n < |ss|
    ensures AllReported(ss[n])
  {
    if n == 0 {
    } else {
      ResultsAreReported(ss, acts, n - 1);
      RegistryInvariant(ss, acts, n - 1);
      ReportStep(ss[n - 1], acts[n - 1]);
    }
    hide Next;
  }

  /** A run that queues a task twice: it times out, is cancelled while it is being reaped, and is queued by both. */
  lemma SwallowedCancelQueuesTwice() returns (ss: seq<State>, acts: seq<Action>)
    ensures IsRun(ss, acts) && ss[|acts|].enqueued[1] == 2
  {
    ss, acts := UntilReaped();
    hide IsRun, Next, OneTask, CanResume;
    CancelledInReaping();
    ss, acts := Longer(ss, acts, DoCancel(1), OneTask(Cancelled, Reaping, [1]));
    Resumed(Cancelled, Reaping, [1], Succeeds);
    assert [1 as Id] + [1] == [1, 1];
    ss, acts := Longer(ss, acts, DoResume(1, Succeeds), OneTask(TimedOut, Done, [1, 1]));
    TwoQueued();
  }

  lemma UntilReaped() returns (ss: seq<State>, acts: seq<Action>)
    ensures IsRun(ss, acts) && ss[|acts|] == OneTask(Running, Reaping, [])
  {
    FewRun(Init());
    ss, acts := Longer([Init()], [], DoLaunch, OneTask(Running, Created, []));
    hide IsRun, Next, OneTask, CanResume;
    Resumed(Running, Created, [], Succeeds);
    ss, acts := Longer(ss, acts, DoResume(1, Succeeds), OneTask(Running, Spawning, []));
    Resumed(Running, Spawning, [], Succeeds);
    ss, acts := Longer(ss, acts, DoResume(1, Succeeds), OneTask(Running, Waiting, []));
    Resumed(Running, Waiting, [], TimesOut);
    ss, acts := Longer(ss, acts, DoResume(1, TimesOut), OneTask(Running, Killing, []));
    Resumed(Running, Killing, [], Succeeds);
    ss, acts := Longer(ss, acts, DoResume(1, Succeeds), OneTask(Running, Reaping, []));
  }

  lemma TwoQueued()
    ensures OneTask(TimedOut, Done, [1, 1]).enqueued[1] == 2
  {
  }

  lemma Longer(ss: seq<State>, acts: seq<Action>, a: Action, t: State) returns (ss': seq<State>, acts': seq<Action>)
    requires IsRun(ss, acts) && Enabled(ss[|acts|], a) && t == Next(ss[|acts|], a)
    ensures IsRun(ss', acts') && |ss'| == |acts'| + 1 && ss'[|acts'|] == t
  {
    hide Next, Enabled;
    ss', acts' := ss + [t], acts + [a];
  }

  lemma CancelledInReaping()
    ensures Next(OneTask(Running, Reaping, []), DoCancel(1)) == OneTask(Cancelled, Reaping, [1])
  {
    var s := OneTask(Running, Reaping, []);
    assert Cancel(s, 1).tasks == map[1 := Task(Cancelled, Reaping, true, true)];
    assert multiset([1 as Id]) == multiset{1};
  }

  lemma Resumed(status: Status, phase: Phase, queue: seq<Id>, answer: Answer)
    requires !phase.Done?
    requires var (t, _) := RunStep(Task(status, phase, status == Cancelled, true), answer);
      t.known && t.cancelRequested == (t.status == Cancelled)
    ensures Enabled(OneTask(status, phase, queue), DoResume(1, answer))
    ensures var (t, queued) := RunStep(Task(status, phase, status == Cancelled, true), answer);
      Next(OneTask(status, phase, queue), DoResume(1, answer)) == OneTask(t.status, t.phase, if queued then queue + [1] else queue)
  {
    hide RunStep;
    var s := OneTask(status, phase, queue);
    var (t, queued) := RunStep(Task(status, phase, status == Cancelled, true), answer);
    assert s.tasks[1] == Task(status, phase, status == Cancelled, true);
    assert s.tasks[1 := t] == map[1 := t];
    MultisetOfAppend(queue, 1);
  }

  lemma MultisetOfAppend(queue: seq<Id>, id: Id)
    ensures multiset(queue + [id]) == multiset(queue) + multiset{id}
  {
  }

  /** The state of a registry whose only task has been queued as given. */
  function OneTask(status: Status, phase: Phase, queue: seq<Id>): State {
    State(map[1 := Task(status, phase, status == Cancelled, true)], queue, 1, multiset(queue), multiset{}, multiset{})
  }

  lemma FewRun(s: State)
    requires s.tasks == map[]
    ensures RunningIds(s) == {}
  {
  }

  lemma DropFirst(kept: seq<Id>, queue: seq<Id>, id: Id)
    requires queue != []
    ensures kept + Without(queue, id) == (if queue[0] == id then kept else kept + [queue[0]]) + Without(queue[1..], id)
  {
    var rest := Without(queue[1..], id);
    assert Without(queue, id) == (if queue[0] == id then [] else [queue[0]]) + rest;
    hide Without;
  }

  lemma NoneWithout(kept: seq<Id>, id: Id)
    ensures kept + Without([], id) == kept
  {
  }

  /** Counting the running tasks one more of which has been looked at. */
  lemma CountOneMore(s: State, seen: set<Id>, id: Id)
    requires id in s.tasks && id !in seen
    ensures |RunningIds(s) * (seen + {id})| == |RunningIds(s) * seen| + (if s.tasks[id].status == Running then 1 else 0)
  {
    if s.tasks[id].status == Running {
      assert RunningIds(s) * (seen + {id}) == RunningIds(s) * seen + {id};
    } else {
      assert RunningIds(s) * (seen + {id}) == RunningIds(s) * seen;
    }
  }

  lemma AllSeen(s: State)
    ensures RunningIds(s) * s.tasks.Keys == RunningIds(s)
  {
  }

  /** The registry object. The ghost fields are the whole history of the completed queue. */
  class BackgroundTaskRegistry {
    var tasks: map<Id, Task>
    var queue: seq<Id>
    var counter: nat
    ghost var enqueued: multiset<Id>
    ghost var drained: multiset<Id>
    ghost var removed: multiset<Id>

    constructor ()
      ensures Snap() == Init()
    {
      tasks, queue, counter := map[], [], 0;
      enqueued, drained, removed := multiset{}, multiset{}, multiset{};
    }

    ghost function Snap(): State
      reads this
    {
      State(tasks, queue, counter, enqueued, drained, removed)
    }

    /** Counts the tasks whose status is RUNNING. */
    method ActiveCount() returns (count: nat)
      ensures count == |RunningIds(Snap())|
    {
      hide RunningIds;
      count := 0;
      var left := tasks.Keys;
      while left != {}
        invariant left <= tasks.Keys
        invariant count == |RunningIds(Snap()) * (tasks.Keys - left)|
        decreases left
      {
        var id :| id in left;
        CountOneMore(Snap(), tasks.Keys - left, id);
        assert tasks.Keys - (left - {id}) == tasks.Keys - left + {id};
        left := left - {id};
        if tasks[id].status == Running {
          count := count + 1;
        }
      }
      AllSeen(Snap());
    }

    method Start() returns (id: Option<Id>)
      modifies this
      ensures Snap() == Launch(old(Snap()))
      ensures id.None? <==> |RunningIds(old(Snap()))| >= 5
      ensures id.Some? ==> id.value == counter
    {
      var active := ActiveCount();
      if active >= MAX_CONCURRENT_TASKS {
        return None;
      }
      counter := counter + 1;
      tasks := tasks[counter := Task(Running, Created, false, true)];
      return Some(counter);
    }

    method CancelOne(id: Id) returns (ok: bool)
      modifies this
      ensures Snap() == Cancel(old(Snap()), id)
      ensures ok <==> id in old(tasks) && old(tasks)[id].status == Running
      ensures ok ==> queue == old(queue) + [id] && id in tasks && tasks[id].status == Cancelled
      ensures forall other :: other in old(tasks) && other != id ==> other in tasks && tasks[other] == old(tasks)[other]
    {
      if id !in tasks || tasks[id].status != Running {
        return false;
      }
      tasks := tasks[id := RequestCancel(tasks[id]).(status := Cancelled)];
      queue := queue + [id];
      enqueued := enqueued + multiset{id};
      return true;
    }

    method CancelEvery()
      modifies this
      ensures Snap() == CancelAll(old(Snap()))
    {
      var left := tasks.Keys;
      while left != {}
        invariant left <= tasks.Keys == old(tasks).Keys
        invariant forall id :: id in left ==> tasks[id] == old(tasks)[id]
        invariant forall id :: id in tasks.Keys - left ==> tasks[id] == CancelAll(old(Snap())).tasks[id]
        invariant queue == old(queue) && counter == old(counter)
        invariant enqueued == old(enqueued) && drained == old(drained) && removed == old(removed)
        decreases left
      {
        var id :| id in left;
        left := left - {id};
        if tasks[id].status == Running {
          tasks := tasks[id := RequestCancel(tasks[id]).(status := Cancelled)];
        }
      }
      assert tasks == CancelAll(old(Snap())).tasks;
    }

    method DrainCompleted() returns (completed: seq<Id>)
      modifies this
      ensures Snap() == Drain(old(Snap())) && completed == old(queue)
    {
      completed := queue;
      drained := drained + multiset(queue);
      queue := [];
    }

    method RemoveFromCompleted(id: Id)
      modifies this
      ensures Snap() == Remove(old(Snap()), id)
      ensures multiset(queue) == multiset(old(queue))[id := 0]
    {
      var kept: seq<Id> := [];
      var todo := queue;
      hide Without;
      while todo != []
        invariant kept + Without(todo, id) == Without(queue, id)
        invariant Snap() == old(Snap())
      {
        DropFirst(kept, todo, id);
        if todo[0] != id {
          kept := kept + [todo[0]];
        }
        todo := todo[1..];
      }
      NoneWithout(kept, id);
      WithoutIsExact(queue, id);
      removed := removed + (multiset(queue) - multiset(kept));
      queue := kept;
    }

    method CleanUp()
      modifies this
      ensures Snap() == Cleanup(old(Snap()))
    {
      var left := tasks.Keys;
      while left != {}
        invariant left <= tasks.Keys == old(tasks).Keys
        invariant forall id :: id in left ==> tasks[id] == old(tasks)[id]
        invariant forall id :: id in tasks.Keys - left ==> tasks[id] == Cleanup(old(Snap())).tasks[id]
        invariant queue == old(queue) && counter == old(counter)
        invariant enqueued == old(enqueued) && drained == old(drained) && removed == old(removed)
        decreases left
      {
        var id :| id in left;
        left := left - {id};
        tasks := tasks[id := RequestCancel(tasks[id]).(known := false)];
      }
      assert tasks == Cleanup(old(Snap())).tasks;
    }

    /** The coroutine of a task from one await to the next. */
    method RunCommand(id: Id, answer: Answer)
      requires CanResume(Snap(), id)
      modifies this
      ensures Snap() == Resume(old(Snap()), id, answer)
    {
      var t := tasks[id];
      var ended: Option<Status> := None;  // the status on reaching the finally block
      if t.phase.Created? {
        t := t.(phase := if t.cancelRequested || answer == Raises then Done else Spawning, cancelRequested := false);
      } else if t.phase.Reaping? {
        ended := Some(TimedOut);
      } else if t.cancelRequested {
        ended := Some(Cancelled);
      } else if answer == Raises {
        ended := Some(Failed);
      } else if t.phase.Spawning? {
        t := t.(phase := Waiting);
      } else if t.phase.Killing? {
        t := t.(phase := Reaping);
      } else if answer == TimesOut {
        t := t.(phase := Killing);
      } else {
        ended := Some(if answer == Succeeds then Completed else Failed);
      }
      if ended.Some? {
        t := t.(status := ended.value, phase := Done, cancelRequested := false);
        if t.status == Running {
          t := t.(status := Failed);
        }
        if t.status != Cancelled {
          queue := queue + [id];
          enqueued := enqueued + multiset{id};
        }
      }
      tasks := tasks[id := t];
    }
  }
}
