/**
 The pause and iteration budget around the streaming calls of stream_response.
 What the user, the provider and the tools do in each passage through the loop
 is given from outside.
*/
module LoopBudget {

  const MAX_PAUSE_CONTINUES := 3

  /** The answer to a pause prompt; a prompt that times out ends the loop like a cancelled one. */
  datatype Answer = Continue | Stop | Cancelled

  /** Whether the provider call fails, before or after it was made. */
  datatype Provider = FailsBefore | FailsDuring | Responds(toolCalls: bool)

  datatype Tools = Merged | UserRejected | Raises

  /** Everything the outside world decides during one passage. */
  datatype World = World(interrupted: bool, canPause: bool, answer: Answer, provider: Provider, interruptedAfter: bool, tools: Tools)

  datatype State = State(iteration: nat, continues: nat, calls: nat, running: bool)

  const INIT := State(0, 0, 0, true)

  predicate Asks(w: World) {
    w.canPause && w.answer == Continue
  }

  /** One passage. limit is MAX_ITERATIONS, 0 when the limit is switched off. */
  function Step(limit: nat, s: State, w: World): State {
    var iteration := s.iteration + 1;
    if (limit > 0 && iteration > limit) || w.interrupted then
      if s.continues < MAX_PAUSE_CONTINUES && Asks(w) then State(0, s.continues + 1, s.calls, true)
      else s.(iteration := iteration, running := false)
    else
      match w.provider
      case FailsBefore => State(iteration, s.continues, s.calls, Asks(w))
      case FailsDuring => State(iteration, s.continues, s.calls + 1, Asks(w))
      case Responds(toolCalls) =>
        State(iteration, s.continues, s.calls + 1, !w.interruptedAfter && toolCalls && w.tools == Merged)
  }

  /** The state after at most n passages. */
  function After(limit: nat, world: nat -> World, n: nat): State {
    if n == 0 then INIT
    else
      var s := After(limit, world, n - 1);
      if s.running then Step(limit, s, world(n - 1)) else s
  }

  /** How many passages a running state can still make, lexicographically (continues left, iterations left). */
  function Remaining(limit: nat, s: State): int {
    (MAX_PAUSE_CONTINUES - s.continues) * (limit + 1) + (limit - s.iteration)
  }

  ghost predicate Inv(limit: nat, s: State) {
    && s.continues <= MAX_PAUSE_CONTINUES
    && s.calls <= s.continues * limit + (if s.iteration <= limit then s.iteration else limit)
    && (s.running ==> s.iteration <= limit)
  }

  lemma StepKeepsInv(limit: nat, s: State, w: World)
    requires limit > 0 && Inv(limit, s) && s.running
    ensures Inv(limit, Step(limit, s, w))
    ensures Step(limit, s, w).running ==> 0 <= Remaining(limit, Step(limit, s, w)) < Remaining(limit, s)
  {
    var t := Step(limit, s, w);
    if t.continues == s.continues + 1 {
      assert t.continues * limit == s.continues * limit + limit;
      assert (MAX_PAUSE_CONTINUES - t.continues) * (limit + 1) == (MAX_PAUSE_CONTINUES - s.continues) * (limit + 1) - (limit + 1);
    }
  }

  lemma {:induction false} AfterInv(limit: nat, world: nat -> World, n: nat)
    requires limit > 0
    ensures Inv(limit, After(limit, world, n))
    ensures After(limit, world, n).running ==> 0 <= Remaining(limit, After(limit, world, n)) <= 4 * limit + 3 - n
  {
    if n == 0 {
    } else {
      AfterInv(limit, world, n - 1);
      var s := After(limit, world, n - 1);
      if s.running {
        StepKeepsInv(limit, s, world(n - 1));
      }
    }
  }

  /**
   With the limit on, whatever user, provider and tools do: at most four times the
   limit streaming calls, and after 4 * limit + 4 passages the loop has ended.
  */
  lemma CallsAreBounded(limit: nat, world: nat -> World, n: nat)
    requires limit > 0
    ensures After(limit, world, n).calls <= 4 * limit
    ensures n > 4 * limit + 3 ==> !After(limit, world, n).running
  {
    AfterInv(limit, world, n);
    var s := After(limit, world, n);
    assert s.continues * limit <= 3 * limit;
  }

  /** A user who always continues, and a provider that always calls tools that succeed. */
  const TIRELESS: nat -> World := _ => World(false, true, Continue, Responds(true), false, Merged)

  lemma {:induction false} TirelessRound(limit: nat, start: nat, k: nat)
    requires limit > 0 && k <= limit
    requires After(limit, TIRELESS, start).running && After(limit, TIRELESS, start).iteration == 0
    ensures var s := After(limit, TIRELESS, start);
      After(limit, TIRELESS, start + k) == State(k, s.continues, s.calls + k, true)
  {
    if k == 0 {
    } else {
      TirelessRound(limit, start, k - 1);
    }
  }

  /** The bound is reached, for every limit. */
  lemma BoundIsReached(limit: nat)
    requires limit > 0
    ensures After(limit, TIRELESS, 4 * limit + 3).calls == 4 * limit
  {
    TirelessRound(limit, 0, limit);
    TirelessRound(limit, limit + 1, limit);
    TirelessRound(limit, 2 * limit + 2, limit);
    TirelessRound(limit, 3 * limit + 3, limit);
  }

  lemma {:induction false} UnlimitedCalls(n: nat)
    ensures After(0, TIRELESS, n) == State(n, 0, n, true)
  {
    if n == 0 {
    } else {
      UnlimitedCalls(n - 1);
    }
  }

  ghost predicate IsBound(limit: nat, b: nat) {
    forall world: nat -> World, n: nat :: After(limit, world, n).calls <= b
  }

  /** The number of calls is bounded at all exactly when the iteration limit is switched on. */
  lemma BoundedIffLimited(limit: nat)
    ensures (exists b: nat :: IsBound(limit, b)) <==> limit > 0
  {
    if limit > 0 {
      forall world: nat -> World, n: nat
        ensures After(limit, world, n).calls <= 4 * limit
      {
        CallsAreBounded(limit, world, n);
      }
      assert IsBound(limit, 4 * limit);
    } else if b: nat :| IsBound(limit, b) {
      UnlimitedCalls(b + 1);
    }
  }

  lemma {:induction false} StaysEnded(limit: nat, world: nat -> World, n: nat, m: nat)
    requires n <= m && !After(limit, world, n).running
    ensures After(limit, world, m) == After(limit, world, n)
    decreases m
  {
    if m == n {
    } else {
      StaysEnded(limit, world, n, m - 1);
    }
  }

  /** This passage makes its streaming call: the limit is not reached and nobody interrupted. */
  predicate Calls(limit: nat, s: State, w: World) {
    s.running && !w.interrupted && w.provider.Responds? && (limit > 0 ==> s.iteration < limit)
  }

  /**
   A passage whose call was answered is the last one, and no later call is made,
   if the user interrupted or rejected a tool, a tool phase raised, or there were no
   tool calls; otherwise the loop goes on.
  */
  lemma AnsweredGoesOnIff(limit: nat, world: nat -> World, n: nat, m: nat)
    requires n < m && Calls(limit, After(limit, world, n), world(n))
    ensures var w := world(n);
      if w.interruptedAfter || w.provider == Responds(false) || w.tools == UserRejected || w.tools == Raises
      then !After(limit, world, m).running && After(limit, world, m).calls == After(limit, world, n).calls + 1
      else After(limit, world, n + 1).running
  {
    if !After(limit, world, n + 1).running {
      StaysEnded(limit, world, n + 1, m);
    }
  }

  /** After a provider call that fails the loop goes on, budgets unchanged, exactly when the user continues. */
  lemma FailureGoesOnIff(limit: nat, world: nat -> World, n: nat, m: nat)
    requires n < m && After(limit, world, n).running && !world(n).interrupted && !world(n).provider.Responds?
    requires limit > 0 ==> After(limit, world, n).iteration < limit
    ensures var s := After(limit, world, n);
      var calls := s.calls + if world(n).provider == FailsDuring then 1 else 0;
      if world(n).canPause && world(n).answer == Continue
      then After(limit, world, n + 1) == State(s.iteration + 1, s.continues, calls, true)
      else !After(limit, world, m).running && After(limit, world, m).calls == calls
  {
    if !After(limit, world, n + 1).running {
      StaysEnded(limit, world, n + 1, m);
    }
  }

  /** A pause that the user does not continue, or a fourth pause, ends the loop without a further call. */
  lemma PauseGoesOnIff(limit: nat, world: nat -> World, n: nat, m: nat)
    requires n < m && After(limit, world, n).running
    requires world(n).interrupted || (limit > 0 && After(limit, world, n).iteration >= limit)
    ensures var s := After(limit, world, n);
      if s.continues < 3 && world(n).canPause && world(n).answer == Continue
      then After(limit, world, n + 1) == State(0, s.continues + 1, s.calls, true)
      else !After(limit, world, m).running && After(limit, world, m).calls == s.calls
  {
    if !After(limit, world, n + 1).running {
      StaysEnded(limit, world, n + 1, m);
    }
  }

  /** The loop itself. It ends by the measure (continues left, iterations left). */
  method StreamLoop(limit: nat, world: nat -> World) returns (calls: nat, ghost passages: nat)
    requires limit > 0
    ensures After(limit, world, passages).calls == calls && !After(limit, world, passages).running
    ensures calls <= 4 * limit && 0 < passages <= 4 * limit + 4
  {
    calls, passages := 0, 0;
    var iteration, continues := 0, 0;
    var now: nat := 0;
    while true
      invariant now == passages
      invariant iteration <= limit && continues <= MAX_PAUSE_CONTINUES
      invariant After(limit, world, passages) == State(iteration, continues, calls, true)
      decreases MAX_PAUSE_CONTINUES - continues, limit - iteration
    {
      AfterInv(limit, world, passages);
      var w := world(now);
      now := now + 1;
      passages := passages + 1;
      CallsAreBounded(limit, world, passages);
      iteration := iteration + 1;
      if iteration > limit || w.interrupted {
        if continues >= MAX_PAUSE_CONTINUES || !w.canPause {
          break;
        }
        match w.answer {
          case Continue =>
            continues := continues + 1;
            iteration := 0;
            continue;
          case _ => break;
        }
      }
      if w.provider != FailsBefore {
        calls := calls + 1;
      }
      if !w.provider.Responds? {
        if w.canPause && w.answer == Continue {
          continue;
        }
        break;
      }
      if w.interruptedAfter || !w.provider.toolCalls || w.tools != Merged {
        break;
      }
    }
  }
}
