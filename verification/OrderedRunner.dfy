/**
 The cleanup runner as it is written: a state object, passes over it, and a
 trampoline that starts a new pass after each interruption.
 */
module OrderedRunner {
  import opened Options
  import opened OrderedCleanup

  class Runner {
    const actions: seq<Action>

    var next: nat
    var retries: nat
    var retryErrorRetained: bool
    var errors: seq<Error>
    var retained: set<(nat, Marker)>
    var script: seq<Response>
    var log: seq<Event>

    constructor (todo: seq<Action>, primary: Option<Error>, responses: seq<Response>)
      ensures actions == todo && View() == Start(primary, responses)
    {
      actions := todo;
      next, retries, retryErrorRetained, retained := 0, 0, false, {};
      errors := if primary.Some? then [primary.value] else [];
      script, log := responses, [];
    }

    function View(): State
      reads this
    {
      State(next, retries, retryErrorRetained, errors, retained, script, log)
    }

    /** One call into the outside, whatever it is. */
    method Call(e: Event) returns (r: Response)
      modifies this`script, this`log
      ensures r == Response0(old(View())) && View() == Consumed(old(View()), e)
    {
      r := if script == [] then Answers(true) else script[0];
      script := if script == [] then [] else script[1..];
      log := log + [e];
    }

    method KeepOnce(marker: Marker, error: Error)
      modifies this`errors, this`retained
      ensures View() == RetainOnce(old(View()), marker, error)
    {
      if (next, marker) !in retained {
        retained := retained + {(next, marker)};
        errors := errors + [error];
      }
    }

    method KeepRetryError(error: Error)
      modifies this`errors, this`retryErrorRetained
      ensures View() == RetainRetryError(old(View()), error)
    {
      if !retryErrorRetained {
        retryErrorRetained := true;
        errors := errors + [error];
      }
    }

    method MoveOn()
      modifies this`next, this`retries, this`retryErrorRetained
      ensures View() == Advance(old(View()))
    {
      next := next + 1;
      retries, retryErrorRetained := 0, false;
    }

    /** `_ordered_action_complete`. */
    method IsComplete() returns (complete: bool)
      modifies this`script, this`log, this`errors, this`retained
      ensures (complete, View()) == Probe(old(View()))
    {
      var r := if script == [] then Answers(true) else script[0];
      script := if script == [] then [] else script[1..];
      complete := r.Answers? && r.answer;
      log := log + [Seen(next, complete)];
      if r.Raises? {
        KeepOnce(CompletionObservation, r.error);
      }
    }

    /** `_attempt_ordered_action`. */
    method Try() returns (error: Option<Error>)
      modifies this`script, this`log
      ensures (error, View()) == Attempt(old(View()))
    {
      var r := Call(Called(next));
      error := if r.Raises? then Some(r.error) else None;
    }

    /** `_run_plain_ordered_action`. */
    method TryPlain()
      modifies this`next, this`script, this`log, this`errors
      ensures View() == RunPlain(old(View()))
    {
      var index := next;
      next := next + 1;
      var r := Call(Called(index));
      if r.Raises? {
        errors := errors + [r.error];
      }
    }

    /** `_exhaust_ordered_action_retries`. */
    method GiveUp()
      modifies this
      ensures View() == Exhaust(old(View()))
    {
      KeepOnce(RetriesExhausted, EXHAUSTED);
      var complete := IsComplete();
      MoveOn();
    }

    /** `_retry_ordered_action`. */
    method TryAgain(error: Error)
      modifies this
      ensures View() == Retry(old(View()), error)
    {
      KeepRetryError(error);
      if retries >= MAX_RETRIES {
        GiveUp();
      } else {
        retries := retries + 1;
      }
    }

    /** What follows an attempt, once the policy has answered. */
    method Decide(error: Option<Error>, completed: bool, retry: bool)
      modifies this
      ensures View() == Conclude(old(View()), error, completed, retry)
    {
      if completed {
        if error.Some? {
          KeepRetryError(error.value);
        }
        MoveOn();
      } else if retry {
        TryAgain(if error.Some? then error.value else UNCAUSED);
      } else {
        if error.Some? {
          KeepRetryError(error.value);
        }
        KeepOnce(DidNotComplete, INCOMPLETE);
        MoveOn();
      }
    }

    /** One turn of the loop for an action with a completion probe; a policy that raises
        interrupts the pass, and the handler of the pass has already been through. */
    method TryRetryable(policy: Policy) returns (interrupted: bool)
      modifies this
      ensures View() == RunRetryable(old(View()), policy)
    {
      interrupted := false;
      var already := IsComplete();
      if already {
        MoveOn();
        return;
      }
      var error := Try();
      var completed := IsComplete();
      if policy.Callable? {
        var r := Call(Asked(next));
        if r.Raises? {
          TryAgain(r.error);
          return true;
        }
        Decide(error, completed, r.answer);
      } else {
        Decide(error, completed, policy.OnCancellation? && error.Some? && error.value.cancellation);
      }
    }

    /** `_run_ordered_actions_pass`: until everything has been processed or something
        interrupts. */
    method Pass() returns (finished: bool)
      requires retries <= MAX_RETRIES
      modifies this
      ensures retries <= MAX_RETRIES && finished == (next >= |actions|)
      ensures Run(actions, View()) == Run(actions, old(View()))
      ensures old(next) < |actions| && next == old(next) ==> retries > old(retries)
      ensures next >= old(next)
    {
      var interrupted := false;
      while next < |actions| && !interrupted
        invariant retries <= MAX_RETRIES && Run(actions, View()) == Run(actions, old(View()))
        invariant next >= old(next) && (next == old(next) ==> retries >= old(retries))
        invariant interrupted && next == old(next) ==> retries > old(retries)
        decreases |actions| - next, MAX_RETRIES - retries
      {
        TurnProgresses(actions, View());
        match actions[next] {
          case Plain =>
            TryPlain();
          case Retryable(policy) =>
            interrupted := TryRetryable(policy);
        }
      }
      finished := next >= |actions|;
    }

    /** `_run_ordered_actions`. */
    method RunAll()
      requires retries <= MAX_RETRIES
      modifies this
      ensures View() == Run(actions, old(View())) && next >= |actions|
    {
      var finished := false;
      while !finished
        invariant retries <= MAX_RETRIES && Run(actions, View()) == Run(actions, old(View()))
        invariant finished ==> next >= |actions|
        decreases !finished, |actions| - next, MAX_RETRIES - retries
      {
        finished := Pass();
      }
    }
  }
}
