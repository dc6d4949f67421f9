/**
 The cleanup runner: ordered actions, bounded retries, the first error kept.

 What actions, completion probes and callable retry policies do is read from a
 script, one response for each call, and a benign response once the script is over:
 every behaviour of the callees is one script. Python's `Exception` and the
 cancellations outside it are told apart; the text of an error is not modelled.
 */
module OrderedCleanup {
  import opened Options

  const MAX_RETRIES: nat := 8

  datatype Error = Error(id: int, cancellation: bool)

  const INCOMPLETE := Error(-1, false)
  const EXHAUSTED := Error(-2, false)
  const UNCAUSED := Error(-3, false)

  /** A call raises, or gives an answer, which an action does not use. */
  datatype Response = Raises(error: Error) | Answers(answer: bool)

  datatype Policy = Never | OnCancellation | Callable

  datatype Action = Plain | Retryable(policy: Policy)

  datatype Marker = CompletionObservation | DidNotComplete | RetriesExhausted

  datatype Event = Called(index: nat) | Seen(index: nat, complete: bool) | Asked(index: nat)

  /**
   The state of a run: the cursor and the retries of the action at it, the errors kept
   so far, the primary one first, which errors have been kept already, what is left of
   the script, and the calls made.
   */
  datatype State = State(
    next: nat, retries: nat, retryErrorRetained: bool,
    errors: seq<Error>, retained: set<(nat, Marker)>,
    script: seq<Response>, log: seq<Event>)

  function Primary(s: State): Option<Error> {
    if s.errors == [] then None else Some(s.errors[0])
  }

  // ---- what the callees do

  function Response0(s: State): Response {
    if s.script == [] then Answers(true) else s.script[0]
  }

  function Consumed(s: State, e: Event): State {
    s.(script := if s.script == [] then [] else s.script[1..], log := s.log + [e])
  }

  // ---- keeping errors

  function Retain(s: State, error: Error): State {
    s.(errors := s.errors + [error])
  }

  function RetainOnce(s: State, marker: Marker, error: Error): State {
    if (s.next, marker) in s.retained then s
    else Retain(s.(retained := s.retained + {(s.next, marker)}), error)
  }

  function RetainRetryError(s: State, error: Error): State {
    if s.retryErrorRetained then s else Retain(s.(retryErrorRetained := true), error)
  }

  function Advance(s: State): State {
    s.(next := s.next + 1, retries := 0, retryErrorRetained := false)
  }

  // ---- one action

  /** A completion probe: an error in it is kept once and counts as not complete. */
  function Probe(s: State): (bool, State) {
    var r := Response0(s);
    var complete := r.Answers? && r.answer;
    var called := Consumed(s, Seen(s.next, complete));
    (complete, if r.Raises? then RetainOnce(called, CompletionObservation, r.error) else called)
  }

  function Attempt(s: State): (Option<Error>, State) {
    var r := Response0(s);
    (if r.Raises? then Some(r.error) else None, Consumed(s, Called(s.next)))
  }

  function RunPlain(s: State): State {
    var (error, called) := Attempt(s);
    var advanced := called.(next := s.next + 1);
    if error.Some? then Retain(advanced, error.value) else advanced
  }

  /** The last retry is spent: the action is looked at once more and left behind. */
  function Exhaust(s: State): State {
    Advance(Probe(RetainOnce(s, RetriesExhausted, EXHAUSTED)).1)
  }

  function Retry(s: State, error: Error): State {
    var kept := RetainRetryError(s, error);
    if kept.retries >= MAX_RETRIES then Exhaust(kept) else kept.(retries := kept.retries + 1)
  }

  function RetainRaised(s: State, error: Option<Error>): State {
    if error.Some? then RetainRetryError(s, error.value) else s
  }

  /** The end of an attempt, once the retry policy has answered. */
  function Conclude(s: State, error: Option<Error>, completed: bool, retry: bool): State {
    if completed then Advance(RetainRaised(s, error))
    else if retry then Retry(s, if error.Some? then error.value else UNCAUSED)
    else Advance(RetainOnce(RetainRaised(s, error), DidNotComplete, INCOMPLETE))
  }

  /** The retry policy is asked before the completion seen is acted on; an error in it
      ends the pass, which is resumed at the same action. */
  function Judge(s: State, policy: Policy, error: Option<Error>, completed: bool): State {
    match policy
    case Never => Conclude(s, error, completed, false)
    case OnCancellation => Conclude(s, error, completed, error.Some? && error.value.cancellation)
    case Callable =>
      var r := Response0(s);
      var asked := Consumed(s, Asked(s.next));
      if r.Raises? then Retry(asked, r.error) else Conclude(asked, error, completed, r.answer)
  }

  function RunRetryable(s: State, policy: Policy): State {
    var (already, probed) := Probe(s);
    if already then Advance(probed)
    else
      var (error, called) := Attempt(probed);
      var (completed, seen) := Probe(called);
      Judge(seen, policy, error, completed)
  }

  /** One turn of the loop of a pass. */
  function Turn(actions: seq<Action>, s: State): State
    requires s.next < |actions|
  {
    match actions[s.next]
    case Plain => RunPlain(s)
    case Retryable(policy) => RunRetryable(s, policy)
  }

  /** A turn moves to the next action, or spends a retry of this one. */
  predicate Progresses(s: State, t: State) {
    && t.retries <= MAX_RETRIES
    && (t.next == s.next + 1 || (t.next == s.next && t.retries == s.retries + 1))
  }

  lemma {:induction false} ProbeStays(s: State)
    ensures var t := Probe(s).1;
            t.next == s.next && t.retries == s.retries && t.retryErrorRetained == s.retryErrorRetained
  {
  }

  lemma {:induction false} ExhaustProgresses(s: State)
    ensures var t := Exhaust(s); t.next == s.next + 1 && t.retries == 0
  {
    ProbeStays(RetainOnce(s, RetriesExhausted, EXHAUSTED));
  }

  lemma {:induction false} RetryProgresses(s: State, error: Error)
    requires s.retries <= MAX_RETRIES
    ensures Progresses(s, Retry(s, error))
  {
    var kept := RetainRetryError(s, error);
    assert kept.next == s.next && kept.retries == s.retries;
    ExhaustProgresses(kept);
  }

  lemma {:induction false} ConcludeProgresses(s: State, error: Option<Error>, completed: bool, retry: bool)
    requires s.retries <= MAX_RETRIES
    ensures Progresses(s, Conclude(s, error, completed, retry))
  {
    RetryProgresses(s, if error.Some? then error.value else UNCAUSED);
  }

  lemma {:induction false} JudgeProgresses(s: State, policy: Policy, error: Option<Error>, completed: bool)
    requires s.retries <= MAX_RETRIES
    ensures Progresses(s, Judge(s, policy, error, completed))
  {
    var asked := Consumed(s, Asked(s.next));
    match policy
    case Never => ConcludeProgresses(s, error, completed, false);
    case OnCancellation => ConcludeProgresses(s, error, completed, error.Some? && error.value.cancellation);
    case Callable =>
      var r := Response0(s);
      if r.Raises? {
        RetryProgresses(asked, r.error);
      } else {
        ConcludeProgresses(asked, error, completed, r.answer);
      }
  }

  lemma {:induction false} TurnProgresses(actions: seq<Action>, s: State)
    requires s.next < |actions| && s.retries <= MAX_RETRIES
    ensures Progresses(s, Turn(actions, s))
  {
    if actions[s.next].Retryable? {
      var (already, probed) := Probe(s);
      ProbeStays(s);
      if !already {
        var (error, called) := Attempt(probed);
        var (completed, seen) := Probe(called);
        ProbeStays(called);
        JudgeProgresses(seen, actions[s.next].policy, error, completed);
      }
    }
  }

  /** The whole run: it ends whatever the callees do. */
  function Run(actions: seq<Action>, s: State): State
    requires s.retries <= MAX_RETRIES
    decreases |actions| - s.next, MAX_RETRIES - s.retries
  {
    if s.next >= |actions| then s
    else
      TurnProgresses(actions, s);
      Run(actions, Turn(actions, s))
  }

  function Start(primary: Option<Error>, script: seq<Response>): State {
    State(0, 0, false, if primary.Some? then [primary.value] else [], {}, script, [])
  }

  // ---- what one turn leaves behind

  /** Errors are only added, and the calls made are these. */
  predicate Grows(s: State, t: State, made: seq<Event>) {
    s.errors <= t.errors && t.log == s.log + made
  }

  /** After an attempt there is at most the last look at an action that is given up. */
  predicate Closes(n: nat, next: nat, made: seq<Event>) {
    made == [] || (next == n + 1 && (made == [Seen(n, false)] || made == [Seen(n, true)]))
  }

  lemma {:induction false} RetainGrows(s: State, marker: Marker, error: Error)
    ensures Grows(s, RetainOnce(s, marker, error), []) && Grows(s, RetainRetryError(s, error), [])
  {
  }

  lemma {:induction false} ProbeGrows(s: State)
    ensures var (complete, t) := Probe(s); Grows(s, t, [Seen(s.next, complete)]) && t.next == s.next
  {
  }

  lemma {:induction false} ExhaustGrows(s: State) returns (made: seq<Event>)
    ensures Grows(s, Exhaust(s), made) && Exhaust(s).next == s.next + 1
    ensures made == [Seen(s.next, false)] || made == [Seen(s.next, true)]
  {
    var kept := RetainOnce(s, RetriesExhausted, EXHAUSTED);
    RetainGrows(s, RetriesExhausted, EXHAUSTED);
    ProbeGrows(kept);
    made := [Seen(s.next, Probe(kept).0)];
    assert kept.log == s.log;
  }

  lemma {:induction false} RetryGrows(s: State, error: Error) returns (made: seq<Event>)
    ensures Grows(s, Retry(s, error), made) && Closes(s.next, Retry(s, error).next, made)
  {
    var kept := RetainRetryError(s, error);
    RetainGrows(s, RetriesExhausted, error);
    if kept.retries >= MAX_RETRIES {
      made := ExhaustGrows(kept);
      assert kept.log == s.log && kept.next == s.next;
    } else {
      made := [];
    }
  }

  lemma {:induction false} ConcludeGrows(s: State, error: Option<Error>, completed: bool, retry: bool)
    returns (made: seq<Event>)
    ensures var t := Conclude(s, error, completed, retry);
            && Grows(s, t, made) && Closes(s.next, t.next, made)
            && (completed ==> t.next == s.next + 1 && made == [])
  {
    if !completed && retry {
      made := RetryGrows(s, if error.Some? then error.value else UNCAUSED);
    } else {
      made := [];
      if error.Some? {
        RetainGrows(s, DidNotComplete, error.value);
      }
      RetainGrows(RetainRaised(s, error), DidNotComplete, INCOMPLETE);
    }
  }

  lemma {:induction false} JudgeGrows(s: State, policy: Policy, error: Option<Error>, completed: bool)
    returns (asked: seq<Event>, made: seq<Event>)
    ensures var t := Judge(s, policy, error, completed);
            && Grows(s, t, asked + made) && Closes(s.next, t.next, made)
            && asked == (if policy.Callable? then [Asked(s.next)] else [])
            && (completed && !policy.Callable? ==> t.next == s.next + 1 && made == [])
  {
    match policy
    case Never =>
      asked := [];
      made := ConcludeGrows(s, error, completed, false);
      assert [] + made == made;
    case OnCancellation =>
      asked := [];
      made := ConcludeGrows(s, error, completed, error.Some? && error.value.cancellation);
      assert [] + made == made;
    case Callable =>
      asked := [Asked(s.next)];
      var r, t := Response0(s), Consumed(s, Asked(s.next));
      if r.Raises? {
        made := RetryGrows(t, r.error);
      } else {
        made := ConcludeGrows(t, error, completed, r.answer);
      }
      assert (s.log + asked) + made == s.log + (asked + made);
  }

  /** The calls of one turn of a retryable action: already complete, or one attempt
      between two looks, then perhaps the policy and perhaps the last look. */
  datatype TurnLog = Already | Attempted(completed: bool, asked: seq<Event>, closing: seq<Event>)

  function Calls(n: nat, l: TurnLog): seq<Event> {
    match l
    case Already => [Seen(n, true)]
    case Attempted(c, asked, closing) => [Seen(n, false), Called(n), Seen(n, c)] + (asked + closing)
  }

  predicate TurnFits(n: nat, next: nat, policy: Policy, l: TurnLog) {
    match l
    case Already => next == n + 1
    case Attempted(c, asked, closing) =>
      && asked == (if policy.Callable? then [Asked(n)] else [])
      && Closes(n, next, closing)
      && (c && !policy.Callable? ==> next == n + 1 && closing == [])
  }

  lemma {:induction false} RetryableTurn(s: State, policy: Policy) returns (l: TurnLog)
    ensures var t := RunRetryable(s, policy);
            Grows(s, t, Calls(s.next, l)) && TurnFits(s.next, t.next, policy, l)
  {
    var (already, probed) := Probe(s);
    ProbeGrows(s);
    if already {
      l := Already;
    } else {
      var (error, called) := Attempt(probed);
      var (completed, seen) := Probe(called);
      ProbeGrows(called);
      var asked, closing := JudgeGrows(seen, policy, error, completed);
      l := Attempted(completed, asked, closing);
      Regroup(s.log, Seen(s.next, false), Called(s.next), Seen(s.next, completed), asked + closing);
    }
  }

  lemma {:induction false} Regroup(log: seq<Event>, a: Event, b: Event, c: Event, rest: seq<Event>)
    ensures (((log + [a]) + [b]) + [c]) + rest == log + ([a, b, c] + rest)
  {
  }

  lemma {:induction false} PlainTurn(s: State)
    ensures Grows(s, RunPlain(s), [Called(s.next)]) && RunPlain(s).next == s.next + 1
  {
  }

  // ---- whole runs

  function Count(log: seq<Event>, e: Event): nat {
    multiset(log)[e]
  }

  lemma {:induction false} CountAdds(a: seq<Event>, b: seq<Event>, e: Event)
    ensures Count(a + b, e) == Count(a, e) + Count(b, e)
  {
  }

  lemma {:induction false} TurnCallsOnce(n: nat, next: nat, policy: Policy, l: TurnLog, i: nat)
    requires TurnFits(n, next, policy, l)
    ensures Count(Calls(n, l), Called(i)) == if l.Attempted? && i == n then 1 else 0
  {
    if l.Attempted? {
      CountAdds([Seen(n, false), Called(n), Seen(n, l.completed)], l.asked + l.closing, Called(i));
      CountAdds(l.asked, l.closing, Called(i));
      assert Count(l.closing, Called(i)) == 0 && Count(l.asked, Called(i)) == 0;
    }
  }

  /** A turn calls the action it is at, at most once and a plain one exactly once. */
  lemma {:induction false} TurnCounts(actions: seq<Action>, s: State, i: nat)
    requires s.next < |actions| && s.retries <= MAX_RETRIES
    ensures var before, after := Count(s.log, Called(i)), Count(Turn(actions, s).log, Called(i));
            && before <= after <= before + (if i == s.next then 1 else 0)
            && (i == s.next && actions[i].Plain? ==> after == before + 1)
  {
    match actions[s.next]
    case Plain =>
      PlainTurn(s);
      CountAdds(s.log, [Called(s.next)], Called(i));
    case Retryable(policy) =>
      var l := RetryableTurn(s, policy);
      TurnCallsOnce(s.next, RunRetryable(s, policy).next, policy, l, i);
      CountAdds(s.log, Calls(s.next, l), Called(i));
  }

  /** Main result: plain actions run exactly once, retryable ones at most nine times. */
  lemma {:induction false} RunCounts(actions: seq<Action>, s: State, i: nat)
    requires s.retries <= MAX_RETRIES && i < |actions|
    ensures var before, after := Count(s.log, Called(i)), Count(Run(actions, s).log, Called(i));
            && (i < s.next ==> after == before)
            && (i >= s.next && actions[i].Plain? ==> after == before + 1)
            && (i >= s.next && actions[i].Retryable? ==>
                  before <= after <= before + MAX_RETRIES + 1 - (if i == s.next then s.retries else 0))
    decreases |actions| - s.next, MAX_RETRIES - s.retries
  {
    if s.next < |actions| {
      var t := Turn(actions, s);
      TurnProgresses(actions, s);
      TurnCounts(actions, s, i);
      if actions[s.next].Plain? {
        PlainTurn(s);
      }
      RunCounts(actions, t, i);
    }
  }

  /** Main result: a run passes every action before it ends. */
  lemma {:induction false} RunEnds(actions: seq<Action>, s: State)
    requires s.retries <= MAX_RETRIES
    ensures Run(actions, s).next >= |actions|
    decreases |actions| - s.next, MAX_RETRIES - s.retries
  {
    if s.next < |actions| {
      TurnProgresses(actions, s);
      RunEnds(actions, Turn(actions, s));
    }
  }

  lemma {:induction false} TurnGrows(actions: seq<Action>, s: State) returns (made: seq<Event>)
    requires s.next < |actions|
    ensures Grows(s, Turn(actions, s), made)
    ensures made != [] && forall e :: e in made ==> e.index == s.next
    ensures actions[s.next].Retryable? ==> Seen(s.next, true) in made || Seen(s.next, false) in made
  {
    match actions[s.next]
    case Plain =>
      PlainTurn(s);
      made := [Called(s.next)];
    case Retryable(policy) =>
      var l := RetryableTurn(s, policy);
      made := Calls(s.next, l);
      assert l.Already? ==> made[0] == Seen(s.next, true);
      assert l.Attempted? ==> made[0] == Seen(s.next, false);
  }

  /** Main result: errors are kept in the order they come, so the first one, or the
      primary error given at the start, is never replaced. */
  lemma {:induction false} FirstErrorWins(actions: seq<Action>, s: State)
    requires s.retries <= MAX_RETRIES
    ensures s.errors <= Run(actions, s).errors
    ensures Primary(s).Some? ==> Primary(Run(actions, s)) == Primary(s)
    decreases |actions| - s.next, MAX_RETRIES - s.retries
  {
    if s.next < |actions| {
      TurnProgresses(actions, s);
      var made := TurnGrows(actions, s);
      FirstErrorWins(actions, Turn(actions, s));
    }
  }

  /** The calls go through the actions in order. */
  ghost predicate InOrder(log: seq<Event>) {
    forall a, b :: 0 <= a < b < |log| ==> log[a].index <= log[b].index
  }

  ghost predicate UpTo(log: seq<Event>, n: nat) {
    forall e :: e in log ==> e.index <= n
  }

  lemma {:induction false} OrderGrows(log: seq<Event>, made: seq<Event>, n: nat)
    requires InOrder(log) && UpTo(log, n) && forall e :: e in made ==> e.index == n
    ensures InOrder(log + made) && UpTo(log + made, n)
  {
    var all := log + made;
    forall a, b | 0 <= a < b < |all| ensures all[a].index <= all[b].index {
      assert a < |log| ==> all[a] in log;
      assert a >= |log| ==> all[a] in made;
      assert b >= |log| ==> all[b] in made;
    }
  }

  /** Main result: actions are processed in order. */
  lemma {:induction false} RunsInOrder(actions: seq<Action>, s: State)
    requires s.retries <= MAX_RETRIES && InOrder(s.log) && UpTo(s.log, s.next)
    ensures InOrder(Run(actions, s).log)
    decreases |actions| - s.next, MAX_RETRIES - s.retries
  {
    if s.next < |actions| {
      var t := Turn(actions, s);
      TurnProgresses(actions, s);
      var made := TurnGrows(actions, s);
      OrderGrows(s.log, made, s.next);
      RunsInOrder(actions, t);
    }
  }

  // ---- is a completion that has been seen final?

  /** An action is called after a probe of it has said that it is complete. */
  predicate CalledOnceComplete(log: seq<Event>) {
    exists a, b :: 0 <= a < b < |log| && log[a] == Seen(log[b].index, true) && log[b].Called?
  }

  predicate HasCallablePolicy(actions: seq<Action>) {
    exists k :: 0 <= k < |actions| && actions[k] == Retryable(Callable)
  }

  /** The actions at the cursor and after it have not been seen complete. */
  ghost predicate Unseen(log: seq<Event>, n: nat) {
    forall e :: e in log && e.Seen? && e.complete ==> e.index < n
  }

  lemma {:induction false} UnseenGrows(log: seq<Event>, made: seq<Event>, n: nat, next: nat)
    requires !CalledOnceComplete(log) && Unseen(log, n) && next >= n
    requires forall e :: e in made ==> e.index == n
    requires Seen(n, true) in made ==> next == n + 1
    requires forall a, b :: 0 <= a < b < |made| && made[a] == Seen(n, true) ==> !made[b].Called?
    ensures !CalledOnceComplete(log + made) && Unseen(log + made, next)
  {
    var all := log + made;
    forall a, b | 0 <= a < b < |all| ensures !(all[a] == Seen(all[b].index, true) && all[b].Called?) {
      assert a < |log| ==> all[a] in log;
      assert b < |log| ==> all[b] == log[b] && all[a] == log[a];
      assert b >= |log| ==> all[b] in made && all[b] == made[b - |log|];
      assert a >= |log| ==> all[a] == made[a - |log|];
    }
  }

  lemma {:induction false} TurnKeepsUnseen(actions: seq<Action>, s: State)
    requires s.next < |actions| && actions[s.next] != Retryable(Callable) && s.retries <= MAX_RETRIES
    requires !CalledOnceComplete(s.log) && Unseen(s.log, s.next)
    ensures var t := Turn(actions, s); !CalledOnceComplete(t.log) && Unseen(t.log, t.next)
  {
    var n, t := s.next, Turn(actions, s);
    TurnProgresses(actions, s);
    match actions[n]
    case Plain =>
      PlainTurn(s);
      UnseenGrows(s.log, [Called(n)], n, t.next);
    case Retryable(policy) =>
      var l := RetryableTurn(s, policy);
      if l.Attempted? {
        QuietEnd(n, t.next, policy, l);
      }
      UnseenGrows(s.log, Calls(n, l), n, t.next);
  }

  lemma {:induction false} QuietEnd(n: nat, next: nat, policy: Policy, l: TurnLog)
    requires TurnFits(n, next, policy, l) && l.Attempted? && !policy.Callable?
    ensures var made := Calls(n, l);
            && (forall e :: e in made ==> e.index == n)
            && (Seen(n, true) in made ==> next == n + 1)
            && (forall a, b :: 0 <= a < b < |made| && made[a] == Seen(n, true) ==> !made[b].Called?)
  {
    assert l.asked + l.closing == l.closing;
    assert Calls(n, l) == [Seen(n, false), Called(n), Seen(n, l.completed)] + l.closing;
  }

  lemma {:induction false} RunKeepsUnseen(actions: seq<Action>, s: State)
    requires !HasCallablePolicy(actions) && s.retries <= MAX_RETRIES
    requires !CalledOnceComplete(s.log) && Unseen(s.log, s.next)
    ensures !CalledOnceComplete(Run(actions, s).log)
    decreases |actions| - s.next, MAX_RETRIES - s.retries
  {
    if s.next < |actions| {
      TurnProgresses(actions, s);
      TurnKeepsUnseen(actions, s);
      RunKeepsUnseen(actions, Turn(actions, s));
    }
  }

  lemma {:induction false} LogOnlyGrows(actions: seq<Action>, s: State)
    requires s.retries <= MAX_RETRIES
    ensures s.log <= Run(actions, s).log
    decreases |actions| - s.next, MAX_RETRIES - s.retries
  {
    if s.next < |actions| {
      TurnProgresses(actions, s);
      var made := TurnGrows(actions, s);
      LogOnlyGrows(actions, Turn(actions, s));
    }
  }

  /** A benign response takes the run past an action. */
  lemma {:induction false} BenignTurn(actions: seq<Action>, s: State)
    requires s.next < |actions| && s.script != [] && s.script[0] == Answers(true) && s.retries == 0
    ensures var t := Turn(actions, s); t.next == s.next + 1 && t.retries == 0 && t.script == s.script[1..]
  {
  }

  /** A probe says complete, the callable policy raises, the next probe says not
      complete: the action is called again. */
  lemma {:induction false} PolicyRaises(s: State, error: Error) returns (t: State, u: State)
    requires s.retries == 0
    requires s.script == [Answers(false), Answers(true), Answers(true), Raises(error), Answers(false)]
    ensures t == RunRetryable(s, Callable) && t.next == s.next && t.retries == 1
    ensures u == RunRetryable(t, Callable)
    ensures CalledOnceComplete(u.log)
  {
    var n := s.next;
    t, u := RunRetryable(s, Callable), RunRetryable(RunRetryable(s, Callable), Callable);
    FirstOfTwo(s, error, t);
    var l := RetryableTurn(t, Callable);
    assert l.Attempted?;
    var more := Calls(n, l);
    assert more[1] == Called(n);
    var a, b := |s.log| + 2, |t.log| + 1;
    assert u.log == t.log + more;
    assert u.log[a] == Seen(n, true) && u.log[b] == Called(n);
  }

  lemma {:induction false} FirstOfTwo(s: State, error: Error, t: State)
    requires s.retries == 0 && t == RunRetryable(s, Callable)
    requires s.script == [Answers(false), Answers(true), Answers(true), Raises(error), Answers(false)]
    ensures t.next == s.next && t.retries == 1 && t.script == [Answers(false)]
    ensures t.log == s.log + [Seen(s.next, false), Called(s.next), Seen(s.next, true), Asked(s.next)]
  {
    var (already, probed) := Probe(s);
    assert probed.script == [Answers(true), Answers(true), Raises(error), Answers(false)];
    var (failed, called) := Attempt(probed);
    assert called.script == [Answers(true), Raises(error), Answers(false)];
    var (completed, seen) := Probe(called);
    assert seen.script == [Raises(error), Answers(false)];
  }

  function Trap(k: nat, error: Error): seq<Response> {
    if k == 0 then [Answers(false), Answers(true), Answers(true), Raises(error), Answers(false)]
    else [Answers(true)] + Trap(k - 1, error)
  }

  lemma {:induction false} StaysCalled(log: seq<Event>, longer: seq<Event>)
    requires CalledOnceComplete(log) && log <= longer
    ensures CalledOnceComplete(longer)
  {
    var a, b :| 0 <= a < b < |log| && log[a] == Seen(log[b].index, true) && log[b].Called?;
    assert longer[a] == log[a] && longer[b] == log[b];
  }

  lemma {:induction false} TrapSprings(actions: seq<Action>, s: State, k: nat, error: Error)
    requires s.next + k < |actions| && actions[s.next + k] == Retryable(Callable) && s.retries == 0
    requires s.script == Trap(k, error)
    ensures CalledOnceComplete(Run(actions, s).log)
    decreases k
  {
    if k == 0 {
      var t, u := PolicyRaises(s, error);
      TurnProgresses(actions, t);
      LogOnlyGrows(actions, u);
      assert Run(actions, s) == Run(actions, t) == Run(actions, u);
      StaysCalled(u.log, Run(actions, s).log);
    } else {
      BenignTurn(actions, s);
      TrapSprings(actions, Turn(actions, s), k - 1, error);
    }
  }

  /**
   Main result: whether an action can be called again after it has been seen complete
   depends on the retry policies alone. It can not, whatever the callees do, exactly
   when no retryable action brings a callable policy of its own.
   */
  lemma {:induction false} CompletionIsFinal(actions: seq<Action>)
    ensures (forall primary, script :: !CalledOnceComplete(Run(actions, Start(primary, script)).log))
            <==> !HasCallablePolicy(actions)
  {
    if HasCallablePolicy(actions) {
      var k: nat :| k < |actions| && actions[k] == Retryable(Callable);
      var error := Error(0, false);
      TrapSprings(actions, Start(None, Trap(k, error)), k, error);
    } else {
      forall primary, script ensures !CalledOnceComplete(Run(actions, Start(primary, script)).log) {
        RunKeepsUnseen(actions, Start(primary, script));
      }
    }
  }
}
