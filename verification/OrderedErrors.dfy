/**
 Which errors a cleanup run keeps: a run ends without one exactly when nothing raised
 and every attempt was followed by completion, and what plain actions raise is kept
 as it comes.
 */
module OrderedErrors {
  import opened Options
  import opened OrderedCleanup

  // ---- the calls of a run and what they were answered

  /** What the callee of call number `k` does. */
  function ResponseTo(script: seq<Response>, k: nat): Response {
    if k < |script| then script[k] else Answers(true)
  }

  /** The script is consumed call by call. */
  predicate InStep(script: seq<Response>, s: State) {
    s.script == if |s.log| <= |script| then script[|s.log|..] else []
  }

  ghost predicate NothingRaised(script: seq<Response>, from: nat, to: nat) {
    forall k :: from <= k < to ==> !ResponseTo(script, k).Raises?
  }

  /** Whatever was attempted was seen complete just after. */
  ghost predicate AttemptsComplete(actions: seq<Action>, log: seq<Event>, from: nat) {
    forall k :: from <= k < |log| && IsAttempt(actions, log[k]) ==> k + 1 < |log| && log[k + 1] == Seen(log[k].index, true)
  }

  predicate IsAttempt(actions: seq<Action>, e: Event) {
    e.Called? && e.index < |actions| && actions[e.index].Retryable?
  }

  lemma {:induction false} NextResponse(script: seq<Response>, s: State, e: Event)
    requires InStep(script, s)
    ensures Response0(s) == ResponseTo(script, |s.log|)
    ensures InStep(script, Consumed(s, e)) && Consumed(s, e).log == s.log + [e]
  {
  }

  // ---- one turn

  /** No error has been kept since the start. */
  predicate Quiet(s: State, base: seq<Error>) {
    s.errors == base && s.retained == {} && !s.retryErrorRetained && s.retries == 0
  }

  /** A turn that keeps no error, and one that does. */
  ghost predicate WentWell(actions: seq<Action>, script: seq<Response>, s: State, t: State) {
    NothingRaised(script, |s.log|, |t.log|) && AttemptsComplete(actions, t.log, |s.log|)
  }

  /** What a turn makes of a state without errors. */
  ghost predicate Tells(actions: seq<Action>, script: seq<Response>, s: State, t: State, base: seq<Error>) {
    && InStep(script, t) && s.log <= t.log && base <= t.errors
    && (t.errors == base <==> WentWell(actions, script, s, t))
    && (t.errors == base ==> Quiet(t, base) && t.next == s.next + 1)
    && (t.errors == base && s.next < |actions| && actions[s.next].Retryable? ==> Seen(s.next, true) in t.log)
  }

  lemma {:induction false} PlainTells(actions: seq<Action>, script: seq<Response>, s: State, base: seq<Error>)
    requires s.next < |actions| && actions[s.next].Plain? && Quiet(s, base) && InStep(script, s)
    ensures Tells(actions, script, s, RunPlain(s), base)
  {
    var t := RunPlain(s);
    NextResponse(script, s, Called(s.next));
    assert t.log == s.log + [Called(s.next)];
  }

  lemma {:induction false} RaisedIsNotWell(actions: seq<Action>, script: seq<Response>, s: State, t: State, k: nat)
    requires |s.log| <= k < |t.log| && ResponseTo(script, k).Raises?
    ensures !WentWell(actions, script, s, t)
  {
  }

  /** The calls of one turn of a retryable action that is attempted. */
  predicate Attempted(s: State, t: State, completed: bool) {
    && |t.log| >= |s.log| + 3 && s.log <= t.log
    && t.log[|s.log|] == Seen(s.next, false) && t.log[|s.log| + 1] == Called(s.next)
    && t.log[|s.log| + 2] == Seen(s.next, completed)
    && forall k :: |s.log| + 3 <= k < |t.log| ==> !t.log[k].Called?
  }

  lemma {:induction false} AttemptedWell(actions: seq<Action>, s: State, t: State, completed: bool)
    requires s.next < |actions| && actions[s.next].Retryable? && Attempted(s, t, completed)
    ensures AttemptsComplete(actions, t.log, |s.log|) <==> completed
  {
    var k := |s.log| + 1;
    assert IsAttempt(actions, t.log[k]);
  }

  lemma {:induction false} RetryKeeps(s: State, error: Error, script: seq<Response>)
    requires !s.retryErrorRetained && InStep(script, s)
    ensures var t := Retry(s, error);
            && InStep(script, t) && s.log <= t.log && s.errors + [error] <= t.errors
            && forall k :: |s.log| <= k < |t.log| ==> !t.log[k].Called?
  {
    var kept := RetainRetryError(s, error);
    if kept.retries >= MAX_RETRIES {
      var last := RetainOnce(kept, RetriesExhausted, EXHAUSTED);
      NextResponse(script, last, Seen(last.next, Response0(last) == Answers(true)));
      ProbeGrows(last);
    }
  }

  lemma {:induction false} ConcludeTells(s: State, base: seq<Error>, error: Option<Error>, completed: bool, retry: bool, script: seq<Response>)
    requires Quiet(s, base) && InStep(script, s)
    ensures var t := Conclude(s, error, completed, retry);
            && InStep(script, t) && s.log <= t.log && base <= t.errors
            && (forall k :: |s.log| <= k < |t.log| ==> !t.log[k].Called?)
            && (t.errors == base <==> completed && error.None?)
            && (t.errors == base ==> Quiet(t, base) && t.next == s.next + 1 && t.log == s.log)
  {
    if !completed && retry {
      RetryKeeps(s, if error.Some? then error.value else UNCAUSED, script);
    }
  }

  /** What the end of a turn makes of a state without errors, after `n` calls of which
      those that could raise have not. */
  ghost predicate Ends(s: State, t: State, base: seq<Error>, well: bool, script: seq<Response>) {
    && InStep(script, t) && s.log <= t.log && base <= t.errors
    && (forall k :: |s.log| <= k < |t.log| ==> !t.log[k].Called?)
    && (t.errors == base <==> well && NothingRaised(script, |s.log|, |t.log|))
    && (t.errors == base ==> Quiet(t, base) && t.next == s.next + 1)
  }

  lemma {:induction false} ConcludeEnds(s: State, base: seq<Error>, error: Option<Error>, completed: bool, retry: bool, script: seq<Response>)
    requires Quiet(s, base) && InStep(script, s)
    ensures Ends(s, Conclude(s, error, completed, retry), base, completed && error.None?, script)
  {
    ConcludeTells(s, base, error, completed, retry, script);
    var t := Conclude(s, error, completed, retry);
    if completed && error.None? {
      assert t.log == s.log;
    }
  }

  lemma {:induction false} AskedEnds(s: State, asked: State, t: State, base: seq<Error>, well: bool, script: seq<Response>)
    requires asked.log == s.log + [Asked(s.next)] && asked.next == s.next && !ResponseTo(script, |s.log|).Raises?
    requires Ends(asked, t, base, well, script)
    ensures Ends(s, t, base, well, script)
  {
    assert t.log[|s.log|] == asked.log[|s.log|];
    assert NothingRaised(script, |s.log|, |t.log|) <==> NothingRaised(script, |asked.log|, |t.log|);
  }

  lemma {:induction false} RefusedEnds(s: State, asked: State, base: seq<Error>, well: bool, script: seq<Response>)
    requires Quiet(asked, base) && InStep(script, asked) && asked.log == s.log + [Asked(s.next)]
    requires ResponseTo(script, |s.log|).Raises?
    ensures Ends(s, Retry(asked, ResponseTo(script, |s.log|).error), base, well, script)
  {
    var t := Retry(asked, ResponseTo(script, |s.log|).error);
    RetryKeeps(asked, ResponseTo(script, |s.log|).error, script);
    assert t.log[|s.log|] == asked.log[|s.log|];
    assert |t.errors| > |base|;
  }

  lemma {:induction false} JudgeTells(s: State, base: seq<Error>, policy: Policy, error: Option<Error>, completed: bool, script: seq<Response>)
    requires Quiet(s, base) && InStep(script, s)
    ensures Ends(s, Judge(s, policy, error, completed), base, completed && error.None?, script)
  {
    match policy
    case Never => ConcludeEnds(s, base, error, completed, false, script);
    case OnCancellation => ConcludeEnds(s, base, error, completed, error.Some? && error.value.cancellation, script);
    case Callable =>
      var asked := Consumed(s, Asked(s.next));
      NextResponse(script, s, Asked(s.next));
      if Response0(s).Raises? {
        RefusedEnds(s, asked, base, completed && error.None?, script);
      } else {
        ConcludeEnds(asked, base, error, completed, Response0(s).answer, script);
        AskedEnds(s, asked, Judge(s, policy, error, completed), base, completed && error.None?, script);
      }
  }

  lemma {:induction false} ProbeTells(s: State, base: seq<Error>, script: seq<Response>)
    requires Quiet(s, base) && InStep(script, s)
    ensures var (complete, t) := Probe(s);
            && InStep(script, t) && t.log == s.log + [Seen(s.next, complete)] && t.next == s.next
            && complete == (ResponseTo(script, |s.log|) == Answers(true))
            && (if ResponseTo(script, |s.log|).Raises? then t.errors == base + [ResponseTo(script, |s.log|).error]
                else Quiet(t, base))
  {
    NextResponse(script, s, Seen(s.next, Response0(s).Answers? && Response0(s).answer));
  }

  // ---- a turn in which something has been kept already

  lemma {:induction false} RetryInStep(s: State, error: Error, script: seq<Response>)
    requires InStep(script, s)
    ensures InStep(script, Retry(s, error))
  {
    var kept := RetainRetryError(s, error);
    if kept.retries >= MAX_RETRIES {
      var last := RetainOnce(kept, RetriesExhausted, EXHAUSTED);
      NextResponse(script, last, Seen(last.next, Response0(last).Answers? && Response0(last).answer));
    }
  }

  lemma {:induction false} ConcludeInStep(s: State, error: Option<Error>, completed: bool, retry: bool, script: seq<Response>)
    requires InStep(script, s)
    ensures InStep(script, Conclude(s, error, completed, retry))
  {
    if !completed && retry {
      RetryInStep(s, if error.Some? then error.value else UNCAUSED, script);
    }
  }

  lemma {:induction false} JudgeInStep(s: State, policy: Policy, error: Option<Error>, completed: bool, script: seq<Response>)
    requires InStep(script, s)
    ensures InStep(script, Judge(s, policy, error, completed))
  {
    match policy
    case Never => ConcludeInStep(s, error, completed, false, script);
    case OnCancellation => ConcludeInStep(s, error, completed, error.Some? && error.value.cancellation, script);
    case Callable =>
      var asked := Consumed(s, Asked(s.next));
      NextResponse(script, s, Asked(s.next));
      if Response0(s).Raises? {
        RetryInStep(asked, Response0(s).error, script);
      } else {
        ConcludeInStep(asked, error, completed, Response0(s).answer, script);
      }
  }

  lemma {:induction false} ProbeInStep(s: State, script: seq<Response>)
    requires InStep(script, s)
    ensures InStep(script, Probe(s).1)
  {
    NextResponse(script, s, Seen(s.next, Response0(s).Answers? && Response0(s).answer));
  }

  /** What is kept before the policy is asked stays kept. */
  lemma {:induction false} JudgeEnds(seen: State, policy: Policy, error: Option<Error>, completed: bool, script: seq<Response>)
    requires InStep(script, seen)
    ensures var t := Judge(seen, policy, error, completed);
            InStep(script, t) && seen.errors <= t.errors && seen.log <= t.log
  {
    JudgeInStep(seen, policy, error, completed, script);
    var asked, made := JudgeGrows(seen, policy, error, completed);
  }

  lemma {:induction false} BadProbe(s: State, policy: Policy, script: seq<Response>)
    requires InStep(script, s) && !Probe(s).0
    ensures var probed := Probe(s).1; var t := RunRetryable(s, policy);
            InStep(script, t) && probed.errors <= t.errors && probed.log <= t.log
  {
    var (already, probed) := Probe(s);
    var (error, called) := Attempt(probed);
    var (completed, seen) := Probe(called);
    ProbeInStep(s, script);
    NextResponse(script, probed, Called(probed.next));
    ProbeInStep(called, script);
    ProbeGrows(called);
    JudgeEnds(seen, policy, error, completed, script);
  }

  // ---- a turn of a retryable action

  lemma {:induction false} AlreadyTells(actions: seq<Action>, script: seq<Response>, s: State, policy: Policy, base: seq<Error>)
    requires s.next < |actions| && Quiet(s, base) && InStep(script, s) && Probe(s).0
    ensures Tells(actions, script, s, RunRetryable(s, policy), base)
  {
    var t := RunRetryable(s, policy);
    ProbeTells(s, base, script);
    assert t.log == s.log + [Seen(s.next, true)] && t.log[|s.log|] == Seen(s.next, true);
  }

  lemma {:induction false} KeptTells(actions: seq<Action>, script: seq<Response>, s: State, t: State, base: seq<Error>, k: nat, e: Error)
    requires InStep(script, t) && s.log <= t.log && |s.log| <= k < |t.log| && ResponseTo(script, k).Raises?
    requires base + [e] <= t.errors
    ensures Tells(actions, script, s, t, base)
  {
    RaisedIsNotWell(actions, script, s, t, k);
  }

  /** Neither probe raised. */
  lemma {:induction false} JudgedTells(actions: seq<Action>, script: seq<Response>, s: State, seen: State, t: State, base: seq<Error>,
                                       policy: Policy, error: Option<Error>, completed: bool)
    requires s.next < |actions| && actions[s.next].Retryable? && seen.next == s.next
    requires Quiet(seen, base) && InStep(script, seen) && t == Judge(seen, policy, error, completed)
    requires seen.log == s.log + [Seen(s.next, false), Called(s.next), Seen(s.next, completed)]
    requires error.None? <==> NothingRaised(script, |s.log|, |s.log| + 3)
    ensures Tells(actions, script, s, t, base)
  {
    JudgeTells(seen, base, policy, error, completed, script);
    EndsAttempted(s, seen, t, completed);
    AttemptedWell(actions, s, t, completed);
    RaisedInParts(script, |s.log|, |s.log| + 3, |t.log|);
  }

  lemma {:induction false} RaisedInParts(script: seq<Response>, a: nat, b: nat, c: nat)
    requires a <= b <= c
    ensures NothingRaised(script, a, c) <==> NothingRaised(script, a, b) && NothingRaised(script, b, c)
  {
  }

  lemma {:induction false} EndsAttempted(s: State, seen: State, t: State, completed: bool)
    requires seen.log == s.log + [Seen(s.next, false), Called(s.next), Seen(s.next, completed)] && seen.log <= t.log
    requires forall k :: |seen.log| <= k < |t.log| ==> !t.log[k].Called?
    ensures Attempted(s, t, completed) && (completed ==> Seen(s.next, true) in t.log)
  {
    var n := |s.log|;
    assert t.log[n] == seen.log[n] && t.log[n + 1] == seen.log[n + 1] && t.log[n + 2] == seen.log[n + 2];
  }

  lemma {:induction false} RetryableTells(actions: seq<Action>, script: seq<Response>, s: State, policy: Policy, base: seq<Error>)
    requires s.next < |actions| && actions[s.next] == Retryable(policy) && Quiet(s, base) && InStep(script, s)
    ensures Tells(actions, script, s, RunRetryable(s, policy), base)
  {
    var n, t := |s.log|, RunRetryable(s, policy);
    var (already, probed) := Probe(s);
    ProbeTells(s, base, script);
    if already {
      AlreadyTells(actions, script, s, policy, base);
    } else if ResponseTo(script, n).Raises? {
      BadProbe(s, policy, script);
      KeptTells(actions, script, s, t, base, n, ResponseTo(script, n).error);
    } else {
      AttemptTells(actions, script, s, probed, policy, base);
    }
  }

  lemma {:induction false} ThreeCalls(log: seq<Event>, a: Event, b: Event, c: Event)
    ensures ((log + [a]) + [b]) + [c] == log + [a, b, c]
  {
  }

  lemma {:induction false} OneOfThree(script: seq<Response>, n: nat)
    requires !ResponseTo(script, n).Raises? && !ResponseTo(script, n + 2).Raises?
    ensures NothingRaised(script, n, n + 3) <==> !ResponseTo(script, n + 1).Raises?
  {
    assert NothingRaised(script, n, n + 3) ==> !ResponseTo(script, n + 1).Raises?;
  }

  lemma {:induction false} AttemptTells(actions: seq<Action>, script: seq<Response>, s: State, probed: State, policy: Policy, base: seq<Error>)
    requires s.next < |actions| && actions[s.next] == Retryable(policy) && probed.next == s.next
    requires Quiet(probed, base) && InStep(script, probed) && probed.log == s.log + [Seen(s.next, false)]
    requires !ResponseTo(script, |s.log|).Raises? && Probe(s) == (false, probed)
    ensures Tells(actions, script, s, RunRetryable(s, policy), base)
  {
    var (error, called) := Attempt(probed);
    NextResponse(script, probed, Called(probed.next));
    ProbeTells(called, base, script);
    ThreeCalls(s.log, Seen(s.next, false), Called(s.next), Seen(s.next, Probe(called).0));
    SeenTells(actions, script, s, Probe(called).1, RunRetryable(s, policy), base, policy, error, Probe(called).0);
  }

  /** An attempt between two looks, the first of which did not raise. */
  lemma {:induction false} SeenTells(actions: seq<Action>, script: seq<Response>, s: State, seen: State, t: State, base: seq<Error>,
                                     policy: Policy, error: Option<Error>, completed: bool)
    requires s.next < |actions| && actions[s.next] == Retryable(policy) && seen.next == s.next
    requires InStep(script, seen) && t == Judge(seen, policy, error, completed)
    requires seen.log == s.log + [Seen(s.next, false), Called(s.next), Seen(s.next, completed)]
    requires !ResponseTo(script, |s.log|).Raises? && (error.None? <==> !ResponseTo(script, |s.log| + 1).Raises?)
    requires var r := ResponseTo(script, |s.log| + 2);
             if r.Raises? then seen.errors == base + [r.error] else Quiet(seen, base)
    ensures Tells(actions, script, s, t, base)
  {
    var n := |s.log|;
    if ResponseTo(script, n + 2).Raises? {
      JudgeEnds(seen, policy, error, completed, script);
      KeptTells(actions, script, s, t, base, n + 2, ResponseTo(script, n + 2).error);
    } else {
      OneOfThree(script, n);
      JudgedTells(actions, script, s, seen, t, base, policy, error, completed);
    }
  }

  lemma {:induction false} TurnTells(actions: seq<Action>, script: seq<Response>, s: State, base: seq<Error>)
    requires s.next < |actions| && Quiet(s, base) && InStep(script, s)
    ensures Tells(actions, script, s, Turn(actions, s), base)
  {
    match actions[s.next]
    case Plain => PlainTells(actions, script, s, base);
    case Retryable(policy) => RetryableTells(actions, script, s, policy, base);
  }

  // ---- whole runs

  /** Each action from `from` on has been seen complete, if it can be. */
  ghost predicate AllSeenComplete(actions: seq<Action>, from: nat, log: seq<Event>) {
    forall i :: from <= i < |actions| && actions[i].Retryable? ==> Seen(i, true) in log
  }

  /** Logs put together. */
  lemma {:induction false} WellThroughout(actions: seq<Action>, script: seq<Response>, s: State, t: State, u: State)
    requires s.log <= t.log && t.log <= u.log && WentWell(actions, script, s, t)
    ensures WentWell(actions, script, t, u) <==> WentWell(actions, script, s, u)
  {
    if WentWell(actions, script, t, u) {
      forall k | |s.log| <= k < |u.log| && IsAttempt(actions, u.log[k])
        ensures k + 1 < |u.log| && u.log[k + 1] == Seen(u.log[k].index, true)
      {
        if k < |t.log| {
          assert t.log[k] == u.log[k];
        }
      }
    }
  }

  lemma {:induction false} NotWellStays(actions: seq<Action>, script: seq<Response>, s: State, t: State, u: State)
    requires s.log <= t.log && t.log <= u.log && !WentWell(actions, script, s, t)
    requires forall k :: |s.log| <= k < |t.log| && IsAttempt(actions, t.log[k]) ==> k + 1 < |t.log|
    ensures !WentWell(actions, script, s, u)
  {
    if NothingRaised(script, |s.log|, |t.log|) {
      var k :| |s.log| <= k < |t.log| && IsAttempt(actions, t.log[k])
               && !(k + 1 < |t.log| && t.log[k + 1] == Seen(t.log[k].index, true));
      assert u.log[k] == t.log[k] && u.log[k + 1] == t.log[k + 1];
    }
  }

  /** An attempt is never the last call of a turn. */
  lemma {:induction false} AttemptIsFollowed(actions: seq<Action>, s: State)
    requires s.next < |actions|
    ensures var t := Turn(actions, s);
            s.log <= t.log && forall k :: |s.log| <= k < |t.log| && IsAttempt(actions, t.log[k]) ==> k + 1 < |t.log|
  {
    match actions[s.next]
    case Plain => PlainTurn(s);
    case Retryable(policy) =>
      var l := RetryableTurn(s, policy);
  }

  lemma {:induction false} RunTells(actions: seq<Action>, script: seq<Response>, s: State, base: seq<Error>)
    requires Quiet(s, base) && InStep(script, s)
    ensures var t := Run(actions, s);
            && s.log <= t.log && (t.errors == base <==> WentWell(actions, script, s, t))
            && (t.errors == base ==> AllSeenComplete(actions, s.next, t.log))
    decreases |actions| - s.next
  {
    if s.next < |actions| {
      var t, u := Turn(actions, s), Run(actions, s);
      TurnTells(actions, script, s, base);
      TurnProgresses(actions, s);
      LogOnlyGrows(actions, t);
      if t.errors == base {
        RunTells(actions, script, t, base);
        WellThroughout(actions, script, s, t, u);
        StillSeen(actions, s.next, t.log, u.log);
      } else {
        FirstErrorWins(actions, t);
        AttemptIsFollowed(actions, s);
        NotWellStays(actions, script, s, t, u);
      }
    }
  }

  lemma {:induction false} StillSeen(actions: seq<Action>, n: nat, log: seq<Event>, longer: seq<Event>)
    requires n < |actions| && log <= longer && (actions[n].Retryable? ==> Seen(n, true) in log)
    ensures AllSeenComplete(actions, n + 1, longer) ==> AllSeenComplete(actions, n, longer)
  {
  }

  /**
   Main result: a run keeps no error besides the one it was given exactly when nothing
   that it called raised and everything it attempted was seen complete just after; and
   then every action that can be seen complete has been.
   */
  lemma {:induction false} EndsWithoutError(actions: seq<Action>, primary: Option<Error>, script: seq<Response>)
    ensures var start := Start(primary, script); var t := Run(actions, start);
            && (t.errors == start.errors <==>
                NothingRaised(script, 0, |t.log|) && AttemptsComplete(actions, t.log, 0))
            && (t.errors == start.errors ==> AllSeenComplete(actions, 0, t.log))
  {
    var start := Start(primary, script);
    RunTells(actions, script, start, start.errors);
  }

  /** To have been seen complete in the end is not enough: an attempt that is followed by
      a look that says not complete, and a policy that asks for a retry, leaves an error. */
  lemma {:induction false} RetryLeavesError()
    ensures var script := [Answers(false), Answers(true), Answers(false), Answers(true), Answers(true)];
            var t := Run([Retryable(Callable)], Start(None, script));
            && t.errors == [UNCAUSED] && NothingRaised(script, 0, |t.log|) && AllSeenComplete([Retryable(Callable)], 0, t.log)
  {
    var actions := [Retryable(Callable)];
    var script := [Answers(false), Answers(true), Answers(false), Answers(true), Answers(true)];
    var s := Start(None, script);
    var t := Turn(actions, s);
    FirstRound(s, t);
    var u := Turn(actions, t);
    assert u == RunRetryable(t, Callable);
    assert u.log == t.log + [Seen(0, true)] && u.next == 1 && u.errors == [UNCAUSED];
    assert u.log[4] == Seen(0, true);
    assert Run(actions, t) == Run(actions, u) == u;
  }

  lemma {:induction false} FirstRound(s: State, t: State)
    requires s == Start(None, [Answers(false), Answers(true), Answers(false), Answers(true), Answers(true)])
    requires t == RunRetryable(s, Callable)
    ensures t.next == 0 && t.retries == 1 && t.errors == [UNCAUSED] && t.script == [Answers(true)]
    ensures t.log == [Seen(0, false), Called(0), Seen(0, false), Asked(0)]
  {
    var (already, probed) := Probe(s);
    assert probed.script == [Answers(true), Answers(false), Answers(true), Answers(true)];
    var (error, called) := Attempt(probed);
    assert called.script == [Answers(false), Answers(true), Answers(true)];
    var (completed, seen) := Probe(called);
    assert seen.script == [Answers(true), Answers(true)];
  }

  // ---- plain actions

  function ErrorOf(r: Response): seq<Error> {
    if r.Raises? then [r.error] else []
  }

  /** The errors raised by the calls from `from` up to `to`, in order. */
  function RaisedBetween(script: seq<Response>, from: nat, to: nat): seq<Error>
    decreases to - from
  {
    if from >= to then [] else ErrorOf(ResponseTo(script, from)) + RaisedBetween(script, from + 1, to)
  }

  function CalledFrom(from: nat, to: nat): seq<Event>
    decreases to - from
  {
    if from >= to then [] else [Called(from)] + CalledFrom(from + 1, to)
  }

  lemma {:induction false} AsOne<T>(a: seq<T>, b: seq<T>, c: seq<T>)
    ensures (a + b) + c == a + (b + c)
  {
  }

  lemma {:induction false} PlainStep(script: seq<Response>, s: State)
    requires InStep(script, s)
    ensures var t := RunPlain(s);
            && InStep(script, t) && t.log == s.log + [Called(s.next)] && t.next == s.next + 1 && t.retries == s.retries
            && t.errors == s.errors + ErrorOf(ResponseTo(script, |s.log|))
  {
    NextResponse(script, s, Called(s.next));
  }

  lemma {:induction false} PlainRunKeeps(actions: seq<Action>, script: seq<Response>, s: State)
    requires (forall i :: 0 <= i < |actions| ==> actions[i].Plain?) && s.retries == 0
    requires InStep(script, s) && |s.log| == s.next <= |actions|
    ensures var t := Run(actions, s);
            && t.errors == s.errors + RaisedBetween(script, s.next, |actions|)
            && t.log == s.log + CalledFrom(s.next, |actions|)
    decreases |actions| - s.next
  {
    if s.next < |actions| {
      var t := RunPlain(s);
      PlainStep(script, s);
      assert Turn(actions, s) == t && Run(actions, s) == Run(actions, t);
      PlainRunKeeps(actions, script, t);
      AsOne(s.errors, ErrorOf(ResponseTo(script, s.next)), RaisedBetween(script, s.next + 1, |actions|));
      AsOne(s.log, [Called(s.next)], CalledFrom(s.next + 1, |actions|));
    }
  }

  /** Main result: plain actions are called once each, in order, and every error they
      raise is kept, in order, after the primary one. */
  lemma {:induction false} PlainErrorsAreKept(actions: seq<Action>, primary: Option<Error>, script: seq<Response>)
    requires forall i :: 0 <= i < |actions| ==> actions[i].Plain?
    ensures var start := Start(primary, script); var t := Run(actions, start);
            && t.errors == start.errors + RaisedBetween(script, 0, |actions|)
            && t.log == CalledFrom(0, |actions|)
  {
    PlainRunKeeps(actions, script, Start(primary, script));
  }

  // ---- an action that never completes

  /** Always cancelled, never complete. */
  function Stuck(attempts: nat, e: Error): seq<Response> {
    if attempts == 0 then [Answers(false)] else [Answers(false), Raises(e), Answers(false)] + Stuck(attempts - 1, e)
  }

  predicate Sticks(s: State, e: Error, first: bool) {
    && s.next == 0 && s.retries <= MAX_RETRIES && s.script == Stuck(MAX_RETRIES + 1 - s.retries, e)
    && (if first then s.errors == [] && s.retained == {} && !s.retryErrorRetained && s.retries == 0
        else s.errors == [e] && s.retained == {} && s.retryErrorRetained)
  }

  /** Two looks in a row, that after the last attempt and one more. */
  predicate LooksLast(log: seq<Event>) {
    |log| >= 2 && log[|log| - 1] == Seen(0, false) && log[|log| - 2] == Seen(0, false)
  }

  /** A cancelled attempt between two looks that say not complete. */
  lemma {:induction false} StuckSeen(s: State, e: Error, left: seq<Response>) returns (seen: State)
    requires e.cancellation && s.script == [Answers(false), Raises(e), Answers(false)] + left
    ensures seen == s.(script := left, log := ((s.log + [Seen(s.next, false)]) + [Called(s.next)]) + [Seen(s.next, false)])
    ensures RunRetryable(s, OnCancellation) == Retry(seen, e)
  {
    var (already, probed) := Probe(s);
    assert probed.script == [Raises(e), Answers(false)] + left;
    var (error, called) := Attempt(probed);
    assert called.script == [Answers(false)] + left;
    seen := Probe(called).1;
    assert seen.script == left;
  }

  lemma {:induction false} StuckRound(s: State, e: Error)
    requires e.cancellation && Sticks(s, e, s.retries == 0)
    ensures var t := RunRetryable(s, OnCancellation);
            && Count(t.log, Called(0)) == Count(s.log, Called(0)) + 1
            && (s.retries < MAX_RETRIES ==> Sticks(t, e, false) && t.retries == s.retries + 1)
            && (s.retries == MAX_RETRIES ==> t.next == 1 && t.errors == [e, EXHAUSTED] && LooksLast(t.log))
  {
    var seen := StuckSeen(s, e, Stuck(MAX_RETRIES - s.retries, e));
    StuckLog(s.log, Seen(0, false), Called(0), Seen(0, false));
    StuckEnd(seen, e);
  }

  lemma {:induction false} StuckLog(log: seq<Event>, a: Event, b: Event, c: Event)
    requires a.Seen? && b == Called(0) && c.Seen?
    ensures Count(((log + [a]) + [b]) + [c], Called(0)) == Count(log, Called(0)) + 1
  {
  }

  lemma {:induction false} StuckEnd(seen: State, e: Error)
    requires seen.next == 0 && seen.retries <= MAX_RETRIES && seen.retained == {} && seen.script == Stuck(MAX_RETRIES - seen.retries, e)
    requires if seen.retries == 0 then seen.errors == [] && !seen.retryErrorRetained else seen.errors == [e] && seen.retryErrorRetained
    requires seen.log != [] && seen.log[|seen.log| - 1] == Seen(0, false)
    ensures var t := Retry(seen, e);
            && Count(t.log, Called(0)) == Count(seen.log, Called(0))
            && (seen.retries < MAX_RETRIES ==>
                  t == seen.(retries := seen.retries + 1, errors := [e], retryErrorRetained := true))
            && (seen.retries == MAX_RETRIES ==> t.next == 1 && t.errors == [e, EXHAUSTED] && LooksLast(t.log))
  {
    var kept := RetainRetryError(seen, e);
    if seen.retries == MAX_RETRIES {
      var last := RetainOnce(kept, RetriesExhausted, EXHAUSTED);
      assert Response0(last) == Answers(false);
      CountAdds(seen.log, [Seen(0, false)], Called(0));
    }
  }

  lemma {:induction false} StuckRun(s: State, e: Error)
    requires e.cancellation && Sticks(s, e, s.retries == 0)
    ensures var t := Run([Retryable(OnCancellation)], s);
            && t.errors == [e, EXHAUSTED] && LooksLast(t.log)
            && Count(t.log, Called(0)) == Count(s.log, Called(0)) + (MAX_RETRIES + 1 - s.retries)
    decreases MAX_RETRIES - s.retries
  {
    var actions := [Retryable(OnCancellation)];
    var t := Turn(actions, s);
    assert t == RunRetryable(s, OnCancellation);
    StuckRound(s, e);
    TurnProgresses(actions, s);
    if s.retries < MAX_RETRIES {
      StuckRun(t, e);
    }
  }

  /** An action that is always cancelled and never complete is called nine times, and the
      run keeps the first cancellation and that the retries are spent; the last attempt
      is looked at twice. */
  lemma {:induction false} NineAttempts(e: Error)
    requires e.cancellation
    ensures var t := Run([Retryable(OnCancellation)], Start(None, Stuck(9, e)));
            t.errors == [e, EXHAUSTED] && Count(t.log, Called(0)) == 9 && LooksLast(t.log)
  {
    StuckRun(Start(None, Stuck(9, e)), e);
  }

  // ---- what is retried

  /** A policy that does not retry, or that nothing in the script makes retry. */
  ghost predicate NeverRetries(policy: Policy, script: seq<Response>) {
    policy.Never? || (policy.OnCancellation? && forall r :: r in script && r.Raises? ==> !r.error.cancellation)
  }

  lemma {:induction false} TurnMovesOn(s: State, policy: Policy)
    requires NeverRetries(policy, s.script)
    ensures RunRetryable(s, policy).next == s.next + 1
  {
    var (already, probed) := Probe(s);
    ProbeStays(s);
    if !already {
      var (error, called) := Attempt(probed);
      var (completed, seen) := Probe(called);
      ProbeStays(called);
      assert probed.script == if s.script == [] then [] else s.script[1..];
      assert error.Some? ==> Raises(error.value) in s.script;
      assert seen.next == s.next;
    }
  }

  lemma {:induction false} ScriptShrinks(actions: seq<Action>, script: seq<Response>, s: State)
    requires s.next < |actions| && InStep(script, s)
    ensures InStep(script, Turn(actions, s)) && forall r :: r in s.script ==> r in script
  {
    match actions[s.next]
    case Plain => PlainStep(script, s);
    case Retryable(policy) =>
      var (already, probed) := Probe(s);
      ProbeInStep(s, script);
      if !already {
        BadProbe(s, policy, script);
      }
  }

  lemma {:induction false} CalledOnceFrom(actions: seq<Action>, script: seq<Response>, s: State, i: nat)
    requires i < |actions| && actions[i].Retryable? && NeverRetries(actions[i].policy, script)
    requires InStep(script, s) && s.retries <= MAX_RETRIES
    ensures Count(Run(actions, s).log, Called(i)) <= Count(s.log, Called(i)) + (if s.next <= i then 1 else 0)
    decreases |actions| - s.next, MAX_RETRIES - s.retries
  {
    if s.next < |actions| {
      var t := Turn(actions, s);
      TurnProgresses(actions, s);
      TurnCounts(actions, s, i);
      ScriptShrinks(actions, script, s);
      if s.next == i {
        TurnMovesOn(s, actions[i].policy);
      }
      CalledOnceFrom(actions, script, t, i);
    }
  }

  /** Main result: an action is called again only because a callable policy or a
      cancellation asks for it; ordinary errors are never retried. */
  lemma {:induction false} OrdinaryErrorsAreNotRetried(actions: seq<Action>, primary: Option<Error>, script: seq<Response>, i: nat)
    requires i < |actions| && actions[i].Retryable? && NeverRetries(actions[i].policy, script)
    ensures Count(Run(actions, Start(primary, script)).log, Called(i)) <= 1
  {
    CalledOnceFrom(actions, script, Start(primary, script), i);
  }

  /** An ordinary error of an action that does not complete: it is kept, and so is that
      the action is not complete. */
  lemma {:induction false} OrdinaryErrorIsKept(e: Error)
    requires !e.cancellation
    ensures Run([Retryable(OnCancellation)], Start(None, [Answers(false), Raises(e), Answers(false)])).errors == [e, INCOMPLETE]
  {
    var actions := [Retryable(OnCancellation)];
    var s := Start(None, [Answers(false), Raises(e), Answers(false)]);
    var (already, probed) := Probe(s);
    assert probed.script == [Raises(e), Answers(false)];
    var (error, called) := Attempt(probed);
    assert called.script == [Answers(false)];
    var t := Turn(actions, s);
    assert t.next == 1 && t.errors == [e, INCOMPLETE];
    assert Run(actions, t) == t;
  }
}
