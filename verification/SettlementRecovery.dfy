/**
 Runs that do happen: a publication, its recoveries, a consumption and a close, each
 undisturbed, and how they end. The invariants of all runs are not met by standing still.
 */
module SettlementRecovery {
  import opened Options
  import opened Settlement
  import opened SettlementSafety

  lemma {:induction false} Extended(states: seq<State>, events: seq<Event>, last: State, e: Event, next: State)
    returns (longer: seq<State>, more: seq<Event>)
    requires IsRun(states, events) && states[|events|] == last && Step(last, e, next)
    ensures IsRun(longer, more) && longer[0] == states[0] && longer[|more|] == next && more == events + [e]
  {
    longer, more := states + [next], events + [e];
    forall i | 0 <= i < |more| ensures Step(longer[i], more[i], longer[i + 1]) {
      if i < |events| {
        assert Step(states[i], events[i], states[i + 1]);
      }
    }
  }

  lemma {:induction false} UndisturbedStart(s: State, w: WorkspaceId, t: Transfer) returns (states: seq<State>, events: seq<Event>)
    requires Initial(s) && w in s.spaces && t == Transfer(0, w)
    ensures IsRun(states, events) && states[0] == s
    ensures states[|events|] == State(Reserved(t), None, map[w := 0],
      s.spaces[w := Workspace(Publishing, Some(t), true, Open)], map[0 := InBody(t)], Some(t), false)
  {
    var s1 := At(s, 0, WaitPublish(t));
    var s2 := At(s1.(guards := s1.guards[w := 0]), 0, InPublish(t));
    var s3 := At(With(s2, w, Workspace(Reserving, Some(t), true, Open)), 0, WaitReserve(t));
    var s4 := At(With(WithReserved(s3, t), w, s3.spaces[w].(phase := Publishing)), 0, InBody(t));
    states, events := Extended([s], [], s, CallPublish(0, w), s1);
    states, events := Extended(states, events, s1, Enter(0), s2);
    states, events := Extended(states, events, s2, Store(0), s3);
    states, events := Extended(states, events, s3, Reserve(0), s4);
  }

  lemma {:induction false} UndisturbedEnd(states: seq<State>, events: seq<Event>, s: State, w: WorkspaceId, t: Transfer)
    returns (longer: seq<State>, more: seq<Event>)
    requires IsRun(states, events) && states[|events|] == s
    requires t == Transfer(0, w) && s.slot == Reserved(t) && s.owner.None? && s.calls == map[0 := InBody(t)]
    requires s.guards == map[w := 0] && w in s.spaces && s.spaces[w] == Workspace(Publishing, Some(t), true, Open)
    ensures IsRun(longer, more) && longer[0] == states[0]
    ensures var last := longer[|more|];
            && last.slot == Active(t) && last.calls == map[0 := Returned(t)] && last.guards == map[]
            && last.spaces == s.spaces[w := Workspace(Published, Some(t), true, Receipted)]
  {
    var s5 := At(s, 0, WaitInstall(t));
    var s6 := At(WithActive(s5, t), 0, Installed(t));
    var b := Workspace(Publishing, Some(t), true, Receipted);
    assert Ensured(s6.spaces[w], b, true);
    var s7 := At(With(s6, w, b.(phase := Published)), 0, Committed(t));
    var s8 := At(Left(s7, w), 0, Returned(t));
    longer, more := Extended(states, events, s, Body(0), s5);
    longer, more := Extended(longer, more, s5, Install(0), s6);
    longer, more := Extended(longer, more, s6, Commit(0), s7);
    longer, more := Extended(longer, more, s7, Return(0), s8);
  }

  /** Nothing above is empty: an undisturbed publication ends active and receipted. */
  lemma {:induction false} UndisturbedPublication(s: State, w: WorkspaceId) returns (states: seq<State>, events: seq<Event>)
    requires Initial(s) && w in s.spaces
    ensures IsRun(states, events) && states[0] == s
    ensures var last := states[|events|]; var t := Transfer(0, w);
            && last.slot == Active(t) && last.calls == map[0 := Returned(t)] && last.guards == map[]
            && last.spaces == s.spaces[w := Workspace(Published, Some(t), true, Receipted)]
  {
    var t := Transfer(0, w);
    states, events := UndisturbedStart(s, w, t);
    states, events := UndisturbedEnd(states, events, states[|events|], w, t);
  }

  // ---- how undisturbed recoveries and uses end

  /** One more step of a run, to a state that is known. */
  lemma {:induction false} Longer(states: seq<State>, events: seq<Event>, e: Event, next: State)
    returns (longer: seq<State>, more: seq<Event>)
    requires IsRun(states, events) && Step(states[|events|], e, next)
    ensures IsRun(longer, more) && longer[0] == states[0] && longer[|more|] == next && more == events + [e]
  {
    longer, more := Extended(states, events, states[|events|], e, next);
  }

  /** The state of one publication that holds its workspace and nothing else. */
  function Alone(s: State, w: WorkspaceId, slot: Slot, guarded: bool, a: Workspace, station: Station, active: bool): State {
    State(slot, None, if guarded then map[w := 0] else map[], s.spaces[w := a], map[0 := station], Some(Transfer(0, w)), active)
  }

  /** Looking at the workspace, then at the slot: the reconciliation knows where it stands. */
  lemma {:induction false} LooksAndReads(states: seq<State>, events: seq<Event>, s: State, w: WorkspaceId,
                                         slot: Slot, a: Workspace, active: bool)
    returns (longer: seq<State>, more: seq<Event>)
    requires IsRun(states, events) && a.transfer == Some(Transfer(0, w))
    requires states[|events|] == Alone(s, w, slot, false, a, Checking(Transfer(0, w)), active)
    ensures IsRun(longer, more) && longer[0] == states[0]
    ensures var t := Transfer(0, w); var seen := SeenIn(slot, t);
            longer[|more|] == Alone(s, w, slot, false, a, if seen.SeenReserved? then Cancelling(t) else Settling(t, seen), active)
  {
    var t := Transfer(0, w);
    var seen := SeenIn(slot, t);
    var s0 := states[|events|];
    var s1 := Alone(s, w, slot, false, a, Reading(t), active);
    var s2 := Alone(s, w, slot, false, a, if seen.SeenReserved? then Cancelling(t) else Settling(t, seen), active);
    assert s1 == At(s0, 0, Reading(t)) && s2 == At(s1, 0, s2.calls[0]);
    longer, more := Longer(states, events, Check(0), s1);
    longer, more := Longer(longer, more, Read(0), s2);
  }

  lemma {:induction false} CancelsReserved(states: seq<State>, events: seq<Event>, s: State, w: WorkspaceId)
    returns (longer: seq<State>, more: seq<Event>)
    requires var t := Transfer(0, w); var a := Workspace(Publishing, Some(t), true, Open);
             IsRun(states, events) && states[|events|] == Alone(s, w, Reserved(t), false, a, Cancelling(t), false)
    ensures IsRun(longer, more) && longer[0] == states[0]
    ensures var t := Transfer(0, w); var a := Workspace(Publishing, Some(t), true, Open);
            longer[|more|] == Alone(s, w, Cleanup(t, true), false, a, Settling(t, SeenAbort), false)
  {
    var t := Transfer(0, w);
    var a := Workspace(Publishing, Some(t), true, Open);
    var s1 := Alone(s, w, Cleanup(t, true), false, a, Rereading(t), false);
    assert s1 == At(states[|events|].(slot := Cleanup(t, true)), 0, Rereading(t));
    assert CancelStep(states[|events|], s1, 0);
    longer, more := Longer(states, events, Cancel(0), s1);
    var s2 := Alone(s, w, Cleanup(t, true), false, a, Settling(t, SeenAbort), false);
    assert s2 == At(s1, 0, Settling(t, SeenAbort));
    assert ReadStep(s1, s2, 0);
    longer, more := Longer(longer, more, Read(0), s2);
  }

  /** The last step of a reconciliation that knows where it stands. */
  lemma {:induction false} Settles(states: seq<State>, events: seq<Event>, s: State, w: WorkspaceId,
                                   slot: Slot, a: Workspace, b: Workspace, seen: Seen, active: bool)
    returns (longer: seq<State>, more: seq<Event>)
    requires IsRun(states, events) && a.transfer == Some(Transfer(0, w))
    requires states[|events|] == Alone(s, w, slot, false, a, Settling(Transfer(0, w), seen), active)
    requires WorkspaceSettled(a, b, Transfer(0, w), seen, true)
    ensures IsRun(longer, more) && longer[0] == states[0]
    ensures longer[|more|] == Alone(s, w, slot, false, b, Settled(Transfer(0, w)), active)
  {
    var next := Alone(s, w, slot, false, b, Settled(Transfer(0, w)), active);
    assert next == At(With(states[|events|], w, b), 0, Settled(Transfer(0, w)));
    assert SettleStep(states[|events|], next, 0);
    longer, more := Longer(states, events, Settle(0), next);
  }

  /** A publication that raises before its commit: it is cancelled, and ends failed and aborted. */
  lemma {:induction false} FailedPublication(s: State, w: WorkspaceId) returns (states: seq<State>, events: seq<Event>)
    requires Initial(s) && w in s.spaces
    ensures IsRun(states, events) && states[0] == s
    ensures var t := Transfer(0, w);
            states[|events|] == Alone(s, w, Cleanup(t, true), false, Workspace(Failed, Some(t), true, Aborted), Settled(t), false)
  {
    var t := Transfer(0, w);
    var a := Workspace(Publishing, Some(t), true, Open);
    states, events := UndisturbedStart(s, w, t);
    var s1 := Alone(s, w, Reserved(t), false, a, Checking(t), false);
    assert s1 == Raised(states[|events|], 0, t);
    assert BodyStep(states[|events|], s1, 0);
    states, events := Longer(states, events, Body(0), s1);
    states, events := LooksAndReads(states, events, s, w, Reserved(t), a, false);
    states, events := CancelsReserved(states, events, s, w);
    var b := Workspace(Failed, Some(t), true, Aborted);
    assert WorkspaceSettled(a, b, t, SeenAbort, true);
    states, events := Settles(states, events, s, w, Cleanup(t, true), a, b, SeenAbort, false);
  }

  /** The commit raises just after the slot store. */
  lemma {:induction false} CommitRaises(s: State, w: WorkspaceId) returns (states: seq<State>, events: seq<Event>)
    requires Initial(s) && w in s.spaces
    ensures IsRun(states, events) && states[0] == s
    ensures var t := Transfer(0, w); var a := Workspace(Publishing, Some(t), true, Open);
            states[|events|] == Alone(s, w, Active(t), false, a, Checking(t), true)
  {
    var t := Transfer(0, w);
    var a := Workspace(Publishing, Some(t), true, Open);
    states, events := UndisturbedStart(s, w, t);
    var s1 := Alone(s, w, Reserved(t), true, a, WaitInstall(t), false);
    assert s1 == At(states[|events|], 0, WaitInstall(t)) && BodyStep(states[|events|], s1, 0);
    states, events := Longer(states, events, Body(0), s1);
    states, events := InstallsAndRaises(states, events, s, w);
  }

  lemma {:induction false} InstallsAndRaises(states: seq<State>, events: seq<Event>, s: State, w: WorkspaceId)
    returns (longer: seq<State>, more: seq<Event>)
    requires IsRun(states, events)
    requires states[|events|] == Alone(s, w, Reserved(Transfer(0, w)), true,
               Workspace(Publishing, Some(Transfer(0, w)), true, Open), WaitInstall(Transfer(0, w)), false)
    ensures IsRun(longer, more) && longer[0] == states[0]
    ensures longer[|more|] == Alone(s, w, Active(Transfer(0, w)), false,
              Workspace(Publishing, Some(Transfer(0, w)), true, Open), Checking(Transfer(0, w)), true)
  {
    var t := Transfer(0, w);
    var a := Workspace(Publishing, Some(t), true, Open);
    var s1 := Alone(s, w, Active(t), true, a, Installed(t), true);
    assert s1 == At(WithActive(states[|events|], t), 0, Installed(t)) && InstallStep(states[|events|], s1, 0);
    longer, more := Longer(states, events, Install(0), s1);
    var s2 := Alone(s, w, Active(t), false, a, Checking(t), true);
    assert s2 == Raised(s1, 0, t);
    RaisingCommit(s1, 0);
    longer, more := Longer(longer, more, Commit(0), s2);
  }

  lemma {:induction false} RaisingCommit(s: State, c: CallId)
    requires c in s.calls && s.calls[c].Installed? && s.calls[c].transfer.workspace in s.spaces
    requires s.spaces[s.calls[c].transfer.workspace].native.Open?
    ensures CommitStep(s, Raised(s, c, s.calls[c].transfer), c)
  {
    var t := s.calls[c].transfer;
    var a := s.spaces[t.workspace];
    assert With(s, t.workspace, a) == s && Ensured(a, a, false);
  }

  /** A commit that raises once the slot is active: the publication goes through all the same. */
  lemma {:induction false} RecoveredPublication(s: State, w: WorkspaceId) returns (states: seq<State>, events: seq<Event>)
    requires Initial(s) && w in s.spaces
    ensures IsRun(states, events) && states[0] == s
    ensures var t := Transfer(0, w);
            states[|events|] == Alone(s, w, Active(t), false, Workspace(Published, Some(t), true, Receipted), Settled(t), true)
  {
    var t := Transfer(0, w);
    var a, m := Workspace(Publishing, Some(t), true, Open), Workspace(Publishing, Some(t), true, Receipted);
    var b := Workspace(Published, Some(t), true, Receipted);
    states, events := CommitRaises(s, w);
    states, events := LooksAndReads(states, events, s, w, Active(t), a, true);
    assert Ensured(a, m, true) && WorkspaceSettled(a, b, t, SeenActive, true);
    states, events := Settles(states, events, s, w, Active(t), a, b, SeenActive, true);
  }

  /** The owner's lock is free, and call 1 is yet to be made. */
  predicate IsQuiet(s: State) {
    s.owner.None? && 1 !in s.calls
  }

  predicate HasPublished(s: State, t: Transfer) {
    s.slot == Active(t) && Free(s, t.workspace) && s.spaces[t.workspace] == Workspace(Published, Some(t), true, Receipted)
  }

  /** A use of the owner by call 1 goes in and looks at the workspace. */
  lemma {:induction false} EntersAndLooks(states: seq<State>, events: seq<Event>, use: Use)
    returns (longer: seq<State>, more: seq<Event>)
    requires IsRun(states, events) && IsQuiet(states[|events|]) && InUse(states[|events|].slot)
    ensures IsRun(longer, more) && longer[0] == states[0]
    ensures var s := states[|events|];
            longer[|more|] == At(s.(owner := Some(1)), 1, WaitNormalize(s.slot.transfer, use))
  {
    var s := states[|events|];
    longer, more := EntersOwner(states, events, use);
    var s2 := longer[|more|];
    var s3 := At(s.(owner := Some(1)), 1, WaitNormalize(s.slot.transfer, use));
    assert s3 == At(s2, 1, WaitNormalize(s.slot.transfer, use)) && DispatchStep(s2, s3, 1);
    longer, more := Longer(longer, more, Dispatch(1), s3);
  }

  lemma {:induction false} EntersOwner(states: seq<State>, events: seq<Event>, use: Use)
    returns (longer: seq<State>, more: seq<Event>)
    requires IsRun(states, events) && IsQuiet(states[|events|])
    ensures IsRun(longer, more) && longer[0] == states[0]
    ensures longer[|more|] == At(states[|events|].(owner := Some(1)), 1, InOwner(use))
  {
    var s := states[|events|];
    var s1, s2 := At(s, 1, WaitOwner(use)), At(s.(owner := Some(1)), 1, InOwner(use));
    assert s2 == At(s1.(owner := Some(1)), 1, InOwner(use));
    assert CallOwnerStep(s, s1, 1, use) && EnterOwnerStep(s1, s2, 1);
    longer, more := Longer(states, events, CallOwner(1, use), s1);
    longer, more := Longer(longer, more, EnterOwner(1), s2);
  }

  /** What has been published can be consumed: a run that ends published goes on to a
      consumption, which leaves everything as it was. */
  lemma {:induction false} UndisturbedConsumption(states: seq<State>, events: seq<Event>, t: Transfer)
    returns (longer: seq<State>, more: seq<Event>)
    requires IsRun(states, events) && IsQuiet(states[|events|]) && HasPublished(states[|events|], t)
    ensures IsRun(longer, more) && longer[0] == states[0]
    ensures Consume(1) in more && longer[|more|] == At(states[|events|], 1, Done)
  {
    var s := states[|events|];
    longer, more := EntersAndLooks(states, events, Consuming);
    var s1 := At(longer[|more|], 1, WaitConsume(t));
    assert NormalizeStep(longer[|more|], s1, 1);
    longer, more := Longer(longer, more, Normalize(1), s1);
    var a := s.spaces[t.workspace];
    var s2 := At(s, 1, Done);
    assert Ensured(a, a, true) && With(s1, t.workspace, a) == s1 && s2 == OwnerLeft(s1, 1);
    assert ConsumeStep(s1, s2, 1);
    longer, more := Longer(longer, more, Consume(1), s2);
    assert more[|more| - 1] == Consume(1);
  }

  /** An undisturbed close of what has been published ends released, closed and retired. */
  lemma {:induction false} UndisturbedClose(states: seq<State>, events: seq<Event>, t: Transfer)
    returns (longer: seq<State>, more: seq<Event>)
    requires IsRun(states, events) && IsQuiet(states[|events|]) && HasPublished(states[|events|], t)
    ensures IsRun(longer, more) && longer[0] == states[0]
    ensures var s := states[|events|];
            longer[|more|] == At(With(s, t.workspace, Workspace(Closed, None, false, Retired)), 1, Done).(slot := Released)
  {
    var s, w := states[|events|], t.workspace;
    longer, more := EntersAndLooks(states, events, Closing);
    var s1 := At(Retained(longer[|more|], t), 1, WaitClose(t));
    assert NormalizeStep(longer[|more|], s1, 1);
    longer, more := Longer(longer, more, Normalize(1), s1);
    var b := Workspace(Closed, None, false, Retired);
    longer, more := ClosesAndReleases(longer, more, t);
    assert At(With(s, w, b), 1, Done).(slot := Released) == OwnerLeft(Freed(At(With(s1, w, b), 1, WaitClosed(t))), 1);
  }

  lemma {:induction false} ClosesAndReleases(states: seq<State>, events: seq<Event>, t: Transfer)
    returns (longer: seq<State>, more: seq<Event>)
    requires IsRun(states, events) && states[|events|].slot == Cleanup(t, false) && Free(states[|events|], t.workspace)
    requires 1 in states[|events|].calls && states[|events|].calls[1] == WaitClose(t)
    requires states[|events|].spaces[t.workspace] == Workspace(Published, Some(t), true, Receipted)
    ensures IsRun(longer, more) && longer[0] == states[0]
    ensures var b := Workspace(Closed, None, false, Retired);
            longer[|more|] == OwnerLeft(Freed(At(With(states[|events|], t.workspace, b), 1, WaitClosed(t))), 1)
  {
    var s, b := states[|events|], Workspace(Closed, None, false, Retired);
    ClosesPublished(t);
    var s1 := At(With(s, t.workspace, b), 1, WaitClosed(t));
    assert CloseTransferStep(s, s1, 1);
    longer, more := Longer(states, events, CloseTransfer(1), s1);
    var s2 := OwnerLeft(Freed(s1), 1);
    assert ObserveClosedStep(s1, s2, 1);
    longer, more := Longer(longer, more, ObserveClosed(1), s2);
  }

  lemma {:induction false} ClosesPublished(t: Transfer)
    ensures TransferClosed(Workspace(Published, Some(t), true, Receipted), Workspace(Closed, None, false, Retired), t, false)
  {
    var a, b := Workspace(Published, Some(t), true, Receipted), Workspace(Closed, None, false, Retired);
    var retired, closed := a.(native := Retired), Workspace(Closed, Some(t), true, Retired);
    assert Ensured(a, a, true) && NativeRetired(a, retired);
    assert ResourcesClosed(a, closed, false) && Finished(closed, b, t);
  }

  /** A second publication stores its transfer, and its reservation is refused. */
  lemma {:induction false} ReservationRefused(states: seq<State>, events: seq<Event>, w: WorkspaceId)
    returns (longer: seq<State>, more: seq<Event>)
    requires IsRun(states, events) && IsQuiet(states[|events|]) && Free(states[|events|], w)
    requires states[|events|].spaces[w] == Workspace(Sealed, None, false, Open)
    ensures IsRun(longer, more) && longer[0] == states[0]
    ensures var t := Transfer(1, w);
            longer[|more|] == At(With(states[|events|], w, Workspace(Reserving, Some(t), true, Open)), 1, Checking(t))
  {
    var s, t := states[|events|], Transfer(1, w);
    var a := Workspace(Reserving, Some(t), true, Open);
    longer, more := EntersPublish(states, events, w);
    var s2 := longer[|more|];
    var s3 := At(With(s2, w, a), 1, WaitReserve(t));
    var s4 := At(With(s, w, a), 1, Checking(t));
    assert StoreStep(s2, s3, 1);
    longer, more := Longer(longer, more, Store(1), s3);
    RaisedAfterStore(s, w);
    assert ReserveStep(s3, s4, 1);
    longer, more := Longer(longer, more, Reserve(1), s4);
  }

  lemma {:induction false} RaisedAfterStore(s: State, w: WorkspaceId)
    requires Free(s, w)
    ensures var t := Transfer(1, w); var a := Workspace(Reserving, Some(t), true, Open);
            Raised(At(With(At(s.(guards := s.guards[w := 1]), 1, InPublish(t)), w, a), 1, WaitReserve(t)), 1, t) ==
            At(With(s, w, a), 1, Checking(t))
  {
    assert s.guards[w := 1] - {w} == s.guards;
  }

  lemma {:induction false} EntersPublish(states: seq<State>, events: seq<Event>, w: WorkspaceId)
    returns (longer: seq<State>, more: seq<Event>)
    requires IsRun(states, events) && IsQuiet(states[|events|]) && Free(states[|events|], w)
    ensures IsRun(longer, more) && longer[0] == states[0]
    ensures var s := states[|events|];
            longer[|more|] == At(s.(guards := s.guards[w := 1]), 1, InPublish(Transfer(1, w)))
  {
    var s, t := states[|events|], Transfer(1, w);
    var s1 := At(s, 1, WaitPublish(t));
    var s2 := At(s.(guards := s.guards[w := 1]), 1, InPublish(t));
    assert s2 == At(s1.(guards := s1.guards[w := 1]), 1, InPublish(t));
    assert CallPublishStep(s, s1, 1, w) && EnterStep(s1, s2, 1);
    longer, more := Longer(states, events, CallPublish(1, w), s1);
    longer, more := Longer(longer, more, Enter(1), s2);
  }

  lemma {:induction false} FindsAbsent(states: seq<State>, events: seq<Event>, t: Transfer)
    returns (longer: seq<State>, more: seq<Event>)
    requires IsRun(states, events) && t.call in states[|events|].calls && states[|events|].calls[t.call] == Checking(t)
    requires states[|events|].owner.None? && SeenIn(states[|events|].slot, t) == SeenAbsent
    requires Free(states[|events|], t.workspace) && states[|events|].spaces[t.workspace].transfer == Some(t)
    ensures IsRun(longer, more) && longer[0] == states[0]
    ensures longer[|more|] == At(states[|events|], t.call, Settling(t, SeenAbsent))
  {
    var s, c := states[|events|], t.call;
    var s1, s2 := At(s, c, Reading(t)), At(s, c, Settling(t, SeenAbsent));
    assert s2 == At(s1, c, Settling(t, SeenAbsent));
    assert CheckStep(s, s1, c) && ReadStep(s1, s2, c);
    longer, more := Longer(states, events, Check(c), s1);
    longer, more := Longer(longer, more, Read(c), s2);
  }

  /** A second publication, finding the slot taken, ends closed and aborted. */
  lemma {:induction false} RefusedPublication(states: seq<State>, events: seq<Event>, w: WorkspaceId)
    returns (longer: seq<State>, more: seq<Event>)
    requires IsRun(states, events) && IsQuiet(states[|events|]) && Free(states[|events|], w)
    requires SeenIn(states[|events|].slot, Transfer(1, w)) == SeenAbsent
    requires states[|events|].spaces[w] == Workspace(Sealed, None, false, Open)
    ensures IsRun(longer, more) && longer[0] == states[0]
    ensures longer[|more|] == At(With(states[|events|], w, Workspace(Closed, None, false, Aborted)), 1, Settled(Transfer(1, w)))
  {
    var s, t := states[|events|], Transfer(1, w);
    longer, more := ReservationRefused(states, events, w);
    longer, more := FindsAbsent(longer, more, t);
    var s6 := longer[|more|];
    var b := Workspace(Closed, None, false, Aborted);
    assert At(With(s, w, b), 1, Settled(t)) == At(With(s6, w, b), 1, Settled(t));
    longer, more := GivesUp(longer, more, t);
  }

  lemma {:induction false} GivesUp(states: seq<State>, events: seq<Event>, t: Transfer)
    returns (longer: seq<State>, more: seq<Event>)
    requires IsRun(states, events) && Free(states[|events|], t.workspace)
    requires t.call in states[|events|].calls && states[|events|].calls[t.call] == Settling(t, SeenAbsent)
    requires states[|events|].spaces[t.workspace] == Workspace(Reserving, Some(t), true, Open)
    ensures IsRun(longer, more) && longer[0] == states[0]
    ensures var b := Workspace(Closed, None, false, Aborted);
            longer[|more|] == At(With(states[|events|], t.workspace, b), t.call, Settled(t))
  {
    var next := At(With(states[|events|], t.workspace, Workspace(Closed, None, false, Aborted)), t.call, Settled(t));
    SettlesAbsent(t);
    assert SettleStep(states[|events|], next, t.call);
    longer, more := Longer(states, events, Settle(t.call), next);
  }

  lemma {:induction false} SettlesAbsent(t: Transfer)
    ensures WorkspaceSettled(Workspace(Reserving, Some(t), true, Open), Workspace(Closed, None, false, Aborted), t, SeenAbsent, true)
  {
    var given := Workspace(Failed, Some(t), false, Open);
    var m, n := given.(native := Aborted), Workspace(Closed, Some(t), false, Aborted);
    assert NativeAborted(given, m, true) && NativeAborted(m, m, true);
    assert ResourcesClosed(m, n, true);
  }
}
