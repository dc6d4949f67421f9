/**
 Whole runs of the settlement protocol, over every interleaving and every fault.
 */
module SettlementRuns {
  import opened Options
  import opened Settlement
  import opened SettlementHandover
  import opened SettlementSafety
  import opened SettlementSteps

  predicate ByPublication(e: Event) {
    e.CallPublish? || e.Enter? || e.Store? || e.Reserve? || e.Body? || e.Install? || e.Commit? || e.Return?
  }

  predicate ByReconciliation(e: Event) {
    e.Check? || e.Read? || e.Cancel? || e.Settle?
  }

  lemma {:induction false} PublicationKeeps(s: State, e: Event, s': State)
    requires Inv(s) && ByPublication(e) && Step(s, e, s')
    ensures Inv(s')
  {
    match e
    case CallPublish(c, w) => CallPublishKeeps(s, s', c, w);
    case Enter(c) => EnterKeeps(s, s', c);
    case Store(c) => StoreKeeps(s, s', c);
    case Reserve(c) => ReserveKeeps(s, s', c);
    case Body(c) => BodyKeeps(s, s', c);
    case Install(c) => InstallKeeps(s, s', c);
    case Commit(c) => CommitKeeps(s, s', c);
    case Return(c) => ReturnKeeps(s, s', c);
  }

  lemma {:induction false} ReconciliationKeeps(s: State, e: Event, s': State)
    requires Inv(s) && ByReconciliation(e) && Step(s, e, s')
    ensures Inv(s')
  {
    match e
    case Check(c) => CheckKeeps(s, s', c);
    case Read(c) => ReadKeeps(s, s', c);
    case Cancel(c) => CancelKeeps(s, s', c);
    case Settle(c) => SettleKeeps(s, s', c);
  }

  lemma {:induction false} OwnerKeeps(s: State, e: Event, s': State)
    requires Inv(s) && !ByPublication(e) && !ByReconciliation(e) && Step(s, e, s')
    ensures Inv(s')
  {
    match e
    case CallOwner(c, use) => CallOwnerKeeps(s, s', c, use);
    case EnterOwner(c) => EnterOwnerKeeps(s, s', c);
    case Dispatch(c) => DispatchKeeps(s, s', c);
    case Normalize(c) => NormalizeKeeps(s, s', c);
    case Consume(c) => ConsumeKeeps(s, s', c);
    case CloseTransfer(c) => CloseTransferKeeps(s, s', c);
    case ObserveClosed(c) => ObserveClosedKeeps(s, s', c);
    case CloseWorkspace(w) => CloseWorkspaceKeeps(s, s', w);
  }

  lemma {:induction false} StepKeeps(s: State, e: Event, s': State)
    requires Inv(s) && Step(s, e, s')
    ensures Inv(s')
  {
    if ByPublication(e) {
      PublicationKeeps(s, e, s');
    } else if ByReconciliation(e) {
      ReconciliationKeeps(s, e, s');
    } else {
      OwnerKeeps(s, e, s');
    }
  }

  /** The only ways the slot moves. */
  predicate SlotMoves(a: Slot, b: Slot) {
    match a
    case Vacant => b.Reserved? || b.Released?
    case Reserved(t) => b == Active(t) || b == Cleanup(t, true)
    case Active(t) => b == Cleanup(t, false)
    case Cleanup(t, abort) => b.Released?
    case Released => false
  }

  /** A workspace once past its seal never returns to it. */
  predicate SealBreaks(s: State, s': State) {
    forall w :: w in s.spaces ==> w in s'.spaces && (s'.spaces[w].phase.Sealed? ==> s.spaces[w].phase.Sealed?)
  }

  /** How one step changes the slot and the record of its past. */
  predicate PastMoves(s: State, s': State) {
    && (s'.slot == s.slot || SlotMoves(s.slot, s'.slot))
    && s'.reserved == (if s'.slot.Reserved? then Some(s'.slot.transfer) else s.reserved)
    && s'.activated == (s.activated || s'.slot.Active?)
  }

  lemma {:induction false} PublicationMoves(s: State, e: Event, s': State)
    requires SlotAgrees(s) && ByPublication(e) && Step(s, e, s')
    ensures PastMoves(s, s')
  {
  }

  lemma {:induction false} ReconciliationMoves(s: State, e: Event, s': State)
    requires SlotAgrees(s) && ByReconciliation(e) && Step(s, e, s')
    ensures PastMoves(s, s')
  {
  }

  predicate ReleasesSlot(e: Event) {
    e.Dispatch? || e.Normalize? || e.ObserveClosed?
  }

  lemma {:induction false} OwnerLeavesSlot(s: State, e: Event, s': State)
    requires SlotAgrees(s) && !ByPublication(e) && !ByReconciliation(e) && !ReleasesSlot(e) && Step(s, e, s')
    ensures PastMoves(s, s')
  {
  }

  lemma {:induction false} DispatchMovesSlot(s: State, s': State, c: CallId)
    requires SlotAgrees(s) && DispatchStep(s, s', c)
    ensures PastMoves(s, s')
  {
  }

  lemma {:induction false} NormalizeMovesSlot(s: State, s': State, c: CallId)
    requires Inv(s) && NormalizeStep(s, s', c)
    ensures PastMoves(s, s')
  {
    assert StationAgrees(s, s.calls[c]);
    var t := s.calls[c].transfer;
    if t.workspace in s.spaces {
      assert SpaceAgrees(s, t.workspace, s.spaces[t.workspace]);
    }
  }

  lemma {:induction false} ObserveMovesSlot(s: State, s': State, c: CallId)
    requires Inv(s) && ObserveClosedStep(s, s', c)
    ensures PastMoves(s, s')
  {
    assert StationAgrees(s, s.calls[c]);
  }

  lemma {:induction false} OwnerMovesSlot(s: State, e: Event, s': State)
    requires Inv(s) && !ByPublication(e) && !ByReconciliation(e) && Step(s, e, s')
    ensures PastMoves(s, s')
  {
    match e
    case Dispatch(c) => DispatchMovesSlot(s, s', c);
    case Normalize(c) => NormalizeMovesSlot(s, s', c);
    case ObserveClosed(c) => ObserveMovesSlot(s, s', c);
    case _ => OwnerLeavesSlot(s, e, s');
  }

  lemma {:induction false} StepMoves(s: State, e: Event, s': State)
    requires Inv(s) && Step(s, e, s')
    ensures PastMoves(s, s')
  {
    if ByPublication(e) {
      PublicationMoves(s, e, s');
    } else if ByReconciliation(e) {
      ReconciliationMoves(s, e, s');
    } else {
      OwnerMovesSlot(s, e, s');
    }
  }

  lemma {:induction false} PublicationBreaksSeal(s: State, e: Event, s': State)
    requires (e.Store? || e.Reserve? || e.Commit?) && Step(s, e, s')
    ensures SealBreaks(s, s')
  {
  }

  lemma {:induction false} SettlingBreaksSeal(s: State, s': State, c: CallId)
    requires SettleStep(s, s', c)
    ensures SealBreaks(s, s')
  {
  }

  lemma {:induction false} OwnerBreaksSeal(s: State, e: Event, s': State)
    requires (e.Consume? || e.CloseTransfer? || e.CloseWorkspace?) && Step(s, e, s')
    ensures SealBreaks(s, s')
  {
  }

  lemma {:induction false} StepBreaksSeal(s: State, e: Event, s': State)
    requires Step(s, e, s')
    ensures SealBreaks(s, s')
  {
    if !ChangesSpaces(e) {
      SpacesStay(s, e, s');
    } else if e.Settle? {
      SettlingBreaksSeal(s, s', e.call);
    } else if e.Store? || e.Reserve? || e.Commit? {
      PublicationBreaksSeal(s, e, s');
    } else {
      OwnerBreaksSeal(s, e, s');
    }
  }

  // ---- whole runs ----

  lemma {:induction false} RunKeeps(states: seq<State>, events: seq<Event>, i: nat)
    requires IsRun(states, events) && i < |states|
    ensures Inv(states[i])
    decreases i
  {
    if i == 0 {
      InitialAgrees(states[0]);
    } else {
      RunKeeps(states, events, i - 1);
      assert Step(states[i - 1], events[i - 1], states[i - 1 + 1]);
      StepKeeps(states[i - 1], events[i - 1], states[i]);
    }
  }

  lemma {:induction false} RunMoves(states: seq<State>, events: seq<Event>, i: nat)
    requires IsRun(states, events) && i < |events|
    ensures PastMoves(states[i], states[i + 1])
  {
    RunKeeps(states, events, i);
    assert Step(states[i], events[i], states[i + 1]);
    StepMoves(states[i], events[i], states[i + 1]);
  }

  /** Main result: the slot goes reserved, active, retained, closed, or reserved,
      aborted, closed, or straight from empty to closed, and stays on its transfer. */
  lemma {:induction false} SlotNeverTurnsBack(states: seq<State>, events: seq<Event>, i: nat)
    requires IsRun(states, events) && i < |events|
    ensures states[i + 1].slot == states[i].slot || SlotMoves(states[i].slot, states[i + 1].slot)
  {
    RunMoves(states, events, i);
  }

  /** A workspace that was published once, or failed, can not be published again. */
  lemma {:induction false} SealNeverReturns(states: seq<State>, events: seq<Event>, i: nat, j: nat, w: WorkspaceId)
    requires IsRun(states, events) && i <= j < |states| && w in states[i].spaces
    requires !states[i].spaces[w].phase.Sealed?
    ensures w in states[j].spaces && !states[j].spaces[w].phase.Sealed?
    decreases j
  {
    if i < j {
      SealNeverReturns(states, events, i, j - 1, w);
      assert Step(states[j - 1], events[j - 1], states[j - 1 + 1]);
      StepBreaksSeal(states[j - 1], events[j - 1], states[j]);
    }
  }

  predicate EverReserved(states: seq<State>, j: nat, t: Transfer) {
    exists i: nat :: i <= j && i < |states| && states[i].slot == Reserved(t)
  }

  predicate EverActive(states: seq<State>, j: nat, t: Transfer) {
    exists i: nat :: i <= j && i < |states| && states[i].slot == Active(t)
  }

  lemma {:induction false} Later(states: seq<State>, j: nat, t: Transfer)
    requires j > 0
    ensures EverReserved(states, j - 1, t) ==> EverReserved(states, j, t)
    ensures EverActive(states, j - 1, t) ==> EverActive(states, j, t)
  {
    if EverReserved(states, j - 1, t) {
      var i: nat :| i <= j - 1 && i < |states| && states[i].slot == Reserved(t);
      assert i <= j;
    }
    if EverActive(states, j - 1, t) {
      var i: nat :| i <= j - 1 && i < |states| && states[i].slot == Active(t);
      assert i <= j;
    }
  }

  /** What the state records about its past is what the run did. */
  lemma {:induction false} RecordIsTrue(states: seq<State>, events: seq<Event>, j: nat, t: Transfer)
    requires IsRun(states, events) && j < |states|
    ensures states[j].reserved == Some(t) <==> EverReserved(states, j, t)
    ensures states[j].reserved == Some(t) && states[j].activated <==> EverActive(states, j, t)
    decreases j
  {
    RunKeeps(states, events, j);
    if j > 0 {
      RecordIsTrue(states, events, j - 1, t);
      RunMoves(states, events, j - 1);
      RunKeeps(states, events, j - 1);
      RecordStep(states, j, t);
    }
  }

  lemma {:induction false} RecordStep(states: seq<State>, j: nat, t: Transfer)
    requires 0 < j < |states| && PastMoves(states[j - 1], states[j])
    requires SlotAgrees(states[j - 1]) && SlotAgrees(states[j])
    requires states[j - 1].reserved == Some(t) <==> EverReserved(states, j - 1, t)
    requires states[j - 1].reserved == Some(t) && states[j - 1].activated <==> EverActive(states, j - 1, t)
    ensures states[j].reserved == Some(t) <==> EverReserved(states, j, t)
    ensures states[j].reserved == Some(t) && states[j].activated <==> EverActive(states, j, t)
  {
    Later(states, j, t);
    if EverReserved(states, j, t) {
      var i: nat :| i <= j && i < |states| && states[i].slot == Reserved(t);
      assert i < j ==> EverReserved(states, j - 1, t);
    }
    if EverActive(states, j, t) {
      var i: nat :| i <= j && i < |states| && states[i].slot == Active(t);
      assert i < j ==> EverActive(states, j - 1, t);
    }
    if states[j].slot == Reserved(t) {
      assert j <= j;
    }
    if states[j].slot == Active(t) {
      assert j <= j;
    }
  }

  predicate Receives(n: Native) {
    n.Receipted? || n.Retired?
  }

  /** Main result: once its transfer has been active, a workspace's native owner is
      never aborted, and when the slot is released or the workspace closed it is a
      receipted owner that has been closed. */
  lemma {:induction false} ActiveIsNeverAborted(states: seq<State>, events: seq<Event>, j: nat, t: Transfer)
    requires IsRun(states, events) && j < |states| && EverActive(states, j, t)
    ensures t.workspace in states[j].spaces
    ensures var s := states[j]; var a := s.spaces[t.workspace];
            !a.native.Aborted? && (s.slot.Released? || a.phase.Closed? ==> a.native.Retired?)
  {
    RunKeeps(states, events, j);
    RecordIsTrue(states, events, j, t);
    assert SpaceAgrees(states[j], t.workspace, states[j].spaces[t.workspace]);
  }

  /** Main result: a workspace none of whose transfers has been active is never
      receipted; once the slot that held its transfer is released, or the workspace
      closed, its native owner has been aborted. */
  lemma {:induction false} InactiveIsNeverReceipted(
    states: seq<State>, events: seq<Event>, j: nat, w: WorkspaceId)
    requires IsRun(states, events) && j < |states| && w in states[j].spaces
    requires forall t: Transfer :: t.workspace == w ==> !EverActive(states, j, t)
    ensures var s := states[j]; var a := s.spaces[w];
            && !Receives(a.native)
            && (a.phase.Closed? ==> a.native.Aborted?)
            && (s.slot.Released? && (exists t: Transfer :: t.workspace == w && EverReserved(states, j, t))
                ==> a.native.Aborted?)
  {
    RunKeeps(states, events, j);
    var s := states[j];
    assert SpaceAgrees(s, w, s.spaces[w]);
    if Mine(s, w) {
      RecordIsTrue(states, events, j, s.reserved.value);
      assert !EverActive(states, j, s.reserved.value);
    }
    forall t: Transfer | t.workspace == w && EverReserved(states, j, t) ensures Mine(s, w) {
      RecordIsTrue(states, events, j, t);
    }
  }

  predicate EverHeld(states: seq<State>, j: nat, t: Transfer) {
    exists i: nat :: i <= j && i < |states| && HeldBy(states[i], t)
  }

  /** A workspace once handed to a transfer is never handed to another one. */
  lemma {:induction false} RunHands(states: seq<State>, events: seq<Event>, j: nat, t: Transfer)
    requires IsRun(states, events) && j < |states| && EverHeld(states, j, t)
    ensures Handed(states[j], t)
    decreases j
  {
    if j > 0 {
      var before, now := states[j - 1], states[j];
      RunKeeps(states, events, j - 1);
      assert Step(before, events[j - 1], states[j - 1 + 1]);
      if EverHeld(states, j - 1, t) {
        RunHands(states, events, j - 1, t);
        StepStaysHanded(before, events[j - 1], now, t);
      } else {
        var i: nat :| i <= j && i < |states| && HeldBy(states[i], t);
        assert i == j && !HeldBy(before, t);
        StepHandsOver(before, events[j - 1], now, t);
      }
    }
  }

  /** A transfer that was in the slot had been handed its workspace before. */
  lemma {:induction false} ReservedWasHeld(states: seq<State>, events: seq<Event>, j: nat, t: Transfer)
    requires IsRun(states, events) && j < |states| && (EverReserved(states, j, t) || EverActive(states, j, t))
    ensures EverHeld(states, j, t)
  {
    RecordIsTrue(states, events, j, t);
    var i: nat :| i <= j && i < |states| && states[i].slot == Reserved(t);
    RunKeeps(states, events, i);
    assert SpaceAgrees(states[i], t.workspace, states[i].spaces[t.workspace]);
    assert HeldBy(states[i], t);
  }

  /** Main result: a publishing call that has returned, or whose reconciliation has
      come to its end after its workspace was handed to its transfer, leaves the native
      owner settled as the slot decided: receipted exactly when the transfer was ever
      active, and aborted exactly when it was not, even if it never got into the slot.
      The workspace is then published, or has been receipted and closed since; or it has
      failed or been closed. */
  lemma {:induction false} CallsSettleAsTheSlotDecided(
    states: seq<State>, events: seq<Event>, j: nat, c: CallId, t: Transfer)
    requires IsRun(states, events) && j < |states| && c in states[j].calls
    requires states[j].calls[c] == Returned(t) || (states[j].calls[c] == Settled(t) && EverHeld(states, j, t))
    ensures t.workspace in states[j].spaces
    ensures var a := states[j].spaces[t.workspace];
            && (EverActive(states, j, t) <==> Receives(a.native))
            && (!EverActive(states, j, t) <==> a.native.Aborted?)
            && (EverActive(states, j, t) ==> a.phase.Published? || a.native.Retired?)
            && (!EverActive(states, j, t) ==> a.phase.Failed? || a.phase.Closed?)
  {
    RunKeeps(states, events, j);
    RecordIsTrue(states, events, j, t);
    var s := states[j];
    assert StationAgrees(s, s.calls[c]) && IsNamed(s, c, s.calls[c]);
    assert SpaceAgrees(s, t.workspace, s.spaces[t.workspace]);
    if s.calls[c] == Returned(t) {
      ReservedWasHeld(states, events, j, t);
    }
    RunHands(states, events, j, t);
    assert IsOver(s, t);
  }

  /** Main result: in every state a published workspace has a receipted owner, and a
      failed one has not, unless the owner has been closed since. */
  lemma {:induction false} PhasesTellTheOutcome(states: seq<State>, events: seq<Event>, j: nat, w: WorkspaceId)
    requires IsRun(states, events) && j < |states| && w in states[j].spaces
    ensures var a := states[j].spaces[w];
            && (a.phase.Published? ==> Receives(a.native))
            && (a.phase.Failed? ==> !a.native.Receipted?)
            && (a.phase.Closed? ==> NativeClosed(a.native))
            && (a.phase.Sealed? ==> !Receives(a.native))
  {
    RunKeeps(states, events, j);
    assert SpaceAgrees(states[j], w, states[j].spaces[w]);
  }

  /** A consumption leaves every workspace as it was: it gets no further than to one that
      is published, and so receipted already. */
  lemma {:induction false} ConsumptionChangesNothing(states: seq<State>, events: seq<Event>, i: nat)
    requires IsRun(states, events) && i < |events| && events[i].Consume?
    ensures states[i + 1].spaces == states[i].spaces && states[i + 1].slot == states[i].slot
  {
    RunKeeps(states, events, i);
    var s, c := states[i], events[i].call;
    assert Step(s, events[i], states[i + 1]);
    assert StationAgrees(s, s.calls[c]);
    var w := s.calls[c].transfer.workspace;
    if w in s.spaces {
      assert SpaceAgrees(s, w, s.spaces[w]);
      ConsumesUnchanged(s, states[i + 1], c);
    }
  }

  lemma {:induction false} ConsumesUnchanged(s: State, s': State, c: CallId)
    requires ConsumeStep(s, s', c) && s.calls[c].transfer.workspace in s.spaces
    requires var a := s.spaces[s.calls[c].transfer.workspace]; a.phase.Published? ==> !a.native.Open?
    ensures s'.spaces == s.spaces && s'.slot == s.slot
  {
  }

  // ---- waiting ----

  predicate WaitsForOwner(station: Station) {
    || station.WaitOwner? || station.WaitReserve? || station.WaitInstall?
    || station.Reading? || station.Rereading? || station.Cancelling?
  }

  predicate WaitsForGuard(station: Station) {
    || station.WaitPublish? || station.Checking? || station.Settling?
    || station.WaitNormalize? || station.WaitConsume? || station.WaitClose? || station.WaitClosed?
  }

  /** Call `c` waits for a lock that call `d` holds. */
  predicate BlockedBy(s: State, c: CallId, d: CallId) {
    && c in s.calls
    && (|| (WaitsForOwner(s.calls[c]) && s.owner == Some(d))
        || (WaitsForGuard(s.calls[c]) && s.calls[c].transfer.workspace in s.guards
            && s.guards[s.calls[c].transfer.workspace] == d))
  }

  /** A call that holds the owner's lock is blocked only by one that can go on. */
  lemma {:induction false} OwnerHolderWaitsForFree(s: State, c: CallId, d: CallId, e: CallId)
    requires Inv(s) && s.owner == Some(c) && BlockedBy(s, c, d)
    ensures !BlockedBy(s, d, e)
  {
    assert HoldsOwner(s.calls[c]);
    var w := s.calls[c].transfer.workspace;
    assert HoldsGuardOf(s, w, s.guards[w]);
    assert StationAgrees(s, s.calls[c]) && StationAgrees(s, s.calls[d]);
  }

  /** A call that holds a workspace's lock waits for nothing but the owner's. */
  lemma {:induction false} GuardHolderWaitsForOwner(s: State, c: CallId, d: CallId)
    requires Inv(s) && c in s.calls && HoldsGuard(s.calls[c]) && BlockedBy(s, c, d)
    ensures s.owner == Some(d)
  {
  }

  /** No chain of waiting calls has more than three links. */
  lemma {:induction false} WaitingEnds(s: State, a: CallId, b: CallId, c: CallId, d: CallId, e: CallId)
    requires Inv(s) && BlockedBy(s, a, b) && BlockedBy(s, b, c) && BlockedBy(s, c, d)
    ensures !BlockedBy(s, d, e)
  {
    if s.owner == Some(b) {
      OwnerHolderWaitsForFree(s, b, c, d);
    } else {
      assert HoldsGuardOf(s, s.calls[a].transfer.workspace, b);
      GuardHolderWaitsForOwner(s, b, c);
      OwnerHolderWaitsForFree(s, c, d, e);
    }
  }

  predicate BlockedWithin(s: State, c: CallId, crowd: set<CallId>) {
    exists d :: d in crowd && BlockedBy(s, c, d)
  }

  lemma {:induction false} SomeoneIsFree(s: State, crowd: set<CallId>) returns (free: CallId)
    requires Inv(s) && crowd != {}
    ensures free in crowd && !BlockedWithin(s, free, crowd)
  {
    var a :| a in crowd;
    if !BlockedWithin(s, a, crowd) { return a; }
    var b :| b in crowd && BlockedBy(s, a, b);
    if !BlockedWithin(s, b, crowd) { return b; }
    var c :| c in crowd && BlockedBy(s, b, c);
    if !BlockedWithin(s, c, crowd) { return c; }
    var d :| d in crowd && BlockedBy(s, c, d);
    forall e | e in crowd ensures !BlockedBy(s, d, e) {
      WaitingEnds(s, a, b, c, d, e);
    }
    return d;
  }

  /** Main result: in no state of any run does every member of a crowd of calls wait
      for another one of the crowd; so no calls wait for each other in a cycle. */
  lemma {:induction false} NeverDeadlocked(states: seq<State>, events: seq<Event>, j: nat, crowd: set<CallId>)
    requires IsRun(states, events) && j < |states| && crowd != {}
    ensures exists c :: c in crowd && !BlockedWithin(states[j], c, crowd)
  {
    RunKeeps(states, events, j);
    var free := SomeoneIsFree(states[j], crowd);
  }
}
