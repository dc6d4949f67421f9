/**
 One lemma for each step of the settlement protocol: it keeps the invariant.
 */
module SettlementSteps {
  import opened Options
  import opened Settlement
  import opened SettlementSafety

  lemma {:induction false} InitialAgrees(s: State)
    requires Initial(s)
    ensures Inv(s)
  {
  }

  /** A call moves on and nothing else changes. */
  lemma {:induction false} MovesOn(s: State, s': State, c: CallId, station: Station)
    requires Inv(s) && Moves(s, s', c, station) && StationAgrees(s, station)
    ensures Inv(s')
  {
    Lands(s, s', c, station);
  }

  /** A call moves on, leaving one workspace changed. */
  lemma {:induction false} ChangesSpace(
    s: State, s': State, c: CallId, w: WorkspaceId, b: Workspace, station: Station)
    requires Inv(s) && NotGuardedByOther(s, w, c) && SpaceAgrees(s, w, b) && Evolves(s.spaces[w], b)
    requires Moves(With(s, w, b), s', c, station) && StationAgrees(With(s, w, b), station)
    ensures Inv(s')
  {
    SpaceChanges(s, c, w, b);
    Lands(With(s, w, b), s', c, station);
  }

  /** A call that holds the owner's lock moves on inside it. */
  lemma {:induction false} MovesInOwner(s: State, c: CallId, station: Station)
    requires Inv(s) && c in s.calls && HoldsOwner(s.calls[c]) && HoldsOwner(station) && StationAgrees(s, station)
    ensures Inv(At(s, c, station))
  {
    Lands(s, At(s, c, station), c, station);
  }

  /** A call leaves the owner's lock. */
  lemma {:induction false} LeavesOwner(s: State, c: CallId)
    requires InvBut(s, c) && c in s.calls && HoldsOwner(s.calls[c])
    ensures Inv(OwnerLeft(s, c))
  {
    Lands(s, OwnerLeft(s, c), c, Done);
  }

  /** A publishing call that holds no lock moves on, still without one. */
  lemma {:induction false} MovesUnlocked(s: State, c: CallId, station: Station)
    requires Inv(s) && c in s.calls && Unlocked(s.calls[c]) && Unlocked(station)
    requires station.transfer == s.calls[c].transfer && StationAgrees(s, station)
    ensures Inv(At(s, c, station))
  {
    Lands(s, At(s, c, station), c, station);
  }

  predicate Unlocked(station: Station) {
    Publishes(station) && !HoldsGuard(station)
  }

  /** A call marks the slot released and leaves the owner's lock. */
  lemma {:induction false} LeavesReleased(s: State, c: CallId)
    requires Inv(s) && c in s.calls && HoldsOwner(s.calls[c])
    requires s.slot.Vacant? || (InUse(s.slot) && s.slot.transfer.workspace in s.spaces
                                && ObservedClosed(s.spaces[s.slot.transfer.workspace], s.slot.transfer))
    ensures Inv(OwnerLeft(Freed(s), c))
  {
    ReleasingFits(s, c);
    LeavesOwner(Freed(s), c);
  }

  lemma {:induction false} CallPublishKeeps(s: State, s': State, c: CallId, w: WorkspaceId)
    requires Inv(s) && CallPublishStep(s, s', c, w)
    ensures Inv(s')
  {
    Lands(s, s', c, WaitPublish(Transfer(c, w)));
  }

  lemma {:induction false} EnterKeeps(s: State, s': State, c: CallId)
    requires Inv(s) && EnterStep(s, s', c)
    ensures Inv(s')
  {
    assert StationAgrees(s, s.calls[c]);
    MovesOn(s, s', c, s'.calls[c]);
  }

  lemma {:induction false} StoreKeeps(s: State, s': State, c: CallId)
    requires Inv(s) && StoreStep(s, s', c)
    ensures Inv(s')
  {
    var t := s.calls[c].transfer;
    assert StationAgrees(s, s.calls[c]) && IsGuarded(s, t.workspace, c);
    var w := t.workspace;
    if s' == Raised(s, c, t) {
      MovesOn(s, s', c, s'.calls[c]);
    } else {
      var b := s'.spaces[w];
      assert SpaceAgrees(s, w, s.spaces[w]);
      ChangesSpace(s, s', c, w, b, s'.calls[c]);
    }
  }

  lemma {:induction false} Reserves(s: State, s': State, c: CallId, t: Transfer)
    requires Inv(s) && c in s.calls && s.calls[c] == WaitReserve(t) && s.owner.None? && s.slot.Vacant?
    requires Stored(s, t)
    ensures InvBut(WithReserved(s, t), c)
    ensures s' == Raised(WithReserved(s, t), c, t) ==> Inv(s')
  {
    assert IsGuarded(s, t.workspace, c) && IsNamed(s, c, s.calls[c]);
    ReservingFits(s, t);
    if s' == Raised(WithReserved(s, t), c, t) {
      Lands(WithReserved(s, t), s', c, Checking(t));
    }
  }

  lemma {:induction false} ReserveKeeps(s: State, s': State, c: CallId)
    requires Inv(s) && ReserveStep(s, s', c)
    ensures Inv(s')
  {
    var t := s.calls[c].transfer;
    assert StationAgrees(s, s.calls[c]) && IsGuarded(s, t.workspace, c) && IsNamed(s, c, s.calls[c]);
    var w := t.workspace;
    if s' == Raised(s, c, t) {
      MovesOn(s, s', c, s'.calls[c]);
    } else {
      Reserves(s, s', c, t);
      var m := WithReserved(s, t);
      if s' != Raised(m, c, t) {
        EntersBody(m, s', c, t);
      }
    }
  }

  /** The reservation made, the workspace goes on to publishing. */
  lemma {:induction false} EntersBody(m: State, s': State, c: CallId, t: Transfer)
    requires InvBut(m, c) && c in m.calls && m.calls[c] == WaitReserve(t) && m.slot == Reserved(t)
    requires IsGuarded(m, t.workspace, c) && t.workspace in m.spaces
    requires s' == At(With(m, t.workspace, m.spaces[t.workspace].(phase := Publishing)), c, InBody(t))
    ensures Inv(s')
  {
    var b := m.spaces[t.workspace].(phase := Publishing);
    assert SpaceAgrees(m, t.workspace, m.spaces[t.workspace]);
    SpaceChanges(m, c, t.workspace, b);
    Lands(With(m, t.workspace, b), s', c, InBody(t));
  }

  lemma {:induction false} BodyKeeps(s: State, s': State, c: CallId)
    requires Inv(s) && BodyStep(s, s', c)
    ensures Inv(s')
  {
    assert StationAgrees(s, s.calls[c]) && IsGuarded(s, s.calls[c].transfer.workspace, c);
    MovesOn(s, s', c, s'.calls[c]);
  }

  lemma {:induction false} InstallKeeps(s: State, s': State, c: CallId)
    requires Inv(s) && InstallStep(s, s', c)
    ensures Inv(s')
  {
    var t := s.calls[c].transfer;
    assert StationAgrees(s, s.calls[c]) && IsGuarded(s, t.workspace, c) && IsNamed(s, c, s.calls[c]);
    if s' == Raised(s, c, t) {
      MovesOn(s, s', c, s'.calls[c]);
    } else {
      Activates(s, s', c, t);
    }
  }

  lemma {:induction false} Activates(s: State, s': State, c: CallId, t: Transfer)
    requires Inv(s) && c in s.calls && s.calls[c] == WaitInstall(t) && t.call == c
    requires s.owner.None? && s.slot == Reserved(t) && !Begun(s, t) && IsPublishing(s, t)
    requires s' == Raised(WithActive(s, t), c, t) || s' == At(WithActive(s, t), c, Installed(t))
    ensures Inv(s')
  {
    ActivatingFits(s, t);
    Lands(WithActive(s, t), s', c, s'.calls[c]);
  }

  lemma {:induction false} EnsuringFits(s: State, w: WorkspaceId, b: Workspace, ok: bool)
    requires w in s.spaces && SpaceAgrees(s, w, s.spaces[w]) && Mine(s, w) && s.activated && SlotAgrees(s)
    requires Ensured(s.spaces[w], b, ok)
    ensures SpaceAgrees(s, w, b) && Evolves(s.spaces[w], b) && (ok ==> !b.native.Open?)
    ensures ok ==> SpaceAgrees(s, w, b.(phase := Published))
  {
  }

  lemma {:induction false} Commits(s: State, s': State, c: CallId, t: Transfer, b: Workspace, station: Station)
    requires Inv(s) && c in s.calls && s.calls[c] == Installed(t) && t.workspace in s.spaces
    requires SpaceAgrees(s, t.workspace, b) && Evolves(s.spaces[t.workspace], b)
    requires (station == Committed(t) && !b.native.Open? && b.phase.Published? && s' == At(With(s, t.workspace, b), c, station))
             || (station == Checking(t) && s' == Raised(With(s, t.workspace, b), c, t))
    ensures Inv(s')
  {
    assert StationAgrees(s, s.calls[c]) && IsGuarded(s, t.workspace, c);
    ChangesSpace(s, s', c, t.workspace, b, station);
  }

  lemma {:induction false} CommitKeeps(s: State, s': State, c: CallId)
    requires Inv(s) && CommitStep(s, s', c)
    ensures Inv(s')
  {
    var t := s.calls[c].transfer;
    var w := t.workspace;
    var b, ok :| && Ensured(s.spaces[w], b, ok)
                 && s' == if ok then At(With(s, w, b.(phase := Published)), c, Committed(t))
                          else Raised(With(s, w, b), c, t);
    assert StationAgrees(s, s.calls[c]) && SpaceAgrees(s, w, s.spaces[w]);
    EnsuringFits(s, w, b, ok);
    Commits(s, s', c, t, if ok then b.(phase := Published) else b, s'.calls[c]);
  }

  lemma {:induction false} ReturnKeeps(s: State, s': State, c: CallId)
    requires Inv(s) && ReturnStep(s, s', c)
    ensures Inv(s')
  {
    assert StationAgrees(s, s.calls[c]) && IsGuarded(s, s.calls[c].transfer.workspace, c);
    MovesOn(s, s', c, s'.calls[c]);
  }

  lemma {:induction false} CheckKeeps(s: State, s': State, c: CallId)
    requires Inv(s) && CheckStep(s, s', c)
    ensures Inv(s')
  {
    var t := s.calls[c].transfer;
    if s' != s {
      assert IsNamed(s, c, s.calls[c]) && SpaceAgrees(s, t.workspace, s.spaces[t.workspace]);
      MovesUnlocked(s, c, s'.calls[c]);
    }
  }

  lemma {:induction false} ReadKeeps(s: State, s': State, c: CallId)
    requires Inv(s) && ReadStep(s, s', c)
    ensures Inv(s')
  {
    var t := s.calls[c].transfer;
    assert IsNamed(s, c, s.calls[c]) && SpaceAgrees(s, t.workspace, s.spaces[t.workspace]);
    MovesUnlocked(s, c, s'.calls[c]);
  }

  lemma {:induction false} Cancels(s: State, s': State, c: CallId, t: Transfer, station: Station)
    requires Inv(s) && c in s.calls && s.calls[c] == Cancelling(t) && s.slot == Reserved(t) && s.owner.None?
    requires station == Checking(t) || station == Rereading(t)
    requires s' == At(Cancelled(s, t), c, station)
    ensures Inv(s')
  {
    assert IsNamed(s, c, s.calls[c]);
    CancellingFits(s, t);
    Lands(Cancelled(s, t), s', c, station);
  }

  lemma {:induction false} CancelKeeps(s: State, s': State, c: CallId)
    requires Inv(s) && CancelStep(s, s', c)
    ensures Inv(s')
  {
    var t := s.calls[c].transfer;
    if s.slot == Reserved(t) && s.owner.None? && s' != At(s, c, Checking(t)) {
      Cancels(s, s', c, t, s'.calls[c]);
    } else {
      MovesUnlocked(s, c, s'.calls[c]);
    }
  }

  lemma {:induction false} ClosingFits(s: State, w: WorkspaceId, a: Workspace, b: Workspace, abort: bool)
    requires SpaceAgrees(s, w, a) && ResourcesClosed(a, b, abort) && SlotAgrees(s)
    requires !abort ==> Mine(s, w) && s.activated && !s.slot.Active?
    requires abort ==> !Mine(s, w) || !s.activated || NativeClosed(a.native)
    ensures SpaceAgrees(s, w, b) && Evolves(a, b) && b.transfer == a.transfer && b.transferred == a.transferred
    ensures b.phase == a.phase || (b.phase.Closed? && NativeClosed(b.native))
  {
  }

  lemma {:induction false} SettlingFits(s: State, t: Transfer, b: Workspace, seen: Seen, ok: bool)
    requires t.workspace in s.spaces && SpaceAgrees(s, t.workspace, s.spaces[t.workspace]) && SlotAgrees(s)
    requires SettlingAgrees(s, t, seen) && s.spaces[t.workspace].transfer == Some(t)
    requires WorkspaceSettled(s.spaces[t.workspace], b, t, seen, ok)
    ensures SpaceAgrees(s, t.workspace, b) && Evolves(s.spaces[t.workspace], b)
    ensures ok && s.reserved == Some(t) ==> !b.native.Open?
  {
    var w := t.workspace;
    var a := s.spaces[w];
    match seen
    case SeenActive | SeenRetain =>
      if ok {
        var m :| Ensured(a, m, true) && b == m.(phase := Published);
        EnsuringFits(s, w, m, true);
      } else {
        EnsuringFits(s, w, b, false);
      }
    case SeenAbort =>
    case SeenAbsent =>
      var given := a.(transferred := false, phase := Failed);
      assert SpaceAgrees(s, w, given);
      if ok {
        var m, n :| NativeAborted(given, m, true) && ResourcesClosed(m, n, true) && b == n.(transfer := None);
        ClosingFits(s, w, m, n, true);
      }
  }

  lemma {:induction false} SettlesWorkspace(s: State, s': State, c: CallId, t: Transfer, seen: Seen, b: Workspace, ok: bool)
    requires Inv(s) && c in s.calls && s.calls[c] == Settling(t, seen) && Free(s, t.workspace)
    requires s.spaces[t.workspace].transfer == Some(t) && WorkspaceSettled(s.spaces[t.workspace], b, t, seen, ok)
    requires s' == At(With(s, t.workspace, b), c, if ok then Settled(t) else Checking(t))
    ensures Inv(s')
  {
    assert StationAgrees(s, s.calls[c]) && SpaceAgrees(s, t.workspace, s.spaces[t.workspace]);
    SettlingFits(s, t, b, seen, ok);
    ChangesSpace(s, s', c, t.workspace, b, s'.calls[c]);
  }

  lemma {:induction false} SettleKeeps(s: State, s': State, c: CallId)
    requires Inv(s) && SettleStep(s, s', c)
    ensures Inv(s')
  {
    var t, seen := s.calls[c].transfer, s.calls[c].seen;
    var w := t.workspace;
    if s' == At(s, c, Checking(t)) || s.spaces[w].transfer != Some(t) {
      assert IsNamed(s, c, s.calls[c]) && SpaceAgrees(s, w, s.spaces[w]);
      MovesUnlocked(s, c, s'.calls[c]);
    } else {
      var b, ok :| && WorkspaceSettled(s.spaces[w], b, t, seen, ok)
                   && s' == At(With(s, w, b), c, if ok then Settled(t) else Checking(t));
      SettlesWorkspace(s, s', c, t, seen, b, ok);
    }
  }

  lemma {:induction false} CallOwnerKeeps(s: State, s': State, c: CallId, use: Use)
    requires Inv(s) && CallOwnerStep(s, s', c, use)
    ensures Inv(s')
  {
    Lands(s, s', c, WaitOwner(use));
  }

  lemma {:induction false} EnterOwnerKeeps(s: State, s': State, c: CallId)
    requires Inv(s) && EnterOwnerStep(s, s', c)
    ensures Inv(s')
  {
    MovesOn(s, s', c, s'.calls[c]);
  }

  lemma {:induction false} DispatchKeeps(s: State, s': State, c: CallId)
    requires Inv(s) && DispatchStep(s, s', c)
    ensures Inv(s')
  {
    if s' == OwnerLeft(s, c) {
      LeavesOwner(s, c);
    } else if s.slot.Vacant? {
      LeavesReleased(s, c);
    } else {
      MovesInOwner(s, c, s'.calls[c]);
    }
  }

  lemma {:induction false} Retains(s: State, s': State, c: CallId, t: Transfer)
    requires Inv(s) && c in s.calls && s.calls[c] == WaitNormalize(t, Closing) && s.slot == Active(t)
    requires s' == At(Retained(s, t), c, WaitClose(t))
    ensures Inv(s')
  {
    RetainingFits(s, c, t);
    Lands(Retained(s, t), s', c, WaitClose(t));
  }

  lemma {:induction false} NormalizeKeeps(s: State, s': State, c: CallId)
    requires Inv(s) && NormalizeStep(s, s', c)
    ensures Inv(s')
  {
    var t := s.calls[c].transfer;
    assert StationAgrees(s, s.calls[c]);
    if s' == OwnerLeft(s, c) {
      LeavesOwner(s, c);
    } else if ObservedClosed(s.spaces[t.workspace], t) {
      LeavesReleased(s, c);
    } else if s.calls[c].use.Closing? && s.slot == Active(t) {
      Retains(s, s', c, t);
    } else {
      MovesInOwner(s, c, s'.calls[c]);
    }
  }

  lemma {:induction false} Consumes(s: State, s': State, c: CallId, t: Transfer, b: Workspace, ok: bool)
    requires Inv(s) && c in s.calls && s.calls[c] == WaitConsume(t) && s.slot == Active(t) && Free(s, t.workspace)
    requires Ensured(s.spaces[t.workspace], b, ok) && s' == OwnerLeft(With(s, t.workspace, b), c)
    ensures Inv(s')
  {
    assert SpaceAgrees(s, t.workspace, s.spaces[t.workspace]);
    EnsuringFits(s, t.workspace, b, ok);
    ChangesSpace(s, s', c, t.workspace, b, Done);
  }

  lemma {:induction false} ConsumeKeeps(s: State, s': State, c: CallId)
    requires Inv(s) && ConsumeStep(s, s', c)
    ensures Inv(s')
  {
    var t := s.calls[c].transfer;
    var w := t.workspace;
    assert StationAgrees(s, s.calls[c]);
    if s' == OwnerLeft(s, c) {
      LeavesOwner(s, c);
    } else {
      var b, ok :| Ensured(s.spaces[w], b, ok) && s' == OwnerLeft(With(s, w, b), c);
      Consumes(s, s', c, t, b, ok);
    }
  }

  lemma {:induction false} TransferClosingFits(s: State, t: Transfer, b: Workspace, abort: bool)
    requires t.workspace in s.spaces && SpaceAgrees(s, t.workspace, s.spaces[t.workspace])
    requires s.slot == Cleanup(t, abort) && SlotAgrees(s)
    requires TransferClosed(s.spaces[t.workspace], b, t, abort)
    ensures SpaceAgrees(s, t.workspace, b) && Evolves(s.spaces[t.workspace], b)
  {
    var a := s.spaces[t.workspace];
    if Holds(a, t) && b != a {
      var m :| ResourcesClosed(a, m, abort) && Finished(m, b, t);
      ClosingFits(s, t.workspace, a, m, abort);
    }
  }

  lemma {:induction false} CloseTransferKeeps(s: State, s': State, c: CallId)
    requires Inv(s) && CloseTransferStep(s, s', c)
    ensures Inv(s')
  {
    var t := s.calls[c].transfer;
    var w := t.workspace;
    assert StationAgrees(s, s.calls[c]);
    if s' == At(s, c, WaitClosed(t)) {
      MovesInOwner(s, c, WaitClosed(t));
    } else {
      var b :| TransferClosed(s.spaces[w], b, t, s.slot.abort) && s' == At(With(s, w, b), c, WaitClosed(t));
      ClosesTransfer(s, s', c, t, b);
    }
  }

  lemma {:induction false} ClosesTransfer(s: State, s': State, c: CallId, t: Transfer, b: Workspace)
    requires Inv(s) && c in s.calls && s.calls[c] == WaitClose(t) && Free(s, t.workspace)
    requires s.slot.Cleanup? && s.slot.transfer == t
    requires TransferClosed(s.spaces[t.workspace], b, t, s.slot.abort)
    requires s' == At(With(s, t.workspace, b), c, WaitClosed(t))
    ensures Inv(s')
  {
    assert SpaceAgrees(s, t.workspace, s.spaces[t.workspace]);
    TransferClosingFits(s, t, b, s.slot.abort);
    ChangesSpace(s, s', c, t.workspace, b, WaitClosed(t));
  }

  lemma {:induction false} ObserveClosedKeeps(s: State, s': State, c: CallId)
    requires Inv(s) && ObserveClosedStep(s, s', c)
    ensures Inv(s')
  {
    var t := s.calls[c].transfer;
    assert StationAgrees(s, s.calls[c]);
    if s' == OwnerLeft(s, c) {
      LeavesOwner(s, c);
    } else {
      LeavesReleased(s, c);
    }
  }

  lemma {:induction false} CloseWorkspaceKeeps(s: State, s': State, w: WorkspaceId)
    requires Inv(s) && CloseWorkspaceStep(s, s', w)
    ensures Inv(s')
  {
    if !s.spaces[w].transferred {
      var b :| ResourcesClosed(s.spaces[w], b, true) && s' == With(s, w, b);
      assert SpaceAgrees(s, w, s.spaces[w]);
      ClosingFits(s, w, s.spaces[w], b, true);
      SpaceChanges(s, 0, w, b);
      forall d | d in s.calls ensures StationAgrees(s', s.calls[d]) {
        OtherStationUnmoved(s, d + 1, w, b, d);
      }
    }
  }
}
