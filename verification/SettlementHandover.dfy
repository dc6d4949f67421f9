/**
 What becomes of a workspace once it has been handed to a transfer, whether or not
 the transfer ever gets into the slot: the workspace is never handed to another one,
 and its native owner is told an outcome before the call counts as settled.
 */
module SettlementHandover {
  import opened Options
  import opened Settlement
  import opened SettlementSafety

  predicate HeldBy(s: State, t: Transfer) {
    t.workspace in s.spaces && Holds(s.spaces[t.workspace], t)
  }

  /** The call of `t` has come to an end that tells an outcome. */
  predicate IsOver(s: State, t: Transfer) {
    t.call in s.calls && (s.calls[t.call] == Settled(t) || s.calls[t.call] == Returned(t))
  }

  /** The workspace of `t`, once handed over, against the transfer. */
  predicate SpaceHanded(a: Workspace, t: Transfer) {
    && !a.phase.Sealed?
    && (a.transfer == Some(t) || a.transfer.None?)
    && (a.native.Open? ==> a.transfer == Some(t))
    && (a.transfer.None? ==> a.phase.Failed? || a.phase.Closed?)
  }

  /** The workspace of `t` once the call of `t` is over. */
  predicate SpaceOver(a: Workspace, active: bool) {
    !a.native.Open? && (a.phase.Failed? || a.phase.Closed? || (active && a.phase.Published?))
  }

  predicate IsActive(s: State, t: Transfer) {
    s.reserved == Some(t) && s.activated
  }

  predicate Handed(s: State, t: Transfer) {
    && t.workspace in s.spaces
    && SpaceHanded(s.spaces[t.workspace], t)
    && (Mine(s, t.workspace) ==> s.reserved == Some(t))
    && (IsOver(s, t) ==> SpaceOver(s.spaces[t.workspace], IsActive(s, t)))
  }

  predicate ChangesSpaces(e: Event) {
    e.Store? || e.Reserve? || e.Commit? || e.Settle? || e.Consume? || e.CloseTransfer? || e.CloseWorkspace?
  }

  lemma {:induction false} SpacesStay(s: State, e: Event, s': State)
    requires !ChangesSpaces(e) && Step(s, e, s')
    ensures s'.spaces == s.spaces
  {
  }

  // ---- how one step changes one workspace

  lemma {:induction false} ClosingIsHanded(a: Workspace, b: Workspace, t: Transfer, abort: bool)
    requires SpaceHanded(a, t) && ResourcesClosed(a, b, abort)
    ensures SpaceHanded(b, t) && Evolves(a, b) && b.transfer == a.transfer
    ensures b.phase == a.phase || b.phase.Closed?
  {
  }

  lemma {:induction false} SettlingIsHanded(a: Workspace, b: Workspace, t: Transfer, seen: Seen, ok: bool)
    requires SpaceHanded(a, t) && a.transfer == Some(t) && WorkspaceSettled(a, b, t, seen, ok)
    ensures SpaceHanded(b, t) && Evolves(a, b) && (ok ==> SpaceOver(b, seen.SeenActive? || seen.SeenRetain?))
  {
    if seen.SeenAbsent? && ok {
      var given := a.(transferred := false, phase := Failed);
      var m, n :| NativeAborted(given, m, true) && ResourcesClosed(m, n, true) && b == n.(transfer := None);
      ClosingIsHanded(m, n, t, true);
    }
  }

  lemma {:induction false} TransferClosingIsHanded(a: Workspace, b: Workspace, t: Transfer, u: Transfer, abort: bool)
    requires SpaceHanded(a, t) && TransferClosed(a, b, u, abort)
    requires a.phase.Closed? ==> NativeClosed(a.native)
    ensures SpaceHanded(b, t) && Evolves(a, b) && (b.phase == a.phase || b.phase.Closed?)
  {
    if Holds(a, u) && b != a {
      var m :| ResourcesClosed(a, m, abort) && Finished(m, b, u);
      ClosingIsHanded(a, m, t, abort);
    }
  }

  // ---- steps

  lemma {:induction false} QuietKeepsPast(s: State, e: Event, s': State)
    requires !ChangesSpaces(e) && Step(s, e, s')
    ensures s'.reserved == s.reserved && (s.activated ==> s'.activated)
  {
  }

  /** A call comes to its end without a change only where its transfer has left the
      workspace, or after its commit. */
  lemma {:induction false} QuietSettles(s: State, e: Event, s': State, t: Transfer)
    requires !ChangesSpaces(e) && Step(s, e, s') && t.workspace in s.spaces && IsOver(s', t)
    ensures IsOver(s, t) || s.spaces[t.workspace].transfer != Some(t) || HasCommitted(s, t)
  {
    if !e.Check? && !e.Return? {
      OthersEndNothing(s, e, s', t);
    }
  }

  predicate HasCommitted(s: State, t: Transfer) {
    t.call in s.calls && s.calls[t.call] == Committed(t)
  }

  lemma {:induction false} OthersEndNothing(s: State, e: Event, s': State, t: Transfer)
    requires !ChangesSpaces(e) && !e.Check? && !e.Return? && Step(s, e, s') && IsOver(s', t)
    ensures IsOver(s, t)
  {
    if e.CallPublish? || e.Enter? || e.Body? || e.Install? || e.Read? || e.Cancel? {
      PublisherEndsNothing(s, e, s', t);
    }
  }

  lemma {:induction false} PublisherEndsNothing(s: State, e: Event, s': State, t: Transfer)
    requires (e.CallPublish? || e.Enter? || e.Body? || e.Install? || e.Read? || e.Cancel?) && Step(s, e, s') && IsOver(s', t)
    ensures IsOver(s, t)
  {
  }

  lemma {:induction false} QuietStaysHanded(s: State, e: Event, s': State, t: Transfer)
    requires Inv(s) && Handed(s, t) && !ChangesSpaces(e) && Step(s, e, s')
    ensures Handed(s', t)
  {
    SpacesStay(s, e, s');
    QuietKeepsPast(s, e, s');
    if IsOver(s', t) {
      QuietSettles(s, e, s', t);
      if HasCommitted(s, t) {
        assert StationAgrees(s, s.calls[t.call]);
      }
    }
  }

  lemma {:induction false} StoreStaysHanded(s: State, s': State, c: CallId, t: Transfer)
    requires Handed(s, t) && StoreStep(s, s', c)
    ensures Handed(s', t)
  {
  }

  lemma {:induction false} ReserveStaysHanded(s: State, s': State, c: CallId, t: Transfer)
    requires Inv(s) && Handed(s, t) && ReserveStep(s, s', c)
    ensures Handed(s', t)
  {
    assert StationAgrees(s, s.calls[c]) && IsNamed(s, c, s.calls[c]);
  }

  lemma {:induction false} CommitStaysHanded(s: State, s': State, c: CallId, t: Transfer)
    requires Inv(s) && Handed(s, t) && CommitStep(s, s', c)
    ensures Handed(s', t)
  {
    assert StationAgrees(s, s.calls[c]) && IsNamed(s, c, s.calls[c]);
  }

  lemma {:induction false} SettleStaysHanded(s: State, s': State, c: CallId, t: Transfer)
    requires Inv(s) && Handed(s, t) && SettleStep(s, s', c)
    ensures Handed(s', t)
  {
    var u, seen := s.calls[c].transfer, s.calls[c].seen;
    assert IsNamed(s, c, s.calls[c]);
    var w := u.workspace;
    assert StationAgrees(s, s.calls[c]);
    if s' != At(s, c, Checking(u)) && s.spaces[w].transfer == Some(u) {
      var b, ok :| && WorkspaceSettled(s.spaces[w], b, u, seen, ok)
                   && s' == At(With(s, w, b), c, if ok then Settled(u) else Checking(u));
      SettledIsHanded(s, s', c, u, seen, b, ok, t);
    }
  }

  lemma {:induction false} SettledIsHanded(
    s: State, s': State, c: CallId, u: Transfer, seen: Seen, b: Workspace, ok: bool, t: Transfer)
    requires Handed(s, t) && c in s.calls && s.calls[c] == Settling(u, seen) && u.call == c
    requires StationAgrees(s, Settling(u, seen))
    requires u.workspace in s.spaces && s.spaces[u.workspace].transfer == Some(u)
    requires WorkspaceSettled(s.spaces[u.workspace], b, u, seen, ok)
    requires s' == At(With(s, u.workspace, b), c, if ok then Settled(u) else Checking(u))
    ensures Handed(s', t)
  {
    if u.workspace == t.workspace {
      SettlingIsHanded(s.spaces[u.workspace], b, t, seen, ok);
    }
  }

  lemma {:induction false} ConsumeStaysHanded(s: State, s': State, c: CallId, t: Transfer)
    requires Handed(s, t) && ConsumeStep(s, s', c)
    ensures Handed(s', t)
  {
  }

  lemma {:induction false} CloseTransferStaysHanded(s: State, s': State, c: CallId, t: Transfer)
    requires Inv(s) && Handed(s, t) && CloseTransferStep(s, s', c)
    ensures Handed(s', t)
  {
    var u := s.calls[c].transfer;
    if s' != At(s, c, WaitClosed(u)) && u.workspace == t.workspace {
      var a := s.spaces[t.workspace];
      assert SpaceAgrees(s, t.workspace, a);
      var b :| TransferClosed(a, b, u, s.slot.abort) && s' == At(With(s, t.workspace, b), c, WaitClosed(u));
      TransferClosingIsHanded(a, b, t, u, s.slot.abort);
    }
  }

  lemma {:induction false} CloseWorkspaceStaysHanded(s: State, s': State, w: WorkspaceId, t: Transfer)
    requires Handed(s, t) && CloseWorkspaceStep(s, s', w)
    ensures Handed(s', t)
  {
    if !s.spaces[w].transferred && w == t.workspace {
      var b :| ResourcesClosed(s.spaces[w], b, true) && s' == With(s, w, b);
      ClosingIsHanded(s.spaces[w], b, t, true);
    }
  }

  lemma {:induction false} PublishingStaysHanded(s: State, e: Event, s': State, t: Transfer)
    requires Inv(s) && Handed(s, t) && (e.Store? || e.Reserve? || e.Commit?) && Step(s, e, s')
    ensures Handed(s', t)
  {
    match e
    case Store(c) => StoreStaysHanded(s, s', c, t);
    case Reserve(c) => ReserveStaysHanded(s, s', c, t);
    case Commit(c) => CommitStaysHanded(s, s', c, t);
  }

  lemma {:induction false} ClosingStaysHanded(s: State, e: Event, s': State, t: Transfer)
    requires Inv(s) && Handed(s, t) && (e.Consume? || e.CloseTransfer? || e.CloseWorkspace?) && Step(s, e, s')
    ensures Handed(s', t)
  {
    match e
    case Consume(c) => ConsumeStaysHanded(s, s', c, t);
    case CloseTransfer(c) => CloseTransferStaysHanded(s, s', c, t);
    case CloseWorkspace(w) => CloseWorkspaceStaysHanded(s, s', w, t);
  }

  lemma {:induction false} StepStaysHanded(s: State, e: Event, s': State, t: Transfer)
    requires Inv(s) && Handed(s, t) && Step(s, e, s')
    ensures Handed(s', t)
  {
    if !ChangesSpaces(e) {
      QuietStaysHanded(s, e, s', t);
    } else if e.Settle? {
      SettleStaysHanded(s, s', e.call, t);
    } else if e.Store? || e.Reserve? || e.Commit? {
      PublishingStaysHanded(s, e, s', t);
    } else {
      ClosingStaysHanded(s, e, s', t);
    }
  }

  // ---- the hand-over itself

  lemma {:induction false} StoreHandsOver(s: State, s': State, c: CallId, t: Transfer)
    requires Inv(s) && !HeldBy(s, t) && StoreStep(s, s', c) && HeldBy(s', t)
    ensures Handed(s', t)
  {
    assert IsNamed(s, c, s.calls[c]);
    assert SpaceAgrees(s, t.workspace, s.spaces[t.workspace]);
  }

  lemma {:induction false} SettlingHandsNothing(s: State, s': State, c: CallId, t: Transfer)
    requires SettleStep(s, s', c) && HeldBy(s', t)
    ensures HeldBy(s, t)
  {
  }

  lemma {:induction false} ClosingHandsNothing(s: State, e: Event, s': State, t: Transfer)
    requires (e.Consume? || e.CloseTransfer? || e.CloseWorkspace?) && Step(s, e, s') && HeldBy(s', t)
    ensures HeldBy(s, t)
  {
  }

  lemma {:induction false} OnlyStoreHandsOver(s: State, e: Event, s': State, t: Transfer)
    requires !e.Store? && Step(s, e, s') && HeldBy(s', t)
    ensures HeldBy(s, t)
  {
    if !ChangesSpaces(e) {
      SpacesStay(s, e, s');
    } else if e.Settle? {
      SettlingHandsNothing(s, s', e.call, t);
    } else if e.Consume? || e.CloseTransfer? || e.CloseWorkspace? {
      ClosingHandsNothing(s, e, s', t);
    }
  }

  /** A workspace comes to be held only by the full store of a transfer. */
  lemma {:induction false} StepHandsOver(s: State, e: Event, s': State, t: Transfer)
    requires Inv(s) && !HeldBy(s, t) && Step(s, e, s') && HeldBy(s', t)
    ensures Handed(s', t)
  {
    if e.Store? {
      StoreHandsOver(s, s', e.call, t);
    } else {
      OnlyStoreHandsOver(s, e, s', t);
    }
  }
}
