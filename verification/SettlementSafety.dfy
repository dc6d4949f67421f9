/**
 What every step of the settlement protocol keeps, and what follows for whole runs:
 the slot decides the outcome, and no cycle of waiting calls can form.
 */
module SettlementSafety {
  import opened Options
  import opened Settlement

  predicate HoldsOwner(station: Station) {
    station.InOwner? || station.WaitNormalize? || station.WaitConsume? || station.WaitClose? || station.WaitClosed?
  }

  predicate HoldsGuard(station: Station) {
    || station.InPublish? || station.WaitReserve? || station.InBody?
    || station.WaitInstall? || station.Installed? || station.Committed?
  }

  predicate Publishes(station: Station) {
    || station.WaitPublish? || HoldsGuard(station) || station.Returned?
    || station.Checking? || station.Reading? || station.Cancelling? || station.Rereading?
    || station.Settling? || station.Settled? || station.GaveUp?
  }

  predicate OwnerAgrees(s: State) {
    && (forall c :: c in s.calls ==> (HoldsOwner(s.calls[c]) <==> s.owner == Some(c)))
    && (s.owner.Some? ==> s.owner.value in s.calls)
  }

  predicate GuardsAgree(s: State) {
    && (forall c :: c in s.calls && HoldsGuard(s.calls[c]) ==> IsGuarded(s, s.calls[c].transfer.workspace, c))
    && (forall w :: w in s.guards ==> HoldsGuardOf(s, w, s.guards[w]))
  }

  predicate IsGuarded(s: State, w: WorkspaceId, c: CallId) {
    w in s.guards && s.guards[w] == c
  }

  predicate HoldsGuardOf(s: State, w: WorkspaceId, c: CallId) {
    w in s.spaces && c in s.calls && HoldsGuard(s.calls[c]) && s.calls[c].transfer.workspace == w
  }

  predicate IsCallOf(s: State, t: Transfer) {
    t.workspace in s.spaces && t.call in s.calls && Publishes(s.calls[t.call]) && s.calls[t.call].transfer == t
  }

  predicate IsNamed(s: State, c: CallId, station: Station) {
    Publishes(station) ==> station.transfer.call == c && station.transfer.workspace in s.spaces
  }

  predicate NamesAgree(s: State) {
    && (forall c :: c in s.calls ==> IsNamed(s, c, s.calls[c]))
    && (s.reserved.Some? ==> IsCallOf(s, s.reserved.value))
  }

  /** The slot against the past it has had. */
  predicate SlotAgrees(s: State) {
    match s.slot
    case Vacant => s.reserved.None? && !s.activated
    case Reserved(t) => s.reserved == Some(t) && !s.activated
    case Active(t) => s.reserved == Some(t) && s.activated
    case Cleanup(t, abort) => s.reserved == Some(t) && s.activated == !abort
    case Released => s.activated ==> s.reserved.Some?
  }

  predicate Mine(s: State, w: WorkspaceId) {
    s.reserved.Some? && s.reserved.value.workspace == w
  }

  /** The native owner of a workspace against the past of the slot. */
  predicate SpaceAgrees(s: State, w: WorkspaceId, a: Workspace) {
    && (a.native.Receipted? || a.native.Retired? ==> Mine(s, w) && s.activated)
    && (a.native.Aborted? ==> !(Mine(s, w) && s.activated))
    && (a.phase.Closed? ==> NativeClosed(a.native))
    && (a.phase.Sealed? ==> !a.transferred)
    && PhaseAgrees(s, w, a)
    && (Mine(s, w) ==>
          && !a.phase.Sealed?
          && (Holds(a, s.reserved.value) || NativeClosed(a.native))
          && (s.slot.Reserved? ==> (a.native.Open? || a.native.Aborted?) && Holds(a, s.reserved.value))
          && (s.slot.Active? ==> !NativeClosed(a.native))
          && (s.slot.Released? ==> NativeClosed(a.native)))
  }

  /** What the phases of a settled workspace say of its native owner. */
  predicate PhaseAgrees(s: State, w: WorkspaceId, a: Workspace) {
    && (a.phase.Published? ==> Mine(s, w) && s.activated && !a.native.Open?)
    && (a.phase.Failed? && Mine(s, w) && s.activated ==> NativeClosed(a.native))
  }

  predicate StationAgrees(s: State, station: Station) {
    match station
    case WaitPublish(t) => s.reserved != Some(t)
    case InPublish(t) => s.reserved != Some(t)
    case WaitReserve(t) => s.reserved != Some(t) && Stored(s, t)
    case InBody(t) => s.slot == Reserved(t) && IsPublishing(s, t)
    case WaitInstall(t) => s.slot == Reserved(t) && !Begun(s, t) && IsPublishing(s, t)
    case Installed(t) => s.reserved == Some(t) && s.activated && IsPublishing(s, t)
    case Committed(t) => s.reserved == Some(t) && s.activated && Begun(s, t) && s.spaces[t.workspace].phase.Published?
    case Returned(t) => s.reserved == Some(t) && s.activated && Begun(s, t)
    case Settling(t, seen) => SettlingAgrees(s, t, seen)
    case Settled(t) => s.reserved == Some(t) ==> Begun(s, t)
    case WaitNormalize(t, use) => InUse(s.slot) && s.slot.transfer == t
    case WaitConsume(t) => s.slot == Active(t)
    case WaitClose(t) => s.slot.Cleanup? && s.slot.transfer == t
    case WaitClosed(t) => s.slot.Cleanup? && s.slot.transfer == t
    case _ => true
  }

  /** The workspace has been handed to a transfer that is not yet in the slot. */
  predicate Stored(s: State, t: Transfer) {
    && !Mine(s, t.workspace)
    && t.workspace in s.spaces && Holds(s.spaces[t.workspace], t) && s.spaces[t.workspace].phase.Reserving?
    && (s.spaces[t.workspace].native.Open? || s.spaces[t.workspace].native.Aborted?)
  }

  predicate IsPublishing(s: State, t: Transfer) {
    t.workspace in s.spaces && s.spaces[t.workspace].phase.Publishing?
  }

  /** The native owner has been told one outcome or the other. */
  predicate Begun(s: State, t: Transfer) {
    t.workspace in s.spaces && !s.spaces[t.workspace].native.Open?
  }

  predicate SettlingAgrees(s: State, t: Transfer, seen: Seen) {
    match seen
    case SeenActive | SeenRetain => s.reserved == Some(t) && s.activated
    case SeenAbort => s.reserved == Some(t) && !s.activated && !s.slot.Reserved?
    case SeenAbsent => s.reserved == Some(t) ==> s.slot.Released?
    case SeenReserved => false
  }

  predicate SpacesAgree(s: State) {
    forall w :: w in s.spaces ==> SpaceAgrees(s, w, s.spaces[w])
  }

  /** Every call but `c` stands where the rest of the state allows it. */
  predicate OthersAgree(s: State, c: CallId) {
    forall d :: d in s.calls && d != c ==> StationAgrees(s, s.calls[d])
  }

  predicate InvBut(s: State, c: CallId) {
    OwnerAgrees(s) && GuardsAgree(s) && NamesAgree(s) && SlotAgrees(s) && SpacesAgree(s) && OthersAgree(s, c)
  }

  predicate Inv(s: State) {
    && OwnerAgrees(s) && GuardsAgree(s) && NamesAgree(s) && SlotAgrees(s) && SpacesAgree(s)
    && (forall c :: c in s.calls ==> StationAgrees(s, s.calls[c]))
  }

  // ---- moving one call ----

  predicate OwnerMoves(s: State, s': State, c: CallId, station: Station) {
    || (s'.owner == s.owner && HoldsOwner(station) == (s.owner == Some(c)))
    || (s.owner.None? && s'.owner == Some(c) && HoldsOwner(station))
    || (s.owner == Some(c) && s'.owner.None? && !HoldsOwner(station))
  }

  predicate GuardMoves(s: State, s': State, c: CallId, station: Station) {
    || (s'.guards == s.guards
        && (c in s.calls && HoldsGuard(s.calls[c])
            ==> HoldsGuard(station) && station.transfer == s.calls[c].transfer)
        && (HoldsGuard(station) ==> c in s.calls && HoldsGuard(s.calls[c])))
    || (HoldsGuard(station) && !(c in s.calls && HoldsGuard(s.calls[c]))
        && Free(s, station.transfer.workspace) && s'.guards == s.guards[station.transfer.workspace := c])
    || (c in s.calls && HoldsGuard(s.calls[c]) && !HoldsGuard(station)
        && s'.guards == s.guards - {s.calls[c].transfer.workspace})
  }

  predicate NameMoves(s: State, c: CallId, station: Station) {
    if c in s.calls then
      Publishes(s.calls[c]) == Publishes(station) && (Publishes(station) ==> station.transfer == s.calls[c].transfer)
    else
      IsNamed(s, c, station)
  }

  predicate Moves(s: State, s': State, c: CallId, station: Station) {
    && s' == s.(calls := s.calls[c := station], owner := s'.owner, guards := s'.guards)
    && OwnerMoves(s, s', c, station) && GuardMoves(s, s', c, station) && NameMoves(s, c, station)
  }

  lemma {:induction false} OwnerKept(s: State, s': State, c: CallId, station: Station)
    requires OwnerAgrees(s) && s'.calls == s.calls[c := station] && OwnerMoves(s, s', c, station)
    ensures OwnerAgrees(s')
  {
  }

  lemma {:induction false} GuardsKept(s: State, s': State, c: CallId, station: Station)
    requires GuardsAgree(s) && s'.calls == s.calls[c := station] && s'.spaces == s.spaces
    requires GuardMoves(s, s', c, station)
    ensures GuardsAgree(s')
  {
  }

  lemma {:induction false} NamesKept(s: State, s': State, c: CallId, station: Station)
    requires NamesAgree(s) && s'.calls == s.calls[c := station] && s'.spaces == s.spaces
    requires s'.reserved == s.reserved && NameMoves(s, c, station)
    ensures NamesAgree(s')
  {
  }

  lemma {:induction false} SpacesKept(s: State, s': State)
    requires SpacesAgree(s) && s'.spaces == s.spaces
    requires s'.slot == s.slot && s'.reserved == s.reserved && s'.activated == s.activated
    ensures SpacesAgree(s')
  {
  }

  lemma {:induction false} StationKept(s: State, s': State, station: Station)
    requires StationAgrees(s, station) && s'.spaces == s.spaces
    requires s'.slot == s.slot && s'.reserved == s.reserved && s'.activated == s.activated
    ensures StationAgrees(s', station)
  {
  }

  lemma {:induction false} OthersKept(s: State, s': State, c: CallId, station: Station)
    requires OthersAgree(s, c) && s'.spaces == s.spaces && s'.calls == s.calls[c := station]
    requires s'.slot == s.slot && s'.reserved == s.reserved && s'.activated == s.activated
    requires StationAgrees(s, station)
    ensures forall d :: d in s'.calls ==> StationAgrees(s', s'.calls[d])
  {
    forall d | d in s'.calls ensures StationAgrees(s', s'.calls[d]) {
      StationKept(s, s', s'.calls[d]);
    }
  }

  /** A call that moves on keeps everything, if its new station fits the state. */
  lemma {:induction false} Lands(s: State, s': State, c: CallId, station: Station)
    requires InvBut(s, c) && Moves(s, s', c, station) && StationAgrees(s, station)
    ensures Inv(s')
  {
    OwnerKept(s, s', c, station);
    GuardsKept(s, s', c, station);
    NamesKept(s, s', c, station);
    SpacesKept(s, s');
    OthersKept(s, s', c, station);
  }

  // ---- changing one workspace ----

  predicate Evolves(a: Workspace, b: Workspace) {
    && (!a.native.Open? ==> !b.native.Open?)
    && (NativeClosed(a.native) ==> NativeClosed(b.native))
  }

  predicate NotGuardedByOther(s: State, w: WorkspaceId, c: CallId) {
    w in s.spaces && (w in s.guards ==> s.guards[w] == c)
  }

  lemma {:induction false} OtherStationUnmoved(s: State, c: CallId, w: WorkspaceId, b: Workspace, d: CallId)
    requires GuardsAgree(s) && NotGuardedByOther(s, w, c) && Evolves(s.spaces[w], b)
    requires d in s.calls && d != c && StationAgrees(s, s.calls[d])
    ensures StationAgrees(With(s, w, b), s.calls[d])
  {
  }

  lemma {:induction false} SpaceChanges(s: State, c: CallId, w: WorkspaceId, b: Workspace)
    requires InvBut(s, c) && NotGuardedByOther(s, w, c)
    requires SpaceAgrees(s, w, b) && Evolves(s.spaces[w], b)
    ensures InvBut(With(s, w, b), c)
  {
    var s' := With(s, w, b);
    forall d | d in s'.calls && d != c ensures StationAgrees(s', s'.calls[d]) {
      OtherStationUnmoved(s, c, w, b, d);
    }
    assert s'.spaces.Keys == s.spaces.Keys;
  }

  // ---- changing the slot ----

  /** The new past of the slot suits every workspace and every other call. */
  predicate PastFits(s: State, s': State, c: CallId) {
    && s' == s.(slot := s'.slot, reserved := s'.reserved, activated := s'.activated)
    && SlotAgrees(s') && NamesAgree(s') && SpacesAgree(s') && OthersAgree(s', c)
  }

  lemma {:induction false} PastChanges(s: State, s': State, c: CallId)
    requires InvBut(s, c) && PastFits(s, s', c)
    ensures InvBut(s', c)
  {
  }

  lemma {:induction false} ReservingFitsOther(s: State, t: Transfer, d: CallId)
    requires GuardsAgree(s) && NamesAgree(s) && SlotAgrees(s) && s.slot.Vacant?
    requires IsGuarded(s, t.workspace, t.call)
    requires d in s.calls && d != t.call && StationAgrees(s, s.calls[d])
    ensures StationAgrees(WithReserved(s, t), s.calls[d])
  {
    assert IsNamed(s, d, s.calls[d]);
    assert HoldsGuard(s.calls[d]) ==> IsGuarded(s, s.calls[d].transfer.workspace, d);
  }

  lemma {:induction false} ReservingFitsSpaces(s: State, t: Transfer)
    requires SpacesAgree(s) && SlotAgrees(s) && s.slot.Vacant? && Stored(s, t)
    ensures SpacesAgree(WithReserved(s, t))
  {
    var s' := WithReserved(s, t);
    forall w | w in s'.spaces ensures SpaceAgrees(s', w, s'.spaces[w]) {
      assert SpaceAgrees(s, w, s.spaces[w]);
    }
  }

  lemma {:induction false} ReservingFits(s: State, t: Transfer)
    requires InvBut(s, t.call) && s.slot.Vacant? && IsGuarded(s, t.workspace, t.call)
    requires Stored(s, t) && IsCallOf(s, t)
    ensures InvBut(WithReserved(s, t), t.call)
  {
    var s' := WithReserved(s, t);
    ReservingFitsSpaces(s, t);
    forall d | d in s'.calls && d != t.call ensures StationAgrees(s', s'.calls[d]) {
      ReservingFitsOther(s, t, d);
    }
    PastChanges(s, s', t.call);
  }

  lemma {:induction false} ActivatingFits(s: State, t: Transfer)
    requires InvBut(s, t.call) && s.slot == Reserved(t) && s.owner.None? && !Begun(s, t) && IsPublishing(s, t)
    ensures InvBut(WithActive(s, t), t.call)
  {
    var s' := WithActive(s, t);
    forall w | w in s'.spaces ensures SpaceAgrees(s', w, s'.spaces[w]) {
      assert SpaceAgrees(s, w, s.spaces[w]);
    }
    forall d | d in s'.calls && d != t.call ensures StationAgrees(s', s'.calls[d]) {
      assert IsNamed(s, d, s.calls[d]);
    }
    PastChanges(s, s', t.call);
  }

  function Cancelled(s: State, t: Transfer): State {
    s.(slot := Cleanup(t, true))
  }

  lemma {:induction false} CancellingFits(s: State, t: Transfer)
    requires InvBut(s, t.call) && s.slot == Reserved(t) && s.owner.None?
    ensures InvBut(Cancelled(s, t), t.call)
  {
    var s' := Cancelled(s, t);
    forall w | w in s'.spaces ensures SpaceAgrees(s', w, s'.spaces[w]) {
      assert SpaceAgrees(s, w, s.spaces[w]);
    }
    forall d | d in s'.calls && d != t.call ensures StationAgrees(s', s'.calls[d]) {
      assert IsNamed(s, d, s.calls[d]);
    }
    PastChanges(s, s', t.call);
  }

  function Retained(s: State, t: Transfer): State {
    s.(slot := Cleanup(t, false))
  }

  lemma {:induction false} RetainingFits(s: State, c: CallId, t: Transfer)
    requires InvBut(s, c) && s.slot == Active(t) && s.owner == Some(c)
    ensures InvBut(Retained(s, t), c)
  {
    var s' := Retained(s, t);
    forall w | w in s'.spaces ensures SpaceAgrees(s', w, s'.spaces[w]) {
      assert SpaceAgrees(s, w, s.spaces[w]);
    }
    forall d | d in s'.calls && d != c ensures StationAgrees(s', s'.calls[d]) {
      assert StationAgrees(s, s.calls[d]);
    }
    PastChanges(s, s', c);
  }

  function Freed(s: State): State {
    s.(slot := Released)
  }

  lemma {:induction false} ReleasingFits(s: State, c: CallId)
    requires InvBut(s, c) && s.owner == Some(c)
    requires s.slot.Vacant? || (InUse(s.slot) && s.slot.transfer.workspace in s.spaces
                                && ObservedClosed(s.spaces[s.slot.transfer.workspace], s.slot.transfer))
    ensures InvBut(Freed(s), c)
  {
    var s' := Freed(s);
    forall w | w in s'.spaces ensures SpaceAgrees(s', w, s'.spaces[w]) {
      assert SpaceAgrees(s, w, s.spaces[w]);
    }
    forall d | d in s'.calls && d != c ensures StationAgrees(s', s'.calls[d]) {
      assert StationAgrees(s, s.calls[d]);
    }
    PastChanges(s, s', c);
  }
}
