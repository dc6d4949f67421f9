/**
 The two-party commit between a workspace and the owner of its receipt.

 One receipt owner, any number of workspaces, any number of calls in flight. Each
 call is one run of `publish_into`, of the owner's `close`, of `consume` or of a
 state observation. A step is what one call does between two lock operations; a
 called operation may raise before or after its effect, so a step that contains
 one has several outcomes. Every call has its own number, and a publication is
 known by the number of the call that makes it.
 */
module Settlement {
  import opened Options

  type CallId = nat
  type WorkspaceId = nat

  datatype Transfer = Transfer(call: CallId, workspace: WorkspaceId)

  /** What the receipt owner's one slot holds. */
  datatype Slot =
    | Vacant
    | Reserved(transfer: Transfer)
    | Active(transfer: Transfer)
    | Cleanup(transfer: Transfer, abort: bool)
    | Released

  datatype Phase = Sealed | Reserving | Publishing | Published | Failed | Closed

  /** The native owner, by the tests the workspace makes on it. Retired is a receipted
      owner that has been closed. */
  datatype Native = Open | Receipted | Aborted | Retired

  datatype Workspace = Workspace(
    phase: Phase, transfer: Option<Transfer>, transferred: bool, native: Native)

  /** What the reconciliation read from the slot about its own transfer. */
  datatype Seen = SeenActive | SeenReserved | SeenRetain | SeenAbort | SeenAbsent

  datatype Use = Observing | Consuming | Closing

  /** Where a call stands. The names of the publishing call's stations are the
      lock or the operation it is about to reach. */
  datatype Station =
    | WaitPublish(transfer: Transfer)
    | InPublish(transfer: Transfer)
    | WaitReserve(transfer: Transfer)
    | InBody(transfer: Transfer)
    | WaitInstall(transfer: Transfer)
    | Installed(transfer: Transfer)
    | Committed(transfer: Transfer)
    | Returned(transfer: Transfer)
    | Checking(transfer: Transfer)
    | Reading(transfer: Transfer)
    | Cancelling(transfer: Transfer)
    | Rereading(transfer: Transfer)
    | Settling(transfer: Transfer, seen: Seen)
    | Settled(transfer: Transfer)
    | GaveUp(transfer: Transfer)
    | WaitOwner(use: Use)
    | InOwner(use: Use)
    | WaitNormalize(transfer: Transfer, use: Use)
    | WaitConsume(transfer: Transfer)
    | WaitClose(transfer: Transfer)
    | WaitClosed(transfer: Transfer)
    | Done

  /**
   `reserved` is the transfer the slot was given, if it ever was, and `activated`
   says that it became active: both only record the past, and no step reads them.
   `guards` maps a locked workspace to the call that holds its lock.
   */
  datatype State = State(
    slot: Slot,
    owner: Option<CallId>,
    guards: map<WorkspaceId, CallId>,
    spaces: map<WorkspaceId, Workspace>,
    calls: map<CallId, Station>,
    reserved: Option<Transfer>,
    activated: bool)

  predicate NativeClosed(n: Native) {
    n.Aborted? || n.Retired?
  }

  // ---- operations on one workspace; `ok` is false when the operation raises ----

  /** `_ensure_native_receipted_locked`. */
  predicate Ensured(a: Workspace, b: Workspace, ok: bool) {
    if NativeClosed(a.native) then
      b == a && (ok ==> a.phase.Closed?)
    else
      || b == a.(native := Receipted)
      || (!ok && b == a)
  }

  /** `_abort_native_owner_locked`. */
  predicate NativeAborted(a: Workspace, b: Workspace, ok: bool) {
    if NativeClosed(a.native) then b == a
    else if a.native.Receipted? then b == a && !ok
    else b == a.(native := Aborted) || (!ok && b == a)
  }

  /** Receipt, then exact close: the retaining branch of `_close_resources_locked`. */
  ghost predicate NativeRetired(a: Workspace, b: Workspace) {
    || Ensured(a, b, false)
    || (Ensured(a, b, true) && NativeClosed(b.native))
    || (exists m :: Ensured(a, m, true) && !NativeClosed(m.native) && b == m.(native := Retired))
  }

  /** `_close_resources_locked`: every resource is tried, whatever raised before it,
      and the workspace counts as closed only when all of them are. */
  ghost predicate ResourcesClosed(a: Workspace, b: Workspace, abort: bool) {
    if a.phase.Closed? then b == a
    else exists m ::
      && (if abort then exists ok :: NativeAborted(a, m, ok) else NativeRetired(a, m))
      && (b == m || (NativeClosed(m.native) && b == m.(phase := Closed)))
  }

  predicate Holds(a: Workspace, t: Transfer) {
    a.transfer == Some(t) && a.transferred
  }

  /** `_finish_publication_transfer_closed_locked`, on a closed workspace only. */
  predicate Finished(a: Workspace, b: Workspace, t: Transfer) {
    b == a || (a.phase.Closed? && Holds(a, t) && b == a.(transfer := None, transferred := false))
  }

  /** `_close_publication_transfer`. */
  ghost predicate TransferClosed(a: Workspace, b: Workspace, t: Transfer, abort: bool) {
    if !Holds(a, t) then b == a
    else b == a || exists m :: ResourcesClosed(a, m, abort) && Finished(m, b, t)
  }

  /** `_publication_transfer_closed`. */
  predicate ObservedClosed(a: Workspace, t: Transfer) {
    a.phase.Closed? && (a.transfer.None? || a.transfer == Some(t))
  }

  /** The body of `settle_workspace`, once the transfer is known to be the workspace's. */
  ghost predicate WorkspaceSettled(a: Workspace, b: Workspace, t: Transfer, seen: Seen, ok: bool) {
    match seen
    case SeenActive | SeenRetain =>
      if ok then exists m :: Ensured(a, m, true) && b == m.(phase := Published) else Ensured(a, b, false)
    case SeenAbort =>
      NativeAborted(a.(phase := Failed), b, ok)
    case SeenAbsent =>
      var given := a.(transferred := false, phase := Failed);
      if ok then
        exists m, n :: NativeAborted(given, m, true) && ResourcesClosed(m, n, true) && b == n.(transfer := None)
      else
        NativeAborted(given, b, false)
    case SeenReserved =>
      b == a && !ok
  }

  function SeenIn(slot: Slot, t: Transfer): Seen {
    match slot
    case Active(u) => if u == t then SeenActive else SeenAbsent
    case Reserved(u) => if u == t then SeenReserved else SeenAbsent
    case Cleanup(u, abort) => if u != t then SeenAbsent else if abort then SeenAbort else SeenRetain
    case Vacant | Released => SeenAbsent
  }

  // ---- steps ----

  datatype Event =
    | CallPublish(call: CallId, workspace: WorkspaceId)
    | Enter(call: CallId)
    | Store(call: CallId)
    | Reserve(call: CallId)
    | Body(call: CallId)
    | Install(call: CallId)
    | Commit(call: CallId)
    | Return(call: CallId)
    | Check(call: CallId)
    | Read(call: CallId)
    | Cancel(call: CallId)
    | Settle(call: CallId)
    | CallOwner(call: CallId, use: Use)
    | EnterOwner(call: CallId)
    | Dispatch(call: CallId)
    | Normalize(call: CallId)
    | Consume(call: CallId)
    | CloseTransfer(call: CallId)
    | ObserveClosed(call: CallId)
    | CloseWorkspace(workspace: WorkspaceId)

  function At(s: State, c: CallId, station: Station): State {
    s.(calls := s.calls[c := station])
  }

  function With(s: State, w: WorkspaceId, b: Workspace): State {
    s.(spaces := s.spaces[w := b])
  }

  /** Leaving a workspace's lock. */
  function Left(s: State, w: WorkspaceId): State {
    s.(guards := s.guards - {w})
  }

  /** An error inside the locked publication: the lock is left, and the outer handler
      starts the reconciliation. */
  function Raised(s: State, c: CallId, t: Transfer): State {
    At(Left(s, t.workspace), c, Checking(t))
  }

  /** Leaving the owner's lock for good. */
  function OwnerLeft(s: State, c: CallId): State {
    At(s.(owner := None), c, Done)
  }

  predicate Stands(s: State, c: CallId) {
    c in s.calls
  }

  predicate Free(s: State, w: WorkspaceId) {
    w in s.spaces && w !in s.guards
  }

  predicate CallPublishStep(s: State, s': State, c: CallId, w: WorkspaceId) {
    c !in s.calls && w in s.spaces && s' == At(s, c, WaitPublish(Transfer(c, w)))
  }

  predicate EnterStep(s: State, s': State, c: CallId) {
    && c in s.calls && s.calls[c].WaitPublish?
    && var t := s.calls[c].transfer;
    || s' == At(s, c, Checking(t))
    || (Free(s, t.workspace) && s' == At(s.(guards := s.guards[t.workspace := c]), c, InPublish(t)))
  }

  /** The sealed check, the transfer store and the two assignments after it. */
  predicate StoreStep(s: State, s': State, c: CallId) {
    && c in s.calls && s.calls[c].InPublish?
    && var t := s.calls[c].transfer;
    && t.workspace in s.spaces
    && var a := s.spaces[t.workspace];
    || s' == Raised(s, c, t)
    || (a.phase.Sealed? && s' == Raised(With(s, t.workspace, a.(transfer := Some(t))), c, t))
    || (a.phase.Sealed? && s' == At(With(s, t.workspace, Workspace(Reserving, Some(t), true, a.native)), c, WaitReserve(t)))
  }

  function WithReserved(s: State, t: Transfer): State {
    s.(slot := Reserved(t), reserved := Some(t))
  }

  /** `_reserve`, inside the workspace's lock. */
  predicate ReserveStep(s: State, s': State, c: CallId) {
    && c in s.calls && s.calls[c].WaitReserve?
    && var t := s.calls[c].transfer;
    && t.workspace in s.spaces
    && var a := s.spaces[t.workspace];
    || s' == Raised(s, c, t)
    || (s.owner.None? && s.slot.Vacant? && s' == Raised(WithReserved(s, t), c, t))
    || (s.owner.None? && s.slot.Vacant?
        && s' == At(With(WithReserved(s, t), t.workspace, a.(phase := Publishing)), c, InBody(t)))
  }

  /** The publication up to its commit callback, which is reached only through a
      rename made by an open native owner. */
  predicate BodyStep(s: State, s': State, c: CallId) {
    && c in s.calls && s.calls[c].InBody?
    && var t := s.calls[c].transfer;
    && t.workspace in s.spaces
    && (|| s' == Raised(s, c, t)
        || (s.spaces[t.workspace].native.Open? && s' == At(s, c, WaitInstall(t))))
  }

  function WithActive(s: State, t: Transfer): State {
    s.(slot := Active(t), activated := true)
  }

  /** `_install`: the slot store that decides the outcome. */
  predicate InstallStep(s: State, s': State, c: CallId) {
    && c in s.calls && s.calls[c].WaitInstall?
    && var t := s.calls[c].transfer;
    || s' == Raised(s, c, t)
    || (s.owner.None? && s.slot == Reserved(t) && s' == Raised(WithActive(s, t), c, t))
    || (s.owner.None? && s.slot == Reserved(t) && s' == At(WithActive(s, t), c, Installed(t)))
  }

  /** The rest of the commit callback: the native receipt, then the state. */
  ghost predicate CommitStep(s: State, s': State, c: CallId) {
    && c in s.calls && s.calls[c].Installed?
    && var t := s.calls[c].transfer;
    && t.workspace in s.spaces
    && exists b, ok ::
      && Ensured(s.spaces[t.workspace], b, ok)
      && s' == if ok
               then At(With(s, t.workspace, b.(phase := Published)), c, Committed(t))
               else Raised(With(s, t.workspace, b), c, t)
  }

  predicate ReturnStep(s: State, s': State, c: CallId) {
    && c in s.calls && s.calls[c].Committed?
    && var t := s.calls[c].transfer;
    || s' == Raised(s, c, t)
    || s' == At(Left(s, t.workspace), c, Returned(t))
  }

  /** The first look of the reconciliation; an error there, as anywhere in it, means
      another attempt or, after the last one, giving up. */
  predicate CheckStep(s: State, s': State, c: CallId) {
    && c in s.calls && s.calls[c].Checking?
    && var t := s.calls[c].transfer;
    || s' == s
    || s' == At(s, c, GaveUp(t))
    || (Free(s, t.workspace)
        && s' == At(s, c, if s.spaces[t.workspace].transfer == Some(t) then Reading(t) else Settled(t)))
  }

  predicate ReadStep(s: State, s': State, c: CallId) {
    && c in s.calls && (s.calls[c].Reading? || s.calls[c].Rereading?)
    && var t := s.calls[c].transfer;
    var seen := SeenIn(s.slot, t);
    || s' == At(s, c, Checking(t))
    || (s.owner.None?
        && s' == At(s, c, if !seen.SeenReserved? then Settling(t, seen)
                          else if s.calls[c].Reading? then Cancelling(t) else Checking(t)))
  }

  /** `_cancel_reservation`. */
  predicate CancelStep(s: State, s': State, c: CallId) {
    && c in s.calls && s.calls[c].Cancelling?
    && var t := s.calls[c].transfer;
    var cancelled := if s.slot == Reserved(t) then s.(slot := Cleanup(t, true)) else s;
    || s' == At(s, c, Checking(t))
    || (s.owner.None? && s' == At(cancelled, c, Checking(t)))
    || (s.owner.None? && s' == At(cancelled, c, Rereading(t)))
  }

  ghost predicate SettleStep(s: State, s': State, c: CallId) {
    && c in s.calls && s.calls[c].Settling?
    && var t := s.calls[c].transfer;
    var seen := s.calls[c].seen;
    || s' == At(s, c, Checking(t))
    || (&& Free(s, t.workspace)
        && var a := s.spaces[t.workspace];
        if a.transfer != Some(t) then s' == At(s, c, Settled(t))
        else exists b, ok ::
          && WorkspaceSettled(a, b, t, seen, ok)
          && s' == At(With(s, t.workspace, b), c, if ok then Settled(t) else Checking(t)))
  }

  predicate CallOwnerStep(s: State, s': State, c: CallId, use: Use) {
    c !in s.calls && s' == At(s, c, WaitOwner(use))
  }

  predicate EnterOwnerStep(s: State, s': State, c: CallId) {
    && c in s.calls && s.calls[c].WaitOwner?
    && (|| s' == At(s, c, Done)
        || (s.owner.None? && s' == At(s.(owner := Some(c)), c, InOwner(s.calls[c].use))))
  }

  predicate InUse(slot: Slot) {
    slot.Active? || slot.Cleanup?
  }

  /** The owner's lock is held; only a slot in use makes it look at a workspace. */
  predicate DispatchStep(s: State, s': State, c: CallId) {
    && c in s.calls && s.calls[c].InOwner?
    && var use := s.calls[c].use;
    || s' == OwnerLeft(s, c)
    || (InUse(s.slot) && s' == At(s, c, WaitNormalize(s.slot.transfer, use)))
    || (use.Closing? && s.slot.Vacant? && s' == OwnerLeft(s.(slot := Released), c))
  }

  predicate NormalizeStep(s: State, s': State, c: CallId) {
    && c in s.calls && s.calls[c].WaitNormalize?
    && var t := s.calls[c].transfer;
    var use := s.calls[c].use;
    || s' == OwnerLeft(s, c)
    || (&& Free(s, t.workspace)
        && if ObservedClosed(s.spaces[t.workspace], t) then s' == OwnerLeft(s.(slot := Released), c)
           else match use
           case Observing => s' == OwnerLeft(s, c)
           case Consuming => s' == if s.slot == Active(t) then At(s, c, WaitConsume(t)) else OwnerLeft(s, c)
           case Closing =>
             s' == At(if s.slot == Active(t) then s.(slot := Cleanup(t, false)) else s, c, WaitClose(t)))
  }

  /** `_consume_published_workspace`; its callback takes no locks. */
  ghost predicate ConsumeStep(s: State, s': State, c: CallId) {
    && c in s.calls && s.calls[c].WaitConsume?
    && var t := s.calls[c].transfer;
    || s' == OwnerLeft(s, c)
    || (&& Free(s, t.workspace)
        && var a := s.spaces[t.workspace];
        && a.phase.Published? && a.transfer == Some(t)
        && exists b, ok :: Ensured(a, b, ok) && s' == OwnerLeft(With(s, t.workspace, b), c))
  }

  ghost predicate CloseTransferStep(s: State, s': State, c: CallId) {
    && c in s.calls && s.calls[c].WaitClose?
    && var t := s.calls[c].transfer;
    && s.slot.Cleanup?
    && (|| s' == At(s, c, WaitClosed(t))
        || (&& Free(s, t.workspace)
            && exists b ::
              && TransferClosed(s.spaces[t.workspace], b, t, s.slot.abort)
              && s' == At(With(s, t.workspace, b), c, WaitClosed(t))))
  }

  predicate ObserveClosedStep(s: State, s': State, c: CallId) {
    && c in s.calls && s.calls[c].WaitClosed?
    && var t := s.calls[c].transfer;
    || s' == OwnerLeft(s, c)
    || (&& Free(s, t.workspace)
        && s' == OwnerLeft(if ObservedClosed(s.spaces[t.workspace], t) then s.(slot := Released) else s, c))
  }

  /** The workspace's own `close`, refused once a transfer has the resources. */
  ghost predicate CloseWorkspaceStep(s: State, s': State, w: WorkspaceId) {
    && Free(s, w)
    && (if s.spaces[w].transferred then s' == s
        else exists b :: ResourcesClosed(s.spaces[w], b, true) && s' == With(s, w, b))
  }

  ghost predicate Step(s: State, e: Event, s': State) {
    match e
    case CallPublish(c, w) => CallPublishStep(s, s', c, w)
    case Enter(c) => EnterStep(s, s', c)
    case Store(c) => StoreStep(s, s', c)
    case Reserve(c) => ReserveStep(s, s', c)
    case Body(c) => BodyStep(s, s', c)
    case Install(c) => InstallStep(s, s', c)
    case Commit(c) => CommitStep(s, s', c)
    case Return(c) => ReturnStep(s, s', c)
    case Check(c) => CheckStep(s, s', c)
    case Read(c) => ReadStep(s, s', c)
    case Cancel(c) => CancelStep(s, s', c)
    case Settle(c) => SettleStep(s, s', c)
    case CallOwner(c, use) => CallOwnerStep(s, s', c, use)
    case EnterOwner(c) => EnterOwnerStep(s, s', c)
    case Dispatch(c) => DispatchStep(s, s', c)
    case Normalize(c) => NormalizeStep(s, s', c)
    case Consume(c) => ConsumeStep(s, s', c)
    case CloseTransfer(c) => CloseTransferStep(s, s', c)
    case ObserveClosed(c) => ObserveClosedStep(s, s', c)
    case CloseWorkspace(w) => CloseWorkspaceStep(s, s', w)
  }

  predicate Initial(s: State) {
    && s.slot.Vacant? && s.owner.None? && s.guards == map[] && s.calls == map[]
    && s.reserved.None? && !s.activated
    && (forall w :: w in s.spaces ==> s.spaces[w] == Workspace(Sealed, None, false, Open))
  }

  ghost predicate IsRun(states: seq<State>, events: seq<Event>) {
    && |states| == |events| + 1
    && Initial(states[0])
    && (forall i :: 0 <= i < |events| ==> Step(states[i], events[i], states[i + 1]))
  }
}
