/**
 Deleting a quarantined tree with a cursor that survives any interruption.

 The file system below the quarantined root is a map from paths to the entries that
 are there; nobody else writes to it. Removing an entry changes the version of the
 directory it stood in, but not its binding. A removal may raise before or after it
 has taken effect, and every other called operation may raise.
 */
module Reclaim {
  import opened Bytes
  import opened Options
  import opened Paths
  import opened OwnershipTree
  import OwnershipContents
  import opened OwnershipRebuild
  import opened OwnershipToken
  import opened Sorting

  // ---- the removal order

  /** The key of the reversed sort: the number of parts, then the path. */
  predicate KeyAtMost(a: Named, b: Named) {
    |a.path| < |b.path| || (|a.path| == |b.path| && !Less(Rel(b.path), Rel(a.path)))
  }

  lemma {:induction false} KeyIsPreorder()
    ensures Preorder(KeyAtMost)
  {
    forall x, y ensures KeyAtMost(x, y) || KeyAtMost(y, x) {
      LessIsTotal(Rel(x.path), Rel(y.path));
    }
    forall x, y, z | KeyAtMost(x, y) && KeyAtMost(y, z) ensures KeyAtMost(x, z) {
      var a, b, c := Rel(x.path), Rel(y.path), Rel(z.path);
      LessIsTotal(a, b);
      LessIsTotal(b, c);
      LessIsTotal(a, c);
      if |x.path| == |y.path| == |z.path| && Less(c, a) {
        if Less(a, b) { LessIsTransitive(c, a, b); }
      }
    }
  }

  /** `_quiescent_reclaim_entries`: nothing for a tree with a hard-linked file. */
  function ReclaimEntries(ids: seq<Named>): Option<seq<Named>> {
    if exists i :: 0 <= i < |ids| && ids[i].kind == Regular && ids[i].id.links != 1 then None
    else Some(StableSort(Reversed(KeyAtMost), ids))
  }

  ghost predicate HardLinked(root: Node, p: Path) {
    OwnershipContents.Holds(root, p, Regular) && Lookup(root, p).value.id.links != 1
  }

  lemma {:induction false} RefusalTells(root: Node, ids: seq<Named>)
    requires OwnershipContents.ListsIdentities(root, ids)
    ensures ReclaimEntries(ids).None? <==> exists p :: HardLinked(root, p)
  {
    if i :| 0 <= i < |ids| && ids[i].kind == Regular && ids[i].id.links != 1 {
      var x := ids[i];
      assert x == Named(x.path, Regular, x.id) && x in ids;
      assert HardLinked(root, x.path);
    }
    if p :| HardLinked(root, p) {
      var x := Named(p, Regular, Lookup(root, p).value.id);
      assert x in ids;
      var i :| 0 <= i < |ids| && ids[i] == x;
    }
  }

  lemma {:induction false} OrderTells(root: Node, ids: seq<Named>, order: seq<Named>)
    requires OwnershipContents.ListsIdentities(root, ids) && multiset(order) == multiset(ids)
    ensures OwnershipContents.ListsIdentities(root, order)
  {
    forall x ensures x in order <==> x in ids {
      assert x in multiset(order) <==> x in multiset(ids);
    }
  }

  /** Main result: exactly a tree that holds a file with another name elsewhere, or with
      none, is refused; of any other tree everything is listed, and nothing else. */
  lemma {:induction false} RefusedForHardLinks(h: Hash, root: Node)
    requires Scannable(root)
    ensures var order := ReclaimEntries(Capture(h, root).identities);
            && (order.None? <==> exists p :: HardLinked(root, p))
            && (order.Some? ==> OwnershipContents.ListsIdentities(root, order.value))
  {
    var ids := Capture(h, root).identities;
    OwnershipContents.CaptureTellsTheTree(h, root);
    RefusalTells(root, ids);
    if ReclaimEntries(ids).Some? {
      KeyIsPreorder();
      ReversedIsPreorder(KeyAtMost);
      StableSortIsStable(Reversed(KeyAtMost), ids);
      OrderTells(root, ids, ReclaimEntries(ids).value);
    }
  }

  ghost predicate PathsDiffer(ids: seq<Named>) {
    forall i, j :: 0 <= i < j < |ids| ==> ids[i].path != ids[j].path
  }

  /** No entry comes before one that stands below it. */
  ghost predicate BottomUp(order: seq<Named>) {
    forall i, j :: 0 <= i < j < |order| ==> !(order[i].path < order[j].path)
  }

  lemma {:induction false} InsertKeepsDistinct(le: (Named, Named) -> bool, x: Named, s: seq<Named>)
    requires PathsDiffer(s) && forall y :: y in s ==> y.path != x.path
    ensures PathsDiffer(Insert(le, x, s)) && forall y :: y in Insert(le, x, s) <==> y == x || y in s
  {
    if s != [] && !le(x, s[0]) {
      InsertKeepsDistinct(le, x, s[1..]);
      assert s == [s[0]] + s[1..];
      forall y | y in Insert(le, x, s[1..]) ensures y.path != s[0].path {
        if y != x {
          var k :| 0 <= k < |s[1..]| && s[1..][k] == y;
          assert s[k + 1] == y;
        }
      }
    }
  }

  lemma {:induction false} SortKeepsDistinct(le: (Named, Named) -> bool, ids: seq<Named>)
    requires PathsDiffer(ids)
    ensures PathsDiffer(StableSort(le, ids)) && forall y :: y in StableSort(le, ids) <==> y in ids
  {
    if ids != [] {
      SortKeepsDistinct(le, ids[1..]);
      InsertKeepsDistinct(le, ids[0], StableSort(le, ids[1..]));
      assert ids == [ids[0]] + ids[1..];
    }
  }

  /** The order removes everything once, and every directory after what is below it. */
  lemma {:induction false} ReclaimOrder(ids: seq<Named>)
    requires PathsDiffer(ids) && ReclaimEntries(ids).Some?
    ensures var order := ReclaimEntries(ids).value;
            PathsDiffer(order) && BottomUp(order) && multiset(order) == multiset(ids)
  {
    KeyIsPreorder();
    ReversedIsPreorder(KeyAtMost);
    StableSortIsStable(Reversed(KeyAtMost), ids);
    SortKeepsDistinct(Reversed(KeyAtMost), ids);
  }

  // ---- the cursor

  datatype Phase = Pending | Attempted | Removed

  datatype RootPhase = RootPending | RootAttempted | RootRemoved | RootSynced

  /** The five fields of an identity that removing entries below does not change. */
  function Binding(id: Identity): (int, int, int, int, int) {
    (id.device, id.inode, id.mode, id.size, id.attributes)
  }

  /** The entry found is the captured one: the version of a file, the binding of a directory. */
  predicate Matches(found: Entry, kind: Kind, id: Identity) {
    found.kind == kind && (if kind == Directory then Binding(found.id) == Binding(id) else found.id == id)
  }

  function ParentOf(path: Path): Path
    requires path != []
  {
    path[..|path| - 1]
  }

  /** Every entry of the order stands in a directory of the order, or in the root. */
  ghost predicate Rooted(order: seq<Named>) {
    forall i :: 0 <= i < |order| ==>
      && order[i].path != []
      && forall k :: 0 < k < |order[i].path| ==> HasDirectory(order, order[i].path[..k])
  }

  ghost predicate HasDirectory(order: seq<Named>, path: Path) {
    exists j :: 0 <= j < |order| && order[j].path == path && order[j].kind == Directory
  }

  ghost predicate Listed(order: seq<Named>, identities: Entries) {
    && PathsDiffer(order) && BottomUp(order) && Rooted(order)
    && (forall i :: 0 <= i < |order| ==> EntryIn(order[i], identities))
  }

  predicate IsThere(e: Named, present: Entries) {
    e.path in present && Matches(present[e.path], e.kind, e.id)
  }

  ghost predicate AllThere(order: seq<Named>, from: nat, present: Entries) {
    forall i :: from <= i < |order| ==> IsThere(order[i], present)
  }

  ghost predicate NothingElse(order: seq<Named>, from: nat, present: Entries) {
    forall p :: p in present ==> exists i :: from <= i < |order| && order[i].path == p
  }

  /** The entries after one has been removed and its parent has got another version. */
  function Without(present: Entries, path: Path, version: Identity): Entries
    requires path != []
  {
    var rest, parent := present - {path}, ParentOf(path);
    if parent in rest then rest[parent := Entry(rest[parent].kind, version)] else rest
  }

  lemma {:induction false} ParentIsDirectory(order: seq<Named>, at: nat, i: nat)
    requires PathsDiffer(order) && Rooted(order) && at < |order| && i < |order| && |order[at].path| > 1
    requires order[i].path == ParentOf(order[at].path)
    ensures order[i].kind == Directory
  {
    var k := |order[at].path| - 1;
    var j :| 0 <= j < |order| && order[j].path == order[at].path[..k] && order[j].kind == Directory;
  }

  /** Removing the entry at the cursor leaves everything after it as captured. */
  lemma {:induction false} RestStays(order: seq<Named>, at: nat, present: Entries, version: Identity)
    requires PathsDiffer(order) && Rooted(order) && at < |order| && AllThere(order, at + 1, present)
    requires NothingElse(order, at, present)
    requires var p := ParentOf(order[at].path); p in present ==> Binding(version) == Binding(present[p].id)
    ensures AllThere(order, at + 1, Without(present, order[at].path, version))
    ensures NothingElse(order, at, Without(present, order[at].path, version))
    ensures order[at].path !in Without(present, order[at].path, version)
  {
    var after := Without(present, order[at].path, version);
    forall i | at + 1 <= i < |order| ensures IsThere(order[i], after) {
      assert IsThere(order[i], present);
      if order[i].path == ParentOf(order[at].path) {
        ParentIsDirectory(order, at, i);
      }
    }
    forall p | p in after ensures exists i :: at <= i < |order| && order[i].path == p {
      assert p in present;
    }
  }

  /** A directory at the cursor is empty: what stood below it came before. */
  lemma {:induction false} CursorIsChildless(order: seq<Named>, at: nat, present: Entries)
    requires BottomUp(order) && at < |order| && NothingElse(order, at, present)
    ensures Childless(order[at].path, present)
  {
    forall p | p in present ensures !(order[at].path < p) {
      var i :| at <= i < |order| && order[i].path == p;
    }
  }

  ghost predicate Childless(path: Path, present: Entries) {
    forall p :: p in present ==> !(path < p)
  }

  lemma {:induction false} AncestorIsThere(order: seq<Named>, identities: Entries, at: nat, present: Entries, k: nat)
    requires Listed(order, identities) && at < |order| && AllThere(order, at + 1, present)
    requires 0 < k < |order[at].path|
    ensures var p := order[at].path[..k];
            && p in identities && identities[p].kind == Directory
            && p in present && Matches(present[p], Directory, identities[p].id)
  {
    var p := order[at].path[..k];
    var j :| 0 <= j < |order| && order[j].path == p && order[j].kind == Directory;
    assert p < order[at].path;
    assert IsThere(order[j], present);
  }

  predicate EntryIn(e: Named, entries: Entries) {
    e.path in entries && entries[e.path] == Entry(e.kind, e.id)
  }

  /** The list and the map say the same. */
  ghost predicate Lists(ids: seq<Named>, entries: Entries) {
    (forall e :: e in ids ==> EntryIn(e, entries)) && NothingElse(ids, 0, entries)
  }

  lemma {:induction false} CapturedLists(ids: seq<Named>)
    requires PathsDiffer(ids)
    ensures Lists(ids, EntriesIn(ids))
  {
    EntriesInAt(ids);
    forall p | p in EntriesIn(ids) ensures exists i :: 0 <= i < |ids| && ids[i].path == p {
      var k :| 0 <= k < |ids| && NamedPaths(ids)[k] == p;
    }
  }

  lemma {:induction false} ReorderedLists(ids: seq<Named>, order: seq<Named>, entries: Entries)
    requires Lists(ids, entries) && forall e :: e in order <==> e in ids
    ensures Lists(order, entries)
  {
    forall p | p in entries ensures exists i :: 0 <= i < |order| && order[i].path == p {
      var k :| 0 <= k < |ids| && ids[k].path == p;
      assert ids[k] in order;
    }
  }

  lemma {:induction false} AncestorIsListed(order: seq<Named>, entries: Entries, i: nat, k: nat)
    requires Lists(order, entries) && [] !in entries && Closed(entries) && i < |order| && 0 < k < |order[i].path|
    ensures HasDirectory(order, order[i].path[..k])
  {
    var p, q := order[i].path[..k], order[i].path[k..];
    assert p + q == order[i].path && EntryIn(order[i], entries);
    AncestorsStand(entries, p, q);
    var j :| 0 <= j < |order| && order[j].path == p;
    assert EntryIn(order[j], entries);
  }

  lemma {:induction false} ListedIsRooted(order: seq<Named>, entries: Entries)
    requires Lists(order, entries) && [] !in entries && Closed(entries)
    ensures Rooted(order)
  {
    forall i, k | 0 <= i < |order| && 0 < k < |order[i].path|
      ensures HasDirectory(order, order[i].path[..k])
    {
      AncestorIsListed(order, entries, i, k);
    }
    forall i | 0 <= i < |order| ensures order[i].path != [] {
      assert EntryIn(order[i], entries);
    }
  }

  lemma {:induction false} ListedIsThere(order: seq<Named>, entries: Entries)
    requires Lists(order, entries)
    ensures AllThere(order, 0, entries)
    ensures forall i :: 0 <= i < |order| ==> EntryIn(order[i], entries)
  {
    forall i | 0 <= i < |order| ensures IsThere(order[i], entries) && EntryIn(order[i], entries) {
      assert order[i] in order;
    }
  }

  /** A captured tree, put in removal order, is what the cursor runs over. */
  lemma {:induction false} CapturedIsListed(ids: seq<Named>, order: seq<Named>)
    requires PathsDiffer(ids) && [] !in EntriesIn(ids) && Closed(EntriesIn(ids))
    requires ReclaimEntries(ids) == Some(order)
    ensures Listed(order, EntriesIn(ids))
    ensures AllThere(order, 0, EntriesIn(ids)) && NothingElse(order, 0, EntriesIn(ids))
  {
    var entries := EntriesIn(ids);
    ReclaimOrder(ids);
    SortKeepsDistinct(Reversed(KeyAtMost), ids);
    CapturedLists(ids);
    ReorderedLists(ids, order, entries);
    ListedIsRooted(order, entries);
    ListedIsThere(order, entries);
  }

  class Reclaimer {
    const order: seq<Named>
    const identities: Entries
    const rootIdentity: RootIdentity

    var index: nat
    var phase: Phase
    var rootPhase: RootPhase

    // The file system, with the directories in which something was removed that has
    // not been synchronised yet.
    var present: Entries
    var root: Option<Identity>
    ghost var unsynced: set<Path>
    ghost var rootUnsynced: bool
    ghost var faults: nat

    /** The entries before the cursor are gone, those after it are as captured, and the
        one at the cursor is gone only if its removal has been attempted. */
    ghost predicate CursorAgrees()
      reads `index, `phase, `present, `unsynced
    {
      && index <= |order|
      && NothingElse(order, index, present) && AllThere(order, index + 1, present)
      && (index < |order| ==>
            match phase
            case Pending => IsThere(order[index], present) && unsynced == {}
            case Attempted => order[index].path !in present || (IsThere(order[index], present) && unsynced == {})
            case Removed => order[index].path !in present)
      && (index == |order| ==> phase == Pending)
    }

    ghost predicate RootAgrees()
      reads `index, `rootPhase, `root, `rootUnsynced
    {
      && (rootPhase != RootPending ==> index == |order|)
      && (root.Some? ==> RootOf(root.value) == rootIdentity && !rootUnsynced)
      && match rootPhase
         case RootPending => root.Some?
         case RootAttempted => true
         case RootRemoved => root.None?
         case RootSynced => root.None? && !rootUnsynced
    }

    /** Only the parent of the entry at the cursor may be waiting for its synchronisation. */
    ghost predicate SyncAgrees()
      reads `index, `unsynced
    {
      forall d :: d in unsynced ==> index < |order| && order[index].path != [] && d == ParentOf(order[index].path)
    }

    ghost predicate Valid()
      reads `index, `phase, `present, `unsynced, `rootPhase, `root, `rootUnsynced
    {
      && Listed(order, identities)
      && CursorAgrees() && SyncAgrees() && RootAgrees()
    }

    /** Any call that only reads: it can only raise. */
    method Call() returns (ok: bool)
      requires Valid()
      modifies this`faults
      ensures Valid() && faults == old(faults) + (if ok then 0 else 1)
    {
      ok := *;
      if !ok {
        faults := faults + 1;
      }
    }

    /** `stat` of one name in its directory. */
    method Stat(path: Path) returns (ok: bool, found: Option<Entry>)
      requires Valid()
      modifies this`faults
      ensures Valid() && faults == old(faults) + (if ok then 0 else 1)
      ensures ok ==> found == if path in present then Some(present[path]) else None
    {
      ok := Call();
      found := if path in present then Some(present[path]) else None;
    }

    /** `fsync` of the directory of the entry at the cursor. */
    method Sync(parent: Path) returns (ok: bool)
      requires Valid()
      modifies this`faults, this`unsynced
      ensures Valid()
      ensures faults == old(faults) + (if ok then 0 else 1)
      ensures ok ==> parent !in unsynced
    {
      ok := *;
      var reached: bool := *;
      if ok || reached {
        unsynced := unsynced - {parent};
      }
      if !ok {
        faults := faults + 1;
      }
    }

    /** `_quiescent_reclaim_parent_descriptor`: every directory on the way is still the
        captured one. */
    method OpenParent() returns (ok: bool)
      requires Valid() && index < |order|
      modifies this`faults
      ensures Valid() && (ok ==> faults == old(faults)) && (!ok ==> faults > old(faults))
    {
      var path := order[index].path;
      ok := Call();
      var k := 1;
      while ok && k < |path|
        invariant Valid() && (ok ==> faults == old(faults)) && (!ok ==> faults > old(faults))
        invariant 1 <= k
      {
        AncestorIsThere(order, identities, index, present, k);
        var prefix := path[..k];
        var seen, found := Stat(prefix);
        ok := && seen && prefix in identities && identities[prefix].kind == Directory
              && found.Some? && Matches(found.value, Directory, identities[prefix].id);
        k := k + 1;
      }
    }

    /** `os.listdir` of a directory that is about to be removed. */
    method IsEmpty(path: Path) returns (ok: bool, empty: bool)
      requires Valid()
      modifies this`faults
      ensures Valid() && faults == old(faults) + (if ok then 0 else 1)
      ensures ok ==> (empty <==> Childless(path, present))
    {
      ok := Call();
      empty := !exists p :: p in present && path < p;
    }

    /** A directory whose contents have changed: only its times and its link count do. */
    method Touched(id: Identity) returns (r: Identity)
      ensures Binding(r) == Binding(id)
    {
      var mtime, ctime, links := *, *, *;
      r := id.(mtime := mtime, ctime := ctime, links := links);
    }

    /** The entry at the cursor gone, and its parent changed. */
    method Rest() returns (rest: Entries)
      requires Valid() && index < |order|
      ensures AllThere(order, index + 1, rest) && NothingElse(order, index, rest) && order[index].path !in rest
    {
      var path := order[index].path;
      var parent := ParentOf(path);
      var version := Touched(if parent in present then present[parent].id else order[index].id);
      RestStays(order, index, present, version);
      rest := Without(present, path, version);
    }

    /** What a removal leaves. */
    method Detach()
      requires Valid() && index < |order| && phase == Attempted && IsThere(order[index], present)
      modifies this`present, this`root, this`unsynced
      ensures Valid() && order[index].path !in present
      ensures unsynced == {ParentOf(order[index].path)}
    {
      var rest := Rest();
      TouchRoot(ParentOf(order[index].path));
      present, unsynced := rest, {ParentOf(order[index].path)};
    }

    /** The root, too, gets another version when something is removed in it. */
    method TouchRoot(parent: Path)
      requires Valid()
      modifies this`root
      ensures Valid()
    {
      if parent == [] && root.Some? {
        var id := Touched(root.value);
        root := Some(id);
      }
    }

    /** `unlink`, or `rmdir`, which is only ever called on an empty directory. */
    method Remove() returns (ok: bool)
      requires Valid() && index < |order| && phase == Attempted && IsThere(order[index], present)
      requires order[index].kind == Directory ==> Childless(order[index].path, present)
      modifies this`present, this`root, this`unsynced, this`faults
      ensures Valid()
      ensures faults == old(faults) + (if ok then 0 else 1)
      ensures ok ==> order[index].path !in present
    {
      ok := *;
      var reached: bool := *;
      if ok || reached {
        Detach();
      }
      if !ok {
        faults := faults + 1;
      }
    }

    /** `_require_quiescent_directory_empty`, for the entry at the cursor. */
    method RequireEmpty() returns (ok: bool)
      requires Valid() && index < |order|
      modifies this`faults
      ensures Valid() && (ok ==> faults == old(faults) && Childless(order[index].path, present)) && (!ok ==> faults > old(faults))
    {
      var listed, empty := IsEmpty(order[index].path);
      CursorIsChildless(order, index, present);
      ok := listed && empty;
    }

    /** The removal proper, and what is made of its failure. */
    method Attempt() returns (ok: bool)
      requires Valid() && index < |order| && phase != Removed && IsThere(order[index], present) && unsynced == {}
      modifies this`present, this`root, this`unsynced, this`faults, this`phase
      ensures Valid() && (ok ==> faults == old(faults) && phase == Removed) && (!ok ==> faults > old(faults))
    {
      var e := order[index];
      ok := true;
      if e.kind == Directory {
        ok := RequireEmpty();
      }
      if ok {
        phase := Attempted;
        ok := Remove();
        if ok {
          phase := Removed;
        } else {
          Reconcile();
        }
      }
    }

    /** After a failed removal: another look at the name settles whether it is gone. */
    method Reconcile()
      requires Valid() && index < |order| && phase == Attempted
      modifies this`faults, this`phase
      ensures Valid() && faults >= old(faults)
    {
      var seen, found := Stat(order[index].path);
      if seen && found.None? {
        phase := Removed;
      }
    }

    /** The entry at the cursor when its removal has not been established. */
    method Examine() returns (ok: bool)
      requires Valid() && index < |order| && phase != Removed
      modifies this`present, this`root, this`unsynced, this`faults, this`phase
      ensures Valid() && (ok ==> faults == old(faults) && phase == Removed) && (!ok ==> faults > old(faults))
    {
      var e := order[index];
      var seen, found := Stat(e.path);
      ok := seen && ((found.None? && phase == Attempted) || (found.Some? && Matches(found.value, e.kind, e.id)));
      if ok {
        if found.None? {
          phase := Removed;
        } else {
          ok := Attempt();
        }
      }
    }

    /** `_quiescent_reclaim_entry`. Without a fault it takes the cursor one phase on. */
    method ReclaimEntry() returns (ok: bool)
      requires Valid() && index < |order|
      modifies this`present, this`root, this`unsynced, this`faults, this`phase, this`index
      ensures Valid() && old(index) <= index <= old(index) + 1
      ensures !ok ==> faults > old(faults)
      ensures ok ==> && faults == old(faults)
                     && if old(phase) == Removed then index == old(index) + 1
                        else index == old(index) && phase == Removed
      ensures index == old(index) + 1 ==> ParentOf(order[old(index)].path) !in unsynced
    {
      var e := order[index];
      ok := OpenParent();
      if ok {
        if phase == Removed {
          ok := Sync(ParentOf(e.path));
          if ok {
            Advance();
          }
        } else {
          ok := Examine();
        }
        if ok {
          ok := Call();
        }
      }
    }

    method Advance()
      requires Valid() && index < |order| && phase == Removed && unsynced == {}
      modifies this`index, this`phase
      ensures Valid() && index == old(index) + 1 && phase == Pending
    {
      assert index + 1 < |order| ==> IsThere(order[index + 1], present);
      index, phase := index + 1, Pending;
    }

    // ---- the root

    /** `_require_quiescent_directory_empty` and the look at the root's own name. */
    method ExamineRoot() returns (ok: bool)
      requires Valid() && index == |order|
      modifies this`faults
      ensures Valid() && (ok ==> faults == old(faults)) && (!ok ==> faults > old(faults))
    {
      ok := Call();
      if ok {
        ok := Call();
        assert forall p :: p !in present;
        ok := ok && present == map[] && (root.Some? ==> RootOf(root.value) == rootIdentity);
      }
    }

    /** `rmdir` of the root, which is only ever called on an empty one. */
    method RemoveRoot() returns (ok: bool)
      requires Valid() && rootPhase == RootAttempted && present == map[]
      modifies this`root, this`rootUnsynced, this`faults
      ensures Valid() && faults == old(faults) + (if ok then 0 else 1)
      ensures ok ==> root.None?
    {
      ok := *;
      var reached: bool := *;
      if (ok || reached) && root.Some? {
        root, rootUnsynced := None, true;
      }
      if !ok {
        faults := faults + 1;
      }
    }

    method SyncRoot() returns (ok: bool)
      requires Valid() && root.None?
      modifies this`faults, this`rootUnsynced
      ensures Valid() && faults == old(faults) + (if ok then 0 else 1)
      ensures ok ==> !rootUnsynced
    {
      ok := *;
      var reached: bool := *;
      if ok || reached {
        rootUnsynced := false;
      }
      if !ok {
        faults := faults + 1;
      }
    }

    /** The removal of the root, and what is made of its failure. */
    method AttemptRoot() returns (ok: bool)
      requires Valid() && index == |order| && present == map[]
      requires (rootPhase == RootPending || rootPhase == RootAttempted) && root.Some?
      modifies this`root, this`rootUnsynced, this`faults, this`rootPhase
      ensures Valid() && (ok ==> faults == old(faults) && rootPhase == RootRemoved) && (!ok ==> faults > old(faults))
    {
      rootPhase := RootAttempted;
      ok := RemoveRoot();
      if ok {
        rootPhase := RootRemoved;
      } else {
        var seen := Call();
        if seen && root.None? {
          rootPhase := RootRemoved;
        }
      }
    }

    /** `_quiescent_reclaim_root`. Without a fault it takes the root one phase on. */
    method ReclaimRoot() returns (ok: bool)
      requires Valid() && index == |order|
      modifies this`root, this`rootUnsynced, this`faults, this`rootPhase
      ensures Valid() && (ok ==> faults == old(faults)) && (!ok ==> faults > old(faults))
      ensures ok ==> if old(rootPhase) == RootRemoved || old(rootPhase) == RootSynced
                     then rootPhase == RootSynced else rootPhase == RootRemoved
    {
      ok := true;
      if rootPhase == RootRemoved {
        ok := SyncRoot();
        if ok {
          ok := Call();
        }
        if ok {
          rootPhase := RootSynced;
        }
      } else if rootPhase != RootSynced {
        ok := ExamineRoot();
        if ok {
          if root.None? {
            rootPhase := RootRemoved;
          } else {
            ok := AttemptRoot();
          }
        }
      }
    }

    /** The loop over the entries. */
    method ReclaimAll() returns (done: bool)
      requires Valid()
      modifies this`present, this`root, this`unsynced, this`faults, this`phase, this`index
      ensures Valid() && index >= old(index)
      ensures !done ==> faults > old(faults)
      ensures done ==> faults == old(faults) && index == |order|
    {
      done := true;
      while done && index < |order|
        invariant Valid() && index >= old(index) && (!done ==> faults > old(faults)) && (done ==> faults == old(faults))
        decreases done, |order| - index, if phase == Removed then 0 else 1
      {
        done := ReclaimEntry();
      }
    }

    lemma {:induction false} EndIsEmpty()
      requires Valid() && index == |order|
      ensures present == map[] && unsynced == {}
    {
      assert forall p :: p !in present;
    }

    /**
     `_resume`: called again after every failure, from any state it has left. It
     completes unless something raises, and when it completes the whole tree is gone
     and every removal has been synchronised.
     */
    method Resume() returns (done: bool)
      requires Valid()
      modifies this`present, this`root, this`unsynced, this`faults, this`phase, this`index, this`rootPhase, this`rootUnsynced
      ensures Valid() && index >= old(index)
      ensures !done ==> faults > old(faults)
      ensures done ==> present == map[] && root.None? && rootPhase == RootSynced && unsynced == {} && !rootUnsynced
    {
      done := Call();
      if done {
        done := ReclaimAll();
      }
      if done {
        EndIsEmpty();
        done := ReclaimRoot();
      }
      if done && rootPhase != RootSynced {
        done := ReclaimRoot();
      }
      if done {
        done := Call();
      }
    }

    /** The state of a reclaim that has not begun, of a tree that has just been captured. */
    constructor (ids: seq<Named>, rootId: Identity, removalOrder: seq<Named>)
      requires PathsDiffer(ids) && [] !in EntriesIn(ids) && Closed(EntriesIn(ids))
      requires ReclaimEntries(ids) == Some(removalOrder)
      ensures Valid() && order == removalOrder && rootIdentity == RootOf(rootId)
      ensures index == 0 && phase == Pending && rootPhase == RootPending && faults == 0
      ensures present == EntriesIn(ids) && root == Some(rootId)
    {
      CapturedIsListed(ids, removalOrder);
      order, identities, rootIdentity := removalOrder, EntriesIn(ids), RootOf(rootId);
      index, phase, rootPhase := 0, Pending, RootPending;
      present, root, unsynced, rootUnsynced, faults := EntriesIn(ids), Some(rootId), {}, false, 0;
      new;
      assert Listed(order, identities) && CursorAgrees();
      assert SyncAgrees() && RootAgrees();
    }
  }
}
