/** Accepted plans and the limits of the ownership scanner. */
module PlanLimits {
  import opened Options
  import opened OwnershipCapture
  import opened OwnershipScan
  import opened OwnershipSums
  import opened OwnershipToken
  import opened OwnershipTree
  import opened Paths
  import opened Permutations
  import Orders
  import P = Plan

  /** A tree realises a plan: its entries are the planned ones, and no file is larger
      than its slot. */
  ghost predicate Realises(root: Node, p: P.Plan) {
    && root.Dir?
    && (forall q :: q in PathsOf(root) <==> q in P.AllPaths(p.directories, p.files))
    && (forall q :: q in FilesOf(root) ==> FitsSlot(root, p, q))
  }

  ghost predicate FitsSlot(root: Node, p: P.Plan, q: Path) {
    exists f :: f in p.files && f.path == q && Lookup(root, q).Some? && Lookup(root, q).value.File?
                && Size(Lookup(root, q).value.id) <= f.maxBytes
  }

  lemma {:induction false} PlanPathsOnce(fold: P.Fold, p: P.Plan)
    requires P.Apart(fold, P.AllPaths(p.directories, p.files))
    ensures forall x :: multiset(P.AllPaths(p.directories, p.files))[x] <= 1
  {
    P.ApartIsAboutContents(fold, P.AllPaths(p.directories, p.files));
  }

  /** The listing of the tree is the plan's list, in another order. */
  lemma {:induction false} ListingPermutes(fold: P.Fold, root: Node, p: P.Plan)
    requires P.Accepted(fold, p) && Realises(root, p) && Scannable(root)
    ensures forall q :: q in EntriesOf(root) ==> ValidPath(q)
    ensures Permuted(ListingOf(EntriesOf(root)), P.AllPaths(p.directories, p.files))
  {
    var listing := ListingOf(EntriesOf(root));
    OrderedOnce(listing);
    PlanPathsOnce(fold, p);
    SameContents(listing, P.AllPaths(p.directories, p.files));
  }

  /** Every planned path is within the scanner's depth and length limits. */
  lemma {:induction false} PathsWithinLimits(fold: P.Fold, root: Node, p: P.Plan, q: Path)
    requires P.Accepted(fold, p) && Realises(root, p) && q in PathsOf(root)
    ensures ValidPath(q) && |q| <= MAX_DEPTH && |Rel(q)| <= MAX_PATH_BYTES
  {
    var ds, fs := P.DirectoryPaths(p.directories), P.SlotPaths(p.files);
    if q in ds {
      var i :| 0 <= i < |ds| && ds[i] == q;
      assert P.DirectoryPath(p.directories[i]) == q && P.ValidDirectory(p.directories[i]);
    } else {
      var i :| 0 <= i < |fs| && fs[i] == q;
      assert P.SlotPath(p.files[i]) == q && P.ValidSlot(p.files[i]);
    }
  }

  // ---- bytes

  /** The slot of a planned file. */
  ghost function SlotOf(p: P.Plan, q: Path): P.Slot
    requires exists f :: f in p.files && f.path == q
  {
    var f :| f in p.files && f.path == q;
    f
  }

  /** The largest size a path may have: that of its slot, nothing without one. */
  ghost function Bound(p: P.Plan): Path -> int {
    q => if exists f :: f in p.files && f.path == q then SlotOf(p, q).maxBytes else 0
  }

  lemma {:induction false} SlotsOnce(fold: P.Fold, p: P.Plan)
    requires P.Apart(fold, P.AllPaths(p.directories, p.files))
    ensures forall f, g :: f in p.files && g in p.files && f.path == g.path ==> f == g
  {
    P.ApartMeansKeysOnce(fold, p);
    forall f, g | f in p.files && g in p.files && f.path == g.path ensures f == g {
      assert P.SlotKey(f) == P.SlotKey(g);
    }
  }

  lemma {:induction false} BoundsOfSlots(fold: P.Fold, p: P.Plan)
    requires P.Apart(fold, P.AllPaths(p.directories, p.files))
    ensures Sum(Bound(p), P.SlotPaths(p.files)) == P.TotalBytes(p.files)
  {
    SlotsOnce(fold, p);
    forall f | f in p.files ensures Bound(p)(P.SlotPath(f)) == P.SlotBytes(f) {
      assert SlotOf(p, f.path) == f;
    }
    SumOfMapped(P.SlotPath, Bound(p), P.SlotBytes, p.files);
  }

  lemma {:induction false} FilesWithinSlots(fold: P.Fold, root: Node, p: P.Plan, files: seq<Path>)
    requires P.Accepted(fold, p) && Realises(root, p)
    requires Orders.SortedBy(Before, files) && forall q :: q in files <==> q in FilesOf(root)
    ensures Sum(FileSize(root), files) <= P.TotalBytes(p.files)
  {
    var slots := P.SlotPaths(p.files);
    SlotsOnce(fold, p);
    forall q | q in files ensures q in slots && FileSize(root)(q) <= Bound(p)(q) {
      assert FitsSlot(root, p, q);
      var f :| f in p.files && f.path == q && Lookup(root, q).Some? && Lookup(root, q).value.File?
               && Size(Lookup(root, q).value.id) <= f.maxBytes;
      assert SlotOf(p, q) == f;
      var i :| 0 <= i < |p.files| && p.files[i] == f;
      assert slots[i] == P.SlotPath(f);
    }
    forall q | q in slots ensures Bound(p)(q) >= 0 {
      var i :| 0 <= i < |slots| && slots[i] == q;
      assert P.SlotPath(p.files[i]) == q && p.files[i] in p.files;
      assert P.ValidSlot(SlotOf(p, q));
    }
    OrderedOnce(files);
    SumMonotone(FileSize(root), Bound(p), files);
    SumOfSome(Bound(p), files, slots);
    BoundsOfSlots(fold, p);
  }

  /** A scannable tree that realises an accepted plan is within the scanner's budget. */
  lemma {:induction false} RealisedIsWithinBudget(h: Hash, fold: P.Fold, root: Node, p: P.Plan)
    requires P.Accepted(fold, p) && Realises(root, p) && Scannable(root)
    ensures WithinBudget(Capture(h, root))
  {
    RealisedEntries(h, fold, root, p);
    RealisedBytes(h, fold, root, p);
  }

  lemma {:induction false} RealisedEntries(h: Hash, fold: P.Fold, root: Node, p: P.Plan)
    requires P.Accepted(fold, p) && Realises(root, p) && Scannable(root)
    ensures var t := Capture(h, root); 0 <= t.entries <= MAX_ENTRIES && 0 <= t.metadataBytes <= MAX_METADATA_BYTES
  {
    ScannableIsFlat(root);
    var paths, all := ListingOf(EntriesOf(root)), P.AllPaths(p.directories, p.files);
    ListingPermutes(fold, root, p);
    MetadataIsSum(paths);
    SumPermutes(PathCharge, paths, all);
    SamePermutedLength(paths, all);
  }

  lemma {:induction false} RealisedBytes(h: Hash, fold: P.Fold, root: Node, p: P.Plan)
    requires P.Accepted(fold, p) && Realises(root, p) && Scannable(root)
    ensures 0 <= Capture(h, root).byteCount <= MAX_BYTES
  {
    ScannableIsFlat(root);
    var files := ListingOf(RecordsOf(root));
    BytesOfListing(root, files);
    FilesWithinSlots(fold, root, p, files);
    SumNotNegative(FileSize(root), files);
  }

  /** An observed tree on one device that realises an accepted plan has only paths
      that the scanner lets through. */
  lemma {:induction false} RealisedIsScannable(fold: P.Fold, root: Node, p: P.Plan)
    requires P.Accepted(fold, p) && Realises(root, p) && Observed(root) && OnOneDevice(root)
    ensures Scannable(root)
  {
    forall q | q in PathsOf(root)
      ensures ValidPath(q) && ValidIdentity(EntryAt(root, q).kind, EntryAt(root, q).id, Some(root.id.device))
    {
      PathsWithinLimits(fold, root, p, q);
      assert EntryAt(root, q).id.device == root.id.device;
    }
  }

  ghost predicate OnOneDevice(root: Node) {
    forall q :: q in PathsOf(root) ==> EntryAt(root, q).id.device == root.id.device
  }

  /** Main result: a tree that realises an accepted plan is captured, passing none of
      the scanner's depth, path, entry, metadata and byte limits. */
  method CaptureRealised(h: Hash, ghost fold: P.Fold, root: Node, ghost p: P.Plan) returns (t: Token)
    requires P.Accepted(fold, p) && Realises(root, p) && Observed(root) && OnOneDevice(root)
    ensures Scannable(root) && t == Capture(h, root) && WithinBudget(t)
  {
    RealisedIsScannable(fold, root, p);
    RealisedIsWithinBudget(h, fold, root, p);
    var captured := CaptureTree(h, root);
    t := captured.value;
  }
}
