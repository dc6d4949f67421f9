/** Capturing a tree: the scan, then the canonical order of its lists, give the token. */
module OwnershipCapture {
  import opened Bytes
  import opened KeySorting
  import opened Options
  import Orders
  import opened OwnershipListing
  import opened OwnershipScan
  import opened OwnershipSums
  import opened OwnershipToken
  import opened OwnershipTree
  import opened Paths
  import opened Permutations
  import opened Sorting

  function ItemKey(i: Item): Bytes {
    Rel(i.path)
  }

  function NamedKey(n: Named): Bytes {
    Rel(n.path)
  }

  function RecordKey(r: FileRecord): Bytes {
    Rel(r.path)
  }

  // ---- when the scan passes

  ghost function Report(root: Node): seq<Path>
    requires root.Dir?
  {
    Listed(root, NamesOf(root), [])
  }

  lemma {:induction false} ReportIsTheTree(root: Node)
    requires root.Dir?
    ensures forall p :: p in Report(root) <==> p in PathsOf(root)
  {
    forall p ensures p in Report(root) <==> p in PathsOf(root) {
      ListsTheTree(root, p);
    }
  }

  lemma {:induction false} PrefixIsInTree(root: Node, p: Path, k: nat)
    requires p in PathsOf(root) && 0 < k <= |p|
    ensures p[..k] in PathsOf(root)
  {
    PathsAreLookups(root, p);
    assert p == p[..k] + p[k..];
    LookupAppends(root, p[..k], p[k..]);
    PathsAreLookups(root, p[..k]);
  }

  lemma {:induction false} PathIsValid(root: Node, p: Path)
    requires Observed(root) && PathsFit(Report(root)) && p in PathsOf(root)
    ensures ValidPath(p)
  {
    ReportIsTheTree(root);
    forall i | 0 <= i < |p| ensures ValidName(p[i]) {
      NameIsValid(root, p, i);
    }
    assert PathFits(p);
  }

  lemma {:induction false} NameIsValid(root: Node, p: Path, i: nat)
    requires Observed(root) && PathsFit(Report(root)) && p in PathsOf(root) && i < |p|
    ensures ValidName(p[i])
  {
    ReportIsTheTree(root);
    PrefixIsInTree(root, p, i + 1);
    var q := p[..i + 1];
    assert q in Report(root) && PathFits(q);
    assert q[|q| - 1] == p[i];
  }

  /** An observed tree is scannable when every path and every device passes. */
  lemma {:induction false} PassingIsScannable(root: Node)
    requires Observed(root)
    ensures PathsFit(Report(root)) && DevicesFit(root, Report(root)) <==> Scannable(root)
  {
    ReportIsTheTree(root);
    forall p | p in PathsOf(root) ensures Lookup(root, p).Some? && EntryAt(root, p).id == Lookup(root, p).value.id {
      PathsAreLookups(root, p);
    }
    if PathsFit(Report(root)) && DevicesFit(root, Report(root)) {
      forall p | p in PathsOf(root)
        ensures ValidPath(p) && ValidIdentity(EntryAt(root, p).kind, EntryAt(root, p).id, Some(root.id.device))
      {
        PathIsValid(root, p);
        assert DeviceFits(root, p);
      }
    }
    if Scannable(root) {
      forall p | p in Report(root) ensures PathFits(p) && DeviceFits(root, p) {
        assert ValidPath(p) && ValidName(p[|p| - 1]);
      }
    }
  }

  // ---- the lists in canonical order

  /** Sorting a list whose keys differ gives the one list in order with its members. */
  lemma {:induction false} SortIs<T(!new)>(key: T -> Bytes, a: seq<T>, b: seq<T>)
    requires KeysOnce(key, a) && Orders.SortedBy(StrictlyByKey(key), b) && forall x :: x in a <==> x in b
    ensures StableSort(ByKey(key), a) == b
  {
    var x := StableSort(ByKey(key), a);
    ByKeyIsPreorder(key);
    StableSortIsStable(ByKey(key), a);
    Members(a, x);
    SortedStrictly(key, x);
    var all := set e | e in x;
    KeysOrder(key, all);
    Orders.SortedIsUnique(StrictlyByKey(key), x, b, all);
  }

  ghost predicate RelsDiffer(paths: seq<Path>) {
    forall i, j :: 0 <= i < j < |paths| ==> Rel(paths[i]) != Rel(paths[j])
  }

  lemma {:induction false} ReportDiffers(root: Node)
    requires Scannable(root)
    ensures RelsDiffer(Report(root)) && EachOnce(Report(root))
  {
    var paths := Report(root);
    ReportIsTheTree(root);
    SortedNamesDiffer(NamesOf(root));
    forall p ensures multiset(paths)[p] <= 1 {
      Once(root, NamesOf(root), [], p);
    }
    forall i, j | 0 <= i < j < |paths| ensures Rel(paths[i]) != Rel(paths[j]) {
      assert paths[i] in paths && paths[j] in paths;
      ValidIsSlashFree(paths[i]);
      ValidIsSlashFree(paths[j]);
      if Rel(paths[i]) == Rel(paths[j]) {
        RelIsInjective(paths[i], paths[j]);
        Twice(paths, i, j);
      }
    }
  }

  lemma {:induction false} EntryOfIs(root: Node, p: Path)
    requires p in PathsOf(root)
    ensures EntryOf(root, p) == EntriesOf(root)[p]
  {
    PathsAreLookups(root, p);
  }

  lemma {:induction false} ItemsAgree(root: Node, paths: seq<Path>, listing: seq<Path>)
    requires RelsDiffer(paths) && Orders.SortedBy(Before, listing)
    requires (forall p :: p in paths <==> p in listing) && (forall p :: p in listing ==> p in PathsOf(root))
    ensures StableSort(ByKey(ItemKey), Items(root, paths)) == ItemsFor(EntriesOf(root), listing)
  {
    var a, b := Items(root, paths), ItemsFor(EntriesOf(root), listing);
    forall p | p in listing ensures EntryOf(root, p) == EntriesOf(root)[p] { EntryOfIs(root, p); }
    DistinctKeysOnce(ItemKey, a);
    forall i, j | 0 <= i < j < |b| ensures StrictlyByKey(ItemKey)(b[i], b[j]) {
      assert Before(listing[i], listing[j]);
      assert ItemKey(b[i]) == Rel(listing[i]) && ItemKey(b[j]) == Rel(listing[j]);
    }
    SameItems(root, paths, listing);
    SortIs(ItemKey, a, b);
  }

  lemma {:induction false} SameItems(root: Node, paths: seq<Path>, listing: seq<Path>)
    requires (forall p :: p in paths <==> p in listing) && (forall p :: p in listing ==> p in PathsOf(root))
    requires forall p :: p in listing ==> EntryOf(root, p) == EntriesOf(root)[p]
    ensures forall x :: x in Items(root, paths) <==> x in ItemsFor(EntriesOf(root), listing)
    ensures forall x :: x in Identities(root, paths) <==> x in NamedFor(EntriesOf(root), listing)
  {
    var a, b := Items(root, paths), ItemsFor(EntriesOf(root), listing);
    var c, d := Identities(root, paths), NamedFor(EntriesOf(root), listing);
    forall i | 0 <= i < |paths| ensures a[i] in b && c[i] in d {
      assert paths[i] in paths;
      var j :| 0 <= j < |listing| && listing[j] == paths[i];
      assert b[j] == a[i] && d[j] == c[i];
    }
    forall j | 0 <= j < |listing| ensures b[j] in a && d[j] in c {
      assert listing[j] in listing;
      var i :| 0 <= i < |paths| && paths[i] == listing[j];
      assert b[j] == a[i] && d[j] == c[i];
    }
  }

  lemma {:induction false} IdentitiesAgree(root: Node, paths: seq<Path>, listing: seq<Path>)
    requires RelsDiffer(paths) && Orders.SortedBy(Before, listing)
    requires (forall p :: p in paths <==> p in listing) && (forall p :: p in listing ==> p in PathsOf(root))
    ensures StableSort(ByKey(NamedKey), Identities(root, paths)) == NamedFor(EntriesOf(root), listing)
  {
    var a, b := Identities(root, paths), NamedFor(EntriesOf(root), listing);
    forall p | p in listing ensures EntryOf(root, p) == EntriesOf(root)[p] { EntryOfIs(root, p); }
    DistinctKeysOnce(NamedKey, a);
    forall i, j | 0 <= i < j < |b| ensures StrictlyByKey(NamedKey)(b[i], b[j]) {
      assert Before(listing[i], listing[j]);
      assert NamedKey(b[i]) == Rel(listing[i]) && NamedKey(b[j]) == Rel(listing[j]);
    }
    SameItems(root, paths, listing);
    SortIs(NamedKey, a, b);
  }

  // ---- the file records

  ghost predicate ComesFrom(root: Node, paths: seq<Path>, r: FileRecord) {
    r.path in paths && IsFile(root, r.path) && r.record == RecordOf(Lookup(root, r.path).value)
  }

  lemma {:induction false} FileListHolds(root: Node, paths: seq<Path>, r: FileRecord)
    ensures r in FileList(root, paths) <==> ComesFrom(root, paths, r)
  {
    if paths != [] {
      FileListHolds(root, paths[1..], r);
      assert paths == [paths[0]] + paths[1..];
    }
  }

  lemma {:induction false} FileListDiffers(root: Node, paths: seq<Path>)
    requires RelsDiffer(paths)
    ensures forall i, j :: 0 <= i < j < |FileList(root, paths)| ==>
              RecordKey(FileList(root, paths)[i]) != RecordKey(FileList(root, paths)[j])
  {
    if paths != [] {
      var rest := FileList(root, paths[1..]);
      FileListDiffers(root, paths[1..]);
      forall r | r in rest ensures RecordKey(r) != Rel(paths[0]) {
        FileListHolds(root, paths[1..], r);
        var i :| 0 <= i < |paths[1..]| && paths[1..][i] == r.path;
        assert Rel(paths[0]) != Rel(paths[i + 1]);
      }
    }
  }

  lemma {:induction false} RecordsAgree(root: Node, paths: seq<Path>, files: seq<Path>)
    requires RelsDiffer(paths) && Orders.SortedBy(Before, files)
    requires (forall p :: p in paths <==> p in PathsOf(root)) && (forall p :: p in files <==> p in RecordsOf(root))
    ensures StableSort(ByKey(RecordKey), FileList(root, paths)) == RecordsFor(RecordsOf(root), files)
  {
    var a, b := FileList(root, paths), RecordsFor(RecordsOf(root), files);
    FileListDiffers(root, paths);
    DistinctKeysOnce(RecordKey, a);
    forall i, j | 0 <= i < j < |b| ensures StrictlyByKey(RecordKey)(b[i], b[j]) {
      assert Before(files[i], files[j]);
    }
    forall r ensures r in a <==> r in b {
      FileListHolds(root, paths, r);
      RecordsHold(root, files, r);
    }
    SortIs(RecordKey, a, b);
  }

  lemma {:induction false} RecordsHold(root: Node, files: seq<Path>, r: FileRecord)
    requires forall p :: p in files <==> p in RecordsOf(root)
    ensures r in RecordsFor(RecordsOf(root), files) <==>
            r.path in PathsOf(root) && IsFile(root, r.path) && r.record == RecordOf(Lookup(root, r.path).value)
  {
    var b := RecordsFor(RecordsOf(root), files);
    if r in b {
      var i :| 0 <= i < |b| && b[i] == r;
      assert files[i] in files;
    }
    if r.path in PathsOf(root) && IsFile(root, r.path) && r.record == RecordOf(Lookup(root, r.path).value) {
      assert r.path in files;
      var i :| 0 <= i < |files| && files[i] == r.path;
      assert b[i] == r;
    }
  }

  // ---- the totals

  function RecordBytes(r: FileRecord): int {
    r.record.size
  }

  lemma {:induction false} BytesAreSum(rs: seq<FileRecord>)
    ensures BytesOf(rs) == Sum(RecordBytes, rs)
  {
    if rs != [] {
      BytesAreSum(rs[..|rs| - 1]);
    }
  }

  lemma {:induction false} FileListBytes(root: Node, paths: seq<Path>)
    ensures Sum(RecordBytes, FileList(root, paths)) == Sum(FileBytes(root), paths)
  {
    if paths != [] {
      var p, rest := paths[0], paths[1..];
      var first := if IsFile(root, p) then [FileRecord(p, RecordOf(Lookup(root, p).value))] else [];
      FileListBytes(root, rest);
      assert paths == [p] + rest;
      SumAppends(FileBytes(root), [p], rest);
      SumAppends(RecordBytes, first, FileList(root, rest));
      assert Sum(FileBytes(root), [p]) == FileBytes(root)(p);
      assert Sum(RecordBytes, first) == FileBytes(root)(p);
    }
  }

  lemma {:induction false} SortPermutes<T(!new)>(key: T -> Bytes, s: seq<T>)
    ensures Permuted(s, StableSort(ByKey(key), s))
  {
    ByKeyIsPreorder(key);
    StableSortIsStable(ByKey(key), s);
  }

  /** The counters of the scan are the totals of the token. */
  lemma {:induction false} TotalsAgree(h: Hash, root: Node)
    requires Scannable(root)
    ensures var t := Capture(h, root);
            ListCost(root, Report(root)) == Budget(t.entries, t.byteCount, t.metadataBytes)
  {
    ScannableIsFlat(root);
    var paths, entries, records := Report(root), EntriesOf(root), RecordsOf(root);
    var listing, files := ListingOf(entries), ListingOf(records);
    ReportIsTheTree(root);
    ReportDiffers(root);
    OrderedOnce(listing);
    SameContents(paths, listing);
    SamePermutedLength(paths, listing);
    SumPermutes(PathCharge, paths, listing);
    MetadataIsSum(listing);
    RecordsAgree(root, paths, files);
    SortPermutes(RecordKey, FileList(root, paths));
    SumPermutes(RecordBytes, FileList(root, paths), RecordsFor(records, files));
    BytesAreSum(RecordsFor(records, files));
    FileListBytes(root, paths);
  }

  lemma {:induction false} ListsAgree(h: Hash, root: Node)
    requires Scannable(root)
    ensures var t := Capture(h, root); var paths := Report(root);
            && StableSort(ByKey(ItemKey), Items(root, paths)) == t.inventory
            && StableSort(ByKey(NamedKey), Identities(root, paths)) == t.identities
            && StableSort(ByKey(RecordKey), FileList(root, paths)) == t.records
  {
    ScannableIsFlat(root);
    var paths, entries, records := Report(root), EntriesOf(root), RecordsOf(root);
    var listing, files := ListingOf(entries), ListingOf(records);
    ReportIsTheTree(root);
    ReportDiffers(root);
    ItemsAgree(root, paths, listing);
    IdentitiesAgree(root, paths, listing);
    RecordsAgree(root, paths, files);
  }

  const NOTHING := OwnershipScan.Report(Budget(0, 0, 0), [], [], [])

  lemma {:induction false} BudgetDecides(t: Token, cost: Budget)
    requires cost == Budget(t.entries, t.byteCount, t.metadataBytes) && NotNegative(cost)
    ensures Affordable(Plus(NOTHING.budget, cost)) <==> WithinBudget(t)
  {
  }

  lemma {:induction false} PassesMeans(root: Node, paths: seq<Path>, cost: Budget)
    requires root.Dir? && paths == Report(root) && cost == ListCost(root, paths)
    ensures DirectoryPasses(root, root, [], NOTHING.budget) <==>
            PathsFit(paths) && DevicesFit(root, paths) && Affordable(Plus(NOTHING.budget, cost))
  {
  }

  lemma {:induction false} ScannableDecides(h: Hash, root: Node, cost: Budget)
    requires Scannable(root) && cost == ListCost(root, Report(root))
    ensures Affordable(Plus(NOTHING.budget, cost)) <==> WithinBudget(Capture(h, root))
  {
    TotalsAgree(h, root);
    ListCostIsNotNegative(root, Report(root));
    BudgetDecides(Capture(h, root), cost);
  }

  /** The scan passes just the trees whose token exists and is within the budget. */
  lemma {:induction false} ScanDecides(h: Hash, root: Node)
    requires Observed(root)
    ensures DirectoryPasses(root, root, [], NOTHING.budget) <==> Scannable(root) && WithinBudget(Capture(h, root))
  {
    var cost := ListCost(root, Report(root));
    PassingIsScannable(root);
    PassesMeans(root, Report(root), cost);
    if Scannable(root) {
      ScannableDecides(h, root, cost);
    }
  }

  lemma {:induction false} MoreThanNothing(root: Node, paths: seq<Path>, cost: Budget)
    ensures More(root, NOTHING, paths, cost)
            == OwnershipScan.Report(cost, Items(root, paths), FileList(root, paths), Identities(root, paths))
  {
    assert Plus(NOTHING.budget, cost) == cost;
  }

  lemma {:induction false} CaptureOf(h: Hash, root: Node)
    requires Scannable(root)
    ensures var t := Capture(h, root);
            t.rootIdentity == RootOf(root.id) && t.rootVersion == root.id && t.digest == TreeDigest(h, root, [])
  {
  }

  lemma {:induction false} FieldsMakeToken(t: Token, r: OwnershipScan.Report,
                                           inventory: seq<Item>, records: seq<FileRecord>, identities: seq<Named>)
    requires r.budget == Budget(t.entries, t.byteCount, t.metadataBytes)
    requires inventory == t.inventory && records == t.records && identities == t.identities
    ensures t == Token(t.rootIdentity, t.rootVersion, t.digest, r.budget.entries, r.budget.byteCount, r.budget.metadata,
                       inventory, records, identities)
  {
  }

  /** What the scan has gathered, put in canonical order, is the token. */
  lemma {:induction false} GatheredIsToken(h: Hash, root: Node, r: OwnershipScan.Report)
    requires Scannable(root) && r == More(root, NOTHING, Report(root), ListCost(root, Report(root)))
    ensures Capture(h, root) == Token(RootOf(root.id), root.id, TreeDigest(h, root, []),
              r.budget.entries, r.budget.byteCount, r.budget.metadata,
              StableSort(ByKey(ItemKey), r.inventory), StableSort(ByKey(RecordKey), r.records),
              StableSort(ByKey(NamedKey), r.identities))
  {
    MoreThanNothing(root, Report(root), ListCost(root, Report(root)));
    TotalsAgree(h, root);
    ListsAgree(h, root);
    CaptureOf(h, root);
    FieldsMakeToken(Capture(h, root), r, StableSort(ByKey(ItemKey), r.inventory),
                    StableSort(ByKey(RecordKey), r.records), StableSort(ByKey(NamedKey), r.identities));
  }

  /** `_capture_posix_directory_descriptor`, over a tree that does not change: it gives
      the token of the tree, and refuses exactly the trees that exceed a limit or leave
      the root's device. */
  method CaptureTree(h: Hash, root: Node) returns (r: Option<Token>)
    requires Observed(root)
    ensures r.Some? <==> Scannable(root) && WithinBudget(Capture(h, root))
    ensures r.Some? ==> r.value == Capture(h, root)
  {
    var scanner := new Scanner();
    var ok, digest := scanner.ScanDirectory(h, root, root.id.device, root, []);
    ScanDecides(h, root);
    if !ok {
      return None;
    }
    GatheredIsToken(h, root, scanner.View());
    ByKeyIsPreorder(ItemKey);
    ByKeyIsPreorder(NamedKey);
    ByKeyIsPreorder(RecordKey);
    var c0, inventory := InterruptibleSort(ByKey(ItemKey), scanner.inventory, null);
    var c1, records := InterruptibleSort(ByKey(RecordKey), scanner.records, null);
    var c2, identities := InterruptibleSort(ByKey(NamedKey), scanner.identities, null);
    return Some(Token(RootOf(root.id), root.id, digest, scanner.entries, scanner.byteCount, scanner.metadata,
                      inventory, records, identities));
  }
}
