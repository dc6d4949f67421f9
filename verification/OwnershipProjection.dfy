/**
 `project_directory_ownership_subtree`: the token of a subdirectory, derived from the
 token of the whole tree without looking at the files again.
 */
module OwnershipProjection {
  import opened Options
  import opened Paths
  import opened OwnershipTree
  import opened OwnershipRebuild
  import opened OwnershipToken
  import opened OwnershipValidation

  /** The part of a flat form below a directory. */
  ghost function Inside<T>(m: map<Path, T>, d: Path): map<Path, T> {
    map q | q in (set p | p in m && d < p :: p[|d|..]) && d + q in m :: m[d + q]
  }

  lemma {:induction false} InsideAt<T>(m: map<Path, T>, d: Path, q: Path)
    ensures q in Inside(m, d) <==> q != [] && d + q in m
    ensures q in Inside(m, d) ==> Inside(m, d)[q] == m[d + q]
  {
    if q != [] && d + q in m {
      assert d < d + q && (d + q)[|d|..] == q;
    }
    if q in Inside(m, d) {
      var p :| p in m && d < p && p[|d|..] == q;
      assert q != [];
    }
  }

  // ---- projection of a tree

  lemma {:induction false} SameMaps<T>(a: map<Path, T>, b: map<Path, T>)
    requires forall q :: q in a <==> q in b
    requires forall q :: q in a && q in b ==> a[q] == b[q]
    ensures a == b
  {
  }

  lemma {:induction false} SubtreeEntries(root: Node, d: Path, dir: Node)
    requires Lookup(root, d) == Some(dir)
    ensures EntriesOf(dir) == Inside(EntriesOf(root), d)
  {
    var a, b := EntriesOf(dir), Inside(EntriesOf(root), d);
    forall q ensures (q in a <==> q in b) && (q in a && q in b ==> a[q] == b[q]) {
      SubtreePath(root, d, dir, q);
      InsideAt(EntriesOf(root), d, q);
    }
    SameMaps(a, b);
  }

  lemma {:induction false} SubtreeRecords(root: Node, d: Path, dir: Node)
    requires Lookup(root, d) == Some(dir)
    ensures RecordsOf(dir) == Inside(RecordsOf(root), d)
  {
    var a, b := RecordsOf(dir), Inside(RecordsOf(root), d);
    forall q ensures (q in a <==> q in b) && (q in a && q in b ==> a[q] == b[q]) {
      SubtreePath(root, d, dir, q);
      InsideAt(RecordsOf(root), d, q);
    }
    SameMaps(a, b);
  }

  lemma {:induction false} SubtreePath(root: Node, d: Path, dir: Node, q: Path)
    requires Lookup(root, d) == Some(dir)
    ensures q in PathsOf(dir) <==> q != [] && d + q in PathsOf(root)
    ensures q in PathsOf(dir) ==> Lookup(dir, q) == Lookup(root, d + q) && EntryAt(dir, q) == EntryAt(root, d + q)
    ensures q in FilesOf(dir) <==> q != [] && d + q in FilesOf(root)
    ensures q in FilesOf(dir) ==> RecordsOf(dir)[q] == RecordsOf(root)[d + q]
  {
    LookupAppends(root, d, q);
    PathsAreLookups(dir, q);
    PathsAreLookups(root, d + q);
  }

  lemma {:induction false} ValidSuffix(d: Path, q: Path)
    requires ValidPath(d + q) && q != []
    ensures ValidPath(q) && Charge(q) <= Charge(d + q)
  {
    forall i | 0 <= i < |q| ensures ValidName(q[i]) {
      assert ValidName((d + q)[|d| + i]);
    }
    if d != [] {
      RelOfAppended(d, q);
    } else {
      assert d + q == q;
    }
  }

  lemma {:induction false} SubtreeIsScannable(root: Node, d: Path, dir: Node)
    requires Scannable(root) && d != [] && Lookup(root, d) == Some(dir) && dir.Dir?
    ensures Scannable(dir)
  {
    PathsAreLookups(root, d);
    assert EntryAt(root, d) == Entry(Directory, dir.id);
    forall q | q in PathsOf(dir)
      ensures ValidPath(q) && ValidIdentity(EntryAt(dir, q).kind, EntryAt(dir, q).id, Some(dir.id.device))
    {
      SubtreePath(root, d, dir, q);
      ValidSuffix(d, q);
    }
  }

  // ---- projection of lists

  function StripPaths(paths: seq<Path>, d: Path): seq<Path> {
    if paths == [] then []
    else
      var last := paths[|paths| - 1];
      StripPaths(paths[..|paths| - 1], d) + if d < last then [last[|d|..]] else []
  }

  function StripItems(items: seq<Item>, d: Path): seq<Item> {
    if items == [] then []
    else
      var last := items[|items| - 1];
      StripItems(items[..|items| - 1], d) + if d < last.path then [Item(last.path[|d|..], last.kind)] else []
  }

  function StripNamed(ids: seq<Named>, d: Path): seq<Named> {
    if ids == [] then []
    else
      var last := ids[|ids| - 1];
      StripNamed(ids[..|ids| - 1], d) + if d < last.path then [Named(last.path[|d|..], last.kind, last.id)] else []
  }

  function StripRecords(rs: seq<FileRecord>, d: Path): seq<FileRecord> {
    if rs == [] then []
    else
      var last := rs[|rs| - 1];
      StripRecords(rs[..|rs| - 1], d) + if d < last.path then [FileRecord(last.path[|d|..], last.record)] else []
  }

  /** Stripping keeps a list of paths in order, and keeps just the paths inside. */
  lemma {:induction false} StripKeepsOrder(paths: seq<Path>, d: Path)
    requires ValidPaths(paths)
    ensures ValidPaths(StripPaths(paths, d))
    ensures forall q :: q in StripPaths(paths, d) <==> q != [] && d + q in paths
  {
    if paths != [] {
      var most, last := paths[..|paths| - 1], paths[|paths| - 1];
      StripKeepsOrder(most, d);
      var stripped := StripPaths(most, d);
      if d < last {
        var q := last[|d|..];
        assert d + q == last;
        ValidSuffix(d, q);
        StripStep(most, d, q);
      }
      forall q ensures q in StripPaths(paths, d) <==> q != [] && d + q in paths {
        assert paths == most + [last];
        assert d + q == last ==> last[|d|..] == q;
        if d < last { assert d + last[|d|..] == last; }
      }
    }
  }

  lemma {:induction false} StripStep(most: seq<Path>, d: Path, q: Path)
    requires ValidPaths(most + [d + q]) && q != [] && ValidPath(q)
    requires ValidPaths(StripPaths(most, d))
    requires forall r :: r in StripPaths(most, d) <==> r != [] && d + r in most
    ensures ValidPaths(StripPaths(most, d) + [q])
  {
    var stripped := StripPaths(most, d);
    if stripped != [] {
      var r := stripped[|stripped| - 1];
      assert r in stripped;
      var i :| 0 <= i < |most| && most[i] == d + r;
      assert Before((most + [d + q])[i], (most + [d + q])[|most|]);
      OrderUnderDirectory(d, r, q);
    }
    ValidPathsGrow(stripped, q);
  }

  lemma {:induction false} StripListing<T>(m: map<Path, T>, paths: seq<Path>, d: Path)
    requires ValidPaths(paths) && forall p :: p in paths <==> p in m
    ensures forall p :: p in Inside(m, d) ==> ValidPath(p)
    ensures StripPaths(paths, d) == ListingOf(Inside(m, d))
  {
    StripKeepsOrder(paths, d);
    forall q ensures q in Inside(m, d) <==> q in StripPaths(paths, d) {
      InsideAt(m, d, q);
    }
    ListedOnce(Inside(m, d), StripPaths(paths, d));
  }

  /** Stripping the lists of a flat form gives the lists of the flat form inside. */
  lemma {:induction false} StripLists(entries: Entries, paths: seq<Path>, d: Path)
    requires forall p :: p in paths ==> p in entries
    ensures forall q :: q in StripPaths(paths, d) ==> q in Inside(entries, d)
    ensures StripItems(ItemsFor(entries, paths), d) == ItemsFor(Inside(entries, d), StripPaths(paths, d))
    ensures StripNamed(NamedFor(entries, paths), d) == NamedFor(Inside(entries, d), StripPaths(paths, d))
  {
    if paths != [] {
      var most, last := paths[..|paths| - 1], paths[|paths| - 1];
      StripLists(entries, most, d);
      assert ItemsFor(entries, paths)[..|most|] == ItemsFor(entries, most);
      assert NamedFor(entries, paths)[..|most|] == NamedFor(entries, most);
      if d < last {
        InsideAt(entries, d, last[|d|..]);
        assert d + last[|d|..] == last;
      }
    }
  }

  lemma {:induction false} StripRecordList(records: Records, files: seq<Path>, d: Path)
    requires forall p :: p in files ==> p in records
    ensures forall q :: q in StripPaths(files, d) ==> q in Inside(records, d)
    ensures StripRecords(RecordsFor(records, files), d) == RecordsFor(Inside(records, d), StripPaths(files, d))
  {
    if files != [] {
      var most, last := files[..|files| - 1], files[|files| - 1];
      StripRecordList(records, most, d);
      assert RecordsFor(records, files)[..|most|] == RecordsFor(records, most);
      if d < last {
        InsideAt(records, d, last[|d|..]);
        assert d + last[|d|..] == last;
      }
    }
  }

  /** The lists of a projected token. */
  ghost predicate ProjectsTo(outer: Token, d: Path, t: Token) {
    && t.inventory == StripItems(outer.inventory, d)
    && t.records == StripRecords(outer.records, d)
    && t.identities == StripNamed(outer.identities, d)
    && t.entries == |t.inventory|
    && t.metadataBytes == MetadataOf(ItemPaths(t.inventory)) && t.byteCount == BytesOf(t.records)
    && t.rootIdentity == RootOf(t.rootVersion)
  }

  /**
   Projecting the token of a tree to a directory gives, in every field, the token of
   that directory.
   */
  lemma {:induction false} ProjectionIsCapture(h: Hash, root: Node, d: Path, dir: Node, t: Token)
    requires Scannable(root) && d != [] && Lookup(root, d) == Some(dir) && dir.Dir?
    requires ProjectsTo(Capture(h, root), d, t) && t.rootVersion == dir.id
    requires t.digest == TreeDigest(h, dir, [])
    ensures Scannable(dir) && t == Capture(h, dir)
  {
    ScannableIsFlat(root);
    SubtreeIsScannable(root, d, dir);
    ScannableIsFlat(dir);
    SubtreeEntries(root, d, dir);
    SubtreeRecords(root, d, dir);
    var entries, records := EntriesOf(root), RecordsOf(root);
    ListingIsValid(entries);
    ListingIsValid(records);
    StripListing(entries, ListingOf(entries), d);
    StripListing(records, ListingOf(records), d);
    StripLists(entries, ListingOf(entries), d);
    StripRecordList(records, ListingOf(records), d);
    PathsOfLists(Inside(entries, d), ListingOf(Inside(entries, d)), Inside(records, d), ListingOf(Inside(records, d)));
  }

  // ---- the program

  lemma {:induction false} MetadataSnoc(paths: seq<Path>, p: Path)
    ensures MetadataOf(paths + [p]) == MetadataOf(paths) + Charge(p)
  {
    assert (paths + [p])[..|paths|] == paths;
  }

  lemma {:induction false} BytesSnoc(rs: seq<FileRecord>, r: FileRecord)
    ensures BytesOf(rs + [r]) == BytesOf(rs) + r.record.size
  {
    assert (rs + [r])[..|rs|] == rs;
  }

  lemma {:induction false} ItemsStep(items: seq<Item>, i: nat, d: Path)
    requires i < |items|
    ensures StripItems(items[..i + 1], d) ==
            StripItems(items[..i], d) + if d < items[i].path then [Item(items[i].path[|d|..], items[i].kind)] else []
  {
    assert items[..i + 1][..i] == items[..i];
  }

  lemma {:induction false} ItemsGrow(out: seq<Item>, item: Item)
    ensures MetadataOf(ItemPaths(out + [item])) == MetadataOf(ItemPaths(out)) + Charge(item.path)
  {
    MetadataSnoc(ItemPaths(out), item.path);
    assert ItemPaths(out + [item]) == ItemPaths(out) + [item.path];
  }

  method ProjectInventory(items: seq<Item>, d: Path) returns (out: seq<Item>, metadata: nat)
    ensures out == StripItems(items, d) && metadata == MetadataOf(ItemPaths(out))
  {
    out, metadata := [], 0;
    var i := 0;
    while i < |items|
      invariant 0 <= i <= |items|
      invariant out == StripItems(items[..i], d) && metadata == MetadataOf(ItemPaths(out))
    {
      ItemsStep(items, i, d);
      if d < items[i].path {
        var projected := Item(items[i].path[|d|..], items[i].kind);
        ItemsGrow(out, projected);
        out, metadata := out + [projected], metadata + Charge(projected.path);
      }
      i := i + 1;
    }
    assert items[..i] == items;
  }

  lemma {:induction false} RecordsStep(rs: seq<FileRecord>, i: nat, d: Path)
    requires i < |rs|
    ensures StripRecords(rs[..i + 1], d) ==
            StripRecords(rs[..i], d) + if d < rs[i].path then [FileRecord(rs[i].path[|d|..], rs[i].record)] else []
  {
    assert rs[..i + 1][..i] == rs[..i];
  }

  lemma {:induction false} RecordsGrow(out: seq<FileRecord>, r: FileRecord)
    ensures RecordsIn(out + [r]) == RecordsIn(out)[r.path := r.record] && BytesOf(out + [r]) == BytesOf(out) + r.record.size
  {
    assert (out + [r])[..|out|] == out;
  }

  method ProjectRecords(rs: seq<FileRecord>, d: Path) returns (out: seq<FileRecord>, records: Records, bytes: int)
    ensures out == StripRecords(rs, d) && records == RecordsIn(out) && bytes == BytesOf(out)
  {
    out, records, bytes := [], map[], 0;
    var i := 0;
    while i < |rs|
      invariant 0 <= i <= |rs|
      invariant out == StripRecords(rs[..i], d) && records == RecordsIn(out) && bytes == BytesOf(out)
    {
      RecordsStep(rs, i, d);
      if d < rs[i].path {
        var projected := FileRecord(rs[i].path[|d|..], rs[i].record);
        RecordsGrow(out, projected);
        out, bytes := out + [projected], bytes + projected.record.size;
        records := records[projected.path := projected.record];
      }
      i := i + 1;
    }
    assert rs[..i] == rs;
  }

  lemma {:induction false} NamedStrips(ids: seq<Named>, i: nat, d: Path)
    requires i < |ids|
    ensures StripNamed(ids[..i + 1], d) ==
            StripNamed(ids[..i], d) + if d < ids[i].path then [Named(ids[i].path[|d|..], ids[i].kind, ids[i].id)] else []
  {
    assert ids[..i + 1][..i] == ids[..i];
  }

  lemma {:induction false} EntriesGrow(out: seq<Named>, n: Named)
    ensures EntriesIn(out + [n]) == EntriesIn(out)[n.path := Entry(n.kind, n.id)]
  {
    assert (out + [n])[..|out|] == out;
  }

  method ProjectIdentities(ids: seq<Named>, d: Path) returns (out: seq<Named>, entries: Entries)
    ensures out == StripNamed(ids, d) && entries == EntriesIn(out)
  {
    out, entries := [], map[];
    var i := 0;
    while i < |ids|
      invariant 0 <= i <= |ids|
      invariant out == StripNamed(ids[..i], d) && entries == EntriesIn(out)
    {
      NamedStrips(ids, i, d);
      if d < ids[i].path {
        var projected := Named(ids[i].path[|d|..], ids[i].kind, ids[i].id);
        EntriesGrow(out, projected);
        out, entries := out + [projected], entries[projected.path := Entry(projected.kind, projected.id)];
      }
      i := i + 1;
    }
    assert ids[..i] == ids;
  }

  lemma {:induction false} StripShrinks(paths: seq<Path>, d: Path)
    requires ValidPaths(paths)
    ensures |StripPaths(paths, d)| <= |paths| && MetadataOf(StripPaths(paths, d)) <= MetadataOf(paths)
  {
    if paths != [] {
      var most, last := paths[..|paths| - 1], paths[|paths| - 1];
      StripShrinks(most, d);
      if d < last {
        var q := last[|d|..];
        assert d + q == last;
        ValidSuffix(d, q);
        MetadataSnoc(StripPaths(most, d), q);
      } else {
        assert StripPaths(paths, d) == StripPaths(most, d);
      }
    }
  }

  lemma {:induction false} StripBytes(rs: seq<FileRecord>, d: Path)
    requires forall i :: 0 <= i < |rs| ==> rs[i].record.size >= 0
    ensures 0 <= BytesOf(StripRecords(rs, d)) <= BytesOf(rs)
  {
    if rs != [] {
      var most, last := rs[..|rs| - 1], rs[|rs| - 1];
      StripBytes(most, d);
      if d < last.path {
        BytesSnoc(StripRecords(most, d), FileRecord(last.path[|d|..], last.record));
      } else {
        assert StripRecords(rs, d) == StripRecords(most, d);
      }
    }
  }

  lemma {:induction false} CaptureTotals(h: Hash, root: Node)
    requires Scannable(root)
    ensures (forall p :: p in EntriesOf(root) ==> ValidPath(p)) && (forall p :: p in RecordsOf(root) ==> ValidPath(p))
    ensures var t := Capture(h, root); var paths, files := ListingOf(EntriesOf(root)), ListingOf(RecordsOf(root));
            t.entries == |paths| && t.metadataBytes == MetadataOf(paths) && t.byteCount == BytesOf(RecordsFor(RecordsOf(root), files))
  {
    ScannableIsFlat(root);
  }

  lemma {:induction false} ListingShrinks(entries: Entries, d: Path)
    requires forall p :: p in entries ==> ValidPath(p)
    ensures forall p :: p in Inside(entries, d) ==> ValidPath(p)
    ensures var a, b := ListingOf(Inside(entries, d)), ListingOf(entries);
            |a| <= |b| && MetadataOf(a) <= MetadataOf(b)
  {
    ListingIsValid(entries);
    StripListing(entries, ListingOf(entries), d);
    StripShrinks(ListingOf(entries), d);
  }

  lemma {:induction false} RecordsShrink(records: Records, d: Path)
    requires forall p :: p in records ==> ValidPath(p) && records[p].size >= 0
    ensures forall p :: p in Inside(records, d) ==> ValidPath(p)
    ensures var a, b := ListingOf(Inside(records, d)), ListingOf(records);
            0 <= BytesOf(RecordsFor(Inside(records, d), a)) <= BytesOf(RecordsFor(records, b))
  {
    ListingIsValid(records);
    StripListing(records, ListingOf(records), d);
    FilesShrink(records, ListingOf(records), d);
  }

  lemma {:induction false} FilesShrink(records: Records, files: seq<Path>, d: Path)
    requires forall p :: p in files ==> p in records && records[p].size >= 0
    ensures forall q :: q in StripPaths(files, d) ==> q in Inside(records, d)
    ensures 0 <= BytesOf(RecordsFor(Inside(records, d), StripPaths(files, d))) <= BytesOf(RecordsFor(records, files))
  {
    StripRecordList(records, files, d);
    StripBytes(RecordsFor(records, files), d);
  }

  /** A subtree of a tree within the limits is within the limits. */
  lemma {:induction false} SubtreeFits(h: Hash, root: Node, d: Path, dir: Node)
    requires Scannable(root) && d != [] && Lookup(root, d) == Some(dir) && dir.Dir? && Scannable(dir)
    requires WithinBudget(Capture(h, root))
    ensures WithinBudget(Capture(h, dir))
  {
    CaptureTotals(h, root);
    CaptureTotals(h, dir);
    SubtreeEntries(root, d, dir);
    SubtreeRecords(root, d, dir);
    ListingShrinks(EntriesOf(root), d);
    SizesAreNatural(root);
    RecordsShrink(RecordsOf(root), d);
  }

  lemma {:induction false} SizesAreNatural(root: Node)
    requires Scannable(root)
    ensures forall p :: p in RecordsOf(root) ==> RecordsOf(root)[p].size >= 0
  {
  }

  /** The directory a prefix names below the root, if it names one. */
  function SubdirectoryAt(root: Node, d: Path): Option<Node> {
    if d != [] && Lookup(root, d).Some? && Lookup(root, d).value.Dir? then Lookup(root, d) else None
  }

  /** What projection is for: the capture of the directory itself, or nothing when there is none. */
  ghost predicate ProjectionFor(h: Hash, root: Node, d: Path, r: Option<Token>) {
    match SubdirectoryAt(root, d)
    case None => r == None
    case Some(dir) => Scannable(dir) && r == Some(Capture(h, dir))
  }

  lemma {:induction false} CaptureMaps(h: Hash, root: Node)
    requires Scannable(root)
    ensures EntriesIn(Capture(h, root).identities) == EntriesOf(root)
    ensures RecordsIn(Capture(h, root).records) == RecordsOf(root)
  {
    ScannableIsFlat(root);
    TokenOfMaps(TreeDigest(h, root, []), root.id, EntriesOf(root), RecordsOf(root));
  }

  /** A captured token names just the directories of its tree. */
  lemma {:induction false} NamedDirectory(h: Hash, root: Node, d: Path)
    requires Scannable(root)
    ensures var entries := EntriesIn(Capture(h, root).identities);
            && (SubdirectoryAt(root, d).Some? <==> ValidPath(d) && d in entries && entries[d].kind == Directory)
            && (SubdirectoryAt(root, d).Some? ==> entries[d].id == SubdirectoryAt(root, d).value.id)
  {
    CaptureMaps(h, root);
    PathsAreLookups(root, d);
  }

  /** Trees with the same token have subdirectories with the same token. */
  lemma {:induction false} SameSubtreeCapture(h: Hash, a: Node, b: Node, d: Path)
    requires Scannable(a) && Scannable(b) && Capture(h, a) == Capture(h, b)
    requires SubdirectoryAt(a, d).Some?
    ensures SubdirectoryAt(b, d).Some?
    ensures var x, y := SubdirectoryAt(a, d).value, SubdirectoryAt(b, d).value;
            Scannable(x) && Scannable(y) && Capture(h, x) == Capture(h, y)
  {
    NamedDirectory(h, a, d);
    NamedDirectory(h, b, d);
    var x, y := Lookup(a, d).value, Lookup(b, d).value;
    SubtreeIsScannable(a, d, x);
    SubtreeIsScannable(b, d, y);
    CaptureMaps(h, a);
    CaptureMaps(h, b);
    SubtreeEntries(a, d, x);
    SubtreeEntries(b, d, y);
    SubtreeRecords(a, d, x);
    SubtreeRecords(b, d, y);
    RebuildAgreesWithScan(h, x, [], x);
    RebuildAgreesWithScan(h, y, [], y);
  }

  /** The token put together for a directory already found in a valid token. */
  method ProjectSelected(h: Hash, outer: Token, d: Path, id: Identity, ghost root: Node) returns (r: Option<Token>)
    requires Scannable(root) && Capture(h, root) == outer && WithinBudget(outer)
    requires SubdirectoryAt(root, d).Some? && SubdirectoryAt(root, d).value.id == id
    ensures Scannable(SubdirectoryAt(root, d).value)
    ensures r == Some(Capture(h, SubdirectoryAt(root, d).value))
  {
    ghost var dir := Lookup(root, d).value;
    var inventory, metadata := ProjectInventory(outer.inventory, d);
    var files, records, bytes := ProjectRecords(outer.records, d);
    var ids, entries := ProjectIdentities(outer.identities, d);
    SubtreeIsScannable(root, d, dir);
    ghost var digest := TreeDigest(h, dir, []);
    ghost var expected := Token(RootOf(id), id, digest, |inventory|, bytes, metadata, inventory, files, ids);
    ProjectionIsCapture(h, root, d, dir, expected);
    var rebuilt := RebuildProjected(h, id, ids, entries, records, dir);
    var token := Token(RootOf(id), id, rebuilt, |inventory|, bytes, metadata, inventory, files, ids);
    SubtreeFits(h, root, d, dir);
    assert IsCapture(h, token);
    var ok := ValidateDirectoryOwnershipToken(h, token);
    if !ok { return None; }
    r := Some(token);
  }

  method RebuildProjected(h: Hash, id: Identity, ids: seq<Named>, entries: Entries, records: Records, ghost dir: Node)
    returns (digest: Digest)
    requires dir.Dir? && dir.id == id && Scannable(dir)
    requires ids == Capture(h, dir).identities && entries == EntriesIn(ids)
    requires records == RecordsIn(Capture(h, dir).records)
    ensures digest == TreeDigest(h, dir, [])
  {
    CaptureMaps(h, dir);
    ScannableIsFlat(dir);
    CapturedAreRecorded(dir);
    TokenOfMaps(TreeDigest(h, dir, []), dir.id, EntriesOf(dir), RecordsOf(dir));
    var order := NamedPaths(ids);
    DistinctPaths(order);
    var rebuilt := RebuildOwnershipDigest(h, id, entries, records, order);
    RebuildAgreesWithScan(h, dir, [], dir);
    digest := rebuilt.value;
  }

  /** The projection that is right for every tree the token may be the capture of. */
  ghost predicate Projects(h: Hash, outer: Token, d: Path, r: Option<Token>) {
    forall root :: Scannable(root) && Capture(h, root) == outer ==> ProjectionFor(h, root, d, r)
  }

  lemma {:induction false} NothingProjects(h: Hash, outer: Token, d: Path)
    requires var entries := EntriesIn(outer.identities);
             !ValidPath(d) || d !in entries || entries[d].kind != Directory
    ensures Projects(h, outer, d, None)
  {
    forall root | Scannable(root) && Capture(h, root) == outer ensures ProjectionFor(h, root, d, None) {
      NamedDirectory(h, root, d);
    }
  }

  lemma {:induction false} CaptureProjects(h: Hash, root: Node, d: Path)
    requires Scannable(root) && SubdirectoryAt(root, d).Some? && Scannable(SubdirectoryAt(root, d).value)
    ensures Projects(h, Capture(h, root), d, Some(Capture(h, SubdirectoryAt(root, d).value)))
  {
    var r := Some(Capture(h, SubdirectoryAt(root, d).value));
    forall other | Scannable(other) && Capture(h, other) == Capture(h, root) ensures ProjectionFor(h, other, d, r) {
      SameSubtreeCapture(h, root, other, d);
    }
  }

  method ProjectDirectoryOwnershipSubtree(h: Hash, outer: Token, d: Path) returns (r: Option<Token>)
    ensures if IsCapture(h, outer) then Projects(h, outer, d, r) else r == None
  {
    var ok := ValidateDirectoryOwnershipToken(h, outer);
    if !ok { return None; }
    var entries := EntriesIn(outer.identities);
    if !ValidPath(d) || d !in entries || entries[d].kind != Directory {
      NothingProjects(h, outer, d);
      return None;
    }
    ghost var root :| Scannable(root) && Capture(h, root) == outer;
    NamedDirectory(h, root, d);
    r := ProjectSelected(h, outer, d, entries[d].id, root);
    CaptureProjects(h, root, d);
  }

  lemma {:induction false} ComposeAt(h: Hash, root: Node, d: Path, middle: Token, dir: Node, e: Path, r: Option<Token>)
    requires SubdirectoryAt(root, d) == Some(dir) && e != []
    requires ProjectionFor(h, dir, e, r)
    ensures ProjectionFor(h, root, d + e, r)
  {
    LookupAppends(root, d, e);
  }

  /** Projecting to `d` and then to `e` is projecting to the directory `e` below `d`. */
  lemma {:induction false} ProjectionsCompose(h: Hash, outer: Token, d: Path, middle: Token, e: Path, r: Option<Token>)
    requires Projects(h, outer, d, Some(middle)) && Projects(h, middle, e, r) && e != []
    ensures Projects(h, outer, d + e, r)
  {
    forall root | Scannable(root) && Capture(h, root) == outer ensures ProjectionFor(h, root, d + e, r) {
      assert ProjectionFor(h, root, d, Some(middle));
      var dir := SubdirectoryAt(root, d).value;
      assert ProjectionFor(h, dir, e, r);
      ComposeAt(h, root, d, middle, dir, e, r);
    }
  }
}
