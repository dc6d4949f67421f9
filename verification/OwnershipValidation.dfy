/** `_validate_directory_ownership_token`: the loops that recompute every redundant field of a token. */
module OwnershipValidation {
  import opened Bytes
  import opened Options
  import opened Orders
  import opened Paths
  import opened OwnershipTree
  import opened OwnershipRebuild
  import opened OwnershipToken

  /** Tuple order on inventory items: by path, a directory before a file. */
  predicate ItemBefore(a: Item, b: Item) {
    Before(a.path, b.path) || (a.path == b.path && a.kind == Directory && b.kind == Regular)
  }

  /** One more path keeps a list valid exactly when it is valid and comes after the last. */
  lemma {:induction false} ValidPathsGrow(s: seq<Path>, p: Path)
    requires ValidPaths(s)
    ensures ValidPaths(s + [p]) <==> ValidPath(p) && (s == [] || Before(s[|s| - 1], p))
  {
    var t := s + [p];
    if ValidPaths(t) {
      assert ValidPath(t[|s|]);
      if s != [] { assert Before(t[|s| - 1], t[|s|]); }
    } else if ValidPath(p) && s != [] && Before(s[|s| - 1], p) {
      LastIsAfterAll(s, p);
    }
  }

  lemma {:induction false} LastIsAfterAll(s: seq<Path>, p: Path)
    requires s != [] && SortedBy(Before, s) && Before(s[|s| - 1], p)
    ensures SortedBy(Before, s + [p])
  {
    forall i | 0 <= i < |s| - 1 ensures Before(s[i], p) {
      assert Before(s[i], s[|s| - 1]);
      LessIsTransitive(Rel(s[i]), Rel(s[|s| - 1]), Rel(p));
    }
  }

  lemma {:induction false} ValidPrefix(s: seq<Path>, i: nat)
    requires ValidPaths(s) && i <= |s|
    ensures ValidPaths(s[..i])
  {
  }

  /** A path already listed cannot be listed again. */
  lemma {:induction false} RepeatIsInvalid(s: seq<Path>, p: Path)
    requires ValidPaths(s) && p in s
    ensures !ValidPaths(s + [p])
  {
    var t := s + [p];
    var i :| 0 <= i < |s| && s[i] == p;
    assert t[i] == t[|s|];
    if ValidPaths(t) { DistinctPaths(t); }
  }

  lemma {:induction false} MetadataGrows(paths: seq<Path>, i: nat)
    requires i <= |paths|
    ensures MetadataOf(paths[..i]) <= MetadataOf(paths)
  {
    if i < |paths| {
      var most := paths[..|paths| - 1];
      MetadataGrows(most, i);
      assert most[..i] == paths[..i];
    } else {
      assert paths[..i] == paths;
    }
  }

  lemma {:induction false} BytesGrow(rs: seq<FileRecord>, i: nat)
    requires i <= |rs| && forall j :: 0 <= j < |rs| ==> rs[j].record.size >= 0
    ensures BytesOf(rs[..i]) <= BytesOf(rs)
  {
    if i < |rs| {
      var most := rs[..|rs| - 1];
      BytesGrow(most, i);
      assert most[..i] == rs[..i];
    } else {
      assert rs[..i] == rs;
    }
  }

  function FileCount(items: seq<Item>): nat {
    if items == [] then 0
    else FileCount(items[..|items| - 1]) + if items[|items| - 1].kind == Regular then 1 else 0
  }

  ghost function FileSet(items: seq<Item>): set<Path> {
    set i | 0 <= i < |items| && items[i].kind == Regular :: items[i].path
  }

  lemma {:induction false} FileCountIsSize(items: seq<Item>)
    requires ValidPaths(ItemPaths(items))
    ensures |FileSet(items)| == FileCount(items)
  {
    if items == [] {
      assert FileSet(items) == {};
    } else {
      var most, last := items[..|items| - 1], items[|items| - 1];
      assert ItemPaths(most) == ItemPaths(items)[..|most|];
      FileCountIsSize(most);
      DistinctPaths(ItemPaths(items));
      if last.kind == Regular {
        assert last.path !in FileSet(most) by {
          forall i | 0 <= i < |most| ensures most[i].path != last.path {
            assert ItemPaths(items)[i] != ItemPaths(items)[|most|];
          }
        }
        assert FileSet(items) == FileSet(most) + {last.path};
      } else {
        assert FileSet(items) == FileSet(most);
      }
    }
  }

  /** The kinds of the items read so far. */
  ghost predicate KindsOf(kinds: map<Path, Kind>, items: seq<Item>) {
    && (forall i :: 0 <= i < |items| ==> items[i].path in kinds && kinds[items[i].path] == items[i].kind)
    && (forall p :: p in kinds ==> p in ItemPaths(items))
  }

  lemma {:induction false} PathsGrow(items: seq<Item>, i: nat)
    requires i < |items|
    ensures ItemPaths(items[..i + 1]) == ItemPaths(items[..i]) + [items[i].path]
    ensures ItemPaths(items)[..i + 1] == ItemPaths(items[..i + 1])
    ensures items[..i + 1][..i] == items[..i]
  {
  }

  /** The checks on one item, the earlier ones having passed. */
  predicate ItemPasses(items: seq<Item>, i: nat, kinds: map<Path, Kind>)
    requires i < |items|
  {
    ValidPath(items[i].path) && items[i].path !in kinds && (i > 0 ==> ItemBefore(items[i - 1], items[i]))
  }

  lemma {:induction false} ItemStep(items: seq<Item>, i: nat, kinds: map<Path, Kind>)
    requires i < |items| && ValidPaths(ItemPaths(items[..i])) && KindsOf(kinds, items[..i])
    ensures ItemPasses(items, i, kinds) <==> ValidPaths(ItemPaths(items[..i + 1]))
  {
    var read, path := ItemPaths(items[..i]), items[i].path;
    PathsGrow(items, i);
    ValidPathsGrow(read, path);
    if path in kinds {
      RepeatIsInvalid(read, path);
    } else if i > 0 {
      assert read[i - 1] == items[i - 1].path;
      assert items[i - 1] == items[..i][i - 1];
    }
  }

  lemma {:induction false} KindsStep(items: seq<Item>, i: nat, kinds: map<Path, Kind>)
    requires i < |items| && KindsOf(kinds, items[..i]) && items[i].path !in kinds
    ensures KindsOf(kinds[items[i].path := items[i].kind], items[..i + 1])
  {
    var next := kinds[items[i].path := items[i].kind];
    PathsGrow(items, i);
    forall j | 0 <= j < i + 1 ensures items[j].path in next && next[items[j].path] == items[j].kind {
      if j < i { assert items[..i][j] == items[j]; }
    }
  }

  lemma {:induction false} CountsStep(items: seq<Item>, i: nat)
    requires i < |items|
    ensures MetadataOf(ItemPaths(items[..i + 1])) == MetadataOf(ItemPaths(items[..i])) + Charge(items[i].path)
    ensures FileCount(items[..i + 1]) == FileCount(items[..i]) + if items[i].kind == Regular then 1 else 0
    ensures MetadataOf(ItemPaths(items[..i + 1])) <= MetadataOf(ItemPaths(items))
    ensures ValidPaths(ItemPaths(items)) ==> ValidPaths(ItemPaths(items[..i + 1]))
  {
    PathsGrow(items, i);
    var read := ItemPaths(items[..i]);
    assert (read + [items[i].path])[..i] == read;
    MetadataGrows(ItemPaths(items), i + 1);
    if ValidPaths(ItemPaths(items)) { ValidPrefix(ItemPaths(items), i + 1); }
  }

  /** What the loop over the inventory gathers. */
  datatype Inventory = Inventory(kinds: map<Path, Kind>, metadata: nat, files: nat)

  function Taken(v: Inventory, item: Item): Inventory {
    Inventory(v.kinds[item.path := item.kind], v.metadata + Charge(item.path),
              v.files + if item.kind == Regular then 1 else 0)
  }

  function InventoryOf(items: seq<Item>): Inventory {
    if items == [] then Inventory(map[], 0, 0)
    else Taken(InventoryOf(items[..|items| - 1]), items[|items| - 1])
  }

  lemma {:induction false} InventoryAgrees(items: seq<Item>)
    requires ValidPaths(ItemPaths(items))
    ensures var v := InventoryOf(items);
            KindsOf(v.kinds, items) && v.metadata == MetadataOf(ItemPaths(items)) && v.files == FileCount(items)
  {
    if items != [] {
      var k := |items| - 1;
      assert items[..k + 1] == items;
      ValidPrefix(ItemPaths(items), k);
      PathsGrow(items, k);
      InventoryAgrees(items[..k]);
      ItemStep(items, k, InventoryOf(items[..k]).kinds);
      KindsStep(items, k, InventoryOf(items[..k]).kinds);
      CountsStep(items, k);
    }
  }

  lemma {:induction false} InventoryStep(items: seq<Item>, i: nat)
    requires i < |items| && ValidPaths(ItemPaths(items[..i]))
    ensures ItemPasses(items, i, InventoryOf(items[..i]).kinds) <==> ValidPaths(ItemPaths(items[..i + 1]))
    ensures ValidPaths(ItemPaths(items)) ==> ValidPaths(ItemPaths(items[..i + 1]))
    ensures InventoryOf(items[..i + 1]) == Taken(InventoryOf(items[..i]), items[i])
    ensures InventoryOf(items[..i]).metadata + Charge(items[i].path) <= MetadataOf(ItemPaths(items))
  {
    InventoryAgrees(items[..i]);
    ItemStep(items, i, InventoryOf(items[..i]).kinds);
    CountsStep(items, i);
    assert items[..i + 1][..i] == items[..i];
  }

  method CheckInventory(items: seq<Item>, metadataLimit: int)
    returns (ok: bool, kinds: map<Path, Kind>, metadata: nat, files: nat)
    ensures ok <==> ValidPaths(ItemPaths(items)) && (items == [] || MetadataOf(ItemPaths(items)) <= metadataLimit)
    ensures ok ==> KindsOf(kinds, items) && metadata == MetadataOf(ItemPaths(items)) && files == FileCount(items)
  {
    kinds, metadata, files := map[], 0, 0;
    var i := 0;
    while i < |items|
      invariant 0 <= i <= |items| && ValidPaths(ItemPaths(items[..i]))
      invariant Inventory(kinds, metadata, files) == InventoryOf(items[..i])
      invariant i == 0 || metadata <= metadataLimit
    {
      InventoryStep(items, i);
      if !ItemPasses(items, i, kinds) { return false, kinds, metadata, files; }
      kinds := kinds[items[i].path := items[i].kind];
      metadata := metadata + Charge(items[i].path);
      if metadata > metadataLimit { return false, kinds, metadata, files; }
      if items[i].kind == Regular { files := files + 1; }
      i := i + 1;
    }
    assert items[..i] == items;
    InventoryAgrees(items);
    ok := true;
  }

  // ---- identities

  predicate NamedBefore(a: Named, b: Named) {
    Before(a.path, b.path)
  }

  /** The checks on one identity; `seen` holds the entries read so far. */
  predicate NamedPasses(ids: seq<Named>, i: nat, kinds: map<Path, Kind>, seen: Entries, device: int)
    requires i < |ids|
  {
    && ValidPath(ids[i].path) && ids[i].path !in seen
    && NamedFits(ids[i], kinds, device)
    && (i > 0 ==> NamedBefore(ids[i - 1], ids[i]))
  }

  ghost predicate NamedOk(ids: seq<Named>, kinds: map<Path, Kind>, device: int) {
    && ValidPaths(NamedPaths(ids))
    && forall i :: 0 <= i < |ids| ==> NamedFits(ids[i], kinds, device)
  }

  /** The checks on one identity other than those on its place in the list. */
  predicate NamedFits(id: Named, kinds: map<Path, Kind>, device: int) {
    id.path in kinds && kinds[id.path] == id.kind && ValidIdentity(id.kind, id.id, Some(device))
  }

  lemma {:induction false} NamedOkGrows(read: seq<Named>, id: Named, kinds: map<Path, Kind>, device: int)
    requires NamedOk(read, kinds, device)
    ensures NamedPaths(read + [id]) == NamedPaths(read) + [id.path]
    ensures NamedOk(read + [id], kinds, device) <==>
            ValidPaths(NamedPaths(read) + [id.path]) && NamedFits(id, kinds, device)
  {
    var all := read + [id];
    assert NamedPaths(all) == NamedPaths(read) + [id.path];
    assert all[|read|] == id;
    assert forall j :: 0 <= j < |read| ==> all[j] == read[j];
  }

  lemma {:induction false} NamedPlace(read: seq<Named>, path: Path)
    requires ValidPaths(NamedPaths(read))
    ensures ValidPaths(NamedPaths(read) + [path]) <==>
            && ValidPath(path) && path !in EntriesIn(read)
            && (read != [] ==> Before(read[|read| - 1].path, path))
  {
    ValidPathsGrow(NamedPaths(read), path);
    DistinctNamed(read);
    EntriesInAt(read);
    if path in EntriesIn(read) {
      RepeatIsInvalid(NamedPaths(read), path);
    } else if read != [] {
      assert NamedPaths(read)[|read| - 1] == read[|read| - 1].path;
    }
  }

  lemma {:induction false} NamedStep(ids: seq<Named>, i: nat, kinds: map<Path, Kind>, device: int)
    requires i < |ids| && NamedOk(ids[..i], kinds, device)
    ensures NamedPasses(ids, i, kinds, EntriesIn(ids[..i]), device) <==> NamedOk(ids[..i + 1], kinds, device)
  {
    var read := ids[..i];
    assert ids[..i + 1] == read + [ids[i]];
    assert i > 0 ==> read[i - 1] == ids[i - 1];
    NamedOkGrows(read, ids[i], kinds, device);
    NamedPlace(read, ids[i].path);
  }

  lemma {:induction false} NamedGrows(ids: seq<Named>, i: nat)
    requires i < |ids|
    ensures EntriesIn(ids[..i + 1]) == EntriesIn(ids[..i])[ids[i].path := Entry(ids[i].kind, ids[i].id)]
  {
    assert ids[..i + 1][..i] == ids[..i];
  }

  lemma {:induction false} NamedPrefix(ids: seq<Named>, i: nat, kinds: map<Path, Kind>, device: int)
    requires i < |ids| && NamedOk(ids, kinds, device)
    ensures NamedOk(ids[..i + 1], kinds, device)
  {
    ValidPrefix(NamedPaths(ids), i + 1);
    assert NamedPaths(ids)[..i + 1] == NamedPaths(ids[..i + 1]);
  }

  lemma {:induction false} DistinctNamed(ids: seq<Named>)
    requires ValidPaths(NamedPaths(ids))
    ensures forall i, j :: 0 <= i < j < |ids| ==> ids[i].path != ids[j].path
  {
    DistinctPaths(NamedPaths(ids));
    forall i, j | 0 <= i < j < |ids| ensures ids[i].path != ids[j].path {
      assert NamedPaths(ids)[i] != NamedPaths(ids)[j];
    }
  }

  method CheckIdentities(ids: seq<Named>, kinds: map<Path, Kind>, device: int) returns (ok: bool, entries: Entries)
    ensures ok <==> NamedOk(ids, kinds, device)
    ensures ok ==> entries == EntriesIn(ids)
  {
    entries := map[];
    var i := 0;
    while i < |ids|
      invariant 0 <= i <= |ids|
      invariant NamedOk(ids[..i], kinds, device) && entries == EntriesIn(ids[..i])
    {
      NamedStep(ids, i, kinds, device);
      NamedGrows(ids, i);
      if NamedOk(ids, kinds, device) { NamedPrefix(ids, i, kinds, device); }
      if !NamedPasses(ids, i, kinds, entries, device) { return false, entries; }
      entries := entries[ids[i].path := Entry(ids[i].kind, ids[i].id)];
      i := i + 1;
    }
    assert ids[..i] == ids;
    ok := true;
  }

  // ---- file records

  predicate RecordPasses(rs: seq<FileRecord>, i: nat, entries: Entries, seen: Records)
    requires i < |rs|
  {
    && ValidPath(rs[i].path) && rs[i].path !in seen
    && RecordAgrees(rs[i], entries)
    && (i > 0 ==> Before(rs[i - 1].path, rs[i].path))
  }

  /** The record is that of a file entry, with its permissions and its size. */
  predicate RecordAgrees(r: FileRecord, entries: Entries) {
    && r.path in entries && entries[r.path].kind == Regular
    && 0 <= r.record.mode <= 4095 && r.record.size >= 0
    && r.record.size == entries[r.path].id.size && r.record.mode == Permissions(entries[r.path].id.mode)
  }

  ghost predicate RecordsOk(rs: seq<FileRecord>, entries: Entries) {
    ValidPaths(RecordPaths(rs)) && forall i :: 0 <= i < |rs| ==> RecordAgrees(rs[i], entries)
  }

  lemma {:induction false} DistinctRecords(rs: seq<FileRecord>)
    requires ValidPaths(RecordPaths(rs))
    ensures forall i, j :: 0 <= i < j < |rs| ==> rs[i].path != rs[j].path
  {
    DistinctPaths(RecordPaths(rs));
    forall i, j | 0 <= i < j < |rs| ensures rs[i].path != rs[j].path {
      assert RecordPaths(rs)[i] != RecordPaths(rs)[j];
    }
  }

  lemma {:induction false} RecordStep(rs: seq<FileRecord>, i: nat, entries: Entries)
    requires i < |rs| && RecordsOk(rs[..i], entries)
    ensures RecordPasses(rs, i, entries, RecordsIn(rs[..i])) <==> RecordsOk(rs[..i + 1], entries)
  {
    var read := rs[..i];
    assert rs[..i + 1] == read + [rs[i]];
    assert i > 0 ==> read[i - 1] == rs[i - 1];
    RecordsOkGrow(read, rs[i], entries);
    RecordPlace(read, rs[i].path);
  }

  lemma {:induction false} RecordsOkGrow(read: seq<FileRecord>, r: FileRecord, entries: Entries)
    requires RecordsOk(read, entries)
    ensures RecordsOk(read + [r], entries) <==>
            ValidPaths(RecordPaths(read) + [r.path]) && RecordAgrees(r, entries)
  {
    var all := read + [r];
    assert RecordPaths(all) == RecordPaths(read) + [r.path];
    assert all[|read|] == r;
    assert forall j :: 0 <= j < |read| ==> all[j] == read[j];
  }

  lemma {:induction false} RecordPlace(read: seq<FileRecord>, path: Path)
    requires ValidPaths(RecordPaths(read))
    ensures ValidPaths(RecordPaths(read) + [path]) <==>
            && ValidPath(path) && path !in RecordsIn(read)
            && (read != [] ==> Before(read[|read| - 1].path, path))
  {
    ValidPathsGrow(RecordPaths(read), path);
    DistinctRecords(read);
    RecordsInAt(read);
    if path in RecordsIn(read) {
      RepeatIsInvalid(RecordPaths(read), path);
    } else if read != [] {
      assert RecordPaths(read)[|read| - 1] == read[|read| - 1].path;
    }
  }

  lemma {:induction false} RecordGrows(rs: seq<FileRecord>, i: nat)
    requires i < |rs|
    ensures RecordsIn(rs[..i + 1]) == RecordsIn(rs[..i])[rs[i].path := rs[i].record]
    ensures BytesOf(rs[..i + 1]) == BytesOf(rs[..i]) + rs[i].record.size
  {
    assert rs[..i + 1][..i] == rs[..i];
  }

  lemma {:induction false} RecordPrefix(rs: seq<FileRecord>, i: nat, entries: Entries)
    requires i < |rs| && RecordsOk(rs, entries)
    ensures RecordsOk(rs[..i + 1], entries) && BytesOf(rs[..i + 1]) <= BytesOf(rs)
  {
    ValidPrefix(RecordPaths(rs), i + 1);
    assert RecordPaths(rs)[..i + 1] == RecordPaths(rs[..i + 1]);
    BytesGrow(rs, i + 1);
  }

  method CheckRecords(rs: seq<FileRecord>, entries: Entries, byteLimit: int)
    returns (ok: bool, records: Records, bytes: int)
    ensures ok <==> RecordsOk(rs, entries) && (rs == [] || BytesOf(rs) <= byteLimit)
    ensures ok ==> records == RecordsIn(rs) && bytes == BytesOf(rs)
  {
    records, bytes := map[], 0;
    var i := 0;
    while i < |rs|
      invariant 0 <= i <= |rs|
      invariant RecordsOk(rs[..i], entries) && records == RecordsIn(rs[..i]) && bytes == BytesOf(rs[..i])
      invariant i == 0 || bytes <= byteLimit
    {
      RecordStep(rs, i, entries);
      RecordGrows(rs, i);
      if RecordsOk(rs, entries) { RecordPrefix(rs, i, entries); }
      if !RecordPasses(rs, i, entries, records) { return false, records, bytes; }
      records := records[rs[i].path := rs[i].record];
      bytes := bytes + rs[i].record.size;
      if bytes > byteLimit { return false, records, bytes; }
      i := i + 1;
    }
    assert rs[..i] == rs;
    ok := true;
  }

  // ---- the whole token

  /** The identities name the inventory's paths, all of them, in the same order. */
  lemma {:induction false} SameLists(items: seq<Item>, kinds: map<Path, Kind>, ids: seq<Named>, device: int)
    requires ValidPaths(ItemPaths(items)) && KindsOf(kinds, items) && NamedOk(ids, kinds, device) && |ids| == |items|
    ensures ItemPaths(items) == NamedPaths(ids)
    ensures forall i :: 0 <= i < |ids| ==> ids[i].path == items[i].path && ids[i].kind == items[i].kind
  {
    var a, b := ItemPaths(items), NamedPaths(ids);
    var all, some := set p | p in a, set p | p in b;
    DistinctPaths(a);
    DistinctPaths(b);
    SizeOfDistinct(a);
    SizeOfDistinct(b);
    forall p | p in some ensures p in all {
      var i :| 0 <= i < |b| && b[i] == p;
      assert ids[i].path in kinds;
    }
    SubsetOfSameSize(some, all);
    forall p | p in all ensures ValidPath(p) {
      var i :| 0 <= i < |a| && a[i] == p;
    }
    ValidPathsAreOrdered(all);
    SortedIsUnique(Before, a, b, all);
    forall i | 0 <= i < |ids| ensures ids[i].path == items[i].path && ids[i].kind == items[i].kind {
      assert a[i] == b[i];
    }
  }

  lemma {:induction false} SizeOfDistinct<T>(s: seq<T>)
    requires forall i, j :: 0 <= i < j < |s| ==> s[i] != s[j]
    ensures |set x | x in s| == |s|
  {
    if s != [] {
      var most, last := s[..|s| - 1], s[|s| - 1];
      SizeOfDistinct(most);
      assert (set x | x in s) == (set x | x in most) + {last};
    }
  }

  lemma {:induction false} SubsetOfSameSize<T>(a: set<T>, b: set<T>)
    requires a <= b && |a| == |b|
    ensures a == b
  {
    assert b == a + (b - a);
  }

  lemma {:induction false} RecordedAreFiles(rs: seq<FileRecord>, entries: Entries)
    requires RecordsOk(rs, entries)
    ensures |RecordsIn(rs).Keys| == |rs|
    ensures forall p :: p in RecordsIn(rs) ==>
              && p in entries && entries[p].kind == Regular
              && RecordsIn(rs)[p].mode == Permissions(entries[p].id.mode) && RecordsIn(rs)[p].size == entries[p].id.size
  {
    DistinctRecords(rs);
    RecordsInAt(rs);
    DistinctPaths(RecordPaths(rs));
    SizeOfDistinct(RecordPaths(rs));
    assert RecordsIn(rs).Keys == set p | p in RecordPaths(rs);
    forall p | p in RecordsIn(rs)
      ensures && p in entries && entries[p].kind == Regular
              && RecordsIn(rs)[p].mode == Permissions(entries[p].id.mode) && RecordsIn(rs)[p].size == entries[p].id.size
    {
      var i :| 0 <= i < |rs| && RecordPaths(rs)[i] == p;
      assert RecordAgrees(rs[i], entries);
    }
  }

  /** There are as many records as files exactly when every file has one. */
  lemma {:induction false} EveryFileRecorded(items: seq<Item>, ids: seq<Named>, rs: seq<FileRecord>)
    requires ValidPaths(ItemPaths(items)) && |ids| == |items|
    requires forall i :: 0 <= i < |ids| ==> ids[i].path == items[i].path && ids[i].kind == items[i].kind
    requires forall i, j :: 0 <= i < j < |ids| ==> ids[i].path != ids[j].path
    requires RecordsOk(rs, EntriesIn(ids))
    ensures |rs| == FileCount(items) <==> ValidRecords(EntriesIn(ids), RecordsIn(rs))
  {
    RecordedAreFiles(rs, EntriesIn(ids));
    FileCountIsSize(items);
    FilesAreRegular(items, ids);
    SameSizeMeansAll(EntriesIn(ids), RecordsIn(rs), FileSet(items));
  }

  lemma {:induction false} SameSizeMeansAll(entries: Entries, records: Records, files: set<Path>)
    requires forall p :: p in files <==> p in entries && entries[p].kind == Regular
    requires forall p :: p in records ==>
               && p in entries && entries[p].kind == Regular
               && records[p].mode == Permissions(entries[p].id.mode) && records[p].size == entries[p].id.size
    ensures |records.Keys| == |files| <==> ValidRecords(entries, records)
  {
    assert records.Keys <= files;
    if |records.Keys| == |files| {
      SubsetOfSameSize(records.Keys, files);
    }
    if ValidRecords(entries, records) {
      assert records.Keys == files;
    }
  }

  lemma {:induction false} FilesAreRegular(items: seq<Item>, ids: seq<Named>)
    requires |ids| == |items|
    requires forall i :: 0 <= i < |ids| ==> ids[i].path == items[i].path && ids[i].kind == items[i].kind
    requires forall i, j :: 0 <= i < j < |ids| ==> ids[i].path != ids[j].path
    ensures forall p :: p in FileSet(items) <==> p in EntriesIn(ids) && EntriesIn(ids)[p].kind == Regular
  {
    EntriesInAt(ids);
    forall p ensures p in FileSet(items) <==> p in EntriesIn(ids) && EntriesIn(ids)[p].kind == Regular {
      if p in EntriesIn(ids) {
        var i :| 0 <= i < |ids| && NamedPaths(ids)[i] == p;
        assert items[i].path == p;
      }
    }
  }

  /** The checks that need no map: counts, limits and the root. */
  predicate HeaderOk(t: Token) {
    && ValidIdentity(Directory, t.rootVersion, None) && t.rootIdentity == RootOf(t.rootVersion)
    && WithinBudget(t)
    && t.entries == |t.inventory| && |t.identities| == |t.inventory| && |t.records| <= |t.inventory|
  }

  /** All three lists pass and add up. */
  ghost predicate ListsOk(t: Token, kinds: map<Path, Kind>) {
    && ValidPaths(ItemPaths(t.inventory)) && KindsOf(kinds, t.inventory)
    && NamedOk(t.identities, kinds, t.rootVersion.device)
    && RecordsOk(t.records, EntriesIn(t.identities))
    && |t.records| == FileCount(t.inventory)
    && MetadataOf(ItemPaths(t.inventory)) == t.metadataBytes && BytesOf(t.records) == t.byteCount
  }

  lemma {:induction false} PassedIsConsistent(t: Token, kinds: map<Path, Kind>)
    requires HeaderOk(t) && ListsOk(t, kinds)
    ensures Consistent(t)
  {
    SameLists(t.inventory, kinds, t.identities, t.rootVersion.device);
    DistinctNamed(t.identities);
    EveryFileRecorded(t.inventory, t.identities, t.records);
  }

  lemma {:induction false} ConsistentPasses(t: Token, kinds: map<Path, Kind>)
    requires Consistent(t)
    ensures HeaderOk(t) && ValidPaths(ItemPaths(t.inventory))
    ensures MetadataOf(ItemPaths(t.inventory)) == t.metadataBytes && BytesOf(t.records) == t.byteCount
    ensures RecordsOk(t.records, EntriesIn(t.identities)) && |t.records| == FileCount(t.inventory)
    ensures KindsOf(kinds, t.inventory) ==> NamedOk(t.identities, kinds, t.rootVersion.device)
  {
    DistinctNamed(t.identities);
    ConsistentRecords(t);
    EveryFileRecorded(t.inventory, t.identities, t.records);
    FileCountBounds(t.inventory);
  }

  lemma {:induction false} FileCountBounds(items: seq<Item>)
    ensures FileCount(items) <= |items|
  {
    if items != [] {
      FileCountBounds(items[..|items| - 1]);
    }
  }

  lemma {:induction false} ConsistentRecords(t: Token)
    requires Consistent(t)
    ensures RecordsOk(t.records, EntriesIn(t.identities))
  {
    var entries, rs := EntriesIn(t.identities), t.records;
    NoRepeats(t);
    RecordsInAt(rs);
    EntriesInAt(t.identities);
    forall i | 0 <= i < |rs| ensures RecordAgrees(rs[i], entries) {
      assert rs[i].path in RecordsIn(rs);
      var j :| 0 <= j < |t.identities| && NamedPaths(t.identities)[j] == rs[i].path;
      assert t.identities[j].path == rs[i].path;
    }
  }

  /**
   The program: it accepts exactly the tokens that are captures of some tree within
   the scanner's limits.
   */
  method ValidateDirectoryOwnershipToken(h: Hash, t: Token) returns (ok: bool)
    ensures ok <==> IsCapture(h, t)
  {
    ValidatedIffCaptured(h, t);
    var consistent, entries, records := CheckLists(t);
    if !consistent { return false; }
    ok := CheckDigest(h, t, entries, records);
  }

  method CheckLists(t: Token) returns (ok: bool, entries: Entries, records: Records)
    ensures ok <==> Consistent(t)
    ensures ok ==> entries == EntriesIn(t.identities) && records == RecordsIn(t.records)
  {
    entries, records := map[], map[];
    if Consistent(t) { ConsistentPasses(t, map[]); }
    if !HeaderOk(t) { return false, entries, records; }
    var kinds, metadata, files, bytes;
    ok, kinds, metadata, files := CheckInventory(t.inventory, t.metadataBytes);
    if !ok { return; }
    if Consistent(t) { ConsistentPasses(t, kinds); }
    ok, entries := CheckIdentities(t.identities, kinds, t.rootVersion.device);
    if !ok { return; }
    ok, records, bytes := CheckRecords(t.records, entries, t.byteCount);
    if !ok { return; }
    ok := |t.records| == files && bytes == t.byteCount && metadata == t.metadataBytes;
    if ok { PassedIsConsistent(t, kinds); }
  }

  method CheckDigest(h: Hash, t: Token, entries: Entries, records: Records) returns (ok: bool)
    requires Consistent(t) && entries == EntriesIn(t.identities) && records == RecordsIn(t.records)
    ensures ok <==> Validated(h, t)
  {
    RootIsNoEntry(t);
    NoRepeats(t);
    EntriesInAt(t.identities);
    var order := NamedPaths(t.identities);
    DistinctPaths(order);
    var rebuilt := RebuildOwnershipDigest(h, t.rootVersion, entries, records, order);
    ok := rebuilt == Some(t.digest);
  }

  lemma {:induction false} RootIsNoEntry(t: Token)
    requires Consistent(t)
    ensures [] !in EntriesIn(t.identities)
  {
    NoRepeats(t);
    EntriesInAt(t.identities);
    assert forall i :: 0 <= i < |t.identities| ==> ValidPath(NamedPaths(t.identities)[i]);
  }
}
