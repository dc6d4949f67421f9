/**
 Ownership tokens: the flat form of a captured tree, and exactly which flat forms
 are captures of some tree.
 */
module OwnershipToken {
  import opened Bytes
  import opened Options
  import opened Orders
  import opened Paths
  import opened OwnershipTree
  import opened OwnershipRebuild

  const MAX_ENTRIES: nat := 100_000
  const MAX_BYTES: nat := 0x10_0000_0000
  const MAX_METADATA_BYTES: nat := 0x100_0000
  const MAX_SCALAR: int := 0xFFFF_FFFF_FFFF_FFFF_FFFF_FFFF_FFFF_FFFF

  datatype Item = Item(path: Path, kind: Kind)

  datatype Named = Named(path: Path, kind: Kind, id: Identity)

  datatype FileRecord = FileRecord(path: Path, record: Record)

  datatype RootIdentity = RootIdentity(device: int, inode: int, fileType: int, attributes: int)

  datatype Token = Token(
    rootIdentity: RootIdentity, rootVersion: Identity, digest: Digest,
    entries: int, byteCount: int, metadataBytes: int,
    inventory: seq<Item>, records: seq<FileRecord>, identities: seq<Named>)

  /** The file-type bits of a mode. */
  function FileType(mode: int): int {
    mode / 4096 % 16
  }

  predicate Bounded(n: int) {
    -MAX_SCALAR <= n <= MAX_SCALAR
  }

  /** `_validated_ownership_version_identity`. */
  predicate ValidIdentity(kind: Kind, id: Identity, rootDevice: Option<int>) {
    && Bounded(id.device) && Bounded(id.inode) && Bounded(id.mode) && Bounded(id.size) && Bounded(id.attributes)
    && Bounded(id.mtime) && Bounded(id.ctime) && Bounded(id.links)
    && id.device > 0 && id.inode > 0 && 0 <= id.mode < 0x1_0000_0000
    && FileType(id.mode) == (if kind == Directory then 4 else 8)
    && id.size >= 0 && id.attributes >= 0 && id.attributes / 0x400 % 2 == 0 && id.links > 0
    && (kind == Directory ==> id.size == 0)
    && (rootDevice.Some? ==> id.device == rootDevice.value)
  }

  function RootOf(id: Identity): RootIdentity {
    RootIdentity(id.device, id.inode, FileType(id.mode), id.attributes)
  }

  /** What one entry is charged, whatever it is. */
  function Charge(path: Path): nat {
    8 + |Rel(path)| + 1 + 4 + 8 + 32
  }

  function MetadataOf(paths: seq<Path>): nat {
    if paths == [] then 0 else MetadataOf(paths[..|paths| - 1]) + Charge(paths[|paths| - 1])
  }

  function BytesOf(records: seq<FileRecord>): int {
    if records == [] then 0 else BytesOf(records[..|records| - 1]) + records[|records| - 1].record.size
  }

  // ---- flat forms

  ghost predicate ValidEntries(root: Identity, entries: Entries) {
    && ValidIdentity(Directory, root, None)
    && [] !in entries && Closed(entries)
    && forall p :: p in entries ==> ValidPath(p) && ValidIdentity(entries[p].kind, entries[p].id, Some(root.device))
  }

  /** Every file, and nothing else, has a record, which agrees with its identity. */
  ghost predicate ValidRecords(entries: Entries, records: Records) {
    && (forall p :: p in records <==> p in entries && entries[p].kind == Regular)
    && (forall p :: p in records ==>
         records[p].mode == Permissions(entries[p].id.mode) && records[p].size == entries[p].id.size)
  }

  lemma {:induction false} ValidPathsAreOrdered(s: set<Path>)
    requires forall p :: p in s ==> ValidPath(p)
    ensures Orders.Orders(Before, s)
  {
    forall p | p in s ensures SlashFree(p) {
      ValidIsSlashFree(p);
    }
    BeforeOrders(s);
  }

  ghost function ListingOf<T>(m: map<Path, T>): (r: seq<Path>)
    requires forall p :: p in m ==> ValidPath(p)
    ensures forall p :: p in r <==> p in m
    ensures SortedBy(Before, r) && |r| == |m.Keys|
  {
    ValidPathsAreOrdered(m.Keys);
    Sorted(Before, m.Keys)
  }

  function ItemsFor(entries: Entries, paths: seq<Path>): seq<Item>
    requires forall p :: p in paths ==> p in entries
  {
    seq(|paths|, i requires 0 <= i < |paths| => Item(paths[i], entries[paths[i]].kind))
  }

  function NamedFor(entries: Entries, paths: seq<Path>): seq<Named>
    requires forall p :: p in paths ==> p in entries
  {
    seq(|paths|, i requires 0 <= i < |paths| => Named(paths[i], entries[paths[i]].kind, entries[paths[i]].id))
  }

  function RecordsFor(records: Records, paths: seq<Path>): seq<FileRecord>
    requires forall p :: p in paths ==> p in records
  {
    seq(|paths|, i requires 0 <= i < |paths| => FileRecord(paths[i], records[paths[i]]))
  }

  /** The token of a flat form. */
  ghost function TokenOf(digest: Digest, root: Identity, entries: Entries, records: Records): Token
    requires ValidEntries(root, entries) && ValidRecords(entries, records)
  {
    var paths, files := ListingOf(entries), ListingOf(records);
    Token(RootOf(root), root, digest, |paths|, BytesOf(RecordsFor(records, files)), MetadataOf(paths),
          ItemsFor(entries, paths), RecordsFor(records, files), NamedFor(entries, paths))
  }

  predicate WithinBudget(t: Token) {
    && 0 <= t.entries <= MAX_ENTRIES && 0 <= t.byteCount <= MAX_BYTES && 0 <= t.metadataBytes <= MAX_METADATA_BYTES
  }

  // ---- captured trees

  /** A tree the scanner has no reason to refuse, its size aside. */
  ghost predicate Scannable(root: Node) {
    && root.Dir? && ValidIdentity(Directory, root.id, None)
    && forall p :: p in PathsOf(root) ==>
         ValidPath(p) && ValidIdentity(EntryAt(root, p).kind, EntryAt(root, p).id, Some(root.id.device))
  }

  lemma {:induction false} ScannableIsFlat(root: Node)
    requires Scannable(root)
    ensures ValidEntries(root.id, EntriesOf(root)) && ValidRecords(EntriesOf(root), RecordsOf(root))
  {
    var entries := EntriesOf(root);
    forall p | p in entries ensures p != [] && Stands(entries, p) {
      PathsAreLookups(root, p);
      var parent := p[..|p| - 1];
      assert p == parent + [p[|p| - 1]];
      LookupAppends(root, parent, [p[|p| - 1]]);
      PathsAreLookups(root, parent);
    }
    forall p ensures p in RecordsOf(root) <==> p in entries && entries[p].kind == Regular {
      PathsAreLookups(root, p);
    }
    forall p | p in RecordsOf(root)
      ensures RecordsOf(root)[p].mode == Permissions(entries[p].id.mode) && RecordsOf(root)[p].size == entries[p].id.size
    {
      PathsAreLookups(root, p);
    }
  }

  /** The token `capture_directory_ownership` gives for a tree. */
  ghost function Capture(h: Hash, root: Node): Token
    requires Scannable(root)
  {
    ScannableIsFlat(root);
    TokenOf(TreeDigest(h, root, []), root.id, EntriesOf(root), RecordsOf(root))
  }

  // ---- a tree for every flat form

  /** The tree that a flat form describes. */
  ghost function TreeFrom(entries: Entries, records: Records, path: Path, id: Identity): Node
    requires Recorded(entries, records)
    decreases Below(entries, path)
  {
    Dir(id, map n | n in ChildNames(entries, path) :: KidFrom(entries, records, path, n))
  }

  ghost function KidFrom(entries: Entries, records: Records, path: Path, n: Name): Node
    requires Recorded(entries, records) && n in ChildNames(entries, path)
    decreases Below(entries, path), 0
  {
    ChildNamesAreEntries(entries, path, n);
    BelowShrinks(entries, path, n);
    var e := entries[path + [n]];
    if e.kind == Directory then TreeFrom(entries, records, path + [n], e.id)
    else File(e.id, records[path + [n]].sha)
  }

  /** An entry's ancestors are entries, and directories. */
  lemma {:induction false} AncestorsStand(entries: Entries, p: Path, q: Path)
    requires [] !in entries && Closed(entries) && p != [] && q != [] && p + q in entries
    ensures p in entries && entries[p].kind == Directory
    decreases |q|
  {
    var last := q[|q| - 1];
    var most := q[..|q| - 1];
    assert (p + q)[..|p + q| - 1] == p + most;
    assert Stands(entries, p + q);
    if most == [] {
      assert p + most == p;
    } else {
      AncestorsStand(entries, p, most);
    }
  }

  lemma {:induction false} KidIs(entries: Entries, records: Records, path: Path, n: Name)
    requires Recorded(entries, records) && n in ChildNames(entries, path)
    ensures path + [n] in entries
    ensures var node := KidFrom(entries, records, path, n);
            && Entry(node.Kind(), node.id) == entries[path + [n]]
            && (node.File? ==> node.sha == records[path + [n]].sha)
  {
    ChildNamesAreEntries(entries, path, n);
  }

  lemma {:induction false} TreeFromLookup(entries: Entries, records: Records, path: Path, id: Identity, q: Path)
    requires [] !in entries && Closed(entries) && Recorded(entries, records) && q != []
    ensures Lookup(TreeFrom(entries, records, path, id), q).Some? <==> path + q in entries
    ensures path + q in entries ==>
              var node := Lookup(TreeFrom(entries, records, path, id), q).value;
              && Entry(node.Kind(), node.id) == entries[path + q]
              && (node.File? ==> node.sha == records[path + q].sha)
    decreases |q|
  {
    var tree := TreeFrom(entries, records, path, id);
    var n, rest := q[0], q[1..];
    ChildNamesAreEntries(entries, path, n);
    assert path + q == (path + [n]) + rest;
    if rest == [] {
      assert path + q == path + [n];
      if path + [n] in entries {
        KidIs(entries, records, path, n);
      }
    } else {
      if path + [n] in entries {
        var e := entries[path + [n]];
        if e.kind == Directory {
          TreeFromLookup(entries, records, path + [n], e.id, rest);
        }
      }
      if path + q in entries {
        AncestorsStand(entries, path + [n], rest);
      }
    }
  }

  /** The tree of a flat form has just the entries of the flat form. */
  lemma {:induction false} TreeFromEntries(entries: Entries, records: Records, root: Identity, p: Path)
    requires [] !in entries && Closed(entries) && Recorded(entries, records)
    ensures var tree := TreeFrom(entries, records, [], root);
            && (p in PathsOf(tree) <==> p in entries)
            && (p in entries ==> EntryAt(tree, p) == entries[p])
            && (p in entries && Lookup(tree, p).Some? && Lookup(tree, p).value.File? ==> Lookup(tree, p).value.sha == records[p].sha)
  {
    var tree := TreeFrom(entries, records, [], root);
    PathsAreLookups(tree, p);
    if p != [] {
      TreeFromLookup(entries, records, [], root, p);
      assert [] + p == p;
    }
  }

  lemma {:induction false} TreeHasEntries(root: Identity, entries: Entries, records: Records)
    requires [] !in entries && Closed(entries) && Recorded(entries, records)
    ensures EntriesOf(TreeFrom(entries, records, [], root)) == entries
  {
    var tree := TreeFrom(entries, records, [], root);
    forall p ensures p in EntriesOf(tree) <==> p in entries {
      TreeFromEntries(entries, records, root, p);
    }
    forall p | p in entries ensures p in EntriesOf(tree) && EntriesOf(tree)[p] == entries[p] {
      TreeFromEntries(entries, records, root, p);
    }
  }

  lemma {:induction false} TreeHasRecord(root: Identity, entries: Entries, records: Records, p: Path)
    requires ValidEntries(root, entries) && ValidRecords(entries, records) && Recorded(entries, records)
    ensures var tree := TreeFrom(entries, records, [], root);
            && (p in RecordsOf(tree) <==> p in records)
            && (p in records ==> RecordsOf(tree)[p] == records[p])
  {
    var tree := TreeFrom(entries, records, [], root);
    TreeFromEntries(entries, records, root, p);
    PathsAreLookups(tree, p);
  }

  /** Every valid flat form is that of a tree. */
  lemma {:induction false} FlatIsScannable(root: Identity, entries: Entries, records: Records)
    requires ValidEntries(root, entries) && ValidRecords(entries, records)
    ensures Recorded(entries, records)
    ensures var tree := TreeFrom(entries, records, [], root);
            tree.id == root && Scannable(tree) && EntriesOf(tree) == entries && RecordsOf(tree) == records
  {
    var tree := TreeFrom(entries, records, [], root);
    TreeIsScannable(root, entries, records);
    TreeHasEntries(root, entries, records);
    TreeHasRecords(root, entries, records);
  }

  lemma {:induction false} TreeHasRecords(root: Identity, entries: Entries, records: Records)
    requires ValidEntries(root, entries) && ValidRecords(entries, records) && Recorded(entries, records)
    ensures RecordsOf(TreeFrom(entries, records, [], root)) == records
  {
    var all := RecordsOf(TreeFrom(entries, records, [], root));
    forall p ensures p in all <==> p in records {
      TreeHasRecord(root, entries, records, p);
    }
    forall p | p in records ensures p in all && all[p] == records[p] {
      TreeHasRecord(root, entries, records, p);
    }
  }

  lemma {:induction false} TreeIsScannable(root: Identity, entries: Entries, records: Records)
    requires ValidEntries(root, entries) && Recorded(entries, records)
    ensures Scannable(TreeFrom(entries, records, [], root))
  {
    var tree := TreeFrom(entries, records, [], root);
    forall p | p in PathsOf(tree)
      ensures ValidPath(p) && ValidIdentity(EntryAt(tree, p).kind, EntryAt(tree, p).id, Some(root.device))
    {
      TreeFromEntries(entries, records, root, p);
    }
  }

  // ---- which tokens are captures

  function EntriesIn(ids: seq<Named>): Entries {
    if ids == [] then map[]
    else
      var last := ids[|ids| - 1];
      EntriesIn(ids[..|ids| - 1])[last.path := Entry(last.kind, last.id)]
  }

  function RecordsIn(records: seq<FileRecord>): Records {
    if records == [] then map[]
    else
      var last := records[|records| - 1];
      RecordsIn(records[..|records| - 1])[last.path := last.record]
  }

  function ItemPaths(s: seq<Item>): seq<Path> {
    seq(|s|, i requires 0 <= i < |s| => s[i].path)
  }

  function NamedPaths(s: seq<Named>): seq<Path> {
    seq(|s|, i requires 0 <= i < |s| => s[i].path)
  }

  function RecordPaths(s: seq<FileRecord>): seq<Path> {
    seq(|s|, i requires 0 <= i < |s| => s[i].path)
  }

  ghost predicate ValidPaths(s: seq<Path>) {
    (forall i :: 0 <= i < |s| ==> ValidPath(s[i])) && SortedBy(Before, s)
  }

  /** Every redundant field of a token agrees with the others, the digest aside. */
  ghost predicate Consistent(t: Token) {
    var entries, records := EntriesIn(t.identities), RecordsIn(t.records);
    && WithinBudget(t)
    && ValidIdentity(Directory, t.rootVersion, None) && t.rootIdentity == RootOf(t.rootVersion)
    && t.entries == |t.inventory| == |t.identities|
    && ValidPaths(ItemPaths(t.inventory)) && ValidPaths(NamedPaths(t.identities)) && ValidPaths(RecordPaths(t.records))
    && (forall i :: 0 <= i < |t.inventory| ==>
         && t.identities[i].path == t.inventory[i].path && t.identities[i].kind == t.inventory[i].kind
         && ValidIdentity(t.identities[i].kind, t.identities[i].id, Some(t.rootVersion.device)))
    && ValidRecords(entries, records)
    && t.metadataBytes == MetadataOf(ItemPaths(t.inventory)) && t.byteCount == BytesOf(t.records)
  }

  lemma {:induction false} DistinctPaths(s: seq<Path>)
    requires ValidPaths(s)
    ensures forall i, j :: 0 <= i < j < |s| ==> s[i] != s[j]
  {
    forall i, j | 0 <= i < j < |s| ensures s[i] != s[j] {
      LessIsTotal(Rel(s[i]), Rel(s[j]));
      assert Before(s[i], s[j]);
    }
  }

  lemma {:induction false} EntriesInAt(ids: seq<Named>)
    requires forall i, j :: 0 <= i < j < |ids| ==> ids[i].path != ids[j].path
    ensures forall p :: p in EntriesIn(ids) <==> p in NamedPaths(ids)
    ensures forall i :: 0 <= i < |ids| ==>
              ids[i].path in EntriesIn(ids) && EntriesIn(ids)[ids[i].path] == Entry(ids[i].kind, ids[i].id)
  {
    if ids != [] {
      var most, last := ids[..|ids| - 1], ids[|ids| - 1];
      EntriesInAt(most);
      assert NamedPaths(ids) == NamedPaths(most) + [last.path];
      forall i | 0 <= i < |ids|
        ensures ids[i].path in EntriesIn(ids) && EntriesIn(ids)[ids[i].path] == Entry(ids[i].kind, ids[i].id)
      {
        if i < |most| { assert most[i] == ids[i]; }
      }
    }
  }

  lemma {:induction false} RecordsInAt(rs: seq<FileRecord>)
    requires forall i, j :: 0 <= i < j < |rs| ==> rs[i].path != rs[j].path
    ensures forall p :: p in RecordsIn(rs) <==> p in RecordPaths(rs)
    ensures forall i :: 0 <= i < |rs| ==> rs[i].path in RecordsIn(rs) && RecordsIn(rs)[rs[i].path] == rs[i].record
  {
    if rs != [] {
      var most, last := rs[..|rs| - 1], rs[|rs| - 1];
      RecordsInAt(most);
      assert RecordPaths(rs) == RecordPaths(most) + [last.path];
      forall i | 0 <= i < |rs| ensures rs[i].path in RecordsIn(rs) && RecordsIn(rs)[rs[i].path] == rs[i].record {
        if i < |most| { assert most[i] == rs[i]; }
      }
    }
  }

  lemma {:induction false} NoRepeats(t: Token)
    requires ValidPaths(NamedPaths(t.identities)) && ValidPaths(RecordPaths(t.records))
    ensures forall i, j :: 0 <= i < j < |t.identities| ==> t.identities[i].path != t.identities[j].path
    ensures forall i, j :: 0 <= i < j < |t.records| ==> t.records[i].path != t.records[j].path
  {
    DistinctPaths(NamedPaths(t.identities));
    DistinctPaths(RecordPaths(t.records));
    forall i, j | 0 <= i < j < |t.identities| ensures t.identities[i].path != t.identities[j].path {
      assert NamedPaths(t.identities)[i] != NamedPaths(t.identities)[j];
    }
    forall i, j | 0 <= i < j < |t.records| ensures t.records[i].path != t.records[j].path {
      assert RecordPaths(t.records)[i] != RecordPaths(t.records)[j];
    }
  }

  lemma {:induction false} ConsistentEntries(t: Token)
    requires Consistent(t) && [] !in EntriesIn(t.identities) && Closed(EntriesIn(t.identities))
    ensures ValidEntries(t.rootVersion, EntriesIn(t.identities))
  {
    var entries, paths := EntriesIn(t.identities), NamedPaths(t.identities);
    NoRepeats(t);
    EntriesInAt(t.identities);
    forall p | p in entries
      ensures ValidPath(p) && ValidIdentity(entries[p].kind, entries[p].id, Some(t.rootVersion.device))
    {
      var i :| 0 <= i < |paths| && paths[i] == p;
    }
  }

  /** A consistent token whose entries all stand somewhere is the token of its own flat form. */
  lemma {:induction false} ConsistentIsTokenOf(t: Token)
    requires Consistent(t) && [] !in EntriesIn(t.identities) && Closed(EntriesIn(t.identities))
    ensures var entries, records := EntriesIn(t.identities), RecordsIn(t.records);
            ValidEntries(t.rootVersion, entries) && t == TokenOf(t.digest, t.rootVersion, entries, records)
  {
    var entries, records := EntriesIn(t.identities), RecordsIn(t.records);
    var paths, files := NamedPaths(t.identities), RecordPaths(t.records);
    ConsistentEntries(t);
    NoRepeats(t);
    EntriesInAt(t.identities);
    RecordsInAt(t.records);
    ListedOnce(entries, paths);
    ListedOnce(records, files);
    ListsAgree(entries, t.inventory, t.identities);
    RecordListAgrees(records, t.records);
  }

  lemma {:induction false} ListsAgree(entries: Entries, items: seq<Item>, ids: seq<Named>)
    requires |items| == |ids|
    requires forall i :: 0 <= i < |ids| ==> ids[i].path == items[i].path && ids[i].kind == items[i].kind
    requires forall i :: 0 <= i < |ids| ==>
               ids[i].path in entries && entries[ids[i].path] == Entry(ids[i].kind, ids[i].id)
    ensures ItemPaths(items) == NamedPaths(ids)
    ensures forall p :: p in NamedPaths(ids) ==> p in entries
    ensures items == ItemsFor(entries, NamedPaths(ids)) && ids == NamedFor(entries, NamedPaths(ids))
  {
  }

  lemma {:induction false} RecordListAgrees(records: Records, rs: seq<FileRecord>)
    requires forall i :: 0 <= i < |rs| ==> rs[i].path in records && records[rs[i].path] == rs[i].record
    ensures forall p :: p in RecordPaths(rs) ==> p in records
    ensures rs == RecordsFor(records, RecordPaths(rs))
  {
  }

  lemma {:induction false} ListedOnce<T>(m: map<Path, T>, paths: seq<Path>)
    requires ValidPaths(paths) && forall p :: p in m <==> p in paths
    ensures forall p :: p in m ==> ValidPath(p)
    ensures paths == ListingOf(m)
  {
    forall p | p in m ensures ValidPath(p) {
      var i :| 0 <= i < |paths| && paths[i] == p;
    }
    ValidPathsAreOrdered(m.Keys);
    SortedIsUnique(Before, paths, ListingOf(m), m.Keys);
  }

  /** The flat form of a token gives the token's maps back. */
  lemma {:induction false} TokenOfMaps(digest: Digest, root: Identity, entries: Entries, records: Records)
    requires ValidEntries(root, entries) && ValidRecords(entries, records)
    ensures var t := TokenOf(digest, root, entries, records);
            && EntriesIn(t.identities) == entries && RecordsIn(t.records) == records
            && ItemPaths(t.inventory) == NamedPaths(t.identities) == ListingOf(entries)
            && RecordPaths(t.records) == ListingOf(records)
            && ValidPaths(ListingOf(entries)) && ValidPaths(ListingOf(records))
  {
    ListingIsValid(entries);
    ListingIsValid(records);
    EntriesFrom(entries, NamedFor(entries, ListingOf(entries)), ListingOf(entries));
    RecordsFrom(records, RecordsFor(records, ListingOf(records)), ListingOf(records));
    PathsOfLists(entries, ListingOf(entries), records, ListingOf(records));
  }

  lemma {:induction false} PathsOfLists(entries: Entries, paths: seq<Path>, records: Records, files: seq<Path>)
    requires (forall p :: p in paths ==> p in entries) && (forall p :: p in files ==> p in records)
    ensures ItemPaths(ItemsFor(entries, paths)) == NamedPaths(NamedFor(entries, paths)) == paths
    ensures RecordPaths(RecordsFor(records, files)) == files
  {
  }

  lemma {:induction false} ListingIsValid<T>(m: map<Path, T>)
    requires forall p :: p in m ==> ValidPath(p)
    ensures ValidPaths(ListingOf(m))
  {
    forall i | 0 <= i < |ListingOf(m)| ensures ValidPath(ListingOf(m)[i]) {
      assert ListingOf(m)[i] in ListingOf(m);
    }
  }

  lemma {:induction false} EntriesFrom(entries: Entries, ids: seq<Named>, paths: seq<Path>)
    requires forall p :: p in paths <==> p in entries
    requires ValidPaths(paths) && ids == NamedFor(entries, paths)
    ensures EntriesIn(ids) == entries
  {
    assert NamedPaths(ids) == paths;
    DistinctPaths(paths);
    EntriesInAt(ids);
    forall p | p in entries ensures p in EntriesIn(ids) && EntriesIn(ids)[p] == entries[p] {
      var i :| 0 <= i < |paths| && paths[i] == p;
      assert ids[i].path == p;
    }
  }

  lemma {:induction false} RecordsFrom(records: Records, rs: seq<FileRecord>, paths: seq<Path>)
    requires forall p :: p in paths <==> p in records
    requires ValidPaths(paths) && rs == RecordsFor(records, paths)
    ensures RecordsIn(rs) == records
  {
    assert RecordPaths(rs) == paths;
    DistinctPaths(paths);
    RecordsInAt(rs);
    forall p | p in records ensures p in RecordsIn(rs) && RecordsIn(rs)[p] == records[p] {
      var i :| 0 <= i < |paths| && paths[i] == p;
      assert rs[i].path == p;
    }
  }

  lemma {:induction false} TokenOfIsConsistent(digest: Digest, root: Identity, entries: Entries, records: Records)
    requires ValidEntries(root, entries) && ValidRecords(entries, records)
    requires WithinBudget(TokenOf(digest, root, entries, records))
    ensures Consistent(TokenOf(digest, root, entries, records))
  {
    TokenOfMaps(digest, root, entries, records);
    var t := TokenOf(digest, root, entries, records);
    forall i | 0 <= i < |t.inventory|
      ensures ValidIdentity(t.identities[i].kind, t.identities[i].id, Some(t.rootVersion.device))
    {
      assert ListingOf(entries)[i] in entries;
    }
  }

  /** The token of some tree within the scanner's limits. */
  ghost predicate IsCapture(h: Hash, t: Token) {
    WithinBudget(t) && exists root :: Scannable(root) && Capture(h, root) == t
  }

  /** What the validator establishes. */
  ghost predicate Validated(h: Hash, t: Token) {
    var entries, records := EntriesIn(t.identities), RecordsIn(t.records);
    && Consistent(t) && [] !in entries && Closed(entries) && Recorded(entries, records)
    && t.digest == FlatDigest(h, entries, records, [], t.rootVersion)
  }

  /** A token passes validation exactly when it is the capture of some tree within the limits. */
  lemma {:induction false} ValidatedIffCaptured(h: Hash, t: Token)
    ensures Validated(h, t) <==> IsCapture(h, t)
  {
    if Validated(h, t) {
      ValidatedIsCapture(h, t);
    }
    if IsCapture(h, t) {
      var root :| Scannable(root) && Capture(h, root) == t;
      CaptureIsValidated(h, root);
    }
  }

  lemma {:induction false} ValidatedIsCapture(h: Hash, t: Token)
    requires Validated(h, t)
    ensures IsCapture(h, t)
  {
    var entries, records := EntriesIn(t.identities), RecordsIn(t.records);
    ConsistentIsTokenOf(t);
    FlatIsScannable(t.rootVersion, entries, records);
    var root := TreeFrom(entries, records, [], t.rootVersion);
    RebuildAgreesWithScan(h, root, [], root);
    assert Capture(h, root) == t;
  }

  /** Every captured token passes validation. */
  lemma {:induction false} CaptureIsValidated(h: Hash, root: Node)
    requires Scannable(root) && WithinBudget(Capture(h, root))
    ensures Validated(h, Capture(h, root))
  {
    ScannableIsFlat(root);
    var digest := TreeDigest(h, root, []);
    TokenOfIsConsistent(digest, root.id, EntriesOf(root), RecordsOf(root));
    TokenOfMaps(digest, root.id, EntriesOf(root), RecordsOf(root));
    RebuildAgreesWithScan(h, root, [], root);
  }
}
