/**
 What a captured token says of its tree, read off the tree itself: no function of the
 scanner or of the token is used to say it.
 */
module OwnershipContents {
  import opened Options
  import opened Orders
  import opened OwnershipSums
  import opened OwnershipToken
  import opened OwnershipTree
  import opened Paths
  import opened Permutations

  /** At `p` below the root there is a node of this kind. */
  predicate Holds(root: Node, p: Path, kind: Kind) {
    p != [] && Lookup(root, p).Some? && (Lookup(root, p).value.Dir? <==> kind == Directory)
  }

  /** The record is that of the file at its path: its permission bits, size and hash. */
  predicate Records(root: Node, r: FileRecord) {
    && Holds(root, r.path, Regular)
    && var file := Lookup(root, r.path).value;
    && r.record.sha == file.sha && r.record.size == file.id.size
    && 0 <= r.record.mode < 4096 && (file.id.mode - r.record.mode) % 4096 == 0
  }

  lemma {:induction false} EntryIsHeld(root: Node, p: Path, e: Entry)
    ensures p in EntriesOf(root) && EntriesOf(root)[p] == e <==>
            Holds(root, p, e.kind) && Lookup(root, p).value.id == e.id
  {
    PathsAreLookups(root, p);
  }

  lemma {:induction false} ItemsTell(root: Node, paths: seq<Path>, p: Path, kind: Kind)
    requires forall q :: q in paths <==> q in EntriesOf(root)
    ensures Item(p, kind) in ItemsFor(EntriesOf(root), paths) <==> Holds(root, p, kind)
  {
    var items := ItemsFor(EntriesOf(root), paths);
    if Holds(root, p, kind) {
      EntryIsHeld(root, p, Entry(kind, Lookup(root, p).value.id));
      var i :| 0 <= i < |paths| && paths[i] == p;
      assert items[i] == Item(p, kind);
    }
    if Item(p, kind) in items {
      var i :| 0 <= i < |items| && items[i] == Item(p, kind);
      assert paths[i] in paths;
      EntryIsHeld(root, p, EntriesOf(root)[p]);
    }
  }

  lemma {:induction false} NamedTell(root: Node, paths: seq<Path>, p: Path, kind: Kind, id: Identity)
    requires forall q :: q in paths <==> q in EntriesOf(root)
    ensures Named(p, kind, id) in NamedFor(EntriesOf(root), paths) <==>
            Holds(root, p, kind) && Lookup(root, p).value.id == id
  {
    var ids := NamedFor(EntriesOf(root), paths);
    EntryIsHeld(root, p, Entry(kind, id));
    if Holds(root, p, kind) && Lookup(root, p).value.id == id {
      var i :| 0 <= i < |paths| && paths[i] == p;
      assert ids[i] == Named(p, kind, id);
    }
    if Named(p, kind, id) in ids {
      var i :| 0 <= i < |ids| && ids[i] == Named(p, kind, id);
      assert paths[i] in paths;
    }
  }

  lemma {:induction false} PermissionBits(mode: int, bits: int)
    requires 0 <= bits < 4096
    ensures (mode - bits) % 4096 == 0 <==> bits == mode % 4096
  {
    assert mode == 4096 * (mode / 4096) + mode % 4096;
  }

  lemma {:induction false} SizeIsThere(root: Node, p: Path)
    requires Scannable(root) && p in FilesOf(root)
    ensures Holds(root, p, Regular) && Size(Lookup(root, p).value.id) == Lookup(root, p).value.id.size
  {
    PathsAreLookups(root, p);
    assert EntryAt(root, p).id.size >= 0;
  }

  lemma {:induction false} RecordIs(root: Node, p: Path)
    requires Scannable(root) && p in FilesOf(root)
    ensures Holds(root, p, Regular)
    ensures var file := Lookup(root, p).value; RecordsOf(root)[p] == Record(file.id.mode % 4096, file.id.size, file.sha)
  {
    SizeIsThere(root, p);
  }

  /** The same of two records: field by field, and as they are compared here. */
  lemma {:induction false} RecordAgrees(mode: int, size: int, sha: Digest, r: Record)
    ensures r == Record(mode % 4096, size, sha) <==>
            r.sha == sha && r.size == size && 0 <= r.mode < 4096 && (mode - r.mode) % 4096 == 0
  {
    if 0 <= r.mode < 4096 {
      PermissionBits(mode, r.mode);
    }
  }

  lemma {:induction false} RecordTells(root: Node, p: Path, r: Record)
    requires Scannable(root) && p in FilesOf(root)
    ensures Records(root, FileRecord(p, r)) <==> r == RecordsOf(root)[p]
  {
    RecordIs(root, p);
    var file := Lookup(root, p).value;
    RecordAgrees(file.id.mode, file.id.size, file.sha, r);
  }

  lemma {:induction false} RecordsTell(root: Node, files: seq<Path>, r: FileRecord)
    requires Scannable(root) && forall q :: q in files <==> q in RecordsOf(root)
    ensures r in RecordsFor(RecordsOf(root), files) <==> Records(root, r)
  {
    var rs := RecordsFor(RecordsOf(root), files);
    PathsAreLookups(root, r.path);
    if r.path in FilesOf(root) {
      RecordTells(root, r.path, r.record);
      var i :| 0 <= i < |files| && files[i] == r.path;
      assert rs[i] == FileRecord(r.path, RecordsOf(root)[r.path]);
    }
    if r in rs {
      var i :| 0 <= i < |rs| && rs[i] == r;
      assert files[i] in files;
    }
  }

  /** The token names the root it was captured from. */
  predicate NamesRoot(t: Token, root: Node) {
    && t.rootVersion == root.id
    && t.rootIdentity.device == root.id.device && t.rootIdentity.inode == root.id.inode
    && t.rootIdentity.attributes == root.id.attributes
    && 0 <= root.id.mode % 0x1_0000 - 0x1000 * t.rootIdentity.fileType < 0x1000
  }

  /** The lists are in strictly increasing order of the joined paths. */
  ghost predicate InPathOrder(t: Token) {
    SortedBy(Before, ItemPaths(t.inventory)) && SortedBy(Before, NamedPaths(t.identities)) && SortedBy(Before, RecordPaths(t.records))
  }

  ghost predicate ListsItems(root: Node, items: seq<Item>) {
    forall p, k :: Item(p, k) in items <==> Holds(root, p, k)
  }

  ghost predicate ListsIdentities(root: Node, ids: seq<Named>) {
    forall p, k, id :: Named(p, k, id) in ids <==> Holds(root, p, k) && Lookup(root, p).value.id == id
  }

  ghost predicate ListsRecords(root: Node, rs: seq<FileRecord>) {
    forall r :: r in rs <==> Records(root, r)
  }

  lemma {:induction false} ListsOfPaths(root: Node, paths: seq<Path>)
    requires forall q :: q in paths <==> q in EntriesOf(root)
    ensures ListsItems(root, ItemsFor(EntriesOf(root), paths)) && ListsIdentities(root, NamedFor(EntriesOf(root), paths))
    ensures ItemPaths(ItemsFor(EntriesOf(root), paths)) == paths && NamedPaths(NamedFor(EntriesOf(root), paths)) == paths
  {
    forall p, k ensures Item(p, k) in ItemsFor(EntriesOf(root), paths) <==> Holds(root, p, k) {
      ItemsTell(root, paths, p, k);
    }
    forall p, k, id
      ensures Named(p, k, id) in NamedFor(EntriesOf(root), paths) <==> Holds(root, p, k) && Lookup(root, p).value.id == id
    {
      NamedTell(root, paths, p, k, id);
    }
  }

  lemma {:induction false} ListsOfFiles(root: Node, files: seq<Path>)
    requires Scannable(root) && forall q :: q in files <==> q in RecordsOf(root)
    ensures ListsRecords(root, RecordsFor(RecordsOf(root), files)) && RecordPaths(RecordsFor(RecordsOf(root), files)) == files
  {
    forall r ensures r in RecordsFor(RecordsOf(root), files) <==> Records(root, r) {
      RecordsTell(root, files, r);
    }
  }

  /**
   Main result: a captured token lists just the entries of the tree, with their kinds
   and identities, and for every file just its permission bits, size and hash; each
   list is in the order of the paths, and the count is that of the tree.
   */
  lemma {:induction false} CaptureTellsTheTree(h: Hash, root: Node)
    requires Scannable(root)
    ensures var t := Capture(h, root);
            && NamesRoot(t, root) && InPathOrder(t) && t.entries == |PathsOf(root)|
            && ListsItems(root, t.inventory) && ListsIdentities(root, t.identities) && ListsRecords(root, t.records)
  {
    var paths, files := FieldsOfCapture(h, root);
    ListsOfPaths(root, paths);
    ListsOfFiles(root, files);
  }

  lemma {:induction false} FieldsOfCapture(h: Hash, root: Node) returns (paths: seq<Path>, files: seq<Path>)
    requires Scannable(root)
    ensures SortedBy(Before, paths) && SortedBy(Before, files) && |paths| == |PathsOf(root)|
    ensures (forall p :: p in paths <==> p in EntriesOf(root)) && (forall p :: p in files <==> p in RecordsOf(root))
    ensures var t := Capture(h, root);
            && NamesRoot(t, root) && t.entries == |paths|
            && t.inventory == ItemsFor(EntriesOf(root), paths) && t.identities == NamedFor(EntriesOf(root), paths)
            && t.records == RecordsFor(RecordsOf(root), files)
            && t.byteCount == BytesOf(t.records) && t.metadataBytes == MetadataOf(paths)
  {
    ScannableIsFlat(root);
    paths, files := ListingOf(EntriesOf(root)), ListingOf(RecordsOf(root));
    RootIsNamed(root.id);
  }

  lemma {:induction false} RootIsNamed(id: Identity)
    ensures 0 <= id.mode % 0x1_0000 - 0x1000 * RootOf(id).fileType < 0x1000
  {
  }

  lemma {:induction false} SumsAgree<T>(f: T -> int, g: T -> int, s: seq<T>)
    requires forall x :: x in s ==> f(x) == g(x)
    ensures Sum(f, s) == Sum(g, s)
  {
    SumMonotone(f, g, s);
    SumMonotone(g, f, s);
  }

  function SizeAt(root: Node): Path -> int {
    p => if Lookup(root, p).Some? then Lookup(root, p).value.id.size else 0
  }

  /** The length of the message hashed for a file with this path and record. */
  function MessageLength(r: Record): Path -> int
    requires r.mode >= 0 && r.size >= 0
  {
    p => |FileEntryMessage(Rel(p), r.mode, r.size, r.sha)|
  }

  lemma {:induction false} MessagesAreAsLong(p: Path, r: Record)
    requires r.mode >= 0 && r.size >= 0
    ensures MessageLength(r)(p) == PathCharge(p)
  {
    assert |LengthPrefixed(Rel(p))| == 8 + |Rel(p)|;
  }

  lemma {:induction false} MetadataIsLengths(r: Record, paths: seq<Path>)
    requires r.mode >= 0 && r.size >= 0
    ensures MetadataOf(paths) == Sum(MessageLength(r), paths)
  {
    MetadataIsSum(paths);
    forall p | p in paths ensures PathCharge(p) == MessageLength(r)(p) {
      MessagesAreAsLong(p, r);
    }
    SumsAgree(PathCharge, MessageLength(r), paths);
  }

  /** The byte count of a captured token is the sum of the sizes of its files. */
  lemma {:induction false} CaptureCountsBytes(h: Hash, root: Node)
    requires Scannable(root)
    ensures var t := Capture(h, root); t.byteCount == Sum(SizeAt(root), RecordPaths(t.records))
  {
    var paths, files := FieldsOfCapture(h, root);
    ListsOfFiles(root, files);
    BytesOfListing(root, files);
    forall p | p in files ensures FileSize(root)(p) == SizeAt(root)(p) {
      PathsAreLookups(root, p);
      assert EntryAt(root, p).id.size >= 0;
    }
    SumsAgree(FileSize(root), SizeAt(root), files);
  }

  /** The metadata count is the length of the messages that would be hashed if every
      entry were a file, whatever its mode, size and hash. */
  lemma {:induction false} CaptureCountsMetadata(h: Hash, root: Node, r: Record)
    requires Scannable(root) && r.mode >= 0 && r.size >= 0
    ensures var t := Capture(h, root); t.metadataBytes == Sum(MessageLength(r), ItemPaths(t.inventory))
  {
    var paths, files := FieldsOfCapture(h, root);
    ListsOfPaths(root, paths);
    MetadataIsLengths(r, paths);
  }

  const LARGEST: int := 0x1_0000_0000_0000_0000_0000_0000_0000_0000

  /** Smaller than 2 to the power of 128, whatever the sign. */
  predicate Fits(n: int) {
    -LARGEST < n < LARGEST
  }

  /** What is asked of an identity: all eight fields are bounded, what must be positive is,
      the file-type bits of the mode are those of a directory or of a regular file, the
      bit that marks a reparse point is not set, and a directory has no size. */
  lemma {:induction false} ModesTellKinds(kind: Kind, id: Identity, device: Option<int>)
    ensures ValidIdentity(kind, id, device) <==>
            && Fits(id.device) && Fits(id.inode) && Fits(id.size) && Fits(id.attributes)
            && Fits(id.mtime) && Fits(id.ctime) && Fits(id.links)
            && id.device >= 1 && id.inode >= 1 && id.links >= 1
            && 0 <= id.mode < 0x1_0000_0000
            && (if kind == Directory then id.size == 0 && 0x4000 <= id.mode % 0x1_0000 < 0x5000
                else id.size >= 0 && 0x8000 <= id.mode % 0x1_0000 < 0x9000)
            && id.attributes >= 0 && id.attributes % 0x800 < 0x400
            && (device == None || device == Some(id.device))
  {
    if id.attributes >= 0 {
      ReparseBit(id.attributes);
    }
    TypeBits(id.mode);
  }

  lemma {:induction false} ReparseBit(n: nat)
    ensures n / 0x400 % 2 == 0 <==> n % 0x800 < 0x400
  {
    var q, r := n / 0x800, n % 0x800;
    assert n == 0x800 * q + r;
    if r < 0x400 {
      assert n / 0x400 == 2 * q;
    } else {
      assert n / 0x400 == 2 * q + 1;
    }
  }

  lemma {:induction false} TypeBits(mode: int)
    ensures FileType(mode) == 4 <==> 0x4000 <= mode % 0x1_0000 < 0x5000
    ensures FileType(mode) == 8 <==> 0x8000 <= mode % 0x1_0000 < 0x9000
  {
    var q, r := mode / 0x1_0000, mode % 0x1_0000;
    assert mode == 0x1_0000 * q + r;
    assert mode / 4096 == 16 * q + r / 4096;
  }
}
