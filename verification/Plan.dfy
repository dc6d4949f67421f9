/**
 Workspace plans: which lists of directories and file slots are accepted, and the
 canonical form and digest of those that are. Case folding is a parameter.
 */
module Plan {
  import opened Bytes
  import opened Paths
  import opened KeySorting
  import OwnershipToken
  import opened OwnershipSums
  import opened Permutations
  import opened Sorting

  const MAX_FILE_BYTES: int := 0x10_0000_0000
  const MAX_TOTAL_BYTES: int := 0x10_0000_0000

  datatype Directory = Directory(path: Path, mode: int)

  datatype Slot = Slot(path: Path, mode: int, maxBytes: int)

  datatype Plan = Plan(subject: Bytes, rootMode: int, directories: seq<Directory>, files: seq<Slot>)

  /** `str.casefold` on the joined path. */
  type Fold = Bytes -> Bytes

  // ---- one item

  /** Portable permission bits, no write permission but the owner's, and what the owner needs. */
  predicate ValidMode(mode: int, directory: bool) {
    && 0 <= mode <= 511
    && mode / 8 % 8 / 2 % 2 == 0 && mode % 8 / 2 % 2 == 0
    && (if directory then mode / 64 == 7 else mode / 64 / 4 == 1)
  }

  /** `_relative_path`: the bounds of a path, and no backslash in it. */
  predicate ValidPlanPath(p: Path) {
    ValidPath(p) && forall i :: 0 <= i < |p| ==> '\\' !in p[i]
  }

  predicate ValidDirectory(d: Directory) {
    ValidPlanPath(d.path) && ValidMode(d.mode, true)
  }

  predicate ValidSlot(f: Slot) {
    ValidPlanPath(f.path) && ValidMode(f.mode, false) && 0 <= f.maxBytes <= MAX_FILE_BYTES
  }

  predicate ValidSubject(s: Bytes) {
    |s| == 64 && forall i :: 0 <= i < |s| ==> '0' <= s[i] <= '9' || 'a' <= s[i] <= 'f'
  }

  // ---- the lists

  function DirectoryPath(d: Directory): Path {
    d.path
  }

  function SlotPath(f: Slot): Path {
    f.path
  }

  function SlotBytes(f: Slot): int {
    f.maxBytes
  }

  function DirectoryPaths(ds: seq<Directory>): seq<Path> {
    Mapped(DirectoryPath, ds)
  }

  function SlotPaths(fs: seq<Slot>): seq<Path> {
    Mapped(SlotPath, fs)
  }

  function TotalBytes(fs: seq<Slot>): int {
    Sum(SlotBytes, fs)
  }

  function Key(fold: Fold, p: Path): Bytes {
    fold(Rel(p))
  }

  /** No two places of the list hold paths that a portable file system could confuse. */
  ghost predicate Apart(fold: Fold, paths: seq<Path>) {
    forall i, j :: 0 <= i < j < |paths| ==> Key(fold, paths[i]) != Key(fold, paths[j])
  }

  /** Every directory on the way to a path is in the list. */
  predicate AncestorsIn(p: Path, directories: set<Path>) {
    forall k :: 0 < k < |p| ==> p[..k] in directories
  }

  function AllPaths(ds: seq<Directory>, fs: seq<Slot>): seq<Path> {
    DirectoryPaths(ds) + SlotPaths(fs)
  }

  function SetOf(paths: seq<Path>): set<Path> {
    set p | p in paths
  }

  /** What the scanner's own budget allows. */
  predicate WithinInventory(paths: seq<Path>) {
    |paths| <= OwnershipToken.MAX_ENTRIES && Sum(PathCharge, paths) <= OwnershipToken.MAX_METADATA_BYTES
  }

  /** The plans that are accepted. */
  ghost predicate Accepted(fold: Fold, p: Plan) {
    var paths := AllPaths(p.directories, p.files);
    && ValidSubject(p.subject) && ValidMode(p.rootMode, true)
    && (forall d :: d in p.directories ==> ValidDirectory(d))
    && (forall f :: f in p.files ==> ValidSlot(f))
    && Apart(fold, paths)
    && (forall q :: q in paths ==> AncestorsIn(q, SetOf(DirectoryPaths(p.directories))))
    && TotalBytes(p.files) <= MAX_TOTAL_BYTES
    && WithinInventory(paths)
  }

  // ---- the canonical form

  function DirectoryKey(d: Directory): Bytes {
    Rel(d.path)
  }

  function SlotKey(f: Slot): Bytes {
    Rel(f.path)
  }

  function Canonical(p: Plan): Plan {
    Plan(p.subject, p.rootMode, StableSort(ByKey(DirectoryKey), p.directories), StableSort(ByKey(SlotKey), p.files))
  }

  // ---- reordering

  /** The same condition without positions: nothing twice, and no two paths confused. */
  lemma {:induction false} ApartIsAboutContents(fold: Fold, paths: seq<Path>)
    ensures Apart(fold, paths) <==>
            && (forall p :: multiset(paths)[p] <= 1)
            && (forall p, q :: p in paths && q in paths && p != q ==> Key(fold, p) != Key(fold, q))
  {
    if paths != [] {
      var most, last := paths[..|paths| - 1], paths[|paths| - 1];
      assert paths == most + [last];
      ApartIsAboutContents(fold, most);
      assert forall p :: multiset(paths)[p] == multiset(most)[p] + (if p == last then 1 else 0);
      assert forall p :: p in most <==> multiset(most)[p] > 0;
      if Apart(fold, paths) {
        ApartLast(fold, most, last);
      } else {
        NotApart(fold, most, last);
        assert last in paths && forall p :: p in most ==> p in paths;
      }
    }
  }

  lemma {:induction false} ApartLast(fold: Fold, most: seq<Path>, last: Path)
    requires Apart(fold, most + [last])
    ensures Apart(fold, most)
    ensures forall p :: p in most ==> Key(fold, p) != Key(fold, last)
  {
    var all := most + [last];
    forall i, j | 0 <= i < j < |most| ensures Key(fold, most[i]) != Key(fold, most[j]) {
      assert all[i] == most[i] && all[j] == most[j];
    }
    forall p | p in most ensures Key(fold, p) != Key(fold, last) {
      var i :| 0 <= i < |most| && most[i] == p;
      assert all[i] == p && all[|most|] == last;
    }
  }

  lemma {:induction false} NotApart(fold: Fold, most: seq<Path>, last: Path)
    requires !Apart(fold, most + [last])
    ensures !Apart(fold, most) || exists p :: p in most && Key(fold, p) == Key(fold, last)
  {
    var all := most + [last];
    var i, j :| 0 <= i < j < |all| && Key(fold, all[i]) == Key(fold, all[j]);
    assert all[i] == most[i];
    if j < |most| {
      assert all[j] == most[j];
    }
  }

  predicate Reordered(p: Plan, q: Plan) {
    && p.subject == q.subject && p.rootMode == q.rootMode
    && Permuted(p.directories, q.directories) && Permuted(p.files, q.files)
  }

  lemma {:induction false} PathsPermute(p: Plan, q: Plan)
    requires Reordered(p, q)
    ensures Permuted(DirectoryPaths(p.directories), DirectoryPaths(q.directories))
    ensures Permuted(AllPaths(p.directories, p.files), AllPaths(q.directories, q.files))
  {
    MappedPermutes(DirectoryPath, p.directories, q.directories);
    MappedPermutes(SlotPath, p.files, q.files);
  }

  /** Whether a plan is accepted does not depend on the order of its lists. */
  lemma {:induction false} AcceptedPermutes(fold: Fold, p: Plan, q: Plan)
    requires Reordered(p, q) && Accepted(fold, p)
    ensures Accepted(fold, q)
  {
    var paths, others := AllPaths(p.directories, p.files), AllPaths(q.directories, q.files);
    PathsPermute(p, q);
    Members(p.directories, q.directories);
    Members(p.files, q.files);
    Members(paths, others);
    Members(DirectoryPaths(p.directories), DirectoryPaths(q.directories));
    assert SetOf(DirectoryPaths(p.directories)) == SetOf(DirectoryPaths(q.directories));
    ApartIsAboutContents(fold, paths);
    ApartIsAboutContents(fold, others);
    SumPermutes(SlotBytes, p.files, q.files);
    SumPermutes(PathCharge, paths, others);
    SamePermutedLength(paths, others);
  }

  // ---- one canonical form

  lemma {:induction false} ApartMeansKeysOnce(fold: Fold, p: Plan)
    requires Apart(fold, AllPaths(p.directories, p.files))
    ensures KeysOnce(DirectoryKey, p.directories) && KeysOnce(SlotKey, p.files)
  {
    var ds, fs, all := p.directories, p.files, AllPaths(p.directories, p.files);
    forall i, j | 0 <= i < j < |ds| ensures DirectoryKey(ds[i]) != DirectoryKey(ds[j]) {
      assert all[i] == DirectoryPath(ds[i]) && all[j] == DirectoryPath(ds[j]);
      assert Key(fold, all[i]) != Key(fold, all[j]);
    }
    forall i, j | 0 <= i < j < |fs| ensures SlotKey(fs[i]) != SlotKey(fs[j]) {
      assert all[|ds| + i] == SlotPath(fs[i]) && all[|ds| + j] == SlotPath(fs[j]);
      assert Key(fold, all[|ds| + i]) != Key(fold, all[|ds| + j]);
    }
    DistinctKeysOnce(DirectoryKey, ds);
    DistinctKeysOnce(SlotKey, fs);
  }

  /** Reordering the lists of an accepted plan does not change its canonical form. */
  lemma {:induction false} CanonicalForgetsOrder(fold: Fold, p: Plan, q: Plan)
    requires Accepted(fold, p) && Reordered(p, q)
    ensures Canonical(p) == Canonical(q)
  {
    ApartMeansKeysOnce(fold, p);
    SortForgetsOrder(DirectoryKey, p.directories, q.directories);
    SortForgetsOrder(SlotKey, p.files, q.files);
  }

  /** The canonical form is a reordering, and accepted with the plan. */
  lemma {:induction false} CanonicalReorders(p: Plan)
    ensures Reordered(p, Canonical(p))
  {
    ByKeyIsPreorder(DirectoryKey);
    ByKeyIsPreorder(SlotKey);
    StableSortIsStable(ByKey(DirectoryKey), p.directories);
    StableSortIsStable(ByKey(SlotKey), p.files);
  }

  // ---- what acceptance gives

  /** Main result: an accepted plan is closed under directory ancestors, and no file is
      an ancestor of anything. */
  lemma {:induction false} AcceptedIsClosed(fold: Fold, p: Plan, path: Path, k: nat)
    requires Accepted(fold, p) && path in AllPaths(p.directories, p.files) && 0 < k < |path|
    ensures path[..k] in DirectoryPaths(p.directories)
    ensures path[..k] !in SlotPaths(p.files)
  {
    var ds, fs, all := DirectoryPaths(p.directories), SlotPaths(p.files), AllPaths(p.directories, p.files);
    assert AncestorsIn(path, SetOf(ds));
    var i :| 0 <= i < |ds| && ds[i] == path[..k];
    forall j | 0 <= j < |fs| ensures fs[j] != path[..k] {
      assert all[i] == ds[i] && all[|ds| + j] == fs[j];
    }
  }

  /** The permission bit of this weight is set. */
  predicate Grants(mode: int, weight: int)
    requires weight > 0
  {
    mode / weight % 2 == 1
  }

  const OWNER_READ := 256
  const OWNER_WRITE := 128
  const OWNER_SEARCH := 64
  const GROUP_WRITE := 16
  const WORLD_WRITE := 2

  /** The bits of a mode, one by one. */
  lemma {:induction false} ModeBits(mode: int, directory: bool)
    ensures ValidMode(mode, directory) <==>
            && 0 <= mode < 512 && !Grants(mode, GROUP_WRITE) && !Grants(mode, WORLD_WRITE) && Grants(mode, OWNER_READ)
            && (directory ==> Grants(mode, OWNER_WRITE) && Grants(mode, OWNER_SEARCH))
  {
    if 0 <= mode < 512 {
      var owner, group, world := OctalDigits(mode);
      OctalBits(owner, group, world);
    }
  }

  lemma {:induction false} OctalDigits(mode: int) returns (owner: int, group: int, world: int)
    requires 0 <= mode < 512
    ensures 0 <= owner < 8 && 0 <= group < 8 && 0 <= world < 8 && mode == 64 * owner + 8 * group + world
    ensures owner == mode / 64 && group == mode / 8 % 8 && world == mode % 8
  {
    owner, group, world := mode / 64, mode / 8 % 8, mode % 8;
    assert mode == 8 * (mode / 8) + world;
    assert mode / 8 == 8 * (mode / 8 / 8) + group;
    assert mode / 8 / 8 == owner;
  }

  lemma {:induction false} OctalBits(owner: int, group: int, world: int)
    requires 0 <= owner < 8 && 0 <= group < 8 && 0 <= world < 8
    ensures var mode := 64 * owner + 8 * group + world;
            && (Grants(mode, GROUP_WRITE) <==> group / 2 % 2 == 1) && (Grants(mode, WORLD_WRITE) <==> world / 2 % 2 == 1)
            && (Grants(mode, OWNER_READ) <==> owner / 4 == 1)
            && (Grants(mode, OWNER_WRITE) && Grants(mode, OWNER_SEARCH) && Grants(mode, OWNER_READ) <==> owner == 7)
  {
  }

  /** Nobody but the owner may write, and the owner may read. */
  predicate OnlyOwnerWrites(mode: int) {
    !Grants(mode, GROUP_WRITE) && !Grants(mode, WORLD_WRITE) && Grants(mode, OWNER_READ)
  }

  lemma {:induction false} HexDigits(c: char)
    requires '0' <= c <= '9' || 'a' <= c <= 'f'
    ensures c in "0123456789abcdef"
  {
    var digits := "0123456789abcdef";
    var i := if c <= '9' then c as int - '0' as int else 10 + c as int - 'a' as int;
    assert 0 <= i < 16;
    assert digits[i] == c;
  }

  lemma {:induction false} NoBackslashes(p: Plan)
    requires (forall d :: d in p.directories ==> ValidDirectory(d)) && (forall f :: f in p.files ==> ValidSlot(f))
    ensures forall q, i :: q in AllPaths(p.directories, p.files) && 0 <= i < |q| ==> '\\' !in q[i]
  {
    var ds, fs := DirectoryPaths(p.directories), SlotPaths(p.files);
    forall q | q in ds + fs ensures ValidPlanPath(q) {
      if q in ds {
        var i :| 0 <= i < |ds| && ds[i] == q;
        assert DirectoryPath(p.directories[i]) == q && ValidDirectory(p.directories[i]);
      } else {
        var i :| 0 <= i < |fs| && fs[i] == q;
        assert SlotPath(p.files[i]) == q && ValidSlot(p.files[i]);
      }
    }
  }

  /** Main result: nobody but the owner may write to anything an accepted plan creates,
      the owner may use all of it, and no two paths of it could be confused. */
  lemma {:induction false} AcceptedIsSafe(fold: Fold, p: Plan)
    requires Accepted(fold, p)
    ensures OnlyOwnerWrites(p.rootMode) && Grants(p.rootMode, OWNER_WRITE) && Grants(p.rootMode, OWNER_SEARCH)
    ensures forall d :: d in p.directories ==>
              OnlyOwnerWrites(d.mode) && Grants(d.mode, OWNER_WRITE) && Grants(d.mode, OWNER_SEARCH)
    ensures forall f :: f in p.files ==> OnlyOwnerWrites(f.mode) && 0 <= f.maxBytes <= MAX_FILE_BYTES
    ensures |p.subject| == 64 && forall c :: c in p.subject ==> c in "0123456789abcdef"
    ensures forall q, i :: q in AllPaths(p.directories, p.files) && 0 <= i < |q| ==> '\\' !in q[i]
    ensures forall q, r :: q in AllPaths(p.directories, p.files) && r in AllPaths(p.directories, p.files) && q != r ==>
              fold(Rel(q)) != fold(Rel(r))
  {
    ModeBits(p.rootMode, true);
    forall d | d in p.directories
      ensures OnlyOwnerWrites(d.mode) && Grants(d.mode, OWNER_WRITE) && Grants(d.mode, OWNER_SEARCH)
    {
      ModeBits(d.mode, true);
    }
    forall f | f in p.files ensures OnlyOwnerWrites(f.mode) {
      ModeBits(f.mode, false);
    }
    forall c | c in p.subject ensures c in "0123456789abcdef" {
      HexDigits(c);
    }
    NoBackslashes(p);
    ApartIsAboutContents(fold, AllPaths(p.directories, p.files));
    assert forall q :: q in AllPaths(p.directories, p.files) ==> Key(fold, q) == fold(Rel(q));
  }
}
