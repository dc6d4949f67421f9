/**
 `_rebuild_ownership_digest`: the digest recomputed from the flat entries of a
 token, siblings being put in raw-byte order by a byte trie.
 */
module OwnershipRebuild {
  import opened Bytes
  import opened Options
  import opened Orders
  import opened Paths
  import opened OwnershipTree
  import ByteTrie

  type Entries = map<Path, Entry>
  type Records = map<Path, Record>

  /** Everything strictly below a path. */
  function Below(entries: Entries, path: Path): set<Path> {
    set p | p in entries && path < p
  }

  /** The names of the entries directly below a path. */
  function ChildNames(entries: Entries, path: Path): set<Name> {
    set p | p in entries && |p| == |path| + 1 && path <= p :: p[|path|]
  }

  lemma {:induction false} ChildNamesAreEntries(entries: Entries, path: Path, n: Name)
    ensures n in ChildNames(entries, path) <==> path + [n] in entries
  {
    if n in ChildNames(entries, path) {
      var p :| p in entries && |p| == |path| + 1 && path <= p && p[|path|] == n;
      assert p == path + [n];
    }
    if path + [n] in entries {
      assert (path + [n])[|path|] == n;
    }
  }

  lemma {:induction false} BelowShrinks(entries: Entries, path: Path, n: Name)
    requires path + [n] in entries
    ensures Below(entries, path + [n]) < Below(entries, path)
  {
    assert path + [n] in Below(entries, path);
    assert path + [n] !in Below(entries, path + [n]);
    forall p | p in Below(entries, path + [n]) ensures p in Below(entries, path) {
      assert p[..|path|] == (path + [n])[..|path|] == path;
    }
  }

  /** Every file has a record. */
  ghost predicate Recorded(entries: Entries, records: Records) {
    forall p :: p in entries && entries[p].kind == Regular ==> p in records
  }

  /** What the rebuild computes for the directory at `path`. */
  ghost function FlatDigest(h: Hash, entries: Entries, records: Records, path: Path, id: Identity): Digest
    requires Recorded(entries, records)
    decreases Below(entries, path), 2, 0
  {
    LessOrders(ChildNames(entries, path));
    var names := Sorted(Less, ChildNames(entries, path));
    h(DirectoryMessage(id.mode, FlatDigests(h, entries, records, path, names)))
  }

  ghost function FlatDigests(h: Hash, entries: Entries, records: Records, path: Path, names: seq<Name>): Bytes
    requires Recorded(entries, records)
    requires forall n :: n in names ==> n in ChildNames(entries, path)
    decreases Below(entries, path), 1, |names|
  {
    if names == [] then []
    else FlatEntryDigest(h, entries, records, path, names[0]) + FlatDigests(h, entries, records, path, names[1..])
  }

  ghost function FlatEntryDigest(h: Hash, entries: Entries, records: Records, path: Path, n: Name): Digest
    requires Recorded(entries, records) && n in ChildNames(entries, path)
    decreases Below(entries, path), 0, 0
  {
    ChildNamesAreEntries(entries, path, n);
    BelowShrinks(entries, path, n);
    var child := path + [n];
    var e := entries[child];
    if e.kind == Directory
    then h(DirectoryEntryMessage(Rel(child), e.id.mode, FlatDigest(h, entries, records, child, e.id)))
    else
      var r := records[child];
      h(FileEntryMessage(Rel(child), Natural(r.mode), Natural(r.size), r.sha))
  }

  function Natural(n: int): nat {
    if n < 0 then 0 else n
  }

  // ---- the flat form agrees with the tree

  lemma {:induction false} CapturedAreRecorded(node: Node)
    ensures Recorded(EntriesOf(node), RecordsOf(node))
  {
    forall p | p in EntriesOf(node) && EntriesOf(node)[p].kind == Regular ensures p in RecordsOf(node) {
      PathsAreLookups(node, p);
    }
  }

  /** The children of a captured directory are the directory's own. */
  lemma {:induction false} CapturedChildren(root: Node, path: Path, dir: Node)
    requires Lookup(root, path) == Some(dir) && dir.Dir?
    ensures ChildNames(EntriesOf(root), path) == dir.kids.Keys
    ensures forall n :: n in dir.kids ==> Lookup(root, path + [n]) == Some(dir.kids[n])
  {
    forall n ensures n in ChildNames(EntriesOf(root), path) <==> n in dir.kids {
      ChildNamesAreEntries(EntriesOf(root), path, n);
      PathsAreLookups(root, path + [n]);
      LookupAppends(root, path, [n]);
      OneName(dir, n);
    }
    forall n | n in dir.kids ensures Lookup(root, path + [n]) == Some(dir.kids[n]) {
      LookupAppends(root, path, [n]);
      OneName(dir, n);
    }
  }

  lemma {:induction false} OneName(node: Node, n: Name)
    ensures Lookup(node, [n]) == if node.Dir? && n in node.kids then Some(node.kids[n]) else None
  {
    assert [n][1..] == [];
  }

  /** Rebuilding from the flat entries of any tree gives the digest the recursive scan gives. */
  lemma {:induction false} RebuildAgreesWithScan(h: Hash, root: Node, path: Path, dir: Node)
    requires Lookup(root, path) == Some(dir) && dir.Dir?
    ensures Recorded(EntriesOf(root), RecordsOf(root))
    ensures FlatDigest(h, EntriesOf(root), RecordsOf(root), path, dir.id) == TreeDigest(h, dir, path)
    decreases dir, 1, 0
  {
    CapturedAreRecorded(root);
    CapturedChildren(root, path, dir);
    LessOrders(dir.kids.Keys);
    SortedIsUnique(Less, NamesOf(dir), Sorted(Less, ChildNames(EntriesOf(root), path)), dir.kids.Keys);
    RebuildListAgrees(h, root, path, dir, NamesOf(dir));
  }

  lemma {:induction false} RebuildListAgrees(h: Hash, root: Node, path: Path, dir: Node, names: seq<Name>)
    requires Recorded(EntriesOf(root), RecordsOf(root))
    requires Lookup(root, path) == Some(dir) && dir.Dir?
    requires forall n :: n in names ==> n in dir.kids && n in ChildNames(EntriesOf(root), path)
    ensures FlatDigests(h, EntriesOf(root), RecordsOf(root), path, names) == EntryDigests(h, dir, names, path)
    decreases dir, 0, |names|
  {
    if names != [] {
      RebuildEntryAgrees(h, root, path, dir, names[0]);
      RebuildListAgrees(h, root, path, dir, names[1..]);
    }
  }

  lemma {:induction false} RebuildEntryAgrees(h: Hash, root: Node, path: Path, dir: Node, n: Name)
    requires Recorded(EntriesOf(root), RecordsOf(root))
    requires Lookup(root, path) == Some(dir) && dir.Dir? && n in dir.kids && n in ChildNames(EntriesOf(root), path)
    ensures FlatEntryDigest(h, EntriesOf(root), RecordsOf(root), path, n) == EntryDigest(h, dir.kids[n], path + [n])
    decreases dir, 0, 0
  {
    CapturedChildren(root, path, dir);
    PathsAreLookups(root, path + [n]);
    if dir.kids[n].Dir? {
      RebuildAgreesWithScan(h, root, path + [n], dir.kids[n]);
    }
  }

  // ---- the program

  /** The order in which a dictionary of entries is iterated. */
  ghost predicate Enumerates(order: seq<Path>, entries: Entries) {
    && (forall p :: p in order <==> p in entries)
    && (forall i, j :: 0 <= i < j < |order| ==> order[i] != order[j])
  }

  /** `children.get(path, [])`. */
  function NamesAt(children: map<Path, seq<Name>>, path: Path): seq<Name> {
    if path in children then children[path] else []
  }

  /** Under every path, the names of the entries in `seen`, each once. */
  ghost predicate Collected(children: map<Path, seq<Name>>, seen: seq<Path>) {
    && (forall p, n :: n in NamesAt(children, p) <==> p + [n] in seen)
    && (forall p :: Distinct(NamesAt(children, p)))
  }

  predicate Distinct(names: seq<Name>) {
    forall i, j :: 0 <= i < j < |names| ==> names[i] != names[j]
  }

  lemma {:induction false} CollectStep(before: map<Path, seq<Name>>, after: map<Path, seq<Name>>, seen: seq<Path>, parent: Path, name: Name)
    requires Collected(before, seen) && parent + [name] !in seen
    requires forall p :: NamesAt(after, p) == if p == parent then NamesAt(before, p) + [name] else NamesAt(before, p)
    ensures Collected(after, seen + [parent + [name]])
  {
    var path := parent + [name];
    forall p, n ensures n in NamesAt(after, p) <==> p + [n] in seen + [path] {
      assert p + [n] == path <==> p == parent && n == name by {
        if p + [n] == path {
          assert (p + [n])[..|p|] == p && path[..|parent|] == parent;
          assert (p + [n])[|p|] == n && path[|parent|] == name;
        }
      }
    }
    forall p ensures Distinct(NamesAt(after, p)) {
      if p == parent {
        assert name !in NamesAt(before, p);
      }
    }
  }

  method AddChild(before: map<Path, seq<Name>>, ghost seen: seq<Path>, parent: Path, name: Name, directory: bool)
    returns (after: map<Path, seq<Name>>)
    requires Collected(before, seen) && parent + [name] !in seen
    ensures Collected(after, seen + [parent + [name]])
  {
    after := before[parent := NamesAt(before, parent) + [name]];
    var path := parent + [name];
    if directory && path !in after {
      after := after[path := []];
    }
    CollectStep(before, after, seen, parent, name);
  }

  /** The directory an entry stands in is the root, or an entry that is a directory. */
  predicate Stands(entries: Entries, path: Path)
    requires path != []
  {
    var parent := path[..|path| - 1];
    parent == [] || (parent in entries && entries[parent].kind == Directory)
  }

  /** Every entry stands in a directory that is an entry too, the root excepted. */
  ghost predicate Closed(entries: Entries)
    requires [] !in entries
  {
    forall p :: p in entries ==> Stands(entries, p)
  }

  method CollectChildren(entries: Entries, order: seq<Path>) returns (r: Option<map<Path, seq<Name>>>)
    requires [] !in entries && Enumerates(order, entries)
    ensures r.Some? <==> Closed(entries)
    ensures r.Some? ==> Collected(r.value, order)
  {
    var children: map<Path, seq<Name>> := map[[] := []];
    var i := 0;
    while i < |order|
      invariant 0 <= i <= |order|
      invariant Collected(children, order[..i])
      invariant forall p :: p in order[..i] ==> p in entries && Stands(entries, p)
    {
      var path := order[i];
      assert path in order;
      if !Stands(entries, path) { return None; }
      var parent, name := path[..|path| - 1], path[|path| - 1];
      assert path == parent + [name];
      children := AddChild(children, order[..i], parent, name, entries[path].kind == Directory);
      assert order[..i + 1] == order[..i] + [path];
      i := i + 1;
    }
    assert order[..i] == order;
    r := Some(children);
  }

  lemma {:induction false} CollectedChildren(children: map<Path, seq<Name>>, entries: Entries, order: seq<Path>, path: Path)
    requires Enumerates(order, entries) && Collected(children, order)
    ensures Distinct(NamesAt(children, path))
    ensures forall n :: n in NamesAt(children, path) <==> n in ChildNames(entries, path)
  {
    forall n ensures n in NamesAt(children, path) <==> n in ChildNames(entries, path) {
      ChildNamesAreEntries(entries, path, n);
    }
  }

  /** Siblings in raw-byte order. */
  method OrderedChildren(entries: Entries, children: map<Path, seq<Name>>, ghost order: seq<Path>, path: Path)
    returns (names: seq<Name>)
    requires Enumerates(order, entries) && Collected(children, order)
    ensures forall n :: n in names ==> n in ChildNames(entries, path)
    ensures Orders.Orders(Less, ChildNames(entries, path)) && names == Sorted(Less, ChildNames(entries, path))
  {
    CollectedChildren(children, entries, order, path);
    LessOrders(ChildNames(entries, path));
    var ordered := ByteTrie.RawByteOrder(NamesAt(children, path));
    names := ordered.value;
    SortedIsUnique(Less, names, Sorted(Less, ChildNames(entries, path)), ChildNames(entries, path));
  }

  method HashDirectory(h: Hash, entries: Entries, records: Records, children: map<Path, seq<Name>>,
                       ghost order: seq<Path>, path: Path, id: Identity) returns (digest: Digest)
    requires Enumerates(order, entries) && Collected(children, order) && Recorded(entries, records)
    ensures digest == FlatDigest(h, entries, records, path, id)
    decreases Below(entries, path), 2
  {
    var names := OrderedChildren(entries, children, order, path);
    var text := HashChildren(h, entries, records, children, order, path, names);
    digest := h(DirectoryMessage(id.mode, text));
  }

  method HashChildren(h: Hash, entries: Entries, records: Records, children: map<Path, seq<Name>>,
                      ghost order: seq<Path>, path: Path, names: seq<Name>) returns (text: Bytes)
    requires Enumerates(order, entries) && Collected(children, order) && Recorded(entries, records)
    requires forall n :: n in names ==> n in ChildNames(entries, path)
    ensures text == FlatDigests(h, entries, records, path, names)
    decreases Below(entries, path), 1
  {
    text := [];
    var i := 0;
    ghost var all := FlatDigests(h, entries, records, path, names);
    assert names[0..] == names && text + all == all;
    while i < |names|
      invariant 0 <= i <= |names|
      invariant text + FlatDigests(h, entries, records, path, names[i..]) == all
    {
      var d := HashEntry(h, entries, records, children, order, path, names[i]);
      DigestsStep(h, entries, records, path, names, i, text, d);
      text := text + d;
      i := i + 1;
    }
    assert text + [] == text;
  }

  method HashEntry(h: Hash, entries: Entries, records: Records, children: map<Path, seq<Name>>,
                   ghost order: seq<Path>, path: Path, name: Name) returns (digest: Digest)
    requires Enumerates(order, entries) && Collected(children, order) && Recorded(entries, records)
    requires name in ChildNames(entries, path)
    ensures digest == FlatEntryDigest(h, entries, records, path, name)
    decreases Below(entries, path), 0
  {
    var child := path + [name];
    ChildNamesAreEntries(entries, path, name);
    BelowShrinks(entries, path, name);
    var e := entries[child];
    if e.kind == Directory {
      var inner := HashDirectory(h, entries, records, children, order, child, e.id);
      digest := h(DirectoryEntryMessage(Rel(child), e.id.mode, inner));
    } else {
      var r := records[child];
      digest := h(FileEntryMessage(Rel(child), Natural(r.mode), Natural(r.size), r.sha));
    }
  }

  lemma {:induction false} DigestsStep(h: Hash, entries: Entries, records: Records, path: Path, names: seq<Name>, i: nat, text: Bytes, d: Digest)
    requires Recorded(entries, records) && forall n :: n in names ==> n in ChildNames(entries, path)
    requires i < |names| && d == FlatEntryDigest(h, entries, records, path, names[i])
    ensures text + FlatDigests(h, entries, records, path, names[i..]) ==
            (text + d) + FlatDigests(h, entries, records, path, names[i + 1..])
  {
    assert names[i..][1..] == names[i + 1..];
    assert text + (d + FlatDigests(h, entries, records, path, names[i + 1..])) ==
           (text + d) + FlatDigests(h, entries, records, path, names[i + 1..]);
  }

  /** The program: nothing when an entry has no directory to stand in, or else the flat digest. */
  method RebuildOwnershipDigest(h: Hash, root: Identity, entries: Entries, records: Records, order: seq<Path>)
    returns (r: Option<Digest>)
    requires [] !in entries && Enumerates(order, entries) && Recorded(entries, records)
    ensures r == if Closed(entries) then Some(FlatDigest(h, entries, records, [], root)) else None
  {
    var children := CollectChildren(entries, order);
    if children.None? { return None; }
    var digest := HashDirectory(h, entries, records, children.value, order, [], root);
    r := Some(digest);
  }
}
