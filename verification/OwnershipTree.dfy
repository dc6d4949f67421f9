/**
 A directory tree as the ownership scanner sees it, its Merkle digest, and what
 the scanner records of every entry.  The hash function is a parameter.
 */
module OwnershipTree {
  import opened Bytes
  import opened Encoding
  import opened Options
  import opened Orders
  import opened Paths

  type Digest = d: Bytes | |d| == 32 witness seq(32, _ => '\0')

  type Hash = Bytes -> Digest

  /** The eight fields of a captured version identity. */
  datatype Identity = Identity(
    device: int, inode: int, mode: int, size: int, attributes: int, mtime: int, ctime: int, links: int)

  datatype Kind = Directory | Regular

  /** A file with the hash of its bytes, or a directory; `kids` has no order, as `scandir` promises none. */
  datatype Node = File(id: Identity, sha: Digest) | Dir(id: Identity, kids: map<Name, Node>)
  {
    function Kind(): Kind {
      if Dir? then Directory else Regular
    }
  }

  /** What a token says of a path. */
  datatype Entry = Entry(kind: Kind, id: Identity)

  datatype Record = Record(mode: int, size: int, sha: Digest)

  /** `stat.S_IMODE`. */
  function Permissions(mode: int): (m: nat)
    ensures m < 4096
  {
    mode % 4096
  }

  // ---- the hashed messages

  const DOMAIN: Bytes := "codenib.atomic-directory.v1\0"

  function LengthPrefixed(value: Bytes): Bytes {
    BigEndian(|value|, 8) + value
  }

  function DirectoryMessage(mode: int, entries: Bytes): Bytes {
    (DOMAIN + BigEndian(Permissions(mode), 4)) + entries
  }

  function DirectoryEntryMessage(relative: Bytes, mode: int, digest: Digest): Bytes {
    "D" + (LengthPrefixed(relative) + (BigEndian(Permissions(mode), 4) + digest))
  }

  function FileEntryMessage(relative: Bytes, mode: nat, size: nat, sha: Digest): Bytes {
    "F" + (LengthPrefixed(relative) + (BigEndian(mode, 4) + (BigEndian(size, 8) + sha)))
  }

  // ---- the recursive scan

  ghost function NamesOf(node: Node): seq<Name>
    requires node.Dir?
    ensures SortedBy(Less, NamesOf(node))
    ensures forall n :: n in NamesOf(node) <==> n in node.kids
  {
    LessOrders(node.kids.Keys);
    Sorted(Less, node.kids.Keys)
  }

  /** The digest of a directory that stands at `parts` below the root. */
  ghost function TreeDigest(h: Hash, node: Node, parts: Path): Digest
    requires node.Dir?
    decreases node, 2, 0
  {
    h(DirectoryMessage(node.id.mode, EntryDigests(h, node, NamesOf(node), parts)))
  }

  /** The digests of the named entries of a directory, one after the other. */
  ghost function EntryDigests(h: Hash, node: Node, names: seq<Name>, parts: Path): Bytes
    requires node.Dir? && forall n :: n in names ==> n in node.kids
    decreases node, 1, |names|
  {
    if names == [] then []
    else EntryDigest(h, node.kids[names[0]], parts + [names[0]]) + EntryDigests(h, node, names[1..], parts)
  }

  ghost function EntryDigest(h: Hash, node: Node, path: Path): Digest
    decreases node, 3, 0
  {
    match node
    case File(id, sha) => h(FileEntryMessage(Rel(path), Permissions(id.mode), Size(id), sha))
    case Dir(id, _) => h(DirectoryEntryMessage(Rel(path), id.mode, TreeDigest(h, node, path)))
  }

  /** Sizes are never negative. */
  function Size(id: Identity): nat {
    if id.size < 0 then 0 else id.size
  }

  // ---- paths of a tree

  function Lookup(node: Node, path: Path): Option<Node>
    decreases |path|
  {
    if path == [] then Some(node)
    else if node.Dir? && path[0] in node.kids then Lookup(node.kids[path[0]], path[1..])
    else None
  }

  lemma {:induction false} LookupAppends(node: Node, p: Path, q: Path)
    ensures Lookup(node, p + q) ==
            match Lookup(node, p)
            case None => None
            case Some(m) => Lookup(m, q)
    decreases |p|
  {
    if p == [] {
      assert p + q == q;
    } else {
      assert (p + q)[1..] == p[1..] + q;
      if node.Dir? && p[0] in node.kids {
        LookupAppends(node.kids[p[0]], p[1..], q);
      }
    }
  }

  /** The paths of everything below a node. */
  ghost function PathsOf(node: Node): set<Path> {
    match node
    case File(_, _) => {}
    case Dir(_, kids) =>
      (set n | n in kids :: [n]) + (set n, q | n in kids && q in PathsOf(kids[n]) :: [n] + q)
  }

  lemma {:induction false} PathsAreLookups(node: Node, p: Path)
    ensures p in PathsOf(node) <==> p != [] && Lookup(node, p).Some?
    decreases |p|
  {
    if node.Dir? && p != [] && p[0] in node.kids {
      PathsAreLookups(node.kids[p[0]], p[1..]);
      assert p == [p[0]] + p[1..];
      if |p| == 1 {
        assert p == [p[0]];
      } else {
        if p in PathsOf(node) {
          if p !in (set n | n in node.kids :: [n]) {
            var n, q :| n in node.kids && q in PathsOf(node.kids[n]) && p == [n] + q;
            assert n == p[0] && q == p[1..];
          }
        }
      }
    }
  }

  ghost function EntriesOf(node: Node): (m: map<Path, Entry>)
    ensures m.Keys == PathsOf(node)
  {
    map p | p in PathsOf(node) :: EntryAt(node, p)
  }

  ghost function EntryAt(node: Node, p: Path): Entry
    requires p in PathsOf(node)
  {
    PathsAreLookups(node, p);
    var m := Lookup(node, p).value;
    Entry(m.Kind(), m.id)
  }

  ghost function FilesOf(node: Node): set<Path> {
    set p | p in PathsOf(node) && Lookup(node, p).Some? && Lookup(node, p).value.File?
  }

  ghost function RecordsOf(node: Node): (m: map<Path, Record>)
    ensures m.Keys == FilesOf(node)
  {
    map p | p in FilesOf(node) :: RecordOf(Lookup(node, p).value)
  }

  function RecordOf(node: Node): Record
    requires node.File?
  {
    Record(Permissions(node.id.mode), Size(node.id), node.sha)
  }
}
