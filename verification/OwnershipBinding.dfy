/**
 The tree digest binds content: equal digests mean equal content, or else they
 exhibit two different messages with the same hash.
 */
module OwnershipBinding {
  import opened Bytes
  import opened Encoding
  import opened Orders
  import opened Paths
  import opened OwnershipTree

  /** The same names, kinds, permission bits, sizes and file hashes all the way down. */
  ghost predicate SameContent(a: Node, b: Node) {
    match (a, b)
    case (File(i, x), File(j, y)) =>
      i.mode % 4096 == j.mode % 4096 && i.size == j.size && x == y
    case (Dir(i, k), Dir(j, l)) =>
      i.mode % 4096 == j.mode % 4096 && k.Keys == l.Keys && forall n :: n in k && n in l ==> SameContent(k[n], l[n])
    case _ => false
  }

  /** Sizes and joined paths fit their eight-byte fields. */
  ghost predicate Encodable(node: Node, parts: Path) {
    && |Rel(parts)| < Range(8)
    && match node
       case File(id, _) => 0 <= id.size < Range(8)
       case Dir(_, kids) => forall n :: n in kids ==> Encodable(kids[n], parts + [n])
  }

  /** Every message hashed for a directory and what is below it. */
  ghost function TreeMessages(h: Hash, node: Node, parts: Path): set<Bytes>
    requires node.Dir?
    decreases node, 2
  {
    {DirectoryMessage(node.id.mode, EntryDigests(h, node, NamesOf(node), parts))} +
    set n, x | n in node.kids && x in EntryMessages(h, node.kids[n], parts + [n]) :: x
  }

  ghost function EntryMessages(h: Hash, node: Node, path: Path): set<Bytes>
    decreases node, 3
  {
    match node
    case File(id, sha) => {FileEntryMessage(Rel(path), Permissions(id.mode), Size(id), sha)}
    case Dir(id, _) =>
      {DirectoryEntryMessage(Rel(path), id.mode, TreeDigest(h, node, path))} + TreeMessages(h, node, path)
  }

  ghost predicate Collision(h: Hash, x: Bytes, y: Bytes) {
    x != y && h(x) == h(y)
  }

  /** A message of the one set and a different one of the other have the same hash. */
  ghost predicate Collides(h: Hash, a: set<Bytes>, b: set<Bytes>) {
    exists x, y :: x in a && y in b && Collision(h, x, y)
  }

  lemma {:induction false} HashTells(h: Hash, x: Bytes, y: Bytes, a: set<Bytes>, b: set<Bytes>)
    requires x in a && y in b && h(x) == h(y)
    ensures x == y || Collides(h, a, b)
  {
    if x != y {
      assert Collision(h, x, y);
    }
  }

  /** What collides inside an entry collides inside its directory. */
  lemma {:induction false} CollisionsRise(h: Hash, a: Node, b: Node, parts: Path, m: Name, n: Name)
    requires a.Dir? && b.Dir? && m in a.kids && n in b.kids
    requires Collides(h, EntryMessages(h, a.kids[m], parts + [m]), EntryMessages(h, b.kids[n], parts + [n]))
    ensures Collides(h, TreeMessages(h, a, parts), TreeMessages(h, b, parts))
  {
    var x, y :| x in EntryMessages(h, a.kids[m], parts + [m]) &&
                y in EntryMessages(h, b.kids[n], parts + [n]) && Collision(h, x, y);
    assert x in TreeMessages(h, a, parts) && y in TreeMessages(h, b, parts);
  }

  lemma {:induction false} RangeFour(m: nat, n: nat)
    requires m < 4096 && n < 4096 && BigEndian(m, 4) == BigEndian(n, 4)
    ensures m == n
  {
    assert Range(2) == 65536;
    assert Range(4) == 256 * (256 * Range(2));
    BigEndianIsInjective(m, n, 4);
  }

  lemma {:induction false} FileMessageTells(r: Bytes, s: Bytes, m: nat, n: nat, i: nat, j: nat, x: Digest, y: Digest)
    requires |r| < Range(8) && |s| < Range(8) && m < 4096 && n < 4096 && i < Range(8) && j < Range(8)
    requires FileEntryMessage(r, m, i, x) == FileEntryMessage(s, n, j, y)
    ensures r == s && m == n && i == j && x == y
  {
    SplitAt("F", "F", LengthPrefixed(r) + (BigEndian(m, 4) + (BigEndian(i, 8) + x)),
                      LengthPrefixed(s) + (BigEndian(n, 4) + (BigEndian(j, 8) + y)));
    FieldTells(r, s, 8, BigEndian(m, 4) + (BigEndian(i, 8) + x), BigEndian(n, 4) + (BigEndian(j, 8) + y));
    SplitAt(BigEndian(m, 4), BigEndian(n, 4), BigEndian(i, 8) + x, BigEndian(j, 8) + y);
    RangeFour(m, n);
    SplitAt(BigEndian(i, 8), BigEndian(j, 8), x, y);
    BigEndianIsInjective(i, j, 8);
  }

  lemma {:induction false} DirectoryEntryMessageTells(r: Bytes, s: Bytes, m: int, n: int, x: Digest, y: Digest)
    requires |r| < Range(8) && |s| < Range(8)
    requires DirectoryEntryMessage(r, m, x) == DirectoryEntryMessage(s, n, y)
    ensures r == s && Permissions(m) == Permissions(n) && x == y
  {
    var a, b := BigEndian(Permissions(m), 4), BigEndian(Permissions(n), 4);
    SplitAt("D", "D", LengthPrefixed(r) + (a + x), LengthPrefixed(s) + (b + y));
    FieldTells(r, s, 8, a + x, b + y);
    SplitAt(a, b, x, y);
    RangeFour(Permissions(m), Permissions(n));
  }

  lemma {:induction false} DirectoryMessageTells(m: int, n: int, x: Bytes, y: Bytes)
    requires DirectoryMessage(m, x) == DirectoryMessage(n, y)
    ensures Permissions(m) == Permissions(n) && x == y
  {
    var a, b := BigEndian(Permissions(m), 4), BigEndian(Permissions(n), 4);
    SplitAt(DOMAIN + a, DOMAIN + b, x, y);
    SplitAt(DOMAIN, DOMAIN, a, b);
    RangeFour(Permissions(m), Permissions(n));
  }

  /** The two kinds of entry message never agree. */
  lemma {:induction false} TagsDiffer(r: Bytes, s: Bytes, m: nat, n: int, i: nat, x: Digest, y: Digest)
    ensures FileEntryMessage(r, m, i, x) != DirectoryEntryMessage(s, n, y)
  {
    assert FileEntryMessage(r, m, i, x)[0] == 'F';
    assert DirectoryEntryMessage(s, n, y)[0] == 'D';
  }

  /** Equal entry digests at sibling paths mean the same name and the same content. */
  lemma {:induction false} EntryDigestBinds(h: Hash, a: Node, b: Node, parts: Path, m: Name, n: Name)
    requires Encodable(a, parts + [m]) && Encodable(b, parts + [n])
    requires EntryDigest(h, a, parts + [m]) == EntryDigest(h, b, parts + [n])
    ensures (m == n && SameContent(a, b)) ||
            Collides(h, EntryMessages(h, a, parts + [m]), EntryMessages(h, b, parts + [n]))
    decreases a, 1, 0
  {
    var p, q := parts + [m], parts + [n];
    var all, bll := EntryMessages(h, a, p), EntryMessages(h, b, q);
    match (a, b) {
      case (File(i, x), File(j, y)) =>
        HashTells(h, FileEntryMessage(Rel(p), Permissions(i.mode), Size(i), x),
                     FileEntryMessage(Rel(q), Permissions(j.mode), Size(j), y), all, bll);
        if !Collides(h, all, bll) {
          FileMessageTells(Rel(p), Rel(q), Permissions(i.mode), Permissions(j.mode), Size(i), Size(j), x, y);
          LastNameTells(parts, m, n);
        }
      case (Dir(i, _), Dir(j, _)) =>
        var x, y := TreeDigest(h, a, p), TreeDigest(h, b, q);
        HashTells(h, DirectoryEntryMessage(Rel(p), i.mode, x), DirectoryEntryMessage(Rel(q), j.mode, y), all, bll);
        if !Collides(h, all, bll) {
          DirectoryEntryMessageTells(Rel(p), Rel(q), i.mode, j.mode, x, y);
          LastNameTells(parts, m, n);
          DigestBindsContent(h, a, b, p);
          assert !Collides(h, TreeMessages(h, a, p), TreeMessages(h, b, p));
        }
      case (File(i, x), Dir(j, _)) =>
        TagsDiffer(Rel(p), Rel(q), Permissions(i.mode), j.mode, Size(i), x, TreeDigest(h, b, q));
        HashTells(h, FileEntryMessage(Rel(p), Permissions(i.mode), Size(i), x),
                     DirectoryEntryMessage(Rel(q), j.mode, TreeDigest(h, b, q)), all, bll);
      case (Dir(i, _), File(j, y)) =>
        TagsDiffer(Rel(q), Rel(p), Permissions(j.mode), i.mode, Size(j), y, TreeDigest(h, a, p));
        HashTells(h, DirectoryEntryMessage(Rel(p), i.mode, TreeDigest(h, a, p)),
                     FileEntryMessage(Rel(q), Permissions(j.mode), Size(j), y), all, bll);
    }
  }

  /** Siblings' joined paths differ only in the last name. */
  lemma {:induction false} LastNameTells(parts: Path, m: Name, n: Name)
    requires Rel(parts + [m]) == Rel(parts + [n])
    ensures m == n
  {
    if parts == [] {
      assert parts + [m] == [m] && parts + [n] == [n];
    } else {
      RelOfAppended(parts, [m]);
      RelOfAppended(parts, [n]);
      var d := Rel(parts) + "/";
      SplitAt(d, d, m, n);
    }
  }

  lemma {:induction false} FirstEntryBinds(h: Hash, a: Node, b: Node, parts: Path, m: Name, n: Name)
    requires a.Dir? && b.Dir? && Encodable(a, parts) && Encodable(b, parts) && m in a.kids && n in b.kids
    requires EntryDigest(h, a.kids[m], parts + [m]) == EntryDigest(h, b.kids[n], parts + [n])
    ensures (m == n && SameContent(a.kids[m], b.kids[n])) ||
            Collides(h, TreeMessages(h, a, parts), TreeMessages(h, b, parts))
    decreases a, 0, 0
  {
    EntryDigestBinds(h, a.kids[m], b.kids[n], parts, m, n);
    if Collides(h, EntryMessages(h, a.kids[m], parts + [m]), EntryMessages(h, b.kids[n], parts + [n])) {
      CollisionsRise(h, a, b, parts, m, n);
    }
  }

  lemma {:induction false} EntriesSplit(h: Hash, a: Node, b: Node, parts: Path, m: seq<Name>, n: seq<Name>)
    requires a.Dir? && b.Dir?
    requires (forall x :: x in m ==> x in a.kids) && (forall x :: x in n ==> x in b.kids)
    requires EntryDigests(h, a, m, parts) == EntryDigests(h, b, n, parts)
    ensures m == [] <==> n == []
    ensures m != [] && n != [] ==>
              && EntryDigest(h, a.kids[m[0]], parts + [m[0]]) == EntryDigest(h, b.kids[n[0]], parts + [n[0]])
              && EntryDigests(h, a, m[1..], parts) == EntryDigests(h, b, n[1..], parts)
  {
    assert m != [] ==> |EntryDigests(h, a, m, parts)| >= 32;
    assert n != [] ==> |EntryDigests(h, b, n, parts)| >= 32;
    if m != [] && n != [] {
      SplitAt(EntryDigest(h, a.kids[m[0]], parts + [m[0]]), EntryDigest(h, b.kids[n[0]], parts + [n[0]]),
              EntryDigests(h, a, m[1..], parts), EntryDigests(h, b, n[1..], parts));
    }
  }

  ghost predicate SameEntries(a: Node, b: Node, names: seq<Name>) {
    forall x :: x in names ==> a.Dir? && b.Dir? && x in a.kids && x in b.kids && SameContent(a.kids[x], b.kids[x])
  }

  /** If entry digests tell entries apart, lists of entry digests tell lists of entries apart. */
  lemma {:induction false} EntriesBind(h: Hash, a: Node, b: Node, parts: Path, m: seq<Name>, n: seq<Name>)
    requires a.Dir? && b.Dir?
    requires (forall x :: x in m ==> x in a.kids) && (forall x :: x in n ==> x in b.kids)
    requires EntryDigests(h, a, m, parts) == EntryDigests(h, b, n, parts)
    requires EntriesTold(h, a, b, parts)
    ensures m == n && SameEntries(a, b, m)
    decreases |m|
  {
    EntriesSplit(h, a, b, parts, m, n);
    if m != [] {
      EntriesBind(h, a, b, parts, m[1..], n[1..]);
      SameEntriesGrow(a, b, m, n);
    }
  }

  lemma {:induction false} SameEntriesGrow(a: Node, b: Node, m: seq<Name>, n: seq<Name>)
    requires a.Dir? && b.Dir? && m != [] && n != [] && m[0] == n[0] && m[1..] == n[1..]
    requires m[0] in a.kids && m[0] in b.kids && SameContent(a.kids[m[0]], b.kids[m[0]]) && SameEntries(a, b, m[1..])
    ensures m == n && SameEntries(a, b, m)
  {
    assert m == [m[0]] + m[1..] && n == [n[0]] + n[1..];
  }

  ghost predicate EntriesTold(h: Hash, a: Node, b: Node, parts: Path)
    requires a.Dir? && b.Dir?
  {
    forall x, y | x in a.kids && y in b.kids &&
                  EntryDigest(h, a.kids[x], parts + [x]) == EntryDigest(h, b.kids[y], parts + [y])
      :: x == y && SameContent(a.kids[x], b.kids[y])
  }

  /**
   Two directories with the same digest agree on every name, kind, permission, size
   and file hash below them, unless among the messages hashed for the two of them
   there are two different ones with the same hash.
   */
  lemma {:induction false} DigestBindsContent(h: Hash, a: Node, b: Node, parts: Path)
    requires a.Dir? && b.Dir? && Encodable(a, parts) && Encodable(b, parts)
    requires TreeDigest(h, a, parts) == TreeDigest(h, b, parts)
    ensures SameContent(a, b) || Collides(h, TreeMessages(h, a, parts), TreeMessages(h, b, parts))
    decreases a, 0, |a.kids| + 1
  {
    var m, n := NamesOf(a), NamesOf(b);
    var x, y := EntryDigests(h, a, m, parts), EntryDigests(h, b, n, parts);
    var all, bll := TreeMessages(h, a, parts), TreeMessages(h, b, parts);
    HashTells(h, DirectoryMessage(a.id.mode, x), DirectoryMessage(b.id.mode, y), all, bll);
    if !Collides(h, all, bll) {
      DirectoryMessageTells(a.id.mode, b.id.mode, x, y);
      forall x, y | x in a.kids && y in b.kids &&
          EntryDigest(h, a.kids[x], parts + [x]) == EntryDigest(h, b.kids[y], parts + [y])
        ensures x == y && SameContent(a.kids[x], b.kids[y])
      {
        FirstEntryBinds(h, a, b, parts, x, y);
      }
      EntriesBind(h, a, b, parts, m, n);
      SameNames(a, b);
    }
  }

  lemma {:induction false} SameNames(a: Node, b: Node)
    requires a.Dir? && b.Dir? && NamesOf(a) == NamesOf(b)
    ensures a.kids.Keys == b.kids.Keys
  {
    forall k ensures k in a.kids <==> k in b.kids {
      assert k in NamesOf(a) <==> k in a.kids;
      assert k in NamesOf(b) <==> k in b.kids;
    }
  }

  /** Directories with the same content have the same digest. */
  lemma {:induction false} ContentDecidesDigest(h: Hash, a: Node, b: Node, parts: Path)
    requires a.Dir? && b.Dir? && SameContent(a, b)
    ensures TreeDigest(h, a, parts) == TreeDigest(h, b, parts)
    decreases a, 0, |a.kids| + 1
  {
    LessOrders(a.kids.Keys);
    SortedIsUnique(Less, NamesOf(a), NamesOf(b), a.kids.Keys);
    ContentDecidesEntries(h, a, b, NamesOf(a), parts);
  }

  lemma {:induction false} ContentDecidesEntries(h: Hash, a: Node, b: Node, names: seq<Name>, parts: Path)
    requires a.Dir? && b.Dir? && SameContent(a, b)
    requires forall n :: n in names ==> n in a.kids
    ensures EntryDigests(h, a, names, parts) == EntryDigests(h, b, names, parts)
    decreases a, 0, |names|
  {
    if names != [] {
      var n := names[0];
      ContentDecidesEntries(h, a, b, names[1..], parts);
      if a.kids[n].Dir? {
        ContentDecidesDigest(h, a.kids[n], b.kids[n], parts + [n]);
      }
    }
  }

  // ---- the messages, byte for byte

  lemma {:induction false} SmallNumber(n: nat, width: nat)
    requires n < 256 && width > 0
    ensures BigEndian(n, width) == seq(width - 1, _ => '\0') + [n as char]
  {
    if width > 1 {
      assert n / 256 == 0 && n % 256 == n;
      SmallNumber(0, width - 1);
      assert seq(width - 1, _ => '\0') == seq(width - 2, _ => '\0') + ['\0'];
    }
  }

  lemma {:induction false} TwoDigits(high: nat, low: nat, width: nat)
    requires high < 256 && low < 256 && width > 1
    ensures BigEndian(256 * high + low, width) == seq(width - 2, _ => '\0') + [high as char, low as char]
  {
    var n := 256 * high + low;
    assert n / 256 == high && n % 256 == low;
    SmallNumber(high, width - 1);
  }

  lemma {:induction false} Zeros()
    ensures seq(7, _ => '\0') == "\0\0\0\0\0\0\0" && seq(2, _ => '\0') == "\0\0"
  {
  }

  lemma {:induction false} ModeBytes(high: nat, low: nat)
    requires high < 256 && low < 256
    ensures BigEndian(256 * high + low, 4) == "\0\0" + [high as char, low as char]
  {
    TwoDigits(high, low, 4);
    Zeros();
  }

  lemma {:induction false} SizeBytes(n: nat)
    requires n < 256
    ensures BigEndian(n, 8) == "\0\0\0\0\0\0\0" + [n as char]
  {
    SmallNumber(n, 8);
    Zeros();
  }

  /** The message of a short file with mode 0o644, whose octal digits are 0x01 and 0xA4 in
      two bytes. */
  lemma {:induction false} KnownFileMessage(path: Bytes, size: nat, sha: Digest)
    requires |path| < 256 && size < 256
    ensures FileEntryMessage(path, 0x1A4, size, sha) ==
            "F" + ((("\0\0\0\0\0\0\0" + [|path| as char]) + path)
                   + (("\0\0" + [1 as char, 0xA4 as char]) + (("\0\0\0\0\0\0\0" + [size as char]) + sha)))
  {
    SizeBytes(|path|);
    SizeBytes(size);
    ModeBytes(1, 0xA4);
  }

  /** The digest of an empty directory with mode 0o755, wherever it stands. */
  lemma {:induction false} KnownEmptyDigest(h: Hash, root: Node, parts: Path)
    requires root.Dir? && root.kids == map[] && root.id.mode == 0x41ED
    ensures TreeDigest(h, root, parts) == h("codenib.atomic-directory.v1\0" + ("\0\0" + [1 as char, 0xED as char]))
  {
    ModeBytes(1, 0xED);
    KnownMessage(root.id.mode, 1, 0xED);
  }

  lemma {:induction false} KnownMessage(mode: int, high: nat, low: nat)
    requires mode % 4096 == 256 * high + low && high < 256 && low < 256
    ensures DirectoryMessage(mode, []) == DOMAIN + ("\0\0" + [high as char, low as char])
  {
    ModeBytes(high, low);
  }
}
