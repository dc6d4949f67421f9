/**
 The digest of a captured tree binds its content: the scanner's own limits make
 every size and path fit its field in the hashed messages.
 */
module OwnershipCommitment {
  import opened Encoding
  import opened Options
  import opened OwnershipBinding
  import opened OwnershipSums
  import opened OwnershipToken
  import opened OwnershipTree
  import opened Paths
  import opened Permutations

  lemma {:induction false} EightBytes()
    ensures Range(8) == 0x1_0000_0000_0000_0000
  {
    assert Range(2) == 0x1_0000;
    assert Range(4) == 256 * (256 * Range(2)) == 0x1_0000_0000;
    assert Range(6) == 256 * (256 * Range(4)) == 0x1_0000_0000_0000;
    assert Range(8) == 256 * (256 * Range(6));
  }

  lemma {:induction false} BytesOfCapture(h: Hash, root: Node)
    returns (files: seq<Path>)
    requires Scannable(root)
    ensures forall p :: p in files <==> p in FilesOf(root)
    ensures Capture(h, root).byteCount == Sum(FileSize(root), files)
  {
    ScannableIsFlat(root);
    files := ListingOf(RecordsOf(root));
    BytesOfListing(root, files);
  }

  /** No file of a tree within the budget is larger than the budget. */
  lemma {:induction false} FileWithinBudget(h: Hash, root: Node, p: Path)
    requires Scannable(root) && WithinBudget(Capture(h, root)) && p in FilesOf(root)
    ensures Size(Lookup(root, p).value.id) <= MAX_BYTES
  {
    var files := BytesOfCapture(h, root);
    SumAtLeast(FileSize(root), files, p);
  }

  /** Paths and sizes below the root are small. */
  ghost predicate Small(root: Node) {
    && (forall p :: p in PathsOf(root) ==> |Rel(p)| <= MAX_PATH_BYTES)
    && (forall p :: p in FilesOf(root) ==> 0 <= Lookup(root, p).value.id.size <= MAX_BYTES)
  }

  lemma {:induction false} CapturedIsSmall(h: Hash, root: Node)
    requires Scannable(root) && WithinBudget(Capture(h, root))
    ensures Small(root)
  {
    forall p | p in FilesOf(root) ensures 0 <= Lookup(root, p).value.id.size <= MAX_BYTES {
      FileWithinBudget(h, root, p);
      assert EntryAt(root, p).id.size >= 0;
    }
  }

  lemma {:induction false} SmallIsEncodable(root: Node, node: Node, parts: Path)
    requires Small(root) && Lookup(root, parts) == Some(node) && (parts == [] ==> node.Dir?)
    ensures Encodable(node, parts)
    decreases node
  {
    EightBytes();
    PathsAreLookups(root, parts);
    match node
    case File(_, _) => assert parts in FilesOf(root);
    case Dir(_, kids) =>
      forall n | n in kids ensures Encodable(kids[n], parts + [n]) {
        LookupAppends(root, parts, [n]);
        assert [n][1..] == [];
        SmallIsEncodable(root, kids[n], parts + [n]);
      }
  }

  /** Every tree that is captured has messages in which nothing overflows its field. */
  lemma {:induction false} CapturedIsEncodable(h: Hash, root: Node)
    requires Scannable(root) && WithinBudget(Capture(h, root))
    ensures Encodable(root, [])
  {
    CapturedIsSmall(h, root);
    SmallIsEncodable(root, root, []);
  }

  /**
   Main result: two captured trees whose tokens have the same digest agree on every
   name, kind, permission, size and file hash, unless among the messages hashed for
   the two of them there are two different ones with the same hash.
   */
  lemma {:induction false} TokenDigestBindsContent(h: Hash, a: Node, b: Node)
    requires Scannable(a) && WithinBudget(Capture(h, a)) && Scannable(b) && WithinBudget(Capture(h, b))
    requires Capture(h, a).digest == Capture(h, b).digest
    ensures SameContent(a, b) || Collides(h, TreeMessages(h, a, []), TreeMessages(h, b, []))
  {
    CapturedIsEncodable(h, a);
    CapturedIsEncodable(h, b);
    DigestBindsContent(h, a, b, []);
  }
}
