/** The totals of a token as sums over its paths, whatever their order. */
module OwnershipSums {
  import opened Bytes
  import opened OwnershipToken
  import opened OwnershipTree
  import opened Paths
  import opened Permutations
  import KeySorting
  import Orders

  function PathCharge(p: Path): int {
    Charge(p)
  }

  lemma {:induction false} MetadataIsSum(paths: seq<Path>)
    ensures MetadataOf(paths) == Sum(PathCharge, paths)
  {
    if paths != [] {
      MetadataIsSum(paths[..|paths| - 1]);
    }
  }

  function JoinedPath(p: Path): Bytes {
    Rel(p)
  }

  /** A strictly ordered list holds nothing twice. */
  lemma {:induction false} OrderedOnce(s: seq<Path>)
    requires Orders.SortedBy(Before, s)
    ensures forall x :: multiset(s)[x] <= 1
  {
    forall i, j | 0 <= i < j < |s| ensures JoinedPath(s[i]) != JoinedPath(s[j]) {
      assert Before(s[i], s[j]);
      LessIsTotal(Rel(s[i]), Rel(s[j]));
    }
    KeySorting.DistinctKeysOnce(JoinedPath, s);
  }

  ghost function FileSize(root: Node): Path -> int {
    q => if Lookup(root, q).Some? then Size(Lookup(root, q).value.id) else 0
  }

  lemma {:induction false} BytesOfListing(root: Node, files: seq<Path>)
    requires forall q :: q in files ==> q in FilesOf(root)
    ensures (forall q :: q in files ==> q in RecordsOf(root))
    ensures BytesOf(RecordsFor(RecordsOf(root), files)) == Sum(FileSize(root), files)
    decreases |files|
  {
    if files != [] {
      var most, last := files[..|files| - 1], files[|files| - 1];
      assert last in files;
      BytesOfListing(root, most);
      var rs := RecordsFor(RecordsOf(root), files);
      assert rs[..|files| - 1] == RecordsFor(RecordsOf(root), most);
      assert rs[|files| - 1].record == RecordOf(Lookup(root, last).value);
    }
  }
}
