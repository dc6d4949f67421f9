/**
 The recursive scan as it runs: counters and lists that every level of the recursion
 adds to, over a tree that does not change meanwhile.
 */
module OwnershipScan {
  import opened Bytes
  import opened KeySorting
  import opened Options
  import Orders
  import opened OwnershipListing
  import opened OwnershipSums
  import opened OwnershipToken
  import opened OwnershipTree
  import opened Paths
  import opened Permutations
  import opened Sorting

  // ---- costs

  datatype Budget = Budget(entries: int, byteCount: int, metadata: int)

  function Plus(a: Budget, b: Budget): Budget {
    Budget(a.entries + b.entries, a.byteCount + b.byteCount, a.metadata + b.metadata)
  }

  predicate Affordable(b: Budget) {
    b.entries <= MAX_ENTRIES && b.byteCount <= MAX_BYTES && b.metadata <= MAX_METADATA_BYTES
  }

  predicate NotNegative(b: Budget) {
    b.entries >= 0 && b.byteCount >= 0 && b.metadata >= 0
  }

  ghost function FileBytes(root: Node): Path -> int {
    q => if Lookup(root, q).Some? && Lookup(root, q).value.File? then Size(Lookup(root, q).value.id) else 0
  }

  /** What the names of a directory cost when they are read. */
  function OwnCost(names: seq<Name>, parts: Path): Budget {
    Budget(|names|, 0, Sum(PathCharge, ChildPaths(names, parts)))
  }

  /** What some names cost once they have been read. */
  ghost function RestCost(root: Node, node: Node, names: seq<Name>, parts: Path): Budget
    requires OwnershipListing.Within(node, names)
  {
    Budget(|Inner(node, names, parts)|, Sum(FileBytes(root), Listed(node, names, parts)),
           Sum(PathCharge, Inner(node, names, parts)))
  }

  ghost function EntryCost(root: Node, kid: Node, path: Path): Budget {
    Budget(|ListedBelow(kid, path)|, Sum(FileBytes(root), ListedEntry(kid, path)), Sum(PathCharge, ListedBelow(kid, path)))
  }

  ghost function ListCost(root: Node, paths: seq<Path>): Budget {
    Budget(|paths|, Sum(FileBytes(root), paths), Sum(PathCharge, paths))
  }

  lemma {:induction false} ListCostIsNotNegative(root: Node, paths: seq<Path>)
    ensures NotNegative(ListCost(root, paths))
  {
    SumNotNegative(FileBytes(root), paths);
    SumNotNegative(PathCharge, paths);
  }

  lemma {:induction false} CostsAreNotNegative(root: Node, node: Node, names: seq<Name>, parts: Path, kid: Node, path: Path)
    requires OwnershipListing.Within(node, names)
    ensures NotNegative(RestCost(root, node, names, parts)) && NotNegative(EntryCost(root, kid, path))
    ensures NotNegative(OwnCost(names, parts))
  {
    ListCostIsNotNegative(root, Inner(node, names, parts));
    ListCostIsNotNegative(root, Listed(node, names, parts));
    ListCostIsNotNegative(root, ListedBelow(kid, path));
    ListCostIsNotNegative(root, ListedEntry(kid, path));
    ListCostIsNotNegative(root, ChildPaths(names, parts));
  }

  lemma {:induction false} CostsSplit(n: nat, m: nat, own: int, inner: int, bytes: int)
    ensures Plus(Budget(n, 0, own), Budget(m, bytes, inner)) == Budget(n + m, bytes, own + inner)
  {
  }

  /** A directory costs its names, and then what is left. */
  lemma {:induction false} DirectoryCost(root: Node, node: Node, names: seq<Name>, parts: Path)
    requires OwnershipListing.Within(node, names)
    ensures Plus(OwnCost(names, parts), RestCost(root, node, names, parts)) == ListCost(root, Listed(node, names, parts))
  {
    ListedSplits(node, names, parts, PathCharge);
    CostsSplit(|names|, |Inner(node, names, parts)|, Sum(PathCharge, ChildPaths(names, parts)),
               Sum(PathCharge, Inner(node, names, parts)), Sum(FileBytes(root), Listed(node, names, parts)));
  }

  lemma {:induction false} CostsAppend(f: Path -> int, below: seq<Path>, inner: seq<Path>, entry: seq<Path>, listed: seq<Path>)
    ensures Budget(|below + inner|, Sum(f, entry + listed), Sum(PathCharge, below + inner))
            == Plus(Budget(|below|, Sum(f, entry), Sum(PathCharge, below)), Budget(|inner|, Sum(f, listed), Sum(PathCharge, inner)))
  {
    SumAppends(f, entry, listed);
    SumAppends(PathCharge, below, inner);
  }

  lemma {:induction false} Heads(node: Node, names: seq<Name>, parts: Path)
    requires OwnershipListing.Within(node, names) && names != []
    ensures Listed(node, names, parts) == ListedEntry(node.kids[names[0]], parts + [names[0]]) + Listed(node, names[1..], parts)
    ensures Inner(node, names, parts) == ListedBelow(node.kids[names[0]], parts + [names[0]]) + Inner(node, names[1..], parts)
  {
  }

  /** The cost of some names, one entry at a time. */
  lemma {:induction false} RestCostStep(root: Node, node: Node, names: seq<Name>, parts: Path)
    requires OwnershipListing.Within(node, names) && names != []
    ensures RestCost(root, node, names, parts)
            == Plus(EntryCost(root, node.kids[names[0]], parts + [names[0]]), RestCost(root, node, names[1..], parts))
  {
    var kid, path, rest := node.kids[names[0]], parts + [names[0]], names[1..];
    Heads(node, names, parts);
    CostsAppend(FileBytes(root), ListedBelow(kid, path), Inner(node, rest, parts), ListedEntry(kid, path), Listed(node, rest, parts));
  }

  lemma {:induction false} PlusRegroups(a: Budget, b: Budget, c: Budget)
    ensures Plus(Plus(a, b), c) == Plus(a, Plus(b, c))
  {
  }

  // ---- limits of one entry

  predicate PathFits(p: Path) {
    p != [] && |p| <= MAX_DEPTH && |p[|p| - 1]| <= MAX_COMPONENT_BYTES && |Rel(p)| <= MAX_PATH_BYTES
  }

  predicate DeviceFits(root: Node, p: Path) {
    Lookup(root, p).Some? ==> Lookup(root, p).value.id.device == root.id.device
  }

  ghost predicate PathsFit(paths: seq<Path>) {
    forall p :: p in paths ==> PathFits(p)
  }

  ghost predicate DevicesFit(root: Node, paths: seq<Path>) {
    forall p :: p in paths ==> DeviceFits(root, p)
  }

  lemma {:induction false} FitsRegroup(below: seq<Path>, path: Path, rest: seq<Path>, own: seq<Path>, inner: seq<Path>)
    requires PathsFit(rest) <==> PathsFit(own) && PathsFit(inner)
    ensures PathsFit((below + [path]) + rest) <==> PathsFit([path] + own) && PathsFit(below + inner)
  {
    FitsAppend(below + [path], rest);
    FitsAppend(below, [path]);
    FitsAppend(below, inner);
    FitsAppend([path], own);
  }

  lemma {:induction false} OwnHead(names: seq<Name>, parts: Path)
    requires names != []
    ensures ChildPaths(names, parts) == [parts + [names[0]]] + ChildPaths(names[1..], parts)
  {
  }

  /** What is reported for some names is the names themselves and what is below them. */
  lemma {:induction false} ListedIsOwnAndInner(node: Node, names: seq<Name>, parts: Path)
    requires OwnershipListing.Within(node, names)
    ensures PathsFit(Listed(node, names, parts)) <==>
            PathsFit(ChildPaths(names, parts)) && PathsFit(Inner(node, names, parts))
  {
    if names != [] {
      var kid, path, rest := node.kids[names[0]], parts + [names[0]], names[1..];
      ListedIsOwnAndInner(node, rest, parts);
      Heads(node, names, parts);
      OwnHead(names, parts);
      EntryIsBelowAndItself(kid, path);
      FitsRegroup(ListedBelow(kid, path), path, Listed(node, rest, parts), ChildPaths(rest, parts), Inner(node, rest, parts));
    }
  }

  lemma {:induction false} FitsAppend(a: seq<Path>, b: seq<Path>)
    ensures PathsFit(a + b) <==> PathsFit(a) && PathsFit(b)
  {
    assert forall p :: p in a + b <==> p in a || p in b;
  }

  lemma {:induction false} DevicesAppend(root: Node, a: seq<Path>, b: seq<Path>)
    ensures DevicesFit(root, a + b) <==> DevicesFit(root, a) && DevicesFit(root, b)
  {
    assert forall p :: p in a + b <==> p in a || p in b;
  }

  // ---- the lists

  function EntryOf(root: Node, p: Path): Entry {
    match Lookup(root, p)
    case Some(m) => Entry(m.Kind(), m.id)
    case None => Entry(Regular, root.id)
  }

  function Items(root: Node, paths: seq<Path>): seq<Item> {
    seq(|paths|, i requires 0 <= i < |paths| => Item(paths[i], EntryOf(root, paths[i]).kind))
  }

  function Identities(root: Node, paths: seq<Path>): seq<Named> {
    seq(|paths|, i requires 0 <= i < |paths| => Named(paths[i], EntryOf(root, paths[i]).kind, EntryOf(root, paths[i]).id))
  }

  predicate IsFile(root: Node, p: Path) {
    Lookup(root, p).Some? && Lookup(root, p).value.File?
  }

  function FileList(root: Node, paths: seq<Path>): seq<FileRecord> {
    if paths == [] then []
    else (if IsFile(root, paths[0]) then [FileRecord(paths[0], RecordOf(Lookup(root, paths[0]).value))] else [])
         + FileList(root, paths[1..])
  }

  lemma {:induction false} FileListAppends(root: Node, a: seq<Path>, b: seq<Path>)
    ensures FileList(root, a + b) == FileList(root, a) + FileList(root, b)
  {
    if a == [] {
      assert a + b == b;
    } else {
      assert (a + b)[1..] == a[1..] + b;
      FileListAppends(root, a[1..], b);
    }
  }

  /** A scan in progress. */
  datatype Report = Report(budget: Budget, inventory: seq<Item>, records: seq<FileRecord>, identities: seq<Named>)

  /** The report after some more paths, of which the cost is known. */
  function More(root: Node, r: Report, paths: seq<Path>, cost: Budget): Report {
    Report(Plus(r.budget, cost), r.inventory + Items(root, paths),
           r.records + FileList(root, paths), r.identities + Identities(root, paths))
  }

  lemma {:induction false} ListsAppend(root: Node, a: seq<Path>, b: seq<Path>)
    ensures Items(root, a + b) == Items(root, a) + Items(root, b)
    ensures Identities(root, a + b) == Identities(root, a) + Identities(root, b)
  {
  }

  lemma {:induction false} Associates<T>(a: seq<T>, b: seq<T>, c: seq<T>)
    ensures (a + b) + c == a + (b + c)
  {
  }

  lemma {:induction false} MoreTwice(root: Node, r: Report, a: seq<Path>, x: Budget, b: seq<Path>, y: Budget)
    ensures More(root, More(root, r, a, x), b, y) == More(root, r, a + b, Plus(x, y))
  {
    FileListAppends(root, a, b);
    ListsAppend(root, a, b);
    Associates(r.inventory, Items(root, a), Items(root, b));
    Associates(r.identities, Identities(root, a), Identities(root, b));
    Associates(r.records, FileList(root, a), FileList(root, b));
  }

  // ---- the names of a directory

  function NameKey(n: Name): Bytes {
    n
  }

  ghost predicate EachOnce<T(!new)>(s: seq<T>) {
    forall x :: multiset(s)[x] <= 1
  }

  lemma {:induction false} EachOnceOf(names: seq<Name>)
    requires NamesDiffer(names)
    ensures EachOnce(names)
  {
    DistinctKeysOnce(NameKey, names);
  }

  lemma {:induction false} ChildrenOnce(names: seq<Name>, parts: Path)
    requires EachOnce(names)
    ensures EachOnce(ChildPaths(names, parts))
    ensures forall p :: p in ChildPaths(names, parts) <==> exists n :: n in names && p == parts + [n]
  {
    var paths := ChildPaths(names, parts);
    forall x ensures multiset(paths)[x] <= 1 {
      if multiset(paths)[x] > 1 {
        Occurs(paths, x);
        var i, j :| 0 <= i < j < |paths| && paths[i] == x && paths[j] == x;
        assert (parts + [names[i]])[|parts|] == (parts + [names[j]])[|parts|];
        Twice(names, i, j);
      }
    }
    forall p ensures p in paths <==> exists n :: n in names && p == parts + [n] {
      if n :| n in names && p == parts + [n] {
        var i :| 0 <= i < |names| && names[i] == n;
        assert paths[i] == p;
      }
    }
  }

  function One(p: Path): int {
    1
  }

  lemma {:induction false} SumOfOnes(s: seq<Path>)
    ensures Sum(One, s) == |s|
  {
    if s != [] {
      SumOfOnes(s[..|s| - 1]);
    }
  }

  /** Names read so far cost no more than all of them, and fit if all of them do. */
  lemma {:induction false} SomeNames(some: seq<Name>, all: seq<Name>, parts: Path)
    requires EachOnce(some) && EachOnce(all) && forall n :: n in some ==> n in all
    ensures OwnCost(some, parts).entries <= OwnCost(all, parts).entries
    ensures OwnCost(some, parts).metadata <= OwnCost(all, parts).metadata
    ensures PathsFit(ChildPaths(all, parts)) ==> PathsFit(ChildPaths(some, parts))
  {
    var a, b := ChildPaths(some, parts), ChildPaths(all, parts);
    ChildrenOnce(some, parts);
    ChildrenOnce(all, parts);
    SumOfSome(PathCharge, a, b);
    SumOfSome(One, a, b);
    SumOfOnes(a);
    SumOfOnes(b);
  }

  /** All names, in whatever order they were read, sort to the names of the directory. */
  lemma {:induction false} NamesSort(node: Node, found: seq<Name>)
    requires node.Dir? && EachOnce(found) && forall n :: n in found <==> n in node.kids
    ensures StableSort(ByKey(NameKey), found) == NamesOf(node) && EachOnce(NamesOf(node))
  {
    var sorted, names := StableSort(ByKey(NameKey), found), NamesOf(node);
    ByKeyIsPreorder(NameKey);
    StableSortIsStable(ByKey(NameKey), found);
    Members(found, sorted);
    SortedStrictly(NameKey, sorted);
    forall i, j | 0 <= i < j < |sorted| ensures Less(sorted[i], sorted[j]) {
      assert StrictlyByKey(NameKey)(sorted[i], sorted[j]);
    }
    LessOrders(node.kids.Keys);
    Orders.SortedIsUnique(Less, sorted, names, node.kids.Keys);
  }

  lemma {:induction false} OneMoreName(found: seq<Name>, n: Name, parts: Path)
    requires EachOnce(found) && n !in found
    ensures EachOnce(found + [n])
    ensures ChildPaths(found + [n], parts) == ChildPaths(found, parts) + [parts + [n]]
    ensures OwnCost(found + [n], parts) == Plus(OwnCost(found, parts), Budget(1, 0, PathCharge(parts + [n])))
  {
    assert ChildPaths(found + [n], parts) == ChildPaths(found, parts) + [parts + [n]];
    SumAppends(PathCharge, ChildPaths(found, parts), [parts + [n]]);
    assert n !in multiset(found);
  }

  // ---- verdicts

  /** A tree as the file system shows it: metadata is well formed, names are names. */
  ghost predicate Observed(root: Node) {
    && root.Dir? && ValidIdentity(Directory, root.id, None)
    && forall p :: p in PathsOf(root) ==>
         ValidIdentity(EntryAt(root, p).kind, EntryAt(root, p).id, None) && IsName(p[|p| - 1])
  }

  predicate IsName(n: Name) {
    n != [] && n != "." && n != ".." && forall i :: 0 <= i < |n| ==> n[i] != '/' && n[i] != '\0'
  }

  ghost predicate NamesPass(root: Node, node: Node, names: seq<Name>, parts: Path, spent: Budget)
    requires OwnershipListing.Within(node, names)
  {
    && DevicesFit(root, Listed(node, names, parts)) && PathsFit(Inner(node, names, parts))
    && Affordable(Plus(spent, RestCost(root, node, names, parts)))
  }

  ghost predicate EntryPasses(root: Node, kid: Node, path: Path, spent: Budget) {
    && DevicesFit(root, ListedEntry(kid, path)) && PathsFit(ListedBelow(kid, path))
    && Affordable(Plus(spent, EntryCost(root, kid, path)))
  }

  ghost predicate DirectoryPasses(root: Node, node: Node, parts: Path, spent: Budget)
    requires node.Dir?
  {
    var paths := Listed(node, NamesOf(node), parts);
    DevicesFit(root, paths) && PathsFit(paths) && Affordable(Plus(spent, ListCost(root, paths)))
  }

  lemma {:induction false} NamesPassStep(root: Node, node: Node, names: seq<Name>, parts: Path, spent: Budget)
    requires OwnershipListing.Within(node, names) && names != []
    ensures var kid, path := node.kids[names[0]], parts + [names[0]];
            NamesPass(root, node, names, parts, spent) <==>
            EntryPasses(root, kid, path, spent)
            && NamesPass(root, node, names[1..], parts, Plus(spent, EntryCost(root, kid, path)))
  {
    var kid, path, rest := node.kids[names[0]], parts + [names[0]], names[1..];
    Heads(node, names, parts);
    RestCostStep(root, node, names, parts);
    PlusRegroups(spent, EntryCost(root, kid, path), RestCost(root, node, rest, parts));
    DevicesAppend(root, ListedEntry(kid, path), Listed(node, rest, parts));
    FitsAppend(ListedBelow(kid, path), Inner(node, rest, parts));
    CostsAreNotNegative(root, node, rest, parts, kid, path);
  }

  lemma {:induction false} DirectoryPassSplits(root: Node, node: Node, parts: Path, spent: Budget)
    requires node.Dir?
    ensures var names := NamesOf(node);
            DirectoryPasses(root, node, parts, spent) <==>
            && PathsFit(ChildPaths(names, parts)) && Affordable(Plus(spent, OwnCost(names, parts)))
            && NamesPass(root, node, names, parts, Plus(spent, OwnCost(names, parts)))
  {
    var names := NamesOf(node);
    DirectoryCost(root, node, names, parts);
    PlusRegroups(spent, OwnCost(names, parts), RestCost(root, node, names, parts));
    ListedIsOwnAndInner(node, names, parts);
    CostsAreNotNegative(root, node, names, parts, node, parts);
  }

  /** An entry is itself, and for a directory everything in it. */
  lemma {:induction false} EntryPassSplits(root: Node, kid: Node, path: Path, spent: Budget)
    requires Lookup(root, path) == Some(kid)
    ensures kid.Dir? ==> (EntryPasses(root, kid, path, spent) <==>
              DeviceFits(root, path) && DirectoryPasses(root, kid, path, spent))
    ensures kid.File? ==> (EntryPasses(root, kid, path, spent) <==>
              DeviceFits(root, path) && Affordable(Plus(spent, Budget(0, Size(kid.id), 0))))
    ensures EntryCost(root, kid, path) == if kid.Dir? then ListCost(root, Listed(kid, NamesOf(kid), path))
                                          else Budget(0, Size(kid.id), 0)
  {
    var below := ListedBelow(kid, path);
    DevicesAppend(root, below, [path]);
    SumAppends(FileBytes(root), below, [path]);
    assert Sum(FileBytes(root), [path]) == FileBytes(root)(path);
    assert DevicesFit(root, [path]) <==> DeviceFits(root, path);
    if kid.File? {
      assert below == [] && below + [path] == [path];
    }
  }

  lemma {:induction false} DigestStep(h: Hash, node: Node, names: seq<Name>, parts: Path, i: nat, fed: Bytes, d: Digest)
    requires OwnershipListing.Within(node, names) && i < |names|
    requires d == EntryDigest(h, node.kids[names[i]], parts + [names[i]])
    ensures fed + EntryDigests(h, node, names[i..], parts) == (fed + d) + EntryDigests(h, node, names[i + 1..], parts)
  {
    assert names[i..][1..] == names[i + 1..];
    Associates(fed, d, EntryDigests(h, node, names[i + 1..], parts));
  }

  /** The report still to come for the names that are left. */
  ghost function Rest(root: Node, r: Report, node: Node, names: seq<Name>, parts: Path): Report
    requires OwnershipListing.Within(node, names)
  {
    More(root, r, Listed(node, names, parts), RestCost(root, node, names, parts))
  }

  lemma {:induction false} RestStep(root: Node, r: Report, node: Node, names: seq<Name>, parts: Path)
    requires OwnershipListing.Within(node, names) && names != []
    ensures var kid, path := node.kids[names[0]], parts + [names[0]];
            Rest(root, More(root, r, ListedEntry(kid, path), EntryCost(root, kid, path)), node, names[1..], parts)
            == Rest(root, r, node, names, parts)
  {
    var kid, path, rest := node.kids[names[0]], parts + [names[0]], names[1..];
    Heads(node, names, parts);
    RestCostStep(root, node, names, parts);
    MoreTwice(root, r, ListedEntry(kid, path), EntryCost(root, kid, path), Listed(node, rest, parts), RestCost(root, node, rest, parts));
  }

  lemma {:induction false} NothingMore(root: Node, r: Report, node: Node, parts: Path)
    requires node.Dir?
    ensures Rest(root, r, node, [], parts) == r
  {
    assert RestCost(root, node, [], parts) == Budget(0, 0, 0);
  }

  lemma {:induction false} ChildLookup(root: Node, node: Node, parts: Path, n: Name)
    requires Lookup(root, parts) == Some(node) && node.Dir? && n in node.kids
    ensures Lookup(root, parts + [n]) == Some(node.kids[n])
    ensures parts + [n] in PathsOf(root)
  {
    LookupAppends(root, parts, [n]);
    assert Lookup(node, [n]) == Lookup(node.kids[n], []);
    PathsAreLookups(root, parts + [n]);
  }

  lemma {:induction false} NothingLeft(root: Node, node: Node, parts: Path, spent: Budget)
    requires node.Dir? && Affordable(spent)
    ensures NamesPass(root, node, [], parts, spent)
  {
    assert RestCost(root, node, [], parts) == Budget(0, 0, 0);
  }

  /** A directory's report: its names were charged first, and then the rest. */
  lemma {:induction false} DirectoryReport(root: Node, before: Report, reserved: Report, node: Node, names: seq<Name>, parts: Path)
    requires OwnershipListing.Within(node, names)
    requires reserved == before.(budget := Plus(before.budget, OwnCost(names, parts)))
    ensures Rest(root, reserved, node, names, parts)
            == More(root, before, Listed(node, names, parts), ListCost(root, Listed(node, names, parts)))
  {
    DirectoryCost(root, node, names, parts);
    PlusRegroups(before.budget, OwnCost(names, parts), RestCost(root, node, names, parts));
  }

  lemma {:induction false} MoreNothing(root: Node, r: Report, cost: Budget)
    ensures More(root, r, [], cost) == r.(budget := Plus(r.budget, cost))
  {
  }

  lemma {:induction false} MoreItself(root: Node, before: Report, mid: Report, below: seq<Path>, cost: Budget, path: Path)
    requires mid == More(root, before, below, cost)
    ensures More(root, mid, [path], Budget(0, 0, 0)) == More(root, before, below + [path], cost)
  {
    MoreTwice(root, before, below, cost, [path], Budget(0, 0, 0));
    assert Plus(cost, Budget(0, 0, 0)) == cost;
  }

  lemma {:induction false} EntryIsBelowAndItself(kid: Node, path: Path)
    ensures ListedEntry(kid, path) == ListedBelow(kid, path) + [path]
    ensures ListedBelow(kid, path) == if kid.Dir? then Listed(kid, NamesOf(kid), path) else []
  {
  }

  /** An entry's report: what is below it, and then itself. */
  lemma {:induction false} EntryReport(root: Node, before: Report, mid: Report, kid: Node, path: Path)
    requires Lookup(root, path) == Some(kid)
    requires kid.Dir? ==> mid == More(root, before, Listed(kid, NamesOf(kid), path), ListCost(root, Listed(kid, NamesOf(kid), path)))
    requires kid.File? ==> mid == before.(budget := Plus(before.budget, Budget(0, Size(kid.id), 0)))
    ensures More(root, mid, [path], Budget(0, 0, 0)) == More(root, before, ListedEntry(kid, path), EntryCost(root, kid, path))
  {
    var cost, below := EntryCost(root, kid, path), ListedBelow(kid, path);
    EntryPassSplits(root, kid, path, before.budget);
    EntryIsBelowAndItself(kid, path);
    MoreNothing(root, before, cost);
    MoreItself(root, before, mid, below, cost, path);
  }

  class Scanner {
    var entries: int
    var byteCount: int
    var metadata: int
    var inventory: seq<Item>
    var records: seq<FileRecord>
    var identities: seq<Named>

    constructor ()
      ensures View() == Report(Budget(0, 0, 0), [], [], [])
    {
      entries, byteCount, metadata := 0, 0, 0;
      inventory, records, identities := [], [], [];
    }

    function Spent(): Budget
      reads this
    {
      Budget(entries, byteCount, metadata)
    }

    function View(): Report
      reads this
    {
      Report(Spent(), inventory, records, identities)
    }

    /** `_reserve_ownership_record`, and the limits of the name and the path before it. */
    method Reserve(path: Path) returns (ok: bool)
      requires Affordable(Spent()) && path != []
      modifies this`entries, this`metadata
      ensures Spent() == Plus(old(Spent()), Budget(1, 0, PathCharge(path)))
      ensures ok <==> PathFits(path) && Affordable(Spent())
    {
      entries := entries + 1;
      metadata := metadata + PathCharge(path);
      ok := PathFits(path) && entries <= MAX_ENTRIES && metadata <= MAX_METADATA_BYTES;
    }

    /** The directory is read in whatever order it gives its names; then they are sorted. */
    method ReserveNames(node: Node, parts: Path) returns (ok: bool, names: seq<Name>)
      requires node.Dir? && Affordable(Spent())
      modifies this`entries, this`metadata
      ensures ok <==> && PathsFit(ChildPaths(NamesOf(node), parts))
                      && Affordable(Plus(old(Spent()), OwnCost(NamesOf(node), parts)))
      ensures ok ==> names == NamesOf(node) && Spent() == Plus(old(Spent()), OwnCost(names, parts))
    {
      ghost var all := NamesOf(node);
      var unread, found := node.kids.Keys, [];
      assert ChildPaths(found, parts) == [];
      SortedNamesDiffer(all);
      EachOnceOf(all);
      while unread != {}
        invariant unread <= node.kids.Keys && (forall n :: n in found <==> n in node.kids && n !in unread)
        invariant EachOnce(found) && PathsFit(ChildPaths(found, parts)) && Affordable(Spent())
        invariant Spent() == Plus(old(Spent()), OwnCost(found, parts))
        decreases |unread|
      {
        var n :| n in unread;
        OneMoreName(found, n, parts);
        ok := Reserve(parts + [n]);
        SomeNames(found + [n], all, parts);
        FitsAppend(ChildPaths(found, parts), [parts + [n]]);
        if !ok {
          assert PathsFit([parts + [n]]) <==> PathFits(parts + [n]);
          return false, [];
        }
        unread, found := unread - {n}, found + [n];
      }
      NamesSort(node, found);
      SomeNames(found, all, parts);
      SomeNames(all, found, parts);
      ByKeyIsPreorder(NameKey);
      var cancelled;
      cancelled, names := InterruptibleSort(ByKey(NameKey), found, null);
      ok := true;
    }

    /** What is added to the lists for one entry, after everything below it. */
    method Add(path: Path, kid: Node, ghost root: Node)
      requires Lookup(root, path) == Some(kid)
      modifies this`inventory, this`records, this`identities
      ensures View() == More(root, old(View()), [path], Budget(0, 0, 0))
    {
      inventory := inventory + [Item(path, kid.Kind())];
      identities := identities + [Named(path, kid.Kind(), kid.id)];
      if kid.File? {
        records := records + [FileRecord(path, RecordOf(kid))];
      }
      assert FileList(root, [path]) == if IsFile(root, path) then [FileRecord(path, RecordOf(kid))] else [];
    }

    /** One entry of a directory: refused on another device, or hashed and reported. */
    method ScanEntry(h: Hash, ghost root: Node, device: int, kid: Node, path: Path) returns (ok: bool, digest: Digest)
      requires Observed(root) && root.id.device == device && Lookup(root, path) == Some(kid) && path in PathsOf(root)
      requires Affordable(Spent())
      modifies this
      ensures ok <==> EntryPasses(root, kid, path, old(Spent()))
      ensures ok ==> digest == EntryDigest(h, kid, path) && Affordable(Spent())
                     && View() == More(root, old(View()), ListedEntry(kid, path), EntryCost(root, kid, path))
      decreases kid, 3
    {
      digest := h([]);
      ghost var before := View();
      EntryPassSplits(root, kid, path, Spent());
      ok := kid.id.device == device;
      if ok {
        if kid.Dir? {
          var inner;
          ok, inner := ScanDirectory(h, root, device, kid, path);
          digest := h(DirectoryEntryMessage(Rel(path), kid.id.mode, inner));
        } else {
          ok := ReadFile(kid);
          digest := h(FileEntryMessage(Rel(path), Permissions(kid.id.mode), Size(kid.id), kid.sha));
        }
        if ok {
          EntryReport(root, before, View(), kid, path);
          Add(path, kid, root);
        }
      }
    }

    /** The size of a file is charged before its bytes are read. */
    method ReadFile(kid: Node) returns (ok: bool)
      requires kid.File? && Affordable(Spent())
      modifies this`byteCount
      ensures ok <==> Affordable(Plus(old(Spent()), Budget(0, Size(kid.id), 0)))
      ensures ok ==> Spent() == Plus(old(Spent()), Budget(0, Size(kid.id), 0))
    {
      ok := byteCount + Size(kid.id) <= MAX_BYTES;
      if ok {
        byteCount := byteCount + Size(kid.id);
      }
    }

    /** The entries of a directory, in order. */
    method ScanNames(h: Hash, ghost root: Node, device: int, node: Node, names: seq<Name>, parts: Path)
      returns (ok: bool, fed: Bytes)
      requires Observed(root) && root.id.device == device && Lookup(root, parts) == Some(node)
      requires OwnershipListing.Within(node, names) && Affordable(Spent())
      modifies this
      ensures ok <==> NamesPass(root, node, names, parts, old(Spent()))
      ensures ok ==> fed == EntryDigests(h, node, names, parts) && Affordable(Spent())
                     && View() == Rest(root, old(View()), node, names, parts)
      decreases node, 1
    {
      ok, fed := true, [];
      var i := 0;
      ghost var all := EntryDigests(h, node, names, parts);
      assert names[0..] == names && fed + all == all;
      while i < |names|
        invariant 0 <= i <= |names| && Affordable(Spent())
        invariant fed + EntryDigests(h, node, names[i..], parts) == all
        invariant NamesPass(root, node, names, parts, old(Spent())) <==> NamesPass(root, node, names[i..], parts, Spent())
        invariant Rest(root, View(), node, names[i..], parts) == Rest(root, old(View()), node, names, parts)
      {
        ghost var left := names[i..];
        assert left[1..] == names[i + 1..];
        NamesPassStep(root, node, left, parts, Spent());
        RestStep(root, View(), node, left, parts);
        ChildLookup(root, node, parts, names[i]);
        var d;
        ok, d := ScanEntry(h, root, device, node.kids[names[i]], parts + [names[i]]);
        if !ok {
          return;
        }
        DigestStep(h, node, names, parts, i, fed, d);
        fed := fed + d;
        i := i + 1;
      }
      assert fed + [] == fed;
      NothingMore(root, View(), node, parts);
      NothingLeft(root, node, parts, Spent());
    }

    /** `_scan_owned_directory`. */
    method ScanDirectory(h: Hash, ghost root: Node, device: int, node: Node, parts: Path) returns (ok: bool, digest: Digest)
      requires Observed(root) && root.id.device == device && Lookup(root, parts) == Some(node) && node.Dir?
      requires Affordable(Spent())
      modifies this
      ensures ok <==> DirectoryPasses(root, node, parts, old(Spent()))
      ensures ok ==> digest == TreeDigest(h, node, parts) && Affordable(Spent())
                     && View() == More(root, old(View()), Listed(node, NamesOf(node), parts),
                                       ListCost(root, Listed(node, NamesOf(node), parts)))
      decreases node, 2
    {
      digest := h([]);
      ghost var before := View();
      DirectoryPassSplits(root, node, parts, Spent());
      var names;
      ok, names := ReserveNames(node, parts);
      if ok {
        ghost var reserved := View();
        var fed;
        ok, fed := ScanNames(h, root, device, node, names, parts);
        if ok {
          DirectoryReport(root, before, reserved, node, names, parts);
          digest := h(DirectoryMessage(node.id.mode, fed));
        }
      }
    }
  }
}
