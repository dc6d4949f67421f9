/** The order in which the recursive scan reports a tree: every directory after what is in it. */
module OwnershipListing {
  import opened Bytes
  import opened Orders
  import opened OwnershipTree
  import opened Paths
  import opened Permutations

  ghost predicate Within(node: Node, names: seq<Name>) {
    node.Dir? && forall n :: n in names ==> n in node.kids
  }

  /** The paths reported for some names of the directory at `parts`. */
  ghost function Listed(node: Node, names: seq<Name>, parts: Path): seq<Path>
    requires Within(node, names)
    decreases node, 1, |names|
  {
    if names == [] then []
    else ListedEntry(node.kids[names[0]], parts + [names[0]]) + Listed(node, names[1..], parts)
  }

  ghost function ListedEntry(kid: Node, path: Path): seq<Path>
    decreases kid, 3, 0
  {
    ListedBelow(kid, path) + [path]
  }

  ghost function ListedBelow(kid: Node, path: Path): seq<Path>
    decreases kid, 2, 0
  {
    if kid.Dir? then Listed(kid, NamesOf(kid), path) else []
  }

  /** The paths of some names themselves. */
  function ChildPaths(names: seq<Name>, parts: Path): seq<Path> {
    seq(|names|, i requires 0 <= i < |names| => parts + [names[i]])
  }

  /** What is reported below some names. */
  ghost function Inner(node: Node, names: seq<Name>, parts: Path): seq<Path>
    requires Within(node, names)
  {
    if names == [] then []
    else ListedBelow(node.kids[names[0]], parts + [names[0]]) + Inner(node, names[1..], parts)
  }

  // ---- what is listed

  lemma {:induction false} EntryLists(kid: Node, path: Path, p: Path)
    ensures p in ListedEntry(kid, path) <==> path <= p && Lookup(kid, p[|path|..]).Some?
    ensures p in ListedBelow(kid, path) <==> path < p && Lookup(kid, p[|path|..]).Some?
    decreases kid, 2, 0
  {
    if kid.Dir? {
      Lists(kid, NamesOf(kid), path, p);
      if path < p {
        assert p[|path|..][0] == p[|path|];
      }
    }
    if path <= p && |p| == |path| {
      assert p == path && p[|path|..] == [];
    }
  }

  /** A path is listed when it leads through one of the names to something in the tree. */
  lemma {:induction false} Lists(node: Node, names: seq<Name>, parts: Path, p: Path)
    requires Within(node, names)
    ensures p in Listed(node, names, parts) <==> parts < p && p[|parts|] in names && Lookup(node, p[|parts|..]).Some?
    decreases node, 1, |names|
  {
    if names != [] {
      var n, child := names[0], parts + [names[0]];
      Lists(node, names[1..], parts, p);
      EntryLists(node.kids[n], child, p);
      assert names == [n] + names[1..];
      if parts < p && p[|parts|] == n {
        assert p[..|parts| + 1] == child;
        assert p[|parts|..][1..] == p[|child|..];
      }
    }
  }

  /** The scan of a whole tree reports just its paths. */
  lemma {:induction false} ListsTheTree(root: Node, p: Path)
    requires root.Dir?
    ensures p in Listed(root, NamesOf(root), []) <==> p in PathsOf(root)
  {
    Lists(root, NamesOf(root), [], p);
    PathsAreLookups(root, p);
    assert p[0..] == p;
  }

  ghost predicate NamesDiffer(names: seq<Name>) {
    forall i, j :: 0 <= i < j < |names| ==> names[i] != names[j]
  }

  lemma {:induction false} SortedNamesDiffer(names: seq<Name>)
    requires SortedBy(Less, names)
    ensures NamesDiffer(names)
  {
    forall i, j | 0 <= i < j < |names| ensures names[i] != names[j] {
      LessIsTotal(names[i], names[j]);
    }
  }

  lemma {:induction false} EntryOnce(kid: Node, path: Path, p: Path)
    ensures multiset(ListedEntry(kid, path))[p] <= 1
    decreases kid, 2, 0
  {
    EntryLists(kid, path, p);
    if kid.Dir? {
      SortedNamesDiffer(NamesOf(kid));
      Once(kid, NamesOf(kid), path, p);
    }
    assert p in multiset(ListedBelow(kid, path)) <==> p in ListedBelow(kid, path);
  }

  /** Nothing is reported twice. */
  lemma {:induction false} Once(node: Node, names: seq<Name>, parts: Path, p: Path)
    requires Within(node, names) && NamesDiffer(names)
    ensures multiset(Listed(node, names, parts))[p] <= 1
    decreases node, 1, |names|
  {
    if names != [] {
      var n, child := names[0], parts + [names[0]];
      var first, rest := ListedEntry(node.kids[n], child), Listed(node, names[1..], parts);
      Once(node, names[1..], parts, p);
      EntryOnce(node.kids[n], child, p);
      EntryLists(node.kids[n], child, p);
      Lists(node, names[1..], parts, p);
      assert p in first <==> multiset(first)[p] > 0;
      assert p in rest <==> multiset(rest)[p] > 0;
      assert p in first ==> p[|parts|] == n;
      assert forall m :: m in names[1..] ==> m != n;
    }
  }

  // ---- sums

  lemma {:induction false} SumSplits(f: Path -> int, below: seq<Path>, child: Path, rest: seq<Path>, own: seq<Path>, inner: seq<Path>)
    requires Sum(f, rest) == Sum(f, own) + Sum(f, inner)
    ensures Sum(f, (below + [child]) + rest) == Sum(f, [child] + own) + Sum(f, below + inner)
  {
    SumAppends(f, below + [child], rest);
    SumAppends(f, below, [child]);
    SumAppends(f, below, inner);
    SumAppends(f, [child], own);
  }

  /** The names of a directory are reported, and so is everything below them. */
  lemma {:induction false} ListedSplits(node: Node, names: seq<Name>, parts: Path, f: Path -> int)
    requires Within(node, names)
    ensures |Listed(node, names, parts)| == |names| + |Inner(node, names, parts)|
    ensures Sum(f, Listed(node, names, parts)) == Sum(f, ChildPaths(names, parts)) + Sum(f, Inner(node, names, parts))
  {
    if names != [] {
      var n, child := names[0], parts + [names[0]];
      var below, rest := ListedBelow(node.kids[n], child), Listed(node, names[1..], parts);
      ListedSplits(node, names[1..], parts, f);
      assert ChildPaths(names, parts) == [child] + ChildPaths(names[1..], parts);
      SumSplits(f, below, child, rest, ChildPaths(names[1..], parts), Inner(node, names[1..], parts));
    }
  }
}
