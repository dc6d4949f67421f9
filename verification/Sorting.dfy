/**
 The interruptible sorts: runs of 256 items sorted one by one, then merged in pairs,
 polling for cancellation on the way.  `le` is the order of the keys; the reverse
 variant is the same program with the order turned round.
 */
module Sorting {
  const RUN: nat := 256

  ghost predicate Preorder<T(!new)>(le: (T, T) -> bool) {
    && (forall x, y :: le(x, y) || le(y, x))
    && (forall x, y, z :: le(x, y) && le(y, z) ==> le(x, z))
  }

  ghost predicate SortedUpTo<T>(le: (T, T) -> bool, s: seq<T>) {
    forall i, j :: 0 <= i < j < |s| ==> le(s[i], s[j])
  }

  // ---- the stable sort

  /** `x` put before the items that are not smaller. */
  function Insert<T>(le: (T, T) -> bool, x: T, s: seq<T>): seq<T> {
    if s == [] || le(x, s[0]) then [x] + s else [s[0]] + Insert(le, x, s[1..])
  }

  /** The stable sort, as `sorted` gives it. */
  function StableSort<T>(le: (T, T) -> bool, s: seq<T>): seq<T> {
    if s == [] then [] else Insert(le, s[0], StableSort(le, s[1..]))
  }

  /** The items with the same key as `x`, in the order they come in. */
  ghost function Like<T>(le: (T, T) -> bool, x: T, s: seq<T>): seq<T> {
    if s == [] then []
    else (if le(x, s[0]) && le(s[0], x) then [s[0]] else []) + Like(le, x, s[1..])
  }

  lemma {:induction false} InsertPermutes<T>(le: (T, T) -> bool, x: T, s: seq<T>)
    ensures multiset(Insert(le, x, s)) == multiset([x] + s)
  {
    if s != [] && !le(x, s[0]) {
      InsertPermutes(le, x, s[1..]);
      assert s == [s[0]] + s[1..];
    }
  }

  lemma {:induction false} InsertHolds<T>(le: (T, T) -> bool, x: T, s: seq<T>, y: T)
    requires y in Insert(le, x, s)
    ensures y == x || y in s
  {
    InsertPermutes(le, x, s);
    assert y in multiset(Insert(le, x, s));
    assert y in multiset([x] + s);
  }

  lemma {:induction false} InsertKeeps<T(!new)>(le: (T, T) -> bool, x: T, s: seq<T>)
    requires Preorder(le) && SortedUpTo(le, s)
    ensures SortedUpTo(le, Insert(le, x, s))
    ensures multiset(Insert(le, x, s)) == multiset([x] + s)
  {
    InsertPermutes(le, x, s);
    if s != [] && !le(x, s[0]) {
      InsertKeeps(le, x, s[1..]);
      forall y | y in Insert(le, x, s[1..]) ensures le(s[0], y) {
        InsertHolds(le, x, s[1..], y);
      }
    }
  }

  lemma {:induction false} InsertIsStable<T(!new)>(le: (T, T) -> bool, x: T, s: seq<T>, k: T)
    requires Preorder(le) && SortedUpTo(le, s)
    ensures Like(le, k, Insert(le, x, s)) == Like(le, k, [x] + s)
  {
    if s == [] || le(x, s[0]) {
    } else {
      InsertIsStable(le, x, s[1..], k);
      assert ([x] + s)[1..] == s && ([x] + s[1..])[1..] == s[1..];
      assert ([s[0]] + Insert(le, x, s[1..]))[1..] == Insert(le, x, s[1..]);
    }
  }

  /** The stable sort is in order, permutes its input, and keeps items with equal keys in their order. */
  lemma {:induction false} StableSortIsStable<T(!new)>(le: (T, T) -> bool, s: seq<T>)
    requires Preorder(le)
    ensures SortedUpTo(le, StableSort(le, s))
    ensures multiset(StableSort(le, s)) == multiset(s)
    ensures forall k :: Like(le, k, StableSort(le, s)) == Like(le, k, s)
  {
    if s != [] {
      var rest := StableSort(le, s[1..]);
      StableSortIsStable(le, s[1..]);
      InsertKeeps(le, s[0], rest);
      assert s == [s[0]] + s[1..];
      forall k ensures Like(le, k, StableSort(le, s)) == Like(le, k, s) {
        InsertIsStable(le, s[0], rest, k);
        assert ([s[0]] + rest)[1..] == rest;
      }
    }
  }

  // ---- merging

  /** `heapq.merge` of two lists: the left one goes first unless its item is larger. */
  function Merge<T>(le: (T, T) -> bool, a: seq<T>, b: seq<T>): seq<T>
    decreases |a| + |b|
  {
    if a == [] then b
    else if b == [] then a
    else if le(a[0], b[0]) then [a[0]] + Merge(le, a[1..], b)
    else [b[0]] + Merge(le, a, b[1..])
  }

  lemma {:induction false} MergeInserted<T(!new)>(le: (T, T) -> bool, x: T, a: seq<T>, b: seq<T>)
    requires Preorder(le) && SortedUpTo(le, a) && SortedUpTo(le, b)
    ensures Merge(le, Insert(le, x, a), b) == Insert(le, x, Merge(le, a, b))
    decreases |a| + |b|
  {
    var i := Insert(le, x, a);
    if a == [] || le(x, a[0]) {
      assert i == [x] + a && i[1..] == a;
      if b != [] && !le(x, b[0]) {
        MergeInserted(le, x, a, b[1..]);
        MergeTakesRight(le, a, b);
        assert ([b[0]] + Merge(le, a, b[1..]))[1..] == Merge(le, a, b[1..]);
      } else {
        MergeHead(le, x, a, b);
      }
    } else {
      assert i == [a[0]] + Insert(le, x, a[1..]) && i[1..] == Insert(le, x, a[1..]);
      if b == [] || le(a[0], b[0]) {
        MergeInserted(le, x, a[1..], b);
        assert Merge(le, a, b) == [a[0]] + Merge(le, a[1..], b) by { if b == [] { MergeNothing(le, a[1..]); } }
        assert ([a[0]] + Merge(le, a[1..], b))[1..] == Merge(le, a[1..], b);
        if b == [] { MergeNothing(le, i[1..]); }
      } else {
        MergeInserted(le, x, a, b[1..]);
        assert ([b[0]] + Merge(le, a, b[1..]))[1..] == Merge(le, a, b[1..]);
      }
    }
  }

  lemma {:induction false} MergeNothing<T>(le: (T, T) -> bool, a: seq<T>)
    ensures Merge(le, a, []) == a
  {
  }

  /** When `x` is not larger than the head of `b`, nor of `a`, it comes first. */
  lemma {:induction false} MergeHead<T>(le: (T, T) -> bool, x: T, a: seq<T>, b: seq<T>)
    requires (a == [] || le(x, a[0])) && (b == [] || le(x, b[0]))
    ensures Merge(le, [x] + a, b) == [x] + Merge(le, a, b)
    ensures Insert(le, x, Merge(le, a, b)) == [x] + Merge(le, a, b)
  {
    assert ([x] + a)[1..] == a;
  }

  lemma {:induction false} MergeTakesRight<T>(le: (T, T) -> bool, a: seq<T>, b: seq<T>)
    requires b != [] && (a == [] || !le(a[0], b[0]))
    ensures Merge(le, a, b) == [b[0]] + Merge(le, a, b[1..])
  {
    assert b == [b[0]] + b[1..];
  }

  /** Merging two sorted runs sorts the two together. */
  lemma {:induction false} MergeOfSorted<T(!new)>(le: (T, T) -> bool, s: seq<T>, t: seq<T>)
    requires Preorder(le)
    ensures Merge(le, StableSort(le, s), StableSort(le, t)) == StableSort(le, s + t)
  {
    if s == [] {
      assert s + t == t;
    } else {
      assert (s + t)[1..] == s[1..] + t;
      MergeOfSorted(le, s[1..], t);
      StableSortIsStable(le, s[1..]);
      StableSortIsStable(le, t);
      MergeInserted(le, s[0], StableSort(le, s[1..]), StableSort(le, t));
    }
  }

  // ---- the program

  /** What the caller of a sort can see: an item handed over, or a poll. */
  datatype Event = Produced | Polled

  /** The caller's cancellation check, with a record of what happened. */
  class Poller {
    ghost var log: seq<Event>

    constructor ()
      ensures log == []
    {
      log := [];
    }

    /** Any poll may cancel. */
    method CheckCancelled() returns (cancelled: bool)
      modifies this
      ensures log == old(log) + [Polled]
    {
      log := log + [Polled];
      cancelled := *;
    }
  }

  ghost function Flattened<T>(parts: seq<seq<T>>): seq<T> {
    if parts == [] then [] else Flattened(parts[..|parts| - 1]) + parts[|parts| - 1]
  }

  /** Each run is the stable sort of its part of the input. */
  ghost predicate RunsOf<T>(le: (T, T) -> bool, runs: seq<seq<T>>, parts: seq<seq<T>>) {
    |runs| == |parts| && forall i :: 0 <= i < |runs| ==> runs[i] == StableSort(le, parts[i])
  }

  lemma {:induction false} FlattenedGrows<T>(parts: seq<seq<T>>, last: seq<T>)
    ensures Flattened(parts + [last]) == Flattened(parts) + last
  {
    assert (parts + [last])[..|parts|] == parts;
  }

  method SplitIntoRuns<T(==)>(le: (T, T) -> bool, entries: seq<T>, poller: Poller)
    returns (cancelled: bool, runs: seq<seq<T>>, ghost parts: seq<seq<T>>)
    modifies poller
    ensures old(poller.log) <= poller.log
    ensures entries == [] ==> runs == [] && !cancelled && poller.log == old(poller.log)
    ensures !cancelled ==> RunsOf(le, runs, parts) && Flattened(parts) == entries
    ensures !cancelled && entries != [] ==> runs != []
  {
    runs, parts, cancelled := [], [], false;
    var start := 0;
    while start < |entries|
      invariant 0 <= start <= |entries| && old(poller.log) <= poller.log
      invariant RunsOf(le, runs, parts) && Flattened(parts) == entries[..start]
      invariant start > 0 ==> runs != []
      invariant entries == [] ==> runs == [] && poller.log == old(poller.log)
    {
      var end := if start + RUN < |entries| then start + RUN else |entries|;
      FlattenedGrows(parts, entries[start..end]);
      assert entries[..start] + entries[start..end] == entries[..end];
      runs, parts := runs + [StableSort(le, entries[start..end])], parts + [entries[start..end]];
      if end < |entries| {
        var c := poller.CheckCancelled();
        if c { return true, runs, parts; }
      }
      start := end;
    }
    assert entries[..start] == entries;
  }

  lemma {:induction false} MergeStep<T>(le: (T, T) -> bool, a: seq<T>, b: seq<T>, i: nat, j: nat, merged: seq<T>)
    requires i <= |a| && j <= |b| && (i < |a| || j < |b|)
    ensures merged + Merge(le, a[i..], b[j..]) ==
            if j == |b| || (i < |a| && le(a[i], b[j]))
            then (merged + [a[i]]) + Merge(le, a[i + 1..], b[j..])
            else (merged + [b[j]]) + Merge(le, a[i..], b[j + 1..])
  {
    if j == |b| {
      MergeNothing(le, a[i..]);
      MergeNothing(le, a[i + 1..]);
      assert a[i..] == [a[i]] + a[i + 1..] && b[j..] == [];
    } else if i < |a| && le(a[i], b[j]) {
      assert a[i..][1..] == a[i + 1..];
    } else {
      assert b[j..][1..] == b[j + 1..];
      MergeTakesRight(le, a[i..], b[j..]);
    }
  }

  method MergeRuns<T(==)>(le: (T, T) -> bool, a: seq<T>, b: seq<T>, poller: Poller)
    returns (cancelled: bool, merged: seq<T>)
    modifies poller
    ensures old(poller.log) <= poller.log
    ensures !cancelled ==> merged == Merge(le, a, b)
  {
    merged, cancelled := [], false;
    var i, j := 0, 0;
    assert a[0..] == a && b[0..] == b;
    while i < |a| || j < |b|
      invariant 0 <= i <= |a| && 0 <= j <= |b| && |merged| == i + j && old(poller.log) <= poller.log
      invariant merged + Merge(le, a[i..], b[j..]) == Merge(le, a, b)
      decreases |a| + |b| - i - j
    {
      MergeStep(le, a, b, i, j, merged);
      if j == |b| || (i < |a| && le(a[i], b[j])) {
        merged := merged + [a[i]];
        i := i + 1;
      } else {
        merged := merged + [b[j]];
        j := j + 1;
      }
      if |merged| < |a| + |b| {
        cancelled := poller.CheckCancelled();
        if cancelled { return; }
      }
    }
    assert merged + [] == merged;
  }

  lemma {:induction false} PairGrows<T>(joined: seq<seq<T>>, parts: seq<seq<T>>, k: nat)
    requires k + 1 < |parts| && Flattened(joined) == Flattened(parts[..k])
    ensures Flattened(joined + [parts[k] + parts[k + 1]]) == Flattened(parts[..k + 2])
  {
    assert parts[..k + 1] == parts[..k] + [parts[k]];
    assert parts[..k + 2] == parts[..k + 1] + [parts[k + 1]];
    FlattenedGrows(parts[..k], parts[k]);
    FlattenedGrows(parts[..k + 1], parts[k + 1]);
    FlattenedGrows(joined, parts[k] + parts[k + 1]);
    assert (Flattened(joined) + parts[k]) + parts[k + 1] == Flattened(joined) + (parts[k] + parts[k + 1]);
  }

  /** One pass: neighbours are merged in pairs, a last odd run is kept as it is. */
  method MergePass<T(==, !new)>(le: (T, T) -> bool, runs: seq<seq<T>>, ghost parts: seq<seq<T>>, poller: Poller)
    returns (cancelled: bool, merged: seq<seq<T>>, ghost joined: seq<seq<T>>)
    requires Preorder(le) && |runs| > 1 && RunsOf(le, runs, parts)
    modifies poller
    ensures old(poller.log) <= poller.log
    ensures !cancelled ==> RunsOf(le, merged, joined) && Flattened(joined) == Flattened(parts)
    ensures !cancelled ==> 0 < |merged| < |runs|
  {
    merged, joined, cancelled := [], [], false;
    var k := 0;
    while k < |runs|
      invariant 0 <= k <= |runs| && (k == |runs| || k == 2 * |merged|) && k <= 2 * |merged| <= k + 1
      invariant RunsOf(le, merged, joined) && Flattened(joined) == Flattened(parts[..k])
      invariant old(poller.log) <= poller.log
    {
      if k + 1 == |runs| {
        assert parts[..k + 1] == parts[..k] + [parts[k]];
        FlattenedGrows(parts[..k], parts[k]);
        FlattenedGrows(joined, parts[k]);
        merged, joined := merged + [runs[k]], joined + [parts[k]];
        k := k + 1;
      } else {
        var c, run := MergeRuns(le, runs[k], runs[k + 1], poller);
        if c { return true, merged, joined; }
        MergeOfSorted(le, parts[k], parts[k + 1]);
        PairGrows(joined, parts, k);
        merged, joined := merged + [run], joined + [parts[k] + parts[k + 1]];
        k := k + 2;
        if k < |runs| {
          cancelled := poller.CheckCancelled();
          if cancelled { return; }
        }
      }
    }
    assert parts[..k] == parts;
  }

  /** Hands the items over one by one, polling between two of them. */
  method ProduceAll<T(==)>(items: seq<T>, poller: Poller) returns (cancelled: bool, produced: seq<T>)
    modifies poller
    ensures old(poller.log) <= poller.log
    ensures !cancelled ==> produced == items
    ensures !cancelled && items != [] ==> old(poller.log) < poller.log && poller.log[|poller.log| - 1] == Produced
    ensures items == [] ==> poller.log == old(poller.log)
  {
    produced, cancelled := [], false;
    var i := 0;
    while i < |items|
      invariant 0 <= i <= |items| && produced == items[..i] && old(poller.log) <= poller.log
      invariant i > 0 && i == |items| ==> old(poller.log) < poller.log && poller.log[|poller.log| - 1] == Produced
      invariant i == 0 ==> poller.log == old(poller.log)
    {
      produced := produced + [items[i]];
      poller.log := poller.log + [Produced];
      i := i + 1;
      if i < |items| {
        cancelled := poller.CheckCancelled();
        if cancelled { return; }
      }
    }
  }

  /** The last run left is the whole input, sorted. */
  lemma {:induction false} OnlyRun<T(!new)>(le: (T, T) -> bool, runs: seq<seq<T>>, parts: seq<seq<T>>, entries: seq<T>)
    requires Preorder(le) && |runs| == 1 && RunsOf(le, runs, parts) && Flattened(parts) == entries
    ensures runs[0] == StableSort(le, entries) && |runs[0]| == |entries|
  {
    assert parts == [] + [parts[0]];
    FlattenedGrows([], parts[0]);
    assert [] + parts[0] == parts[0];
    StableSortIsStable(le, entries);
    assert |runs[0]| == |multiset(runs[0])| == |multiset(entries)| == |entries|;
  }

  /**
   The program.  Unless it is cancelled it gives the stable sort, whatever the length
   of the input; and once the last item has been handed over it does not poll again.
   */
  method InterruptibleSort<T(==, !new)>(le: (T, T) -> bool, entries: seq<T>, poller: Poller?)
    returns (cancelled: bool, ordered: seq<T>)
    requires Preorder(le)
    modifies poller
    ensures poller == null ==> !cancelled
    ensures poller != null ==> old(poller.log) <= poller.log
    ensures !cancelled ==> ordered == StableSort(le, entries)
    ensures !cancelled && entries != [] && poller != null ==>
              old(poller.log) < poller.log && poller.log[|poller.log| - 1] == Produced
    ensures entries == [] && poller != null ==> !cancelled && poller.log == old(poller.log)
  {
    if poller == null {
      return false, StableSort(le, entries);
    }
    var runs;
    ghost var parts;
    cancelled, runs, parts := SplitIntoRuns(le, entries, poller);
    ordered := [];
    if cancelled || runs == [] { return; }
    while |runs| > 1
      invariant runs != [] && RunsOf(le, runs, parts) && Flattened(parts) == entries && old(poller.log) <= poller.log
      decreases |runs|
    {
      cancelled := poller.CheckCancelled();
      if cancelled { return; }
      cancelled, runs, parts := MergePass(le, runs, parts, poller);
      if cancelled { return; }
    }
    OnlyRun(le, runs, parts, entries);
    cancelled, ordered := ProduceAll(runs[0], poller);
  }

  /** The order turned round, for the reverse variant: still a preorder. */
  function Reversed<T>(le: (T, T) -> bool): (T, T) -> bool {
    (x, y) => le(y, x)
  }

  lemma {:induction false} ReversedIsPreorder<T(!new)>(le: (T, T) -> bool)
    requires Preorder(le)
    ensures Preorder(Reversed(le))
  {
    forall x, y, z | Reversed(le)(x, y) && Reversed(le)(y, z) ensures Reversed(le)(x, z) {
      assert le(y, x) && le(z, y);
    }
  }
}
