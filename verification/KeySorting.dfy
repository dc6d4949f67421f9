/** Stable sorting by a byte-string key, and when it has only one result. */
module KeySorting {
  import opened Bytes
  import Orders
  import opened Permutations
  import opened Sorting

  /** The order of the keys. */
  function ByKey<T>(key: T -> Bytes): (T, T) -> bool {
    (x: T, y: T) => !Less(key(y), key(x))
  }

  function StrictlyByKey<T>(key: T -> Bytes): (T, T) -> bool {
    (x: T, y: T) => Less(key(x), key(y))
  }

  lemma {:induction false} AtMostIsTransitive(a: Bytes, b: Bytes, c: Bytes)
    requires !Less(b, a) && !Less(c, b)
    ensures !Less(c, a)
  {
    LessIsTotal(a, b);
    LessIsTotal(b, c);
    LessIsTotal(a, c);
    if Less(c, a) && Less(a, b) {
      LessIsTransitive(c, a, b);
    }
  }

  lemma {:induction false} ByKeyIsPreorder<T(!new)>(key: T -> Bytes)
    ensures Preorder(ByKey(key))
  {
    forall x, y ensures ByKey(key)(x, y) || ByKey(key)(y, x) {
      LessIsTotal(key(x), key(y));
    }
    forall x, y, z | ByKey(key)(x, y) && ByKey(key)(y, z) ensures ByKey(key)(x, z) {
      AtMostIsTransitive(key(x), key(y), key(z));
    }
  }

  /** No two items have the same key. */
  ghost predicate KeysOnce<T(!new)>(key: T -> Bytes, s: seq<T>) {
    && (forall x :: multiset(s)[x] <= 1)
    && (forall x, y :: x in s && y in s && x != y ==> key(x) != key(y))
  }

  lemma {:induction false} Members<T>(a: seq<T>, b: seq<T>)
    requires Permuted(a, b)
    ensures forall x :: x in a <==> x in b
  {
    assert forall x :: x in a <==> x in multiset(a);
    assert forall x :: x in b <==> x in multiset(b);
  }

  lemma {:induction false} Twice<T>(s: seq<T>, i: nat, j: nat)
    requires i < j < |s| && s[i] == s[j]
    ensures multiset(s)[s[i]] > 1
  {
    WithoutLoses(s, j);
    assert Without(s, j)[i] == s[i];
    assert s[i] in multiset(Without(s, j));
  }

  lemma {:induction false} Occurs<T>(s: seq<T>, x: T)
    requires multiset(s)[x] > 1
    ensures exists i, j :: 0 <= i < j < |s| && s[i] == x && s[j] == x
  {
    var last := |s| - 1;
    assert s == s[..last] + [s[last]];
    if s[last] == x {
      assert x in multiset(s[..last]);
      var i :| 0 <= i < last && s[..last][i] == x;
      assert s[i] == x && s[last] == x;
    } else {
      Occurs(s[..last], x);
      var i, j :| 0 <= i < j < last && s[..last][i] == x && s[..last][j] == x;
      assert s[i] == x && s[j] == x;
    }
  }

  lemma {:induction false} DistinctKeysOnce<T(!new)>(key: T -> Bytes, s: seq<T>)
    requires forall i, j :: 0 <= i < j < |s| ==> key(s[i]) != key(s[j])
    ensures KeysOnce(key, s)
  {
    forall x ensures multiset(s)[x] <= 1 {
      if multiset(s)[x] > 1 {
        Occurs(s, x);
      }
    }
    forall x, y | x in s && y in s && x != y ensures key(x) != key(y) {
      var i :| 0 <= i < |s| && s[i] == x;
      var j :| 0 <= j < |s| && s[j] == y;
      assert i < j || j < i;
    }
  }

  lemma {:induction false} SortedStrictly<T(!new)>(key: T -> Bytes, s: seq<T>)
    requires SortedUpTo(ByKey(key), s) && KeysOnce(key, s)
    ensures Orders.SortedBy(StrictlyByKey(key), s)
  {
    forall i, j | 0 <= i < j < |s| ensures StrictlyByKey(key)(s[i], s[j]) {
      assert ByKey(key)(s[i], s[j]);
      LessIsTotal(key(s[i]), key(s[j]));
      if s[i] == s[j] {
        Twice(s, i, j);
      }
    }
  }

  lemma {:induction false} KeysOrder<T(!new)>(key: T -> Bytes, all: set<T>)
    requires forall x, y :: x in all && y in all && x != y ==> key(x) != key(y)
    ensures Orders.Orders(StrictlyByKey(key), all)
  {
    forall x, y | x in all && y in all
      ensures (StrictlyByKey(key)(x, y) ==> x != y && !StrictlyByKey(key)(y, x))
              && (x != y ==> StrictlyByKey(key)(x, y) || StrictlyByKey(key)(y, x))
    {
      LessIsTotal(key(x), key(y));
    }
    forall x, y, z | x in all && y in all && z in all && StrictlyByKey(key)(x, y) && StrictlyByKey(key)(y, z)
      ensures StrictlyByKey(key)(x, z)
    {
      LessIsTransitive(key(x), key(y), key(z));
    }
  }

  /** Where no two keys agree, sorting forgets the order of the input. */
  lemma {:induction false} SortForgetsOrder<T(!new)>(key: T -> Bytes, a: seq<T>, b: seq<T>)
    requires Permuted(a, b) && KeysOnce(key, a)
    ensures StableSort(ByKey(key), a) == StableSort(ByKey(key), b)
  {
    var x, y := StableSort(ByKey(key), a), StableSort(ByKey(key), b);
    ByKeyIsPreorder(key);
    StableSortIsStable(ByKey(key), a);
    StableSortIsStable(ByKey(key), b);
    Members(a, x);
    Members(x, y);
    SortedStrictly(key, x);
    SortedStrictly(key, y);
    var all := set e | e in x;
    KeysOrder(key, all);
    Orders.SortedIsUnique(StrictlyByKey(key), x, y, all);
  }
}
