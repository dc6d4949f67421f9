/** Sets and sequences under a strict total order. */
module Orders {
  /** `less` orders the elements of `s` strictly and totally. */
  ghost predicate Orders<T(!new)>(less: (T, T) -> bool, s: set<T>) {
    && (forall x, y :: x in s && y in s && less(x, y) ==> x != y && !less(y, x))
    && (forall x, y :: x in s && y in s && x != y ==> less(x, y) || less(y, x))
    && (forall x, y, z :: x in s && y in s && z in s && less(x, y) && less(y, z) ==> less(x, z))
  }

  ghost predicate SortedBy<T>(less: (T, T) -> bool, s: seq<T>) {
    forall i, j :: 0 <= i < j < |s| ==> less(s[i], s[j])
  }

  ghost predicate IsLeast<T(!new)>(less: (T, T) -> bool, s: set<T>, m: T) {
    m in s && forall x :: x in s && x != m ==> less(m, x)
  }

  lemma {:induction false} LeastExists<T(!new)>(less: (T, T) -> bool, s: set<T>)
    requires Orders(less, s) && s != {}
    ensures exists m :: IsLeast(less, s, m)
    decreases |s|
  {
    var x :| x in s;
    var rest := s - {x};
    if rest == {} {
      assert s == {x};
      assert IsLeast(less, s, x);
    } else {
      LeastExists(less, rest);
      var m :| IsLeast(less, rest, m);
      if less(m, x) {
        assert IsLeast(less, s, m);
      } else {
        assert IsLeast(less, s, x);
      }
    }
  }

  /** The elements of a set, in increasing order. */
  ghost function Sorted<T(!new)>(less: (T, T) -> bool, s: set<T>): (r: seq<T>)
    requires Orders(less, s)
    ensures SortedBy(less, r)
    ensures forall x :: x in r <==> x in s
    ensures |r| == |s|
    decreases |s|
  {
    if s == {} then []
    else
      LeastExists(less, s);
      var m :| IsLeast(less, s, m);
      var rest := Sorted(less, s - {m});
      LeastFirst(less, s, m, rest);
      [m] + rest
  }

  lemma {:induction false} LeastFirst<T(!new)>(less: (T, T) -> bool, s: set<T>, m: T, rest: seq<T>)
    requires IsLeast(less, s, m) && SortedBy(less, rest) && forall x :: x in rest <==> x in s - {m}
    ensures SortedBy(less, [m] + rest)
    ensures forall x :: x in [m] + rest <==> x in s
  {
    var all := [m] + rest;
    forall i, j | 0 <= i < j < |all| ensures less(all[i], all[j]) {
      assert all[j] == rest[j - 1] && rest[j - 1] in rest;
      if i > 0 {
        assert all[i] == rest[i - 1];
      }
    }
  }

  /** There is only one way to write a set in increasing order. */
  lemma {:induction false} SortedIsUnique<T(!new)>(less: (T, T) -> bool, a: seq<T>, b: seq<T>, s: set<T>)
    requires Orders(less, s) && SortedBy(less, a) && SortedBy(less, b)
    requires (forall x :: x in a <==> x in s) && (forall x :: x in b <==> x in s)
    ensures a == b
    decreases |a|
  {
    assert a != [] ==> a[0] in a;
    assert b != [] ==> b[0] in b;
    if a != [] && b != [] {
      HeadIsLeast(less, a, s);
      HeadIsLeast(less, b, s);
      TailIsRest(less, a, s);
      TailIsRest(less, b, s);
      SortedIsUnique(less, a[1..], b[1..], s - {a[0]});
    }
  }

  lemma {:induction false} HeadIsLeast<T(!new)>(less: (T, T) -> bool, a: seq<T>, s: set<T>)
    requires SortedBy(less, a) && a != [] && forall x :: x in a <==> x in s
    ensures IsLeast(less, s, a[0])
  {
    forall x | x in s && x != a[0] ensures less(a[0], x) {
      var i :| 0 <= i < |a| && a[i] == x;
    }
  }

  lemma {:induction false} TailIsRest<T(!new)>(less: (T, T) -> bool, a: seq<T>, s: set<T>)
    requires Orders(less, s) && SortedBy(less, a) && a != [] && forall x :: x in a <==> x in s
    ensures forall x :: x in a[1..] <==> x in s - {a[0]}
  {
    forall x ensures x in a[1..] <==> x in s - {a[0]} {
      if x in a[1..] {
        var i :| 0 <= i < |a[1..]| && a[1..][i] == x;
        assert a[i + 1] == x;
      }
      if x in s - {a[0]} {
        var i :| 0 <= i < |a| && a[i] == x;
        assert a[1..][i - 1] == x;
      }
    }
  }
}
