/** What does not depend on the order of a list. */
module Permutations {
  function Sum<T>(f: T -> int, s: seq<T>): int {
    if s == [] then 0 else Sum(f, s[..|s| - 1]) + f(s[|s| - 1])
  }

  function Mapped<T, U>(f: T -> U, s: seq<T>): seq<U> {
    seq(|s|, i requires 0 <= i < |s| => f(s[i]))
  }

  predicate Permuted<T(==)>(a: seq<T>, b: seq<T>) {
    multiset(a) == multiset(b)
  }

  function Without<T>(s: seq<T>, k: nat): seq<T>
    requires k < |s|
  {
    s[..k] + s[k + 1..]
  }

  lemma {:induction false} WithoutLoses<T>(s: seq<T>, k: nat)
    requires k < |s|
    ensures multiset(s) == multiset(Without(s, k)) + multiset{s[k]}
  {
    assert s == s[..k] + [s[k]] + s[k + 1..];
  }

  /** The last item of one list can be taken out of the other. */
  lemma {:induction false} Matched<T>(a: seq<T>, b: seq<T>) returns (k: nat)
    requires a != [] && Permuted(a, b)
    ensures k < |b| && b[k] == a[|a| - 1] && Permuted(a[..|a| - 1], Without(b, k))
  {
    var last := a[|a| - 1];
    assert a == a[..|a| - 1] + [last];
    assert last in multiset(b);
    k :| 0 <= k < |b| && b[k] == last;
    WithoutLoses(b, k);
    assert multiset(a[..|a| - 1]) == multiset(a) - multiset{last};
    assert multiset(Without(b, k)) == multiset(b) - multiset{last};
  }

  lemma {:induction false} SumWithout<T>(f: T -> int, s: seq<T>, k: nat)
    requires k < |s|
    ensures Sum(f, s) == Sum(f, Without(s, k)) + f(s[k])
  {
    if k < |s| - 1 {
      SumWithout(f, s[..|s| - 1], k);
      assert Without(s, k)[..|s| - 2] == Without(s[..|s| - 1], k);
    } else {
      assert Without(s, k) == s[..|s| - 1];
    }
  }

  lemma {:induction false} SumPermutes<T>(f: T -> int, a: seq<T>, b: seq<T>)
    requires Permuted(a, b)
    ensures Sum(f, a) == Sum(f, b)
  {
    if a == [] {
      SamePermutedLength(a, b);
    } else {
      var k := Matched(a, b);
      SumPermutes(f, a[..|a| - 1], Without(b, k));
      SumWithout(f, b, k);
    }
  }

  lemma {:induction false} SamePermutedLength<T>(a: seq<T>, b: seq<T>)
    requires Permuted(a, b)
    ensures |a| == |b|
  {
    assert |multiset(a)| == |a| && |multiset(b)| == |b|;
  }

  lemma {:induction false} MappedPermutes<T, U>(f: T -> U, a: seq<T>, b: seq<T>)
    requires Permuted(a, b)
    ensures Permuted(Mapped(f, a), Mapped(f, b))
  {
    if a == [] {
      SamePermutedLength(a, b);
    } else {
      var k := Matched(a, b);
      var most, rest := a[..|a| - 1], Without(b, k);
      MappedPermutes(f, most, rest);
      assert Mapped(f, a) == Mapped(f, most) + [f(a[|a| - 1])];
      assert Without(Mapped(f, b), k) == Mapped(f, rest);
      WithoutLoses(Mapped(f, b), k);
    }
  }

  lemma {:induction false} SumMonotone<T>(f: T -> int, g: T -> int, s: seq<T>)
    requires forall x :: x in s ==> f(x) <= g(x)
    ensures Sum(f, s) <= Sum(g, s)
  {
    if s != [] {
      SumMonotone(f, g, s[..|s| - 1]);
    }
  }

  lemma {:induction false} SumOfMapped<T, U>(f: T -> U, g: U -> int, h: T -> int, s: seq<T>)
    requires forall x :: x in s ==> g(f(x)) == h(x)
    ensures Sum(g, Mapped(f, s)) == Sum(h, s)
  {
    if s != [] {
      assert Mapped(f, s)[..|s| - 1] == Mapped(f, s[..|s| - 1]);
      assert s[|s| - 1] in s;
      SumOfMapped(f, g, h, s[..|s| - 1]);
    }
  }

  /** Two lists without repeats of the same things are permutations of each other. */
  lemma {:induction false} SameContents<T>(a: seq<T>, b: seq<T>)
    requires (forall x :: multiset(a)[x] <= 1) && (forall x :: multiset(b)[x] <= 1)
    requires forall x :: x in a <==> x in b
    ensures Permuted(a, b)
  {
    forall x ensures multiset(a)[x] == multiset(b)[x] {
      assert x in multiset(a) <==> x in a;
      assert x in multiset(b) <==> x in b;
    }
  }

  lemma {:induction false} SumAppends<T>(f: T -> int, a: seq<T>, b: seq<T>)
    ensures Sum(f, a + b) == Sum(f, a) + Sum(f, b)
  {
    if b == [] {
      assert a + b == a;
    } else {
      assert (a + b)[..|a + b| - 1] == a + b[..|b| - 1];
      SumAppends(f, a, b[..|b| - 1]);
    }
  }

  /** A list without repeats of some of the members sums to no more than all of them. */
  lemma {:induction false} SumOfSome<T>(f: T -> int, some: seq<T>, all: seq<T>)
    requires (forall x :: multiset(some)[x] <= 1) && (forall x :: x in some ==> x in all)
    requires forall x :: x in all ==> f(x) >= 0
    ensures Sum(f, some) <= Sum(f, all)
    decreases |some|
  {
    if some == [] {
      SumNotNegative(f, all);
    } else {
      var most, last := some[..|some| - 1], some[|some| - 1];
      assert some == most + [last] && last in some;
      var k :| 0 <= k < |all| && all[k] == last;
      SumWithout(f, all, k);
      forall x | x in most ensures x in Without(all, k) {
        assert x in some && x != last by {
          assert x in multiset(most);
          assert multiset(some)[x] == multiset(most)[x] + (if x == last then 1 else 0);
        }
        var j :| 0 <= j < |all| && all[j] == x;
        assert j < k ==> Without(all, k)[j] == x;
        assert j > k ==> Without(all, k)[j - 1] == x;
      }
      assert forall x :: multiset(most)[x] <= multiset(some)[x];
      SumOfSome(f, most, Without(all, k));
    }
  }

  lemma {:induction false} SumNotNegative<T>(f: T -> int, s: seq<T>)
    requires forall x :: x in s ==> f(x) >= 0
    ensures Sum(f, s) >= 0
  {
    if s != [] {
      assert s[|s| - 1] in s;
      SumNotNegative(f, s[..|s| - 1]);
    }
  }

  /** No term is larger than a sum of terms none of which is negative. */
  lemma {:induction false} SumAtLeast<T>(f: T -> int, s: seq<T>, x: T)
    requires x in s && forall y :: y in s ==> f(y) >= 0
    ensures f(x) <= Sum(f, s)
  {
    var most, last := s[..|s| - 1], s[|s| - 1];
    assert s == most + [last];
    if x in most {
      SumAtLeast(f, most, x);
    } else {
      SumNotNegative(f, most);
    }
  }
}
