/** Relative paths as sequences of raw names, and the joined form they are ordered and hashed by. */
module Paths {
  import opened Bytes
  import Orders

  type Name = Bytes
  type Path = seq<Name>

  const MAX_DEPTH: nat := 256
  const MAX_PATH_BYTES: nat := 4096
  const MAX_COMPONENT_BYTES: nat := 255

  predicate ValidName(n: Name) {
    && 0 < |n| <= MAX_COMPONENT_BYTES && n != "." && n != ".."
    && forall i :: 0 <= i < |n| ==> n[i] != '/' && n[i] != '\0'
  }

  predicate ValidPath(p: Path) {
    && 0 < |p| <= MAX_DEPTH
    && (forall i :: 0 <= i < |p| ==> ValidName(p[i]))
    && |Rel(p)| <= MAX_PATH_BYTES
  }

  /** The names joined by slashes. */
  function Rel(p: Path): Bytes {
    if p == [] then [] else if |p| == 1 then p[0] else p[0] + "/" + Rel(p[1..])
  }

  ghost predicate SlashFree(p: Path) {
    forall i :: 0 <= i < |p| ==> p[i] != [] && forall j :: 0 <= j < |p[i]| ==> p[i][j] != '/'
  }

  lemma {:induction false} ValidIsSlashFree(p: Path)
    requires ValidPath(p)
    ensures SlashFree(p)
  {
    forall i | 0 <= i < |p| ensures p[i] != [] && forall j :: 0 <= j < |p[i]| ==> p[i][j] != '/' {
      assert ValidName(p[i]);
    }
  }

  /** Where the first name of a joined path ends. */
  lemma {:induction false} FirstName(p: Path)
    requires SlashFree(p) && p != []
    ensures p[0] <= Rel(p)
    ensures |p| == 1 ==> Rel(p) == p[0]
    ensures |p| > 1 ==> |Rel(p)| > |p[0]| && Rel(p)[|p[0]|] == '/' && Rel(p)[|p[0]| + 1..] == Rel(p[1..])
    ensures forall j :: 0 <= j < |p[0]| ==> Rel(p)[j] == p[0][j] != '/'
  {
    if |p| > 1 {
      assert Rel(p) == p[0] + ("/" + Rel(p[1..]));
      assert ("/" + Rel(p[1..]))[1..] == Rel(p[1..]);
    }
  }

  /** Joining loses nothing. */
  lemma {:induction false} RelIsInjective(p: Path, q: Path)
    requires SlashFree(p) && SlashFree(q) && Rel(p) == Rel(q)
    ensures p == q
    decreases |p|
  {
    if p == [] {
      if q != [] { FirstName(q); }
    } else if q == [] {
      FirstName(p);
    } else {
      FirstName(p);
      FirstName(q);
      assert |p[0]| == |q[0]|;
      assert p[0] == q[0];
      RelIsInjective(p[1..], q[1..]);
      assert p == [p[0]] + p[1..] && q == [q[0]] + q[1..];
    }
  }

  lemma {:induction false} RelOfAppended(p: Path, q: Path)
    requires p != [] && q != []
    ensures Rel(p + q) == (Rel(p) + "/") + Rel(q)
    decreases |p|
  {
    assert (p + q)[1..] == p[1..] + q;
    if |p| > 1 {
      RelOfAppended(p[1..], q);
    } else {
      assert p[1..] + q == q;
    }
  }

  /** A common leading directory does not change the order. */
  lemma {:induction false} OrderUnderDirectory(d: Path, p: Path, q: Path)
    requires p != [] && q != []
    ensures Before(d + p, d + q) <==> Before(p, q)
  {
    if d == [] {
      assert d + p == p && d + q == q;
    } else {
      RelOfAppended(d, p);
      RelOfAppended(d, q);
      LessUnderPrefix(Rel(d) + "/", Rel(p), Rel(q));
    }
  }

  /** The order in which captured tokens list their paths. */
  predicate Before(p: Path, q: Path) {
    Less(Rel(p), Rel(q))
  }

  lemma {:induction false} BeforeOrders(s: set<Path>)
    requires forall p :: p in s ==> SlashFree(p)
    ensures Orders.Orders(Before, s)
  {
    forall p, q | p in s && q in s
      ensures (Before(p, q) ==> p != q && !Before(q, p)) && (p != q ==> Before(p, q) || Before(q, p))
    {
      LessIsTotal(Rel(p), Rel(q));
      if Rel(p) == Rel(q) { RelIsInjective(p, q); }
    }
    forall p, q, r | p in s && q in s && r in s && Before(p, q) && Before(q, r) ensures Before(p, r) {
      LessIsTransitive(Rel(p), Rel(q), Rel(r));
    }
  }
}
