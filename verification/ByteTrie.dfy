/** The byte trie that puts sibling names in raw-byte order and refuses a name given twice. */
module ByteTrie {
  import opened Bytes
  import opened Options
  import opened Orders

  /** `terminal` marks the end of a name. */
  datatype Trie = Trie(terminal: bool, kids: map<char, Trie>)

  const EMPTY := Trie(false, map[])

  /** The names a trie holds, from its root. */
  ghost function Contents(t: Trie): set<Bytes> {
    (if t.terminal then {[]} else {}) + set c, s | c in t.kids && s in Contents(t.kids[c]) :: [c] + s
  }

  lemma {:induction false} InContents(t: Trie, s: Bytes)
    ensures s in Contents(t) <==>
            if s == [] then t.terminal else s[0] in t.kids && s[1..] in Contents(t.kids[s[0]])
  {
    if s != [] {
      assert s == [s[0]] + s[1..];
      if s in Contents(t) {
        var c, r :| c in t.kids && r in Contents(t.kids[c]) && s == [c] + r;
        assert c == s[0] && r == s[1..];
      }
    }
  }

  /** Adds a name, unless it is there already. */
  function Insert(t: Trie, name: Bytes): Option<Trie>
    decreases |name|
  {
    if name == [] then (if t.terminal then None else Some(t.(terminal := true)))
    else
      var child := if name[0] in t.kids then t.kids[name[0]] else EMPTY;
      match Insert(child, name[1..])
      case None => None
      case Some(u) => Some(t.(kids := t.kids[name[0] := u]))
  }

  function Child(t: Trie, c: char): Trie {
    if c in t.kids then t.kids[c] else EMPTY
  }

  lemma {:induction false} InChild(t: Trie, c: char, s: Bytes)
    ensures [c] + s in Contents(t) <==> s in Contents(Child(t, c))
  {
    InContents(t, [c] + s);
    assert ([c] + s)[1..] == s;
  }

  lemma {:induction false} InsertAdds(t: Trie, name: Bytes)
    ensures Insert(t, name).None? <==> name in Contents(t)
    ensures Insert(t, name).Some? ==> Contents(Insert(t, name).value) == Contents(t) + {name}
    decreases |name|
  {
    InContents(t, name);
    var r := Insert(t, name);
    if name == [] {
      if r.Some? {
        forall s ensures s in Contents(r.value) <==> s in Contents(t) + {name} {
          InContents(r.value, s);
          InContents(t, s);
        }
      }
    } else {
      InsertAdds(Child(t, name[0]), name[1..]);
      InChild(t, name[0], name[1..]);
      assert name == [name[0]] + name[1..];
      if r.Some? {
        forall s ensures s in Contents(r.value) <==> s in Contents(t) + {name} {
          InsertedMember(t, name, r.value, s);
        }
      }
    }
  }

  lemma {:induction false} InsertedMember(t: Trie, name: Bytes, u: Trie, s: Bytes)
    requires name != [] && u.terminal == t.terminal
    requires name[0] in u.kids && u.kids == t.kids[name[0] := u.kids[name[0]]]
    requires Contents(u.kids[name[0]]) == Contents(Child(t, name[0])) + {name[1..]}
    ensures s in Contents(u) <==> s in Contents(t) || s == name
  {
    InContents(u, s);
    InContents(t, s);
    if s != [] && s[0] == name[0] {
      assert s == [s[0]] + s[1..] && name == [name[0]] + name[1..];
    }
  }

  lemma {:induction false} LowestOctet(keys: set<char>)
    requires keys != {}
    ensures exists c :: c in keys && forall d :: d in keys ==> c <= d
    decreases |keys|
  {
    var x :| x in keys;
    var rest := keys - {x};
    if rest == {} {
      assert keys == {x};
    } else {
      LowestOctet(rest);
      var m :| m in rest && forall d :: d in rest ==> m <= d;
      var c := if m < x then m else x;
      assert forall d :: d in keys ==> d == x || d in rest;
      assert c in keys && forall d :: d in keys ==> c <= d;
    }
  }

  lemma {:induction false} LessByOctet(prefix: Bytes, c: char, d: char, a: Bytes, b: Bytes)
    requires c < d
    ensures Less(prefix + ([c] + a), prefix + ([d] + b))
  {
    LessUnderPrefix(prefix, [c] + a, [d] + b);
  }

  lemma {:induction false} PrefixIsLess(prefix: Bytes, a: Bytes)
    requires a != []
    ensures Less(prefix, prefix + a)
  {
    LessUnderPrefix(prefix, [], a);
    assert prefix + [] == prefix;
  }

  /** What a walk from a node reached by `prefix` has to yield for the octets in `octets`. */
  ghost predicate Yields(names: seq<Bytes>, t: Trie, prefix: Bytes, octets: set<char>) {
    forall x :: x in names <==>
      prefix <= x && x[|prefix|..] in Contents(t) && (x == prefix || x[|prefix|] in octets)
  }

  /** Walks the trie: a name that ends here first, then the octets from the lowest up. */
  method Visit(t: Trie, prefix: Bytes) returns (names: seq<Bytes>)
    ensures SortedBy(Less, names)
    ensures Yields(names, t, prefix, t.kids.Keys)
    decreases t
  {
    names := if t.terminal then [prefix] else [];
    InContents(t, []);
    assert prefix[|prefix|..] == [];
    var keys := t.kids.Keys;
    ghost var done: set<char> := {};
    forall x ensures x in names <==> prefix <= x && x[|prefix|..] in Contents(t) && x == prefix {
    }
    while keys != {}
      invariant done !! keys && done + keys == t.kids.Keys
      invariant forall c, d :: c in done && d in keys ==> c < d
      invariant SortedBy(Less, names)
      invariant Yields(names, t, prefix, done)
      decreases keys
    {
      LowestOctet(keys);
      var octet :| octet in keys && forall d :: d in keys ==> octet <= d;
      var below := Visit(t.kids[octet], prefix + [octet]);
      VisitStep(t, prefix, done, octet, names, below);
      names := names + below;
      done, keys := done + {octet}, keys - {octet};
    }
  }

  lemma {:induction false} VisitStep(t: Trie, prefix: Bytes, done: set<char>, octet: char, names: seq<Bytes>, below: seq<Bytes>)
    requires octet in t.kids && octet !in done && forall c :: c in done ==> c < octet
    requires SortedBy(Less, names) && Yields(names, t, prefix, done)
    requires SortedBy(Less, below) && Yields(below, t.kids[octet], prefix + [octet], t.kids[octet].kids.Keys)
    ensures SortedBy(Less, names + below)
    ensures Yields(names + below, t, prefix, done + {octet})
  {
    forall x ensures x in below <==> prefix <= x && x != prefix && x[|prefix|] == octet && x[|prefix|..] in Contents(t) {
      BelowMembers(t, prefix, octet, x);
    }
    forall i, j | 0 <= i < |names| && 0 <= j < |below| ensures Less(names[i], below[j]) {
      assert names[i] in names && below[j] in below;
      EarlierIsLess(prefix, octet, names[i], below[j]);
    }
    SortedAppends(names, below);
    MembersAppend(names, below);
  }

  lemma {:induction false} EarlierIsLess(prefix: Bytes, octet: char, x: Bytes, y: Bytes)
    requires prefix <= x && (x != prefix ==> x[|prefix|] < octet)
    requires prefix <= y && y != prefix && y[|prefix|] == octet
    ensures Less(x, y)
  {
    assert y == prefix + ([octet] + y[|prefix| + 1..]);
    if x == prefix {
      PrefixIsLess(prefix, [octet] + y[|prefix| + 1..]);
    } else {
      assert x == prefix + ([x[|prefix|]] + x[|prefix| + 1..]);
      LessByOctet(prefix, x[|prefix|], octet, x[|prefix| + 1..], y[|prefix| + 1..]);
    }
  }

  lemma {:induction false} SortedAppends(a: seq<Bytes>, b: seq<Bytes>)
    requires SortedBy(Less, a) && SortedBy(Less, b)
    requires forall i, j :: 0 <= i < |a| && 0 <= j < |b| ==> Less(a[i], b[j])
    ensures SortedBy(Less, a + b)
  {
    forall i, j | 0 <= i < j < |a + b| ensures Less((a + b)[i], (a + b)[j]) {
      if j < |a| {
      } else if i < |a| {
        assert Less(a[i], b[j - |a|]);
      } else {
        assert Less(b[i - |a|], b[j - |a|]);
      }
    }
  }

  lemma {:induction false} MembersAppend(a: seq<Bytes>, b: seq<Bytes>)
    ensures forall x :: x in a + b <==> x in a || x in b
  {
  }

  lemma {:induction false} BelowMembers(t: Trie, prefix: Bytes, octet: char, x: Bytes)
    requires octet in t.kids
    ensures (prefix + [octet] <= x && x[|prefix| + 1..] in Contents(t.kids[octet])
             && (x == prefix + [octet] || x[|prefix| + 1] in t.kids[octet].kids.Keys)) <==>
            (prefix <= x && x != prefix && x[|prefix|] == octet && x[|prefix|..] in Contents(t))
  {
    if prefix <= x && x != prefix {
      InContents(t, x[|prefix|..]);
      assert x[|prefix|..][1..] == x[|prefix| + 1..];
      InContents(t.kids[octet], x[|prefix| + 1..]);
      assert prefix + [octet] <= x <==> x[|prefix|] == octet;
    }
  }

  /** The names in raw-byte order, or nothing when one is given twice. */
  method RawByteOrder(names: seq<Bytes>) returns (r: Option<seq<Bytes>>)
    ensures r.Some? <==> forall i, j :: 0 <= i < j < |names| ==> names[i] != names[j]
    ensures r.Some? ==> SortedBy(Less, r.value) && forall x :: x in r.value <==> x in names
  {
    var trie := EMPTY;
    assert Contents(trie) == {};
    var i := 0;
    while i < |names|
      invariant 0 <= i <= |names|
      invariant forall x :: x in Contents(trie) <==> x in names[..i]
      invariant forall j, k :: 0 <= j < k < i ==> names[j] != names[k]
    {
      InsertAdds(trie, names[i]);
      var next := Insert(trie, names[i]);
      if next.None? {
        assert names[i] in names[..i];
        return None;
      }
      assert names[..i + 1] == names[..i] + [names[i]];
      trie := next.value;
      i := i + 1;
    }
    assert names[..i] == names;
    var ordered := Visit(trie, []);
    forall x ensures x in ordered <==> x in names {
      InContents(trie, x);
      assert x[0..] == x;
    }
    r := Some(ordered);
  }
}
