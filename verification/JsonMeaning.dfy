/**
 The main results on canonical printing: a parser recovers the value, and two
 values print alike exactly when they are equal, insertion order aside.
 */
module JsonMeaning {
  import opened Bytes
  import opened Options
  import opened Orders
  import opened JsonValue
  import opened JsonPrinter
  import opened JsonParser
  import opened JsonRoundTrip

  lemma {:induction false} SizeOfMember(fields: seq<Field>, f: Field)
    requires f in fields
    ensures Size(f.value) < SizeFields(fields)
  {
    if f != fields[0] {
      assert f in fields[1..];
      SizeOfMember(fields[1..], f);
    }
  }

  lemma {:induction false} SizeOfItem(items: seq<Json>, i: nat)
    requires i < |items|
    ensures Size(items[i]) < SizeItems(items)
  {
    if i > 0 {
      SizeOfItem(items[1..], i - 1);
    }
  }

  lemma {:induction false} CanonAt(fields: seq<Field>, i: nat)
    requires i < |fields|
    ensures CanonFields(fields)[i] == Field(fields[i].key, Canon(fields[i].value))
  {
    if i > 0 {
      CanonAt(fields[1..], i - 1);
    }
  }

  lemma {:induction false} CanonItemAt(items: seq<Json>, i: nat)
    requires i < |items|
    ensures CanonItems(items)[i] == Canon(items[i])
  {
    if i > 0 {
      CanonItemAt(items[1..], i - 1);
    }
  }

  lemma {:induction false} MeaningItemAt(items: seq<Json>)
    ensures |MeaningItems(items)| == |items|
    ensures forall i :: 0 <= i < |items| ==> MeaningItems(items)[i] == Meaning(items[i])
  {
    if items != [] {
      MeaningItemAt(items[1..]);
      forall i | 0 <= i < |items| ensures MeaningItems(items)[i] == Meaning(items[i]) {
        if i > 0 { assert MeaningItems(items)[i] == MeaningItems(items[1..])[i - 1]; }
      }
    }
  }

  /** A dictionary means the map of its entries. */
  lemma {:induction false} MeaningOfField(fields: seq<Field>, f: Field)
    requires DistinctKeys(fields) && f in fields
    requires f in fields[1..] ==> f.key in MeaningFields(fields[1..]) && MeaningFields(fields[1..])[f.key] == Meaning(f.value)
    ensures f.key in MeaningFields(fields) && MeaningFields(fields)[f.key] == Meaning(f.value)
  {
    if f != fields[0] {
      var i :| 0 < i < |fields| && fields[i] == f;
      assert fields[1..][i - 1] == f && fields[0].key != f.key;
    }
  }

  lemma {:induction false} MeaningOfFields(fields: seq<Field>)
    requires DistinctKeys(fields)
    ensures MeaningFields(fields).Keys == Keys(fields)
    ensures forall f :: f in fields ==> f.key in MeaningFields(fields) && MeaningFields(fields)[f.key] == Meaning(f.value)
  {
    if fields != [] {
      MeaningOfFields(fields[1..]);
      assert fields == [fields[0]] + fields[1..];
      forall f | f in fields
        ensures f.key in MeaningFields(fields) && MeaningFields(fields)[f.key] == Meaning(f.value)
      {
        MeaningOfField(fields, f);
      }
      assert Keys(fields) == {fields[0].key} + Keys(fields[1..]);
    }
  }

  lemma {:induction false} SortedMembers(fields: seq<Field>)
    requires DistinctKeys(fields)
    ensures forall f :: f in SortFields(fields) <==> f in fields
    ensures SortedFields(SortFields(fields)) && DistinctKeys(SortFields(fields))
  {
    SortSorts(fields);
    SortedAreDistinct(SortFields(fields));
    forall f ensures f in SortFields(fields) <==> f in fields {
      assert f in multiset(SortFields(fields)) <==> f in multiset(fields);
    }
  }

  lemma {:induction false} WellFormedItem(items: seq<Json>, i: nat)
    requires WellFormedItems(items) && i < |items|
    ensures WellFormed(items[i])
  {
    if i > 0 {
      WellFormedItem(items[1..], i - 1);
    }
  }

  /** Putting dictionaries in key order does not change what a value means. */
  lemma {:induction false} CanonMeansTheSame(v: Json)
    requires WellFormed(v)
    ensures Meaning(Canon(v)) == Meaning(v)
    decreases Size(v)
  {
    match v {
      case List(items) =>
        MeaningItemAt(items);
        MeaningItemAt(CanonItems(items));
        forall i | 0 <= i < |items| ensures Meaning(CanonItems(items)[i]) == Meaning(items[i]) {
          CanonItemAt(items, i);
          SizeOfItem(items, i);
          WellFormedItem(items, i);
          CanonMeansTheSame(items[i]);
        }
      case Dict(fields) =>
        CanonDictMeansTheSame(fields);
      case _ =>
    }
  }

  lemma {:induction false} KeysAreListed(fields: seq<Field>)
    ensures forall k :: k in Keys(fields) <==> k in KeyList(fields)
  {
    forall k | k in Keys(fields) ensures k in KeyList(fields) {
      var f :| f in fields && f.key == k;
      var i :| 0 <= i < |fields| && fields[i] == f;
      assert KeyList(fields)[i] == k;
    }
    forall k | k in KeyList(fields) ensures k in Keys(fields) {
      var i :| 0 <= i < |fields| && KeyList(fields)[i] == k;
      assert fields[i] in fields;
    }
  }

  lemma {:induction false} KeysOfCanon(fields: seq<Field>)
    requires DistinctKeys(fields)
    ensures Keys(CanonFields(SortFields(fields))) == Keys(fields)
  {
    var sorted := SortFields(fields);
    KeyListMembers(fields);
    KeysAreListed(CanonFields(sorted));
    assert KeyList(CanonFields(sorted)) == KeyList(sorted);
  }

  lemma {:induction false} CanonEntry(fields: seq<Field>, f: Field)
    requires DistinctKeys(fields) && WellFormedFields(fields) && f in CanonFields(SortFields(fields))
    ensures exists g :: g in fields && g.key == f.key && Meaning(g.value) == Meaning(f.value)
    decreases SizeFields(fields), 0
  {
    var sorted := SortFields(fields);
    SortedMembers(fields);
    WellFormedMembers(fields);
    var i :| 0 <= i < |sorted| && CanonFields(sorted)[i] == f;
    CanonAt(sorted, i);
    assert sorted[i] in fields;
    SizeOfMember(fields, sorted[i]);
    CanonMeansTheSame(sorted[i].value);
  }

  lemma {:induction false} CanonDictMeansTheSame(fields: seq<Field>)
    requires DistinctKeys(fields) && WellFormedFields(fields)
    ensures MeaningFields(CanonFields(SortFields(fields))) == MeaningFields(fields)
    decreases SizeFields(fields), 1
  {
    var canon := CanonFields(SortFields(fields));
    SortedMembers(fields);
    SortedAreDistinct(SortFields(fields));
    MeaningOfFields(fields);
    MeaningOfFields(canon);
    KeysOfCanon(fields);
    var m, n := MeaningFields(canon), MeaningFields(fields);
    forall k | k in m ensures k in n && m[k] == n[k] {
      var f :| f in canon && f.key == k;
      CanonEntry(fields, f);
    }
    assert m.Keys == n.Keys;
  }

  /** Equal values have the same key-ordered form. */
  lemma {:induction false} SameMeaningSameCanon(v: Json, w: Json)
    requires WellFormed(v) && WellFormed(w) && Meaning(v) == Meaning(w)
    ensures Canon(v) == Canon(w)
    decreases Size(v), 2
  {
    match v {
      case List(items) =>
        SameItems(items, w.items);
      case Dict(fields) =>
        SameEntries(fields, w.fields);
      case _ =>
    }
  }

  lemma {:induction false} SameItem(items: seq<Json>, others: seq<Json>, i: nat)
    requires WellFormedItems(items) && WellFormedItems(others) && i < |items| && i < |others|
    requires Meaning(items[i]) == Meaning(others[i])
    ensures CanonItems(items)[i] == CanonItems(others)[i]
    decreases SizeItems(items), 0
  {
    CanonItemAt(items, i);
    CanonItemAt(others, i);
    SizeOfItem(items, i);
    WellFormedItem(items, i);
    WellFormedItem(others, i);
    SameMeaningSameCanon(items[i], others[i]);
  }

  lemma {:induction false} SameItems(items: seq<Json>, others: seq<Json>)
    requires WellFormedItems(items) && WellFormedItems(others) && MeaningItems(items) == MeaningItems(others)
    ensures CanonItems(items) == CanonItems(others)
    decreases SizeItems(items), 1
  {
    MeaningItemAt(items);
    MeaningItemAt(others);
    forall i | 0 <= i < |items| ensures CanonItems(items)[i] == CanonItems(others)[i] {
      SameItem(items, others, i);
    }
  }

  lemma {:induction false} SameEntries(f: seq<Field>, g: seq<Field>)
    requires WellFormed(Dict(f)) && WellFormed(Dict(g)) && MeaningFields(f) == MeaningFields(g)
    ensures CanonFields(SortFields(f)) == CanonFields(SortFields(g))
    decreases SizeFields(f), 1
  {
    SameKeys(f, g);
    var a, b := SortFields(f), SortFields(g);
    forall i | 0 <= i < |a| ensures CanonFields(a)[i] == CanonFields(b)[i] {
      SameEntry(f, g, i);
    }
  }

  lemma {:induction false} SameEntry(f: seq<Field>, g: seq<Field>, i: nat)
    requires WellFormed(Dict(f)) && WellFormed(Dict(g)) && MeaningFields(f) == MeaningFields(g)
    requires i < |f| && |f| == |g| && SortFields(f)[i].key == SortFields(g)[i].key
    ensures CanonFields(SortFields(f))[i] == CanonFields(SortFields(g))[i]
    decreases SizeFields(f), 0
  {
    var a, b := SortFields(f), SortFields(g);
    SortedMembers(f);
    SortedMembers(g);
    MeaningOfFields(f);
    MeaningOfFields(g);
    WellFormedMembers(f);
    WellFormedMembers(g);
    CanonAt(a, i);
    CanonAt(b, i);
    assert a[i] in f && b[i] in g;
    SizeOfMember(f, a[i]);
    SameMeaningSameCanon(a[i].value, b[i].value);
  }

  function KeyList(fields: seq<Field>): seq<string> {
    seq(|fields|, i requires 0 <= i < |fields| => fields[i].key)
  }

  lemma {:induction false} SameKeys(f: seq<Field>, g: seq<Field>)
    requires DistinctKeys(f) && DistinctKeys(g) && MeaningFields(f) == MeaningFields(g)
    ensures var a, b := SortFields(f), SortFields(g);
            |a| == |b| && forall i :: 0 <= i < |a| ==> a[i].key == b[i].key
  {
    var a, b := SortFields(f), SortFields(g);
    MeaningOfFields(f);
    MeaningOfFields(g);
    KeyListMembers(f);
    KeyListMembers(g);
    LessOrders(Keys(f));
    SortedIsUnique(Less, KeyList(a), KeyList(b), Keys(f));
    forall i | 0 <= i < |a| ensures a[i].key == b[i].key {
      assert KeyList(a)[i] == KeyList(b)[i];
    }
  }

  lemma {:induction false} KeyListMembers(f: seq<Field>)
    requires DistinctKeys(f)
    ensures SortedBy(Less, KeyList(SortFields(f)))
    ensures forall k :: k in KeyList(SortFields(f)) <==> k in Keys(f)
  {
    var a := SortFields(f);
    SortedMembers(f);
    KeysAreListed(f);
    KeysAreListed(a);
    assert Keys(a) == Keys(f);
  }

  /** A canonical document, with white space after it, parses back to the value it was printed from. */
  lemma {:induction false} ParsingUndoesPrinting(v: Json, level: nat, trailing: string)
    requires WellFormed(v) && (trailing == "" || trailing == "\n")
    ensures Parse(Print(v, level) + trailing) == Some(Canon(v))
    ensures Meaning(Canon(v)) == Meaning(v)
  {
    PrintStarts(v, level);
    PrintRoundTrip(v, level, trailing);
    CanonMeansTheSame(v);
  }

  /** Two values have the same canonical printing exactly when they are equal as Python values. */
  lemma {:induction false} PrintingSaysTheMeaning(v: Json, w: Json, level: nat)
    requires WellFormed(v) && WellFormed(w)
    ensures Print(v, level) == Print(w, level) <==> Meaning(v) == Meaning(w)
  {
    ParsingUndoesPrinting(v, level, "");
    ParsingUndoesPrinting(w, level, "");
    assert Print(v, level) + "" == Print(v, level);
    assert Print(w, level) + "" == Print(w, level);
    if Meaning(v) == Meaning(w) {
      SameMeaningSameCanon(v, w);
      PrintOfCanon(v, level);
      PrintOfCanon(w, level);
    }
  }

  /** Printing does not see the order in which entries were added. */
  lemma {:induction false} PrintOfCanon(v: Json, level: nat)
    requires WellFormed(v)
    ensures Print(Canon(v), level) == Print(v, level)
    decreases Size(v), 1
  {
    match v {
      case List(items) => PrintOfCanonItems(items, level);
      case Dict(fields) =>
        var sorted := SortFields(fields);
        SortedMembers(fields);
        WellFormedSorted(fields);
        SortOfSorted(CanonFields(sorted));
        PrintOfCanonFields(sorted, level);
      case _ =>
    }
  }

  lemma {:induction false} PrintOfCanonItems(items: seq<Json>, level: nat)
    requires WellFormedItems(items)
    ensures PrintItems(CanonItems(items), level) == PrintItems(items, level)
    decreases SizeItems(items), 0
  {
    if items != [] {
      PrintOfCanon(items[0], level + 1);
      PrintOfCanonItems(items[1..], level);
      assert CanonItems(items)[1..] == CanonItems(items[1..]);
    }
  }

  lemma {:induction false} PrintOfCanonFields(fields: seq<Field>, level: nat)
    requires WellFormedFields(fields)
    ensures PrintFields(CanonFields(fields), level) == PrintFields(fields, level)
    decreases SizeFields(fields), 0
  {
    if fields != [] {
      PrintOfCanon(fields[0].value, level + 1);
      PrintOfCanonFields(fields[1..], level);
      assert CanonFields(fields)[1..] == CanonFields(fields[1..]);
    }
  }

  lemma {:induction false} SortOfSorted(fields: seq<Field>)
    requires SortedFields(fields)
    ensures SortFields(fields) == fields
  {
    if fields != [] {
      SortOfSorted(fields[1..]);
      assert fields == [fields[0]] + fields[1..];
      if |fields| > 1 {
        assert Less(fields[0].key, fields[1].key);
      }
    }
  }
}
