/**
 JSON values as the program holds them: trees of null, booleans, integers,
 strings, lists and dictionaries (floats are not modelled).  A dictionary keeps
 its insertion order; `Meaning` forgets it, as Python's `==` does.
 */
module JsonValue {
  import opened Bytes

  datatype Json =
    | Null
    | Bool(b: bool)
    | Int(n: int)
    | Str(s: string)
    | List(items: seq<Json>)
    | Dict(fields: seq<Field>)

  datatype Field = Field(key: string, value: Json)

  /** What a value is, up to the order in which dictionary entries were added. */
  datatype Value =
    | VNull
    | VBool(b: bool)
    | VInt(n: int)
    | VStr(s: string)
    | VList(items: seq<Value>)
    | VDict(entries: map<string, Value>)

  function Meaning(v: Json): Value
    decreases v, 1
  {
    match v
    case Null => VNull
    case Bool(b) => VBool(b)
    case Int(n) => VInt(n)
    case Str(s) => VStr(s)
    case List(items) => VList(MeaningItems(items))
    case Dict(fields) => VDict(MeaningFields(fields))
  }

  function MeaningItems(items: seq<Json>): seq<Value>
    decreases items, 0
  {
    if items == [] then [] else [Meaning(items[0])] + MeaningItems(items[1..])
  }

  function MeaningFields(fields: seq<Field>): map<string, Value>
    decreases fields, 0
  {
    if fields == [] then map[]
    else MeaningFields(fields[1..])[fields[0].key := Meaning(fields[0].value)]
  }

  function Keys(fields: seq<Field>): set<string> {
    set f | f in fields :: f.key
  }

  predicate DistinctKeys(fields: seq<Field>) {
    forall i, j :: 0 <= i < j < |fields| ==> fields[i].key != fields[j].key
  }

  /** A Python dictionary never holds a key twice, at any depth. */
  predicate WellFormed(v: Json)
    decreases v, 1
  {
    match v
    case List(items) => WellFormedItems(items)
    case Dict(fields) => DistinctKeys(fields) && WellFormedFields(fields)
    case _ => true
  }

  predicate WellFormedItems(items: seq<Json>)
    decreases items, 0
  {
    items != [] ==> WellFormed(items[0]) && WellFormedItems(items[1..])
  }

  predicate WellFormedFields(fields: seq<Field>)
    decreases fields, 0
  {
    fields != [] ==> WellFormed(fields[0].value) && WellFormedFields(fields[1..])
  }

  /** Termination measure that sorting leaves alone. */
  function Size(v: Json): nat
    decreases v, 1
  {
    match v
    case List(items) => 1 + SizeItems(items)
    case Dict(fields) => 1 + SizeFields(fields)
    case _ => 0
  }

  function SizeItems(items: seq<Json>): nat
    decreases items, 0
  {
    if items == [] then 0 else 1 + Size(items[0]) + SizeItems(items[1..])
  }

  function SizeFields(fields: seq<Field>): nat
    decreases fields, 0
  {
    if fields == [] then 0 else 1 + Size(fields[0].value) + SizeFields(fields[1..])
  }

  /** `sorted(value)` over a dictionary: its entries by increasing key. */
  function SortFields(fields: seq<Field>): (r: seq<Field>)
    ensures |r| == |fields|
    ensures SizeFields(r) == SizeFields(fields)
    ensures multiset(r) == multiset(fields)
  {
    if fields == [] then []
    else
      assert fields == [fields[0]] + fields[1..];
      InsertField(fields[0], SortFields(fields[1..]))
  }

  function InsertField(f: Field, fields: seq<Field>): (r: seq<Field>)
    ensures |r| == |fields| + 1
    ensures SizeFields(r) == 1 + Size(f.value) + SizeFields(fields)
    ensures multiset(r) == multiset{f} + multiset(fields)
  {
    if fields == [] || Less(f.key, fields[0].key) then
      assert ([f] + fields)[1..] == fields;
      [f] + fields
    else
      var rest := InsertField(f, fields[1..]);
      assert fields == [fields[0]] + fields[1..];
      assert ([fields[0]] + rest)[1..] == rest;
      [fields[0]] + rest
  }

  ghost predicate SortedFields(fields: seq<Field>) {
    forall i, j :: 0 <= i < j < |fields| ==> Less(fields[i].key, fields[j].key)
  }

  lemma {:induction false} SortSorts(fields: seq<Field>)
    requires DistinctKeys(fields)
    ensures SortedFields(SortFields(fields))
  {
    if fields != [] {
      SortSorts(fields[1..]);
      var sorted := SortFields(fields[1..]);
      forall g | g in sorted ensures g.key != fields[0].key {
        assert g in multiset(sorted);
        assert g in multiset(fields[1..]);
      }
      InsertSorts(fields[0], sorted);
    }
  }

  lemma {:induction false} InsertSorts(f: Field, fields: seq<Field>)
    requires SortedFields(fields)
    requires forall g :: g in fields ==> g.key != f.key
    ensures SortedFields(InsertField(f, fields))
  {
    if fields == [] {
    } else if Less(f.key, fields[0].key) {
      forall i | 0 <= i < |fields| ensures Less(f.key, fields[i].key) {
        if i > 0 { LessIsTransitive(f.key, fields[0].key, fields[i].key); }
      }
    } else {
      InsertSorts(f, fields[1..]);
      var rest := InsertField(f, fields[1..]);
      forall g | g in rest ensures Less(fields[0].key, g.key) {
        assert g in multiset(rest);
        if g == f {
          assert fields[0] in fields;
          LessIsTotal(f.key, fields[0].key);
        } else {
          assert g in multiset(fields[1..]);
        }
      }
    }
  }
}
