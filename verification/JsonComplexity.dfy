/** `validate_json_complexity`: the iterative check of a decoded value. */
module JsonComplexity {
  import opened JsonValue
  import opened JsonPrinter
  import opened JsonValidator
  import opened JsonLimits

  function Utf8Length(key: string): nat {
    if key == [] then 0
    else
      var c := key[0] as int;
      (if c < 0x80 then 1 else if c < 0x800 then 2 else if c < 0x10000 then 3 else 4) + Utf8Length(key[1..])
  }

  function Longer(a: int, b: int): int {
    if a < b then b else a
  }

  /** Length of the longest decoded key, at any depth; -1 when there is no key. */
  function LongestKey(v: Json): int
    decreases v, 1
  {
    match v
    case List(items) => LongestKeyInItems(items)
    case Dict(fields) => LongestKeyInFields(fields)
    case _ => -1
  }

  function LongestKeyInItems(items: seq<Json>): int
    decreases items, 0
  {
    if items == [] then -1 else Longer(LongestKey(items[0]), LongestKeyInItems(items[1..]))
  }

  function LongestKeyInFields(fields: seq<Field>): int
    decreases fields, 0
  {
    if fields == [] then -1
    else Longer(Longer(Utf8Length(fields[0].key), LongestKey(fields[0].value)), LongestKeyInFields(fields[1..]))
  }

  /** Every key is within the limit; without a key any limit will do. */
  predicate KeyFits(longest: int, limit: int) {
    longest < 0 || longest <= limit
  }

  /** A value waiting on the stack, and the level it stands on. */
  datatype Pending = Pending(value: Json, depth: nat)

  datatype Bounds = Bounds(maxDepth: int, maxKeyBytes: int)

  /** Nothing in the value, standing where it does, is too deep or has too long a key. */
  predicate Good(b: Bounds, p: Pending) {
    p.depth - 1 + CostOf(p.value).depth <= b.maxDepth && KeyFits(LongestKey(p.value), b.maxKeyBytes)
  }

  ghost predicate AllGood(b: Bounds, stack: seq<Pending>) {
    forall i :: 0 <= i < |stack| ==> Good(b, stack[i])
  }

  function NodesOn(stack: seq<Pending>): nat {
    if stack == [] then 0 else NodesOn(stack[..|stack| - 1]) + CostOf(stack[|stack| - 1].value).nodes
  }

  /** Values pushed after `stack`, in order. */
  function PushItems(stack: seq<Pending>, items: seq<Json>, depth: nat): seq<Pending>
    decreases |items|
  {
    if items == [] then stack else PushItems(stack + [Pending(items[0], depth)], items[1..], depth)
  }

  lemma {:induction false} Pushed(b: Bounds, stack: seq<Pending>, p: Pending)
    ensures NodesOn(stack + [p]) == NodesOn(stack) + CostOf(p.value).nodes
    ensures AllGood(b, stack + [p]) <==> AllGood(b, stack) && Good(b, p)
  {
    assert (stack + [p])[..|stack|] == stack;
    assert (stack + [p])[|stack|] == p;
    if AllGood(b, stack + [p]) {
      forall i | 0 <= i < |stack| ensures Good(b, stack[i]) {
        assert (stack + [p])[i] == stack[i];
      }
    }
  }

  /** The items of a list standing on a level. */
  predicate GoodItems(b: Bounds, items: seq<Json>, depth: nat) {
    && (items != [] ==> depth - 1 + CostOfItems(items).depth <= b.maxDepth)
    && KeyFits(LongestKeyInItems(items), b.maxKeyBytes)
  }

  lemma {:induction false} GoodItemsStep(b: Bounds, items: seq<Json>, depth: nat)
    requires items != []
    ensures GoodItems(b, items, depth) <==> Good(b, Pending(items[0], depth)) && GoodItems(b, items[1..], depth)
  {
    AtLeastOne(items[0]);
    assert CostOfItems(items) == Beside(CostOf(items[0]), CostOfItems(items[1..]));
    assert LongestKeyInItems(items) == Longer(LongestKey(items[0]), LongestKeyInItems(items[1..]));
    if items[1..] == [] {
      assert CostOfItems(items[1..]) == NOTHING;
    }
  }

  lemma {:induction false} PushedItems(b: Bounds, stack: seq<Pending>, items: seq<Json>, depth: nat)
    ensures var pushed := PushItems(stack, items, depth);
            && NodesOn(pushed) == NodesOn(stack) + CostOfItems(items).nodes
            && (AllGood(b, pushed) <==> AllGood(b, stack) && GoodItems(b, items, depth))
    decreases |items|
  {
    if items != [] {
      Pushed(b, stack, Pending(items[0], depth));
      PushedItems(b, stack + [Pending(items[0], depth)], items[1..], depth);
      GoodItemsStep(b, items, depth);
    }
  }

  lemma {:induction false} AtLeastOne(v: Json)
    ensures CostOf(v).nodes >= 1 && CostOf(v).depth >= 1
  {
  }

  predicate GoodFields(b: Bounds, fields: seq<Field>, depth: nat) {
    && (fields != [] ==> depth - 1 + CostOfFields(fields).depth <= b.maxDepth)
    && KeyFits(LongestKeyInFields(fields), b.maxKeyBytes)
  }

  lemma {:induction false} GoodFieldsStep(b: Bounds, fields: seq<Field>, depth: nat)
    requires fields != []
    ensures GoodFields(b, fields, depth) <==>
            && Utf8Length(fields[0].key) <= b.maxKeyBytes
            && Good(b, Pending(fields[0].value, depth)) && GoodFields(b, fields[1..], depth)
    ensures CostOfFields(fields).nodes == CostOf(fields[0].value).nodes + CostOfFields(fields[1..]).nodes
  {
    AtLeastOne(fields[0].value);
    assert CostOfFields(fields) == Beside(FieldCost(fields[0]), CostOfFields(fields[1..]));
    assert FieldCost(fields[0]) == Beside(KeyCost(fields[0].key), CostOf(fields[0].value));
  }

  /** The entries of one dictionary are pushed, each key being measured first. */
  method PushFields(stack: seq<Pending>, fields: seq<Field>, depth: nat, b: Bounds)
    returns (ok: bool, pushed: seq<Pending>)
    ensures !ok ==> !GoodFields(b, fields, depth)
    ensures ok ==> NodesOn(pushed) == NodesOn(stack) + CostOfFields(fields).nodes
    ensures ok ==> (AllGood(b, pushed) <==> AllGood(b, stack) && GoodFields(b, fields, depth))
  {
    pushed := stack;
    var i := 0;
    assert fields[0..] == fields;
    while i < |fields|
      invariant 0 <= i <= |fields|
      invariant NodesOn(pushed) + CostOfFields(fields[i..]).nodes == NodesOn(stack) + CostOfFields(fields).nodes
      invariant GoodFields(b, fields, depth) ==> GoodFields(b, fields[i..], depth)
      invariant AllGood(b, pushed) && GoodFields(b, fields[i..], depth) <==>
                AllGood(b, stack) && GoodFields(b, fields, depth)
    {
      GoodFieldsStep(b, fields[i..], depth);
      assert fields[i..][1..] == fields[i + 1..];
      if Utf8Length(fields[i].key) > b.maxKeyBytes { return false, pushed; }
      Pushed(b, pushed, Pending(fields[i].value, depth));
      pushed := pushed + [Pending(fields[i].value, depth)];
      i := i + 1;
    }
    ok := true;
  }

  lemma {:induction false} GoodInside(b: Bounds, p: Pending)
    requires p.depth <= b.maxDepth
    ensures p.value.Dict? ==>
              && CostOf(p.value).nodes == 1 + CostOfFields(p.value.fields).nodes
              && (Good(b, p) <==> GoodFields(b, p.value.fields, p.depth + 1))
    ensures p.value.List? ==>
              && CostOf(p.value).nodes == 1 + CostOfItems(p.value.items).nodes
              && (Good(b, p) <==> GoodItems(b, p.value.items, p.depth + 1))
    ensures !p.value.Dict? && !p.value.List? ==> CostOf(p.value).nodes == 1 && Good(b, p)
  {
    if p.value.List? && p.value.items == [] {
      assert CostOfItems(p.value.items) == NOTHING;
    }
    if p.value.Dict? && p.value.fields == [] {
      assert CostOfFields(p.value.fields) == NOTHING;
    }
  }

  /** One value leaves the stack and what it holds takes its place. */
  method Expand(current: Pending, stack: seq<Pending>, b: Bounds) returns (ok: bool, expanded: seq<Pending>)
    ensures !ok ==> !Good(b, current)
    ensures ok ==> NodesOn(expanded) + 1 == NodesOn(stack) + CostOf(current.value).nodes
    ensures ok ==> (AllGood(b, expanded) <==> AllGood(b, stack) && Good(b, current))
  {
    if current.depth > b.maxDepth {
      AtLeastOne(current.value);
      return false, stack;
    }
    GoodInside(b, current);
    ok, expanded := true, stack;
    match current.value {
      case Dict(fields) =>
        ok, expanded := PushFields(stack, fields, current.depth + 1, b);
      case List(items) =>
        PushedItems(b, stack, items, current.depth + 1);
        expanded := PushItems(stack, items, current.depth + 1);
      case _ =>
    }
  }

  /**
   The loop accepts exactly the values whose node count, depth and longest key are
   within the limits: the node count and the depth that the validator counts.
   */
  method ValidateJsonComplexity(value: Json, maxNodes: int, maxDepth: int, maxKeyBytes: int) returns (ok: bool)
    ensures ok <==> && CostOf(value).nodes <= maxNodes && CostOf(value).depth <= maxDepth
                    && KeyFits(LongestKey(value), maxKeyBytes)
  {
    var b := Bounds(maxDepth, maxKeyBytes);
    ghost var whole := CostOf(value).nodes <= maxNodes && Good(b, Pending(value, 1));
    var stack := [Pending(value, 1)];
    var nodes := 0;
    Pushed(b, [], Pending(value, 1));
    assert stack == [] + stack;
    while stack != []
      invariant nodes == 0 || 0 < nodes <= maxNodes
      invariant nodes == 0 ==> stack != []
      invariant whole <==> nodes + NodesOn(stack) <= maxNodes && AllGood(b, stack)
      decreases NodesOn(stack)
    {
      var current := stack[|stack| - 1];
      var rest := stack[..|stack| - 1];
      assert stack == rest + [current];
      Pushed(b, rest, current);
      AtLeastOne(current.value);
      nodes := nodes + 1;
      if nodes > maxNodes { return false; }
      ok, stack := Expand(current, rest, b);
      if !ok { return; }
    }
    ok := true;
  }

  lemma {:induction false} Utf8IsShorter(key: string)
    ensures Utf8Length(key) <= |Escape(key)|
  {
    if key != [] {
      Utf8IsShorter(key[1..]);
    }
  }

  lemma {:induction false} KeysAreShorter(v: Json)
    ensures LongestKey(v) <= CostOf(v).key as int
    decreases v, 1
  {
    match v {
      case List(items) => ItemKeysAreShorter(items);
      case Dict(fields) => FieldKeysAreShorter(fields);
      case _ =>
    }
  }

  lemma {:induction false} ItemKeysAreShorter(items: seq<Json>)
    ensures LongestKeyInItems(items) <= CostOfItems(items).key
    decreases items, 0
  {
    if items != [] {
      KeysAreShorter(items[0]);
      ItemKeysAreShorter(items[1..]);
    }
  }

  lemma {:induction false} FieldKeysAreShorter(fields: seq<Field>)
    ensures LongestKeyInFields(fields) <= CostOfFields(fields).key
    decreases fields, 0
  {
    if fields != [] {
      Utf8IsShorter(fields[0].key);
      KeysAreShorter(fields[0].value);
      FieldKeysAreShorter(fields[1..]);
    }
  }

  /** Text the validator lets through decodes to a value the tree check lets through. */
  lemma {:induction false} AcceptedTextHasAcceptedTree(lim: Limits, v: Json, level: nat)
    requires Accepts(lim, Print(v, level))
    ensures CostOf(v).nodes <= lim.maxNodes && CostOf(v).depth <= lim.maxDepth && KeyFits(LongestKey(v), lim.maxKeyBytes)
  {
    assert Print(v, level) + [] == Print(v, level);
    AcceptsExactlyWithinLimits(lim, v, level, []);
    KeysAreShorter(v);
  }
}
