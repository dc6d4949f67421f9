/**
 What a JSON value costs, and the theorem that the validator accepts the canonical
 printing of a value exactly when its costs are within the limits.
 */
module JsonLimits {
  import opened Bytes
  import opened Options
  import opened JsonText
  import opened JsonValue
  import opened JsonPrinter
  import opened JsonValidator

  /**
   Value nodes; nodes plus keys; one-based depth; longest key, string (keys
   included) and atom, as printed between their quotes.
   */
  datatype Cost = Cost(nodes: nat, tokens: nat, depth: nat, key: nat, text: nat, atom: nat)

  function Max(a: nat, b: nat): nat {
    if a < b then b else a
  }

  const NOTHING := Cost(0, 0, 0, 0, 0, 0)

  /** Two things side by side. */
  function Beside(a: Cost, b: Cost): Cost {
    Cost(a.nodes + b.nodes, a.tokens + b.tokens, Max(a.depth, b.depth),
         Max(a.key, b.key), Max(a.text, b.text), Max(a.atom, b.atom))
  }

  /** A container around what it holds. */
  function Around(c: Cost): Cost {
    c.(nodes := c.nodes + 1, tokens := c.tokens + 1, depth := c.depth + 1)
  }

  function AtomCost(length: nat): Cost {
    Cost(1, 1, 1, 0, 0, length)
  }

  function KeyCost(key: string): Cost {
    Cost(0, 1, 0, |Escape(key)|, |Escape(key)|, 0)
  }

  function CostOf(v: Json): Cost
    decreases v, 1
  {
    match v
    case Null => AtomCost(4)
    case Bool(b) => AtomCost(if b then 4 else 5)
    case Int(n) => AtomCost(|Decimal(n)|)
    case Str(s) => Cost(1, 1, 1, 0, |Escape(s)|, 0)
    case List(items) => Around(CostOfItems(items))
    case Dict(fields) => Around(CostOfFields(fields))
  }

  function CostOfItems(items: seq<Json>): Cost
    decreases items, 0
  {
    if items == [] then NOTHING else Beside(CostOf(items[0]), CostOfItems(items[1..]))
  }

  function CostOfFields(fields: seq<Field>): Cost
    decreases fields, 0
  {
    if fields == [] then NOTHING
    else Beside(FieldCost(fields[0]), CostOfFields(fields[1..]))
  }

  function FieldCost(f: Field): Cost
    decreases f, 2
  {
    Beside(KeyCost(f.key), CostOf(f.value))
  }

  /** Sorting a dictionary does not change what it costs. */
  lemma {:induction false} CostOfSorted(fields: seq<Field>)
    ensures CostOfFields(SortFields(fields)) == CostOfFields(fields)
  {
    if fields != [] {
      CostOfSorted(fields[1..]);
      CostOfInserted(fields[0], SortFields(fields[1..]));
    }
  }

  lemma {:induction false} CostOfInserted(f: Field, fields: seq<Field>)
    ensures CostOfFields(InsertField(f, fields)) ==
            Beside(FieldCost(f), CostOfFields(fields))
  {
    if fields == [] || Less(f.key, fields[0].key) {
      assert ([f] + fields)[1..] == fields;
    } else {
      CostOfInserted(f, fields[1..]);
      var rest := InsertField(f, fields[1..]);
      assert ([fields[0]] + rest)[1..] == rest;
    }
  }

  /** `c` still fits when the machine is in state `s`. */
  predicate Fits(lim: Limits, s: State, c: Cost) {
    && s.nodes + c.nodes <= lim.maxNodes
    && s.tokens + c.tokens <= lim.maxTokens
    && |s.frames| + c.depth <= lim.maxDepth
    && c.key <= lim.maxKeyBytes
    && c.text <= lim.maxStringBytes
    && c.atom <= lim.maxAtomBytes
  }

  lemma {:induction false} FitsBeside(lim: Limits, s: State, a: Cost, b: Cost)
    ensures Fits(lim, s, Beside(a, b)) <==> Fits(lim, s, a) && Fits(lim, Charge(s, a), b)
    ensures Charge(Charge(s, a), b) == Charge(s, Beside(a, b))
  {
  }

  function Charge(s: State, c: Cost): State {
    s.(nodes := s.nodes + c.nodes, tokens := s.tokens + c.tokens)
  }

  /** The state just after the bytes of `v`: an atom does not know yet that it is over. */
  function After(s: State, v: Json): State {
    var t := Charge(s, CostOf(v));
    if v.Null? || v.Bool? || v.Int? then t.(mode := InAtom(CostOf(v).atom)) else Finish(t)
  }

  // ---- strings

  lemma {:induction false} EscapedCharRun(lim: Limits, strict: bool, s: State, c: char)
    requires s.mode.InString? && !s.mode.escaped
    requires StringFits(lim, s.mode.isKey, s.mode.bytes)
    ensures Run(lim, strict, s, EscapeChar(c)) ==
            if StringFits(lim, s.mode.isKey, s.mode.bytes + |EscapeChar(c)|)
            then Some(s.(mode := s.mode.(bytes := s.mode.bytes + |EscapeChar(c)|))) else None
  {
    var e := EscapeChar(c);
    if c as int >= 0x10000 {
      var n := c as int - 0x10000;
      var high, low := UnicodeEscape(0xD800 + n / 0x400), UnicodeEscape(0xDC00 + n % 0x400);
      UnicodeIsEscape(0xD800 + n / 0x400);
      UnicodeIsEscape(0xDC00 + n % 0x400);
      PairRun(lim, strict, s, high, low);
    } else if e[0] == '\\' {
      EscapeRun(lim, strict, s, e);
    } else {
      PlainRun(lim, strict, s, e);
    }
  }

  /** A backslash, any byte, and bytes that are not special. */
  predicate IsEscape(e: string) {
    |e| >= 2 && e[0] == '\\' && forall i :: 2 <= i < |e| ==> !StringSpecial(e[i])
  }

  lemma {:induction false} UnicodeIsEscape(n: nat)
    requires n < 0x10000
    ensures IsEscape(UnicodeEscape(n)) && |UnicodeEscape(n)| == 6
  {
  }

  /** The two halves of a surrogate pair. */
  lemma {:induction false} PairRun(lim: Limits, strict: bool, s: State, high: string, low: string)
    requires s.mode.InString? && !s.mode.escaped && IsEscape(high) && IsEscape(low)
    ensures Run(lim, strict, s, high + low) ==
            if StringFits(lim, s.mode.isKey, s.mode.bytes + |high + low|)
            then Some(s.(mode := s.mode.(bytes := s.mode.bytes + |high + low|))) else None
  {
    RunAppends(lim, strict, s, high, low);
    EscapeRun(lim, strict, s, high);
    if StringFits(lim, s.mode.isKey, s.mode.bytes + |high|) {
      EscapeRun(lim, strict, s.(mode := s.mode.(bytes := s.mode.bytes + |high|)), low);
    }
  }

  lemma {:induction false} EscapeRun(lim: Limits, strict: bool, s: State, e: string)
    requires s.mode.InString? && !s.mode.escaped && IsEscape(e)
    ensures Run(lim, strict, s, e) ==
            if StringFits(lim, s.mode.isKey, s.mode.bytes + |e|)
            then Some(s.(mode := s.mode.(bytes := s.mode.bytes + |e|))) else None
  {
    assert e[1..][1..] == e[2..];
    if StringFits(lim, s.mode.isKey, s.mode.bytes + 2) {
      PlainRun(lim, strict, s.(mode := s.mode.(bytes := s.mode.bytes + 2)), e[2..]);
    }
  }

  lemma {:induction false} EscapedRun(lim: Limits, strict: bool, s: State, text: string)
    requires s.mode.InString? && !s.mode.escaped
    requires StringFits(lim, s.mode.isKey, s.mode.bytes)
    ensures Run(lim, strict, s, Escape(text)) ==
            if StringFits(lim, s.mode.isKey, s.mode.bytes + |Escape(text)|)
            then Some(s.(mode := s.mode.(bytes := s.mode.bytes + |Escape(text)|))) else None
    decreases |text|
  {
    if text != [] {
      var e := EscapeChar(text[0]);
      RunAppends(lim, strict, s, e, Escape(text[1..]));
      EscapedCharRun(lim, strict, s, text[0]);
      if StringFits(lim, s.mode.isKey, s.mode.bytes + |e|) {
        EscapedRun(lim, strict, s.(mode := s.mode.(bytes := s.mode.bytes + |e|)), text[1..]);
      }
    }
  }

  /** The rest of a quoted string, from just after its opening quote. */
  lemma {:induction false} QuotedTail(lim: Limits, strict: bool, s: State, text: string)
    requires lim.Positive() && s.mode.InString? && s.mode == InString(s.mode.isKey, false, 0)
    ensures Run(lim, strict, s, Quoted(text)[1..]) ==
            if StringFits(lim, s.mode.isKey, |Escape(text)|)
            then Some(if s.mode.isKey then s.(mode := Idle, frames := SetTop(s.frames, Colon)) else Finish(s))
            else None
  {
    assert Quoted(text)[1..] == Escape(text) + "\"";
    RunAppends(lim, strict, s, Escape(text), "\"");
    EscapedRun(lim, strict, s, text);
    if StringFits(lim, s.mode.isKey, |Escape(text)|) {
      RunOne(lim, strict, s.(mode := s.mode.(bytes := |Escape(text)|)), '"');
    }
  }

  // ---- atoms

  lemma {:induction false} AtomTail(lim: Limits, strict: bool, s: State, atom: Bytes)
    requires s.mode.InAtom? && s.mode.bytes <= lim.maxAtomBytes
    requires forall i :: 0 <= i < |atom| ==> !EndsAtom(atom[i])
    ensures Run(lim, strict, s, atom) ==
            if s.mode.bytes + |atom| <= lim.maxAtomBytes
            then Some(s.(mode := InAtom(s.mode.bytes + |atom|))) else None
    decreases |atom|
  {
    if atom != [] && s.mode.bytes + 1 <= lim.maxAtomBytes {
      AtomTail(lim, strict, s.(mode := InAtom(s.mode.bytes + 1)), atom[1..]);
    }
  }

  lemma {:induction false} AtomRun(lim: Limits, strict: bool, s: State, atom: Bytes)
    requires lim.Positive() && s.mode.Idle? && WantsValue(s)
    requires atom != [] && StartsJsonAtom(atom[0])
    requires forall i :: 0 <= i < |atom| ==> !EndsAtom(atom[i])
    ensures Run(lim, strict, s, atom) ==
            if Fits(lim, s, AtomCost(|atom|))
            then Some(Charge(s, AtomCost(|atom|)).(mode := InAtom(|atom|))) else None
  {
    var r := StartValue(lim, s);
    if r.Some? {
      AtomTail(lim, strict, r.value.(mode := InAtom(1)), atom[1..]);
    }
  }

  lemma {:induction false} DigitsAreDigits(n: int)
    ensures Decimal(n) != [] && StartsJsonAtom(Decimal(n)[0])
    ensures forall i :: 0 <= i < |Decimal(n)| ==> !EndsAtom(Decimal(n)[i])
  {
    if n < 0 {
      var d := Digits(-n);
      forall i | 0 <= i < |Decimal(n)| ensures !EndsAtom(Decimal(n)[i]) {
        if i > 0 { assert Decimal(n)[i] == d[i - 1] && d[i - 1] in d; }
      }
    } else {
      forall i | 0 <= i < |Decimal(n)| ensures !EndsAtom(Decimal(n)[i]) {
        assert Digits(n)[i] in Digits(n);
      }
      assert Digits(n)[0] in Digits(n);
    }
  }

  /** After the bytes of a value, a byte that ends an atom is read as after a finished value. */
  lemma {:induction false} Settle(lim: Limits, strict: bool, s: State, v: Json, rest: Bytes)
    requires s.mode.Idle? && rest != [] && EndsAtom(rest[0])
    ensures Run(lim, strict, After(s, v), rest) == Run(lim, strict, Finish(Charge(s, CostOf(v))), rest)
  {
  }

  lemma {:induction false} IndentIsSpace(level: nat)
    ensures forall i :: 0 <= i < |Indent(level)| ==> IsSpace(Indent(level)[i])
  {
    if level > 0 {
      IndentIsSpace(level - 1);
    }
  }

  // ---- values

  /** A state in which a value, and nothing else, may start. */
  predicate Ready(lim: Limits, s: State) {
    lim.Positive() && s.mode.Idle? && WantsValue(s)
  }

  /** `s` with its innermost container in state `e`. */
  function At(s: State, e: Next): State {
    s.(frames := SetTop(s.frames, e))
  }

  lemma {:induction false} StrRun(lim: Limits, strict: bool, s: State, text: string)
    requires Ready(lim, s)
    ensures var c := CostOf(Str(text));
            Run(lim, strict, s, Quoted(text)) == if Fits(lim, s, c) then Some(Finish(Charge(s, c))) else None
  {
    var r := StartValue(lim, s);
    assert Quoted(text)[0] == '"';
    if r.Some? {
      QuotedTail(lim, strict, r.value.(mode := InString(false, false, 0)), text);
    }
  }

  lemma {:induction false} PrintRun(lim: Limits, strict: bool, s: State, v: Json, level: nat)
    requires Ready(lim, s)
    ensures Run(lim, strict, s, Print(v, level)) ==
            if Fits(lim, s, CostOf(v)) then Some(After(s, v)) else None
    decreases Size(v), 1
  {
    match v {
      case Null => AtomRun(lim, strict, s, "null");
      case Bool(b) => AtomRun(lim, strict, s, if b then "true" else "false");
      case Int(n) =>
        DigitsAreDigits(n);
        AtomRun(lim, strict, s, Decimal(n));
      case Str(text) =>
        StrRun(lim, strict, s, text);
      case List(items) => ListRun(lim, strict, s, items, level);
      case Dict(fields) => DictRun(lim, strict, s, fields, level);
    }
  }

  /** The state just inside a new container. */
  function Opened(s: State, open: char): State {
    s.(frames := s.frames + [Frame(open, if open == '[' then ValueOrEnd else KeyOrEnd)])
  }

  /** The bracket that opens a container. */
  lemma {:induction false} OpenRun(lim: Limits, strict: bool, s: State, text: Bytes)
    requires Ready(lim, s) && text != [] && (text[0] == '[' || text[0] == '{')
    ensures StartValue(lim, s).None? ==> Run(lim, strict, s, text) == None
    ensures StartValue(lim, s).Some? ==>
            Run(lim, strict, s, text) == Run(lim, strict, Opened(StartValue(lim, s).value, text[0]), text[1..])
  {
  }

  lemma {:induction false} NewlineRun(lim: Limits, strict: bool, s: State, rest: Bytes)
    requires s.mode.Idle?
    ensures Run(lim, strict, s, "\n" + rest) == Run(lim, strict, s, rest)
  {
    assert ("\n" + rest)[1..] == rest;
  }

  lemma {:induction false} ListRun(lim: Limits, strict: bool, s: State, items: seq<Json>, level: nat)
    requires Ready(lim, s)
    ensures Run(lim, strict, s, Print(List(items), level)) ==
            if Fits(lim, s, CostOf(List(items))) then Some(After(s, List(items))) else None
    decreases SizeItems(items), 1
  {
    var text := Print(List(items), level);
    if items == [] {
      assert text == ['[', ']'];
      EmptyRun(lim, strict, s, '[', ']');
    } else {
      var r := StartValue(lim, s);
      if r.Some? {
        ItemsRun(lim, strict, Opened(r.value, '['), items, level);
      }
      ContainerRun(lim, strict, s, PrintItems(items, level) + "\n", CostOfItems(items), level, ']');
    }
  }

  /** The last line of a container. */
  lemma {:induction false} CloseRun(lim: Limits, strict: bool, s: State, level: nat, close: char)
    requires s.mode.Idle? && s.frames != []
    requires s.frames[|s.frames| - 1] == Frame(if close == ']' then '[' else '{', CommaOrEnd)
    requires close == ']' || close == '}'
    ensures Run(lim, strict, s, Indent(level) + [close]) == Some(Pop(s))
  {
    IndentIsSpace(level);
    RunAppends(lim, strict, s, Indent(level), [close]);
    SpaceRun(lim, strict, s, Indent(level));
    RunOne(lim, strict, s, close);
  }

  /** What a container holds, and its last line. */
  lemma {:induction false} BodyRun(lim: Limits, strict: bool, s: State, body: Bytes, c: Cost, level: nat, close: char)
    requires s.mode.Idle? && s.frames != []
    requires close == ']' || close == '}'
    requires s.frames[|s.frames| - 1].opening == if close == ']' then '[' else '{'
    requires Run(lim, strict, s, body) == if Fits(lim, s, c) then Some(At(Charge(s, c), CommaOrEnd)) else None
    ensures Run(lim, strict, s, "\n" + (body + (Indent(level) + [close]))) ==
            if Fits(lim, s, c) then Some(Pop(Charge(s, c))) else None
  {
    NewlineRun(lim, strict, s, body + (Indent(level) + [close]));
    RunAppends(lim, strict, s, body, Indent(level) + [close]);
    if Fits(lim, s, c) {
      var t := At(Charge(s, c), CommaOrEnd);
      CloseRun(lim, strict, t, level, close);
      assert t.frames[..|t.frames| - 1] == s.frames[..|s.frames| - 1];
    }
  }

  /** A container costs one node more than what it holds, and is one deeper. */
  lemma {:induction false} AroundFits(lim: Limits, s: State, c: Cost, open: char)
    requires s.mode.Idle?
    ensures StartValue(lim, s).None? ==> !Fits(lim, s, Around(c))
    ensures StartValue(lim, s).Some? ==>
            var inner := Opened(StartValue(lim, s).value, open);
            && (Fits(lim, inner, c) <==> Fits(lim, s, Around(c)))
            && Pop(Charge(inner, c)) == Finish(Charge(s, Around(c)))
  {
    if StartValue(lim, s).Some? {
      var inner := Opened(StartValue(lim, s).value, open);
      assert inner.frames[..|inner.frames| - 1] == s.frames;
    }
  }

  lemma {:induction false} Enclosed(open: char, lines: Bytes, level: nat, close: char) returns (inside: Bytes)
    ensures inside == "\n" + (lines + (Indent(level) + [close]))
    ensures Enclose(open, lines, level, close) == [open] + inside && ([open] + inside)[1..] == inside
  {
    inside := "\n" + (lines + (Indent(level) + [close]));
    assert Enclose(open, lines, level, close) == [open] + inside;
  }

  /** A container with entries, given what its entries do. */
  lemma {:induction false} ContainerRun(lim: Limits, strict: bool, s: State, lines: Bytes, c: Cost, level: nat, close: char)
    requires Ready(lim, s) && (close == ']' || close == '}')
    requires StartValue(lim, s).Some? ==>
             var inner := Opened(StartValue(lim, s).value, if close == ']' then '[' else '{');
             Run(lim, strict, inner, lines) ==
             if Fits(lim, inner, c) then Some(At(Charge(inner, c), CommaOrEnd)) else None
    ensures Run(lim, strict, s, Enclose(if close == ']' then '[' else '{', lines, level, close)) ==
            if Fits(lim, s, Around(c)) then Some(Finish(Charge(s, Around(c)))) else None
  {
    var open := if close == ']' then '[' else '{';
    var inside := Enclosed(open, lines, level, close);
    OpenRun(lim, strict, s, [open] + inside);
    AroundFits(lim, s, c, open);
    if StartValue(lim, s).Some? {
      BodyRun(lim, strict, Opened(StartValue(lim, s).value, open), lines, c, level, close);
    }
  }

  lemma {:induction false} ClosesAtOnce(lim: Limits, strict: bool, s: State, open: char, close: char)
    requires s.mode.Idle? && ((open == '[' && close == ']') || (open == '{' && close == '}'))
    ensures Run(lim, strict, Opened(s, open), [close]) == Some(Pop(Opened(s, open)))
  {
    RunOne(lim, strict, Opened(s, open), close);
  }

  lemma {:induction false} NothingFits(lim: Limits, s: State)
    requires lim.Positive() && Within(lim, s)
    ensures Fits(lim, s, NOTHING) && Charge(s, NOTHING) == s
  {
  }

  lemma {:induction false} EmptyRun(lim: Limits, strict: bool, s: State, open: char, close: char)
    requires Ready(lim, s) && ((open == '[' && close == ']') || (open == '{' && close == '}'))
    ensures Run(lim, strict, s, [open, close]) ==
            if Fits(lim, s, Around(NOTHING)) then Some(Finish(Charge(s, Around(NOTHING)))) else None
  {
    assert [open, close][1..] == [close];
    OpenRun(lim, strict, s, [open, close]);
    AroundFits(lim, s, NOTHING, open);
    if StartValue(lim, s).Some? {
      var r := StartValue(lim, s).value;
      ClosesAtOnce(lim, strict, r, open, close);
      NothingFits(lim, Opened(r, open));
    }
  }

  /** What is printed after the first item of a list. */
  function ItemsTail(items: seq<Json>, level: nat): Bytes
    requires items != []
  {
    (if |items| == 1 then [] else ",\n" + PrintItems(items[1..], level)) + "\n"
  }

  lemma {:induction false} ItemsPrinted(items: seq<Json>, level: nat)
    requires items != []
    ensures PrintItems(items, level) + "\n" ==
            Indent(level + 1) + (Print(items[0], level + 1) + ItemsTail(items, level))
    ensures |items| > 1 ==> ItemsTail(items, level) == ",\n" + (PrintItems(items[1..], level) + "\n")
  {
  }

  /** A value and what follows it. */
  lemma {:induction false} ValueThen(lim: Limits, strict: bool, s: State, v: Json, level: nat, tail: Bytes)
    requires Ready(lim, s) && tail != [] && EndsAtom(tail[0])
    ensures Run(lim, strict, s, Print(v, level) + tail) ==
            if Fits(lim, s, CostOf(v)) then Run(lim, strict, Finish(Charge(s, CostOf(v))), tail) else None
    decreases Size(v), 2
  {
    RunAppends(lim, strict, s, Print(v, level), tail);
    PrintRun(lim, strict, s, v, level);
    if Fits(lim, s, CostOf(v)) {
      Settle(lim, strict, s, v, tail);
    }
  }

  lemma {:induction false} IndentThen(lim: Limits, strict: bool, s: State, level: nat, tail: Bytes)
    requires s.mode.Idle?
    ensures Run(lim, strict, s, Indent(level) + tail) == Run(lim, strict, s, tail)
  {
    RunAppends(lim, strict, s, Indent(level), tail);
    IndentIsSpace(level);
    SpaceRun(lim, strict, s, Indent(level));
  }

  /** A first entry and the others. */
  lemma {:induction false} EntriesRun(lim: Limits, strict: bool, s: State, entry: Bytes, tail: Bytes, first: Cost, others: Cost)
    requires Run(lim, strict, s, entry + tail) ==
             if Fits(lim, s, first) then Run(lim, strict, At(Charge(s, first), CommaOrEnd), tail) else None
    requires Fits(lim, s, first) ==>
             Run(lim, strict, At(Charge(s, first), CommaOrEnd), tail) ==
             if Fits(lim, Charge(s, first), others)
             then Some(At(Charge(Charge(s, first), others), CommaOrEnd)) else None
    ensures Run(lim, strict, s, entry + tail) ==
            if Fits(lim, s, Beside(first, others))
            then Some(At(Charge(s, Beside(first, others)), CommaOrEnd)) else None
  {
    FitsBeside(lim, s, first, others);
  }

  /** One item and what follows it. */
  lemma {:induction false} ItemRun(lim: Limits, strict: bool, s: State, v: Json, level: nat, tail: Bytes)
    requires Ready(lim, s) && tail != [] && EndsAtom(tail[0])
    ensures Run(lim, strict, s, Indent(level + 1) + (Print(v, level + 1) + tail)) ==
            if Fits(lim, s, CostOf(v)) then Run(lim, strict, Finish(Charge(s, CostOf(v))), tail) else None
    decreases Size(v), 3
  {
    IndentThen(lim, strict, s, level + 1, Print(v, level + 1) + tail);
    ValueThen(lim, strict, s, v, level + 1, tail);
  }

  lemma {:induction false} ItemsRun(lim: Limits, strict: bool, s: State, items: seq<Json>, level: nat)
    requires Ready(lim, s) && items != []
    requires s.frames != [] && s.frames[|s.frames| - 1] == Frame('[', ValueOrEnd)
    ensures Run(lim, strict, s, PrintItems(items, level) + "\n") ==
            if Fits(lim, s, CostOfItems(items))
            then Some(At(Charge(s, CostOfItems(items)), CommaOrEnd)) else None
    decreases SizeItems(items), 0
  {
    var tail := ItemsTail(items, level);
    ItemsPrinted(items, level);
    ItemRun(lim, strict, s, items[0], level, tail);
    ItemsTailRun(lim, strict, Charge(s, CostOf(items[0])), items, level);
    FitsBeside(lim, s, CostOf(items[0]), CostOfItems(items[1..]));
  }

  lemma {:induction false} ItemsTailRun(lim: Limits, strict: bool, s: State, items: seq<Json>, level: nat)
    requires Ready(lim, s) && items != []
    requires s.frames != [] && s.frames[|s.frames| - 1] == Frame('[', ValueOrEnd)
    ensures Run(lim, strict, At(s, CommaOrEnd), ItemsTail(items, level)) ==
            if |items| == 1 || Fits(lim, s, CostOfItems(items[1..]))
            then Some(At(Charge(s, CostOfItems(items[1..])), CommaOrEnd)) else None
    decreases SizeItems(items[1..]), 1
  {
    if |items| == 1 {
      RunOne(lim, strict, At(s, CommaOrEnd), '\n');
      assert CostOfItems(items[1..]) == NOTHING;
    } else {
      ItemsPrinted(items, level);
      var rest := PrintItems(items[1..], level) + "\n";
      SeparatorRun(lim, strict, s, ValueOrEnd);
      RunAppends(lim, strict, At(s, CommaOrEnd), ",\n", rest);
      ItemsRun(lim, strict, s, items[1..], level);
    }
  }

  /** Between two entries the container is back in the state it started the entry in. */
  lemma {:induction false} SeparatorRun(lim: Limits, strict: bool, s: State, e: Next)
    requires s.mode.Idle? && s.frames != []
    requires s.frames[|s.frames| - 1] == Frame(if e == ValueOrEnd then '[' else '{', e)
    requires e == ValueOrEnd || e == KeyOrEnd
    ensures Run(lim, strict, At(s, CommaOrEnd), ",\n") == Some(s)
  {
    var t := At(s, CommaOrEnd);
    assert ",\n" == "," + "\n";
    RunAppends(lim, strict, t, ",", "\n");
    RunOne(lim, strict, t, ',');
    assert At(t, e).frames == s.frames;
    RunOne(lim, strict, s, '\n');
  }

  lemma {:induction false} DictRun(lim: Limits, strict: bool, s: State, fields: seq<Field>, level: nat)
    requires Ready(lim, s)
    ensures Run(lim, strict, s, Print(Dict(fields), level)) ==
            if Fits(lim, s, CostOf(Dict(fields))) then Some(After(s, Dict(fields))) else None
    decreases SizeFields(fields), 1
  {
    var text := Print(Dict(fields), level);
    if fields == [] {
      assert text == ['{', '}'];
      EmptyRun(lim, strict, s, '{', '}');
    } else {
      CostOfSorted(fields);
      var r := StartValue(lim, s);
      if r.Some? {
        FieldsRun(lim, strict, Opened(r.value, '{'), SortFields(fields), level);
      }
      ContainerRun(lim, strict, s, PrintFields(SortFields(fields), level) + "\n", CostOfFields(fields), level, '}');
    }
  }

  /** The limits charged so far hold. */
  predicate Within(lim: Limits, s: State) {
    s.nodes <= lim.maxNodes && s.tokens <= lim.maxTokens && |s.frames| <= lim.maxDepth
  }

  /** The quote that opens a key. */
  lemma {:induction false} KeyOpens(lim: Limits, strict: bool, s: State, text: Bytes)
    requires s.mode.Idle? && s.frames != [] && s.frames[|s.frames| - 1] == Frame('{', KeyOrEnd)
    requires text != [] && text[0] == '"'
    ensures Run(lim, strict, s, text) ==
            if s.tokens + 1 <= lim.maxTokens
            then Run(lim, strict, s.(tokens := s.tokens + 1, mode := InString(true, false, 0)), text[1..]) else None
  {
  }

  lemma {:induction false} QuotedKeyRun(lim: Limits, strict: bool, s: State, key: string)
    requires lim.Positive() && s.mode.Idle? && Within(lim, s)
    requires s.frames != [] && s.frames[|s.frames| - 1] == Frame('{', KeyOrEnd)
    ensures Run(lim, strict, s, Quoted(key)) ==
            if Fits(lim, s, KeyCost(key)) then Some(At(Charge(s, KeyCost(key)), Colon)) else None
  {
    assert Quoted(key)[0] == '"';
    KeyOpens(lim, strict, s, Quoted(key));
    if s.tokens + 1 <= lim.maxTokens {
      QuotedTail(lim, strict, s.(tokens := s.tokens + 1, mode := InString(true, false, 0)), key);
    }
  }

  lemma {:induction false} ColonRun(lim: Limits, strict: bool, s: State)
    requires s.mode.Idle? && s.frames != [] && s.frames[|s.frames| - 1].opening == '{'
    ensures Run(lim, strict, At(s, Colon), ": ") == Some(At(s, Value))
  {
    var c := At(s, Colon);
    assert ": " == ":" + " ";
    RunAppends(lim, strict, c, ":", " ");
    RunOne(lim, strict, c, ':');
    assert At(c, Value).frames == At(s, Value).frames;
    RunOne(lim, strict, At(s, Value), ' ');
  }

  /** A key, its colon and what follows. */
  lemma {:induction false} KeyRun(lim: Limits, strict: bool, s: State, key: string, rest: Bytes)
    requires lim.Positive() && s.mode.Idle? && Within(lim, s)
    requires s.frames != [] && s.frames[|s.frames| - 1] == Frame('{', KeyOrEnd)
    ensures Run(lim, strict, s, (Quoted(key) + ": ") + rest) ==
            if Fits(lim, s, KeyCost(key)) then Run(lim, strict, At(Charge(s, KeyCost(key)), Value), rest) else None
  {
    RunAppends(lim, strict, s, Quoted(key) + ": ", rest);
    RunAppends(lim, strict, s, Quoted(key), ": ");
    QuotedKeyRun(lim, strict, s, key);
    if Fits(lim, s, KeyCost(key)) {
      ColonRun(lim, strict, Charge(s, KeyCost(key)));
    }
  }

  /** What is printed after the first entry of a dictionary. */
  function FieldsTail(fields: seq<Field>, level: nat): Bytes
    requires fields != []
  {
    (if |fields| == 1 then [] else ",\n" + PrintFields(fields[1..], level)) + "\n"
  }

  lemma {:induction false} FieldsPrinted(fields: seq<Field>, level: nat)
    requires fields != []
    ensures PrintFields(fields, level) + "\n" ==
            PrintField(fields[0], level) + FieldsTail(fields, level)
    ensures |fields| > 1 ==> FieldsTail(fields, level) == ",\n" + (PrintFields(fields[1..], level) + "\n")
  {
  }

  lemma {:induction false} FieldsRun(lim: Limits, strict: bool, s: State, fields: seq<Field>, level: nat)
    requires lim.Positive() && s.mode.Idle? && Within(lim, s) && fields != []
    requires s.frames != [] && s.frames[|s.frames| - 1] == Frame('{', KeyOrEnd)
    ensures Run(lim, strict, s, PrintFields(fields, level) + "\n") ==
            if Fits(lim, s, CostOfFields(fields))
            then Some(At(Charge(s, CostOfFields(fields)), CommaOrEnd)) else None
    decreases SizeFields(fields), 0
  {
    var tail := FieldsTail(fields, level);
    var first, others := FieldCost(fields[0]), CostOfFields(fields[1..]);
    FieldRun(lim, strict, s, fields[0], level, tail);
    if Fits(lim, s, first) {
      FieldsTailRun(lim, strict, Charge(s, first), fields, level);
    }
    EntriesRun(lim, strict, s, PrintField(fields[0], level), tail, first, others);
    FieldsPrinted(fields, level);
  }

  lemma {:induction false} FieldPrinted(f: Field, level: nat, tail: Bytes)
    ensures PrintField(f, level) + tail ==
            Indent(level + 1) + ((Quoted(f.key) + ": ") + (Print(f.value, level + 1) + tail))
  {
  }

  /** The value of an entry, whose key has been charged. */
  lemma {:induction false} FieldValueRun(lim: Limits, strict: bool, s: State, key: Cost, v: Json, level: nat, tail: Bytes)
    requires lim.Positive() && s.mode.Idle? && s.frames != [] && tail != [] && EndsAtom(tail[0])
    ensures Run(lim, strict, At(Charge(s, key), Value), Print(v, level) + tail) ==
            if Fits(lim, Charge(s, key), CostOf(v))
            then Run(lim, strict, At(Charge(s, Beside(key, CostOf(v))), CommaOrEnd), tail) else None
    decreases Size(v), 3
  {
    var atValue := At(Charge(s, key), Value);
    ValueThen(lim, strict, atValue, v, level, tail);
    assert Finish(Charge(atValue, CostOf(v))) == At(Charge(s, Beside(key, CostOf(v))), CommaOrEnd);
  }

  /** One entry and what follows it. */
  lemma {:induction false} FieldRun(lim: Limits, strict: bool, s: State, f: Field, level: nat, tail: Bytes)
    requires lim.Positive() && s.mode.Idle? && Within(lim, s)
    requires s.frames != [] && s.frames[|s.frames| - 1] == Frame('{', KeyOrEnd)
    requires tail != [] && EndsAtom(tail[0])
    ensures Run(lim, strict, s, PrintField(f, level) + tail) ==
            if Fits(lim, s, FieldCost(f)) then Run(lim, strict, At(Charge(s, FieldCost(f)), CommaOrEnd), tail) else None
    decreases Size(f.value), 4
  {
    var key, value := KeyCost(f.key), Print(f.value, level + 1) + tail;
    FieldPrinted(f, level, tail);
    IndentThen(lim, strict, s, level + 1, (Quoted(f.key) + ": ") + value);
    KeyRun(lim, strict, s, f.key, value);
    FieldValueRun(lim, strict, s, key, f.value, level + 1, tail);
    FitsBeside(lim, s, key, CostOf(f.value));
  }

  lemma {:induction false} FieldsTailRun(lim: Limits, strict: bool, s: State, fields: seq<Field>, level: nat)
    requires lim.Positive() && s.mode.Idle? && Within(lim, s) && fields != []
    requires s.frames != [] && s.frames[|s.frames| - 1] == Frame('{', KeyOrEnd)
    ensures Run(lim, strict, At(s, CommaOrEnd), FieldsTail(fields, level)) ==
            if Fits(lim, s, CostOfFields(fields[1..]))
            then Some(At(Charge(s, CostOfFields(fields[1..])), CommaOrEnd)) else None
    decreases SizeFields(fields[1..]), 1
  {
    if |fields| == 1 {
      RunOne(lim, strict, At(s, CommaOrEnd), '\n');
      assert CostOfFields(fields[1..]) == NOTHING;
    } else {
      FieldsPrinted(fields, level);
      var rest := PrintFields(fields[1..], level) + "\n";
      SeparatorRun(lim, strict, s, KeyOrEnd);
      RunAppends(lim, strict, At(s, CommaOrEnd), ",\n", rest);
      FieldsRun(lim, strict, s, fields[1..], level);
    }
  }

  predicate WithinLimits(lim: Limits, c: Cost) {
    && c.nodes <= lim.maxNodes && c.tokens <= lim.maxTokens && c.depth <= lim.maxDepth
    && c.key <= lim.maxKeyBytes && c.text <= lim.maxStringBytes && c.atom <= lim.maxAtomBytes
  }

  lemma {:induction false} FitsAtStart(lim: Limits, c: Cost)
    ensures Fits(lim, START, c) <==> WithinLimits(lim, c)
  {
  }

  /** White space after a value leaves the machine complete. */
  lemma {:induction false} TrailingRun(lim: Limits, v: Json, trailing: Bytes)
    requires forall i :: 0 <= i < |trailing| ==> IsSpace(trailing[i])
    ensures var r := Run(lim, false, After(START, v), trailing); r.Some? && Complete(r.value)
  {
    if trailing != [] {
      Settle(lim, false, START, v, trailing);
      SpaceRun(lim, false, Finish(Charge(START, CostOf(v))), trailing);
    }
  }

  /**
   The validator accepts the canonical printing of a value, at any indentation and
   with white space after it, exactly when the value's costs are within the limits.
   */
  lemma {:induction false} AcceptsExactlyWithinLimits(lim: Limits, v: Json, level: nat, trailing: Bytes)
    requires forall i :: 0 <= i < |trailing| ==> IsSpace(trailing[i])
    ensures var text := Print(v, level) + trailing;
            Accepts(lim, text) <==> lim.Positive() && |text| <= lim.maxBytes && WithinLimits(lim, CostOf(v))
  {
    if !lim.Positive() { return; }
    RunAppends(lim, false, START, Print(v, level), trailing);
    PrintRun(lim, false, START, v, level);
    FitsAtStart(lim, CostOf(v));
    TrailingRun(lim, v, trailing);
  }
}
