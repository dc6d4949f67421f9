/** Parsing undoes canonical printing, and the printing of a value says exactly what the value means. */
module JsonRoundTrip {
  import opened Bytes
  import opened Options
  import opened JsonText
  import opened JsonValue
  import opened JsonPrinter
  import opened JsonParser

  /** The value with every dictionary in key order. */
  function Canon(v: Json): Json
    decreases Size(v), 1
  {
    match v
    case List(items) => List(CanonItems(items))
    case Dict(fields) => Dict(CanonFields(SortFields(fields)))
    case _ => v
  }

  function CanonItems(items: seq<Json>): (r: seq<Json>)
    ensures |r| == |items|
    decreases SizeItems(items), 0
  {
    if items == [] then [] else [Canon(items[0])] + CanonItems(items[1..])
  }

  function CanonFields(fields: seq<Field>): (r: seq<Field>)
    ensures |r| == |fields|
    ensures forall i :: 0 <= i < |r| ==> r[i].key == fields[i].key
    decreases SizeFields(fields), 0
  {
    if fields == [] then []
    else [Field(fields[0].key, Canon(fields[0].value))] + CanonFields(fields[1..])
  }

  // ---- strings

  lemma {:induction false} HexRoundTrip(n: nat)
    requires n < 16
    ensures HexValue(HexDigit(n)) == Some(n)
  {
  }

  lemma {:induction false} UnitRoundTrip(n: nat, rest: string)
    requires n < 0x10000
    ensures (UnicodeEscape(n) + rest)[2..] == UnicodeEscape(n)[2..] + rest
    ensures ParseUnit(UnicodeEscape(n)[2..] + rest) == Some(n)
  {
    HexRoundTrip(n / 4096);
    HexRoundTrip(n / 256 % 16);
    HexRoundTrip(n / 16 % 16);
    HexRoundTrip(n % 16);
    assert n / 16 / 16 == n / 256 && n / 256 / 16 == n / 4096;
    assert 4096 * (n / 4096) + 256 * (n / 256 % 16) + 16 * (n / 16 % 16) + n % 16 == n;
  }

  /** The escapes of two characters. */
  lemma {:induction false} ShortEscapeRoundTrip(c: char, e: char, rest: string)
    requires EscapeChar(c) == ['\\', e]
    ensures ParseEscape([e] + rest) == Some((c, rest))
  {
    assert ([e] + rest)[1..] == rest;
  }

  lemma {:induction false} UnicodeRoundTrip(c: char, rest: string)
    requires !(0xD800 <= c as int < 0xE000) && c as int < 0x10000
    ensures ParseEscape(UnicodeEscape(c as int)[1..] + rest) == Some((c, rest))
  {
    var e := UnicodeEscape(c as int);
    var s := e[1..] + rest;
    UnitRoundTrip(c as int, rest);
    assert s[0] == 'u' && s[1..] == e[2..] + rest && s[5..] == rest;
  }

  lemma {:induction false} BasicCharRoundTrip(c: char, rest: string)
    requires c as int < 0x10000 && !(' ' <= c <= '~' && c != '"' && c != '\\')
    ensures EscapeChar(c)[0] == '\\'
    ensures ParseEscape((EscapeChar(c) + rest)[1..]) == Some((c, rest))
  {
    var e := EscapeChar(c);
    assert (e + rest)[1..] == e[1..] + rest;
    if |e| == 2 {
      assert e == ['\\', e[1]] && e[1..] == [e[1]];
      ShortEscapeRoundTrip(c, e[1], rest);
    } else {
      UnicodeRoundTrip(c, rest);
    }
  }

  /** Two escaped units in a row, seen from behind the first backslash. */
  lemma {:induction false} PairSlices(high: string, low: string, rest: string)
    requires |high| == |low| == 6
    ensures var s := ((high + low) + rest)[1..];
            && |s| >= 11 && s[0] == high[1] && s[5] == low[0] && s[6] == low[1]
            && s[1..] == high[2..] + (low + rest) && s[7..] == low[2..] + rest && s[11..] == rest
  {
    var s := ((high + low) + rest)[1..];
    assert s == high[1..] + (low + rest);
    assert s[1..] == high[2..] + (low + rest);
    assert s[7..] == low[2..] + rest;
    assert s[11..] == rest;
  }

  /** An escape that is two units is a surrogate pair. */
  lemma {:induction false} ParsesPair(s: string, u: nat, w: nat, rest: string)
    requires |s| >= 11 && s[0] == 'u' && s[5] == '\\' && s[6] == 'u' && s[11..] == rest
    requires 0xD800 <= u < 0xDC00 <= w < 0xE000
    requires ParseUnit(s[1..]) == Some(u) && ParseUnit(s[7..]) == Some(w)
    ensures ParseEscape(s) == Some(((0x10000 + 0x400 * (u - 0xD800) + (w - 0xDC00)) as char, rest))
  {
  }

  lemma {:induction false} EscapesAsPair(c: char, u: nat, w: nat)
    requires c as int >= 0x10000
    requires u == 0xD800 + (c as int - 0x10000) / 0x400 && w == 0xDC00 + (c as int - 0x10000) % 0x400
    ensures u < 0xDC00 && w < 0xE000 && EscapeChar(c) == UnicodeEscape(u) + UnicodeEscape(w)
    ensures 0x10000 + 0x400 * (u - 0xD800) + (w - 0xDC00) == c as int
  {
  }

  lemma {:induction false} PairRoundTrip(c: char, rest: string)
    requires c as int >= 0x10000
    ensures EscapeChar(c)[0] == '\\'
    ensures ParseEscape((EscapeChar(c) + rest)[1..]) == Some((c, rest))
  {
    var n := c as int - 0x10000;
    var u, w := 0xD800 + n / 0x400, 0xDC00 + n % 0x400;
    EscapesAsPair(c, u, w);
    UnitsRoundTrip(u, w, rest);
  }

  lemma {:induction false} UnitsRoundTrip(u: nat, w: nat, rest: string)
    requires 0xD800 <= u < 0xDC00 <= w < 0xE000
    ensures var e := UnicodeEscape(u) + UnicodeEscape(w);
            && e[0] == '\\'
            && ParseEscape((e + rest)[1..]) == Some(((0x10000 + 0x400 * (u - 0xD800) + (w - 0xDC00)) as char, rest))
  {
    var high, low := UnicodeEscape(u), UnicodeEscape(w);
    PairSlices(high, low, rest);
    UnitRoundTrip(u, low + rest);
    UnitRoundTrip(w, rest);
    ParsesPair(((high + low) + rest)[1..], u, w, rest);
  }

  lemma {:induction false} CharsRoundTrip(text: string, rest: string)
    ensures ParseChars(Escape(text) + "\"" + rest) == Some((text, rest))
    decreases |text|
  {
    if text == [] {
      assert Escape(text) + "\"" + rest == "\"" + rest;
      assert ("\"" + rest)[1..] == rest;
    } else {
      var c := text[0];
      var tail := Escape(text[1..]) + "\"" + rest;
      assert Escape(text) + "\"" + rest == EscapeChar(c) + tail;
      CharsRoundTrip(text[1..], rest);
      assert [c] + text[1..] == text;
      if ' ' <= c <= '~' && c != '"' && c != '\\' {
        assert (EscapeChar(c) + tail)[1..] == tail;
      } else if c as int < 0x10000 {
        BasicCharRoundTrip(c, tail);
      } else {
        PairRoundTrip(c, tail);
      }
    }
  }

  // ---- numbers

  lemma {:induction false} DigitsRoundTrip(n: nat)
    ensures DigitsValue(Digits(n)) == n
  {
    var d := Digits(n);
    if n < 10 {
      assert d[..0] == [];
    } else {
      DigitsRoundTrip(n / 10);
      assert d[..|d| - 1] == Digits(n / 10);
    }
  }

  lemma {:induction false} CountRoundTrip(d: string, rest: string)
    requires forall i :: 0 <= i < |d| ==> '0' <= d[i] <= '9'
    requires rest == [] || !('0' <= rest[0] <= '9')
    ensures CountDigits(d + rest) == |d|
  {
    if d == [] {
      assert d + rest == rest;
    } else {
      assert (d + rest)[1..] == d[1..] + rest;
      CountRoundTrip(d[1..], rest);
    }
  }

  /** Where a printed value ends in a document. */
  predicate Boundary(rest: string) {
    rest == [] || rest[0] == ',' || rest[0] == '\n'
  }

  lemma {:induction false} NaturalRoundTrip(n: nat, rest: string)
    requires Boundary(rest)
    ensures ParseNatural(Digits(n) + rest) == Some((n, rest))
  {
    var d := Digits(n);
    forall i | 0 <= i < |d| ensures '0' <= d[i] <= '9' { assert d[i] in d; }
    CountRoundTrip(d, rest);
    DigitsRoundTrip(n);
    assert (d + rest)[..|d|] == d;
    assert (d + rest)[|d|..] == rest;
  }

  lemma {:induction false} AtNumber(s: string)
    requires s != [] && ('0' <= s[0] <= '9' || s[0] == '-')
    ensures ParseValue(s) ==
            match ParseInt(s)
            case None => None
            case Some((n, t)) => Some((Int(n), t))
  {
  }

  lemma {:induction false} NegativeRoundTrip(n: int, rest: string)
    requires n < 0 && Boundary(rest)
    ensures ParseInt(("-" + Digits(-n)) + rest) == Some((n, rest))
  {
    NaturalRoundTrip(-n, rest);
    assert (("-" + Digits(-n)) + rest)[1..] == Digits(-n) + rest;
  }

  lemma {:induction false} PositiveRoundTrip(n: nat, rest: string)
    requires Boundary(rest)
    ensures ParseInt(Digits(n) + rest) == Some((n, rest))
  {
    NaturalRoundTrip(n, rest);
    assert Digits(n)[0] in Digits(n);
  }

  lemma {:induction false} DecimalRoundTrip(n: int, rest: string)
    requires Boundary(rest)
    ensures ParseInt(Decimal(n) + rest) == Some((n, rest))
  {
    if n < 0 {
      NegativeRoundTrip(n, rest);
    } else {
      PositiveRoundTrip(n, rest);
    }
  }

  lemma {:induction false} IntRoundTrip(n: int, rest: string)
    requires Boundary(rest)
    ensures ParseValue(Decimal(n) + rest) == Some((Int(n), rest))
  {
    var d := Decimal(n);
    assert d[0] == '-' || '0' <= d[0] <= '9' by {
      if n >= 0 { assert Digits(n)[0] in Digits(n); }
    }
    DecimalRoundTrip(n, rest);
    AtNumber(d + rest);
  }

  // ---- white space

  lemma {:induction false} SkipIndent(level: nat, s: string)
    requires s == [] || !IsSpace(s[0])
    ensures SkipSpace(Indent(level) + s) == s
  {
    if level == 0 {
      assert Indent(level) + s == s;
    } else {
      assert (Indent(level) + s)[1..] == " " + (Indent(level - 1) + s);
      assert (" " + (Indent(level - 1) + s))[1..] == Indent(level - 1) + s;
      SkipIndent(level - 1, s);
    }
  }

  /** The start of a line. */
  lemma {:induction false} SkipLine(level: nat, s: string)
    requires s == [] || !IsSpace(s[0])
    ensures SkipSpace("\n" + (Indent(level) + s)) == s
  {
    assert ("\n" + (Indent(level) + s))[1..] == Indent(level) + s;
    SkipIndent(level, s);
  }

  // ---- values

  /** A printed value starts a token of its own. */
  lemma {:induction false} PrintStarts(v: Json, level: nat)
    ensures var p := Print(v, level);
            p != [] && !IsSpace(p[0]) && p[0] != ']' && p[0] != '}'
  {
    match v {
      case Int(n) =>
        var d := if n < 0 then Digits(-n) else Digits(n);
        assert d[0] in d;
      case _ =>
    }
  }

  /** Everything from the first line of a container to what follows it. */
  function Lines(lines: string, level: nat, close: char, rest: string): string {
    lines + ("\n" + (Indent(level) + ([close] + rest)))
  }

  lemma {:induction false} EncloseRest(open: char, lines: string, level: nat, close: char, rest: string)
    ensures (Enclose(open, lines + "\n", level, close) + rest)[0] == open
    ensures (Enclose(open, lines + "\n", level, close) + rest)[1..] == "\n" + Lines(lines, level, close, rest)
  {
    var body := (lines + "\n") + (Indent(level) + [close]);
    assert body + rest == Lines(lines, level, close, rest);
    assert (([open] + ("\n" + body)) + rest)[1..] == ("\n" + body) + rest;
    assert ("\n" + body) + rest == "\n" + (body + rest);
  }

  lemma {:induction false} NewlineSkips(s: string)
    ensures SkipSpace("\n" + s) == SkipSpace(s)
  {
    assert ("\n" + s)[1..] == s;
  }

  lemma {:induction false} PrintRoundTrip(v: Json, level: nat, rest: string)
    requires WellFormed(v) && Boundary(rest)
    ensures ParseValue(Print(v, level) + rest) == Some((Canon(v), rest))
    decreases Size(v), 1
  {
    match v {
      case Null => WordRoundTrip("null", rest);
      case Bool(b) => WordRoundTrip(if b then "true" else "false", rest);
      case Int(n) => IntRoundTrip(n, rest);
      case Str(text) => StrRoundTrip(text, rest);
      case List(items) => ListRoundTrip(items, level, rest);
      case Dict(fields) => DictRoundTrip(fields, level, rest);
    }
  }

  lemma {:induction false} StrRoundTrip(text: string, rest: string)
    ensures ParseValue(Quoted(text) + rest) == Some((Str(text), rest))
  {
    CharsRoundTrip(text, rest);
    var s := Quoted(text) + rest;
    assert s[0] == '"' && s[1..] == Escape(text) + "\"" + rest;
  }

  lemma {:induction false} WordRoundTrip(word: string, rest: string)
    requires word in ["null", "true", "false"]
    ensures var v := if word == "null" then Null else Bool(word == "true");
            ParseValue(word + rest) == Some((v, rest))
  {
    assert (word + rest)[..|word|] == word;
    assert (word + rest)[|word|..] == rest;
  }

  lemma {:induction false} ListRoundTrip(items: seq<Json>, level: nat, rest: string)
    requires WellFormed(List(items))
    ensures ParseValue(Print(List(items), level) + rest) == Some((Canon(List(items)), rest))
    decreases SizeItems(items), 1
  {
    if items == [] {
      assert ("[]" + rest)[1..] == "]" + rest;
      assert ("]" + rest)[1..] == rest;
    } else {
      var lines := PrintItems(items, level);
      EncloseRest('[', lines, level, ']', rest);
      NewlineSkips(Lines(lines, level, ']', rest));
      ItemsRoundTrip(items, level, rest);
    }
  }

  /** The lines of a list from its first item on, without their indentation. */
  function ItemsText(items: seq<Json>, level: nat, rest: string): string {
    SkipSpace(Lines(PrintItems(items, level), level, ']', rest))
  }

  lemma {:induction false} ItemsRoundTrip(items: seq<Json>, level: nat, rest: string)
    requires WellFormedItems(items) && items != []
    ensures var s := ItemsText(items, level, rest); s != [] && s[0] != ']'
    ensures ParseItems(ItemsText(items, level, rest)) == Some((CanonItems(items), rest))
    decreases SizeItems(items), 0
  {
    if |items| == 1 {
      var tail := LastLine(level, ']', rest);
      FirstItemRoundTrip(items, level, rest, tail);
      AtLastLine(level, ']', rest);
      ParseLastItem(ItemsText(items, level, rest), Canon(items[0]), tail);
      assert CanonItems(items) == [Canon(items[0])];
    } else {
      var tail := MoreLines(Lines(PrintItems(items[1..], level), level, ']', rest));
      FirstItemRoundTrip(items, level, rest, tail);
      AtMoreLines(Lines(PrintItems(items[1..], level), level, ']', rest));
      ItemsRoundTrip(items[1..], level, rest);
      ParseMoreItems(ItemsText(items, level, rest), Canon(items[0]), tail, CanonItems(items[1..]), rest);
    }
  }

  lemma {:induction false} ValueParses(v: Json, level: nat, text: string, tail: string)
    requires WellFormed(v) && Boundary(tail) && text == Print(v, level) + tail
    ensures text != [] && text[0] != ']' && ParseValue(text) == Some((Canon(v), tail))
    decreases Size(v), 2
  {
    PrintStarts(v, level);
    PrintRoundTrip(v, level, tail);
  }

  lemma {:induction false} FirstItemRoundTrip(items: seq<Json>, level: nat, rest: string, tail: string)
    requires WellFormedItems(items) && items != []
    requires tail == if |items| == 1 then LastLine(level, ']', rest)
                     else MoreLines(Lines(PrintItems(items[1..], level), level, ']', rest))
    ensures var s := ItemsText(items, level, rest);
            s != [] && s[0] != ']' && ParseValue(s) == Some((Canon(items[0]), tail))
    decreases Size(items[0]), 3
  {
    FirstItem(items, level, rest, tail);
    ValueParses(items[0], level + 1, ItemsText(items, level, rest), tail);
  }

  /** What follows the last entry of a container. */
  function LastLine(level: nat, close: char, rest: string): string {
    "\n" + (Indent(level) + ([close] + rest))
  }

  lemma {:induction false} AtLastLine(level: nat, close: char, rest: string)
    requires !IsSpace(close)
    ensures SkipSpace(LastLine(level, close, rest)) == [close] + rest
    ensures ([close] + rest)[1..] == rest
  {
    SkipLine(level, [close] + rest);
  }

  /** What follows an entry that is not the last. */
  function MoreLines(others: string): string {
    ",\n" + others
  }

  lemma {:induction false} AtMoreLines(others: string)
    ensures SkipSpace(MoreLines(others)) == MoreLines(others) && MoreLines(others)[0] == ','
    ensures SkipSpace(MoreLines(others)[1..]) == SkipSpace(others)
  {
    assert MoreLines(others)[1..] == "\n" + others;
    NewlineSkips(others);
  }

  lemma {:induction false} FirstItem(items: seq<Json>, level: nat, rest: string, tail: string)
    requires items != []
    requires tail == if |items| == 1 then LastLine(level, ']', rest)
                     else MoreLines(Lines(PrintItems(items[1..], level), level, ']', rest))
    ensures ItemsText(items, level, rest) == Print(items[0], level + 1) + tail
  {
    var x := Print(items[0], level + 1);
    PrintStarts(items[0], level + 1);
    FirstItemLines(x, PrintItems(items[1..], level), |items| == 1, level, rest);
    SkipIndent(level + 1, x + tail);
  }

  /** Concatenation regrouped. */
  lemma {:induction false} FirstItemLines(x: string, others: string, last: bool, level: nat, rest: string)
    ensures Lines(Indent(level + 1) + x + (if last then [] else ",\n" + others), level, ']', rest) ==
            Indent(level + 1) +
            (x + if last then LastLine(level, ']', rest) else MoreLines(Lines(others, level, ']', rest)))
  {
  }

  lemma {:induction false} DictRoundTrip(fields: seq<Field>, level: nat, rest: string)
    requires WellFormed(Dict(fields))
    ensures ParseValue(Print(Dict(fields), level) + rest) == Some((Canon(Dict(fields)), rest))
    decreases SizeFields(fields), 1
  {
    if fields == [] {
      assert ("{}" + rest)[1..] == "}" + rest;
      assert ("}" + rest)[1..] == rest;
    } else {
      var sorted := SortFields(fields);
      SortSorts(fields);
      SortedAreDistinct(sorted);
      WellFormedSorted(fields);
      var lines := PrintFields(sorted, level);
      EncloseRest('{', lines, level, '}', rest);
      NewlineSkips(Lines(lines, level, '}', rest));
      FieldsRoundTrip(sorted, level, rest);
    }
  }

  lemma {:induction false} SortedAreDistinct(fields: seq<Field>)
    requires SortedFields(fields)
    ensures DistinctKeys(fields) && DistinctKeys(CanonFields(fields))
  {
    forall i, j | 0 <= i < j < |fields| ensures fields[i].key != fields[j].key {
      LessIsTotal(fields[i].key, fields[i].key);
    }
  }

  lemma {:induction false} WellFormedMembers(fields: seq<Field>)
    ensures WellFormedFields(fields) <==> forall f :: f in fields ==> WellFormed(f.value)
  {
    if fields != [] {
      WellFormedMembers(fields[1..]);
      assert fields == [fields[0]] + fields[1..];
    }
  }

  lemma {:induction false} WellFormedSorted(fields: seq<Field>)
    requires WellFormedFields(fields)
    ensures WellFormedFields(SortFields(fields))
  {
    WellFormedMembers(fields);
    WellFormedMembers(SortFields(fields));
    forall f | f in SortFields(fields) ensures f in fields {
      assert f in multiset(SortFields(fields));
    }
  }

  /** The lines of a dictionary from its first key on, without their indentation. */
  function FieldsText(fields: seq<Field>, level: nat, rest: string): string {
    SkipSpace(Lines(PrintFields(fields, level), level, '}', rest))
  }

  lemma {:induction false} FieldsRoundTrip(fields: seq<Field>, level: nat, rest: string)
    requires WellFormedFields(fields) && fields != []
    ensures var s := FieldsText(fields, level, rest); s != [] && s[0] != '}'
    ensures ParseFields(FieldsText(fields, level, rest)) == Some((CanonFields(fields), rest))
    decreases SizeFields(fields), 0
  {
    var first := Field(fields[0].key, Canon(fields[0].value));
    if |fields| == 1 {
      var tail := LastLine(level, '}', rest);
      FirstField(fields, level, rest, tail);
      FieldRoundTrip(fields[0], level, tail);
      AtLastLine(level, '}', rest);
      ParseLastField(FieldsText(fields, level, rest), first, tail);
      assert CanonFields(fields) == [first];
    } else {
      var tail := MoreLines(Lines(PrintFields(fields[1..], level), level, '}', rest));
      FirstField(fields, level, rest, tail);
      FieldRoundTrip(fields[0], level, tail);
      AtMoreLines(Lines(PrintFields(fields[1..], level), level, '}', rest));
      FieldsRoundTrip(fields[1..], level, rest);
      ParseMoreFields(FieldsText(fields, level, rest), first, tail, CanonFields(fields[1..]), rest);
    }
  }

  function FieldText(f: Field, level: nat, tail: string): string {
    Quoted(f.key) + (": " + (Print(f.value, level + 1) + tail))
  }

  lemma {:induction false} FieldRoundTrip(f: Field, level: nat, tail: string)
    requires WellFormed(f.value) && Boundary(tail)
    ensures ParseField(FieldText(f, level, tail)) == Some((Field(f.key, Canon(f.value)), tail))
    decreases Size(f.value), 2
  {
    var x := Print(f.value, level + 1);
    PrintStarts(f.value, level + 1);
    PrintRoundTrip(f.value, level + 1, tail);
    KeyRoundTrip(f.key, x + tail, Canon(f.value), tail);
  }

  lemma {:induction false} KeyText(key: string, after: string)
    ensures var text := Quoted(key) + after;
            text != [] && text[0] == '"' && text[1..] == Escape(key) + "\"" + after
  {
  }

  lemma {:induction false} KeyRoundTrip(key: string, s: string, v: Json, w: string)
    requires s != [] && !IsSpace(s[0]) && ParseValue(s) == Some((v, w))
    ensures ParseField(Quoted(key) + (": " + s)) == Some((Field(key, v), w))
  {
    var after := ": " + s;
    KeyText(key, after);
    CharsRoundTrip(key, after);
    ColonSkips(s);
    ParseAfterKey(Quoted(key) + after, key, after, v, w);
  }

  lemma {:induction false} ColonSkips(s: string)
    requires s != [] && !IsSpace(s[0])
    ensures SkipSpace(": " + s) == ": " + s
    ensures SkipSpace((": " + s)[1..]) == s
  {
    assert (": " + s)[1..] == " " + s;
    assert (" " + s)[1..] == s;
  }

  lemma {:induction false} FirstField(fields: seq<Field>, level: nat, rest: string, tail: string)
    requires fields != []
    requires tail == if |fields| == 1 then LastLine(level, '}', rest)
                     else MoreLines(Lines(PrintFields(fields[1..], level), level, '}', rest))
    ensures FieldsText(fields, level, rest) == FieldText(fields[0], level, tail)
    ensures FieldText(fields[0], level, tail)[0] == '"'
  {
    var q, x := Quoted(fields[0].key), Print(fields[0].value, level + 1);
    var others := PrintFields(fields[1..], level);
    FirstFieldLines(q, x, others, |fields| == 1, level, rest);
    assert PrintField(fields[0], level) == Indent(level + 1) + ((q + ": ") + x);
    assert PrintFields(fields, level) ==
           (Indent(level + 1) + ((q + ": ") + x)) + (if |fields| == 1 then [] else ",\n" + others);
    SkipIndent(level + 1, q + (": " + (x + tail)));
  }

  /** Concatenation regrouped. */
  lemma {:induction false} FirstFieldLines(q: string, x: string, others: string, last: bool, level: nat, rest: string)
    ensures var tail := if last then LastLine(level, '}', rest) else MoreLines(Lines(others, level, '}', rest));
            Lines((Indent(level + 1) + ((q + ": ") + x)) + (if last then [] else ",\n" + others), level, '}', rest) ==
            Indent(level + 1) + (q + (": " + (x + tail)))
  {
    var i, end := Indent(level + 1), LastLine(level, '}', rest);
    if last {
      Regroup(i, q, ": ", x, [], end);
      assert [] + end == end;
    } else {
      Regroup(i, q, ": ", x, ",\n" + others, end);
      assert (",\n" + others) + end == ",\n" + (others + end);
    }
  }

  lemma {:induction false} Regroup(a: string, b: string, c: string, d: string, e: string, f: string)
    ensures ((a + ((b + c) + d)) + e) + f == a + (b + (c + (d + (e + f))))
  {
  }
}
