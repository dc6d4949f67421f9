/**
 What a canonical printing looks like, said without levels: what a container holds is
 printed as if it stood alone, and moved two spaces to the right.
 */
module JsonPretty {
  import opened Bytes
  import opened JsonValue
  import opened JsonPrinter
  import opened JsonLimits
  import opened JsonParser
  import opened Options

  /** Every line but the first moved two spaces to the right. */
  function Shift(s: Bytes): Bytes {
    if s == [] then [] else (if s[0] == '\n' then "\n  " else [s[0]]) + Shift(s[1..])
  }

  /** `json.dumps(v, indent=2, sort_keys=True)`. */
  function Pretty(v: Json): Bytes
    decreases Size(v), 1
  {
    match v
    case Null => "null"
    case Bool(b) => if b then "true" else "false"
    case Int(n) => Decimal(n)
    case Str(s) => Quoted(s)
    case List(items) =>
      if items == [] then "[]" else "[" + (Shift("\n" + PrettyItems(items)) + "\n]")
    case Dict(fields) =>
      if fields == [] then "{}" else "{" + (Shift("\n" + PrettyFields(SortFields(fields))) + "\n}")
  }

  function PrettyItems(items: seq<Json>): Bytes
    decreases SizeItems(items), 0
  {
    if items == [] then []
    else Pretty(items[0]) + if |items| == 1 then [] else ",\n" + PrettyItems(items[1..])
  }

  function PrettyFields(fields: seq<Field>): Bytes
    decreases SizeFields(fields), 0
  {
    if fields == [] then []
    else
      ((Quoted(fields[0].key) + ": ") + Pretty(fields[0].value))
      + if |fields| == 1 then [] else ",\n" + PrettyFields(fields[1..])
  }

  lemma {:induction false} ShiftAppends(a: Bytes, b: Bytes)
    ensures Shift(a + b) == Shift(a) + Shift(b)
  {
    if a == [] {
      assert a + b == b;
    } else {
      ShiftAppends(a[1..], b);
      assert (a + b)[0] == a[0] && (a + b)[1..] == a[1..] + b;
      Regrouped(if a[0] == '\n' then "\n  " else [a[0]], Shift(a[1..]), Shift(b));
    }
  }

  lemma {:induction false} OneLineStays(s: Bytes)
    requires forall i :: 0 <= i < |s| ==> s[i] != '\n'
    ensures Shift(s) == s
  {
    if s != [] {
      OneLineStays(s[1..]);
    }
  }

  lemma {:induction false} NewLineShifts(s: Bytes)
    ensures Shift("\n" + s) == "\n" + ("  " + Shift(s))
  {
    assert ("\n" + s)[1..] == s;
  }

  lemma {:induction false} EscapeIsOneLine(s: string)
    ensures forall i :: 0 <= i < |Escape(s)| ==> Escape(s)[i] != '\n'
  {
    if s != [] {
      EscapeIsOneLine(s[1..]);
      EscapeCharIsOneLine(s[0]);
    }
  }

  lemma {:induction false} EscapeCharIsOneLine(c: char)
    ensures forall i :: 0 <= i < |EscapeChar(c)| ==> EscapeChar(c)[i] != '\n'
  {
  }

  lemma {:induction false} QuotedStays(s: string)
    ensures Shift(Quoted(s)) == Quoted(s)
  {
    EscapeIsOneLine(s);
    OneLineStays(Quoted(s));
  }

  lemma {:induction false} DecimalStays(n: int)
    ensures Shift(Decimal(n)) == Decimal(n)
  {
    DigitsAreDigits(n);
    OneLineStays(Decimal(n));
  }

  lemma {:induction false} IndentStays(level: nat)
    ensures Shift(Indent(level)) == Indent(level)
    ensures "  " + Indent(level) == Indent(level + 1)
  {
    if level > 0 {
      IndentStays(level - 1);
      ShiftAppends("  ", Indent(level - 1));
    }
    OneLineStays("  ");
  }

  lemma {:induction false} Regrouped(a: Bytes, b: Bytes, c: Bytes)
    ensures a + (b + c) == (a + b) + c
  {
  }

  /** A line that is indented, and what follows it. */
  lemma {:induction false} LineShifts(level: nat, text: Bytes)
    ensures Shift("\n" + (Indent(level) + text)) == "\n" + (Indent(level + 1) + Shift(text))
  {
    var i := Indent(level);
    NewLineShifts(i + text);
    ShiftAppends(i, text);
    IndentStays(level);
    Regrouped("  ", i, Shift(text));
  }

  lemma {:induction false} SeparatorShifts(rest: Bytes)
    ensures Shift(",\n" + rest) == "," + Shift("\n" + rest)
  {
    assert ",\n" + rest == "," + ("\n" + rest);
    ShiftAppends(",", "\n" + rest);
    OneLineStays(",");
  }

  // ---- one level deeper is one shift

  lemma {:induction false} DeeperIsShifted(v: Json, level: nat)
    ensures Print(v, level + 1) == Shift(Print(v, level))
    decreases Size(v), 1
  {
    match v {
      case Null => OneLineStays("null");
      case Bool(b) => OneLineStays(if b then "true" else "false");
      case Int(n) => DecimalStays(n);
      case Str(s) => QuotedStays(s);
      case List(items) =>
        if items == [] {
          OneLineStays("[]");
        } else {
          ItemsShift(items, level);
          EncloseShifts('[', PrintItems(items, level), PrintItems(items, level + 1), level, ']');
        }
      case Dict(fields) =>
        if fields == [] {
          OneLineStays("{}");
        } else {
          FieldsShift(SortFields(fields), level);
          EncloseShifts('{', PrintFields(SortFields(fields), level), PrintFields(SortFields(fields), level + 1), level, '}');
        }
    }
  }

  lemma {:induction false} EncloseIs(open: char, lines: Bytes, level: nat, close: char)
    ensures Enclose(open, lines + "\n", level, close) == [open] + (("\n" + lines) + ("\n" + (Indent(level) + [close])))
  {
  }

  lemma {:induction false} EncloseShifts(open: char, lines: Bytes, deeper: Bytes, level: nat, close: char)
    requires "\n" + deeper == Shift("\n" + lines) && open != '\n' && close != '\n'
    ensures Enclose(open, deeper + "\n", level + 1, close) == Shift(Enclose(open, lines + "\n", level, close))
  {
    var a, b := "\n" + lines, "\n" + (Indent(level) + [close]);
    EncloseIs(open, lines, level, close);
    EncloseIs(open, deeper, level + 1, close);
    ShiftAppends([open], a + b);
    ShiftAppends(a, b);
    OneLineStays([open]);
    OneLineStays([close]);
    LineShifts(level, [close]);
  }

  /** What follows an entry: nothing after the last one, or the other lines. */
  function Others(last: bool, lines: Bytes): Bytes {
    if last then [] else ",\n" + lines
  }

  /** One entry, and the others if there are any. */
  lemma {:induction false} EntryShifts(level: nat, entry: Bytes, deeper: Bytes, last: bool, lines: Bytes, more: Bytes)
    requires deeper == Shift(entry) && (!last ==> "\n" + more == Shift("\n" + lines))
    ensures "\n" + ((Indent(level + 1) + deeper) + Others(last, more)) ==
            Shift("\n" + ((Indent(level) + entry) + Others(last, lines)))
  {
    var rest, rests := Others(last, lines), Others(last, more);
    assert (Indent(level) + entry) + rest == Indent(level) + (entry + rest);
    assert (Indent(level + 1) + deeper) + rests == Indent(level + 1) + (deeper + rests);
    LineShifts(level, entry + rest);
    ShiftAppends(entry, rest);
    if !last {
      SeparatorShifts(lines);
      assert rests == "," + ("\n" + more);
    }
  }

  /** The lines of some items after the first. */
  function OtherItems(items: seq<Json>, level: nat): Bytes
    requires items != []
  {
    PrintItems(items[1..], level)
  }

  lemma {:induction false} ItemsSplit(items: seq<Json>, level: nat)
    requires items != []
    ensures PrintItems(items, level) ==
            (Indent(level + 1) + Print(items[0], level + 1)) + Others(|items| == 1, OtherItems(items, level))
  {
  }

  lemma {:induction false} ItemsShift(items: seq<Json>, level: nat)
    requires items != []
    ensures "\n" + PrintItems(items, level + 1) == Shift("\n" + PrintItems(items, level))
    decreases SizeItems(items), 0
  {
    DeeperIsShifted(items[0], level + 1);
    if |items| > 1 {
      ItemsShift(items[1..], level);
    }
    ItemsSplit(items, level);
    ItemsSplit(items, level + 1);
    EntryShifts(level + 1, Print(items[0], level + 1), Print(items[0], level + 2), |items| == 1,
                OtherItems(items, level), OtherItems(items, level + 1));
  }

  lemma {:induction false} NameShifts(key: string, value: Bytes)
    ensures Shift((Quoted(key) + ": ") + value) == (Quoted(key) + ": ") + Shift(value)
  {
    ShiftAppends(Quoted(key) + ": ", value);
    ShiftAppends(Quoted(key), ": ");
    QuotedStays(key);
    OneLineStays(": ");
  }

  function OtherFields(fields: seq<Field>, level: nat): Bytes
    requires fields != []
  {
    PrintFields(fields[1..], level)
  }

  lemma {:induction false} FieldsSplit(fields: seq<Field>, level: nat)
    requires fields != []
    ensures PrintFields(fields, level) ==
            (Indent(level + 1) + ((Quoted(fields[0].key) + ": ") + Print(fields[0].value, level + 1)))
            + Others(|fields| == 1, OtherFields(fields, level))
  {
  }

  lemma {:induction false} FieldsShift(fields: seq<Field>, level: nat)
    requires fields != []
    ensures "\n" + PrintFields(fields, level + 1) == Shift("\n" + PrintFields(fields, level))
    decreases SizeFields(fields), 0
  {
    var f := fields[0];
    DeeperIsShifted(f.value, level + 1);
    NameShifts(f.key, Print(f.value, level + 1));
    if |fields| > 1 {
      FieldsShift(fields[1..], level);
    }
    FieldsSplit(fields, level);
    FieldsSplit(fields, level + 1);
    EntryShifts(level + 1, (Quoted(f.key) + ": ") + Print(f.value, level + 1),
                (Quoted(f.key) + ": ") + Print(f.value, level + 2), |fields| == 1,
                OtherFields(fields, level), OtherFields(fields, level + 1));
  }

  // ---- the printing is the pretty one

  lemma {:induction false} NoIndent(top: nat, text: Bytes)
    requires top == 0
    ensures Indent(top) + text == text
  {
  }

  lemma {:induction false} EncloseIsPretty(top: nat, open: char, lines: Bytes, pretty: Bytes, close: char)
    requires top == 0 && "\n" + lines == Shift("\n" + pretty)
    ensures Enclose(open, lines + "\n", top, close) == [open] + (Shift("\n" + pretty) + ("\n" + [close]))
  {
    EncloseIs(open, lines, top, close);
    NoIndent(top, [close]);
  }

  lemma {:induction false} TopIsPretty(v: Json, top: nat)
    requires top == 0
    ensures Print(v, top) == Pretty(v)
    decreases Size(v), 1
  {
    match v {
      case List(items) =>
        if items != [] {
          ItemsArePretty(items, top);
          EncloseIsPretty(top, '[', PrintItems(items, top), PrettyItems(items), ']');
        }
      case Dict(fields) =>
        if fields != [] {
          var sorted := SortFields(fields);
          FieldsArePretty(sorted, top);
          EncloseIsPretty(top, '{', PrintFields(sorted, top), PrettyFields(sorted), '}');
        }
      case _ =>
    }
  }

  /** Main result: the canonical printing of a value is what `Pretty` says. */
  lemma {:induction false} PrintIsPretty(v: Json)
    ensures Print(v, 0) == Pretty(v)
  {
    TopIsPretty(v, 0);
  }

  /** One entry printed one level deeper, and the others if there are any. */
  lemma {:induction false} EntryIsPretty(top: nat, entry: Bytes, last: bool, lines: Bytes, more: Bytes)
    requires top == 0 && (!last ==> "\n" + more == Shift("\n" + lines))
    ensures "\n" + ((Indent(top + 1) + Shift(entry)) + Others(last, more)) == Shift("\n" + (entry + Others(last, lines)))
  {
    NoIndent(top, entry);
    EntryShifts(top, entry, Shift(entry), last, lines, more);
  }

  lemma {:induction false} PrettyItemsSplit(items: seq<Json>)
    requires items != []
    ensures PrettyItems(items) == Pretty(items[0]) + Others(|items| == 1, PrettyItems(items[1..]))
  {
  }

  lemma {:induction false} ItemsArePretty(items: seq<Json>, top: nat)
    requires items != [] && top == 0
    ensures "\n" + PrintItems(items, top) == Shift("\n" + PrettyItems(items))
    decreases SizeItems(items), 0
  {
    TopIsPretty(items[0], top);
    DeeperIsShifted(items[0], top);
    if |items| > 1 {
      ItemsArePretty(items[1..], top);
    }
    ItemsSplit(items, top);
    PrettyItemsSplit(items);
    EntryIsPretty(top, Pretty(items[0]), |items| == 1, PrettyItems(items[1..]), OtherItems(items, top));
  }

  lemma {:induction false} PrettyFieldsSplit(fields: seq<Field>)
    requires fields != []
    ensures PrettyFields(fields) ==
            ((Quoted(fields[0].key) + ": ") + Pretty(fields[0].value)) + Others(|fields| == 1, PrettyFields(fields[1..]))
  {
  }

  lemma {:induction false} FieldsArePretty(fields: seq<Field>, top: nat)
    requires fields != [] && top == 0
    ensures "\n" + PrintFields(fields, top) == Shift("\n" + PrettyFields(fields))
    decreases SizeFields(fields), 0
  {
    var f := fields[0];
    TopIsPretty(f.value, top);
    DeeperIsShifted(f.value, top);
    NameShifts(f.key, Pretty(f.value));
    if |fields| > 1 {
      FieldsArePretty(fields[1..], top);
    }
    FieldsSplit(fields, top);
    PrettyFieldsSplit(fields);
    EntryIsPretty(top, (Quoted(f.key) + ": ") + Pretty(f.value), |fields| == 1, PrettyFields(fields[1..]), OtherFields(fields, top));
  }

  /** An array is printed as the list of its values, with a line end. */
  lemma {:induction false} ArrayIsPretty(values: seq<Json>)
    ensures PrintArray(values) == Pretty(List(values)) + "\n"
  {
    PrintIsPretty(List(values));
  }

  // ---- strings

  predicate IsPrintable(s: Bytes) {
    forall i :: 0 <= i < |s| ==> ' ' <= s[i] <= '~'
  }

  lemma {:induction false} EscapeIsPrintable(c: char)
    ensures IsPrintable(EscapeChar(c))
  {
  }

  /** What reads as nothing up to the quote is the quote. */
  lemma {:induction false} NothingReads(t: Bytes, rest: Bytes)
    requires ParseChars(t) == Some(("", rest))
    ensures t != [] && t[0] == '"' && t[1..] == rest
  {
  }

  /** How long an escape is that stands for a character. */
  lemma {:induction false} EscapeCosts(s: Bytes)
    requires ParseEscape(s).Some?
    ensures var (c, t) := ParseEscape(s).value; |EscapeChar(c)| + |t| <= 1 + |s|
  {
    var (c, t) := ParseEscape(s).value;
    if s[0] == 'u' {
      UnitCosts(s);
    }
  }

  lemma {:induction false} UnitCosts(s: Bytes)
    requires ParseEscape(s).Some? && s[0] == 'u'
    ensures var (c, t) := ParseEscape(s).value; (c as int < 0x10000 && |t| + 5 == |s|) || |t| + 11 == |s|
  {
  }

  /** Main result: the printed form of a character is printable, and no shorter printable
      text in its place reads as it. */
  lemma {:induction false} EscapeIsShortest(c: char, e: Bytes, rest: Bytes)
    requires IsPrintable(e) && ParseChars(e + ("\"" + rest)) == Some(([c], rest))
    ensures IsPrintable(EscapeChar(c)) && |EscapeChar(c)| <= |e|
  {
    EscapeIsPrintable(c);
    var s := e + ("\"" + rest);
    assert s[0] == if e == [] then '"' else e[0];
    if e != [] {
      FirstReads(s, c, rest);
    }
  }

  lemma {:induction false} FirstReads(s: Bytes, c: char, rest: Bytes)
    requires ParseChars(s) == Some(([c], rest)) && ' ' <= s[0] <= '~'
    ensures |s| >= 2 + |rest| && |EscapeChar(c)| <= |s| - 1 - |rest|
  {
    if s[0] == '\\' {
      var (d, t) := ParseEscape(s[1..]).value;
      EscapeCosts(s[1..]);
      var (text, after) := ParseChars(t).value;
      assert [d] + text == [c] && ([d] + text)[0] == d && ([d] + text)[1..] == text;
      NothingReads(t, rest);
    } else {
      var (text, after) := ParseChars(s[1..]).value;
      assert [s[0]] + text == [c] && ([s[0]] + text)[0] == s[0] && ([s[0]] + text)[1..] == text;
      NothingReads(s[1..], rest);
    }
  }
}
