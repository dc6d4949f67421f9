/** The canonical JSON printer: two-space indent, sorted keys, ASCII only. */
module JsonPrinter {
  import opened Bytes
  import opened JsonValue

  /** Characters of a string escaped at a time. */
  const PIECE: nat := 64 * 1024

  function Digits(n: nat): (r: string)
    ensures r != []
    ensures forall c :: c in r ==> '0' <= c <= '9'
    ensures r[0] == '0' <==> n == 0
    ensures n == 0 ==> r == "0"
  {
    if n < 10 then [('0' as int + n) as char]
    else Digits(n / 10) + [('0' as int + n % 10) as char]
  }

  function Decimal(n: int): string {
    if n < 0 then "-" + Digits(-n) else Digits(n)
  }

  function HexDigit(n: nat): (c: char)
    requires n < 16
    ensures '0' <= c <= '9' || 'a' <= c <= 'f'
  {
    if n < 10 then ('0' as int + n) as char else ('a' as int + n - 10) as char
  }

  function UnicodeEscape(n: nat): (r: string)
    requires n < 0x10000
    ensures |r| == 6
  {
    ['\\', 'u', HexDigit(n / 4096), HexDigit(n / 256 % 16), HexDigit(n / 16 % 16), HexDigit(n % 16)]
  }

  /** `encode_basestring_ascii` on one character. */
  function EscapeChar(c: char): string {
    if c == '"' then "\\\""
    else if c == '\\' then "\\\\"
    else if c == '\n' then "\\n"
    else if c == '\r' then "\\r"
    else if c == '\t' then "\\t"
    else if c == 8 as char then "\\b"
    else if c == 12 as char then "\\f"
    else if ' ' <= c <= '~' then [c]
    else if c as int < 0x10000 then UnicodeEscape(c as int)
    else
      var n := c as int - 0x10000;
      UnicodeEscape(0xD800 + n / 0x400) + UnicodeEscape(0xDC00 + n % 0x400)
  }

  function Escape(s: string): string {
    if s == [] then [] else EscapeChar(s[0]) + Escape(s[1..])
  }

  lemma {:induction false} EscapeAppends(s: string, t: string)
    ensures Escape(s + t) == Escape(s) + Escape(t)
  {
    if s == [] {
      assert s + t == t;
    } else {
      assert (s + t)[1..] == s[1..] + t;
      EscapeAppends(s[1..], t);
    }
  }

  /** The pieces `_canonical_string_chunks` yields from `s`, between the quotes. */
  function EscapedPieces(s: string): seq<Bytes> {
    if |s| <= PIECE then (if s == [] then [] else [Escape(s)])
    else [Escape(s[..PIECE])] + EscapedPieces(s[PIECE..])
  }

  function Quoted(s: string): Bytes {
    "\"" + Escape(s) + "\""
  }

  function StringChunks(s: string): seq<Bytes> {
    ["\""] + EscapedPieces(s) + ["\""]
  }

  /** Escaping piece by piece is escaping whole. */
  lemma {:induction false} PiecesAreTheWhole(s: string)
    ensures Concat(EscapedPieces(s)) == Escape(s)
  {
    if |s| > PIECE {
      PiecesAreTheWhole(s[PIECE..]);
      EscapeAppends(s[..PIECE], s[PIECE..]);
      assert s == s[..PIECE] + s[PIECE..];
    }
  }

  lemma {:induction false} StringChunksAreQuoted(s: string)
    ensures Concat(StringChunks(s)) == Quoted(s)
  {
    var quote: seq<Bytes> := ["\""];
    assert Concat(quote) == "\"";
    ConcatAppends(quote + EscapedPieces(s), quote);
    ConcatAppends(quote, EscapedPieces(s));
    PiecesAreTheWhole(s);
  }

  function Indent(level: nat): Bytes {
    if level == 0 then [] else "  " + Indent(level - 1)
  }

  /** The lines of a container between its brackets, each on a line of its own. */
  function Enclose(open: char, lines: Bytes, level: nat, close: char): Bytes {
    [open] + ("\n" + (lines + (Indent(level) + [close])))
  }

  /** `canonical_json_value_chunks`, its chunks joined. */
  function Print(v: Json, level: nat): Bytes
    decreases Size(v), 1
  {
    match v
    case Null => "null"
    case Bool(b) => if b then "true" else "false"
    case Int(n) => Decimal(n)
    case Str(s) => Quoted(s)
    case List(items) =>
      if items == [] then "[]"
      else Enclose('[', PrintItems(items, level) + "\n", level, ']')
    case Dict(fields) =>
      if fields == [] then "{}"
      else Enclose('{', PrintFields(SortFields(fields), level) + "\n", level, '}')
  }

  function PrintItems(items: seq<Json>, level: nat): Bytes
    decreases SizeItems(items), 0
  {
    if items == [] then []
    else
      Indent(level + 1) + Print(items[0], level + 1) +
      if |items| == 1 then [] else ",\n" + PrintItems(items[1..], level)
  }

  function PrintFields(fields: seq<Field>, level: nat): Bytes
    decreases SizeFields(fields), 0
  {
    if fields == [] then []
    else
      PrintField(fields[0], level) + if |fields| == 1 then [] else ",\n" + PrintFields(fields[1..], level)
  }

  function PrintField(f: Field, level: nat): Bytes
    decreases Size(f.value), 2
  {
    Indent(level + 1) + ((Quoted(f.key) + ": ") + Print(f.value, level + 1))
  }

  /** `canonical_json_array_chunks`, its chunks joined. */
  function PrintArray(values: seq<Json>): Bytes {
    (if values == [] then "[]" else Enclose('[', PrintItems(values, 0) + "\n", 0, ']')) + "\n"
  }
}
