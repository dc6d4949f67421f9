/**
 A JSON parser after sections 2 to 7 of RFC 8259, as the program configures the
 one it uses: an object that repeats a key is refused.  Fractions and exponents
 are refused too, floats not being modelled.  Parsing undoes printing.
 */
module JsonParser {
  import opened Options
  import opened JsonText
  import opened JsonValue

  // ---- strings (section 7)

  function HexValue(c: char): Option<nat> {
    if '0' <= c <= '9' then Some(c as int - '0' as int)
    else if 'a' <= c <= 'f' then Some(c as int - 'a' as int + 10)
    else if 'A' <= c <= 'F' then Some(c as int - 'A' as int + 10)
    else None
  }

  /** The code unit after `\u`. */
  function ParseUnit(s: string): (r: Option<nat>)
    ensures r.Some? ==> |s| >= 4 && r.value < 0x10000
  {
    if |s| < 4 then None
    else
      match (HexValue(s[0]), HexValue(s[1]), HexValue(s[2]), HexValue(s[3]))
      case (Some(a), Some(b), Some(c), Some(d)) =>
        HexBound(s[0]); HexBound(s[1]); HexBound(s[2]); HexBound(s[3]);
        Some(4096 * a + 256 * b + 16 * c + d)
      case _ => None
  }

  lemma {:induction false} HexBound(c: char)
    ensures HexValue(c).Some? ==> HexValue(c).value < 16
  {
  }

  /** The character an escape stands for, and what follows; `s` starts after the backslash. */
  function ParseEscape(s: string): (r: Option<(char, string)>)
    ensures r.Some? ==> |r.value.1| < |s|
  {
    if s == [] then None
    else if s[0] == '"' || s[0] == '\\' || s[0] == '/' then Some((s[0], s[1..]))
    else if s[0] == 'b' then Some((8 as char, s[1..]))
    else if s[0] == 'f' then Some((12 as char, s[1..]))
    else if s[0] == 'n' then Some(('\n', s[1..]))
    else if s[0] == 'r' then Some(('\r', s[1..]))
    else if s[0] == 't' then Some(('\t', s[1..]))
    else if s[0] != 'u' then None
    else
      match ParseUnit(s[1..])
      case None => None
      case Some(u) =>
        if !(0xD800 <= u < 0xE000) then Some((u as char, s[5..]))
        else if u >= 0xDC00 || |s| < 7 || s[5] != '\\' || s[6] != 'u' then None
        else
          match ParseUnit(s[7..])
          case None => None
          case Some(w) =>
            if 0xDC00 <= w < 0xE000
            then Some(((0x10000 + 0x400 * (u - 0xD800) + (w - 0xDC00)) as char, s[11..]))
            else None
  }

  /** The rest of a string, after its opening quote. */
  function ParseChars(s: string): (r: Option<(string, string)>)
    ensures r.Some? ==> |r.value.1| < |s|
    decreases |s|
  {
    if s == [] || s[0] < ' ' then None
    else if s[0] == '"' then Some(("", s[1..]))
    else if s[0] == '\\' then
      match ParseEscape(s[1..])
      case None => None
      case Some((c, t)) => Cons(c, ParseChars(t))
    else Cons(s[0], ParseChars(s[1..]))
  }

  function Cons(c: char, r: Option<(string, string)>): Option<(string, string)> {
    match r
    case None => None
    case Some((text, t)) => Some(([c] + text, t))
  }

  // ---- numbers (section 6, integers only)

  function CountDigits(s: string): (n: nat)
    ensures n <= |s|
  {
    if s != [] && '0' <= s[0] <= '9' then 1 + CountDigits(s[1..]) else 0
  }

  function DigitsValue(s: string): int {
    if s == [] then 0 else 10 * DigitsValue(s[..|s| - 1]) + (s[|s| - 1] as int - '0' as int)
  }

  function ParseNatural(s: string): (r: Option<(int, string)>)
    ensures r.Some? ==> |r.value.1| < |s|
  {
    var n := CountDigits(s);
    if n == 0 || (n > 1 && s[0] == '0') then None
    else if n < |s| && s[n] in ".eE" then None
    else Some((DigitsValue(s[..n]), s[n..]))
  }

  function ParseInt(s: string): (r: Option<(int, string)>)
    ensures r.Some? ==> |r.value.1| < |s|
  {
    if s != [] && s[0] == '-' then
      match ParseNatural(s[1..])
      case None => None
      case Some((n, t)) => Some((-n, t))
    else ParseNatural(s)
  }

  // ---- values (sections 2 to 5)

  predicate StartsWith(s: string, word: string) {
    |word| <= |s| && s[..|word|] == word
  }

  function ParseValue(s: string): (r: Option<(Json, string)>)
    ensures r.Some? ==> |r.value.1| < |s|
    decreases |s|, 2
  {
    if s == [] then None
    else if s[0] == '"' then
      match ParseChars(s[1..])
      case None => None
      case Some((text, t)) => Some((Str(text), t))
    else if s[0] == '[' then
      var t := SkipSpace(s[1..]);
      if t != [] && t[0] == ']' then Some((List([]), t[1..]))
      else
        match ParseItems(t)
        case None => None
        case Some((items, u)) => Some((List(items), u))
    else if s[0] == '{' then
      var t := SkipSpace(s[1..]);
      if t != [] && t[0] == '}' then Some((Dict([]), t[1..]))
      else
        match ParseFields(t)
        case None => None
        case Some((fields, u)) => if DistinctKeys(fields) then Some((Dict(fields), u)) else None
    else if s[0] == 'n' then if !StartsWith(s, "null") then None else Some((Null, s[4..]))
    else if s[0] == 't' then if !StartsWith(s, "true") then None else Some((Bool(true), s[4..]))
    else if s[0] == 'f' then if !StartsWith(s, "false") then None else Some((Bool(false), s[5..]))
    else
      match ParseInt(s)
      case None => None
      case Some((n, t)) => Some((Int(n), t))
  }

  function ParseItems(s: string): (r: Option<(seq<Json>, string)>)
    ensures r.Some? ==> |r.value.1| < |s|
    decreases |s|, 3
  {
    match ParseValue(s)
    case None => None
    case Some((v, t)) =>
      var u := SkipSpace(t);
      if u == [] then None
      else if u[0] == ']' then Some(([v], u[1..]))
      else if u[0] != ',' then None
      else
        match ParseItems(SkipSpace(u[1..]))
        case None => None
        case Some((items, w)) => Some(([v] + items, w))
  }

  function ParseField(s: string): (r: Option<(Field, string)>)
    ensures r.Some? ==> |r.value.1| < |s|
    decreases |s|, 3
  {
    if s == [] || s[0] != '"' then None
    else
      match ParseChars(s[1..])
      case None => None
      case Some((key, t)) =>
        var u := SkipSpace(t);
        if u == [] || u[0] != ':' then None
        else
          match ParseValue(SkipSpace(u[1..]))
          case None => None
          case Some((v, w)) => Some((Field(key, v), w))
  }

  function ParseFields(s: string): (r: Option<(seq<Field>, string)>)
    ensures r.Some? ==> |r.value.1| < |s|
    decreases |s|, 4
  {
    match ParseField(s)
    case None => None
    case Some((f, t)) =>
      var u := SkipSpace(t);
      if u == [] then None
      else if u[0] == '}' then Some(([f], u[1..]))
      else if u[0] != ',' then None
      else
        match ParseFields(SkipSpace(u[1..]))
        case None => None
        case Some((fields, w)) => Some(([f] + fields, w))
  }

  /** The last entry of an array. */
  lemma {:induction false} ParseLastItem(s: string, v: Json, t: string)
    requires ParseValue(s) == Some((v, t)) && SkipSpace(t) != [] && SkipSpace(t)[0] == ']'
    ensures ParseItems(s) == Some(([v], SkipSpace(t)[1..]))
  {
  }

  lemma {:induction false} ParseMoreItems(s: string, v: Json, t: string, items: seq<Json>, w: string)
    requires ParseValue(s) == Some((v, t)) && SkipSpace(t) != [] && SkipSpace(t)[0] == ','
    requires ParseItems(SkipSpace(SkipSpace(t)[1..])) == Some((items, w))
    ensures ParseItems(s) == Some(([v] + items, w))
  {
  }

  /** The last entry of an object. */
  lemma {:induction false} ParseLastField(s: string, f: Field, t: string)
    requires ParseField(s) == Some((f, t)) && SkipSpace(t) != [] && SkipSpace(t)[0] == '}'
    ensures ParseFields(s) == Some(([f], SkipSpace(t)[1..]))
  {
  }

  lemma {:induction false} ParseMoreFields(s: string, f: Field, t: string, fields: seq<Field>, w: string)
    requires ParseField(s) == Some((f, t)) && SkipSpace(t) != [] && SkipSpace(t)[0] == ','
    requires ParseFields(SkipSpace(SkipSpace(t)[1..])) == Some((fields, w))
    ensures ParseFields(s) == Some(([f] + fields, w))
  {
  }

  lemma {:induction false} ParseAfterKey(s: string, key: string, t: string, v: Json, w: string)
    requires s != [] && s[0] == '"' && ParseChars(s[1..]) == Some((key, t))
    requires SkipSpace(t) != [] && SkipSpace(t)[0] == ':'
    requires ParseValue(SkipSpace(SkipSpace(t)[1..])) == Some((v, w))
    ensures ParseField(s) == Some((Field(key, v), w))
  {
  }

  /** A whole JSON text. */
  function Parse(s: string): Option<Json> {
    match ParseValue(SkipSpace(s))
    case None => None
    case Some((v, t)) => if SkipSpace(t) == [] then Some(v) else None
  }
}
