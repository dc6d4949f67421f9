/**
 The length of a key in bytes is that of its UTF-8 encoding (RFC 3629, section 3),
 which decodes to the key again.
 */
module JsonUtf8 {
  import opened Bytes
  import opened Options
  import opened JsonValue
  import opened JsonComplexity

  function Continued(n: nat): char
    requires n < 64
  {
    (0x80 + n) as char
  }

  function EncodeChar(c: char): Bytes {
    var n := c as int;
    if n < 0x80 then [c]
    else if n < 0x800 then [(0xC0 + n / 64) as char, Continued(n % 64)]
    else if n < 0x10000 then [(0xE0 + n / 4096) as char, Continued(n / 64 % 64), Continued(n % 64)]
    else [(0xF0 + n / 0x40000) as char, Continued(n / 4096 % 64), Continued(n / 64 % 64), Continued(n % 64)]
  }

  function Encode(s: string): Bytes {
    if s == [] then [] else EncodeChar(s[0]) + Encode(s[1..])
  }

  /** The number that the bytes of one character stand for, and how many they are: the
      first byte tells. */
  function DecodeOne(b: Bytes): Option<(int, nat)> {
    if b == [] then None
    else
      var first := b[0] as int;
      var wide := if first < 0x80 then 1 else if first < 0xE0 then 2 else if first < 0xF0 then 3 else 4;
      if wide > |b| then None
      else if wide == 1 then Some((first, 1))
      else if wide == 2 then Some((64 * (first - 0xC0) + (b[1] as int - 0x80), 2))
      else if wide == 3 then Some((4096 * (first - 0xE0) + 64 * (b[1] as int - 0x80) + (b[2] as int - 0x80), 3))
      else Some((0x40000 * (first - 0xF0) + 4096 * (b[1] as int - 0x80) + 64 * (b[2] as int - 0x80) + (b[3] as int - 0x80), 4))
  }

  lemma {:induction false} DigitsOf(n: nat)
    ensures n == 64 * (n / 64) + n % 64
    ensures n == 4096 * (n / 4096) + 64 * (n / 64 % 64) + n % 64
    ensures n == 0x40000 * (n / 0x40000) + 4096 * (n / 4096 % 64) + 64 * (n / 64 % 64) + n % 64
  {
    var a := n / 64;
    var b := a / 64;
    assert n == 64 * a + n % 64 && a == 64 * b + a % 64 && b == 64 * (b / 64) + b % 64;
    assert b == n / 4096 && b / 64 == n / 0x40000;
  }

  lemma {:induction false} CharDecodes(c: char, rest: Bytes)
    ensures DecodeOne(EncodeChar(c) + rest) == Some((c as int, |EncodeChar(c)|))
  {
    DigitsOf(c as int);
    var e := EncodeChar(c);
    assert forall i :: 0 <= i < |e| ==> (e + rest)[i] == e[i];
  }

  function Numbers(s: string): seq<int> {
    seq(|s|, i requires 0 <= i < |s| => s[i] as int)
  }

  /** The numbers of the characters a text stands for. */
  function Decode(b: Bytes): Option<seq<int>>
    decreases |b|
  {
    if b == [] then Some([])
    else
      match DecodeOne(b)
      case None => None
      case Some((n, wide)) =>
        if wide == 0 || wide > |b| then None
        else
          match Decode(b[wide..])
          case None => None
          case Some(more) => Some([n] + more)
  }

  /** Main result: the bytes counted for a key are those of an encoding from which the
      key can be read back. */
  lemma {:induction false} LengthIsOfEncoding(key: string)
    ensures |Encode(key)| == Utf8Length(key) && Decode(Encode(key)) == Some(Numbers(key))
  {
    if key != [] {
      var e, rest := EncodeChar(key[0]), Encode(key[1..]);
      LengthIsOfEncoding(key[1..]);
      CharDecodes(key[0], rest);
      assert (e + rest)[|e|..] == rest;
      assert Numbers(key) == [key[0] as int] + Numbers(key[1..]);
    } else {
      assert Numbers(key) == [];
    }
  }

  // ---- the longest key

  /** The dictionaries of a value hold this key, at some depth. */
  ghost predicate HasKey(v: Json, key: string)
    decreases v
  {
    match v
    case List(items) => exists i :: 0 <= i < |items| && HasKey(items[i], key)
    case Dict(fields) => exists i :: 0 <= i < |fields| && (fields[i].key == key || HasKey(fields[i].value, key))
    case _ => false
  }

  /** No key of the value is longer, and one is as long, if there are any. */
  ghost predicate IsLongest(v: Json, n: int) {
    && (forall key :: HasKey(v, key) ==> |Encode(key)| <= n)
    && (n == -1 || exists key :: HasKey(v, key) && |Encode(key)| == n)
  }

  lemma {:induction false} KeyOfItems(items: seq<Json>, key: string)
    requires items != []
    ensures HasKey(List(items), key) <==> HasKey(items[0], key) || HasKey(List(items[1..]), key)
  {
    var rest := items[1..];
    if HasKey(List(items), key) {
      var i :| 0 <= i < |items| && HasKey(items[i], key);
      assert i > 0 ==> rest[i - 1] == items[i];
    }
    if HasKey(List(rest), key) {
      var i :| 0 <= i < |rest| && HasKey(rest[i], key);
      assert items[i + 1] == rest[i];
    }
  }

  lemma {:induction false} KeyOfFields(fields: seq<Field>, key: string)
    requires fields != []
    ensures HasKey(Dict(fields), key) <==>
            fields[0].key == key || HasKey(fields[0].value, key) || HasKey(Dict(fields[1..]), key)
  {
    var rest := fields[1..];
    if HasKey(Dict(fields), key) {
      var i :| 0 <= i < |fields| && (fields[i].key == key || HasKey(fields[i].value, key));
      assert i > 0 ==> rest[i - 1] == fields[i];
    }
    if HasKey(Dict(rest), key) {
      var i :| 0 <= i < |rest| && (rest[i].key == key || HasKey(rest[i].value, key));
      assert fields[i + 1] == rest[i];
    }
  }

  /** Main result: the tree check goes by the longest key of the value, at any depth, in
      bytes of its encoding. */
  lemma {:induction false} LongestKeyIsLongest(v: Json)
    ensures IsLongest(v, LongestKey(v))
    decreases v, 1
  {
    match v {
      case List(items) => LongestInItems(items);
      case Dict(fields) => LongestInFields(fields);
      case _ =>
    }
  }

  lemma {:induction false} LongestInItems(items: seq<Json>)
    ensures IsLongest(List(items), LongestKeyInItems(items))
    decreases items, 0
  {
    if items != [] {
      LongestKeyIsLongest(items[0]);
      LongestInItems(items[1..]);
      forall key ensures HasKey(List(items), key) <==> HasKey(items[0], key) || HasKey(List(items[1..]), key) {
        KeyOfItems(items, key);
      }
    }
  }

  lemma {:induction false} LongestInFields(fields: seq<Field>)
    ensures IsLongest(Dict(fields), LongestKeyInFields(fields))
    decreases fields, 0
  {
    if fields != [] {
      var f := fields[0];
      LongestKeyIsLongest(f.value);
      LongestInFields(fields[1..]);
      LengthIsOfEncoding(f.key);
      forall key
        ensures HasKey(Dict(fields), key) <==> f.key == key || HasKey(f.value, key) || HasKey(Dict(fields[1..]), key)
      {
        KeyOfFields(fields, key);
      }
    }
  }
}
