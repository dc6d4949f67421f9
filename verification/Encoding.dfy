/** Fixed-width and length-prefixed byte encodings. */
module Encoding {
  import opened Bytes

  /** How many values `width` bytes can hold. */
  function Range(width: nat): nat {
    if width == 0 then 1 else 256 * Range(width - 1)
  }

  /** `n.to_bytes(width, "big")`. */
  function BigEndian(n: nat, width: nat): (r: Bytes)
    ensures |r| == width
  {
    if width == 0 then [] else BigEndian(n / 256, width - 1) + [(n % 256) as char]
  }

  lemma {:induction false} BigEndianIsInjective(m: nat, n: nat, width: nat)
    requires m < Range(width) && n < Range(width)
    requires BigEndian(m, width) == BigEndian(n, width)
    ensures m == n
  {
    if width > 0 {
      var a, b := BigEndian(m, width), BigEndian(n, width);
      assert a[..width - 1] == BigEndian(m / 256, width - 1);
      assert b[..width - 1] == BigEndian(n / 256, width - 1);
      assert a[width - 1] == b[width - 1];
      BigEndianIsInjective(m / 256, n / 256, width - 1);
    }
  }

  /** Two concatenations agree exactly when their parts do, the first parts being equally long. */
  lemma {:induction false} SplitAt(a: Bytes, b: Bytes, x: Bytes, y: Bytes)
    requires |a| == |b|
    ensures a + x == b + y <==> a == b && x == y
  {
    if a + x == b + y {
      assert a == (a + x)[..|a|] && b == (b + y)[..|b|];
      assert x == (a + x)[|a|..] && y == (b + y)[|b|..];
    }
  }

  lemma {:induction false} AppendsRegroup(a: Bytes, b: Bytes, c: Bytes)
    ensures (a + b) + c == a + (b + c)
  {
  }

  /** A field with its length before it, followed by anything, is unambiguous. */
  lemma {:induction false} FieldTells(a: Bytes, b: Bytes, width: nat, x: Bytes, y: Bytes)
    requires |a| < Range(width) && |b| < Range(width)
    requires (BigEndian(|a|, width) + a) + x == (BigEndian(|b|, width) + b) + y
    ensures a == b && x == y
  {
    var m, n := BigEndian(|a|, width), BigEndian(|b|, width);
    AppendsRegroup(m, a, x);
    AppendsRegroup(n, b, y);
    SplitAt(m, n, a + x, b + y);
    BigEndianIsInjective(|a|, |b|, width);
    SplitAt(a, b, x, y);
  }
}
