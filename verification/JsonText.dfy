/** White space of JSON text. */
module JsonText {
  import opened Bytes

  predicate IsSpace(b: char) {
    b == ' ' || b == '\t' || b == '\r' || b == '\n'
  }

  function SkipSpace(s: Bytes): (r: Bytes)
    ensures |r| <= |s|
    ensures r != [] ==> !IsSpace(r[0])
  {
    if s != [] && IsSpace(s[0]) then SkipSpace(s[1..]) else s
  }
}
