/**
 What an accepted array is, whatever decodes its elements: the elements that were given
 out, with commas between them, brackets around them and white space in between.
 */
module JsonArrayShape {
  import opened Bytes
  import opened JsonText
  import opened JsonFramer
  import opened JsonArray

  ghost predicate Spaces(s: Bytes) {
    forall i :: 0 <= i < |s| ==> IsSpace(s[i])
  }

  /** White space, then `next`. */
  ghost predicate Leads(text: Bytes, next: Bytes) {
    exists gap :: Spaces(gap) && text == gap + next
  }

  /** `text` is the elements, each followed by white space and a comma or, after the last
      one, a bracket with nothing but white space after it. */
  ghost predicate Lists(text: Bytes, elements: seq<Bytes>)
    decreases |elements|, 0
  {
    elements != [] &&
    exists rest: Bytes :: ListsFirst(text, elements[0], rest) &&
      if |elements| == 1 then rest[0] == ']' && Spaces(rest[1..])
      else rest[0] == ',' && ListsOthers(rest[1..], elements[1..])
  }

  ghost predicate ListsFirst(text: Bytes, element: Bytes, rest: Bytes) {
    rest != [] && element <= text && Leads(text[|element|..], rest)
  }

  ghost predicate ListsOthers(text: Bytes, elements: seq<Bytes>)
    decreases |elements|, 1
  {
    exists next: Bytes :: Leads(text, next) && Lists(next, elements)
  }

  ghost predicate IsArray(text: Bytes, elements: seq<Bytes>) {
    exists rest, body: Bytes :: Leads(text, "[" + rest) && Leads(rest, body) &&
      if elements == [] then body != [] && body[0] == ']' && Spaces(body[1..]) else Lists(body, elements)
  }

  /** An element that can be given out. */
  predicate GivenOut(lim: ArrayLimits, decodes: Bytes -> bool, e: Bytes) {
    e != [] && !IsSpace(e[|e| - 1]) && |e| <= lim.frame.maxElementBytes && decodes(e)
  }

  lemma {:induction false} SkipSpaceLeads(s: Bytes)
    ensures Leads(s, SkipSpace(s)) && (SkipSpace(s) == [] ==> Spaces(s))
  {
    if s != [] && IsSpace(s[0]) {
      SkipSpaceLeads(s[1..]);
      var gap :| Spaces(gap) && s[1..] == gap + SkipSpace(s);
      assert s == ([s[0]] + gap) + SkipSpace(s) && Spaces([s[0]] + gap);
    } else {
      assert s == [] + s && Spaces([]);
    }
  }

  lemma {:induction false} TrimmedLeads(raw: Bytes)
    ensures var e := Trimmed(raw); e <= raw && Spaces(raw[|e|..]) && (e != [] ==> !IsSpace(e[|e| - 1]))
  {
    if raw != [] && IsSpace(raw[|raw| - 1]) {
      TrimmedLeads(raw[..|raw| - 1]);
    }
  }

  /** A framed element is cut out of the input as it stands. */
  lemma {:induction false} FramingCuts(lim: FrameLimits, s: FrameState, input: Bytes, raw: Bytes)
    requires FrameFrom(lim, s, input, raw).Some?
    ensures var f := FrameFrom(lim, s, input, raw).value;
            && raw + input == f.raw + ([f.delimiter] + f.rest)
            && |f.raw| <= lim.maxElementBytes && (f.delimiter == ',' || f.delimiter == ']')
    decreases |input|
  {
    if EndsElement(s, input[0]) {
      assert input == [input[0]] + input[1..];
    } else {
      FramingCuts(lim, FrameStep(lim, s, input[0]).value, input[1..], raw + [input[0]]);
      assert (raw + [input[0]]) + input[1..] == raw + input;
    }
  }

  lemma {:induction false} FirstIsCut(text: Bytes, raw: Bytes, rest: Bytes)
    requires text == raw + rest && rest != []
    ensures ListsFirst(text, Trimmed(raw), rest)
  {
    var e := Trimmed(raw);
    TrimmedLeads(raw);
    assert text[|e|..] == raw[|e|..] + rest;
  }

  lemma {:induction false} LastIsListed(text: Bytes, e: Bytes, rest: Bytes)
    requires ListsFirst(text, e, rest) && rest[0] == ']' && Spaces(rest[1..])
    ensures Lists(text, [e])
  {
  }

  lemma {:induction false} MoreAreListed(text: Bytes, e: Bytes, rest: Bytes, next: Bytes, others: seq<Bytes>)
    requires ListsFirst(text, e, rest) && rest[0] == ',' && Leads(rest[1..], next) && Lists(next, others)
    ensures Lists(text, [e] + others)
  {
    assert ([e] + others)[1..] == others;
    assert ListsOthers(rest[1..], others);
  }

  /** One element framed, and what is left of the input after the byte that ended it. */
  lemma {:induction false} FramedIsListed(lim: FrameLimits, input: Bytes)
    requires FrameFrom(lim, FRESH, input, []).Some?
    ensures var f := FrameFrom(lim, FRESH, input, []).value; var e := Trimmed(f.raw);
            && ListsFirst(input, e, [f.delimiter] + f.rest) && ([f.delimiter] + f.rest)[1..] == f.rest
            && (f.delimiter == ',' || f.delimiter == ']') && |e| <= lim.maxElementBytes
            && (e != [] ==> !IsSpace(e[|e| - 1]))
  {
    var f := FrameFrom(lim, FRESH, input, []).value;
    FramingCuts(lim, FRESH, input, []);
    CutIsListed(input, f.raw, f.delimiter, f.rest);
  }

  lemma {:induction false} CutIsListed(input: Bytes, raw: Bytes, delimiter: char, after: Bytes)
    requires [] + input == raw + ([delimiter] + after)
    ensures var e := Trimmed(raw);
            && ListsFirst(input, e, [delimiter] + after) && ([delimiter] + after)[1..] == after
            && |e| <= |raw| && (e != [] ==> !IsSpace(e[|e| - 1]))
  {
    TrimmedLeads(raw);
    FirstIsCut(input, raw, [delimiter] + after);
  }

  lemma {:induction false} ElementsAreListed(lim: ArrayLimits, decodes: Bytes -> bool, input: Bytes, count: nat)
    requires Elements(lim, decodes, input, count).Some?
    ensures var es := Elements(lim, decodes, input, count).value;
            && Lists(input, es) && count + |es| <= lim.maxItems
            && forall e :: e in es ==> GivenOut(lim, decodes, e)
    decreases |input|
  {
    FramedIsShorter(lim.frame, FRESH, input, []);
    FramedIsListed(lim.frame, input);
    var f := FrameFrom(lim.frame, FRESH, input, []).value;
    var e, rest := Trimmed(f.raw), [f.delimiter] + f.rest;
    SkipSpaceLeads(f.rest);
    if f.delimiter == ',' {
      var next := SkipSpace(f.rest);
      ElementsAreListed(lim, decodes, next, count + 1);
      var others := Elements(lim, decodes, next, count + 1).value;
      MoreAreListed(input, e, rest, next, others);
      assert Elements(lim, decodes, input, count).value == [e] + others;
    } else {
      LastIsListed(input, e, rest);
    }
  }

  /**
   Main result: an accepted array holds the elements given out, in order, and besides
   them only its brackets, commas between them and white space; each element decodes and
   is within the limit, and there are not too many.
   */
  lemma {:induction false} AcceptedIsArray(lim: ArrayLimits, decodes: Bytes -> bool, input: Bytes)
    requires ArrayOf(lim, decodes, input).Some?
    ensures var es := ArrayOf(lim, decodes, input).value;
            && IsArray(input, es) && |es| <= lim.maxItems && lim.Positive()
            && forall e :: e in es ==> GivenOut(lim, decodes, e)
  {
    var s := SkipSpace(input);
    var t := SkipSpace(s[1..]);
    SkipSpaceLeads(input);
    SkipSpaceLeads(s[1..]);
    assert s == "[" + s[1..];
    SkipSpaceLeads(t[1..]);
    if t[0] != ']' {
      ElementsAreListed(lim, decodes, t, 0);
    }
  }
}
