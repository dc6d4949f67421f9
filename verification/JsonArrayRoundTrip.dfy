/**
 Framing undoes canonical array printing.  The framer is shown to follow the
 validator on any text the validator reads, so the validator's theorem on printed
 values carries over to it.
 */
module JsonArrayRoundTrip {
  import opened Bytes
  import opened Options
  import opened JsonText
  import opened JsonValue
  import opened JsonPrinter
  import opened JsonParser
  import opened JsonRoundTrip
  import opened JsonValidator
  import opened JsonLimits
  import opened JsonComplexity
  import opened JsonFramer
  import opened JsonArray
  import opened JsonMeaning

  /** The framer stands where the validator stands. */
  ghost predicate Matches(v: State, f: FrameState) {
    && f.stack == v.frames && f.tokens == v.tokens && f.nodes == v.nodes
    && match v.mode
       case Idle => f.mode == Outside
       case InString(isKey, escaped, _) => f.mode == InText(isKey, escaped)
       case InAtom(n) => f.mode == InWord(n)
  }

  ghost predicate Bracketed(v: State) {
    forall i :: 0 <= i < |v.frames| ==> v.frames[i].opening == '{' || v.frames[i].opening == '['
  }

  lemma {:induction false} StaysBracketed(vl: Limits, v: State, b: char)
    requires Bracketed(v) && Step(vl, true, v, b).Some?
    ensures Bracketed(Step(vl, true, v, b).value)
  {
    if v.mode.InAtom? && EndsAtom(b) {
      IdleStaysBracketed(vl, Finish(v), b);
    } else if v.mode.Idle? {
      IdleStaysBracketed(vl, v, b);
    }
  }

  lemma {:induction false} ValueStaysBracketed(vl: Limits, v: State, b: char)
    requires Bracketed(v) && ValueStep(vl, true, v, b).Some?
    ensures Bracketed(ValueStep(vl, true, v, b).value)
  {
  }

  lemma {:induction false} TopStaysBracketed(v: State, e: JsonValidator.Next)
    requires Bracketed(v) && v.frames != []
    ensures Bracketed(v.(frames := SetTop(v.frames, e))) && Bracketed(Pop(v))
  {
  }

  lemma {:induction false} IdleStaysBracketed(vl: Limits, v: State, b: char)
    requires Bracketed(v) && IdleStep(vl, true, v, b).Some?
    ensures Bracketed(IdleStep(vl, true, v, b).value)
  {
    if ValueStep(vl, true, v, b).Some? {
      ValueStaysBracketed(vl, v, b);
    }
    if v.frames != [] {
      TopStaysBracketed(v, Value);
      TopStaysBracketed(v, KeyOrEnd);
      TopStaysBracketed(v, ValueOrEnd);
    }
  }

  predicate SameLimits(v: Limits, f: FrameLimits) {
    && v.maxNodes == f.maxNodes && v.maxTokens == f.maxTokens && v.maxDepth == f.maxDepth
    && v.maxAtomBytes == MAX_ATOM
  }

  lemma {:induction false} IdleStepMatches(vl: Limits, fl: FrameLimits, v: State, f: FrameState, b: char)
    requires SameLimits(vl, fl) && Matches(v, f) && v.mode.Idle? && Bracketed(v)
    requires IdleStep(vl, true, v, b).Some?
    ensures !EndsElement(f, b) && OutsideStep(fl, f, b).Some?
    ensures Matches(IdleStep(vl, true, v, b).value, OutsideStep(fl, f, b).value)
  {
    if ValueStep(vl, true, v, b).Some? && !IsSpace(b) {
      ValueStepMatches(vl, fl, v, f, b);
    }
  }

  lemma {:induction false} ValueStepMatches(vl: Limits, fl: FrameLimits, v: State, f: FrameState, b: char)
    requires SameLimits(vl, fl) && Matches(v, f) && v.mode.Idle?
    requires ValueStep(vl, true, v, b).Some? && !IsSpace(b)
    ensures !EndsElement(f, b) && OutsideStep(fl, f, b).Some?
    ensures Matches(ValueStep(vl, true, v, b).value, OutsideStep(fl, f, b).value)
  {
  }

  /** Whatever byte the validator reads, the framer reads too, and the element goes on. */
  lemma {:induction false} StepMatches(vl: Limits, fl: FrameLimits, v: State, f: FrameState, b: char)
    requires SameLimits(vl, fl) && Matches(v, f) && Bracketed(v)
    requires Step(vl, true, v, b).Some?
    ensures !EndsElement(f, b) && FrameStep(fl, f, b).Some?
    ensures Matches(Step(vl, true, v, b).value, FrameStep(fl, f, b).value)
  {
    match v.mode {
      case Idle => IdleStepMatches(vl, fl, v, f, b);
      case InString(_, _, _) =>
      case InAtom(_) =>
        if EndsAtom(b) {
          IdleStepMatches(vl, fl, Finish(v), Finished(f), b);
        }
    }
  }

  lemma {:induction false} RunMatches(
      vl: Limits, fl: FrameLimits, v: State, f: FrameState, text: Bytes, rest: Bytes, raw: Bytes)
    returns (g: FrameState)
    requires SameLimits(vl, fl) && Matches(v, f) && Bracketed(v)
    requires Run(vl, true, v, text).Some?
    requires rest != []
    ensures Matches(Run(vl, true, v, text).value, g)
    ensures FrameFrom(fl, f, text + rest, raw) == FrameFrom(fl, g, rest, raw + text)
    decreases |text|
  {
    if text == [] {
      g := f;
      assert text + rest == rest && raw + text == raw;
    } else {
      StepMatches(vl, fl, v, f, text[0]);
      StaysBracketed(vl, v, text[0]);
      var w, h := Step(vl, true, v, text[0]).value, FrameStep(fl, f, text[0]).value;
      assert (text + rest)[1..] == text[1..] + rest;
      g := RunMatches(vl, fl, w, h, text[1..], rest, raw + [text[0]]);
      assert (raw + [text[0]]) + text[1..] == raw + text;
      if |raw| > fl.maxElementBytes {
        TooLong(fl, f, text + rest, raw);
        TooLong(fl, g, rest, raw + text);
      }
    }
  }

  // ---- what the validator refuses for its counts, the framer refuses too

  /** `l` lets through all that `t` does, and counts the bytes of strings alike. */
  predicate Looser(t: Limits, l: Limits) {
    && t.maxNodes <= l.maxNodes && t.maxTokens <= l.maxTokens && t.maxDepth <= l.maxDepth
    && t.maxAtomBytes <= l.maxAtomBytes && t.maxKeyBytes == l.maxKeyBytes && t.maxStringBytes == l.maxStringBytes
  }

  lemma {:induction false} IdleStepRefuses(t: Limits, l: Limits, fl: FrameLimits, v: State, f: FrameState, b: char)
    requires SameLimits(t, fl) && Looser(t, l) && Matches(v, f) && v.mode.Idle? && Bracketed(v)
    requires IdleStep(l, true, v, b).Some?
    ensures IdleStep(t, true, v, b).Some? ==> IdleStep(t, true, v, b) == IdleStep(l, true, v, b)
    ensures IdleStep(t, true, v, b).None? ==> !EndsElement(f, b) && OutsideStep(fl, f, b).None?
  {
  }

  lemma {:induction false} StepRefuses(t: Limits, l: Limits, fl: FrameLimits, v: State, f: FrameState, b: char)
    requires SameLimits(t, fl) && Looser(t, l) && Matches(v, f) && Bracketed(v)
    requires Step(l, true, v, b).Some?
    ensures Step(t, true, v, b).Some? ==> Step(t, true, v, b) == Step(l, true, v, b)
    ensures Step(t, true, v, b).None? ==> !EndsElement(f, b) && FrameStep(fl, f, b).None?
  {
    match v.mode {
      case Idle => IdleStepRefuses(t, l, fl, v, f, b);
      case InString(_, _, _) =>
      case InAtom(_) =>
        if EndsAtom(b) {
          IdleStepRefuses(t, l, fl, Finish(v), Finished(f), b);
        }
    }
  }

  lemma {:induction false} RunRefuses(
      t: Limits, l: Limits, fl: FrameLimits, v: State, f: FrameState, text: Bytes, rest: Bytes, raw: Bytes)
    requires SameLimits(t, fl) && Looser(t, l) && Matches(v, f) && Bracketed(v)
    requires Run(l, true, v, text).Some? && Run(t, true, v, text).None?
    ensures FrameFrom(fl, f, text + rest, raw) == None
    decreases |text|
  {
    StepRefuses(t, l, fl, v, f, text[0]);
    if Step(t, true, v, text[0]).Some? {
      StepMatches(t, fl, v, f, text[0]);
      StaysBracketed(t, v, text[0]);
      assert (text + rest)[1..] == text[1..] + rest;
      RunRefuses(t, l, fl, Step(t, true, v, text[0]).value, FrameStep(fl, f, text[0]).value, text[1..], rest, raw + [text[0]]);
    }
  }

  // ---- one element

  predicate CostFits(fl: FrameLimits, c: Cost) {
    c.atom <= MAX_ATOM && c.nodes <= fl.maxNodes && c.tokens <= fl.maxTokens && c.depth <= fl.maxDepth
  }

  /** An element is within the framer's limits, its raw text being `length` bytes long. */
  predicate ElementFits(fl: FrameLimits, v: Json, length: nat) {
    length <= fl.maxElementBytes && CostFits(fl, CostOf(v))
  }

  /** The validator's limits that leave the framer's to decide. */
  function Loosened(fl: FrameLimits, c: Cost): Limits {
    Limits(1, fl.maxNodes, fl.maxTokens, fl.maxDepth, c.key + 1, c.text + 1, MAX_ATOM)
  }

  /** The same, and large enough for something of cost `c`. */
  function Unlimited(fl: FrameLimits, c: Cost): Limits
    requires fl.Positive()
  {
    Limits(1, Max(fl.maxNodes, c.nodes), Max(fl.maxTokens, c.tokens), Max(fl.maxDepth, c.depth),
           c.key + 1, c.text + 1, Max(MAX_ATOM, c.atom))
  }

  /** Reading a printed value leaves the framer at the top level, with nothing open. */
  lemma {:induction false} PrintedValue(fl: FrameLimits, v: Json, level: nat, rest: Bytes) returns (g: FrameState)
    requires CostFits(fl, CostOf(v)) && rest != []
    ensures g.stack == [] && !g.mode.InText?
    ensures FrameFrom(fl, FRESH, Print(v, level) + rest, []) == FrameFrom(fl, g, rest, Print(v, level))
  {
    var vl := Loosened(fl, CostOf(v));
    AtLeastOne(v);
    TokensAtLeastNodes(v);
    PrintRun(vl, true, START, v, level);
    g := RunMatches(vl, fl, START, FRESH, Print(v, level), rest, []);
    assert [] + Print(v, level) == Print(v, level);
  }

  /** A printed value that costs too much is refused before its end. */
  lemma {:induction false} RefusedValue(fl: FrameLimits, v: Json, level: nat, rest: Bytes)
    requires fl.Positive() && !CostFits(fl, CostOf(v))
    ensures FrameFrom(fl, FRESH, Print(v, level) + rest, []) == None
  {
    var t, l := Loosened(fl, CostOf(v)), Unlimited(fl, CostOf(v));
    PrintRun(t, true, START, v, level);
    PrintRun(l, true, START, v, level);
    RunRefuses(t, l, fl, START, FRESH, Print(v, level), rest, []);
  }

  lemma {:induction false} TokensAtLeastNodes(v: Json)
    ensures CostOf(v).tokens >= 1
  {
  }

  lemma {:induction false} PrintEnds(v: Json, level: nat)
    ensures var p := Print(v, level); p != [] && !IsSpace(p[|p| - 1])
  {
    match v {
      case Int(n) =>
        DigitsAreDigits(n);
      case Str(s) =>
      case List(items) =>
        if items != [] { EncloseEnds('[', PrintItems(items, level) + "\n", level, ']'); }
      case Dict(fields) =>
        if fields != [] { EncloseEnds('{', PrintFields(SortFields(fields), level) + "\n", level, '}'); }
      case _ =>
    }
  }

  lemma {:induction false} EncloseEnds(open: char, lines: Bytes, level: nat, close: char)
    ensures var e := Enclose(open, lines, level, close); e != [] && e[|e| - 1] == close
  {
  }

  /** An element that is not the last of its array. */
  lemma {:induction false} FramedBeforeComma(fl: FrameLimits, v: Json, level: nat, rest: Bytes)
    requires fl.Positive()
    ensures FrameFrom(fl, FRESH, Print(v, level) + ("," + rest), []) ==
            if ElementFits(fl, v, |Print(v, level)|) then Some(Framed(Print(v, level), ',', rest)) else None
    ensures Trimmed(Print(v, level)) == Print(v, level)
  {
    PrintEnds(v, level);
    if CostFits(fl, CostOf(v)) {
      var g := PrintedValue(fl, v, level, "," + rest);
      assert ("," + rest)[1..] == rest;
    } else {
      RefusedValue(fl, v, level, "," + rest);
    }
  }

  /** At the line end after the last element. */
  lemma {:induction false} FrameLineEnd(fl: FrameLimits, g: FrameState, raw: Bytes, tail: Bytes, rest: Bytes)
    requires g.stack == [] && !g.mode.InText? && tail == "\n" + ("]" + rest)
    ensures FrameFrom(fl, g, tail, raw) ==
            if |raw| + 1 <= fl.maxElementBytes then Some(Framed(raw + "\n", ']', rest)) else None
  {
    assert tail[1..] == "]" + rest;
    assert ("]" + rest)[1..] == rest;
  }

  /** The last element, whose line end counts as one more raw byte. */
  lemma {:induction false} FramedBeforeEnd(fl: FrameLimits, v: Json, level: nat, tail: Bytes, rest: Bytes)
    requires fl.Positive() && tail == "\n" + ("]" + rest)
    ensures var raw := Print(v, level) + "\n";
            && FrameFrom(fl, FRESH, Print(v, level) + tail, []) ==
               (if ElementFits(fl, v, |Print(v, level)| + 1) then Some(Framed(raw, ']', rest)) else None)
            && Trimmed(raw) == Print(v, level)
  {
    var p := Print(v, level);
    PrintEnds(v, level);
    assert (p + "\n")[..|p|] == p;
    assert Trimmed(p) == p;
    if CostFits(fl, CostOf(v)) {
      var g := PrintedValue(fl, v, level, tail);
      FrameLineEnd(fl, g, p, tail, rest);
    } else {
      RefusedValue(fl, v, level, tail);
    }
  }

  // ---- the elements of an array

  function Texts(values: seq<Json>): seq<Bytes> {
    if values == [] then [] else [Print(values[0], 1)] + Texts(values[1..])
  }

  /** The raw length of an element: the last one is charged with its line end. */
  function RawLength(values: seq<Json>, i: nat): nat
    requires i < |values|
  {
    |Print(values[i], 1)| + if i == |values| - 1 then 1 else 0
  }

  ghost predicate AllFit(fl: FrameLimits, decodes: Bytes -> bool, values: seq<Json>) {
    forall i :: 0 <= i < |values| ==> ElementFits(fl, values[i], RawLength(values, i)) && decodes(Print(values[i], 1))
  }

  lemma {:induction false} FirstAndOthersFit(fl: FrameLimits, decodes: Bytes -> bool, values: seq<Json>)
    requires |values| > 1
    ensures AllFit(fl, decodes, values) <==>
            && ElementFits(fl, values[0], |Print(values[0], 1)|) && decodes(Print(values[0], 1))
            && AllFit(fl, decodes, values[1..])
  {
    var others := values[1..];
    assert forall i :: 0 <= i < |others| ==> others[i] == values[i + 1] && RawLength(others, i) == RawLength(values, i + 1);
    if AllFit(fl, decodes, others) {
      forall i | 1 <= i < |values|
        ensures ElementFits(fl, values[i], RawLength(values, i)) && decodes(Print(values[i], 1))
      {
        assert others[i - 1] == values[i];
      }
    }
  }

  lemma {:induction false} LastLineText()
    ensures LastLine(0, ']', "\n") == "\n" + ("]" + "\n")
  {
  }

  lemma {:induction false} LastText(values: seq<Json>, tail: Bytes)
    requires |values| == 1 && tail == "\n" + ("]" + "\n")
    ensures ItemsText(values, 0, "\n") == Print(values[0], 1) + tail
  {
    LastLineText();
    FirstItem(values, 0, "\n", tail);
  }

  /** Framing the only element left. */
  lemma {:induction false} FrameLast(fl: FrameLimits, values: seq<Json>)
    requires fl.Positive() && |values| == 1
    ensures FrameFrom(fl, FRESH, ItemsText(values, 0, "\n"), []) ==
            if ElementFits(fl, values[0], |Print(values[0], 1)| + 1)
            then Some(Framed(Print(values[0], 1) + "\n", ']', "\n")) else None
    ensures Trimmed(Print(values[0], 1) + "\n") == Print(values[0], 1)
  {
    var tail := "\n" + ("]" + "\n");
    LastText(values, tail);
    FramedBeforeEnd(fl, values[0], 1, tail, "\n");
  }

  lemma {:induction false} FirstSplits(values: seq<Json>, level: nat, rest: Bytes) returns (others: Bytes)
    requires |values| > 1
    ensures ItemsText(values, level, rest) == Print(values[0], level + 1) + MoreLines(others)
    ensures ItemsText(values[1..], level, rest) == SkipSpace(others)
  {
    others := Lines(PrintItems(values[1..], level), level, ']', rest);
    FirstItem(values, level, rest, MoreLines(others));
  }

  lemma {:induction false} AfterComma(others: Bytes, rest: Bytes)
    requires rest == "\n" + others
    ensures MoreLines(others) == "," + rest && SkipSpace(rest) == SkipSpace(others)
  {
    NewlineSkips(others);
  }

  lemma {:induction false} FramedText(fl: FrameLimits, v: Json, text: Bytes, next: Bytes, rest: Bytes)
    requires fl.Positive() && text == Print(v, 1) + next && next == "," + rest
    ensures FrameFrom(fl, FRESH, text, []) ==
            if ElementFits(fl, v, |Print(v, 1)|) then Some(Framed(Print(v, 1), ',', rest)) else None
    ensures Trimmed(Print(v, 1)) == Print(v, 1)
  {
    FramedBeforeComma(fl, v, 1, rest);
  }

  /** Framing an element with others after it. */
  lemma {:induction false} FrameFirst(fl: FrameLimits, values: seq<Json>) returns (rest: Bytes)
    requires fl.Positive() && |values| > 1
    ensures FrameFrom(fl, FRESH, ItemsText(values, 0, "\n"), []) ==
            if ElementFits(fl, values[0], |Print(values[0], 1)|)
            then Some(Framed(Print(values[0], 1), ',', rest)) else None
    ensures Trimmed(Print(values[0], 1)) == Print(values[0], 1)
    ensures SkipSpace(rest) == ItemsText(values[1..], 0, "\n")
  {
    var others := FirstSplits(values, 0, "\n");
    rest := "\n" + others;
    AfterComma(others, rest);
    FramedText(fl, values[0], ItemsText(values, 0, "\n"), MoreLines(others), rest);
  }

  /** One element framed, and the others as they should be. */
  lemma {:induction false} FirstOfMany(lim: ArrayLimits, decodes: Bytes -> bool, values: seq<Json>, count: nat, text: Bytes, rest: Bytes)
    requires |values| > 1 && Print(values[0], 1) != [] && Trimmed(Print(values[0], 1)) == Print(values[0], 1)
    requires FrameFrom(lim.frame, FRESH, text, []) ==
             if ElementFits(lim.frame, values[0], |Print(values[0], 1)|)
             then Some(Framed(Print(values[0], 1), ',', rest)) else None
    requires SkipSpace(rest) != [] && SkipSpace(rest)[0] != ']'
    requires Elements(lim, decodes, SkipSpace(rest), count + 1) ==
             if count + |values| <= lim.maxItems && AllFit(lim.frame, decodes, values[1..])
             then Some(Texts(values[1..])) else None
    ensures Elements(lim, decodes, text, count) ==
            if count + |values| <= lim.maxItems && AllFit(lim.frame, decodes, values) then Some(Texts(values)) else None
  {
    FirstAndOthersFit(lim.frame, decodes, values);
    if ElementFits(lim.frame, values[0], |Print(values[0], 1)|) {
      MoreElements(lim, decodes, text, count, Print(values[0], 1), rest);
    }
  }

  lemma {:induction false} ElementsRoundTrip(lim: ArrayLimits, decodes: Bytes -> bool, values: seq<Json>, count: nat)
    requires values != [] && lim.Positive()
    ensures Elements(lim, decodes, ItemsText(values, 0, "\n"), count) ==
            if count + |values| <= lim.maxItems && AllFit(lim.frame, decodes, values) then Some(Texts(values)) else None
    decreases |values|
  {
    var text, first := ItemsText(values, 0, "\n"), Print(values[0], 1);
    PrintStarts(values[0], 1);
    if |values| == 1 {
      FrameLast(lim.frame, values);
      assert Texts(values) == [first];
      assert RawLength(values, 0) == |first| + 1;
      LastElement(lim, decodes, text, count, first + "\n");
    } else {
      var rest := FrameFirst(lim.frame, values);
      FirstTextStarts(values[1..]);
      ElementsRoundTrip(lim, decodes, values[1..], count + 1);
      FirstOfMany(lim, decodes, values, count, text, rest);
    }
  }

  lemma {:induction false} LastElement(lim: ArrayLimits, decodes: Bytes -> bool, input: Bytes, count: nat, raw: Bytes)
    requires Trimmed(raw) != []
    ensures FrameFrom(lim.frame, FRESH, input, []) == None ==> Elements(lim, decodes, input, count) == None
    ensures FrameFrom(lim.frame, FRESH, input, []) == Some(Framed(raw, ']', "\n")) ==>
            Elements(lim, decodes, input, count) ==
            if count < lim.maxItems && decodes(Trimmed(raw)) then Some([Trimmed(raw)]) else None
  {
    assert SkipSpace("\n") == [];
  }

  lemma {:induction false} FirstTextStarts(values: seq<Json>)
    requires values != []
    ensures var s := ItemsText(values, 0, "\n"); s != [] && s[0] != ']'
  {
    PrintStarts(values[0], 1);
    FirstItem(values, 0, "\n",
              if |values| == 1 then LastLine(0, ']', "\n")
              else MoreLines(Lines(PrintItems(values[1..], 0), 0, ']', "\n")));
  }

  lemma {:induction false} MoreElements(lim: ArrayLimits, decodes: Bytes -> bool, input: Bytes, count: nat,
                     element: Bytes, rest: Bytes)
    requires element != [] && Trimmed(element) == element
    requires FrameFrom(lim.frame, FRESH, input, []) == Some(Framed(element, ',', rest))
    requires SkipSpace(rest) != [] && SkipSpace(rest)[0] != ']'
    ensures Elements(lim, decodes, input, count) ==
            if count + 1 < lim.maxItems && decodes(element)
            then Prepended([element], Elements(lim, decodes, SkipSpace(rest), count + 1)) else None
  {
    FramedIsShorter(lim.frame, FRESH, input, []);
  }

  /**
   Over a canonical array the framer gives exactly the canonical encodings of the
   elements, in order, if there are not too many and each is within the limits and
   decodes; otherwise the array is refused.
   */
  lemma {:induction false} FramingUndoesArrayPrinting(lim: ArrayLimits, decodes: Bytes -> bool, values: seq<Json>)
    ensures ArrayOf(lim, decodes, PrintArray(values)) ==
            if lim.Positive() && |values| <= lim.maxItems && AllFit(lim.frame, decodes, values)
            then Some(Texts(values)) else None
  {
    if !lim.Positive() {
    } else if values == [] {
      assert PrintArray(values) == "[" + "]\n";
      assert ("[" + "]\n")[1..] == "]\n" && "]\n"[1..] == "\n";
      assert SkipSpace("\n") == [];
    } else {
      var lines := PrintItems(values, 0);
      EncloseRest('[', lines, 0, ']', "\n");
      NewlineSkips(Lines(lines, 0, ']', "\n"));
      FirstTextStarts(values);
      ElementsRoundTrip(lim, decodes, values, 0);
    }
  }

  /** Decoding as the program does it: parsing, then the tree check. */
  function Decoder(lim: ArrayLimits): Bytes -> bool {
    (text: Bytes) =>
      match ParseValue(text)
      case None => false
      case Some((v, rest)) =>
        && rest == [] && CostOf(v).nodes <= lim.frame.maxNodes && CostOf(v).depth <= lim.frame.maxDepth
        && KeyFits(LongestKey(v), lim.maxKeyBytes)
  }

  // ---- key order does not matter to the limits

  lemma {:induction false} CanonCosts(v: Json)
    ensures CostOf(Canon(v)) == CostOf(v) && LongestKey(Canon(v)) == LongestKey(v)
    decreases Size(v), 1
  {
    match v {
      case List(items) => CanonItemsCost(items);
      case Dict(fields) =>
        CostOfSorted(fields);
        LongestKeyOfSorted(fields);
        CanonFieldsCost(SortFields(fields));
      case _ =>
    }
  }

  lemma {:induction false} CanonItemsCost(items: seq<Json>)
    ensures CostOfItems(CanonItems(items)) == CostOfItems(items)
    ensures LongestKeyInItems(CanonItems(items)) == LongestKeyInItems(items)
    decreases SizeItems(items), 0
  {
    if items != [] {
      CanonCosts(items[0]);
      CanonItemsCost(items[1..]);
      assert CanonItems(items)[1..] == CanonItems(items[1..]);
    }
  }

  lemma {:induction false} CanonFieldsCost(fields: seq<Field>)
    ensures CostOfFields(CanonFields(fields)) == CostOfFields(fields)
    ensures LongestKeyInFields(CanonFields(fields)) == LongestKeyInFields(fields)
    decreases SizeFields(fields), 0
  {
    if fields != [] {
      var f := CanonFields(fields)[0];
      CanonCosts(fields[0].value);
      CanonFieldsCost(fields[1..]);
      assert CanonFields(fields)[1..] == CanonFields(fields[1..]);
      assert FieldCost(f) == Beside(KeyCost(f.key), CostOf(f.value));
      assert FieldCost(fields[0]) == Beside(KeyCost(f.key), CostOf(fields[0].value));
    }
  }

  lemma {:induction false} LongestKeyOfSorted(fields: seq<Field>)
    ensures LongestKeyInFields(SortFields(fields)) == LongestKeyInFields(fields)
  {
    if fields != [] {
      LongestKeyOfSorted(fields[1..]);
      LongestKeyOfInserted(fields[0], SortFields(fields[1..]));
    }
  }

  lemma {:induction false} LongestKeyOfInserted(f: Field, fields: seq<Field>)
    ensures LongestKeyInFields(InsertField(f, fields)) ==
            Longer(Longer(Utf8Length(f.key), LongestKey(f.value)), LongestKeyInFields(fields))
  {
    if fields == [] || Less(f.key, fields[0].key) {
      assert ([f] + fields)[1..] == fields;
    } else {
      LongestKeyOfInserted(f, fields[1..]);
      var rest := InsertField(f, fields[1..]);
      assert ([fields[0]] + rest)[1..] == rest;
    }
  }

  lemma {:induction false} Decodes(lim: ArrayLimits, v: Json)
    requires WellFormed(v)
    ensures Decoder(lim)(Print(v, 1)) <==>
            && CostOf(v).nodes <= lim.frame.maxNodes && CostOf(v).depth <= lim.frame.maxDepth
            && KeyFits(LongestKey(v), lim.maxKeyBytes)
  {
    PrintRoundTrip(v, 1, "");
    assert Print(v, 1) + "" == Print(v, 1);
    CanonCosts(v);
  }

  ghost predicate WithinArrayLimits(lim: ArrayLimits, values: seq<Json>) {
    && lim.Positive() && |values| <= lim.maxItems
    && (forall i :: 0 <= i < |values| ==>
          ElementFits(lim.frame, values[i], RawLength(values, i)) && KeyFits(LongestKey(values[i]), lim.maxKeyBytes))
  }

  /**
   The whole round trip: framing and decoding a canonical array give back every
   value, in order, if the array is within the limits, and refuse it otherwise.
   */
  lemma {:induction false} ArrayRoundTrip(lim: ArrayLimits, values: seq<Json>)
    requires forall v :: v in values ==> WellFormed(v)
    ensures ArrayOf(lim, Decoder(lim), PrintArray(values)) ==
            if WithinArrayLimits(lim, values) then Some(Texts(values)) else None
    ensures forall i :: 0 <= i < |values| ==>
              |Texts(values)| == |values| && Parse(Texts(values)[i]) == Some(Canon(values[i]))
  {
    forall i | 0 <= i < |values|
      ensures ElementFits(lim.frame, values[i], RawLength(values, i)) ==>
                (Decoder(lim)(Print(values[i], 1)) <==> KeyFits(LongestKey(values[i]), lim.maxKeyBytes))
    {
      assert values[i] in values;
      Decodes(lim, values[i]);
    }
    FramingUndoesArrayPrinting(lim, Decoder(lim), values);
    forall i | 0 <= i < |values|
      ensures |Texts(values)| == |values| && Parse(Texts(values)[i]) == Some(Canon(values[i]))
    {
      TextAt(values, i);
      assert values[i] in values;
      ParsingUndoesPrinting(values[i], 1, "");
      assert Print(values[i], 1) + "" == Print(values[i], 1);
    }
  }

  lemma {:induction false} TextAt(values: seq<Json>, i: nat)
    requires i < |values|
    ensures |Texts(values)| == |values| && Texts(values)[i] == Print(values[i], 1)
  {
    if |values| > 1 {
      TextAt(values[1..], if i > 0 then i - 1 else 0);
    }
  }

  /** `list(iter_bounded_json_array(...))`: the elements framed from the reader's blocks, each one decoded. */
  method ReadArray(blocks: seq<Bytes>, lim: ArrayLimits) returns (ok: bool, read: seq<Json>)
    ensures ok <==> Deliverable(blocks) && ArrayOf(lim, Decoder(lim), Content(blocks)).Some?
    ensures ok ==> var texts := ArrayOf(lim, Decoder(lim), Content(blocks)).value;
                   |read| == |texts| && forall i :: 0 <= i < |texts| ==> ParseValue(texts[i]) == Some((read[i], ""))
  {
    var texts;
    ok, texts := IterBoundedJsonArray(blocks, lim, Decoder(lim));
    read := [];
    if !ok { return; }
    ElementsDecode(lim, Decoder(lim), Content(blocks), texts);
    while |read| < |texts|
      invariant |read| <= |texts|
      invariant forall i :: 0 <= i < |read| ==> ParseValue(texts[i]) == Some((read[i], ""))
    {
      read := read + [ParseValue(texts[|read|]).value.0];
    }
  }

  lemma {:induction false} ElementsDecode(lim: ArrayLimits, decodes: Bytes -> bool, input: Bytes, texts: seq<Bytes>)
    requires ArrayOf(lim, decodes, input) == Some(texts)
    ensures forall i :: 0 <= i < |texts| ==> decodes(texts[i])
  {
    var t := SkipSpace(SkipSpace(input)[1..]);
    if t[0] != ']' {
      EachElementDecodes(lim, decodes, t, 0);
    }
  }

  lemma {:induction false} EachElementDecodes(lim: ArrayLimits, decodes: Bytes -> bool, input: Bytes, count: nat)
    requires Elements(lim, decodes, input, count).Some?
    ensures forall e :: e in Elements(lim, decodes, input, count).value ==> decodes(e)
    decreases |input|
  {
    FramedIsShorter(lim.frame, FRESH, input, []);
    var f := FrameFrom(lim.frame, FRESH, input, []).value;
    if f.delimiter != ']' {
      EachElementDecodes(lim, decodes, SkipSpace(f.rest), count + 1);
    }
  }

  /**
   Main result: however a canonical array is split into blocks, reading it gives back
   its values, in order, if the array is within the limits, and refuses it otherwise.
   */
  method ReadCanonicalArray(blocks: seq<Bytes>, lim: ArrayLimits, ghost values: seq<Json>)
    returns (ok: bool, read: seq<Json>)
    requires (forall v :: v in values ==> WellFormed(v)) && Content(blocks) == PrintArray(values)
    ensures ok <==> Deliverable(blocks) && WithinArrayLimits(lim, values)
    ensures ok ==> |read| == |values| &&
                   forall i :: 0 <= i < |values| ==> read[i] == Canon(values[i]) && Meaning(read[i]) == Meaning(values[i])
  {
    ArrayRoundTrip(lim, values);
    ok, read := ReadArray(blocks, lim);
    if ok {
      ghost var texts := Texts(values);
      assert ArrayOf(lim, Decoder(lim), Content(blocks)) == Some(texts);
      forall i | 0 <= i < |values|
        ensures |texts| == |values| && read[i] == Canon(values[i]) && Meaning(read[i]) == Meaning(values[i])
      {
        TextAt(values, i);
        ReadBack(values[i], texts[i], read[i]);
      }
    }
  }

  lemma {:induction false} ReadBack(v: Json, text: Bytes, read: Json)
    requires WellFormed(v) && text == Print(v, 1) && ParseValue(text) == Some((read, ""))
    ensures read == Canon(v) && Meaning(read) == Meaning(v)
  {
    PrintRoundTrip(v, 1, "");
    assert text + "" == text;
    ParsingUndoesPrinting(v, 1, "");
  }
}
