/**
 The texts that the validator accepts, whatever they are: a grammar read by recursive
 descent, without the machine, and the theorem that the machine decides it.

 It is looser than JSON: an atom is any run of bytes up to white space, a comma, a
 colon or a closing bracket, and a comma may stand before a closing bracket.
 */
module JsonGrammar {
  import opened Bytes
  import opened Options
  import opened JsonText
  import opened JsonValidator
  import opened JsonLimits

  // ---- the grammar

  /** How many bytes there are before the quote that ends a string. */
  function StringLength(s: Bytes, escaped: bool): (n: Option<nat>)
    ensures n.Some? ==> n.value < |s| && s[n.value] == '"'
  {
    if s == [] then None
    else if !escaped && s[0] == '"' then Some(0)
    else
      match StringLength(s[1..], !escaped && s[0] == '\\')
      case None => None
      case Some(n) => Some(n + 1)
  }

  predicate IsDelimiter(b: char) {
    b == ',' || b == ':' || b == ']' || b == '}'
  }

  /** How many bytes there are before one that ends an atom. */
  function AtomLength(s: Bytes): (n: nat)
    ensures n <= |s|
  {
    if s == [] || IsSpace(s[0]) || IsDelimiter(s[0]) then 0 else 1 + AtomLength(s[1..])
  }

  function StringCost(length: nat): Cost {
    Cost(1, 1, 1, 0, length, 0)
  }

  function NameCost(length: nat): Cost {
    Cost(0, 1, 0, length, length, 0)
  }

  /** A value at the beginning of `s`: what it costs, and what follows it. */
  function ReadValue(s: Bytes): (r: Option<(Cost, Bytes)>)
    ensures r.Some? ==> |r.value.1| < |s|
    decreases |s|, 0
  {
    if s == [] || IsSpace(s[0]) || IsDelimiter(s[0]) then None
    else if s[0] == '"' then
      match StringLength(s[1..], false)
      case None => None
      case Some(n) => Some((StringCost(n), s[n + 2..]))
    else if s[0] == '[' then Inside(ReadItems(s[1..]))
    else if s[0] == '{' then Inside(ReadFields(s[1..]))
    else
      var n := 1 + AtomLength(s[1..]);
      Some((AtomCost(n), s[n..]))
  }

  function Inside(r: Option<(Cost, Bytes)>): (q: Option<(Cost, Bytes)>)
    ensures q.Some? <==> r.Some?
    ensures q.Some? ==> q.value.1 == r.value.1
  {
    match r
    case None => None
    case Some((c, rest)) => Some((Around(c), rest))
  }

  /** What comes after an entry: the end of the container, or a comma and perhaps more. */
  function ReadItems(s: Bytes): (r: Option<(Cost, Bytes)>)
    ensures r.Some? ==> |r.value.1| < |s|
    decreases |s|, 1
  {
    var t := SkipSpace(s);
    if t == [] then None
    else if t[0] == ']' then Some((NOTHING, t[1..]))
    else
      match ReadValue(t)
      case None => None
      case Some((c, u)) =>
        var w := SkipSpace(u);
        if w == [] then None
        else if w[0] == ']' then Some((c, w[1..]))
        else if w[0] == ',' then
          match ReadItems(w[1..])
          case None => None
          case Some((d, rest)) => Some((Beside(c, d), rest))
        else None
  }

  /** The value of an entry of a dictionary, from the colon after its key on. */
  function ReadAfterKey(s: Bytes): (r: Option<(Cost, Bytes)>)
    ensures r.Some? ==> |r.value.1| < |s|
    decreases |s|, 1
  {
    var t := SkipSpace(s);
    if t == [] || t[0] != ':' then None else ReadValue(SkipSpace(t[1..]))
  }

  function ReadFields(s: Bytes): (r: Option<(Cost, Bytes)>)
    ensures r.Some? ==> |r.value.1| < |s|
    decreases |s|, 1
  {
    var t := SkipSpace(s);
    if t == [] then None
    else if t[0] == '}' then Some((NOTHING, t[1..]))
    else if t[0] != '"' then None
    else
      match StringLength(t[1..], false)
      case None => None
      case Some(n) =>
        match ReadAfterKey(t[n + 2..])
        case None => None
        case Some((c, u)) =>
          var field := Beside(NameCost(n), c);
          var w := SkipSpace(u);
          if w == [] then None
          else if w[0] == '}' then Some((field, w[1..]))
          else if w[0] == ',' then
            match ReadFields(w[1..])
            case None => None
            case Some((d, rest)) => Some((Beside(field, d), rest))
          else None
  }

  /** One value with white space around it and nothing else. */
  function Document(s: Bytes): Option<Cost> {
    match ReadValue(SkipSpace(s))
    case None => None
    case Some((c, rest)) => if SkipSpace(rest) == [] then Some(c) else None
  }

  // ---- what the machine does on the parts

  lemma {:induction false} SpaceSkips(lim: Limits, s: State, text: Bytes)
    requires s.mode.Idle?
    ensures Run(lim, false, s, text) == Run(lim, false, s, SkipSpace(text))
    decreases |text|
  {
    if text != [] && IsSpace(text[0]) {
      SpaceSkips(lim, s, text[1..]);
    }
  }

  /** The state once the quote that ends a string has been read. */
  function Closed(s: State): State
    requires s.mode.InString?
  {
    if s.mode.isKey then s.(mode := Idle, frames := SetTop(s.frames, Colon)) else Finish(s)
  }

  /** What the machine makes of the rest of a string, of which `n` bytes are left before
      the quote, if there is one. */
  ghost predicate ReadsString(lim: Limits, s: State, text: Bytes, n: Option<nat>, r: Option<State>)
    requires s.mode.InString? && (n.Some? ==> n.value < |text|)
  {
    match n
    case None => r.None? || (r.value.mode.InString? && r.value.frames == s.frames)
    case Some(n) =>
      if StringFits(lim, s.mode.isKey, s.mode.bytes + n) then r == Run(lim, false, Closed(s), text[n + 1..]) else r.None?
  }

  lemma {:induction false} OneMoreInString(lim: Limits, s: State, escaped: bool, text: Bytes, n: Option<nat>, r: Option<State>)
    requires s.mode.InString? && text != [] && (n.Some? ==> n.value < |text| - 1)
    requires ReadsString(lim, s.(mode := InString(s.mode.isKey, escaped, s.mode.bytes + 1)), text[1..], n, r)
    ensures ReadsString(lim, s, text, if n.Some? then Some(n.value + 1) else None, r)
  {
    var t := s.(mode := InString(s.mode.isKey, escaped, s.mode.bytes + 1));
    assert Closed(t) == Closed(s);
    assert n.Some? ==> text[1..][n.value + 1..] == text[n.value + 2..];
  }

  lemma {:induction false} StringBody(lim: Limits, s: State, text: Bytes)
    requires s.mode.InString? && StringFits(lim, s.mode.isKey, s.mode.bytes)
    ensures ReadsString(lim, s, text, StringLength(text, s.mode.escaped), Run(lim, false, s, text))
    decreases |text|
  {
    if text != [] && (s.mode.escaped || text[0] != '"') {
      var escaped := !s.mode.escaped && text[0] == '\\';
      if StringFits(lim, s.mode.isKey, s.mode.bytes + 1) {
        var t := s.(mode := InString(s.mode.isKey, escaped, s.mode.bytes + 1));
        StringBody(lim, t, text[1..]);
        OneMoreInString(lim, s, escaped, text, StringLength(text[1..], escaped), Run(lim, false, t, text[1..]));
      }
    }
  }

  lemma {:induction false} AtomBody(lim: Limits, s: State, text: Bytes)
    requires s.mode.InAtom? && s.mode.bytes <= lim.maxAtomBytes
    ensures var r := Run(lim, false, s, text); var n := AtomLength(text);
            if s.mode.bytes + n <= lim.maxAtomBytes
            then r == Run(lim, false, s.(mode := InAtom(s.mode.bytes + n)), text[n..])
            else r.None?
    decreases |text|
  {
    if text != [] && AtomLength(text) > 0 && s.mode.bytes + 1 <= lim.maxAtomBytes {
      AtomBody(lim, s.(mode := InAtom(s.mode.bytes + 1)), text[1..]);
      assert text[1..][AtomLength(text[1..])..] == text[AtomLength(text)..];
    }
  }

  // ---- how the machine goes on

  /** After a value has been read, of which the machine need not know yet that it is over. */
  ghost predicate GoesOn(lim: Limits, r: Option<State>, after: State, rest: Bytes) {
    if rest == [] then r.Some? && (r.value == after || (r.value.mode.InAtom? && Finish(r.value) == after))
    else r == Run(lim, false, after, rest)
  }

  /** Refused, or left in the middle of something. */
  ghost predicate Unfinished(s: State, r: Option<State>) {
    r.None? || (|r.value.frames| >= |s.frames| && !Complete(r.value))
  }

  /** What the machine makes of a text that starts with a value, or with none. */
  ghost predicate ReadsValue(lim: Limits, s: State, text: Bytes) {
    var r := Run(lim, false, s, text);
    match ReadValue(text)
    case None => Unfinished(s, r)
    case Some((c, rest)) =>
      if Fits(lim, s, c) then GoesOn(lim, r, Finish(Charge(s, c)), rest) else r.None?
  }

  /** What the machine makes of the rest of a container, of which `read` says what the
      grammar makes. */
  ghost predicate ReadsRest(lim: Limits, s: State, text: Bytes, read: Option<(Cost, Bytes)>)
    requires s.frames != []
  {
    var r := Run(lim, false, s, text);
    match read
    case None => Unfinished(s, r)
    case Some((c, rest)) => r == if Fits(lim, s, c) then Run(lim, false, Pop(Charge(s, c)), rest) else None
  }

  /** In a container whose next byte is to be of the given kind. */
  predicate Awaits(lim: Limits, s: State, opening: char, next: Next) {
    lim.Positive() && s.mode.Idle? && Within(lim, s) && s.frames != [] && s.frames[|s.frames| - 1] == Frame(opening, next)
  }

  /** A value may start, and a closing bracket would not end a list. */
  predicate MayRead(s: State, text: Bytes) {
    text != [] ==> !IsSpace(text[0]) && (s.frames != [] && s.frames[|s.frames| - 1].next.ValueOrEnd? ==> text[0] != ']')
  }

  lemma {:induction false} StartFits(lim: Limits, s: State, c: Cost)
    requires lim.Positive() && c.nodes == 1 && c.tokens == 1 && c.depth == 1 && c.key == 0
    ensures Fits(lim, s, c) <==> StartValue(lim, s).Some? && c.text <= lim.maxStringBytes && c.atom <= lim.maxAtomBytes
  {
  }

  lemma {:induction false} SliceOfTail(text: Bytes, n: nat)
    requires n + 2 <= |text|
    ensures text[1..][n + 1..] == text[n + 2..]
  {
  }

  /** A string read to its end is a value of its cost. */
  lemma {:induction false} StringCharged(lim: Limits, s: State, t: State, n: nat)
    requires Ready(lim, s) && StartValue(lim, s).Some? && t == StartValue(lim, s).value.(mode := InString(false, false, 0))
    ensures Closed(t) == Finish(Charge(s, StringCost(n)))
    ensures StringFits(lim, false, n) <==> Fits(lim, s, StringCost(n))
  {
    StartFits(lim, s, StringCost(n));
  }

  lemma {:induction false} StringIsRead(lim: Limits, s: State, text: Bytes)
    requires Ready(lim, s) && text != [] && text[0] == '"'
    ensures ReadsValue(lim, s, text)
  {
    var n := StringLength(text[1..], false);
    if StartValue(lim, s).Some? {
      var t := StartValue(lim, s).value.(mode := InString(false, false, 0));
      assert Run(lim, false, s, text) == Run(lim, false, t, text[1..]);
      StringBody(lim, t, text[1..]);
      if n.Some? {
        StringCharged(lim, s, t, n.value);
        SliceOfTail(text, n.value);
        StringGoesOn(lim, Run(lim, false, s, text), Finish(Charge(s, StringCost(n.value))), text[n.value + 2..]);
      }
    } else if n.Some? {
      StartFits(lim, s, StringCost(n.value));
    }
  }

  lemma {:induction false} StringGoesOn(lim: Limits, r: Option<State>, after: State, rest: Bytes)
    ensures r == Run(lim, false, after, rest) ==> GoesOn(lim, r, after, rest)
  {
  }

  lemma {:induction false} ReadsAtom(lim: Limits, s: State, text: Bytes)
    requires Ready(lim, s) && text != [] && !IsSpace(text[0]) && !IsDelimiter(text[0])
    requires text[0] != '"' && text[0] != '[' && text[0] != '{'
    ensures ReadsValue(lim, s, text)
  {
    var n := AtomLength(text[1..]);
    var rest := text[1..][n..];
    assert rest == text[n + 1..];
    StartFits(lim, s, AtomCost(n + 1));
    if StartValue(lim, s).Some? {
      var t := StartValue(lim, s).value.(mode := InAtom(1));
      assert 1 <= lim.maxAtomBytes && Run(lim, false, s, text) == Run(lim, false, t, text[1..]);
      AtomBody(lim, t, text[1..]);
      if 1 + n <= lim.maxAtomBytes {
        AtomStops(text[1..]);
        AtomCharged(lim, s, t, n + 1, rest);
      }
    }
  }

  lemma {:induction false} AtomCharged(lim: Limits, s: State, t: State, n: nat, rest: Bytes)
    requires Ready(lim, s) && StartValue(lim, s).Some? && t == StartValue(lim, s).value.(mode := InAtom(1))
    requires rest == [] || EndsAtom(rest[0])
    ensures GoesOn(lim, Run(lim, false, t.(mode := InAtom(n)), rest), Finish(Charge(s, AtomCost(n))), rest)
  {
    var u := t.(mode := InAtom(n));
    AtomEnds(lim, u, rest);
    assert Finish(u) == Finish(Charge(s, AtomCost(n)));
  }

  /** What follows an atom ends it. */
  lemma {:induction false} AtomStops(s: Bytes)
    ensures var rest := s[AtomLength(s)..]; rest == [] || EndsAtom(rest[0])
  {
    if s != [] && AtomLength(s) > 0 {
      AtomStops(s[1..]);
      assert s[1..][AtomLength(s[1..])..] == s[AtomLength(s)..];
    }
  }

  lemma {:induction false} AtomEnds(lim: Limits, u: State, rest: Bytes)
    requires u.mode.InAtom?
    ensures rest == [] || EndsAtom(rest[0]) ==> GoesOn(lim, Run(lim, false, u, rest), Finish(u), rest)
  {
  }

  lemma {:induction false} ReadsContainer(lim: Limits, s: State, text: Bytes)
    requires Ready(lim, s) && text != [] && (text[0] == '[' || text[0] == '{')
    requires StartValue(lim, s).Some? ==>
               ReadsRest(lim, Opened(StartValue(lim, s).value, text[0]), text[1..],
                         if text[0] == '[' then ReadItems(text[1..]) else ReadFields(text[1..]))
    ensures ReadsValue(lim, s, text)
  {
    var inside := if text[0] == '[' then ReadItems(text[1..]) else ReadFields(text[1..]);
    OpenRun(lim, false, s, text);
    if inside.Some? {
      AroundFits(lim, s, inside.value.0, text[0]);
    }
  }

  /** Nothing that may start a value. */
  lemma {:induction false} ReadsNothing(lim: Limits, s: State, text: Bytes)
    requires Ready(lim, s) && MayRead(s, text) && (text == [] || IsDelimiter(text[0]))
    ensures ReadsValue(lim, s, text)
  {
  }

  lemma {:induction false} ValueIsRead(lim: Limits, s: State, text: Bytes)
    requires Ready(lim, s) && MayRead(s, text)
    ensures ReadsValue(lim, s, text)
    decreases |text|, 0
  {
    if text == [] || IsDelimiter(text[0]) {
      ReadsNothing(lim, s, text);
    } else if text[0] == '"' {
      StringIsRead(lim, s, text);
    } else if text[0] == '[' || text[0] == '{' {
      if StartValue(lim, s).Some? {
        var inner := Opened(StartValue(lim, s).value, text[0]);
        if text[0] == '[' {
          ItemsAreRead(lim, inner, text[1..]);
        } else {
          FieldsAreRead(lim, inner, text[1..]);
        }
      }
      ReadsContainer(lim, s, text);
    } else {
      ReadsAtom(lim, s, text);
    }
  }

  // ---- after an entry

  /** The rest of a container after an entry of cost `c` that left `u`, the grammar having
      read `more` after a comma. */
  function AfterEntry(c: Cost, u: Bytes, closing: char, more: Option<(Cost, Bytes)>): Option<(Cost, Bytes)> {
    var w := SkipSpace(u);
    if w == [] then None
    else if w[0] == closing then Some((c, w[1..]))
    else if w[0] == ',' then
      match more
      case None => None
      case Some((d, rest)) => Some((Beside(c, d), rest))
    else None
  }

  /** `ReadItems` and `ReadFields`, once their first entry has been read. */
  lemma {:induction false} ItemsAre(s: Bytes, c: Cost, u: Bytes)
    requires var t := SkipSpace(s); t != [] && t[0] != ']' && ReadValue(t) == Some((c, u))
    ensures ReadItems(s) == AfterEntry(c, u, ']', MoreItems(u))
  {
  }

  function MoreItems(u: Bytes): Option<(Cost, Bytes)> {
    var w := SkipSpace(u);
    if w != [] && w[0] == ',' then ReadItems(w[1..]) else None
  }

  lemma {:induction false} FieldsAre(s: Bytes, n: nat, c: Cost, u: Bytes)
    requires var t := SkipSpace(s);
             t != [] && t[0] == '"' && StringLength(t[1..], false) == Some(n) && ReadAfterKey(t[n + 2..]) == Some((c, u))
    ensures ReadFields(s) == AfterEntry(Beside(NameCost(n), c), u, '}', MoreFields(u))
  {
  }

  function MoreFields(u: Bytes): Option<(Cost, Bytes)> {
    var w := SkipSpace(u);
    if w != [] && w[0] == ',' then ReadFields(w[1..]) else None
  }

  lemma {:induction false} EntryEnds(lim: Limits, s: State, opening: char, c: Cost, u: Bytes, more: Option<(Cost, Bytes)>, r: Option<State>)
    requires opening == '[' || opening == '{'
    requires Awaits(lim, s, opening, if opening == '[' then ValueOrEnd else KeyOrEnd)
    requires if Fits(lim, s, c) then GoesOn(lim, r, At(Charge(s, c), CommaOrEnd), u) else r.None?
    requires var w := SkipSpace(u);
             Fits(lim, s, c) && w != [] && w[0] == ',' ==> ReadsRest(lim, Charge(s, c), w[1..], more)
    ensures match AfterEntry(c, u, if opening == '[' then ']' else '}', more)
            case None => Unfinished(s, r)
            case Some((d, rest)) => r == if Fits(lim, s, d) then Run(lim, false, Pop(Charge(s, d)), rest) else None
  {
    var w := SkipSpace(u);
    var f := At(Charge(s, c), CommaOrEnd);
    if more.Some? {
      FitsBeside(lim, s, c, more.value.0);
    }
    if Fits(lim, s, c) && u != [] {
      SpaceSkips(lim, f, u);
      if w != [] {
        AtEntryEnd(lim, Charge(s, c), opening, w);
      }
    }
  }

  lemma {:induction false} AtEntryEnd(lim: Limits, s: State, opening: char, w: Bytes)
    requires (opening == '[' || opening == '{') && s.mode.Idle? && w != [] && !IsSpace(w[0])
    requires s.frames != [] && s.frames[|s.frames| - 1] == Frame(opening, if opening == '[' then ValueOrEnd else KeyOrEnd)
    ensures Run(lim, false, At(s, CommaOrEnd), w) ==
            if w[0] == (if opening == '[' then ']' else '}') then Run(lim, false, Pop(s), w[1..])
            else if w[0] == ',' then Run(lim, false, s, w[1..]) else None
  {
    var f := At(s, CommaOrEnd);
    assert f.frames[..|f.frames| - 1] == s.frames[..|s.frames| - 1];
    assert SetTop(f.frames, if opening == '[' then ValueOrEnd else KeyOrEnd) == s.frames;
  }

  lemma {:induction false} FinishIsAt(s: State, c: Cost)
    requires s.mode.Idle? && s.frames != []
    ensures Finish(Charge(s, c)) == At(Charge(s, c), CommaOrEnd)
  {
  }

  lemma {:induction false} ItemsAreRead(lim: Limits, s: State, text: Bytes)
    requires Awaits(lim, s, '[', ValueOrEnd)
    ensures ReadsRest(lim, s, text, ReadItems(text))
    decreases |text|, 1
  {
    var t := SkipSpace(text);
    SpaceSkips(lim, s, text);
    if t != [] && t[0] != ']' {
      ValueIsRead(lim, s, t);
      if ReadValue(t).Some? {
        var (c, u) := ReadValue(t).value;
        var w := SkipSpace(u);
        FinishIsAt(s, c);
        if Fits(lim, s, c) && w != [] && w[0] == ',' {
          ItemsAreRead(lim, Charge(s, c), w[1..]);
        }
        EntryEnds(lim, s, '[', c, u, MoreItems(u), Run(lim, false, s, t));
        ItemsAre(text, c, u);
      }
    } else if t != [] {
      assert Charge(s, NOTHING) == s;
    }
  }

  // ---- dictionaries

  lemma {:induction false} KeyIsRead(lim: Limits, s: State, t: Bytes)
    requires Awaits(lim, s, '{', KeyOrEnd) && t != [] && t[0] == '"'
    ensures var r := Run(lim, false, s, t);
            match StringLength(t[1..], false)
            case None => Unfinished(s, r)
            case Some(n) =>
              if Fits(lim, s, NameCost(n)) then r == Run(lim, false, At(Charge(s, NameCost(n)), Colon), t[n + 2..])
              else r.None?
  {
    var n := StringLength(t[1..], false);
    if s.tokens + 1 <= lim.maxTokens {
      var inside := s.(tokens := s.tokens + 1, mode := InString(true, false, 0));
      StringBody(lim, inside, t[1..]);
      if n.Some? {
        assert t[1..][n.value + 1..] == t[n.value + 2..];
        assert Closed(inside) == At(Charge(s, NameCost(n.value)), Colon);
      }
    }
  }

  lemma {:induction false} ColonIsRead(lim: Limits, s: State, text: Bytes)
    requires Awaits(lim, s, '{', KeyOrEnd)
    ensures var t := SkipSpace(text); var r := Run(lim, false, At(s, Colon), text);
            if t != [] && t[0] == ':' then r == Run(lim, false, At(s, Value), SkipSpace(t[1..]))
            else Unfinished(s, r)
  {
    var t := SkipSpace(text);
    SpaceSkips(lim, At(s, Colon), text);
    if t != [] && t[0] == ':' {
      assert SetTop(At(s, Colon).frames, Value) == At(s, Value).frames;
      SpaceSkips(lim, At(s, Value), t[1..]);
    }
  }

  /** The value of an entry, its key having been charged. */
  lemma {:induction false} AfterKeyIsRead(lim: Limits, s: State, text: Bytes)
    requires Awaits(lim, s, '{', KeyOrEnd)
    ensures var r := Run(lim, false, At(s, Colon), text);
            match ReadAfterKey(text)
            case None => Unfinished(s, r)
            case Some((c, u)) => if Fits(lim, s, c) then GoesOn(lim, r, At(Charge(s, c), CommaOrEnd), u) else r.None?
    decreases |text|, 1
  {
    var t := SkipSpace(text);
    ColonIsRead(lim, s, text);
    if t != [] && t[0] == ':' {
      var x := SkipSpace(t[1..]);
      ValueIsRead(lim, At(s, Value), x);
      ValueAfterColon(lim, s, x, Run(lim, false, At(s, Value), x));
    }
  }

  lemma {:induction false} ValueAfterColon(lim: Limits, s: State, x: Bytes, r: Option<State>)
    requires Awaits(lim, s, '{', KeyOrEnd) && r == Run(lim, false, At(s, Value), x) && ReadsValue(lim, At(s, Value), x)
    ensures match ReadValue(x)
            case None => Unfinished(s, r)
            case Some((c, u)) => if Fits(lim, s, c) then GoesOn(lim, r, At(Charge(s, c), CommaOrEnd), u) else r.None?
  {
    var v := At(s, Value);
    if ReadValue(x).Some? {
      var c := ReadValue(x).value.0;
      FinishIsAt(v, c);
      assert At(Charge(v, c), CommaOrEnd) == At(Charge(s, c), CommaOrEnd);
    }
  }

  lemma {:induction false} FieldIsRead(lim: Limits, s: State, t: Bytes, n: nat)
    requires Awaits(lim, s, '{', KeyOrEnd) && t != [] && t[0] == '"' && StringLength(t[1..], false) == Some(n)
    ensures var r := Run(lim, false, s, t);
            match ReadAfterKey(t[n + 2..])
            case None => Unfinished(s, r)
            case Some((c, u)) =>
              var field := Beside(NameCost(n), c);
              if Fits(lim, s, field) then GoesOn(lim, r, At(Charge(s, field), CommaOrEnd), u) else r.None?
    decreases |t|, 0
  {
    var k := Charge(s, NameCost(n));
    KeyIsRead(lim, s, t);
    if Fits(lim, s, NameCost(n)) {
      AfterKeyIsRead(lim, k, t[n + 2..]);
    }
    if ReadAfterKey(t[n + 2..]).Some? {
      FitsBeside(lim, s, NameCost(n), ReadAfterKey(t[n + 2..]).value.0);
    }
  }

  lemma {:induction false} FieldsAreRead(lim: Limits, s: State, text: Bytes)
    requires Awaits(lim, s, '{', KeyOrEnd)
    ensures ReadsRest(lim, s, text, ReadFields(text))
    decreases |text|, 2
  {
    var t := SkipSpace(text);
    SpaceSkips(lim, s, text);
    if t != [] && t[0] == '"' {
      if StringLength(t[1..], false).Some? {
        FirstFieldIsRead(lim, s, text, StringLength(t[1..], false).value);
      } else {
        KeyIsRead(lim, s, t);
      }
    } else if t != [] && t[0] == '}' {
      assert Charge(s, NOTHING) == s;
    }
  }

  lemma {:induction false} FirstFieldIsRead(lim: Limits, s: State, text: Bytes, n: nat)
    requires Awaits(lim, s, '{', KeyOrEnd)
    requires var t := SkipSpace(text); t != [] && t[0] == '"' && StringLength(t[1..], false) == Some(n)
    ensures ReadsRest(lim, s, text, ReadFields(text))
    decreases |text|, 1
  {
    var t := SkipSpace(text);
    SpaceSkips(lim, s, text);
    FieldIsRead(lim, s, t, n);
    if ReadAfterKey(t[n + 2..]).Some? {
      var (c, u) := ReadAfterKey(t[n + 2..]).value;
      var field, w := Beside(NameCost(n), c), SkipSpace(u);
      if Fits(lim, s, field) && w != [] && w[0] == ',' {
        FieldsAreRead(lim, Charge(s, field), w[1..]);
      }
      EntryEnds(lim, s, '{', field, u, MoreFields(u), Run(lim, false, s, t));
      FieldsAre(text, n, c, u);
    }
  }

  // ---- whole texts

  lemma {:induction false} OnlySpaceAfter(lim: Limits, after: State, rest: Bytes)
    requires after.mode.Idle? && after.frames == [] && after.done
    ensures Run(lim, false, after, rest) == if SkipSpace(rest) == [] then Some(after) else None
  {
    SpaceSkips(lim, after, rest);
  }

  /**
   Main result: a text is accepted exactly when the limits are positive, it is not too
   long, the grammar reads it as one value with white space around it, and what that
   value costs is within the limits.
   */
  lemma {:induction false} AcceptsExactlyTheGrammar(lim: Limits, text: Bytes)
    ensures Accepts(lim, text) <==>
            && lim.Positive() && |text| <= lim.maxBytes
            && Document(text).Some? && WithinLimits(lim, Document(text).value)
  {
    if !lim.Positive() { return; }
    var t := SkipSpace(text);
    SpaceSkips(lim, START, text);
    ValueIsRead(lim, START, t);
    if ReadValue(t).Some? {
      var (c, rest) := ReadValue(t).value;
      FitsAtStart(lim, c);
      if Fits(lim, START, c) {
        OnlySpaceAfter(lim, Finish(Charge(START, c)), rest);
      }
    }
  }
}
