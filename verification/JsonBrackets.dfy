/**
 What is true of every text the validator accepts: its brackets match, outside its
 strings and atoms, and a document that is cut short is never accepted.
 */
module JsonBrackets {
  import opened Bytes
  import opened Options
  import opened JsonText
  import opened JsonValue
  import opened JsonPrinter
  import opened JsonValidator
  import opened JsonLimits
  import opened JsonGrammar
  import opened JsonArrayRoundTrip

  // ---- brackets

  datatype Where = Plain | Quoted(escaped: bool) | Word

  /** The brackets that are open after `s`, the innermost last; nothing if one is closed
      by another kind, or if `s` ends inside a string. */
  function StillOpen(s: Bytes, open: seq<char>, at: Where): Option<seq<char>>
    decreases |s|
  {
    if s == [] then (if at.Quoted? then None else Some(open))
    else if at.Quoted? then
      StillOpen(s[1..], open, if !at.escaped && s[0] == '"' then Plain else Quoted(!at.escaped && s[0] == '\\'))
    else if IsSpace(s[0]) || s[0] == ',' || s[0] == ':' then StillOpen(s[1..], open, Plain)
    else if s[0] == ']' || s[0] == '}' then
      if open != [] && open[|open| - 1] == (if s[0] == ']' then '[' else '{')
      then StillOpen(s[1..], open[..|open| - 1], Plain) else None
    else if at.Word? then StillOpen(s[1..], open, Word)
    else if s[0] == '"' then StillOpen(s[1..], open, Quoted(false))
    else if s[0] == '[' || s[0] == '{' then StillOpen(s[1..], open + [s[0]], Plain)
    else StillOpen(s[1..], open, Word)
  }

  lemma {:induction false} SpaceOpensNothing(s: Bytes, open: seq<char>)
    ensures StillOpen(s, open, Plain) == StillOpen(SkipSpace(s), open, Plain)
    decreases |s|
  {
    if s != [] && IsSpace(s[0]) {
      SpaceOpensNothing(s[1..], open);
    }
  }

  lemma {:induction false} StringOpensNothing(s: Bytes, open: seq<char>, escaped: bool)
    requires StringLength(s, escaped).Some?
    ensures StillOpen(s, open, Quoted(escaped)) == StillOpen(s[StringLength(s, escaped).value + 1..], open, Plain)
    decreases |s|
  {
    if escaped || s[0] != '"' {
      var e := !escaped && s[0] == '\\';
      StringOpensNothing(s[1..], open, e);
      assert s[1..][StringLength(s[1..], e).value + 1..] == s[StringLength(s, escaped).value + 1..];
    }
  }

  lemma {:induction false} AtomOpensNothing(s: Bytes, open: seq<char>)
    ensures StillOpen(s, open, Word) == StillOpen(s[AtomLength(s)..], open, Plain)
    decreases |s|
  {
    if s != [] && AtomLength(s) > 0 {
      AtomOpensNothing(s[1..], open);
      assert s[1..][AtomLength(s[1..])..] == s[AtomLength(s)..];
    }
  }

  lemma {:induction false} ValueMatches(s: Bytes, open: seq<char>)
    requires ReadValue(s).Some?
    ensures StillOpen(s, open, Plain) == StillOpen(ReadValue(s).value.1, open, Plain)
    decreases |s|, 0
  {
    if s[0] == '"' {
      StringOpensNothing(s[1..], open, false);
      assert s[1..][StringLength(s[1..], false).value + 1..] == s[StringLength(s[1..], false).value + 2..];
    } else if s[0] == '[' {
      ItemsMatch(s[1..], open);
    } else if s[0] == '{' {
      FieldsMatch(s[1..], open);
    } else {
      AtomOpensNothing(s[1..], open);
      assert s[1..][AtomLength(s[1..])..] == s[1 + AtomLength(s[1..])..];
    }
  }

  lemma {:induction false} ItemsMatch(s: Bytes, open: seq<char>)
    requires ReadItems(s).Some?
    ensures StillOpen(s, open + ['['], Plain) == StillOpen(ReadItems(s).value.1, open, Plain)
    decreases |s|, 1
  {
    var t, inside := SkipSpace(s), open + ['['];
    SpaceOpensNothing(s, inside);
    assert inside[..|inside| - 1] == open;
    if t[0] != ']' {
      ValueMatches(t, inside);
      var (c, u) := ReadValue(t).value;
      ItemsAre(s, c, u);
      SpaceOpensNothing(u, inside);
      if SkipSpace(u)[0] == ',' {
        ItemsMatch(SkipSpace(u)[1..], open);
      }
    }
  }

  lemma {:induction false} AfterKeyMatches(s: Bytes, open: seq<char>)
    requires ReadAfterKey(s).Some?
    ensures StillOpen(s, open, Plain) == StillOpen(ReadAfterKey(s).value.1, open, Plain)
    decreases |s|, 1
  {
    var t := SkipSpace(s);
    SpaceOpensNothing(s, open);
    SpaceOpensNothing(t[1..], open);
    ValueMatches(SkipSpace(t[1..]), open);
  }

  lemma {:induction false} KeyMatches(t: Bytes, open: seq<char>, n: nat)
    requires t != [] && t[0] == '"' && StringLength(t[1..], false) == Some(n)
    ensures StillOpen(t, open, Plain) == StillOpen(t[n + 2..], open, Plain)
  {
    StringOpensNothing(t[1..], open, false);
    assert t[1..][n + 1..] == t[n + 2..];
  }

  lemma {:induction false} FieldsMatch(s: Bytes, open: seq<char>)
    requires ReadFields(s).Some?
    ensures StillOpen(s, open + ['{'], Plain) == StillOpen(ReadFields(s).value.1, open, Plain)
    decreases |s|, 1
  {
    var t, inside := SkipSpace(s), open + ['{'];
    SpaceOpensNothing(s, inside);
    assert inside[..|inside| - 1] == open;
    if t[0] != '}' {
      var n := StringLength(t[1..], false).value;
      var (c, u) := ReadAfterKey(t[n + 2..]).value;
      FieldsAre(s, n, c, u);
      KeyMatches(t, inside, n);
      AfterKeyMatches(t[n + 2..], inside);
      SpaceOpensNothing(u, inside);
      if SkipSpace(u)[0] == ',' {
        FieldsMatch(SkipSpace(u)[1..], open);
      }
    }
  }

  /** Main result: in an accepted text every bracket is closed by its own kind, and every
      string is closed. */
  lemma {:induction false} AcceptedTextMatches(lim: Limits, text: Bytes)
    requires Accepts(lim, text)
    ensures StillOpen(text, [], Plain) == Some([])
  {
    AcceptsExactlyTheGrammar(lim, text);
    var t := SkipSpace(text);
    SpaceOpensNothing(text, []);
    ValueMatches(t, []);
    SpaceOpensNothing(ReadValue(t).value.1, []);
  }

  // ---- cut texts

  lemma {:induction false} SkipSpaceAppends(s: Bytes, y: Bytes)
    requires SkipSpace(s) != []
    ensures SkipSpace(s + y) == SkipSpace(s) + y
    decreases |s|
  {
    if IsSpace(s[0]) {
      SkipSpaceAppends(s[1..], y);
      assert (s + y)[1..] == s[1..] + y;
    }
  }

  lemma {:induction false} StringAppends(s: Bytes, y: Bytes, escaped: bool)
    requires StringLength(s, escaped).Some?
    ensures StringLength(s + y, escaped) == StringLength(s, escaped)
    ensures (s + y)[StringLength(s, escaped).value + 1..] == s[StringLength(s, escaped).value + 1..] + y
    decreases |s|
  {
    if escaped || s[0] != '"' {
      StringAppends(s[1..], y, !escaped && s[0] == '\\');
      assert (s + y)[1..] == s[1..] + y;
    }
  }

  lemma {:induction false} AtomAppends(s: Bytes, y: Bytes)
    requires AtomLength(s) < |s|
    ensures AtomLength(s + y) == AtomLength(s)
    decreases |s|
  {
    if AtomLength(s) > 0 {
      AtomAppends(s[1..], y);
      assert (s + y)[1..] == s[1..] + y;
    }
  }

  /** A value that has been read to its end is read the same whatever comes after it. */
  lemma {:induction false} ValueAppends(s: Bytes, y: Bytes)
    requires ReadValue(s).Some? && (ReadValue(s).value.1 != [] || s[0] == '[' || s[0] == '{')
    ensures ReadValue(s + y) == Some((ReadValue(s).value.0, ReadValue(s).value.1 + y))
    decreases |s|, 0
  {
    assert (s + y)[0] == s[0] && (s + y)[1..] == s[1..] + y;
    if s[0] == '"' {
      StringAppends(s[1..], y, false);
    } else if s[0] == '[' {
      ItemsAppend(s[1..], y);
    } else if s[0] == '{' {
      FieldsAppend(s[1..], y);
    } else {
      AtomAppends(s[1..], y);
      var n := 1 + AtomLength(s[1..]);
      assert (s + y)[n..] == s[n..] + y;
    }
  }

  lemma {:induction false} FirstByteStays(t: Bytes, y: Bytes)
    requires t != []
    ensures (t + y)[0] == t[0] && (t + y)[1..] == t[1..] + y
  {
  }

  /** The end of an entry is the same whatever comes after the container. */
  lemma {:induction false} EntryAppends(c: Cost, u: Bytes, closing: char, more: Option<(Cost, Bytes)>, y: Bytes)
    requires AfterEntry(c, u, closing, more).Some?
    ensures var (d, rest) := AfterEntry(c, u, closing, more).value;
            var longer := match more case None => None case Some((e, last)) => Some((e, last + y));
            AfterEntry(c, u + y, closing, longer) == Some((d, rest + y))
  {
    SkipSpaceAppends(u, y);
    FirstByteStays(SkipSpace(u), y);
  }

  lemma {:induction false} ItemsAppend(s: Bytes, y: Bytes)
    requires ReadItems(s).Some?
    ensures ReadItems(s + y) == Some((ReadItems(s).value.0, ReadItems(s).value.1 + y))
    decreases |s|, 1
  {
    var t := SkipSpace(s);
    SkipSpaceAppends(s, y);
    FirstByteStays(t, y);
    if t[0] != ']' {
      var (c, u) := ReadValue(t).value;
      var w := SkipSpace(u);
      ItemsAre(s, c, u);
      ValueAppends(t, y);
      ItemsAre(s + y, c, u + y);
      SkipSpaceAppends(u, y);
      FirstByteStays(w, y);
      if w[0] == ',' {
        ItemsAppend(w[1..], y);
      }
      EntryAppends(c, u, ']', MoreItems(u), y);
    }
  }

  lemma {:induction false} AfterKeyAppends(s: Bytes, y: Bytes)
    requires ReadAfterKey(s).Some? && ReadAfterKey(s).value.1 != []
    ensures ReadAfterKey(s + y) == Some((ReadAfterKey(s).value.0, ReadAfterKey(s).value.1 + y))
    decreases |s|, 1
  {
    var t := SkipSpace(s);
    SkipSpaceAppends(s, y);
    assert (t + y)[0] == t[0] && (t + y)[1..] == t[1..] + y;
    SkipSpaceAppends(t[1..], y);
    ValueAppends(SkipSpace(t[1..]), y);
  }

  ghost predicate FieldsSurvive(s: Bytes, y: Bytes) {
    && ReadFields(s).Some?
    && ReadFields(s + y) == Some((ReadFields(s).value.0, ReadFields(s).value.1 + y))
  }

  lemma {:induction false} MoreFieldsAppend(u: Bytes, y: Bytes)
    requires SkipSpace(u) != [] && (SkipSpace(u)[0] == ',' ==> FieldsSurvive(SkipSpace(u)[1..], y))
    ensures MoreFields(u + y) == match MoreFields(u) case None => None case Some((e, last)) => Some((e, last + y))
  {
    SkipSpaceAppends(u, y);
    FirstByteStays(SkipSpace(u), y);
  }

  lemma {:induction false} FieldsAppend(s: Bytes, y: Bytes)
    requires ReadFields(s).Some?
    ensures FieldsSurvive(s, y)
    decreases |s|, 2
  {
    var t := SkipSpace(s);
    SkipSpaceAppends(s, y);
    FirstByteStays(t, y);
    if t[0] != '}' {
      var n := StringLength(t[1..], false).value;
      var (c, u) := ReadAfterKey(t[n + 2..]).value;
      FieldsAre(s, n, c, u);
      FirstFieldAppends(s, y, n, c, u);
      if SkipSpace(u)[0] == ',' {
        FieldsAppend(SkipSpace(u)[1..], y);
      }
      MoreFieldsAppend(u, y);
      EntryAppends(Beside(NameCost(n), c), u, '}', MoreFields(u), y);
    }
  }

  lemma {:induction false} FirstFieldAppends(s: Bytes, y: Bytes, n: nat, c: Cost, u: Bytes)
    requires var t := SkipSpace(s);
             t != [] && t[0] == '"' && StringLength(t[1..], false) == Some(n) && ReadAfterKey(t[n + 2..]) == Some((c, u)) && u != []
    ensures ReadFields(s + y) == AfterEntry(Beside(NameCost(n), c), u + y, '}', MoreFields(u + y))
    decreases |s|, 1
  {
    var t := SkipSpace(s);
    SkipSpaceAppends(s, y);
    FirstByteStays(t, y);
    FieldAppends(t, y);
    FieldsAre(s + y, n, c, u + y);
  }

  lemma {:induction false} FieldAppends(t: Bytes, y: Bytes)
    requires t != [] && t[0] == '"' && StringLength(t[1..], false).Some?
    requires var n := StringLength(t[1..], false).value;
             ReadAfterKey(t[n + 2..]).Some? && ReadAfterKey(t[n + 2..]).value.1 != []
    ensures var n := StringLength(t[1..], false).value;
            && StringLength((t + y)[1..], false) == Some(n)
            && ReadAfterKey((t + y)[n + 2..]) ==
               Some((ReadAfterKey(t[n + 2..]).value.0, ReadAfterKey(t[n + 2..]).value.1 + y))
    decreases |t|, 0
  {
    var n := StringLength(t[1..], false).value;
    assert (t + y)[1..] == t[1..] + y && (t + y)[n + 2..] == t[n + 2..] + y;
    StringAppends(t[1..], y, false);
    AfterKeyAppends(t[n + 2..], y);
  }

  ghost predicate EndsWith(s: Bytes, rest: Bytes) {
    |rest| <= |s| && s[|s| - |rest|..] == rest
  }

  lemma {:induction false} EndsTransitively(a: Bytes, b: Bytes, c: Bytes)
    requires EndsWith(a, b) && EndsWith(b, c)
    ensures EndsWith(a, c)
  {
    assert a[|a| - |c|..] == a[|a| - |b|..][|b| - |c|..];
  }

  lemma {:induction false} SpaceEnds(s: Bytes)
    ensures EndsWith(s, SkipSpace(s))
    decreases |s|
  {
    if s != [] && IsSpace(s[0]) {
      SpaceEnds(s[1..]);
      assert EndsWith(s, s[1..]);
      EndsTransitively(s, s[1..], SkipSpace(s));
    }
  }

  lemma {:induction false} SuffixOfValue(s: Bytes)
    requires ReadValue(s).Some?
    ensures EndsWith(s, ReadValue(s).value.1)
    decreases |s|, 0
  {
    assert EndsWith(s, s[1..]);
    if s[0] == '[' {
      SuffixOfItems(s[1..]);
      EndsTransitively(s, s[1..], ReadValue(s).value.1);
    } else if s[0] == '{' {
      SuffixOfFields(s[1..]);
      EndsTransitively(s, s[1..], ReadValue(s).value.1);
    }
  }

  /** After an entry that leaves `u`, a byte and then `rest` are left, or more. */
  /** After an entry that leaves `u`, a byte and then the rest are left, or more. */
  lemma {:induction false} SuffixAfter(c: Cost, u: Bytes, closing: char, more: Option<(Cost, Bytes)>)
    requires AfterEntry(c, u, closing, more).Some?
    requires SkipSpace(u) != [] && more.Some? ==> EndsWith(SkipSpace(u)[1..], more.value.1)
    ensures EndsWith(u, AfterEntry(c, u, closing, more).value.1)
  {
    var w := SkipSpace(u);
    SpaceEnds(u);
    assert EndsWith(w, w[1..]);
    EndsTransitively(u, w, w[1..]);
    if w[0] != closing {
      EndsTransitively(u, w[1..], more.value.1);
    }
  }

  lemma {:induction false} SuffixOfItems(s: Bytes)
    requires ReadItems(s).Some?
    ensures EndsWith(s, ReadItems(s).value.1)
    decreases |s|, 1
  {
    var t := SkipSpace(s);
    SpaceEnds(s);
    if t[0] == ']' {
      assert EndsWith(t, t[1..]);
      EndsTransitively(s, t, t[1..]);
    } else {
      var (c, u) := ReadValue(t).value;
      ItemsAre(s, c, u);
      SuffixOfValue(t);
      EndsTransitively(s, t, u);
      if SkipSpace(u)[0] == ',' {
        SuffixOfItems(SkipSpace(u)[1..]);
      }
      SuffixAfter(c, u, ']', MoreItems(u));
      EndsTransitively(s, u, ReadItems(s).value.1);
    }
  }

  lemma {:induction false} SuffixOfField(s: Bytes)
    requires ReadAfterKey(s).Some?
    ensures EndsWith(s, ReadAfterKey(s).value.1)
    decreases |s|, 1
  {
    var t := SkipSpace(s);
    var x := SkipSpace(t[1..]);
    SpaceEnds(s);
    SpaceEnds(t[1..]);
    assert EndsWith(t, t[1..]);
    EndsTransitively(s, t, t[1..]);
    EndsTransitively(s, t[1..], x);
    SuffixOfValue(x);
    EndsTransitively(s, x, ReadValue(x).value.1);
  }

  lemma {:induction false} SuffixOfFields(s: Bytes)
    requires ReadFields(s).Some?
    ensures EndsWith(s, ReadFields(s).value.1)
    decreases |s|, 1
  {
    var t := SkipSpace(s);
    SpaceEnds(s);
    if t[0] == '}' {
      assert EndsWith(t, t[1..]);
      EndsTransitively(s, t, t[1..]);
    } else {
      var n := StringLength(t[1..], false).value;
      var after := t[n + 2..];
      var (c, u) := ReadAfterKey(after).value;
      FieldsAre(s, n, c, u);
      assert EndsWith(t, after);
      EndsTransitively(s, t, after);
      SuffixOfField(after);
      EndsTransitively(s, after, u);
      if SkipSpace(u)[0] == ',' {
        SuffixOfFields(SkipSpace(u)[1..]);
      }
      SuffixAfter(Beside(NameCost(n), c), u, '}', MoreFields(u));
      EndsTransitively(s, u, ReadFields(s).value.1);
    }
  }

  lemma {:induction false} AllSpace(s: Bytes)
    requires SkipSpace(s) == [] && s != []
    ensures IsSpace(s[|s| - 1])
    decreases |s|
  {
    if |s| > 1 {
      AllSpace(s[1..]);
    }
  }

  lemma {:induction false} NothingFollows(whole: Bytes)
    requires whole != [] && !IsSpace(whole[0]) && !IsSpace(whole[|whole| - 1]) && Document(whole).Some?
    ensures ReadValue(whole).Some? && ReadValue(whole).value.1 == []
  {
    var rest := ReadValue(whole).value.1;
    if rest != [] {
      SuffixOfValue(whole);
      AllSpace(rest);
    }
  }

  /** A text that starts with a bracket, ends with something other than white space and
      is one value, can not be cut anywhere. */
  lemma {:induction false} NoCutIsAccepted(lim: Limits, whole: Bytes, cut: Bytes)
    requires whole != [] && (whole[0] == '[' || whole[0] == '{') && !IsSpace(whole[|whole| - 1])
    requires Document(whole).Some? && cut < whole
    ensures !Accepts(lim, cut)
  {
    var y := whole[|cut|..];
    assert cut + y == whole && y != [];
    NothingFollows(whole);
    AcceptsExactlyTheGrammar(lim, cut);
    if Accepts(lim, cut) {
      ValueAppends(cut, y);
    }
  }

  /** Main result: no proper prefix of the printing of a list or a dictionary is accepted. */
  lemma {:induction false} CutPrintingIsRefused(lim: Limits, v: Json, level: nat, cut: Bytes)
    requires (v.List? || v.Dict?) && cut < Print(v, level)
    ensures !Accepts(lim, cut)
  {
    var c := CostOf(v);
    var enough := Limits(|Print(v, level)| + 1, c.nodes + 1, c.tokens + 1, c.depth + 1, c.key + 1, c.text + 1, c.atom + 1);
    assert Print(v, level) + [] == Print(v, level);
    AcceptsExactlyWithinLimits(enough, v, level, []);
    AcceptsExactlyTheGrammar(enough, Print(v, level));
    PrintEnds(v, level);
    PrintOpens(v, level);
    NoCutIsAccepted(lim, Print(v, level), cut);
  }

  lemma {:induction false} PrintOpens(v: Json, level: nat)
    requires v.List? || v.Dict?
    ensures Print(v, level) != [] && (Print(v, level)[0] == '[' || Print(v, level)[0] == '{')
  {
  }

  /** An atom may hold anything but what ends it, so brackets inside atoms need not match. */
  lemma {:induction false} AtomsMayHoldBrackets(lim: Limits)
    requires lim.Positive() && lim.maxBytes >= 4 && lim.maxNodes >= 2 && lim.maxTokens >= 2 && lim.maxDepth >= 2
    requires lim.maxAtomBytes >= 2
    ensures Accepts(lim, "[1{]")
  {
    BracketInAtom();
    AcceptsExactlyTheGrammar(lim, "[1{]");
  }

  lemma {:induction false} BracketInAtom()
    ensures Document("[1{]") == Some(Around(AtomCost(2)))
  {
    assert AtomLength("{]") == 1 + AtomLength("]");
    assert "[1{]"[1..] == "1{]" && "1{]"[1..] == "{]";
    ItemsAre("1{]", AtomCost(2), "]");
  }
}
