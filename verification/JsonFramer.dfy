/**
 `_frame_json_element`: finds where one element of a top-level array ends, before
 it is decoded.  `FrameFrom` reads one byte at a time; the class `Framer` is the
 program, which reads a block at a time and skips runs inside strings.
 */
module JsonFramer {
  import opened Bytes
  import opened Options
  import opened JsonValidator

  const MAX_ATOM: nat := 1024

  datatype FrameLimits = FrameLimits(maxElementBytes: int, maxNodes: int, maxTokens: int, maxDepth: int)
  {
    predicate Positive() {
      0 < maxElementBytes && 0 < maxNodes && 0 < maxTokens && 0 < maxDepth
    }
  }

  datatype FrameMode = Outside | InText(isKey: bool, escaped: bool) | InWord(bytes: nat)

  datatype FrameState = FrameState(stack: seq<Frame>, mode: FrameMode, tokens: nat, nodes: nat)

  /** The raw bytes of an element, the byte that ended it, and the input after that. */
  datatype Framed = Framed(raw: Bytes, delimiter: char, rest: Bytes)

  const FRESH := FrameState([], Outside, 0, 0)

  predicate EndsElement(s: FrameState, b: char) {
    !s.mode.InText? && s.stack == [] && (b == ',' || b == ']')
  }

  function Finished(s: FrameState): FrameState {
    s.(mode := Outside, stack := SetTop(s.stack, CommaOrEnd))
  }

  /** A value starts; it and the token that starts it are counted. */
  function Begun(lim: FrameLimits, s: FrameState): Option<FrameState> {
    if |s.stack| + 1 <= lim.maxDepth && s.nodes + 1 <= lim.maxNodes && s.tokens + 1 <= lim.maxTokens
    then Some(s.(nodes := s.nodes + 1, tokens := s.tokens + 1))
    else None
  }

  predicate AtKey(s: FrameState) {
    s.stack != [] && s.stack[|s.stack| - 1] == Frame('{', KeyOrEnd)
  }

  /** A byte outside strings and atoms that does not end the element. */
  function OutsideStep(lim: FrameLimits, s: FrameState, b: char): Option<FrameState> {
    if b == '"' && AtKey(s) then
      if s.tokens + 1 <= lim.maxTokens then Some(s.(tokens := s.tokens + 1, mode := InText(true, false))) else None
    else if b == '"' || b == '{' || b == '[' || StartsJsonAtom(b) then
      match Begun(lim, s)
      case None => None
      case Some(t) =>
        if b == '"' then Some(t.(mode := InText(false, false)))
        else if b == '{' then Some(t.(stack := t.stack + [Frame(b, KeyOrEnd)]))
        else if b == '[' then Some(t.(stack := t.stack + [Frame(b, ValueOrEnd)]))
        else Some(t.(mode := InWord(1)))
    else if b == '}' || b == ']' then
      if s.stack == [] || s.stack[|s.stack| - 1].opening != (if b == '}' then '{' else '[') then None
      else Some(Finished(s.(stack := s.stack[..|s.stack| - 1])))
    else if b == ':' && s.stack != [] && s.stack[|s.stack| - 1].opening == '{' then
      Some(s.(stack := SetTop(s.stack, Value)))
    else if b == ',' && s.stack != [] then
      Some(s.(stack := SetTop(s.stack, if s.stack[|s.stack| - 1].opening == '{' then KeyOrEnd else ValueOrEnd)))
    else Some(s)
  }

  /** A byte that does not end the element. */
  function FrameStep(lim: FrameLimits, s: FrameState, b: char): Option<FrameState> {
    match s.mode
    case Outside => OutsideStep(lim, s, b)
    case InText(isKey, escaped) =>
      if !escaped && b == '"' then
        Some(if isKey then s.(mode := Outside, stack := SetTop(s.stack, Colon)) else Finished(s))
      else Some(s.(mode := InText(isKey, !escaped && b == '\\')))
    case InWord(n) =>
      if EndsAtom(b) then OutsideStep(lim, Finished(s), b)
      else if n + 1 <= MAX_ATOM then Some(s.(mode := InWord(n + 1)))
      else None
  }

  /** The rest of an element of which `raw` has been read.  Every raw byte counts against the limit. */
  function FrameFrom(lim: FrameLimits, s: FrameState, input: Bytes, raw: Bytes): Option<Framed>
    decreases |input|
  {
    if |raw| > lim.maxElementBytes || input == [] then None
    else if EndsElement(s, input[0]) then Some(Framed(raw, input[0], input[1..]))
    else
      match FrameStep(lim, s, input[0])
      case None => None
      case Some(t) => FrameFrom(lim, t, input[1..], raw + [input[0]])
  }

  lemma {:induction false} TooLong(lim: FrameLimits, s: FrameState, input: Bytes, raw: Bytes)
    requires |raw| > lim.maxElementBytes
    ensures FrameFrom(lim, s, input, raw) == None
  {
  }

  lemma {:induction false} PlainText(lim: FrameLimits, s: FrameState, run: Bytes, rest: Bytes, raw: Bytes)
    requires s.mode.InText? && !s.mode.escaped
    requires forall i :: 0 <= i < |run| ==> !StringSpecial(run[i])
    ensures FrameFrom(lim, s, run + rest, raw) == FrameFrom(lim, s, rest, raw + run)
    decreases |run|
  {
    if run == [] {
      assert run + rest == rest && raw + run == raw;
    } else {
      assert (run + rest)[1..] == run[1..] + rest;
      assert (raw + [run[0]]) + run[1..] == raw + run;
      PlainText(lim, s, run[1..], rest, raw + [run[0]]);
    }
  }

  lemma {:induction false} SkipText(lim: FrameLimits, s: FrameState, block: Bytes, index: nat, special: nat, raw: Bytes, rest: Bytes)
    requires index <= special <= |block| && s.mode.InText? && !s.mode.escaped
    requires forall i :: index <= i < special ==> !StringSpecial(block[i])
    ensures FrameFrom(lim, s, block[index..] + rest, raw) ==
            FrameFrom(lim, s, block[special..] + rest, raw + block[index..special])
  {
    assert block[index..] + rest == block[index..special] + (block[special..] + rest);
    PlainText(lim, s, block[index..special], block[special..] + rest, raw);
  }

  lemma {:induction false} OneByte(lim: FrameLimits, s: FrameState, block: Bytes, index: nat, raw: Bytes, rest: Bytes)
    requires index < |block|
    ensures FrameFrom(lim, s, block[index..] + rest, raw) ==
            if |raw| > lim.maxElementBytes then None
            else if EndsElement(s, block[index]) then Some(Framed(raw, block[index], block[index + 1..] + rest))
            else
              match FrameStep(lim, s, block[index])
              case None => None
              case Some(t) => FrameFrom(lim, t, block[index + 1..] + rest, raw + [block[index]])
  {
    assert (block[index..] + rest)[1..] == block[index + 1..] + rest;
  }

  /** Some more of a block has been read. */
  lemma {:induction false} ReadGrows(before: Bytes, block: Bytes, position: nat, index: nat, next: nat)
    requires position <= index <= next <= |block|
    ensures (before + block[position..index]) + block[index..next] == before + block[position..next]
  {
  }

  lemma {:induction false} ReadOne(before: Bytes, block: Bytes, position: nat, index: nat)
    requires position <= index < |block|
    ensures (before + block[position..index]) + [block[index]] == before + block[position..index + 1]
  {
  }

  /** All of a block has been read. */
  lemma {:induction false} ReadAll(block: Bytes, position: nat, rest: Bytes)
    requires position <= |block|
    ensures block[|block|..] + rest == rest && block[position..|block|] == block[position..]
  {
  }

  datatype BlockResult = Failed | More | Done(at: nat)

  class Framer {
    const lim: FrameLimits
    var payload: Bytes
    var stack: seq<Frame>
    var inString: bool
    var stringIsKey: bool
    var escaped: bool
    var stringBytes: nat
    var inAtom: bool
    var atomBytes: nat
    var tokens: nat
    var nodes: nat

    ghost predicate Valid()
      reads this
    {
      !(inString && inAtom) && (escaped ==> inString)
    }

    ghost function St(): FrameState
      reads this
    {
      var mode := if inString then InText(stringIsKey, escaped) else if inAtom then InWord(atomBytes) else Outside;
      FrameState(stack, mode, tokens, nodes)
    }

    constructor (lim: FrameLimits)
      ensures Valid() && this.lim == lim && St() == FRESH && payload == [] && stringBytes == 0
    {
      this.lim := lim;
      payload, stack, inString, stringIsKey, escaped, stringBytes := [], [], false, false, false, 0;
      inAtom, atomBytes, tokens, nodes := false, 0, 0, 0;
    }

    method StartValue() returns (ok: bool)
      modifies this`nodes
      ensures nodes == old(nodes) + 1 || !ok
      ensures ok == (|stack| + 1 <= lim.maxDepth && old(nodes) + 1 <= lim.maxNodes)
    {
      if |stack| + 1 > lim.maxDepth { return false; }
      nodes := nodes + 1;
      ok := nodes <= lim.maxNodes;
    }

    method FinishValue()
      requires !inString && !inAtom
      modifies this`stack
      ensures St() == Finished(old(St()))
    {
      if stack != [] {
        stack := SetTop(stack, CommaOrEnd);
      }
    }

    /** One byte outside strings and atoms. */
    method AtByte(current: char) returns (ok: bool)
      requires Valid() && !inString && !inAtom && !EndsElement(St(), current)
      modifies this
      ensures payload == old(payload)
      ensures ok ==> Valid() && OutsideStep(lim, old(St()), current) == Some(St())
      ensures !ok ==> OutsideStep(lim, old(St()), current) == None
      ensures inString ==> stringBytes == 0
    {
      ok := true;
      if current == '"' {
        tokens := tokens + 1;
        inString, stringBytes, escaped := true, 0, false;
        stringIsKey := stack != [] && stack[|stack| - 1].opening == '{' && stack[|stack| - 1].next == KeyOrEnd;
        if !stringIsKey { ok := StartValue(); }
      } else if current == '{' || current == '[' {
        tokens := tokens + 1;
        ok := StartValue();
        stack := stack + [Frame(current, if current == '{' then KeyOrEnd else ValueOrEnd)];
      } else if current == '}' || current == ']' {
        if stack == [] || stack[|stack| - 1].opening != (if current == '}' then '{' else '[') { return false; }
        stack := stack[..|stack| - 1];
        FinishValue();
        return;
      } else if StartsJsonAtom(current) {
        tokens := tokens + 1;
        ok := StartValue();
        inAtom, atomBytes := true, 1;
      } else if current == ':' && stack != [] && stack[|stack| - 1].opening == '{' {
        stack := SetTop(stack, Value);
        return;
      } else if current == ',' && stack != [] {
        stack := SetTop(stack, if stack[|stack| - 1].opening == '{' then KeyOrEnd else ValueOrEnd);
        return;
      } else {
        return;
      }
      ok := ok && tokens <= lim.maxTokens;
    }

    /** One turn of the loop inside a string. */
    method InsideString(block: Bytes, index: nat, ghost raw: Bytes, ghost rest: Bytes) returns (ok: bool, next: nat)
      requires Valid() && inString && index < |block| && stringBytes <= |raw|
      modifies this
      ensures payload == old(payload) && index < next <= |block|
      ensures stringBytes <= |raw| + (next - index)
      ensures ok ==> Valid()
      ensures ok ==> FrameFrom(lim, old(St()), block[index..] + rest, raw) ==
                     FrameFrom(lim, St(), block[next..] + rest, raw + block[index..next])
      ensures !ok ==> FrameFrom(lim, old(St()), block[index..] + rest, raw) == None
    {
      ghost var s := St();
      if escaped {
        OneByte(lim, s, block, index, raw, rest);
        assert block[index..index + 1] == [block[index]];
        escaped := false;
        stringBytes := stringBytes + 1;
        return true, index + 1;
      }
      var special := FindStringSpecial(block, index);
      ghost var skipped := raw + block[index..special];
      SkipText(lim, s, block, index, special, raw, rest);
      if special == |block| {
        stringBytes := stringBytes + (|block| - index);
        return true, |block|;
      }
      stringBytes := stringBytes + (special - index) + 1;
      next := special + 1;
      OneByte(lim, s, block, special, skipped, rest);
      assert skipped + [block[special]] == raw + block[index..next];
      if block[special] == '\\' {
        escaped := true;
      } else {
        inString := false;
        if stringIsKey {
          stack := SetTop(stack, Colon);
        } else {
          FinishValue();
        }
      }
      ok := stringBytes <= lim.maxElementBytes;
      if !ok {
        TooLong(lim, St(), block[next..] + rest, raw + block[index..next]);
      }
    }

    /** One turn of the loop outside strings. */
    method OutsideString(current: char) returns (ok: bool, ended: bool)
      requires Valid() && !inString
      modifies this
      ensures payload == old(payload)
      ensures ended == EndsElement(old(St()), current)
      ensures ended ==> ok
      ensures ok && !ended ==> Valid() && FrameStep(lim, old(St()), current) == Some(St())
      ensures ok && !ended && inString ==> stringBytes == 0
      ensures !ok ==> FrameStep(lim, old(St()), current) == None
    {
      ended := false;
      if inAtom {
        if EndsAtom(current) {
          inAtom, atomBytes := false, 0;
          FinishValue();
        } else {
          atomBytes := atomBytes + 1;
          ok := atomBytes <= MAX_ATOM;
          return;
        }
      }
      if stack == [] && (current == ',' || current == ']') { return true, true; }
      ok := AtByte(current);
    }

    /** The loop over the unread part of one block. */
    method FrameBlock(block: Bytes, position: nat, ghost rest: Bytes) returns (r: BlockResult)
      requires Valid() && position <= |block|
      requires inString ==> stringBytes <= |payload|
      modifies this
      ensures r.Failed? ==> FrameFrom(lim, old(St()), block[position..] + rest, old(payload)) == None
      ensures r.Done? ==> position <= r.at < |block|
      ensures r.Done? ==> FrameFrom(lim, old(St()), block[position..] + rest, old(payload)) ==
                          Some(Framed(payload, block[r.at], block[r.at + 1..] + rest))
      ensures r.More? ==> Valid() && (inString ==> stringBytes <= |payload|)
      ensures r.More? ==> payload == old(payload) + block[position..]
      ensures r.More? ==> FrameFrom(lim, old(St()), block[position..] + rest, old(payload)) ==
                          FrameFrom(lim, St(), rest, payload)
    {
      ghost var whole := FrameFrom(lim, St(), block[position..] + rest, payload);
      var index := position;
      assert payload + block[position..index] == payload;
      while index < |block|
        invariant position <= index <= |block| && Valid() && payload == old(payload)
        invariant inString ==> stringBytes <= |payload| + (index - position)
        invariant whole == FrameFrom(lim, St(), block[index..] + rest, payload + block[position..index])
      {
        var current := block[index];
        ghost var raw := payload + block[position..index];
        if inString {
          var ok, next := InsideString(block, index, raw, rest);
          if !ok { return Failed; }
          ReadGrows(payload, block, position, index, next);
          index := next;
        } else {
          OneByte(lim, St(), block, index, raw, rest);
          ReadOne(payload, block, position, index);
          var ok, ended := OutsideString(current);
          if !ok { return Failed; }
          if ended {
            if |payload| + (index - position) > lim.maxElementBytes { return Failed; }
            payload := payload + block[position..index];
            return Done(index);
          }
          index := index + 1;
        }
      }
      ReadAll(block, position, rest);
      if |payload| + (|block| - position) > lim.maxElementBytes {
        TooLong(lim, St(), block[index..] + rest, payload + block[position..index]);
        return Failed;
      }
      payload := payload + block[position..];
      r := More;
    }
  }
}
