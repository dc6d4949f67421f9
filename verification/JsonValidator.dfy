/**
 `validate_bounded_json_stream`: a resource-budget pass over JSON text that
 arrives in blocks.  `Step` is the machine reading one byte at a time; the class
 `Validator` is the program, which skips whole runs inside a block.
 */
module JsonValidator {
  import opened Bytes
  import opened Options
  import opened JsonText

  /** The largest block a reader may return. */
  const READ_BYTES: nat := 1024 * 1024

  datatype Limits = Limits(
    maxBytes: int, maxNodes: int, maxTokens: int, maxDepth: int,
    maxKeyBytes: int, maxStringBytes: int, maxAtomBytes: int)
  {
    predicate Positive() {
      && 0 < maxBytes && 0 < maxNodes && 0 < maxTokens && 0 < maxDepth
      && 0 < maxKeyBytes && 0 < maxStringBytes && 0 < maxAtomBytes
    }
  }

  datatype Next = KeyOrEnd | Colon | Value | CommaOrEnd | ValueOrEnd

  datatype Frame = Frame(opening: char, next: Next)

  datatype Mode = Idle | InString(isKey: bool, escaped: bool, bytes: nat) | InAtom(bytes: nat)

  datatype State = State(frames: seq<Frame>, done: bool, mode: Mode, tokens: nat, nodes: nat)

  const START := State([], false, Idle, 0, 0)

  predicate EndsAtom(b: char) {
    IsSpace(b) || b == ',' || b == ']' || b == '}' || b == ':'
  }

  predicate StringSpecial(b: char) {
    b == '"' || b == '\\'
  }

  /** First bytes of the atoms of JSON; the validator itself lets any byte start one. */
  predicate StartsJsonAtom(b: char) {
    '0' <= b <= '9' || b == '-' || b == 't' || b == 'f' || b == 'n'
  }

  function SetTop(frames: seq<Frame>, e: Next): seq<Frame> {
    if frames == [] then []
    else frames[..|frames| - 1] + [frames[|frames| - 1].(next := e)]
  }

  function Finish(s: State): State {
    if s.frames == [] then s.(mode := Idle, done := true)
    else s.(mode := Idle, frames := SetTop(s.frames, CommaOrEnd))
  }

  function Pop(s: State): State
    requires s.frames != []
  {
    Finish(s.(frames := s.frames[..|s.frames| - 1]))
  }

  function StartValue(lim: Limits, s: State): Option<State> {
    if |s.frames| + 1 <= lim.maxDepth && s.nodes + 1 <= lim.maxNodes && s.tokens + 1 <= lim.maxTokens
    then Some(s.(nodes := s.nodes + 1, tokens := s.tokens + 1))
    else None
  }

  predicate WantsValue(s: State) {
    if s.frames == [] then !s.done
    else s.frames[|s.frames| - 1].next in {Value, ValueOrEnd}
  }

  predicate StringFits(lim: Limits, isKey: bool, bytes: nat) {
    bytes <= lim.maxStringBytes && (isKey ==> bytes <= lim.maxKeyBytes)
  }

  /** A byte inside a string. */
  function StringStep(lim: Limits, s: State, b: char): Option<State>
    requires s.mode.InString?
  {
    var m := s.mode;
    if !m.escaped && b == '"' then
      Some(if m.isKey then s.(mode := Idle, frames := SetTop(s.frames, Colon)) else Finish(s))
    else if StringFits(lim, m.isKey, m.bytes + 1) then
      Some(s.(mode := InString(m.isKey, !m.escaped && b == '\\', m.bytes + 1)))
    else None
  }

  /** A byte where a value may start. */
  function ValueStep(lim: Limits, strict: bool, s: State, b: char): Option<State> {
    if !WantsValue(s) || b == '}' || b == ']' || b == ',' || b == ':' then None
    else
      match StartValue(lim, s)
      case None => None
      case Some(t) =>
        if b == '"' then Some(t.(mode := InString(false, false, 0)))
        else if b == '{' then Some(t.(frames := t.frames + [Frame(b, KeyOrEnd)]))
        else if b == '[' then Some(t.(frames := t.frames + [Frame(b, ValueOrEnd)]))
        else if 1 <= lim.maxAtomBytes && (strict ==> StartsJsonAtom(b)) then Some(t.(mode := InAtom(1)))
        else None
  }

  /** A byte outside strings and atoms. */
  function IdleStep(lim: Limits, strict: bool, s: State, b: char): Option<State> {
    if IsSpace(b) then Some(s)
    else if s.frames == [] then (if s.done then None else ValueStep(lim, strict, s, b))
    else
      var top := s.frames[|s.frames| - 1];
      if top.opening == '{' && top.next == KeyOrEnd then
        if b == '}' then Some(Pop(s))
        else if b == '"' && s.tokens + 1 <= lim.maxTokens then
          Some(s.(tokens := s.tokens + 1, mode := InString(true, false, 0)))
        else None
      else if top.opening == '{' && top.next == Colon then
        if b == ':' then Some(s.(frames := SetTop(s.frames, Value))) else None
      else if top.next == CommaOrEnd then
        if b == (if top.opening == '{' then '}' else ']') then Some(Pop(s))
        else if b == ',' then
          Some(s.(frames := SetTop(s.frames, if top.opening == '{' then KeyOrEnd else ValueOrEnd)))
        else None
      else if top.opening != '{' && top.next == ValueOrEnd && b == ']' then Some(Pop(s))
      else ValueStep(lim, strict, s, b)
  }

  /**
   One byte of input.  With `strict`, an atom must start as a JSON atom does;
   the program is the machine that is not strict.
   */
  function Step(lim: Limits, strict: bool, s: State, b: char): Option<State> {
    match s.mode
    case Idle => IdleStep(lim, strict, s, b)
    case InString(_, _, _) => StringStep(lim, s, b)
    case InAtom(n) =>
      if EndsAtom(b) then IdleStep(lim, strict, Finish(s), b)
      else if n + 1 <= lim.maxAtomBytes then Some(s.(mode := InAtom(n + 1)))
      else None
  }

  function Run(lim: Limits, strict: bool, s: State, input: Bytes): Option<State>
    decreases |input|
  {
    if input == [] then Some(s)
    else
      match Step(lim, strict, s, input[0])
      case None => None
      case Some(t) => Run(lim, strict, t, input[1..])
  }

  /** Goes on after some input has been read, unless it was refused. */
  function RunFrom(lim: Limits, strict: bool, r: Option<State>, input: Bytes): Option<State> {
    match r
    case None => None
    case Some(s) => Run(lim, strict, s, input)
  }

  predicate Complete(s: State) {
    !s.mode.InString? && s.frames == [] && (s.done || s.mode.InAtom?)
  }

  /** The verdict on a whole text. */
  predicate Accepts(lim: Limits, input: Bytes) {
    && lim.Positive()
    && |input| <= lim.maxBytes
    && var r := Run(lim, false, START, input); r.Some? && Complete(r.value)
  }

  lemma {:induction false} RunAppends(lim: Limits, strict: bool, s: State, a: Bytes, b: Bytes)
    ensures Run(lim, strict, s, a + b) == RunFrom(lim, strict, Run(lim, strict, s, a), b)
    decreases |a|
  {
    if a == [] {
      assert a + b == b;
    } else {
      assert (a + b)[1..] == a[1..] + b;
      var r := Step(lim, strict, s, a[0]);
      if r.Some? {
        RunAppends(lim, strict, r.value, a[1..], b);
      }
    }
  }

  lemma {:induction false} RunOne(lim: Limits, strict: bool, s: State, b: char)
    ensures Run(lim, strict, s, [b]) == Step(lim, strict, s, b)
  {
    var r := Step(lim, strict, s, b);
    if r.Some? {
      assert Run(lim, strict, r.value, [b][1..]) == Some(r.value);
    }
  }

  /** A run of bytes that are neither quotes nor backslashes only adds to the string's length. */
  lemma {:induction false} PlainRun(lim: Limits, strict: bool, s: State, run: Bytes)
    requires s.mode.InString? && !s.mode.escaped
    requires forall i :: 0 <= i < |run| ==> !StringSpecial(run[i])
    requires StringFits(lim, s.mode.isKey, s.mode.bytes)
    ensures Run(lim, strict, s, run) ==
            if StringFits(lim, s.mode.isKey, s.mode.bytes + |run|)
            then Some(s.(mode := s.mode.(bytes := s.mode.bytes + |run|))) else None
    decreases |run|
  {
    if run != [] && StringFits(lim, s.mode.isKey, s.mode.bytes + 1) {
      PlainRun(lim, strict, s.(mode := s.mode.(bytes := s.mode.bytes + 1)), run[1..]);
    }
  }

  lemma {:induction false} SpaceRun(lim: Limits, strict: bool, s: State, run: Bytes)
    requires s.mode.Idle?
    requires forall i :: 0 <= i < |run| ==> IsSpace(run[i])
    ensures Run(lim, strict, s, run) == Some(s)
    decreases |run|
  {
    if run != [] {
      SpaceRun(lim, strict, s, run[1..]);
    }
  }

  /** What a reader that returns `blocks`, then nothing, delivers: it stops at an empty block. */
  function Content(blocks: seq<Bytes>): Bytes {
    if blocks == [] || blocks[0] == [] then [] else blocks[0] + Content(blocks[1..])
  }

  /** No block that is read is larger than the program asked for. */
  predicate Deliverable(blocks: seq<Bytes>) {
    blocks != [] && blocks[0] != [] ==> |blocks[0]| <= READ_BYTES && Deliverable(blocks[1..])
  }

  lemma {:induction false} NextBlock(blocks: seq<Bytes>, i: nat, read: Bytes)
    requires i < |blocks| && blocks[i] != []
    requires Content(blocks) == read + Content(blocks[i..])
    ensures Content(blocks) == (read + blocks[i]) + Content(blocks[i + 1..])
    ensures Deliverable(blocks[i..]) == (|blocks[i]| <= READ_BYTES && Deliverable(blocks[i + 1..]))
  {
    assert blocks[i..][0] == blocks[i] && blocks[i..][1..] == blocks[i + 1..];
    assert read + (blocks[i] + Content(blocks[i + 1..])) == (read + blocks[i]) + Content(blocks[i + 1..]);
  }

  /** What is refused after some bytes is refused whatever follows. */
  lemma {:induction false} Refused(lim: Limits, read: Bytes, rest: Bytes)
    ensures Run(lim, false, START, read) == None || |read| > lim.maxBytes ==> !Accepts(lim, read + rest)
  {
    RunAppends(lim, false, START, read, rest);
  }

  /** First position from `from` at which a string may end or escape. */
  method FindStringSpecial(block: Bytes, from: nat) returns (at: nat)
    requires from <= |block|
    ensures from <= at <= |block|
    ensures forall i :: from <= i < at ==> !StringSpecial(block[i])
    ensures at < |block| ==> StringSpecial(block[at])
  {
    at := from;
    while at < |block| && !StringSpecial(block[at])
      invariant from <= at <= |block|
      invariant forall i :: from <= i < at ==> !StringSpecial(block[i])
    {
      at := at + 1;
    }
  }

  method FindNonSpace(block: Bytes, from: nat) returns (at: nat)
    requires from <= |block|
    ensures from <= at <= |block|
    ensures forall i :: from <= i < at ==> IsSpace(block[i])
    ensures at < |block| ==> !IsSpace(block[at])
  {
    at := from;
    while at < |block| && IsSpace(block[at])
      invariant from <= at <= |block|
      invariant forall i :: from <= i < at ==> IsSpace(block[i])
    {
      at := at + 1;
    }
  }

  lemma {:induction false} SkipRun(lim: Limits, s: State, block: Bytes, index: nat, special: nat)
    requires index <= special <= |block|
    requires s.mode.InString? && !s.mode.escaped && StringFits(lim, s.mode.isKey, s.mode.bytes)
    requires forall i :: index <= i < special ==> !StringSpecial(block[i])
    ensures Run(lim, false, s, block[index..]) ==
            var bytes := s.mode.bytes + (special - index);
            if StringFits(lim, s.mode.isKey, bytes)
            then Run(lim, false, s.(mode := s.mode.(bytes := bytes)), block[special..]) else None
  {
    assert block[index..] == block[index..special] + block[special..];
    RunAppends(lim, false, s, block[index..special], block[special..]);
    PlainRun(lim, false, s, block[index..special]);
  }

  lemma {:induction false} ByteInString(lim: Limits, s: State, block: Bytes, index: nat)
    requires s.mode.InString? && index < |block|
    ensures Run(lim, false, s, block[index..]) == RunFrom(lim, false, StringStep(lim, s, block[index]), block[index + 1..])
  {
    assert block[index..][1..] == block[index + 1..];
  }

  /** The variables of the program and the operations it performs on them. */
  class Validator {
    const lim: Limits
    var frames: seq<Frame>
    var rootDone: bool
    var inString: bool
    var stringIsKey: bool
    var escaped: bool
    var stringBytes: nat
    var keyBytes: nat
    var inAtom: bool
    var atomBytes: nat
    var tokens: nat
    var nodes: nat

    ghost predicate Valid()
      reads this
    {
      && lim.Positive()
      && !(inString && inAtom)
      && (inString && stringIsKey ==> frames != [] && keyBytes == stringBytes)
      && (inString ==> StringFits(lim, stringIsKey, stringBytes))
      && (escaped ==> inString)
    }

    ghost function St(): State
      reads this
    {
      var mode :=
        if inString then InString(stringIsKey, escaped, stringBytes)
        else if inAtom then InAtom(atomBytes) else Idle;
      State(frames, rootDone, mode, tokens, nodes)
    }

    constructor (lim: Limits)
      requires lim.Positive()
      ensures Valid() && this.lim == lim && St() == START
    {
      this.lim := lim;
      frames, rootDone, inString, stringIsKey, escaped := [], false, false, false, false;
      stringBytes, keyBytes, inAtom, atomBytes, tokens, nodes := 0, 0, false, 0, 0, 0;
    }

    method AddToken() returns (ok: bool)
      modifies this`tokens
      ensures tokens == old(tokens) + 1
      ensures ok == (tokens <= lim.maxTokens)
    {
      tokens := tokens + 1;
      ok := tokens <= lim.maxTokens;
    }

    method StartValueNode() returns (ok: bool)
      modifies this`tokens, this`nodes
      ensures ok == StartValue(lim, old(St())).Some?
      ensures ok ==> St() == StartValue(lim, old(St())).value
    {
      if |frames| + 1 > lim.maxDepth { return false; }
      nodes := nodes + 1;
      if nodes > lim.maxNodes { return false; }
      ok := AddToken();
    }

    method FinishValue()
      requires !inString && !inAtom
      modifies this`frames, this`rootDone
      ensures St() == Finish(old(St()))
    {
      if frames != [] {
        frames := SetTop(frames, CommaOrEnd);
      } else {
        rootDone := true;
      }
    }

    method PopFrame()
      requires !inString && !inAtom && frames != []
      modifies this`frames, this`rootDone
      ensures St() == Pop(old(St()))
    {
      frames := frames[..|frames| - 1];
      FinishValue();
    }

    method StartString(key: bool) returns (ok: bool)
      requires Valid() && !inString && !inAtom
      requires key ==> frames != []
      modifies this
      ensures key ==> ok == (old(tokens) + 1 <= lim.maxTokens)
      ensures ok && key ==> St() == old(St()).(tokens := old(tokens) + 1, mode := InString(true, false, 0))
      ensures !key ==> ok == StartValue(lim, old(St())).Some?
      ensures ok && !key ==> St() == StartValue(lim, old(St())).value.(mode := InString(false, false, 0))
      ensures ok ==> Valid()
    {
      if key {
        ok := AddToken();
      } else {
        ok := StartValueNode();
      }
      inString, stringIsKey, escaped, stringBytes, keyBytes := true, key, false, 0, 0;
    }

    /** Some bytes inside a string are counted. */
    method CountBytes(count: nat)
      modifies this`stringBytes, this`keyBytes
      ensures stringBytes == old(stringBytes) + count
      ensures keyBytes == old(keyBytes) + if stringIsKey then count else 0
    {
      stringBytes := stringBytes + count;
      if stringIsKey { keyBytes := keyBytes + count; }
    }

    /** The quote that ends a string. */
    method EndString()
      requires inString && !escaped && !inAtom
      modifies this`inString, this`frames, this`rootDone
      ensures !inString && StringStep(lim, old(St()), '"') == Some(St())
    {
      inString := false;
      if stringIsKey {
        frames := SetTop(frames, Colon);
      } else {
        FinishValue();
      }
    }

    /** One turn of the loop inside a string: a run up to the next special byte. */
    method InsideString(block: Bytes, index: nat) returns (ok: bool, next: nat)
      requires Valid() && inString && index < |block|
      modifies this
      ensures index < next <= |block|
      ensures ok ==> Valid() && Run(lim, false, old(St()), block[index..]) == Run(lim, false, St(), block[next..])
      ensures !ok ==> Run(lim, false, old(St()), block[index..]) == None
    {
      ghost var s := St();
      if escaped {
        ByteInString(lim, s, block, index);
        escaped := false;
        CountBytes(1);
        assert StringFits(lim, stringIsKey, stringBytes) ==> StringStep(lim, s, block[index]) == Some(St());
        next := index + 1;
      } else {
        var special := FindStringSpecial(block, index);
        var length := special - index;
        CountBytes(length);
        SkipRun(lim, s, block, index, special);
        if special == |block| {
          next := |block|;
        } else {
          ghost var skipped := s.(mode := s.mode.(bytes := s.mode.bytes + length));
          assert St() == skipped;
          ByteInString(lim, skipped, block, special);
          if block[special] == '\\' {
            CountBytes(1);
            escaped := true;
            assert StringFits(lim, stringIsKey, stringBytes) ==> StringStep(lim, skipped, block[special]) == Some(St());
          } else {
            EndString();
          }
          next := special + 1;
        }
      }
      ok := stringBytes <= lim.maxStringBytes && (stringIsKey ==> keyBytes <= lim.maxKeyBytes);
    }

    /** The checks after the last block. */
    method Conclude() returns (ok: bool)
      requires Valid()
      modifies this
      ensures ok <==> Complete(old(St()))
    {
      if inString || escaped || frames != [] { return false; }
      if inAtom {
        inAtom := false;
        FinishValue();
      }
      ok := rootDone;
    }

    /** One turn inside an atom; a byte that ends it is left to be read again. */
    method InsideAtom(block: Bytes, index: nat) returns (ok: bool, next: nat)
      requires Valid() && inAtom && index < |block|
      modifies this
      ensures index <= next <= |block|
      ensures ok ==> Valid() && Run(lim, false, old(St()), block[index..]) == Run(lim, false, St(), block[next..])
      ensures !ok ==> Run(lim, false, old(St()), block[index..]) == None
      ensures ok && next == index ==> !inAtom && !inString && EndsAtom(block[index])
    {
      next := index;
      if EndsAtom(block[index]) {
        inAtom := false;
        FinishValue();
        ok := true;
      } else {
        atomBytes := atomBytes + 1;
        next := index + 1;
        ok := atomBytes <= lim.maxAtomBytes;
      }
    }

    /** One turn where a value may start. */
    method AtValue(current: char) returns (ok: bool, consumed: bool)
      requires Valid() && !inString && !inAtom && !IsSpace(current)
      modifies this
      ensures ok ==> Valid()
      ensures !ok ==> ValueStep(lim, false, old(St()), current) == None
      ensures ok && consumed ==> ValueStep(lim, false, old(St()), current) == Some(St())
      ensures ok && !consumed ==> inAtom && !EndsAtom(current)
      ensures ok && !consumed ==> ValueStep(lim, false, old(St()), current) == Step(lim, false, St(), current)
    {
      var wanted := if frames != [] then frames[|frames| - 1].next in {Value, ValueOrEnd} else !rootDone;
      if !wanted { return false, true; }
      consumed := true;
      if current == '"' {
        ok := StartString(false);
      } else if current == '{' || current == '[' {
        ok := StartValueNode();
        frames := frames + [Frame(current, if current == '{' then KeyOrEnd else ValueOrEnd)];
      } else if current == '}' || current == ']' || current == ',' || current == ':' {
        ok := false;
      } else {
        ok := StartValueNode();
        inAtom, atomBytes, consumed := true, 0, false;
      }
    }

    /** One turn on a byte that is not white space, outside strings and atoms. */
    method AtToken(current: char) returns (ok: bool, consumed: bool)
      requires Valid() && !inString && !inAtom && !IsSpace(current)
      modifies this
      ensures ok ==> Valid()
      ensures !ok ==> IdleStep(lim, false, old(St()), current) == None
      ensures ok && consumed ==> IdleStep(lim, false, old(St()), current) == Some(St())
      ensures ok && !consumed ==> inAtom && !EndsAtom(current)
      ensures ok && !consumed ==> IdleStep(lim, false, old(St()), current) == Step(lim, false, St(), current)
    {
      if frames == [] && rootDone { return false, true; }
      ok, consumed := true, true;
      if frames != [] {
        var top := frames[|frames| - 1];
        if top.opening == '{' {
          if top.next == KeyOrEnd {
            if current == '}' {
              PopFrame();
            } else if current != '"' {
              ok := false;
            } else {
              ok := StartString(true);
            }
            return;
          }
          if top.next == Colon {
            ok := current == ':';
            frames := SetTop(frames, Value);
            return;
          }
          if top.next == CommaOrEnd {
            if current == '}' {
              PopFrame();
            } else {
              ok := current == ',';
              frames := SetTop(frames, KeyOrEnd);
            }
            return;
          }
        } else if top.next == CommaOrEnd {
          if current == ']' {
            PopFrame();
          } else {
            ok := current == ',';
            frames := SetTop(frames, ValueOrEnd);
          }
          return;
        } else if top.next == ValueOrEnd && current == ']' {
          PopFrame();
          return;
        }
      }
      ok, consumed := AtValue(current);
    }

    /** The loop over one block. */
    method ReadBlock(block: Bytes) returns (ok: bool)
      requires Valid()
      modifies this
      ensures ok ==> Valid() && Run(lim, false, old(St()), block) == Some(St())
      ensures !ok ==> Run(lim, false, old(St()), block) == None
    {
      ghost var whole := Run(lim, false, St(), block);
      var index := 0;
      assert block[0..] == block;
      ok := true;
      while index < |block|
        invariant index <= |block| && Valid() && ok
        invariant whole == Run(lim, false, St(), block[index..])
        decreases |block| - index,
          if inString || index == |block| then 0
          else if inAtom == EndsAtom(block[index]) then 1 else 0
      {
        var current := block[index];
        assert block[index..][0] == current && block[index..][1..] == block[index + 1..];
        if inString {
          ok, index := InsideString(block, index);
        } else if inAtom {
          ok, index := InsideAtom(block, index);
        } else if IsSpace(current) {
          var next := FindNonSpace(block, index + 1);
          assert block[index..] == block[index..next] + block[next..];
          RunAppends(lim, false, St(), block[index..next], block[next..]);
          SpaceRun(lim, false, St(), block[index..next]);
          index := next;
        } else {
          var consumed;
          ok, consumed := AtToken(current);
          if consumed { index := index + 1; }
        }
        if !ok { return; }
      }
    }
  }

  /**
   The program.  The verdict is that of the one-byte machine on the concatenated
   bytes: how the reader splits them does not matter.
   */
  method ValidateBoundedJsonStream(blocks: seq<Bytes>, lim: Limits) returns (ok: bool)
    ensures ok <==> Deliverable(blocks) && Accepts(lim, Content(blocks))
  {
    if !lim.Positive() { return false; }
    var v := new Validator(lim);
    var total := 0;
    var i := 0;
    ghost var read: Bytes := [];
    assert blocks[0..] == blocks;
    while i < |blocks| && blocks[i] != []
      invariant 0 <= i <= |blocks|
      invariant v.Valid() && v.lim == lim && total == |read| <= lim.maxBytes
      invariant Content(blocks) == read + Content(blocks[i..])
      invariant Deliverable(blocks) == Deliverable(blocks[i..])
      invariant Run(lim, false, START, read) == Some(v.St())
    {
      var block := blocks[i];
      NextBlock(blocks, i, read);
      RunAppends(lim, false, START, read, block);
      Refused(lim, read + block, Content(blocks[i + 1..]));
      if |block| > READ_BYTES { return false; }
      total := total + |block|;
      if total > lim.maxBytes { return false; }
      ok := v.ReadBlock(block);
      if !ok { return; }
      read := read + block;
      i := i + 1;
    }
    assert Content(blocks[i..]) == [];
    assert Content(blocks) == read;
    ok := v.Conclude();
  }
}
