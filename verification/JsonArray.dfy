/**
 `iter_bounded_json_array`: the elements of a top-level array, framed one at a time
 from a reader's blocks.  Decoding an element is a parameter.
 */
module JsonArray {
  import opened Bytes
  import opened Options
  import opened JsonText
  import opened JsonValidator
  import opened JsonFramer

  /** The key limit is the decoder's alone; like the others it must be positive. */
  datatype ArrayLimits = ArrayLimits(maxItems: int, maxKeyBytes: int, frame: FrameLimits)
  {
    predicate Positive() {
      0 < maxItems && 0 < maxKeyBytes && frame.Positive()
    }
  }

  // ---- what the program computes, on the concatenated bytes

  /** An element without its trailing white space. */
  function Trimmed(raw: Bytes): Bytes {
    if raw != [] && IsSpace(raw[|raw| - 1]) then Trimmed(raw[..|raw| - 1]) else raw
  }

  lemma {:induction false} FramedIsShorter(lim: FrameLimits, s: FrameState, input: Bytes, raw: Bytes)
    ensures FrameFrom(lim, s, input, raw).Some? ==> |FrameFrom(lim, s, input, raw).value.rest| < |input|
    decreases |input|
  {
    if |raw| <= lim.maxElementBytes && input != [] && !EndsElement(s, input[0]) {
      var r := FrameStep(lim, s, input[0]);
      if r.Some? {
        FramedIsShorter(lim, r.value, input[1..], raw + [input[0]]);
      }
    }
  }

  /** The elements from the first byte of one of them, `count` having gone before. */
  function Elements(lim: ArrayLimits, decodes: Bytes -> bool, input: Bytes, count: nat): Option<seq<Bytes>>
    decreases |input|
  {
    FramedIsShorter(lim.frame, FRESH, input, []);
    if count >= lim.maxItems then None
    else
      match FrameFrom(lim.frame, FRESH, input, [])
      case None => None
      case Some(f) =>
        var element := Trimmed(f.raw);
        if element == [] || !decodes(element) then None
        else if f.delimiter == ']' then (if SkipSpace(f.rest) == [] then Some([element]) else None)
        else
          var next := SkipSpace(f.rest);
          if count + 1 >= lim.maxItems || next == [] || next[0] == ']' then None
          else
            match Elements(lim, decodes, next, count + 1)
            case None => None
            case Some(rest) => Some([element] + rest)
  }

  /** The verdict on a whole text, and the elements of an accepted one. */
  function ArrayOf(lim: ArrayLimits, decodes: Bytes -> bool, input: Bytes): Option<seq<Bytes>> {
    var s := SkipSpace(input);
    if !lim.Positive() || s == [] || s[0] != '[' then None
    else
      var t := SkipSpace(s[1..]);
      if t == [] then None
      else if t[0] == ']' then (if SkipSpace(t[1..]) == [] then Some([]) else None)
      else Elements(lim, decodes, t, 0)
  }

  // ---- the program

  lemma {:induction false} SpaceBefore(b: char, rest: Bytes)
    ensures SkipSpace([b] + rest) == if IsSpace(b) then SkipSpace(rest) else [b] + rest
  {
    assert ([b] + rest)[1..] == rest;
  }

  lemma {:induction false} EndOfBlock(block: Bytes, later: Bytes)
    ensures block[|block|..] + later == later
  {
  }

  lemma {:induction false} NextOfBlock(block: Bytes, position: nat, later: Bytes)
    requires position < |block|
    ensures block[position..] + later == [block[position]] + (block[position + 1..] + later)
  {
  }

  datatype Next = Broken | End | Byte(b: char)

  class ByteStream {
    var source: seq<Bytes>
    var block: Bytes
    var position: nat
    var eof: bool

    ghost predicate Valid()
      reads this
    {
      position <= |block|
    }

    /** What is still to be read. */
    ghost function Rest(): Bytes
      requires Valid()
      reads this
    {
      block[position..] + Later()
    }

    /** What the source has not delivered yet. */
    ghost function Later(): Bytes
      reads this`eof, this`source
    {
      if eof then [] else Content(source)
    }

    /** No block still to be read is too large. */
    ghost predicate Sound()
      reads this`eof, this`source
    {
      eof || Deliverable(source)
    }

    constructor (blocks: seq<Bytes>)
      ensures Valid() && Rest() == Content(blocks) && Sound() == Deliverable(blocks)
    {
      source, block, position, eof := blocks, [], 0, false;
      new;
      assert block[position..] + Content(blocks) == Content(blocks);
    }

    /** Makes sure there is an unread byte in the block, if there is one at all. */
    method CurrentBlock() returns (broken: bool)
      requires Valid()
      modifies this
      ensures Valid()
      ensures broken ==> !old(Sound())
      ensures !broken ==> Rest() == old(Rest()) && Sound() == old(Sound())
      ensures !broken && position == |block| ==> Rest() == [] && Sound()
    {
      if position >= |block| && !eof {
        ghost var rest := Rest();
        var next := if source == [] then [] else source[0];
        assert rest == Content(source);
        if |next| > READ_BYTES { return true; }
        source := if source == [] then [] else source[1..];
        block, position := next, 0;
        if next == [] {
          eof := true;
        }
        assert block[position..] == block;
      }
      broken := false;
    }

    method Advance(count: nat)
      requires Valid() && position + count <= |block|
      modifies this`position
      ensures Valid() && position == old(position) + count && Later() == old(Later()) && Sound() == old(Sound())
    {
      position := position + count;
    }

    method NextByte() returns (r: Next)
      requires Valid()
      modifies this
      ensures Valid()
      ensures r.Broken? ==> !old(Sound())
      ensures !r.Broken? ==> Sound() == old(Sound())
      ensures r.End? ==> old(Rest()) == [] && Rest() == [] && Sound()
      ensures r.Byte? ==> old(Rest()) == [r.b] + Rest()
    {
      var broken := CurrentBlock();
      if broken { return Broken; }
      if position == |block| { return End; }
      NextOfBlock(block, position, Later());
      r := Byte(block[position]);
      Advance(1);
    }

    method NextNonSpace() returns (r: Next)
      requires Valid()
      modifies this
      ensures Valid()
      ensures r.Broken? ==> !old(Sound())
      ensures !r.Broken? ==> Sound() == old(Sound())
      ensures r.End? ==> SkipSpace(old(Rest())) == [] && Rest() == [] && Sound()
      ensures r.Byte? ==> SkipSpace(old(Rest())) == [r.b] + Rest() && !IsSpace(r.b)
    {
      r := NextByte();
      while r.Byte? && IsSpace(r.b)
        invariant Valid()
        invariant r.Broken? ==> !old(Sound())
        invariant !r.Broken? ==> Sound() == old(Sound())
        invariant r.End? ==> SkipSpace(old(Rest())) == [] && Rest() == [] && Sound()
        invariant r.Byte? ==> SkipSpace(old(Rest())) == SkipSpace([r.b] + Rest())
        decreases r.Byte?, |Rest()|
      {
        ghost var before := Rest();
        SpaceBefore(r.b, before);
        r := NextByte();
      }
    }

    /** Looks for the next byte that is not white space, without asking the source for more. */
    method NextBufferedNonSpace() returns (known: bool, r: Next)
      requires Valid()
      modifies this`position
      ensures Valid() && Sound() == old(Sound()) && !r.Broken?
      ensures !known ==> SkipSpace(old(Rest())) == SkipSpace(Rest())
      ensures known && r.End? ==> SkipSpace(old(Rest())) == [] && Rest() == [] && Sound()
      ensures known && r.Byte? ==> SkipSpace(old(Rest())) == [r.b] + Rest() && !IsSpace(r.b)
    {
      ghost var skipped := SkipSpace(Rest());
      while position < |block|
        invariant Valid() && Sound() == old(Sound())
        invariant skipped == SkipSpace(Rest())
        decreases |block| - position
      {
        NextOfBlock(block, position, Later());
        var b := block[position];
        Advance(1);
        SpaceBefore(b, Rest());
        if !IsSpace(b) { return true, Byte(b); }
      }
      EndOfBlock(block, Later());
      known, r := eof, End;
    }
  }

  method Trim(raw: Bytes) returns (payload: Bytes)
    ensures payload == Trimmed(raw)
  {
    payload := raw;
    while payload != [] && IsSpace(payload[|payload| - 1])
      invariant Trimmed(payload) == Trimmed(raw)
      decreases |payload|
    {
      payload := payload[..|payload| - 1];
    }
  }

  /** What framing should give for an element whose first byte has been read. */
  function FramedElement(lim: FrameLimits, first: char, rest: Bytes): Option<Framed> {
    match FrameFrom(lim, FRESH, [first] + rest, [])
    case None => None
    case Some(f) => if Trimmed(f.raw) == [] then None else Some(f.(raw := Trimmed(f.raw)))
  }

  /** Feeds the unread part of the current block to the framer. */
  method FeedBlock(stream: ByteStream, framer: Framer) returns (r: BlockResult, ended: char)
    requires stream.Valid() && framer.Valid()
    requires framer.inString ==> framer.stringBytes <= |framer.payload|
    modifies stream, framer
    ensures stream.Valid()
    ensures !r.Failed? ==> stream.Sound() == old(stream.Sound())
    ensures r.Failed? ==> !old(stream.Sound()) ||
                          FrameFrom(framer.lim, old(framer.St()), old(stream.Rest()), old(framer.payload)) == None
    ensures r.More? ==> framer.Valid() && (framer.inString ==> framer.stringBytes <= |framer.payload|)
    ensures r.More? ==> |stream.Rest()| < |old(stream.Rest())|
    ensures r.More? ==> FrameFrom(framer.lim, old(framer.St()), old(stream.Rest()), old(framer.payload)) ==
                        FrameFrom(framer.lim, framer.St(), stream.Rest(), framer.payload)
    ensures r.Done? ==> FrameFrom(framer.lim, old(framer.St()), old(stream.Rest()), old(framer.payload)) ==
                        Some(Framed(framer.payload, ended, stream.Rest()))
  {
    ended := ' ';
    ghost var whole := FrameFrom(framer.lim, framer.St(), stream.Rest(), framer.payload);
    var broken := stream.CurrentBlock();
    if broken { return Failed, ended; }
    assert whole == FrameFrom(framer.lim, framer.St(), stream.Rest(), framer.payload);
    if stream.position == |stream.block| { return Failed, ended; }
    var block, position := stream.block, stream.position;
    ghost var later := stream.Later();
    assert stream.Rest() == block[position..] + later;
    assert whole == FrameFrom(framer.lim, framer.St(), block[position..] + later, framer.payload);
    r := framer.FrameBlock(block, position, later);
    match r {
      case Failed =>
      case More =>
        stream.Advance(|block| - position);
        assert stream.Rest() == later;
      case Done(at) =>
        ended := block[at];
        stream.Advance(at - position + 1);
    }
  }

  method FrameJsonElement(stream: ByteStream, first: char, lim: FrameLimits) returns (r: Option<(Bytes, char)>)
    requires stream.Valid()
    modifies stream
    ensures stream.Valid()
    ensures r.None? ==> !old(stream.Sound()) || FramedElement(lim, first, old(stream.Rest())) == None
    ensures r.Some? ==> stream.Sound() == old(stream.Sound())
    ensures r.Some? ==> FramedElement(lim, first, old(stream.Rest())) ==
                        Some(Framed(r.value.0, r.value.1, stream.Rest()))
  {
    var framer := new Framer(lim);
    ghost var whole := FrameFrom(lim, FRESH, [first] + stream.Rest(), []);
    var result := framer.FrameBlock([first], 0, stream.Rest());
    assert [first][0..] + stream.Rest() == [first] + stream.Rest();
    assert [first][1..] + stream.Rest() == stream.Rest();
    var ended := first;
    while result.More?
      invariant stream.Valid()
      invariant !result.Failed? ==> stream.Sound() == old(stream.Sound())
      invariant result.More? ==> framer.Valid() && (framer.inString ==> framer.stringBytes <= |framer.payload|)
      invariant framer.lim == lim
      invariant result.More? ==> whole == FrameFrom(lim, framer.St(), stream.Rest(), framer.payload)
      invariant result.Failed? ==> !old(stream.Sound()) || whole == None
      invariant result.Done? ==> whole == Some(Framed(framer.payload, ended, stream.Rest()))
      decreases result.More?, |stream.Rest()|
    {
      result, ended := FeedBlock(stream, framer);
    }
    if result.Failed? { return None; }
    var payload := Trim(framer.payload);
    if payload == [] { return None; }
    r := Some((payload, ended));
  }

  /** What one turn of the element loop gives. */
  datatype Turn = Refused | Last(element: Bytes) | Another(element: Bytes, first: char)

  method OneElement(stream: ByteStream, first: char, lim: ArrayLimits, decodes: Bytes -> bool, count: nat)
    returns (r: Turn)
    requires stream.Valid()
    modifies stream
    ensures stream.Valid()
    ensures !r.Refused? ==> stream.Sound() == old(stream.Sound())
    ensures r.Refused? ==> !old(stream.Sound()) || Elements(lim, decodes, [first] + old(stream.Rest()), count) == None
    ensures r.Last? ==> Elements(lim, decodes, [first] + old(stream.Rest()), count) ==
                        if SkipSpace(stream.Rest()) == [] then Some([r.element]) else None
    ensures r.Another? ==> |stream.Rest()| < |old(stream.Rest())|
    ensures r.Another? ==> Elements(lim, decodes, [first] + old(stream.Rest()), count) ==
                           Prepended([r.element], Elements(lim, decodes, [r.first] + stream.Rest(), count + 1))
  {
    if count >= lim.maxItems { return Refused; }
    FramedIsShorter(lim.frame, FRESH, [first] + stream.Rest(), []);
    var framed := FrameJsonElement(stream, first, lim.frame);
    if framed.None? { return Refused; }
    var (payload, delimiter) := framed.value;
    if !decodes(payload) { return Refused; }
    if delimiter != ']' && count + 1 >= lim.maxItems { return Refused; }
    ghost var rest := stream.Rest();
    var known, ahead := stream.NextBufferedNonSpace();
    if delimiter == ']' {
      if known && ahead.Byte? { return Refused; }
      return Last(payload);
    }
    if !known {
      ahead := stream.NextNonSpace();
    }
    if !ahead.Byte? || ahead.b == ']' { return Refused; }
    r := Another(payload, ahead.b);
  }

  /**
   The program.  The verdict and the elements of an accepted array are those of the
   concatenated bytes: how the reader splits them does not matter.
   */
  method IterBoundedJsonArray(blocks: seq<Bytes>, lim: ArrayLimits, decodes: Bytes -> bool)
    returns (ok: bool, elements: seq<Bytes>)
    ensures ok <==> Deliverable(blocks) && ArrayOf(lim, decodes, Content(blocks)).Some?
    ensures ok ==> ArrayOf(lim, decodes, Content(blocks)) == Some(elements)
  {
    elements := [];
    if !lim.Positive() { return false, elements; }
    var stream := new ByteStream(blocks);
    var first := stream.NextNonSpace();
    if first != Byte('[') { return false, elements; }
    assert SkipSpace(Content(blocks))[1..] == stream.Rest();
    first := stream.NextNonSpace();
    if !first.Byte? { return false, elements; }
    assert SkipSpace(SkipSpace(Content(blocks))[1..]) == [first.b] + stream.Rest();
    if first.b != ']' {
      ok, elements := AllElements(stream, first, lim, decodes);
      if !ok { return; }
    }
    var last := stream.NextNonSpace();
    ok := last.End?;
  }

  /** The loop over the elements, up to the bracket that closes the array. */
  method AllElements(stream: ByteStream, start: Next, lim: ArrayLimits, decodes: Bytes -> bool)
    returns (ok: bool, elements: seq<Bytes>)
    requires stream.Valid() && start.Byte?
    modifies stream
    ensures stream.Valid()
    ensures ok ==> stream.Sound() == old(stream.Sound())
    ensures !ok ==> !old(stream.Sound()) || Elements(lim, decodes, [start.b] + old(stream.Rest()), 0) == None
    ensures ok ==> Elements(lim, decodes, [start.b] + old(stream.Rest()), 0) ==
                   if SkipSpace(stream.Rest()) == [] then Some(elements) else None
  {
    elements := [];
    var first, open := start, true;
    ghost var wanted := Elements(lim, decodes, [start.b] + stream.Rest(), 0);
    PrependedNothing(wanted);
    while open
      invariant stream.Valid() && stream.Sound() == old(stream.Sound())
      invariant open ==> first.Byte?
      invariant open ==> wanted == Prepended(elements, Elements(lim, decodes, [first.b] + stream.Rest(), |elements|))
      invariant !open ==> wanted == if SkipSpace(stream.Rest()) == [] then Some(elements) else None
      decreases open, |stream.Rest()|
    {
      var turn := OneElement(stream, first.b, lim, decodes, |elements|);
      if turn.Refused? { return false, elements; }
      if turn.Last? {
        open := false;
      } else {
        first := Byte(turn.first);
        PrependedMore(elements, turn.element,
                      Elements(lim, decodes, [first.b] + stream.Rest(), |elements| + 1));
      }
      elements := elements + [turn.element];
    }
    ok := true;
  }

  lemma {:induction false} PrependedNothing(r: Option<seq<Bytes>>)
    ensures Prepended([], r) == r
  {
    if r.Some? {
      assert [] + r.value == r.value;
    }
  }

  function Prepended(elements: seq<Bytes>, r: Option<seq<Bytes>>): Option<seq<Bytes>> {
    match r
    case None => None
    case Some(rest) => Some(elements + rest)
  }

  lemma {:induction false} PrependedMore(elements: seq<Bytes>, e: Bytes, r: Option<seq<Bytes>>)
    ensures Prepended(elements, Prepended([e], r)) == Prepended(elements + [e], r)
  {
    if r.Some? {
      assert elements + ([e] + r.value) == (elements + [e]) + r.value;
    }
  }
}
