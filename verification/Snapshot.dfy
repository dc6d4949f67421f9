/**
 An authenticated snapshot kept as a list of chunks, read through a cursor, and the
 bounded reader that parsers get.
 */
module Snapshot {
  import opened Bytes

  const COPY_BYTES: nat := 0x10_0000
  const MAX_CONSUMER_READ_BYTES: nat := 0x80_0000

  function Min(a: int, b: int): int {
    if a < b then a else b
  }

  /** Where a chunk begins in the whole. */
  function StartOf(chunks: seq<Bytes>, index: nat): nat
    requires index <= |chunks|
  {
    |Concat(chunks[..index])|
  }

  lemma {:induction false} ChunkIsASlice(chunks: seq<Bytes>, index: nat)
    requires index < |chunks|
    ensures StartOf(chunks, index + 1) == StartOf(chunks, index) + |chunks[index]| <= |Concat(chunks)|
    ensures Concat(chunks)[StartOf(chunks, index)..StartOf(chunks, index + 1)] == chunks[index]
  {
    var before, this_, after := chunks[..index], [chunks[index]], chunks[index + 1..];
    assert chunks == before + (this_ + after) && chunks[..index + 1] == before + this_;
    ConcatAppends(before, this_ + after);
    ConcatAppends(this_, after);
    ConcatAppends(before, this_);
    assert Concat(this_) == chunks[index] + Concat([]) == chunks[index];
  }

  lemma {:induction false} AllIsTheWhole(chunks: seq<Bytes>)
    ensures StartOf(chunks, |chunks|) == |Concat(chunks)|
  {
    assert chunks[..|chunks|] == chunks;
  }

  /** A piece of a chunk is a piece of the whole. */
  lemma {:induction false} PieceOfChunk(chunks: seq<Bytes>, index: nat, from: nat, to: nat)
    requires index < |chunks| && from <= to <= |chunks[index]|
    ensures StartOf(chunks, index) + to <= |Concat(chunks)|
    ensures chunks[index][from..to] == Concat(chunks)[StartOf(chunks, index) + from..StartOf(chunks, index) + to]
  {
    ChunkIsASlice(chunks, index);
    var start, whole := StartOf(chunks, index), Concat(chunks);
    Subslice(whole, start, StartOf(chunks, index + 1), from, to);
  }

  lemma {:induction false} Subslice(s: Bytes, a: nat, b: nat, from: nat, to: nat)
    requires a <= b <= |s| && from <= to <= b - a
    ensures s[a..b][from..to] == s[a + from..a + to]
  {
    forall i | 0 <= i < to - from ensures s[a..b][from..to][i] == s[a + from..a + to][i] {
    }
  }

  /** A line: no newline but the last byte, and it ends at a newline, at the limit or
      with the text. */
  ghost predicate IsLine(text: Bytes, limit: nat, line: Bytes) {
    && line <= text && |line| <= limit
    && (forall i :: 0 <= i < |line| - 1 ==> line[i] != '\n')
    && (|line| == limit || |line| == |text| || (line != [] && line[|line| - 1] == '\n'))
  }

  predicate NoNewline(s: Bytes) {
    forall i :: 0 <= i < |s| ==> s[i] != '\n'
  }

  /** Two lines that fit are the same. */
  lemma {:induction false} LineIsUnique(text: Bytes, limit: nat, a: Bytes, b: Bytes)
    requires IsLine(text, limit, a) && IsLine(text, limit, b)
    ensures a == b
  {
    assert forall i :: 0 <= i < |a| && i < |b| ==> a[i] == b[i];
    assert a != [] ==> a[|a| - 1] in a;
    assert b != [] ==> b[|b| - 1] in b;
  }

  /** The one line there is. */
  ghost predicate IsTheLine(text: Bytes, limit: nat, line: Bytes) {
    IsLine(text, limit, line) && forall other :: IsLine(text, limit, other) ==> other == line
  }

  lemma {:induction false} LineIsTheLine(text: Bytes, limit: nat, line: Bytes)
    requires IsLine(text, limit, line)
    ensures IsTheLine(text, limit, line)
  {
    forall other | IsLine(text, limit, other) ensures other == line {
      LineIsUnique(text, limit, other, line);
    }
  }

  /** A line being gathered from `start` on. */
  ghost predicate Gathered(content: Bytes, start: nat, line: Bytes) {
    start + |line| <= |content| && line == content[start..start + |line|] && NoNewline(line)
  }

  /** One more part of the content. */
  ghost predicate Follows(content: Bytes, at: nat, part: Bytes) {
    at + |part| <= |content| && part == content[at..at + |part|]
  }

  lemma {:induction false} GathersMore(content: Bytes, start: nat, line: Bytes, part: Bytes)
    requires Gathered(content, start, line) && Follows(content, start + |line|, part) && NoNewline(part)
    ensures Gathered(content, start, line + part)
  {
  }

  lemma {:induction false} LineFills(content: Bytes, start: nat, limit: nat, line: Bytes)
    requires Gathered(content, start, line) && |line| == limit
    ensures IsTheLine(content[start..], limit, line)
  {
    assert line == content[start..][..|line|];
    LineIsTheLine(content[start..], limit, line);
  }

  /** The last part of a line ends at a newline, or is empty at the end of the content. */
  lemma {:induction false} LineEnds(content: Bytes, start: nat, limit: nat, line: Bytes, part: Bytes)
    requires Gathered(content, start, line) && Follows(content, start + |line|, part) && |line + part| <= limit
    requires if part == [] then start + |line| == |content|
             else part[|part| - 1] == '\n' && NoNewline(part[..|part| - 1])
    ensures IsTheLine(content[start..], limit, line + part)
  {
    var all := line + part;
    assert all == content[start..][..|all|];
    forall i | 0 <= i < |all| - 1 ensures all[i] != '\n' {
      if i >= |line| {
        assert part[..|part| - 1][i - |line|] == all[i];
      }
    }
    LineIsTheLine(content[start..], limit, all);
  }

  /** Where the text is shorter than the limit, its length is the limit. */
  lemma {:induction false} WithinText(text: Bytes, limit: nat, line: Bytes)
    requires IsTheLine(text, Min(limit, |text|), line)
    ensures IsTheLine(text, limit, line)
  {
    LineIsTheLine(text, limit, line);
  }

  /** `bytes.find`. */
  method Find(block: Bytes) returns (at: int)
    ensures -1 <= at < |block|
    ensures at >= 0 ==> block[at] == '\n' && forall i :: 0 <= i < at ==> block[i] != '\n'
    ensures at < 0 ==> forall i :: 0 <= i < |block| ==> block[i] != '\n'
  {
    at := 0;
    while at < |block|
      invariant 0 <= at <= |block| && forall i :: 0 <= i < at ==> block[i] != '\n'
    {
      if block[at] == '\n' {
        return;
      }
      at := at + 1;
    }
    at := -1;
  }

  class AuthenticatedSnapshot {
    const size: nat
    ghost const content: Bytes

    var chunks: seq<Bytes>
    var chunkIndex: nat
    var chunkOffset: nat
    var consumed: nat
    var closed: bool

    constructor (pieces: seq<Bytes>, recordSize: nat)
      requires recordSize == |Concat(pieces)|
      ensures Valid() && !closed && consumed == 0 && content == Concat(pieces) && size == recordSize
    {
      size, content, chunks := recordSize, Concat(pieces), pieces;
      chunkIndex, chunkOffset, consumed, closed := 0, 0, 0, false;
      new;
      assert chunks[..0] == [];
    }

    /** The cursor is one position in the whole. */
    ghost predicate Valid()
      reads this
    {
      && size == |content| && consumed <= size
      && (!closed ==>
            && content == Concat(chunks)
            && chunkIndex <= |chunks|
            && chunkOffset <= (if chunkIndex < |chunks| then |chunks[chunkIndex]| else 0)
            && consumed == StartOf(chunks, chunkIndex) + chunkOffset)
    }

    /** What has not been read yet. */
    ghost function Rest(): Bytes
      reads this
      requires Valid()
    {
      content[consumed..]
    }

    /** One step of the copying loop. */
    method Take(requested: nat) returns (piece: Bytes)
      requires Valid() && !closed && chunkIndex < |chunks|
      modifies this`chunkIndex, this`chunkOffset, this`consumed
      ensures Valid() && |piece| <= requested
      ensures consumed == old(consumed) + |piece| && piece == content[old(consumed)..consumed]
      ensures chunkIndex == old(chunkIndex) + 1 || (chunkIndex == old(chunkIndex) && |piece| == requested)
    {
      var chunk := chunks[chunkIndex];
      var n := Min(requested, |chunk| - chunkOffset);
      piece := chunk[chunkOffset..chunkOffset + n];
      PieceOfChunk(chunks, chunkIndex, chunkOffset, chunkOffset + n);
      consumed := consumed + n;
      chunkOffset := chunkOffset + n;
      if chunkOffset == |chunk| {
        ChunkIsASlice(chunks, chunkIndex);
        chunkIndex, chunkOffset := chunkIndex + 1, 0;
      }
    }

    /** `read`; a negative size asks for everything that is left. */
    method Read(asked: int) returns (ok: bool, block: Bytes)
      requires Valid()
      modifies this`chunkIndex, this`chunkOffset, this`consumed
      ensures Valid() && ok == !closed
      ensures !ok ==> consumed == old(consumed)
      ensures ok ==> consumed == old(consumed) + |block| && block == content[old(consumed)..consumed]
      ensures ok ==> |block| == if asked < 0 then size - old(consumed) else Min(asked, size - old(consumed))
    {
      block := [];
      if closed {
        return false, block;
      }
      ok := true;
      var remaining := size - consumed;
      var requested := if asked < 0 then remaining else Min(asked, remaining);
      var left := requested;
      while left > 0 && chunkIndex < |chunks|
        invariant Valid() && !closed && 0 <= left && |block| + left == requested
        invariant consumed == old(consumed) + |block| && block == content[old(consumed)..consumed]
        decreases |chunks| - chunkIndex, left
      {
        var piece := Take(left);
        assert content[old(consumed)..consumed] == block + piece;
        block := block + piece;
        left := left - |piece|;
      }
      if chunkIndex == |chunks| {
        AllIsTheWhole(chunks);
      }
    }

    /** `_rewind`: undoes the last bytes read. */
    method Rewind(count: nat)
      requires Valid() && !closed && count <= consumed
      modifies this`chunkIndex, this`chunkOffset, this`consumed
      ensures Valid() && consumed == old(consumed) - count
    {
      consumed := consumed - count;
      var left := count;
      while left > 0
        invariant 0 <= left && chunkIndex <= |chunks|
        invariant chunkOffset <= (if chunkIndex < |chunks| then |chunks[chunkIndex]| else 0)
        invariant consumed == StartOf(chunks, chunkIndex) + chunkOffset - left
        invariant consumed == old(consumed) - count
        decreases chunkIndex, chunkOffset
      {
        if chunkOffset > 0 {
          var moved := Min(left, chunkOffset);
          chunkOffset := chunkOffset - moved;
          left := left - moved;
        } else {
          assert chunkIndex > 0 by { assert chunks[..0] == []; }
          ChunkIsASlice(chunks, chunkIndex - 1);
          chunkIndex := chunkIndex - 1;
          chunkOffset := |chunks[chunkIndex]|;
        }
      }
    }

    /** One step of the search for the end of a line; what was read past a newline is
        given back. */
    method LinePart(most: nat) returns (ok: bool, part: Bytes, last: bool)
      requires Valid() && most > 0
      modifies this`chunkIndex, this`chunkOffset, this`consumed
      ensures Valid() && ok == !closed
      ensures !ok ==> consumed == old(consumed)
      ensures ok ==> consumed == old(consumed) + |part| && Follows(content, old(consumed), part) && |part| <= most
      ensures ok && !last ==> NoNewline(part)
      ensures ok && last && part != [] ==> NoNewline(part[..|part| - 1])
      ensures ok && last ==> (part == [] && consumed == size) || (part != [] && part[|part| - 1] == '\n')
      ensures ok && !last ==> part != []
    {
      last := true;
      ok, part := Read(Min(COPY_BYTES, most));
      if !ok || part == [] {
        return;
      }
      var newline := Find(part);
      if newline < 0 {
        last := false;
      } else {
        Rewind(|part| - newline - 1);
        part := part[..newline + 1];
      }
    }

    /** `readline`; a negative size sets no limit of its own. */
    method ReadLine(asked: int) returns (ok: bool, line: Bytes)
      requires Valid()
      modifies this`chunkIndex, this`chunkOffset, this`consumed
      ensures Valid() && ok == (!closed || (if asked < 0 then size else asked) == 0)
      ensures !ok ==> consumed == old(consumed)
      ensures ok ==> consumed == old(consumed) + |line|
      ensures ok ==> IsTheLine(old(Rest()), if asked < 0 then size else asked, line)
    {
      var limit := if asked < 0 then size else asked;
      ghost var start := consumed;
      line, ok := [], true;
      while |line| < limit
        invariant Valid() && |line| <= limit && consumed == start + |line|
        invariant Gathered(content, start, line)
        invariant closed ==> line == []
        decreases limit - |line|
      {
        var part, last;
        ok, part, last := LinePart(limit - |line|);
        if !ok {
          return;
        }
        if last {
          LineEnds(content, start, limit, line, part);
          line := line + part;
          return;
        }
        GathersMore(content, start, line, part);
        line := line + part;
      }
      LineFills(content, start, limit, line);
    }
  }

  /** The reader that parsers get: at most 8 MiB at a time. */
  class Reader {
    const snapshot: AuthenticatedSnapshot
    var remaining: int
    ghost var delivered: Bytes

    constructor (source: AuthenticatedSnapshot)
      requires source.Valid() && source.consumed == 0
      ensures Valid() && snapshot == source && delivered == []
    {
      snapshot, remaining, delivered := source, source.size, [];
    }

    /** What is left is what has not been read, and everything delivered so far is the
        beginning of the content, in order and without a gap. */
    ghost predicate Valid()
      reads this, snapshot
    {
      && snapshot.Valid()
      && remaining == snapshot.size - snapshot.consumed
      && delivered == snapshot.content[..snapshot.consumed]
    }

    method Read(asked: int) returns (ok: bool, block: Bytes)
      requires Valid()
      modifies this, snapshot
      ensures Valid()
      ensures ok == (!snapshot.closed || old(remaining) == 0 || asked == 0)
      ensures ok ==> delivered == old(delivered) + block
      ensures !ok ==> delivered == old(delivered)
      ensures ok ==> |block| == Min(old(remaining),
                                    if asked < 0 then MAX_CONSUMER_READ_BYTES else Min(asked, MAX_CONSUMER_READ_BYTES))
    {
      if remaining <= 0 || asked == 0 {
        return true, [];
      }
      var requested := if asked < 0 then MAX_CONSUMER_READ_BYTES else Min(asked, MAX_CONSUMER_READ_BYTES);
      ok, block := snapshot.Read(Min(requested, remaining));
      if ok {
        remaining := remaining - |block|;
        delivered := delivered + block;
      }
    }

    method ReadLine(asked: int) returns (ok: bool, line: Bytes)
      requires Valid()
      modifies this, snapshot
      ensures Valid()
      ensures ok == (!snapshot.closed || old(remaining) == 0 || asked == 0)
      ensures ok ==> delivered == old(delivered) + line
      ensures !ok ==> delivered == old(delivered)
      ensures ok ==> IsTheLine(old(snapshot.Rest()),
                               if asked < 0 then MAX_CONSUMER_READ_BYTES else Min(asked, MAX_CONSUMER_READ_BYTES), line)
    {
      ghost var text := snapshot.Rest();
      var requested := if asked < 0 then MAX_CONSUMER_READ_BYTES else Min(asked, MAX_CONSUMER_READ_BYTES);
      if remaining <= 0 || asked == 0 {
        LineIsTheLine(text, requested, []);
        return true, [];
      }
      ok, line := snapshot.ReadLine(Min(requested, remaining));
      if ok {
        WithinText(text, requested, line);
        remaining := remaining - |line|;
        delivered := delivered + line;
      }
    }
  }
}
