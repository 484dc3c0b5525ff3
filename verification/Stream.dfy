/** Streaming a long text in chunks (cli/gateway/stream.go, ChunkText). */
module Stream {
  import opened Pieces

  datatype StreamChunk = StreamChunk(index: nat, content: string, finished: bool)

  const DEFAULT_CHUNK_SIZE := 3500

  function Contents(chunks: seq<StreamChunk>): (r: seq<string>)
    ensures |r| == |chunks| && forall i :: 0 <= i < |r| ==> r[i] == chunks[i].content
  {
    seq(|chunks|, i requires 0 <= i < |chunks| => chunks[i].content)
  }

  /** Where the chunk that starts at pos ends: after the last newline in its second half, else at the limit. */
  function ChunkEnd(text: string, pos: nat, size: int): (end: nat)
    requires pos < |text| && size > 0
    ensures pos < end <= |text| && end <= pos + size
    ensures end < |text| ==> 2 * (end - pos) >= size
  {
    if pos + size >= |text| then |text|
    else
      var lastNL := LastIndex(text[pos..pos + size], '\n');
      if lastNL > size / 2 then pos + lastNL + 1 else pos + size
  }

  function Chunks(text: string, pos: nat, idx: nat, size: int): (r: seq<StreamChunk>)
    requires pos <= |text| && size > 0
    decreases |text| - pos
  {
    if pos == |text| then [] else
      var end := ChunkEnd(text, pos, size);
      [StreamChunk(idx, text[pos..end], end >= |text|)] + Chunks(text, end, idx + 1, size)
  }

  /** What a reader of the chunks can rely on. */
  predicate WellCut(chunks: seq<StreamChunk>, idx: nat, size: int) {
    && (forall i :: 0 <= i < |chunks| ==> chunks[i].index == idx + i && |chunks[i].content| <= size)
    && (forall i :: 0 <= i < |chunks| ==> (chunks[i].finished <==> i == |chunks| - 1))
    && (forall i :: 0 <= i < |chunks| - 1 ==> 2 * |chunks[i].content| >= size)
  }

  lemma {:induction false} ChunksConcat(text: string, pos: nat, idx: nat, size: int)
    requires pos <= |text| && size > 0
    ensures Concat(Contents(Chunks(text, pos, idx, size))) == text[pos..]
    decreases |text| - pos
  {
    if pos < |text| {
      var end := ChunkEnd(text, pos, size);
      var more := Chunks(text, end, idx + 1, size);
      ChunksConcat(text, end, idx + 1, size);
      assert Contents(Chunks(text, pos, idx, size)) == [text[pos..end]] + Contents(more);
      ConcatFront(text[pos..end], Contents(more));
    }
  }

  lemma {:induction false} ChunksAreWellCut(text: string, pos: nat, idx: nat, size: int)
    requires pos <= |text| && size > 0
    ensures WellCut(Chunks(text, pos, idx, size), idx, size)
    decreases |text| - pos
  {
    if pos < |text| {
      var end := ChunkEnd(text, pos, size);
      ChunksAreWellCut(text, end, idx + 1, size);
      WellCutGrows(StreamChunk(idx, text[pos..end], end >= |text|), Chunks(text, end, idx + 1, size), idx, size);
    }
  }

  /**
    Nothing is lost, no chunk is over the limit, the chunks are numbered, exactly the last one is marked finished,
    and every other one fills at least half of the limit.
   */
  lemma ChunksTile(text: string, size: int)
    requires size > 0
    ensures var chunks := Chunks(text, 0, 0, size);
            Concat(Contents(chunks)) == text && WellCut(chunks, 0, size) && (|text| > size ==> |chunks| > 1)
  {
    var chunks := Chunks(text, 0, 0, size);
    ChunksConcat(text, 0, 0, size);
    ChunksAreWellCut(text, 0, 0, size);
    if |chunks| == 1 {
      OneChunkIsShort(chunks, size);
    }
  }

  lemma WellCutGrows(chunk: StreamChunk, more: seq<StreamChunk>, idx: nat, size: int)
    requires WellCut(more, idx + 1, size) && chunk.index == idx && |chunk.content| <= size
    requires chunk.finished <==> more == []
    requires more != [] ==> 2 * |chunk.content| >= size
    ensures WellCut([chunk] + more, idx, size)
  {
    var all := [chunk] + more;
    forall i | 0 < i < |all| ensures all[i] == more[i - 1] && all[i].index == idx + i {
    }
  }

  /**
    Where a chunk ends and the text goes on with `more`: behind a newline in the second half of what the limit allows,
    with no further newline within the limit, or at the limit, with no newline in that half.
   */
  predicate BreaksWell(chunk: string, more: string, size: int)
    requires 0 < size <= |chunk + more|
  {
    var window := (chunk + more)[..size];
    && |chunk| <= size
    && (forall i :: |chunk| <= i < size ==> window[i] != '\n')
    && if chunk != "" && chunk[|chunk| - 1] == '\n' && |chunk| - 1 > size / 2 then true
       else |chunk| == size && forall i :: size / 2 < i < size ==> window[i] != '\n'
  }

  lemma EndBreaksWell(text: string, pos: nat, size: int)
    requires pos < |text| && size > 0 && ChunkEnd(text, pos, size) < |text|
    ensures var end := ChunkEnd(text, pos, size);
            pos + size <= |text| && BreaksWell(text[pos..end], text[end..], size)
  {
    var end, w := ChunkEnd(text, pos, size), text[pos..pos + size];
    var lastNL := LastIndex(w, '\n');
    assert text[pos..end] + text[end..] == text[pos..] && text[pos..][..size] == w;
    forall i | end - pos <= i < size ensures w[i] != '\n' {
    }
  }

  lemma ChunksUnfold(text: string, pos: nat, idx: nat, size: int)
    requires pos < |text| && size > 0
    ensures var end := ChunkEnd(text, pos, size);
            Chunks(text, pos, idx, size) == [StreamChunk(idx, text[pos..end], end >= |text|)] + Chunks(text, end, idx + 1, size)
  {
  }

  lemma FirstBreaksWell(text: string, pos: nat, idx: nat, size: int)
    requires pos < |text| && size > 0 && ChunkEnd(text, pos, size) < |text|
    ensures var end := ChunkEnd(text, pos, size);
            var more := Concat(Contents(Chunks(text, end, idx + 1, size)));
            size <= |text[pos..end] + more| && BreaksWell(text[pos..end], more, size)
  {
    var end := ChunkEnd(text, pos, size);
    EndBreaksWell(text, pos, size);
    ChunksConcat(text, end, idx + 1, size);
    hide ChunkEnd, BreaksWell, Chunks, Concat, Contents;
    assert text[pos..end] + text[end..] == text[pos..];
  }

  /** Every chunk but the last breaks well. */
  lemma {:induction false} ChunksBreakWell(text: string, pos: nat, idx: nat, size: int, i: nat)
    requires pos <= |text| && size > 0 && i + 1 < |Chunks(text, pos, idx, size)|
    ensures var chunks := Chunks(text, pos, idx, size);
            var more := Concat(Contents(chunks[i + 1..]));
            size <= |chunks[i].content + more| && BreaksWell(chunks[i].content, more, size)
    decreases i
  {
    var end, chunks := ChunkEnd(text, pos, size), Chunks(text, pos, idx, size);
    var rest := Chunks(text, end, idx + 1, size);
    ChunksUnfold(text, pos, idx, size);
    assert rest != [] ==> end < |text|;
    hide ChunkEnd, BreaksWell, Chunks, Concat, Contents;
    if i == 0 {
      assert chunks[1..] == rest && chunks[0].content == text[pos..end];
      FirstBreaksWell(text, pos, idx, size);
    } else {
      ChunksBreakWell(text, end, idx + 1, size, i - 1);
      assert chunks[i + 1..] == rest[i..] && chunks[i] == rest[i - 1];
    }
  }

  class StreamHandler {
    var chunkSize: int

    constructor (chunkSize: int)
      ensures this.chunkSize == chunkSize
    {
      this.chunkSize := chunkSize;
    }

    function SizeFor(maxSize: int): (size: int)
      reads this
      ensures size > 0
    {
      if maxSize > 0 then maxSize else if chunkSize > 0 then chunkSize else DEFAULT_CHUNK_SIZE
    }

    method ChunkText(text: string, maxSize: int) returns (chunks: seq<StreamChunk>)
      ensures Concat(Contents(chunks)) == text && WellCut(chunks, 0, SizeFor(maxSize))
      ensures |chunks| == 1 <==> |text| <= SizeFor(maxSize)
      ensures |text| > SizeFor(maxSize) ==> chunks == Chunks(text, 0, 0, SizeFor(maxSize))
      ensures SizeFor(maxSize) == if maxSize > 0 then maxSize else if chunkSize > 0 then chunkSize else 3500
    {
      var size := maxSize;
      if size <= 0 {
        size := chunkSize;
      }
      if size <= 0 {
        size := DEFAULT_CHUNK_SIZE;
      }
      if |text| <= size {
        chunks := [StreamChunk(0, text, true)];
        SingleChunk(text);
        return;
      }
      chunks := CutIntoChunks(text, size);
      ChunksTile(text, size);
    }
  }

  lemma ChunksStep(chunks: seq<StreamChunk>, text: string, pos: nat, end: nat, idx: nat, size: int)
    requires pos < |text| && size > 0 && end == ChunkEnd(text, pos, size)
    ensures chunks + Chunks(text, pos, idx, size) ==
            chunks + [StreamChunk(idx, text[pos..end], end >= |text|)] + Chunks(text, end, idx + 1, size)
  {
  }

  method CutIntoChunks(text: string, size: int) returns (chunks: seq<StreamChunk>)
    requires size > 0
    ensures chunks == Chunks(text, 0, 0, size)
  {
    hide Chunks, LastIndex;
    chunks := [];
    var pos, idx := 0, 0;
    assert chunks + Chunks(text, 0, 0, size) == Chunks(text, 0, 0, size);
    while pos < |text|
      invariant 0 <= pos <= |text| && idx >= 0
      invariant Chunks(text, 0, 0, size) == chunks + Chunks(text, pos, idx, size)
    {
      var end := pos + size;
      if end > |text| {
        end := |text|;
      }
      if end < |text| {
        var lastNL := LastIndex(text[pos..end], '\n');
        if lastNL > size / 2 {
          end := pos + lastNL + 1;
        }
      }
      ChunksStep(chunks, text, pos, end, idx, size);
      chunks := chunks + [StreamChunk(idx, text[pos..end], end >= |text|)];
      pos := end;
      idx := idx + 1;
    }
    NoChunks(text, idx, size);
  }

  lemma NoChunks(text: string, idx: nat, size: int)
    requires size > 0
    ensures Chunks(text, |text|, idx, size) == []
  {
  }

  lemma SingleChunk(text: string)
    ensures Concat(Contents([StreamChunk(0, text, true)])) == text
  {
    assert Contents([StreamChunk(0, text, true)]) == [] + [text];
    ConcatGrows([], text);
  }

  lemma OneChunkIsShort(chunks: seq<StreamChunk>, size: int)
    requires WellCut(chunks, 0, size) && |chunks| == 1
    ensures |Concat(Contents(chunks))| <= size
  {
    assert Contents(chunks) == [] + [chunks[0].content];
    ConcatGrows([], chunks[0].content);
  }
}
