/** Splitting a text into overlapping chunks. */
module Chunking {
  import opened Sequences

  /** Where the chunk that starts at the cursor ends. */
  function ChunkEnd(text: string, cursor: nat, maxChars: nat): (end: nat)
    requires cursor <= |text|
    ensures cursor <= end <= |text|
  {
    if |text| <= cursor + maxChars then |text| else cursor + maxChars
  }

  function Max(a: int, b: int): int {
    if a >= b then a else b
  }

  function ChunksFrom(text: string, cursor: nat, maxChars: nat, overlap: int): (chunks: seq<string>)
    requires cursor < |text| && maxChars >= 1
    ensures chunks != []
    decreases |text| - cursor
  {
    var end := ChunkEnd(text, cursor, maxChars);
    var next := Max(end - overlap, cursor + 1);
    [text[cursor..end]] + if end >= |text| || next >= |text| then [] else ChunksFrom(text, next, maxChars, overlap)
  }

  function Chunks(text: string, maxChars: nat, overlap: int): (chunks: seq<string>)
    requires maxChars >= 1
    ensures chunks != []
  {
    if |text| <= maxChars then [text] else ChunksFrom(text, 0, maxChars, overlap)
  }

  /** The chunks still to come once the cursor is here. */
  function Rest(text: string, cursor: nat, maxChars: nat, overlap: int): seq<string>
    requires maxChars >= 1
  {
    if cursor >= |text| then [] else ChunksFrom(text, cursor, maxChars, overlap)
  }

  lemma OneChunkMore(chunks: seq<string>, text: string, cursor: nat, maxChars: nat, overlap: int)
    requires cursor < |text| && maxChars >= 1
    ensures var end := ChunkEnd(text, cursor, maxChars);
      chunks + Rest(text, cursor, maxChars, overlap)
      == chunks + [text[cursor..end]] + if end >= |text| then [] else Rest(text, Max(end - overlap, cursor + 1), maxChars, overlap)
  {
    var end := ChunkEnd(text, cursor, maxChars);
    Regroup(chunks, [text[cursor..end]], if end >= |text| then [] else Rest(text, Max(end - overlap, cursor + 1), maxChars, overlap));
  }

  /** It terminates for any overlap: the cursor always moves on. */
  method SplitIntoChunks(text: string, maxChars: nat, overlap: int) returns (chunks: seq<string>)
    requires maxChars >= 1
    ensures chunks == Chunks(text, maxChars, overlap)
  {
    if |text| <= maxChars {
      return [text];
    }
    chunks := [];
    var cursor: nat := 0;
    while cursor < |text|
      invariant chunks + Rest(text, cursor, maxChars, overlap) == Chunks(text, maxChars, overlap)
      decreases |text| - cursor
    {
      var end := ChunkEnd(text, cursor, maxChars);
      OneChunkMore(chunks, text, cursor, maxChars, overlap);
      chunks := chunks + [text[cursor..end]];
      if end >= |text| {
        assert chunks + [] == chunks;
        return;
      }
      cursor := Max(end - overlap, cursor + 1);
    }
    assert chunks + [] == chunks;
  }

  lemma {:induction false} ChunksFromAreShort(text: string, cursor: nat, maxChars: nat, overlap: int, k: nat)
    requires cursor < |text| && maxChars >= 1 && k < |ChunksFrom(text, cursor, maxChars, overlap)|
    ensures 0 < |ChunksFrom(text, cursor, maxChars, overlap)[k]| <= maxChars
    decreases |text| - cursor
  {
    if k > 0 {
      var end := ChunkEnd(text, cursor, maxChars);
      ChunksFromAreShort(text, Max(end - overlap, cursor + 1), maxChars, overlap, k - 1);
    }
  }

  /** Only the chunk of an empty text is empty, and none is longer than allowed. */
  lemma ChunksAreShort(text: string, maxChars: nat, overlap: int, k: nat)
    requires maxChars >= 1 && k < |Chunks(text, maxChars, overlap)|
    ensures |Chunks(text, maxChars, overlap)[k]| <= maxChars
    ensures Chunks(text, maxChars, overlap)[k] == "" <==> text == ""
  {
    if |text| > maxChars {
      ChunksFromAreShort(text, 0, maxChars, overlap, k);
    }
  }

  /** How much of a chunk of this length the next one does not repeat. */
  function Own(length: nat, overlap: int): (n: nat)
    ensures n <= length
  {
    var step := Max(length - overlap, 1);
    if step <= length then step else length
  }

  /** The chunks put together, each without what the next one repeats. */
  function Rebuilt(chunks: seq<string>, overlap: int): string
    requires chunks != []
  {
    if |chunks| == 1 then chunks[0]
    else chunks[0][..Own(|chunks[0]|, overlap)] + Rebuilt(chunks[1..], overlap)
  }

  lemma SliceTwice(text: string, from: nat, mid: nat, to: nat)
    requires from <= mid <= to <= |text|
    ensures text[from..to][..mid - from] == text[from..mid]
    ensures text[from..] == text[from..mid] + text[mid..]
  {
  }

  lemma {:induction false} RebuildsFrom(text: string, cursor: nat, maxChars: nat, overlap: int)
    requires cursor < |text| && maxChars >= 1 && overlap >= 0
    ensures Rebuilt(ChunksFrom(text, cursor, maxChars, overlap), overlap) == text[cursor..]
    decreases |text| - cursor
  {
    var end := ChunkEnd(text, cursor, maxChars);
    var next := Max(end - overlap, cursor + 1);
    if end < |text| {
      var chunks := ChunksFrom(text, cursor, maxChars, overlap);
      RebuildsFrom(text, next, maxChars, overlap);
      assert chunks[1..] == ChunksFrom(text, next, maxChars, overlap);
      SliceTwice(text, cursor, next, end);
    }
  }

  /** With a negative overlap every chunk is followed by a gap. */
  lemma {:induction false} LosesFrom(text: string, cursor: nat, maxChars: nat, overlap: int)
    requires cursor < |text| && maxChars >= 1 && overlap < 0
    ensures var rebuilt := |Rebuilt(ChunksFrom(text, cursor, maxChars, overlap), overlap)|;
      rebuilt <= |text| - cursor && (ChunkEnd(text, cursor, maxChars) < |text| ==> rebuilt < |text| - cursor)
    decreases |text| - cursor
  {
    var end := ChunkEnd(text, cursor, maxChars);
    var next := Max(end - overlap, cursor + 1);
    if end < |text| && next < |text| {
      var chunks := ChunksFrom(text, cursor, maxChars, overlap);
      LosesFrom(text, next, maxChars, overlap);
      assert chunks[1..] == ChunksFrom(text, next, maxChars, overlap);
    }
  }

  /** The chunks rebuild the text exactly when the overlap is not negative or there is one chunk only. */
  lemma ChunksRebuild(text: string, maxChars: nat, overlap: int)
    requires maxChars >= 1
    ensures Rebuilt(Chunks(text, maxChars, overlap), overlap) == text <==> overlap >= 0 || |text| <= maxChars
  {
    if |text| > maxChars {
      if overlap >= 0 {
        RebuildsFrom(text, 0, maxChars, overlap);
        assert text[0..] == text;
      } else {
        LosesFrom(text, 0, maxChars, overlap);
      }
    }
  }

  lemma {:induction false} FullFrom(text: string, cursor: nat, maxChars: nat, overlap: int, k: nat)
    requires cursor < |text| && maxChars >= 1 && k + 1 < |ChunksFrom(text, cursor, maxChars, overlap)|
    ensures var chunks := ChunksFrom(text, cursor, maxChars, overlap);
      |chunks[k]| == maxChars && (0 <= overlap < maxChars ==> chunks[k + 1] != "" && chunks[k][maxChars - overlap..] <= chunks[k + 1])
    decreases |text| - cursor
  {
    var end := ChunkEnd(text, cursor, maxChars);
    var next := Max(end - overlap, cursor + 1);
    if k > 0 {
      FullFrom(text, next, maxChars, overlap, k - 1);
    } else if 0 <= overlap < maxChars {
      var second := text[next..ChunkEnd(text, next, maxChars)];
      assert text[cursor..end][maxChars - overlap..] == text[next..end];
      assert second[..overlap] == text[next..end];
    }
  }

  /** Every chunk but the last is full, and the next one starts with as much of it as the overlap says. */
  lemma ChunksAreFull(text: string, maxChars: nat, overlap: int, k: nat)
    requires maxChars >= 1 && k + 1 < |Chunks(text, maxChars, overlap)|
    ensures var chunks := Chunks(text, maxChars, overlap);
      |chunks[k]| == maxChars && (0 <= overlap < maxChars ==> chunks[k][maxChars - overlap..] <= chunks[k + 1])
  {
    FullFrom(text, 0, maxChars, overlap, k);
  }
}
