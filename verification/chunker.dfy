/** The engine's chunker: fixed-width overlapping windows over a text.
    Windows start at 0, `step`, `2*step`, ... with `step = chunkSize - overlap`,
    each is `chunkSize` characters long except where the text runs out, and the
    loop stops at the first start at or past the end of the text. */
module Chunker {
  import opened Strings

  /** The defaults of the engine's only call site. */
  const DefaultChunkSize: int := 1000
  const DefaultOverlap: int := 100

  /** The loop advances only when the overlap is smaller than the window. */
  predicate ValidParams(chunkSize: int, overlap: int)
  {
    0 < chunkSize && overlap < chunkSize
  }

  /** `c` is the text's window of width `chunkSize` starting at `lo`, cut
      short where the text ends (Python's clamping slice `text[lo:lo+chunkSize]`). */
  predicate WindowAt(text: string, lo: int, chunkSize: nat, c: string)
  {
    0 <= lo < |text| && c == text[lo..Min(lo + chunkSize, |text|)]
  }

  /** Number of windows of stride `d` whose start lies before `len`, that is
      the ceiling of `len / d` (see `CeilDivIsCeiling`). */
  function CeilDiv(len: int, d: nat): nat
    requires d > 0
    decreases len
  {
    if len <= 0 then 0 else 1 + CeilDiv(len - d, d)
  }

  lemma StrideShift(i: int, step: int)
    ensures (i + 1) * step == i * step + step
  {
  }

  /** `CeilDiv` is the ceiling of the quotient: the last window starts before
      `len` and one more stride would reach it. */
  lemma {:induction false} CeilDivIsCeiling(len: int, d: nat)
    requires d > 0 && len > 0
    ensures (CeilDiv(len, d) - 1) * d < len <= CeilDiv(len, d) * d
    decreases len
  {
    var k := CeilDiv(len, d);
    if len > d {
      CeilDivIsCeiling(len - d, d);
      StrideShift(k - 1, d);
      StrideShift(k - 2, d);
    }
  }

  /** The loop of the chunker from offset `start` onward: one chunk per
      window start before the end of the text. */
  function ChunksFrom(text: string, start: nat, chunkSize: int, overlap: int): (chunks: seq<string>)
    requires ValidParams(chunkSize, overlap)
    ensures |chunks| == CeilDiv(|text| - start, chunkSize - overlap)
    ensures forall i :: 0 <= i < |chunks| ==> 0 < |chunks[i]| <= chunkSize
    decreases |text| - start
  {
    if start < |text| then
      [text[start..Min(start + chunkSize, |text|)]]
        + ChunksFrom(text, start + chunkSize - overlap, chunkSize, overlap)
    else
      []
  }

  /** Start of window `i` relative to the first, `i * step`, written as the
      loop accumulates it. */
  function Offset(i: nat, step: nat): (lo: nat)
  {
    if i == 0 then 0 else Offset(i - 1, step) + step
  }

  lemma {:induction false} OffsetIsProduct(i: nat, step: nat)
    ensures Offset(i, step) == i * step
  {
    if i > 0 {
      OffsetIsProduct(i - 1, step);
      StrideShift(i - 1, step);
    }
  }

  /** Chunk `i` from offset `start` is the window at `start + i * step`,
      cut short where the text ends. */
  lemma {:induction false} ChunksFromWindow(text: string, start: nat, chunkSize: int, overlap: int, i: nat)
    requires ValidParams(chunkSize, overlap)
    requires i < |ChunksFrom(text, start, chunkSize, overlap)|
    ensures WindowAt(text, start + Offset(i, chunkSize - overlap), chunkSize, ChunksFrom(text, start, chunkSize, overlap)[i])
    decreases i
  {
    var step := chunkSize - overlap;
    if i > 0 {
      var rest := ChunksFrom(text, start + step, chunkSize, overlap);
      assert ChunksFrom(text, start, chunkSize, overlap)[i] == rest[i - 1];
      ChunksFromWindow(text, start + step, chunkSize, overlap, i - 1);
    }
  }

  /** Every chunk is the window at `i * step`, cut short where the text ends. */
  lemma ChunkWindows(text: string, chunkSize: int, overlap: int)
    requires ValidParams(chunkSize, overlap)
    ensures forall i :: 0 <= i < |ChunksFrom(text, 0, chunkSize, overlap)| ==>
              WindowAt(text, i * (chunkSize - overlap), chunkSize, ChunksFrom(text, 0, chunkSize, overlap)[i])
  {
    forall i | 0 <= i < |ChunksFrom(text, 0, chunkSize, overlap)|
      ensures WindowAt(text, i * (chunkSize - overlap), chunkSize, ChunksFrom(text, 0, chunkSize, overlap)[i])
    {
      ChunksFromWindow(text, 0, chunkSize, overlap, i);
      OffsetIsProduct(i, chunkSize - overlap);
    }
  }

  /** `_chunk(text, chunk_size, overlap)`. */
  function Chunk(text: string, chunkSize: int, overlap: int): (chunks: seq<string>)
    requires ValidParams(chunkSize, overlap)
    ensures |chunks| == CeilDiv(|text|, chunkSize - overlap)
    ensures chunks == [] <==> text == []
    ensures forall i :: 0 <= i < |chunks| ==> 0 < |chunks[i]| <= chunkSize
  {
    ChunksFrom(text, 0, chunkSize, overlap)
  }

  /** Chunk `i` is the window at `i * step`, cut short where the text ends. */
  lemma ChunkIsWindow(text: string, chunkSize: int, overlap: int, i: nat)
    requires ValidParams(chunkSize, overlap)
    requires i < |Chunk(text, chunkSize, overlap)|
    ensures WindowAt(text, i * (chunkSize - overlap), chunkSize, Chunk(text, chunkSize, overlap)[i])
  {
    ChunkWindows(text, chunkSize, overlap);
  }

  /** Undoes the chunker: the first `step` characters of every chunk but the
      last, followed by the whole last chunk. */
  function Reassemble(chunks: seq<string>, step: nat): string
  {
    if |chunks| == 0 then ""
    else if |chunks| == 1 then chunks[0]
    else chunks[0][..Min(step, |chunks[0]|)] + Reassemble(chunks[1..], step)
  }

  lemma {:induction false} ReassembleFrom(text: string, start: nat, chunkSize: int, overlap: int)
    requires 0 <= overlap < chunkSize
    requires start <= |text|
    ensures Reassemble(ChunksFrom(text, start, chunkSize, overlap), chunkSize - overlap) == text[start..]
    decreases |text| - start
  {
    var step := chunkSize - overlap;
    var chunks := ChunksFrom(text, start, chunkSize, overlap);
    if start < |text| {
      var rest := ChunksFrom(text, start + step, chunkSize, overlap);
      assert chunks[1..] == rest;
      if start + step < |text| {
        ReassembleFrom(text, start + step, chunkSize, overlap);
        assert chunks[0][..step] == text[start..start + step];
        assert text[start..] == text[start..start + step] + text[start + step..];
      } else {
        assert rest == [];
      }
    }
  }

  /** Dropping each chunk's overlap with its successor gives the text back. */
  lemma ChunkReconstructs(text: string, chunkSize: int, overlap: int)
    requires 0 <= overlap < chunkSize
    ensures Reassemble(Chunk(text, chunkSize, overlap), chunkSize - overlap) == text
  {
    ReassembleFrom(text, 0, chunkSize, overlap);
  }

  /** A full-length chunk ends with exactly the `overlap` characters its
      successor starts with. */
  lemma ConsecutiveChunksOverlap(text: string, chunkSize: int, overlap: int, i: nat)
    requires 0 <= overlap < chunkSize
    requires i + 1 < |Chunk(text, chunkSize, overlap)|
    requires |Chunk(text, chunkSize, overlap)[i]| == chunkSize
    ensures |Chunk(text, chunkSize, overlap)[i + 1]| >= overlap
            && Chunk(text, chunkSize, overlap)[i][chunkSize - overlap..]
               == Chunk(text, chunkSize, overlap)[i + 1][..overlap]
  {
    var step := chunkSize - overlap;
    ChunkIsWindow(text, chunkSize, overlap, i);
    ChunkIsWindow(text, chunkSize, overlap, i + 1);
    StrideShift(i, step);
  }

  /** With the defaults, 1500 characters split into two windows, `[0, 1000)`
      and `[900, 1500)`: the second starts one stride of 900 later and runs to
      the end of the text. */
  lemma DefaultSplitOf1500(text: string)
    requires |text| == 1500
    ensures Chunk(text, DefaultChunkSize, DefaultOverlap) == [text[..1000], text[900..]]
  {
    var chunks := Chunk(text, DefaultChunkSize, DefaultOverlap);
    assert CeilDiv(1500, 900) == 2 by {
      assert CeilDiv(600, 900) == 1 + CeilDiv(-300, 900);
    }
    assert |chunks| == 2;
    ChunkIsWindow(text, DefaultChunkSize, DefaultOverlap, 0);
    ChunkIsWindow(text, DefaultChunkSize, DefaultOverlap, 1);
    assert chunks[0] == text[..1000];
    assert chunks[1] == text[900..];
  }

  /** The loop keeps going while the start is inside the text, so a text that
      ends inside the previous window's overlap still gets a last window,
      wholly contained in the one before it. */
  lemma ShortTailIsRedundant(text: string)
    requires |text| == 950
    ensures Chunk(text, DefaultChunkSize, DefaultOverlap) == [text, text[900..]]
  {
    var chunks := Chunk(text, DefaultChunkSize, DefaultOverlap);
    assert CeilDiv(950, 900) == 2 by {
      assert CeilDiv(50, 900) == 1 + CeilDiv(-850, 900);
    }
    assert |chunks| == 2;
    ChunkIsWindow(text, DefaultChunkSize, DefaultOverlap, 0);
    ChunkIsWindow(text, DefaultChunkSize, DefaultOverlap, 1);
    assert chunks[0] == text;
    assert chunks[1] == text[900..];
  }
}
