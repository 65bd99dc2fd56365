/**
 The sender's file source, `FileReader.read_chunk` of gftlib/file_io.py,
 over the file's contents held as a byte sequence. A read returns the next
 `size` bytes; the first read that comes back short (possibly empty) marks
 the reader finished, and from then on every read returns nothing.
 */
module FileSource {
  import opened Helpers
  import opened Constants

  datatype Source = Source(rest: Bytes, finished: bool)

  function Open(contents: Bytes): Source
  {
    Source(contents, false)
  }

  /** `read_chunk(size)` for a positive size: the chunk read and the reader afterwards. */
  function ReadChunk(src: Source, size: nat): (r: (Bytes, Source))
    requires size > 0
    ensures |r.0| <= size
    ensures !src.finished ==> |r.0| == if |src.rest| < size then |src.rest| else size
    ensures !src.finished ==> src.rest == r.0 + r.1.rest
    ensures src.finished ==> r == ([], src)
    ensures r.1.finished <==> src.finished || |r.0| < size
  {
    if src.finished then ([], src)
    else
      var data := Take(src.rest, size);
      var finished := |data| == 0 || |data| < size;
      (data, Source(Drop(src.rest, |data|), finished))
  }

  // ---------------------------------------------------------------------------
  // The chunks of a file, as the sender reads them
  // ---------------------------------------------------------------------------

  /** The number of DATA blocks a file of this size is sent in: the full ones and a short last one. */
  function NumBlocks(contents: Bytes): nat
  {
    |contents| / DataSize + 1
  }

  /** Where the k-th chunk of the file ends (k counted from 1). */
  function ChunkEnd(contents: Bytes, k: nat): nat
  {
    if k * DataSize <= |contents| then k * DataSize else |contents|
  }

  /** The k-th chunk of the file, k counted from 1. */
  function Chunk(contents: Bytes, k: nat): Bytes
    requires k >= 1
  {
    contents[ChunkEnd(contents, k - 1)..ChunkEnd(contents, k)]
  }

  /** The reader after k reads of DataSize bytes. */
  function SourceAfter(contents: Bytes, k: nat): Source
  {
    Source(contents[ChunkEnd(contents, k)..], k * DataSize > |contents|)
  }

  /** Every chunk but the last is full, and the last one is short, possibly empty. */
  lemma ChunkSizes(contents: Bytes, k: nat)
    requires 1 <= k <= NumBlocks(contents)
    ensures k < NumBlocks(contents) ==> |Chunk(contents, k)| == DataSize
    ensures k == NumBlocks(contents) ==> |Chunk(contents, k)| < DataSize
  {
  }

  /** The k-th read returns the k-th chunk and leaves the reader just past it. */
  lemma ReadChunkAfter(contents: Bytes, k: nat)
    requires 1 <= k <= NumBlocks(contents)
    ensures ReadChunk(SourceAfter(contents, k - 1), DataSize) == (Chunk(contents, k), SourceAfter(contents, k))
  {
    ChunkSizes(contents, k);
    var lo, hi := ChunkEnd(contents, k - 1), ChunkEnd(contents, k);
    assert (k - 1) * DataSize <= |contents|;
    assert lo == (k - 1) * DataSize;
    var src := SourceAfter(contents, k - 1);
    assert !src.finished;
    var data := Take(src.rest, DataSize);
    assert data == contents[lo..hi];
    assert Drop(src.rest, |data|) == contents[hi..];
    assert (|data| == 0 || |data| < DataSize) <==> k * DataSize > |contents|;
  }

  /** The chunks 1..k of the file, in order. */
  function Chunks(contents: Bytes, k: nat): seq<Bytes>
  {
    if k == 0 then [] else Chunks(contents, k - 1) + [Chunk(contents, k)]
  }

  function Concat(chunks: seq<Bytes>): Bytes
  {
    if |chunks| == 0 then [] else Concat(chunks[..|chunks| - 1]) + chunks[|chunks| - 1]
  }

  /** The first k chunks put together are the first ChunkEnd(k) bytes of the file. */
  lemma {:induction false} ConcatChunks(contents: Bytes, k: nat)
    ensures Concat(Chunks(contents, k)) == contents[..ChunkEnd(contents, k)]
  {
    if k > 0 {
      ConcatChunks(contents, k - 1);
      var cs := Chunks(contents, k);
      assert cs[..|cs| - 1] == Chunks(contents, k - 1);
      assert contents[..ChunkEnd(contents, k)]
          == contents[..ChunkEnd(contents, k - 1)] + contents[ChunkEnd(contents, k - 1)..ChunkEnd(contents, k)];
    }
  }

  /** All the chunks of a file put together are the file. */
  lemma WholeFile(contents: Bytes)
    ensures Concat(Chunks(contents, NumBlocks(contents))) == contents
  {
    ConcatChunks(contents, NumBlocks(contents));
    assert contents[..|contents|] == contents;
  }
}
