/** One input file as the decoders see it.

    The source reads a file in blocks of 32768 bytes into bufferInA and walks
    it with evA; bufferInSizeA holds the size of the block or -1 once a read
    found the end of the file. Here the data after the header is a sequence of
    bytes and the position of bufferInA[evA] in it is `pos`; `ended` stands for
    bufferInSizeA == -1. Every read is taken to return a full block except the
    last, so block k covers bytes [32768k, 32768(k+1)). */
module Stream {
  import opened JavaInt
  import opened Events

  const BlockSize: int := 32768

  datatype Cursor = Cursor(pos: nat, ended: bool)

  /** What one decoding run of a single stream produced: the events, the
      cursor after them and the pending (not yet emitted) interval. */
  datatype Run = Run(events: seq<Event>, cursor: Cursor, iat: int)

  /** A cursor that stands on a byte (still live) or is past the end. */
  predicate Live(c: Cursor, n: nat)
  {
    c.pos <= n && (!c.ended ==> c.pos < n)
  }

  /** The start of the block after the one that holds position p. */
  function NextBlock(p: nat): (q: nat)
    ensures p < q && q % BlockSize == 0 && q <= p + BlockSize
  {
    (p / BlockSize + 1) * BlockSize
  }

  /** The refill test every decoder makes on entry, `if (evA >= bufferInSizeA)`.
      A cursor that already reached the end reads the next block: at the end
      of the file that read finds nothing again; after a Confocor2 end marker
      it resumes at the next block, leaving the rest of the marker's block
      unread. An initial cursor on an empty file finds the end at once. */
  function Resume(c: Cursor, n: nat): (r: Cursor)
    requires c.pos <= n
    ensures Live(r, n)
    ensures !c.ended && c.pos < n ==> r == c
    ensures r.ended <==> (if c.ended then NextBlock(c.pos) >= n else c.pos >= n)
    ensures r.pos >= c.pos
  {
    if c.ended then
      var p := NextBlock(c.pos);
      if p < n then Cursor(p, false) else Cursor(n, true)
    else if c.pos >= n then Cursor(n, true)
    else c
  }

  /** The cursor after the decoder has used k bytes, with the refill test
      that follows every advance: a read at the end of the file gives -1. */
  function Advance(c: Cursor, k: nat, n: nat): (r: Cursor)
    requires c.pos + k <= n
    ensures Live(r, n) && r.pos == c.pos + k
    ensures r.ended <==> c.pos + k == n
  {
    Cursor(c.pos + k, c.pos + k == n)
  }

  /** The decoders' return value, bufferInSizeA: -1 at the end, otherwise the
      size of the block that holds the cursor. */
  function BufferSize(c: Cursor, n: nat): (r: int)
    requires Live(c, n)
    ensures r == -1 <==> c.ended
    ensures !c.ended ==> 0 < r <= BlockSize && c.pos % BlockSize < r
  {
    if c.ended then -1
    else
      var start := c.pos / BlockSize * BlockSize;
      if n - start < BlockSize then n - start else BlockSize
  }

  /** Resuming keeps a cursor on a record boundary (records of 2 or 4 bytes). */
  lemma ResumeAligned(c: Cursor, n: nat, size: nat)
    requires c.pos <= n && (size == 2 || size == 4)
    requires c.pos % size == 0 && n % size == 0
    ensures Resume(c, n).pos % size == 0
  {
    if c.ended {
      var p := NextBlock(c.pos);
      var t := p / BlockSize;
      assert p == BlockSize * t;
      assert p == size * ((BlockSize / size) * t);
    }
  }
}
