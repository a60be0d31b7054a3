/** Facts that connect the byte buffer and the size deque of the channel with the queue of cells they
    stand for. */
module Representation {
  import opened Cells
  import opened SendQueue

  /** `cell_outbuf_` holds the encoded queue from the given position on. */
  predicate BufferFrom(buf: seq<byte>, queue: seq<Cell>, from: nat, cellSize: nat) {
    && ValidCellSize(cellSize) && AllWellFormed(queue, cellSize)
    && from <= |EncodeAll(queue, cellSize)|
    && buf == EncodeAll(queue, cellSize)[from..]
  }

  lemma BufferLength(buf: seq<byte>, queue: seq<Cell>, from: nat, cellSize: nat)
    requires BufferFrom(buf, queue, from, cellSize)
    ensures |buf| == Span(|queue|, cellSize) - from
  {
    EncodeAllLength(queue, cellSize);
  }

  lemma BufferAppend(buf: seq<byte>, queue: seq<Cell>, from: nat, c: Cell, cellSize: nat)
    requires BufferFrom(buf, queue, from, cellSize) && WellFormed(c, cellSize)
    ensures BufferFrom(buf + Encode(c, cellSize), queue + [c], from, cellSize)
  {
    assert (queue + [c])[..|queue|] == queue;
  }

  lemma SizesAppend(queue: seq<Cell>, c: Cell)
    ensures Sizes(queue + [c]) == Sizes(queue) + [|c.payload|]
  {
  }

  /** Cutting off the last cell's worth of bytes cuts off the last cell. */
  lemma BufferDrop(buf: seq<byte>, queue: seq<Cell>, from: nat, cellSize: nat)
    requires BufferFrom(buf, queue, from, cellSize) && queue != [] && |buf| >= cellSize
    ensures BufferFrom(buf[..|buf| - cellSize], queue[..|queue| - 1], from, cellSize)
  {
    var front, last := queue[..|queue| - 1], queue[|queue| - 1];
    assert EncodeAll(queue, cellSize) == EncodeAll(front, cellSize) + Encode(last, cellSize);
    assert AllWellFormed(front, cellSize);
  }

  lemma SizesDrop(queue: seq<Cell>)
    requires queue != []
    ensures Sizes(queue)[..|queue| - 1] == Sizes(queue[..|queue| - 1])
  {
  }

  /** Taking bytes off the front moves the position on. */
  lemma BufferTake(buf: seq<byte>, queue: seq<Cell>, from: nat, n: nat, cellSize: nat)
    requires BufferFrom(buf, queue, from, cellSize) && n <= |buf|
    ensures BufferFrom(buf[n..], queue, from + n, cellSize)
    ensures buf[..n] == EncodeAll(queue, cellSize)[from..from + n]
  {
  }

  /** Forgetting the front cell, once it is behind the position. */
  lemma BufferPop(buf: seq<byte>, queue: seq<Cell>, from: nat, cellSize: nat)
    requires BufferFrom(buf, queue, from, cellSize) && queue != [] && from >= cellSize
    ensures BufferFrom(buf, queue[1..], from - cellSize, cellSize)
  {
    EncodeSplit(queue, 1, cellSize);
    assert Span(1, cellSize) == cellSize;
  }

  lemma SizesPop(queue: seq<Cell>)
    requires queue != []
    ensures Sizes(queue)[1..] == Sizes(queue[1..]) && Sizes(queue)[0] == |queue[0].payload|
  {
  }

  /** Quotient and remainder are what the progress loop must arrive at. */
  lemma WholeUnique(n: nat, k: nat, r: nat, cellSize: nat)
    requires cellSize > 0 && n == Span(k, cellSize) + r && r < cellSize
    ensures Whole(n, cellSize) == k && Rest(n, cellSize) == r
  {
    WholeAndRest(n, cellSize);
    SpanStrict(k, Whole(n, cellSize), cellSize);
    SpanStrict(Whole(n, cellSize), k, cellSize);
  }

  /** The first k + 1 cells of a queue, counted one by one. */
  lemma TakeOneMore(queue: seq<Cell>, k: nat)
    requires k < |queue|
    ensures queue[..k + 1] == queue[..k] + [queue[k]]
    ensures queue[k..][1..] == queue[k + 1..] && queue[k..][0] == queue[k]
    ensures Payloads(queue[..k + 1]) == Payloads(queue[..k]) + queue[k].payload
    ensures Dummies(queue[..k + 1]) == Dummies(queue[..k]) + if queue[k].kind.Dummy? then 1 else 0
  {
    assert queue[..k + 1][..k] == queue[..k];
  }

  /** A cell written piece by piece. */
  lemma CellPieces(buf: seq<byte>, c: Cell, cellSize: nat)
    requires ValidCellSize(cellSize) && WellFormed(c, cellSize)
    ensures
      var padding := Padding(cellSize - HEADER_SIZE - |c.payload|);
      (((buf + [TypeAndFlags(c.kind, c.flags)]) + [HighByte(|c.payload|), LowByte(|c.payload|)]) + c.payload) + padding
      == buf + Encode(c, cellSize)
  {
  }
}
