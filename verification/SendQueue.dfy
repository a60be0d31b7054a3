/** The sending half of a channel at the level of whole cells: the bytes SPDY has produced, the queue
    of cells behind `cell_outbuf_`, and how far the front cell has been written to the socket. */
module SendQueue {
  import opened Cells

  /** `emitted`, `retired` and `wire` are history: every byte SPDY produced, every cell that was sent
      completely, and every byte the socket accepted. */
  datatype Sender = Sender(
    spdyOut: seq<byte>,
    queue: seq<Cell>,
    progress: nat,
    droppable: bool,
    allSent: nat,
    dataSent: nat,
    dummySent: nat,
    avoided: nat,
    emitted: seq<byte>,
    retired: seq<Cell>,
    wire: seq<byte>)

  const EMPTY: Sender := Sender([], [], 0, false, 0, 0, 0, 0, [], [], [])

  // ---------- whole cells in a number of bytes ----------

  function Whole(n: nat, cellSize: nat): nat
    requires cellSize > 0
  {
    if n < cellSize then 0 else 1 + Whole(n - cellSize, cellSize)
  }

  function Rest(n: nat, cellSize: nat): nat
    requires cellSize > 0
  {
    if n < cellSize then n else Rest(n - cellSize, cellSize)
  }

  lemma {:induction false} WholeAndRest(n: nat, cellSize: nat)
    requires cellSize > 0
    ensures n == Span(Whole(n, cellSize), cellSize) + Rest(n, cellSize)
    ensures Rest(n, cellSize) < cellSize
  {
    if n >= cellSize {
      WholeAndRest(n - cellSize, cellSize);
    }
  }

  lemma WholeIsDivision(n: nat, cellSize: nat)
    requires cellSize > 0
    ensures Whole(n, cellSize) == n / cellSize
    ensures Rest(n, cellSize) == n % cellSize
  {
    WholeAndRest(n, cellSize);
    SpanIsProduct(n / cellSize, cellSize);
    assert n == n / cellSize * cellSize + n % cellSize;
    SpanStrict(n / cellSize, Whole(n, cellSize), cellSize);
    SpanStrict(Whole(n, cellSize), n / cellSize, cellSize);
  }

  lemma {:induction false} SpanAdd(a: nat, b: nat, cellSize: nat)
    ensures Span(a + b, cellSize) == Span(a, cellSize) + Span(b, cellSize)
  {
    if b > 0 {
      SpanAdd(a, b - 1, cellSize);
    }
  }

  lemma SpanStrict(a: nat, b: nat, cellSize: nat)
    requires Span(a, cellSize) <= Span(b, cellSize) + cellSize - 1
    ensures a <= b
  {
    if a > b {
      SpanAdd(b + 1, a - b - 1, cellSize);
    }
  }

  // ---------- the operations ----------

  /** The number of bytes waiting in `cell_outbuf_`. */
  function OutLen(tx: Sender, cellSize: nat): int {
    Span(|tx.queue|, cellSize) - tx.progress
  }

  function Produce(tx: Sender, data: seq<byte>): Sender {
    tx.(spdyOut := tx.spdyOut + data, emitted := tx.emitted + data)
  }

  function Drop(tx: Sender, count: bool): Sender
    requires tx.droppable ==> tx.queue != []
  {
    if tx.droppable then
      tx.(queue := tx.queue[..|tx.queue| - 1], droppable := false,
          avoided := tx.avoided + if count then 1 else 0)
    else
      tx
  }

  function PayloadSize(tx: Sender, cellSize: nat): nat
    requires ValidCellSize(cellSize)
  {
    if |tx.spdyOut| < cellSize - HEADER_SIZE then |tx.spdyOut| else cellSize - HEADER_SIZE
  }

  /** Moves the first bytes of the SPDY output into a data cell with the given flags. */
  function PushData(tx: Sender, flags: Flags, cellSize: nat): Sender
    requires ValidCellSize(cellSize)
  {
    var n := PayloadSize(tx, cellSize);
    tx.(spdyOut := tx.spdyOut[n..], queue := tx.queue + [Cell(Data, flags, tx.spdyOut[..n])])
  }

  /** Only a dummy cell without control flags may be dropped again. */
  function PushDummy(tx: Sender, flags: Flags): Sender {
    tx.(queue := tx.queue + [Cell(Dummy, flags, [])], droppable := !flags.Important())
  }

  /** The socket has taken the next n bytes: cells that are now sent completely leave the queue. */
  function Advance(tx: Sender, n: nat, cellSize: nat): Sender
    requires ValidCellSize(cellSize) && AllWellFormed(tx.queue, cellSize)
    requires n <= OutLen(tx, cellSize)
  {
    WholeFits(tx, n, cellSize);
    var k := Whole(tx.progress + n, cellSize);
    var sent := tx.queue[..k];
    tx.(queue := tx.queue[k..],
        progress := Rest(tx.progress + n, cellSize),
        allSent := tx.allSent + n,
        dataSent := tx.dataSent + |Payloads(sent)|,
        dummySent := tx.dummySent + Dummies(sent),
        retired := tx.retired + sent,
        wire := tx.wire + EncodeAll(tx.queue, cellSize)[tx.progress..tx.progress + n])
  }

  lemma WholeFits(tx: Sender, n: nat, cellSize: nat)
    requires ValidCellSize(cellSize) && AllWellFormed(tx.queue, cellSize)
    requires n <= OutLen(tx, cellSize)
    ensures Whole(tx.progress + n, cellSize) <= |tx.queue|
    ensures tx.progress + n <= |EncodeAll(tx.queue, cellSize)|
  {
    EncodeAllLength(tx.queue, cellSize);
    WholeAndRest(tx.progress + n, cellSize);
    SpanStrict(Whole(tx.progress + n, cellSize), |tx.queue|, cellSize);
  }

  // ---------- the representation invariant ----------

  predicate QueueInv(tx: Sender, cellSize: nat) {
    && ValidCellSize(cellSize)
    && AllWellFormed(tx.queue, cellSize)
    && AllWellFormed(tx.retired, cellSize)
    && tx.progress < cellSize
    && (tx.queue == [] ==> tx.progress == 0)
  }

  /** A droppable cell is one whole, wholly unsent dummy at the end that carries no control flag. */
  predicate DroppableInv(tx: Sender) {
    tx.droppable ==>
      && tx.queue != []
      && tx.queue[|tx.queue| - 1].kind.Dummy?
      && !tx.queue[|tx.queue| - 1].flags.Important()
      && (|tx.queue| == 1 ==> tx.progress == 0)
  }

  /** What is on the wire is the encoding of the retired cells and of the sent part of the front one. */
  predicate WireInv(tx: Sender, cellSize: nat)
    requires QueueInv(tx, cellSize)
  {
    && tx.progress <= |EncodeAll(tx.queue, cellSize)|
    && tx.wire == EncodeAll(tx.retired, cellSize) + EncodeAll(tx.queue, cellSize)[..tx.progress]
  }

  /** No byte of SPDY output is lost, repeated or reordered. */
  predicate StreamInv(tx: Sender) {
    tx.emitted == Payloads(tx.retired) + Payloads(tx.queue) + tx.spdyOut
  }

  predicate CountInv(tx: Sender) {
    && tx.allSent == |tx.wire|
    && tx.dataSent == |Payloads(tx.retired)|
    && tx.dummySent == Dummies(tx.retired)
  }

  predicate SenderInv(tx: Sender, cellSize: nat) {
    && QueueInv(tx, cellSize)
    && DroppableInv(tx)
    && WireInv(tx, cellSize)
    && StreamInv(tx)
    && CountInv(tx)
  }

  lemma EmptyHolds(cellSize: nat)
    requires ValidCellSize(cellSize)
    ensures SenderInv(EMPTY, cellSize)
  {
    assert EncodeAll([], cellSize) == [];
  }

  lemma ProduceKeeps(tx: Sender, data: seq<byte>, cellSize: nat)
    requires SenderInv(tx, cellSize)
    ensures SenderInv(Produce(tx, data), cellSize)
  {
  }

  /** Adding a cell at the end keeps the sent prefix of the queue in place. */
  lemma PrefixStable(queue: seq<Cell>, c: Cell, progress: nat, cellSize: nat)
    requires ValidCellSize(cellSize) && AllWellFormed(queue, cellSize) && WellFormed(c, cellSize)
    requires progress <= |EncodeAll(queue, cellSize)|
    ensures AllWellFormed(queue + [c], cellSize)
    ensures progress <= |EncodeAll(queue + [c], cellSize)|
    ensures EncodeAll(queue + [c], cellSize)[..progress] == EncodeAll(queue, cellSize)[..progress]
  {
    assert (queue + [c])[..|queue|] == queue;
    assert EncodeAll(queue + [c], cellSize) == EncodeAll(queue, cellSize) + Encode(c, cellSize);
  }

  /** Adding a well-formed cell at the end leaves the wire invariant as it is. */
  lemma AppendKeepsWire(tx: Sender, c: Cell, cellSize: nat)
    requires QueueInv(tx, cellSize) && WireInv(tx, cellSize) && WellFormed(c, cellSize)
    ensures QueueInv(tx.(queue := tx.queue + [c]), cellSize)
    ensures WireInv(tx.(queue := tx.queue + [c]), cellSize)
  {
    PrefixStable(tx.queue, c, tx.progress, cellSize);
  }

  lemma AppendGrows(tx: Sender, c: Cell, cellSize: nat)
    ensures Payloads(tx.queue + [c]) == Payloads(tx.queue) + c.payload
    ensures OutLen(tx.(queue := tx.queue + [c]), cellSize) == OutLen(tx, cellSize) + cellSize
  {
    assert (tx.queue + [c])[..|tx.queue|] == tx.queue;
  }

  lemma PushDataKeeps(tx: Sender, flags: Flags, cellSize: nat)
    requires SenderInv(tx, cellSize) && !tx.droppable && tx.spdyOut != []
    ensures SenderInv(PushData(tx, flags, cellSize), cellSize)
    ensures OutLen(PushData(tx, flags, cellSize), cellSize) == OutLen(tx, cellSize) + cellSize
  {
    hide EncodeAll;
    var n := PayloadSize(tx, cellSize);
    var c := Cell(Data, flags, tx.spdyOut[..n]);
    AppendKeepsWire(tx, c, cellSize);
    AppendGrows(tx, c, cellSize);
    assert tx.spdyOut == tx.spdyOut[..n] + tx.spdyOut[n..];
  }

  lemma PushDummyKeeps(tx: Sender, flags: Flags, cellSize: nat)
    requires SenderInv(tx, cellSize) && !tx.droppable
    ensures SenderInv(PushDummy(tx, flags), cellSize)
    ensures OutLen(PushDummy(tx, flags), cellSize) == OutLen(tx, cellSize) + cellSize
  {
    var c := Cell(Dummy, flags, []);
    AppendKeepsWire(tx, c, cellSize);
    AppendGrows(tx, c, cellSize);
    DummyAlone(tx, flags);
  }

  lemma DummyAlone(tx: Sender, flags: Flags)
    requires tx.queue == [] ==> tx.progress == 0
    ensures DroppableInv(PushDummy(tx, flags))
  {
  }

  lemma SpanMonotone(a: nat, b: nat, cellSize: nat)
    requires a <= b
    ensures Span(a, cellSize) <= Span(b, cellSize)
  {
    SpanAdd(a, b - a, cellSize);
  }

  /** The last cell of a queue with a droppable end has not been touched by the socket. */
  lemma LastUntouched(tx: Sender, cellSize: nat)
    requires QueueInv(tx, cellSize) && DroppableInv(tx) && tx.droppable
    ensures tx.progress <= Span(|tx.queue| - 1, cellSize)
  {
    if |tx.queue| > 1 {
      SpanMonotone(1, |tx.queue| - 1, cellSize);
      assert Span(1, cellSize) == cellSize;
    }
  }

  lemma DropKeepsWire(tx: Sender, cellSize: nat)
    requires QueueInv(tx, cellSize) && DroppableInv(tx) && WireInv(tx, cellSize) && tx.droppable
    ensures QueueInv(tx.(queue := tx.queue[..|tx.queue| - 1]), cellSize)
    ensures WireInv(tx.(queue := tx.queue[..|tx.queue| - 1]), cellSize)
  {
    var front, last := tx.queue[..|tx.queue| - 1], tx.queue[|tx.queue| - 1];
    assert tx.queue == front + [last];
    LastUntouched(tx, cellSize);
    EncodeAllLength(front, cellSize);
    PrefixStable(front, last, tx.progress, cellSize);
  }

  lemma DropKeeps(tx: Sender, count: bool, cellSize: nat)
    requires SenderInv(tx, cellSize)
    ensures SenderInv(Drop(tx, count), cellSize)
    ensures !Drop(tx, count).droppable
    ensures OutLen(Drop(tx, count), cellSize) == OutLen(tx, cellSize) - if tx.droppable then cellSize else 0
    ensures OutLen(Drop(tx, count), cellSize) >= 0
  {
    if tx.droppable {
      DropKeepsWire(tx, cellSize);
      LastUntouched(tx, cellSize);
    } else {
      OutLenNatural(tx, cellSize);
    }
  }

  lemma OutLenNatural(tx: Sender, cellSize: nat)
    requires QueueInv(tx, cellSize)
    ensures OutLen(tx, cellSize) >= 0
    ensures OutLen(tx, cellSize) == 0 <==> tx.queue == []
  {
    if tx.queue != [] {
      SpanMonotone(1, |tx.queue|, cellSize);
      assert Span(1, cellSize) == cellSize;
    }
  }

  // ---------- the socket takes bytes ----------

  /** Splitting the queue behind the cells that are now complete. */
  lemma AdvanceSplits(tx: Sender, n: nat, cellSize: nat)
    requires QueueInv(tx, cellSize) && n <= OutLen(tx, cellSize)
    ensures
      var k := Whole(tx.progress + n, cellSize);
      var rest := Rest(tx.progress + n, cellSize);
      && k <= |tx.queue|
      && tx.progress + n == Span(k, cellSize) + rest
      && rest < cellSize
      && (k == |tx.queue| ==> rest == 0)
      && (k + 1 == |tx.queue| && OutLen(tx, cellSize) - n >= cellSize ==> rest == 0)
      && (OutLen(tx, cellSize) - n >= cellSize ==> k < |tx.queue|)
  {
    WholeFits(tx, n, cellSize);
    WholeAndRest(tx.progress + n, cellSize);
  }

  lemma AdvanceKeepsQueue(tx: Sender, n: nat, cellSize: nat)
    requires QueueInv(tx, cellSize) && n <= OutLen(tx, cellSize)
    ensures QueueInv(Advance(tx, n, cellSize), cellSize)
  {
    AdvanceSplits(tx, n, cellSize);
  }

  /** Cutting an encoded queue after its first k cells. */
  lemma EncodeSplit(queue: seq<Cell>, k: nat, cellSize: nat)
    requires ValidCellSize(cellSize) && AllWellFormed(queue, cellSize) && k <= |queue|
    ensures EncodeAll(queue, cellSize) == EncodeAll(queue[..k], cellSize) + EncodeAll(queue[k..], cellSize)
    ensures |EncodeAll(queue[..k], cellSize)| == Span(k, cellSize)
  {
    assert queue == queue[..k] + queue[k..];
    EncodeAllAppend(queue[..k], queue[k..], cellSize);
    EncodeAllLength(queue[..k], cellSize);
  }

  /** The bytes on the wire after n more, in terms of the cells they complete. */
  lemma WireGrows(retired: seq<Cell>, queue: seq<Cell>, progress: nat, n: nat, k: nat, rest: nat, cellSize: nat)
    requires ValidCellSize(cellSize) && AllWellFormed(retired, cellSize) && AllWellFormed(queue, cellSize)
    requires k <= |queue| && progress + n <= |EncodeAll(queue, cellSize)| && progress + n == Span(k, cellSize) + rest
    ensures AllWellFormed(retired + queue[..k], cellSize) && AllWellFormed(queue[k..], cellSize)
    ensures rest <= |EncodeAll(queue[k..], cellSize)|
    ensures EncodeAll(retired, cellSize) + EncodeAll(queue, cellSize)[..progress]
            + EncodeAll(queue, cellSize)[progress..progress + n]
         == EncodeAll(retired + queue[..k], cellSize) + EncodeAll(queue[k..], cellSize)[..rest]
  {
    EncodeSplit(queue, k, cellSize);
    EncodeAllAppend(retired, queue[..k], cellSize);
    WirePieces(EncodeAll(retired, cellSize), EncodeAll(queue, cellSize),
               EncodeAll(queue[..k], cellSize), EncodeAll(queue[k..], cellSize), progress, n, rest);
  }

  lemma AdvanceKeepsWire(tx: Sender, n: nat, cellSize: nat)
    requires QueueInv(tx, cellSize) && WireInv(tx, cellSize) && n <= OutLen(tx, cellSize)
    ensures QueueInv(Advance(tx, n, cellSize), cellSize) && WireInv(Advance(tx, n, cellSize), cellSize)
  {
    hide EncodeAll;
    AdvanceKeepsQueue(tx, n, cellSize);
    AdvanceSplits(tx, n, cellSize);
    WholeFits(tx, n, cellSize);
    WireGrows(tx.retired, tx.queue, tx.progress, n,
              Whole(tx.progress + n, cellSize), Rest(tx.progress + n, cellSize), cellSize);
  }

  lemma WirePieces(before: seq<byte>, all: seq<byte>, sent: seq<byte>, left: seq<byte>, progress: nat, n: nat, rest: nat)
    requires all == sent + left && progress + n <= |all| && progress + n == |sent| + rest
    ensures rest <= |left|
    ensures (before + all[..progress]) + all[progress..progress + n] == (before + sent) + left[..rest]
  {
    assert all[..progress] + all[progress..progress + n] == all[..progress + n];
    assert all[..progress + n] == sent + left[..rest];
  }

  lemma PayloadsMove(retired: seq<Cell>, queue: seq<Cell>, k: nat)
    requires k <= |queue|
    ensures Payloads(retired) + Payloads(queue) == Payloads(retired + queue[..k]) + Payloads(queue[k..])
  {
    assert queue == queue[..k] + queue[k..];
    PayloadsAppend(queue[..k], queue[k..]);
    PayloadsAppend(retired, queue[..k]);
  }

  lemma AdvanceKeepsStream(tx: Sender, n: nat, cellSize: nat)
    requires QueueInv(tx, cellSize) && n <= OutLen(tx, cellSize) && StreamInv(tx)
    ensures StreamInv(Advance(tx, n, cellSize))
  {
    WholeFits(tx, n, cellSize);
    PayloadsMove(tx.retired, tx.queue, Whole(tx.progress + n, cellSize));
  }

  lemma AdvanceKeepsCounts(tx: Sender, n: nat, cellSize: nat)
    requires QueueInv(tx, cellSize) && n <= OutLen(tx, cellSize) && CountInv(tx)
    ensures CountInv(Advance(tx, n, cellSize))
  {
    WholeFits(tx, n, cellSize);
    var k := Whole(tx.progress + n, cellSize);
    PayloadsAppend(tx.retired, tx.queue[..k]);
    DummiesAppend(tx.retired, tx.queue[..k]);
  }

  lemma AdvanceKeepsDroppable(tx: Sender, n: nat, cellSize: nat)
    requires QueueInv(tx, cellSize) && DroppableInv(tx) && n <= OutLen(tx, cellSize)
    requires tx.droppable ==> OutLen(tx, cellSize) - n >= cellSize
    ensures DroppableInv(Advance(tx, n, cellSize))
  {
    AdvanceSplits(tx, n, cellSize);
  }

  lemma AdvanceKeeps(tx: Sender, n: nat, cellSize: nat)
    requires SenderInv(tx, cellSize) && n <= OutLen(tx, cellSize)
    requires tx.droppable ==> OutLen(tx, cellSize) - n >= cellSize
    ensures SenderInv(Advance(tx, n, cellSize), cellSize)
    ensures OutLen(Advance(tx, n, cellSize), cellSize) == OutLen(tx, cellSize) - n
  {
    AdvanceKeepsWire(tx, n, cellSize);
    AdvanceKeepsStream(tx, n, cellSize);
    AdvanceKeepsCounts(tx, n, cellSize);
    AdvanceKeepsDroppable(tx, n, cellSize);
    AdvanceLength(tx, n, cellSize);
  }

  lemma AdvanceLength(tx: Sender, n: nat, cellSize: nat)
    requires QueueInv(tx, cellSize) && n <= OutLen(tx, cellSize)
    ensures OutLen(Advance(tx, n, cellSize), cellSize) == OutLen(tx, cellSize) - n
  {
    AdvanceSplits(tx, n, cellSize);
    var k := Whole(tx.progress + n, cellSize);
    SpanAdd(k, |tx.queue| - k, cellSize);
  }

  /** Sending moves cells from the queue to the retired ones and neither adds nor removes any. */
  lemma AdvanceMoves(tx: Sender, n: nat, cellSize: nat)
    requires QueueInv(tx, cellSize) && n <= OutLen(tx, cellSize)
    ensures Advance(tx, n, cellSize).retired + Advance(tx, n, cellSize).queue == tx.retired + tx.queue
  {
    WholeFits(tx, n, cellSize);
    CutAndJoin(tx.retired, tx.queue, Whole(tx.progress + n, cellSize));
  }

  lemma CutAndJoin(a: seq<Cell>, b: seq<Cell>, k: nat)
    requires k <= |b|
    ensures (a + b[..k]) + b[k..] == a + b
  {
  }
}
