/** `BufloMuxChannelImplSpdy`: the channel with its byte buffers, its deque of payload sizes and its
    flags, updated in place. Every method is proved to do to the value Abs() what Endpoint.dfy says. */
module Channel {
  import opened Cells
  import opened SendQueue
  import opened Endpoint
  import opened EndpointInv
  import opened Events
  import opened Packing
  import opened Representation

  datatype ForceToggleMode = NoForce | ForceEnable | ForceDisable

  datatype ReadState = ReadHeader | ReadBody

  const DATA_TYPE: nat := 0
  const DUMMY_TYPE: nat := 1

  const NO_FLAGS := Flags(false, false, false, false, false)

  /** A defense state once a data cell has taken the pending flags. */
  function DataCellTaken(d: Defense): Defense {
    var taken := d.FlagsTaken();
    if taken.state.Pending? then taken.(numDataCellsAdded := taken.numDataCellsAdded + 1) else taken
  }

  lemma NextFlagsMade(d: Defense)
    ensures FlagsMadeIn(d.NextFlags(), d)
  {
  }

  /** What writing a data cell of n bytes does: a droppable dummy makes room for it. */
  predicate DataCellStep(ep: Endpoint, n: nat, r: Endpoint)
    requires n <= |ep.tx.spdyOut| && (ep.tx.droppable ==> ep.tx.queue != [])
  {
    var kept := Drop(ep.tx, true);
    && r.d == DataCellTaken(ep.d)
    && r == ep.(tx := r.tx, d := r.d)
    && r.tx == kept.(spdyOut := ep.tx.spdyOut[n..],
                     queue := kept.queue + [Cell(Data, ep.d.NextFlags(), ep.tx.spdyOut[..n])])
  }

  lemma WrittenIsStep(ep: Endpoint, n: nat, r: Endpoint)
    requires n <= |ep.tx.spdyOut| && (ep.tx.droppable ==> ep.tx.queue != [])
    requires r.d == DataCellTaken(ep.d) && r == ep.(tx := r.tx, d := r.d)
    requires r.tx == Drop(ep.tx, true).(
      spdyOut := ep.tx.spdyOut[n..],
      queue := Drop(ep.tx, true).queue + [Cell(Data, ep.d.NextFlags(), ep.tx.spdyOut[..n])])
    ensures DataCellStep(ep, n, r)
  {
  }

  lemma DataCellAdded(ep: Endpoint, n: nat, r: Endpoint)
    requires TxOk(ep) && ep.tx.spdyOut != [] && n == PayloadSize(ep.tx, ep.cfg.cellSize)
    requires DataCellStep(ep, n, r)
    ensures r == AddDataCell(ep)
  {
  }

  lemma NothingToAdd(ep: Endpoint)
    requires TxOk(ep) && ep.tx.spdyOut == []
    ensures AddDataCell(ep) == ep
  {
  }

  lemma DummyCellAdded(ep: Endpoint, r: Endpoint)
    requires TxOk(ep) && !ep.tx.droppable
    requires
      && r == ep.(tx := r.tx, d := ep.d.FlagsTaken())
      && r.tx == ep.tx.(queue := ep.tx.queue + [Cell(Dummy, ep.d.NextFlags(), [])],
                        droppable := !ep.d.NextFlags().Important())
    ensures r == AddDummyCell(ep)
  {
  }

  /** A data cell is one more cell, unless it takes the place of a dummy. */
  lemma AddDataCellCount(ep: Endpoint)
    requires TxOk(ep) && ep.tx.spdyOut != []
    ensures
      var r := AddDataCell(ep);
      !r.tx.droppable && |r.tx.queue| == |ep.tx.queue| + if ep.tx.droppable then 0 else 1
  {
    hide EncodeAll;
  }

  /** How many bytes a return value of the socket stands for. */
  function Taken(numWritten: int): nat {
    if numWritten > 0 then numWritten else 0
  }

  lemma WriteThenBook(tx: Sender, mid: Sender, n: nat, bytes: seq<byte>, r: Sender, size: nat)
    requires size > 0 && mid == tx.(wire := tx.wire + bytes) && AdvancedTo(mid, n, [], r, size)
    ensures AdvancedTo(tx, n, bytes, r, size)
  {
    hide Whole, Rest, Payloads, Dummies;
    assert mid.wire + [] == mid.wire;
  }

  lemma AdvanceNothing(tx: Sender, size: nat)
    requires tx.progress < size
    ensures AdvancedTo(tx, 0, [], tx, size)
  {
    assert tx.queue[..0] == [];
    assert tx.wire + [] == tx.wire && tx.retired + [] == tx.retired;
  }

  /** The two ways of saying that the socket took n bytes agree. */
  lemma AdvancedIsAdvance(tx: Sender, n: nat, r: Sender, size: nat)
    requires ValidCellSize(size) && AllWellFormed(tx.queue, size) && n <= OutLen(tx, size)
    requires tx.progress + n <= |EncodeAll(tx.queue, size)|
    requires AdvancedTo(tx, n, EncodeAll(tx.queue, size)[tx.progress..tx.progress + n], r, size)
    ensures r == Advance(tx, n, size)
  {
  }

  /** One sender is another after the socket has taken the n given bytes. */
  predicate AdvancedTo(tx: Sender, n: nat, bytes: seq<byte>, r: Sender, size: nat)
    requires size > 0
  {
    var k := Whole(tx.progress + n, size);
    && k <= |tx.queue|
    && r == tx.(
         queue := tx.queue[k..],
         progress := Rest(tx.progress + n, size),
         allSent := tx.allSent + n,
         dataSent := tx.dataSent + |Payloads(tx.queue[..k])|,
         dummySent := tx.dummySent + Dummies(tx.queue[..k]),
         retired := tx.retired + tx.queue[..k],
         wire := tx.wire + bytes)
  }

  /** An inactive end that does not owe a START never comes to owe one by pumping. */
  lemma {:induction false} FlagsAfterFlush(ep: Endpoint)
    requires TxOk(ep) && FlagChecks(ep) && ep.d.state.Inactive?
    ensures var r := Flush(ep); FlagChecks(r) && r.d.state.Inactive? && !r.d.needStart
    decreases |ep.tx.spdyOut|
  {
    if ep.tx.spdyOut != [] {
      FlagsAfterFlush(AddDataCell(ep));
    }
  }

  lemma FlagsAfterPump(ep: Endpoint, data: seq<byte>)
    requires TxOk(ep) && FlagChecks(ep) && ep.d.state.Inactive?
    ensures var r := Pump(ep, data); FlagChecks(r) && r.d.state.Inactive? && !r.d.needStart
  {
    ProduceKeeps(ep.tx, data, ep.cfg.cellSize);
    FlagsAfterFlush(ep.(tx := Produce(ep.tx, data)));
  }

  lemma TickReady(ep: Endpoint, timeUp: bool)
    requires Inv(ep) && MayTick(ep, timeUp)
    ensures TxOk(ep) && FlagChecks(ep)
    ensures ep.d.IsDoneDefendingSend(ep.cfg.L) ==> FlagChecks(Finishing(ep))
  {
  }

  lemma WriteReady(ep: Endpoint)
    requires Inv(ep) && MayWrite(ep)
    ensures TxOk(ep) && !ep.d.state.Active? && Waiting(ep) > 0
    ensures ep.d.state.Pending? ==> Waiting(ep) == ep.cfg.cellSize
  {
    WritableKeeps(ep, 0);
  }

  /** The type bits do not disturb the flags. */
  lemma FlagsMasked(b: byte)
    ensures FlagsOf(b % 32) == FlagsOf(b)
    ensures b % 32 == 0 ==> FlagsOf(b) == NO_FLAGS
  {
    var high, low: byte := b / 32, b % 32;
    assert b == 32 * high + low;
    LowBit(16 * high, low, b);
    assert b / 2 == 16 * high + low / 2;
    LowBit(8 * high, low / 2, b / 2);
    assert b / 4 == 8 * high + low / 4;
    LowBit(4 * high, low / 4, b / 4);
    assert b / 8 == 4 * high + low / 8;
    LowBit(2 * high, low / 8, b / 8);
    assert b / 16 == 2 * high + low / 16;
    LowBit(high, low / 16, b / 16);
  }

  lemma LowBit(half: nat, low: nat, b: nat)
    requires b == 2 * half + low
    ensures b % 2 == low % 2
  {
  }

  lemma DecodedFields(buf: seq<byte>, size: nat, c: Cell)
    requires ValidCellSize(size) && size <= |buf| && Decode(buf[..size]) == Good(c)
    ensures HEADER_SIZE + PayloadLength(buf) <= size
    ensures c.flags == FlagsOf(buf[0]) && c.payload == buf[HEADER_SIZE..HEADER_SIZE + PayloadLength(buf)]
    ensures TypeNumber(buf[0]) == if c.kind.Data? then 0 else 1
  {
  }

  lemma AcceptedFlags(ep: Endpoint, c: Cell)
    requires Acceptable(ep, c)
    ensures Acceptable(ep, Cell(Dummy, c.flags, []))
    ensures c.flags.done ==> ep.cfg.isClient
  {
  }

  /** One more cell of the input. */
  lemma ReadOneCell(ep: Endpoint) returns (c: Cell)
    requires ValidCellSize(ep.cfg.peerCellSize) && Consumable(ep) && |ep.rx.inbuf| >= ep.cfg.peerCellSize
    ensures Decode(ep.rx.inbuf[..ep.cfg.peerCellSize]) == Good(c) && Acceptable(ep, c)
    ensures Consumable(AfterCell(ep, c)) && ReadCells(ep) == ReadCells(AfterCell(ep, c))
  {
    c := Decode(ep.rx.inbuf[..ep.cfg.peerCellSize]).cell;
  }

  lemma NothingToRead(ep: Endpoint)
    requires ValidCellSize(ep.cfg.peerCellSize) && |ep.rx.inbuf| < ep.cfg.peerCellSize
    ensures Consumable(ep) && ReadCells(ep) == ep
  {
  }

  lemma PeerReady(ep: Endpoint)
    requires Inv(ep)
    ensures ValidCellSize(ep.cfg.peerCellSize)
  {
  }

  lemma PumpReady(ep: Endpoint, data: seq<byte>)
    requires Inv(ep) && MayPump(ep, data)
    ensures TxOk(ep) && (!ep.d.state.Active? ==> FlagChecks(ep))
  {
  }

  lemma NoControl(ep: Endpoint)
    ensures OnControl(ep, NO_FLAGS) == ep
  {
  }

  lemma SmallProgress(tx: Sender, size: nat)
    requires SenderInv(tx, size)
    ensures tx.progress < size
  {
  }

  /** What offering one cell's worth and booking what the socket took does. */
  predicate OneCellStep(ep: Endpoint, accept: nat, buf: seq<byte>, r: Endpoint) {
    var n := Min(accept, ep.cfg.cellSize);
    && 0 < ep.cfg.cellSize <= |buf|
    && AdvancedTo(
         ep.tx.(wire := ep.tx.wire + buf[..n], droppable := ep.tx.droppable && |buf| - n >= ep.cfg.cellSize),
         n, [], r.tx, ep.cfg.cellSize)
    && r == ep.(tx := r.tx, d := ep.d.(numWriteAttempts := ep.d.numWriteAttempts + 1))
  }

  lemma OneCellSent(ep: Endpoint, accept: nat, buf: seq<byte>, r: Endpoint)
    requires CanSend(ep) && ep.d.state.Active? && |buf| == Waiting(ep)
    requires BufferFrom(buf, ep.tx.queue, ep.tx.progress, ep.cfg.cellSize)
    requires OneCellStep(ep, accept, buf, r)
    ensures r == Send(ep, accept)
  {
    hide EncodeAll, SenderInv, AllWellFormed, AdvancedTo, Advance;
    var n := Min(accept, ep.cfg.cellSize);
    var tx := if Waiting(ep) - n < ep.cfg.cellSize then ep.tx.(droppable := false) else ep.tx;
    var mid := ep.tx.(wire := ep.tx.wire + buf[..n], droppable := ep.tx.droppable && |buf| - n >= ep.cfg.cellSize);
    BufferTake(buf, ep.tx.queue, ep.tx.progress, n, ep.cfg.cellSize);
    WriteThenBook(tx, mid, n, buf[..n], r.tx, ep.cfg.cellSize);
    AdvancedIsAdvance(tx, n, r.tx, ep.cfg.cellSize);
  }

  function OfferedBytes(tx: Sender, buf: seq<byte>, size: nat): nat
    requires tx.droppable ==> |buf| >= size
  {
    |buf| - if tx.droppable then size else 0
  }

  /** A sender after a write of n bytes of the buffer and the drop that follows it. */
  function Dropped(tx: Sender, n: nat, buf: seq<byte>): Sender
    requires (tx.droppable ==> tx.queue != []) && n <= |buf|
  {
    Drop(tx, true).(wire := tx.wire + buf[..n])
  }

  /** What offering everything but a droppable dummy, dropping it, and booking does. */
  predicate WaitingStep(ep: Endpoint, accept: nat, buf: seq<byte>, r: Endpoint)
    requires ep.tx.droppable ==> ep.tx.queue != [] && |buf| >= ep.cfg.cellSize
  {
    var offered := OfferedBytes(ep.tx, buf, ep.cfg.cellSize);
    var n := Min(accept, offered);
    && 0 < ep.cfg.cellSize
    && AdvancedTo(Dropped(ep.tx, n, buf), n, [], r.tx, ep.cfg.cellSize)
    && r == ep.(tx := r.tx, writeOn := n < offered)
  }

  lemma BookedIsStep(ep: Endpoint, accept: nat, buf: seq<byte>, mid: Sender, r: Endpoint)
    requires ep.tx.droppable ==> ep.tx.queue != [] && |buf| >= ep.cfg.cellSize
    requires 0 < ep.cfg.cellSize
    requires
      var offered := OfferedBytes(ep.tx, buf, ep.cfg.cellSize);
      var n := Min(accept, offered);
      && mid == Dropped(ep.tx, n, buf)
      && AdvancedTo(mid, n, [], r.tx, ep.cfg.cellSize)
      && r == ep.(tx := r.tx, writeOn := n < offered)
    ensures WaitingStep(ep, accept, buf, r)
  {
    hide AdvancedTo, Dropped, OfferedBytes;
  }

  lemma WaitingSent(ep: Endpoint, accept: nat, buf: seq<byte>, r: Endpoint)
    requires TxOk(ep) && !ep.d.state.Active? && |buf| == Waiting(ep)
    requires ep.tx.droppable ==> ep.tx.queue != [] && |buf| >= ep.cfg.cellSize
    requires BufferFrom(buf, ep.tx.queue, ep.tx.progress, ep.cfg.cellSize)
    requires WaitingStep(ep, accept, buf, r)
    ensures r == Send(ep, accept)
  {
    hide EncodeAll, SenderInv, AllWellFormed, AdvancedTo, Advance;
    var size, kept := ep.cfg.cellSize, Drop(ep.tx, true);
    var n := Min(accept, Offered(ep));
    DropKeeps(ep.tx, true, size);
    if ep.tx.droppable {
      BufferDrop(buf, ep.tx.queue, ep.tx.progress, size);
      BufferTake(buf[..|buf| - size], kept.queue, kept.progress, n, size);
      assert buf[..|buf| - size][..n] == buf[..n];
    } else {
      BufferTake(buf, ep.tx.queue, ep.tx.progress, n, size);
    }
    WriteThenBook(kept, kept.(wire := kept.wire + buf[..n]), n, buf[..n], r.tx, size);
    AdvancedIsAdvance(kept, n, r.tx, size);
  }

  class BufloMuxChannel {
    const isClientSide: bool
    const cellSize: nat
    const cellBodySize: nat
    const peerCellSize: nat
    const tamarawL: nat

    var defense: Defense
    var writeEnabled: bool
    var timerRunning: bool

    // sending
    var spdyOutbuf: seq<byte>
    var cellOutbuf: seq<byte>
    var outputCellsDataBytesInfo: seq<nat>
    var frontCellSentProgress: nat
    var wholeDummyCellAtEndOutbuf: bool
    var numDummyCellsAvoided: nat
    var allSendByteCount: nat
    var allUsersDataSendByteCount: nat
    var dummySendCellCount: nat

    // receiving
    var cellInbuf: seq<byte>
    var spdyInbuf: seq<byte>
    var readState: ReadState
    var cellType: nat
    var cellFlags: byte
    var payloadLen: nat
    var allRecvByteCount: nat
    var allUsersDataRecvByteCount: nat
    var dummyRecvCellCount: nat

    /** How often the user has been told A_DEFENSE_SESSION_DONE. */
    var reports: nat

    // What the buffers stand for, and what went through them.
    ghost var queue: seq<Cell>
    ghost var retired: seq<Cell>
    ghost var emitted: seq<byte>
    ghost var wire: seq<byte>
    ghost var consumed: seq<byte>
    ghost var told: seq<Signal>
    ghost var defensiveCells: nat
    ghost var reportedCells: nat

    ghost function Cfg(): Config {
      Config(isClientSide, cellSize, peerCellSize, tamarawL)
    }

    ghost function Tx(): Sender
      reads `spdyOutbuf, `queue, `frontCellSentProgress, `wholeDummyCellAtEndOutbuf,
            `allSendByteCount, `allUsersDataSendByteCount, `dummySendCellCount, `numDummyCellsAvoided,
            `emitted, `retired, `wire
    {
      Sender(spdyOutbuf, queue, frontCellSentProgress, wholeDummyCellAtEndOutbuf,
             allSendByteCount, allUsersDataSendByteCount, dummySendCellCount, numDummyCellsAvoided,
             emitted, retired, wire)
    }

    ghost function Rx(): Receiver
      reads `cellInbuf, `allRecvByteCount, `allUsersDataRecvByteCount, `dummyRecvCellCount, `consumed, `told, `defensiveCells, `defensiveCells
    {
      Receiver(cellInbuf, allRecvByteCount, allUsersDataRecvByteCount, dummyRecvCellCount, consumed, told,
               defensiveCells)
    }

    ghost function Abs(): Endpoint
      reads this
    {
      Endpoint(Cfg(), defense, Tx(), Rx(), writeEnabled, timerRunning, reports, reportedCells)
    }

    /** The buffer and the deque describe the queue, `sent` bytes behind the recorded progress. */
    ghost predicate DescribesFrom(sent: nat)
      reads `cellOutbuf, `queue, `frontCellSentProgress, `outputCellsDataBytesInfo
    {
      && BufferFrom(cellOutbuf, queue, frontCellSentProgress + sent, cellSize)
      && outputCellsDataBytesInfo == Sizes(queue)
      && cellBodySize == cellSize - HEADER_SIZE
    }

    ghost predicate HeaderRead()
      reads `spdyInbuf, `readState, `cellInbuf, `cellType, `cellFlags, `payloadLen
    {
      && |cellInbuf| >= HEADER_SIZE
      && cellType == TypeNumber(cellInbuf[0])
      && cellFlags == cellInbuf[0] % 32
      && payloadLen == PayloadLength(cellInbuf)
    }

    ghost predicate ReaderOk()
      reads `spdyInbuf, `readState, `cellInbuf, `cellType, `cellFlags, `payloadLen
    {
      && spdyInbuf == []
      && (readState.ReadBody? ==> HeaderRead())
    }

    ghost predicate ReaderAtRest()
      reads `spdyInbuf, `readState, `cellInbuf, `cellType, `cellFlags, `payloadLen
    {
      && ReaderOk()
      && (readState.ReadHeader? ==> |cellInbuf| < HEADER_SIZE)
      && |cellInbuf| < peerCellSize
    }

    /** Enough for a step in the middle of an event. */
    ghost predicate Consistent()
      reads this
    {
      TxOk(Abs()) && DescribesFrom(0)
    }

    ghost predicate Valid()
      reads this
    {
      Inv(Abs()) && DescribesFrom(0) && ReaderAtRest()
    }

    constructor (isClient: bool, size: nat, peerSize: nat, L: nat)
      requires ValidConfig(Config(isClient, size, peerSize, L))
      ensures Valid()
      ensures Abs() == Initial(Config(isClient, size, peerSize, L))
    {
      isClientSide, cellSize, cellBodySize, peerCellSize, tamarawL := isClient, size, size - HEADER_SIZE, peerSize, L;
      defense, writeEnabled, timerRunning := FRESH, false, false;
      spdyOutbuf, cellOutbuf, outputCellsDataBytesInfo := [], [], [];
      frontCellSentProgress, wholeDummyCellAtEndOutbuf, numDummyCellsAvoided := 0, false, 0;
      allSendByteCount, allUsersDataSendByteCount, dummySendCellCount := 0, 0, 0;
      cellInbuf, spdyInbuf, readState := [], [], ReadHeader;
      cellType, cellFlags, payloadLen := DATA_TYPE, 0, 0;
      allRecvByteCount, allUsersDataRecvByteCount, dummyRecvCellCount := 0, 0, 0;
      reports := 0;
      queue, retired, emitted, wire, consumed, told := [], [], [], [], [], [];
      defensiveCells, reportedCells := 0, 0;
      new;
      InitialHolds(Cfg());
    }

    // ---------- small steps ----------

    method MaybeToggleWriteMonitoring(mode: ForceToggleMode)
      requires !defense.state.Active? || mode.ForceDisable?
      modifies `writeEnabled
      ensures writeEnabled == (mode.ForceEnable? || (mode.NoForce? && cellOutbuf != []))
    {
      match mode
      case ForceEnable => writeEnabled := true;
      case ForceDisable => writeEnabled := false;
      case NoForce => writeEnabled := |cellOutbuf| > 0;
    }

    /** Puts the pending flags into the type-and-flags byte of a new cell. */
    method MaybeSetCellFlags(typeNFlags: byte, ghost kind: CellType) returns (r: byte, important: bool)
      requires typeNFlags == TypeAndFlags(kind, NO_FLAGS)
      requires FlagChecks(Abs())
      modifies `defense
      ensures r == TypeAndFlags(kind, old(defense).NextFlags())
      ensures FlagsMadeIn(FlagsOf(r), old(defense))
      ensures important == old(defense).NextFlags().Important()
      ensures defense == old(defense).FlagsTaken()
    {
      hide SetFlag, TypeAndFlags, FlagsOf, FlagsMadeIn;
      FlagsRoundTrip(kind, defense.NextFlags());
      NextFlagsMade(defense);
      ghost var f := NO_FLAGS;
      r, important := typeNFlags, false;
      if defense.needStart {
        assert defense.state.Pending? || (defense.state.Active? && !defense.stopRequested);
        assert isClientSide;
        SetFlagSetsOne(kind, f, START_POSITION);
        r, f := SetFlag(r, START_POSITION), f.With(START_POSITION);
        defense := defense.(needStart := false);
        important := true;
      }
      if defense.needStop {
        SetFlagSetsOne(kind, f, STOP_POSITION);
        r, f := SetFlag(r, STOP_POSITION), f.With(STOP_POSITION);
        defense := defense.(needStop := false);
        important := true;
      }
      if defense.needAutoStopped {
        assert !isClientSide;
        SetFlagSetsOne(kind, f, AUTO_STOPPED_POSITION);
        r, f := SetFlag(r, AUTO_STOPPED_POSITION), f.With(AUTO_STOPPED_POSITION);
        defense := defense.(needAutoStopped := false);
        important := true;
      }
      if defense.needDone {
        assert !isClientSide;
        SetFlagSetsOne(kind, f, DONE_POSITION);
        r, f := SetFlag(r, DONE_POSITION), f.With(DONE_POSITION);
        defense := defense.(needDone := false);
        important := true;
      }
      if defense.state.Active? || defense.state.Pending? {
        SetFlagSetsOne(kind, f, DEFENSIVE_POSITION);
        r, f := SetFlag(r, DEFENSIVE_POSITION), f.With(DEFENSIVE_POSITION);
      }
    }

    /** Takes a droppable dummy off the end of the buffer, also when the socket has already taken
        `sent` bytes that are not yet recorded. */
    method MaybeDropWholeDummyCellAtEndOutbuf(doCount: bool, ghost sent: nat) returns (dropped: bool)
      requires DescribesFrom(sent)
      requires wholeDummyCellAtEndOutbuf ==>
        |cellOutbuf| >= cellSize && queue != [] && queue[|queue| - 1].kind.Dummy?
      modifies `cellOutbuf, `outputCellsDataBytesInfo, `wholeDummyCellAtEndOutbuf, `numDummyCellsAvoided, `queue
      ensures DescribesFrom(sent)
      ensures dropped == old(wholeDummyCellAtEndOutbuf)
      ensures Tx() == Drop(old(Tx()), doCount)
    {
      hide EncodeAll;
      dropped := false;
      if wholeDummyCellAtEndOutbuf {
        BufferDrop(cellOutbuf, queue, frontCellSentProgress + sent, cellSize);
        SizesDrop(queue);
        var amntToKeep := |cellOutbuf| - cellSize;
        if amntToKeep > 0 {
          cellOutbuf := cellOutbuf[..amntToKeep];
        } else {
          cellOutbuf := [];
        }
        wholeDummyCellAtEndOutbuf := false;
        assert outputCellsDataBytesInfo != [];
        assert outputCellsDataBytesInfo[|outputCellsDataBytesInfo| - 1] == 0;
        outputCellsDataBytesInfo := outputCellsDataBytesInfo[..|outputCellsDataBytesInfo| - 1];
        queue := queue[..|queue| - 1];
        dropped := true;
        if doCount {
          numDummyCellsAvoided := numDummyCellsAvoided + 1;
        }
      }
    }

    // ---------- adding cells ----------

    /** Puts a whole cell behind the others: header, payload and, if needed, padding. */
    method EnqueueCell(typeNFlags: byte, payload: seq<byte>, ghost c: Cell)
      requires DescribesFrom(0) && WellFormed(c, cellSize)
      requires typeNFlags == TypeAndFlags(c.kind, c.flags) && payload == c.payload
      modifies `cellOutbuf, `outputCellsDataBytesInfo, `queue
      ensures DescribesFrom(0)
      ensures queue == old(queue) + [c]
    {
      hide EncodeAll;
      AddCellBytes(typeNFlags, payload, c);
      BufferAppend(old(cellOutbuf), queue, frontCellSentProgress, c, cellSize);
      SizesAppend(queue, c);
      outputCellsDataBytesInfo := outputCellsDataBytesInfo + [|payload|];
      queue := queue + [c];
    }

    method AddCellBytes(typeNFlags: byte, payload: seq<byte>, ghost c: Cell)
      requires ValidCellSize(cellSize) && cellBodySize == cellSize - HEADER_SIZE && WellFormed(c, cellSize)
      requires typeNFlags == TypeAndFlags(c.kind, c.flags) && payload == c.payload
      modifies `cellOutbuf
      ensures cellOutbuf == old(cellOutbuf) + Encode(c, cellSize)
    {
      CellPieces(cellOutbuf, c, cellSize);
      cellOutbuf := cellOutbuf + [typeNFlags];
      cellOutbuf := cellOutbuf + [HighByte(|payload|), LowByte(|payload|)];
      cellOutbuf := cellOutbuf + payload;
      if cellBodySize > |payload| {
        cellOutbuf := cellOutbuf + Padding(cellBodySize - |payload|);
      } else {
        assert cellOutbuf + Padding(0) == cellOutbuf;
      }
    }

    /** Puts the first n bytes of the SPDY output behind the queue. */
    method WriteDataCell(n: nat)
      requires DescribesFrom(0) && FlagChecks(Abs())
      requires 0 < n <= |spdyOutbuf| && HEADER_SIZE + n <= cellSize
      modifies `cellOutbuf, `outputCellsDataBytesInfo, `queue, `spdyOutbuf, `defense
      ensures DescribesFrom(0)
      ensures spdyOutbuf == old(spdyOutbuf)[n..]
      ensures queue == old(queue) + [Cell(Data, old(defense).NextFlags(), old(spdyOutbuf)[..n])]
      ensures defense == old(defense).FlagsTaken()
    {
      hide EncodeAll;
      ghost var c := Cell(Data, defense.NextFlags(), spdyOutbuf[..n]);
      var typeNFlags, _ := MaybeSetCellFlags(TypeBits(Data), Data);
      EnqueueCell(typeNFlags, spdyOutbuf[..n], c);
      spdyOutbuf := spdyOutbuf[n..];
    }

    /** Replaces a droppable dummy by a data cell, or puts the data cell behind the queue. */
    method DropAndWrite(n: nat)
      requires DescribesFrom(0) && FlagChecks(Abs())
      requires 0 < n <= |spdyOutbuf| && HEADER_SIZE + n <= cellSize
      requires wholeDummyCellAtEndOutbuf ==>
        |cellOutbuf| >= cellSize && queue != [] && queue[|queue| - 1].kind.Dummy?
      modifies `cellOutbuf, `outputCellsDataBytesInfo, `wholeDummyCellAtEndOutbuf, `numDummyCellsAvoided,
               `queue, `spdyOutbuf, `defense
      ensures DescribesFrom(0)
      ensures Tx() == Drop(old(Tx()), true).(
        spdyOut := old(spdyOutbuf)[n..],
        queue := Drop(old(Tx()), true).queue + [Cell(Data, old(defense).NextFlags(), old(spdyOutbuf)[..n])])
      ensures defense == old(defense).FlagsTaken()
    {
      hide EncodeAll, AllWellFormed, WellFormed, BufferFrom, Sizes;
      var _ := MaybeDropWholeDummyCellAtEndOutbuf(true, 0);
      assert !wholeDummyCellAtEndOutbuf;
      WriteDataCell(n);
    }

    method CountAndWrite(n: nat)
      requires DescribesFrom(0) && FlagChecks(Abs())
      requires 0 < n <= |spdyOutbuf| && HEADER_SIZE + n <= cellSize
      requires wholeDummyCellAtEndOutbuf ==>
        |cellOutbuf| >= cellSize && queue != [] && queue[|queue| - 1].kind.Dummy?
      requires defense.state.Pending? ==> defense.numDataCellsAdded == 0
      modifies `cellOutbuf, `outputCellsDataBytesInfo, `wholeDummyCellAtEndOutbuf, `numDummyCellsAvoided,
               `queue, `spdyOutbuf, `defense
      ensures DescribesFrom(0)
      ensures DataCellStep(old(Abs()), n, Abs())
    {
      hide EncodeAll, Rx, Cfg, BufferFrom, DataCellStep, Sizes, DescribesFrom, FlagChecks;
      ghost var before := Abs();
      DropAndWrite(n);
      if defense.state.Pending? {
        defense := defense.(numDataCellsAdded := defense.numDataCellsAdded + 1);
        assert defense.numDataCellsAdded == 1;
      }
      WrittenIsStep(before, n, Abs());
    }

    method MaybeAddOneDataCellToOutbuf() returns (added: bool)
      requires Consistent() && FlagChecks(Abs())
      requires defense.state.Pending? && spdyOutbuf != [] ==> defense.numDataCellsAdded == 0
      modifies `cellOutbuf, `outputCellsDataBytesInfo, `wholeDummyCellAtEndOutbuf, `numDummyCellsAvoided,
               `queue, `spdyOutbuf, `defense
      ensures Consistent()
      ensures added == (old(spdyOutbuf) != [])
      ensures |spdyOutbuf| == if old(|spdyOutbuf|) < cellSize - 3 then 0 else old(|spdyOutbuf|) - (cellSize - 3)
      ensures Abs() == AddDataCell(old(Abs()))
    {
      hide EncodeAll, SenderInv, AddDataCell, Drop, DataCellStep, Sizes, BufferFrom;
      var n := if |spdyOutbuf| < cellBodySize then |spdyOutbuf| else cellBodySize;
      if n == 0 {
        NothingToAdd(Abs());
        return false;
      }
      WaitingBytes();
      ghost var before := Abs();
      NewDataCell(before);
      CountAndWrite(n);
      DataCellAdded(before, n, Abs());
      return true;
    }

    /** The buffer is as long as the queue says; with a droppable dummy it holds a whole cell. */
    lemma WaitingBytes()
      requires Consistent()
      ensures |cellOutbuf| == Waiting(Abs())
      ensures |cellOutbuf| > 0 <==> queue != []
      ensures wholeDummyCellAtEndOutbuf ==>
        |cellOutbuf| >= cellSize && queue != [] && queue[|queue| - 1].kind.Dummy?
    {
      BufferLength(cellOutbuf, queue, frontCellSentProgress, cellSize);
      OutLenNatural(Tx(), cellSize);
      DropKeeps(Tx(), true, cellSize);
    }

    method WriteDummyCell()
      requires DescribesFrom(0) && FlagChecks(Abs()) && !wholeDummyCellAtEndOutbuf
      modifies `cellOutbuf, `outputCellsDataBytesInfo, `wholeDummyCellAtEndOutbuf, `queue, `defense
      ensures DescribesFrom(0)
      ensures queue == old(queue) + [Cell(Dummy, old(defense).NextFlags(), [])]
      ensures wholeDummyCellAtEndOutbuf == !old(defense).NextFlags().Important()
      ensures defense == old(defense).FlagsTaken()
    {
      hide EncodeAll;
      ghost var c := Cell(Dummy, defense.NextFlags(), []);
      var typeNFlags, important := MaybeSetCellFlags(TypeBits(Dummy), Dummy);
      EnqueueCell(typeNFlags, [], c);
      wholeDummyCellAtEndOutbuf := !important;
    }

    method AddOneDummyCellToOutbuf()
      requires Consistent() && FlagChecks(Abs()) && !wholeDummyCellAtEndOutbuf
      modifies `cellOutbuf, `outputCellsDataBytesInfo, `wholeDummyCellAtEndOutbuf, `queue, `defense
      ensures Consistent()
      ensures Abs() == AddDummyCell(old(Abs()))
      ensures defense == old(defense).FlagsTaken()
    {
      hide EncodeAll, SenderInv;
      ghost var before := Abs();
      WriteDummyCell();
      DummyCellAdded(before, Abs());
    }

    method EnsureAWholeDummyCellAtEndOutbuf()
      requires Consistent() && FlagChecks(Abs()) && defense.state.Active?
      requires wholeDummyCellAtEndOutbuf || |cellOutbuf| < cellSize
      modifies `cellOutbuf, `outputCellsDataBytesInfo, `wholeDummyCellAtEndOutbuf, `queue, `defense
      ensures Consistent()
      ensures old(wholeDummyCellAtEndOutbuf) ==> Abs() == old(Abs())
      ensures !old(wholeDummyCellAtEndOutbuf) ==> Abs() == AddDummyCell(old(Abs()))
    {
      hide EncodeAll, SenderInv;
      if wholeDummyCellAtEndOutbuf {
        return;
      }
      assert |cellOutbuf| < cellSize;
      AddOneDummyCellToOutbuf();
    }

    method MaybeFlushDataToCellOutbuf() returns (numAdded: nat)
      requires Consistent() && FlagChecks(Abs()) && defense.state.Inactive?
      modifies `cellOutbuf, `outputCellsDataBytesInfo, `wholeDummyCellAtEndOutbuf, `numDummyCellsAvoided,
               `queue, `spdyOutbuf, `defense
      ensures Consistent()
      ensures Abs() == Flush(old(Abs()))
      ensures numAdded > 0 <==> old(spdyOutbuf) != []
      ensures |outputCellsDataBytesInfo| == old(|outputCellsDataBytesInfo|) + numAdded
        - if numAdded > 0 && old(wholeDummyCellAtEndOutbuf) then 1 else 0
    {
      hide EncodeAll, SenderInv;
      numAdded := 0;
      while |spdyOutbuf| > 0
        invariant Consistent() && FlagChecks(Abs()) && defense.state.Inactive?
        invariant Flush(Abs()) == Flush(old(Abs()))
        invariant numAdded == 0 ==> Abs() == old(Abs())
        invariant numAdded > 0 ==> !wholeDummyCellAtEndOutbuf && old(spdyOutbuf) != []
        invariant |queue| == old(|queue|) + numAdded - if numAdded > 0 && old(wholeDummyCellAtEndOutbuf) then 1 else 0
        decreases |spdyOutbuf|
      {
        AddDataCellCount(Abs());
        var rv := MaybeAddOneDataCellToOutbuf();
        assert rv;
        numAdded := numAdded + 1;
      }
    }

    method FlushAndWake()
      requires Consistent() && FlagChecks(Abs()) && defense.state.Inactive?
      modifies `cellOutbuf, `outputCellsDataBytesInfo, `wholeDummyCellAtEndOutbuf, `numDummyCellsAvoided,
               `queue, `spdyOutbuf, `defense, `writeEnabled
      ensures Consistent()
      ensures
        var r := Flush(old(Abs()));
        Abs() == if r.tx.queue != [] then r.(writeOn := true) else r
    {
      hide EncodeAll, SenderInv;
      var _ := MaybeFlushDataToCellOutbuf();
      WaitingBytes();
      if |cellOutbuf| > 0 {
        writeEnabled := true;
      }
    }

    /** The first write of a session waits for exactly one data cell. */
    method AddOneAndWake()
      requires Consistent() && FlagChecks(Abs()) && defense.state.Pending?
      requires spdyOutbuf != [] && defense.numDataCellsAdded == 0
      modifies `cellOutbuf, `outputCellsDataBytesInfo, `wholeDummyCellAtEndOutbuf, `numDummyCellsAvoided,
               `queue, `spdyOutbuf, `defense, `writeEnabled
      ensures Consistent()
      ensures Abs() == AddDataCell(old(Abs())).(writeOn := true)
    {
      hide EncodeAll, SenderInv, Sizes, BufferFrom;
      var added := MaybeAddOneDataCellToOutbuf();
      assert added;
      MaybeToggleWriteMonitoring(ForceEnable);
    }

    /** Lets SPDY write its output, here `data`, and turns it into cells as the state demands. */
    method PumpSpdySend(data: seq<byte>)
      requires Consistent() && (!defense.state.Active? ==> FlagChecks(Abs()))
      requires defense.state.Pending? ==> spdyOutbuf + data != [] && defense.numDataCellsAdded == 0
      modifies `cellOutbuf, `outputCellsDataBytesInfo, `wholeDummyCellAtEndOutbuf, `numDummyCellsAvoided,
               `queue, `spdyOutbuf, `defense, `writeEnabled, `emitted
      ensures Consistent()
      ensures Abs() == Pump(old(Abs()), data)
    {
      hide EncodeAll, SenderInv, AddDataCell, Flush, Sizes, BufferFrom;
      ProduceKeeps(Tx(), data, cellSize);
      spdyOutbuf := spdyOutbuf + data;
      emitted := emitted + data;
      match defense.state
      case Inactive =>
        FlushAndWake();
      case Pending =>
        AddOneAndWake();
      case Active =>
    }

    // ---------- writing ----------

    /** The socket takes at most `accept` of the first `howMuch` bytes; -1 means it took none. */
    method EvbufferWriteAtmost(howMuch: nat, accept: nat) returns (num: int)
      requires DescribesFrom(0) && 0 < howMuch <= |cellOutbuf|
      modifies `cellOutbuf, `wire
      ensures num == if Min(accept, howMuch) == 0 then -1 else Min(accept, howMuch)
      ensures cellOutbuf == old(cellOutbuf)[Min(accept, howMuch)..]
      ensures DescribesFrom(Min(accept, howMuch))
      ensures wire == old(wire) + old(cellOutbuf)[..Min(accept, howMuch)]
    {
      hide EncodeAll;
      var n := Min(accept, howMuch);
      BufferTake(cellOutbuf, queue, frontCellSentProgress, n, cellSize);
      wire := wire + cellOutbuf[..n];
      cellOutbuf := cellOutbuf[n..];
      num := if n == 0 then -1 else n;
    }

    /** Takes the front cell out of the deque, `more` bytes before the end of what the socket took. */
    method RetireFrontCell(ghost more: nat)
      requires frontCellSentProgress == cellSize && queue != [] && DescribesFrom(more)
      modifies `frontCellSentProgress, `outputCellsDataBytesInfo, `allUsersDataSendByteCount, `dummySendCellCount, `queue
      ensures DescribesFrom(more)
      ensures frontCellSentProgress == 0 && queue == old(queue)[1..]
      ensures allUsersDataSendByteCount == old(allUsersDataSendByteCount) + |old(queue)[0].payload|
      ensures dummySendCellCount == old(dummySendCellCount) + (if old(queue)[0].kind.Dummy? then 1 else 0)
    {
      hide EncodeAll;
      SizesPop(queue);
      BufferPop(cellOutbuf, queue, frontCellSentProgress + more, cellSize);
      assert WellFormed(queue[0], cellSize);
      var numDataBytesInFrontCell := outputCellsDataBytesInfo[0];
      if numDataBytesInFrontCell > 0 {
        allUsersDataSendByteCount := allUsersDataSendByteCount + numDataBytesInFrontCell;
      } else {
        dummySendCellCount := dummySendCellCount + 1;
      }
      frontCellSentProgress := 0;
      outputCellsDataBytesInfo := outputCellsDataBytesInfo[1..];
      queue := queue[1..];
    }

    /** Books n more bytes on the front cells: the cells they complete leave the deque and are counted.
        The loop arrives at quotient and remainder of the division by the cell size. */
    method UpdateOutputCellProgress(n: int)
      requires n > 0 && DescribesFrom(n) && frontCellSentProgress < cellSize
      modifies `frontCellSentProgress, `outputCellsDataBytesInfo, `allUsersDataSendByteCount, `dummySendCellCount,
               `queue, `retired
      ensures DescribesFrom(0)
      ensures
        var k := Whole(old(frontCellSentProgress) + n, cellSize);
        && k <= |old(queue)|
        && frontCellSentProgress == Rest(old(frontCellSentProgress) + n, cellSize)
        && queue == old(queue)[k..]
        && retired == old(retired) + old(queue)[..k]
        && allUsersDataSendByteCount == old(allUsersDataSendByteCount) + |Payloads(old(queue)[..k])|
        && dummySendCellCount == old(dummySendCellCount) + Dummies(old(queue)[..k])
    {
      hide EncodeAll, BufferFrom;
      var numWritten := n;
      ghost var k: nat, q := 0, queue;
      while numWritten > 0
        invariant 0 <= numWritten && frontCellSentProgress < cellSize
        invariant k <= |q| && queue == q[k..] && retired == old(retired)
        invariant DescribesFrom(numWritten)
        invariant Span(k, cellSize) + frontCellSentProgress + numWritten == old(frontCellSentProgress) + n
        invariant allUsersDataSendByteCount == old(allUsersDataSendByteCount) + |Payloads(q[..k])|
        invariant dummySendCellCount == old(dummySendCellCount) + Dummies(q[..k])
        decreases numWritten
      {
        var newProgress := if frontCellSentProgress + numWritten < cellSize then frontCellSentProgress + numWritten else cellSize;
        assert newProgress > frontCellSentProgress;
        var sentNow := newProgress - frontCellSentProgress;
        numWritten := numWritten - sentNow;
        frontCellSentProgress := newProgress;
        if frontCellSentProgress == cellSize {
          BufferLength(cellOutbuf, queue, frontCellSentProgress + numWritten, cellSize);
          TakeOneMore(q, k);
          RetireFrontCell(numWritten);
          k := k + 1;
        } else {
          assert numWritten == 0;
        }
      }
      retired := retired + q[..k];
      WholeUnique(old(frontCellSentProgress) + n, k, frontCellSentProgress, cellSize);
    }

    /** Records what the last write achieved; a write that failed changes nothing. */
    method BookWritten(numWritten: int)
      requires DescribesFrom(Taken(numWritten)) && frontCellSentProgress < cellSize
      modifies `allSendByteCount, `frontCellSentProgress, `outputCellsDataBytesInfo, `allUsersDataSendByteCount,
               `dummySendCellCount, `queue, `retired
      ensures DescribesFrom(0)
      ensures AdvancedTo(old(Tx()), Taken(numWritten), [], Tx(), cellSize)
    {
      hide EncodeAll, Sizes, BufferFrom, AllWellFormed, Payloads, Dummies, Whole, Rest;
      if numWritten > 0 {
        allSendByteCount := allSendByteCount + numWritten;
        UpdateOutputCellProgress(numWritten);
      } else {
        AdvanceNothing(Tx(), cellSize);
      }
    }

    method IncrementSendAttempt()
      requires defense.state.Active?
      modifies `defense
      ensures defense == old(defense).(numWriteAttempts := old(defense).numWriteAttempts + 1)
    {
      defense := defense.(numWriteAttempts := defense.numWriteAttempts + 1);
    }

    /** During a session exactly one cell's worth of bytes is offered. */
    method OfferOneCell(accept: nat) returns (numWritten: int)
      requires DescribesFrom(0) && defense.state.Active? && 0 < cellSize <= |cellOutbuf|
      modifies `cellOutbuf, `wire, `defense, `wholeDummyCellAtEndOutbuf
      ensures Taken(numWritten) == Min(accept, cellSize)
      ensures DescribesFrom(Taken(numWritten))
      ensures Tx() == old(Tx()).(
        wire := old(wire) + old(cellOutbuf)[..Min(accept, cellSize)],
        droppable := old(wholeDummyCellAtEndOutbuf) && old(|cellOutbuf|) - Min(accept, cellSize) >= cellSize)
      ensures defense == old(defense).(numWriteAttempts := old(defense).numWriteAttempts + 1)
    {
      hide EncodeAll, BufferFrom;
      numWritten := EvbufferWriteAtmost(cellSize, accept);
      assert |cellOutbuf| == old(|cellOutbuf|) - Min(accept, cellSize);
      IncrementSendAttempt();
      if |cellOutbuf| < cellSize {
        wholeDummyCellAtEndOutbuf := false;
      }
    }

    method OfferAndBook(accept: nat)
      requires DescribesFrom(0) && defense.state.Active? && frontCellSentProgress < cellSize <= |cellOutbuf|
      modifies `cellOutbuf, `wire, `defense, `wholeDummyCellAtEndOutbuf, `allSendByteCount, `frontCellSentProgress,
               `outputCellsDataBytesInfo, `allUsersDataSendByteCount, `dummySendCellCount, `queue, `retired
      ensures DescribesFrom(0)
      ensures OneCellStep(old(Abs()), accept, old(cellOutbuf), Abs())
    {
      hide EncodeAll, Sizes, AdvancedTo, BufferFrom, AllWellFormed, Rx;
      var numWritten := OfferOneCell(accept);
      BookWritten(numWritten);
    }

    method SendOneCell(accept: nat)
      requires Consistent() && CanSend(Abs()) && defense.state.Active?
      modifies `cellOutbuf, `wire, `defense, `wholeDummyCellAtEndOutbuf, `allSendByteCount, `frontCellSentProgress,
               `outputCellsDataBytesInfo, `allUsersDataSendByteCount, `dummySendCellCount, `queue, `retired
      ensures Consistent()
      ensures Abs() == Send(old(Abs()), accept)
    {
      hide EncodeAll, Sizes, SenderInv, Send, BufferFrom, OneCellStep;
      ghost var before, buf := Abs(), cellOutbuf;
      WaitingBytes();
      SmallProgress(before.tx, cellSize);
      OfferAndBook(accept);
      OneCellSent(before, accept, buf, Abs());
    }

    /** Outside a session everything but a droppable dummy is offered. */
    method OfferWaiting(accept: nat) returns (numWritten: int)
      requires DescribesFrom(0) && !defense.state.Active? && 0 < cellSize
      requires wholeDummyCellAtEndOutbuf ==> |cellOutbuf| >= cellSize
      requires |cellOutbuf| > 0
      modifies `cellOutbuf, `wire, `writeEnabled
      ensures
        var offered := old(|cellOutbuf|) - if wholeDummyCellAtEndOutbuf then cellSize else 0;
        var n := Min(accept, offered);
        && Taken(numWritten) == n
        && |cellOutbuf| == old(|cellOutbuf|) - n
        && DescribesFrom(n)
        && Tx() == old(Tx()).(wire := old(wire) + old(cellOutbuf)[..n])
        && writeEnabled == (n < offered)
    {
      hide EncodeAll, Sizes, BufferFrom, AllWellFormed;
      var amntToWrite := |cellOutbuf|;
      if wholeDummyCellAtEndOutbuf {
        amntToWrite := |cellOutbuf| - cellSize;
      }
      numWritten := 0;
      if amntToWrite > 0 {
        numWritten := EvbufferWriteAtmost(amntToWrite, accept);
        MaybeToggleWriteMonitoring(
          if numWritten == amntToWrite && wholeDummyCellAtEndOutbuf then ForceDisable else NoForce);
      } else {
        assert wholeDummyCellAtEndOutbuf;
        assert cellOutbuf[..0] == [] && wire + [] == wire;
        MaybeToggleWriteMonitoring(ForceDisable);
      }
    }

    method OfferAndDrop(accept: nat) returns (numWritten: int)
      requires DescribesFrom(0) && !defense.state.Active? && 0 < cellSize
      requires wholeDummyCellAtEndOutbuf ==>
        |cellOutbuf| >= cellSize && queue != [] && queue[|queue| - 1].kind.Dummy?
      requires |cellOutbuf| > 0
      modifies `cellOutbuf, `wire, `writeEnabled, `outputCellsDataBytesInfo, `wholeDummyCellAtEndOutbuf,
               `numDummyCellsAvoided, `queue
      ensures
        var offered := OfferedBytes(old(Tx()), old(cellOutbuf), cellSize);
        var n := Min(accept, offered);
        && Taken(numWritten) == n
        && DescribesFrom(n)
        && Tx() == Dropped(old(Tx()), n, old(cellOutbuf))
        && writeEnabled == (n < offered)
    {
      hide EncodeAll, Sizes, BufferFrom, AllWellFormed;
      numWritten := OfferWaiting(accept);
      var _ := MaybeDropWholeDummyCellAtEndOutbuf(true, Taken(numWritten));
      assert !wholeDummyCellAtEndOutbuf;
    }

    method OfferDropAndBook(accept: nat)
      requires DescribesFrom(0) && !defense.state.Active? && frontCellSentProgress < cellSize
      requires wholeDummyCellAtEndOutbuf ==>
        |cellOutbuf| >= cellSize && queue != [] && queue[|queue| - 1].kind.Dummy?
      requires |cellOutbuf| > 0
      modifies `cellOutbuf, `wire, `writeEnabled, `outputCellsDataBytesInfo, `wholeDummyCellAtEndOutbuf,
               `numDummyCellsAvoided, `queue, `allSendByteCount, `frontCellSentProgress,
               `allUsersDataSendByteCount, `dummySendCellCount, `retired
      ensures DescribesFrom(0)
      ensures WaitingStep(old(Abs()), accept, old(cellOutbuf), Abs())
    {
      hide EncodeAll, Sizes, AdvancedTo, BufferFrom, AllWellFormed, Dropped, OfferedBytes, Rx, WaitingStep, Min;
      ghost var before, buf := Abs(), cellOutbuf;
      var numWritten := OfferAndDrop(accept);
      ghost var mid := Tx();
      BookWritten(numWritten);
      BookedIsStep(before, accept, buf, mid, Abs());
    }

    /** `_send_cell_outbuf`. It never adds a cell. */
    method SendCellOutbuf(accept: nat)
      requires Consistent() && CanSend(Abs()) && |cellOutbuf| > 0
      modifies `cellOutbuf, `wire, `defense, `writeEnabled, `outputCellsDataBytesInfo, `wholeDummyCellAtEndOutbuf,
               `numDummyCellsAvoided, `queue, `allSendByteCount, `frontCellSentProgress,
               `allUsersDataSendByteCount, `dummySendCellCount, `retired
      ensures Consistent()
      ensures Abs() == Send(old(Abs()), accept)
    {
      hide EncodeAll, Sizes, SenderInv, Send, BufferFrom, WaitingStep;
      ghost var before, buf := Abs(), cellOutbuf;
      if defense.state.Active? {
        SendOneCell(accept);
      } else {
        WaitingBytes();
        SmallProgress(before.tx, cellSize);
        OfferDropAndBook(accept);
        WaitingSent(before, accept, buf, Abs());
      }
    }

    // ---------- sessions ----------

    method StartDefenseSession()
      requires defense.state.Inactive?
      modifies `defense, `timerRunning, `writeEnabled
      ensures Abs() == StartSession(old(Abs()))
    {
      hide Tx;
      timerRunning := true;
      defense := defense.(state := Active);
      defense := defense.(doneDefendingRecv := false);
      MaybeToggleWriteMonitoring(ForceDisable);
      assert Tx() == old(Tx()) && Rx() == old(Rx());
    }

    method SetAutoStartDefenseSessionOnNextSend()
      requires Valid() && MayArm(Abs())
      modifies `defense
      ensures Valid()
      ensures Abs() == Arm(old(Abs()))
    {
      ArmKeeps(Abs());
      assert isClientSide;
      assert spdyOutbuf == [];
      WaitingBytes();
      assert |cellOutbuf| == 0;
      defense := defense.(state := Pending);
      assert !defense.needStart;
      defense := defense.(needStart := true);
    }

    method StopDefenseSession()
      requires defense.state.Active? ==> !defense.stopRequested
      modifies `defense
      ensures Abs() == RequestStop(old(Abs()))
    {
      if !defense.state.Active? {
        defense := defense.Reset();
        return;
      }
      assert !defense.stopRequested;
      defense := defense.(stopRequested := true, needStart := false);
      if isClientSide {
        defense := defense.(needStop := true);
      }
    }

    method CheckNotifyADefenseSessionDone()
      modifies `defense, `reports, `reportedCells
      ensures Abs() == Notify(old(Abs()))
    {
      if defense.state.Inactive? && defense.doneDefendingRecv {
        defense := defense.(numCellsRecv := 0);
        defense := defense.(savedNumWriteAttempts := 0);
        reports := reports + 1;
        reportedCells := defensiveCells;
      }
    }

    method DropUncounted()
      requires Consistent()
      modifies `cellOutbuf, `outputCellsDataBytesInfo, `wholeDummyCellAtEndOutbuf, `numDummyCellsAvoided, `queue
      ensures Consistent() && !wholeDummyCellAtEndOutbuf
      ensures Abs() == old(Abs()).(tx := Drop(old(Tx()), false))
    {
      hide EncodeAll, SenderInv, Sizes, BufferFrom, Drop;
      WaitingBytes();
      DropKeeps(Tx(), false, cellSize);
      var _ := MaybeDropWholeDummyCellAtEndOutbuf(false, 0);
    }

    /** Sends the pending control flags in a dummy cell of their own. */
    method SendFlagsAlone()
      requires Consistent() && FlagChecks(Abs()) && defense.state.Inactive?
      modifies `cellOutbuf, `outputCellsDataBytesInfo, `wholeDummyCellAtEndOutbuf, `numDummyCellsAvoided,
               `queue, `defense, `writeEnabled
      ensures Consistent()
      ensures
        var kept := old(Abs()).(tx := Drop(old(Tx()), false));
        && TxOk(kept) && !kept.tx.droppable
        && Abs() == AddDummyCell(kept).(writeOn := true)
        && defense == old(defense).FlagsTaken()
    {
      hide EncodeAll, SenderInv, Sizes, BufferFrom, Drop, AddDummyCell;
      DropUncounted();
      assert !wholeDummyCellAtEndOutbuf;
      AddOneDummyCellToOutbuf();
      MaybeToggleWriteMonitoring(ForceEnable);
    }

    /** Flushes at the end of a session; a flag that found no data cell gets a dummy cell of its own. */
    method FlushWithControlFlags(data: seq<byte>)
      requires Consistent() && FlagChecks(Abs()) && defense.state.Inactive?
      modifies `cellOutbuf, `outputCellsDataBytesInfo, `wholeDummyCellAtEndOutbuf, `numDummyCellsAvoided,
               `queue, `spdyOutbuf, `defense, `writeEnabled, `emitted
      ensures Consistent()
      ensures Abs() == FlushControl(old(Abs()), data)
      ensures !defense.NextFlags().Important()
    {
      hide EncodeAll, SenderInv, Sizes, BufferFrom, Pump, Drop, AddDummyCell;
      ghost var before := Abs();
      PumpSpdySend(data);
      FlagsAfterPump(before, data);
      if defense.needStop || defense.needDone || defense.needAutoStopped {
        SendFlagsAlone();
      }
    }

    // ---------- timer and socket events ----------

    /** Resets the session but for a STOP that is still owed; the server now owes a DONE. */
    method BeginFinishing()
      modifies `defense, `timerRunning
      ensures Abs() == Finishing(old(Abs()))
    {
      defense := defense.(savedNumWriteAttempts := defense.numWriteAttempts);
      timerRunning := false;
      var savedBool := defense.needStop;
      defense := defense.Reset();
      defense := defense.(needStop := savedBool);
      if !isClientSide {
        defense := defense.(needDone := true);
      }
      assert Tx() == old(Tx()) && Rx() == old(Rx());
    }

    /** The terminal tick of a session that was asked to stop. */
    method FinishSession(data: seq<byte>)
      requires Consistent() && defense.state.Active? && FlagChecks(Finishing(Abs()))
      modifies `cellOutbuf, `outputCellsDataBytesInfo, `wholeDummyCellAtEndOutbuf, `numDummyCellsAvoided,
               `queue, `spdyOutbuf, `defense, `writeEnabled, `emitted, `timerRunning, `reports, `reportedCells
      ensures Consistent()
      ensures Abs() == Notify(FlushControl(Finishing(old(Abs())), data))
      ensures !defense.needStop && !defense.needDone
    {
      hide EncodeAll, SenderInv, Sizes, BufferFrom, FlushControl;
      BeginFinishing();
      FlushWithControlFlags(data);
      assert !defense.needStop;
      assert !defense.needDone;
      CheckNotifyADefenseSessionDone();
    }

    /** The server's time limit. */
    method AutoStopSession(data: seq<byte>)
      requires Consistent() && defense.state.Active? && !isClientSide
      modifies `cellOutbuf, `outputCellsDataBytesInfo, `wholeDummyCellAtEndOutbuf, `numDummyCellsAvoided,
               `queue, `spdyOutbuf, `defense, `writeEnabled, `emitted, `timerRunning
      ensures Consistent()
      ensures Abs() == FlushControl(AutoStopping(old(Abs())), data)
      ensures !defense.needAutoStopped
    {
      hide EncodeAll, SenderInv, Sizes, BufferFrom, FlushControl;
      defense := defense.(savedNumWriteAttempts := defense.numWriteAttempts);
      timerRunning := false;
      defense := defense.Reset();
      defense := defense.(needAutoStopped := true);
      assert Tx() == old(Tx());
      FlushWithControlFlags(data);
    }

    /** Makes sure that there is a cell to offer. */
    method RefillCellOutbuf()
      requires Consistent() && FlagChecks(Abs()) && defense.state.Active?
      modifies `cellOutbuf, `outputCellsDataBytesInfo, `wholeDummyCellAtEndOutbuf, `numDummyCellsAvoided,
               `queue, `spdyOutbuf, `defense
      ensures Consistent()
      ensures Abs() == Refill(old(Abs()))
    {
      hide EncodeAll, SenderInv, Sizes, BufferFrom, AddDataCell, AddDummyCell;
      WaitingBytes();
      if |cellOutbuf| >= cellSize {
        CountAvoided();
        return;
      }
      ShortNotDroppable(Abs());
      var added := MaybeAddOneDataCellToOutbuf();
      if !added {
        NothingToAdd(old(Abs()));
        WaitingBytes();
        EnsureAWholeDummyCellAtEndOutbuf();
      }
    }

    method CountAvoided()
      requires Consistent()
      modifies `numDummyCellsAvoided
      ensures Consistent()
      ensures Abs() == if spdyOutbuf == [] then old(Abs()).(tx := old(Tx()).(avoided := old(Tx()).avoided + 1)) else old(Abs())
    {
      hide EncodeAll, Sizes, BufferFrom;
      if |spdyOutbuf| == 0 {
        numDummyCellsAvoided := numDummyCellsAvoided + 1;
      }
    }

    /** A tick in the middle of a session. */
    method OngoingTick(accept: nat)
      requires Consistent() && FlagChecks(Abs()) && defense.state.Active?
      modifies `cellOutbuf, `wire, `defense, `writeEnabled, `outputCellsDataBytesInfo, `wholeDummyCellAtEndOutbuf,
               `numDummyCellsAvoided, `queue, `allSendByteCount, `frontCellSentProgress,
               `allUsersDataSendByteCount, `dummySendCellCount, `retired, `spdyOutbuf
      ensures Consistent()
      ensures Abs() == Send(Refill(old(Abs())), accept)
    {
      hide EncodeAll, SenderInv, Sizes, BufferFrom, Refill, Send;
      ghost var before := Abs();
      RefillCellOutbuf();
      WaitingBytes();
      RefillState(before);
      assert |cellOutbuf| >= cellSize;
      SendCellOutbuf(accept);
    }

    /** `_buflo_timer_fired` once its checks are known to hold. */
    method OnTimer(timeUp: bool, data: seq<byte>, accept: nat)
      requires Consistent() && MayTick(Abs(), timeUp)
      requires FlagChecks(Finishing(Abs())) || !defense.IsDoneDefendingSend(tamarawL)
      requires FlagChecks(Abs())
      modifies `cellOutbuf, `wire, `defense, `writeEnabled, `outputCellsDataBytesInfo, `wholeDummyCellAtEndOutbuf,
               `numDummyCellsAvoided, `queue, `allSendByteCount, `frontCellSentProgress,
               `allUsersDataSendByteCount, `dummySendCellCount, `retired, `spdyOutbuf, `emitted, `timerRunning, `reports, `reportedCells
      ensures Consistent()
      ensures Abs() == Tick(old(Abs()), timeUp, data, accept)
    {
      hide EncodeAll, SenderInv, Sizes, BufferFrom, FlushControl, Refill, Send, Finishing, AutoStopping, Notify;
      assert defense.state.Active?;
      if defense.IsDoneDefendingSend(tamarawL) {
        FinishSession(data);
      } else if timeUp {
        assert !isClientSide;
        AutoStopSession(data);
      } else {
        OngoingTick(accept);
      }
    }

    method BufloTimerFired(timeUp: bool, data: seq<byte>, accept: nat)
      requires Valid() && MayTick(Abs(), timeUp)
      modifies this
      ensures Valid()
      ensures Abs() == Tick(old(Abs()), timeUp, data, accept)
    {
      hide EncodeAll, SenderInv, Sizes, BufferFrom, Tick, Inv, Tx, Rx, ReaderAtRest;
      TickKeeps(Abs(), timeUp, data, accept);
      TickReady(Abs(), timeUp);
      OnTimer(timeUp, data, accept);
    }

    /** `_on_socket_writecb` once its checks are known to hold. */
    method OnWritable(accept: nat)
      requires Consistent() && |cellOutbuf| > 0 && !defense.state.Active?
      requires defense.state.Pending? ==> |cellOutbuf| == cellSize == Waiting(Abs())
      modifies `cellOutbuf, `wire, `defense, `writeEnabled, `outputCellsDataBytesInfo, `wholeDummyCellAtEndOutbuf,
               `numDummyCellsAvoided, `queue, `allSendByteCount, `frontCellSentProgress,
               `allUsersDataSendByteCount, `dummySendCellCount, `retired, `timerRunning
      ensures Consistent()
      ensures Abs() == Writable(old(Abs()), accept)
    {
      hide EncodeAll, SenderInv, Sizes, BufferFrom, Send;
      assert !defense.state.Active?;
      if defense.state.Pending? {
        assert |cellOutbuf| == cellSize;
        BecomeActive();
      }
      SendCellOutbuf(accept);
    }

    method BecomeActive()
      requires defense.state.Pending?
      modifies `defense, `timerRunning, `writeEnabled
      ensures Abs() == StartSession(old(Abs()))
    {
      defense := defense.(state := Inactive);
      StartDefenseSession();
    }

    method OnSocketWritecb(accept: nat)
      requires Valid() && MayWrite(Abs())
      modifies this
      ensures Valid()
      ensures Abs() == Writable(old(Abs()), accept)
    {
      hide EncodeAll, SenderInv, Sizes, BufferFrom, Writable, Inv, Rx, ReaderAtRest;
      WritableKeeps(Abs(), accept);
      WriteReady(Abs());
      WaitingBytes();
      OnWritable(accept);
    }

    /** SPDY has something to write, from a user of one of its streams. */
    method OnSpdyOutput(data: seq<byte>)
      requires Valid() && MayPump(Abs(), data)
      modifies this
      ensures Valid()
      ensures Abs() == Pump(old(Abs()), data)
    {
      hide EncodeAll, SenderInv, Sizes, BufferFrom, Pump, Inv, Rx, ReaderAtRest;
      PumpKeeps(Abs(), data);
      PumpReady(Abs(), data);
      PumpSpdySend(data);
    }

    /** The user of a client asks to stop. */
    method UserStops()
      requires Valid() && isClientSide && MayStop(Abs())
      modifies `defense
      ensures Valid()
      ensures Abs() == RequestStop(old(Abs()))
    {
      hide EncodeAll, SenderInv, Sizes, BufferFrom, RequestStop, Inv, Tx, Rx, ReaderAtRest;
      RequestStopKeeps(Abs());
      StopDefenseSession();
    }

    // ---------- reading ----------

    /** Hands everything in the SPDY input buffer to SPDY. */
    method PumpSpdyRecv()
      modifies `spdyInbuf, `consumed
      ensures spdyInbuf == [] && consumed == old(consumed) + old(spdyInbuf)
    {
      consumed := consumed + spdyInbuf;
      spdyInbuf := [];
    }

    method HandleAutoStopped()
      requires isClientSide
      requires defense.state.Active? && !defense.stopRequested ==> !defense.needStart
      modifies `defense
      ensures Abs() == OnAutoStopped(old(Abs()))
    {
      if defense.state.Active? && !defense.stopRequested {
        assert !defense.needStart;
        defense := defense.(needStart := true);
      }
    }

    /** The flags of a received cell, all but DONE. */
    method HandleCellFlags(f: Flags)
      requires Acceptable(Abs(), Cell(Dummy, f, []))
      modifies `defense, `timerRunning, `writeEnabled
      ensures Abs() == OnControl(old(Abs()), f)
    {
      hide Tx, Rx, StartSession, RequestStop, OnAutoStopped;
      if f.autoStopped {
        assert isClientSide;
        HandleAutoStopped();
      }
      assert !(f.start && f.stop);
      if f.start {
        assert !isClientSide;
        StartDefenseSession();
      }
      if f.stop {
        assert !isClientSide;
        StopDefenseSession();
      }
      if f.defensive {
        defense := defense.(numCellsRecv := defense.numCellsRecv + 1);
      }
    }

    method ReceiveContent(payload: seq<byte>, kind: nat, ghost c: Cell)
      requires spdyInbuf == [] && payload == c.payload
      requires kind == if c.kind.Data? then DATA_TYPE else DUMMY_TYPE
      modifies `spdyInbuf, `consumed, `told, `defensiveCells, `allUsersDataRecvByteCount, `dummyRecvCellCount
      ensures spdyInbuf == []
      ensures Rx() == Receives(old(Rx()), c)
    {
      hide Carried;
      told := told + Carried(c.flags);
      defensiveCells := defensiveCells + if c.flags.defensive then 1 else 0;
      if kind == DATA_TYPE {
        spdyInbuf := spdyInbuf + payload;
        allUsersDataRecvByteCount := allUsersDataRecvByteCount + |payload|;
        PumpSpdyRecv();
      } else {
        assert kind == DUMMY_TYPE;
        dummyRecvCellCount := dummyRecvCellCount + 1;
      }
    }

    method HandleCellContent(payload: seq<byte>, kind: nat, ghost c: Cell)
      requires spdyInbuf == [] && payload == c.payload
      requires kind == if c.kind.Data? then DATA_TYPE else DUMMY_TYPE
      modifies `spdyInbuf, `consumed, `told, `defensiveCells, `allUsersDataRecvByteCount, `dummyRecvCellCount
      ensures spdyInbuf == []
      ensures Abs() == OnContent(old(Abs()), c)
    {
      hide Tx, Rx, Receives;
      ReceiveContent(payload, kind, c);
    }

    method HandleDone()
      modifies `defense, `reports, `reportedCells
      ensures Abs() == Notify(old(Abs()).(d := old(defense).(doneDefendingRecv := true)))
    {
      hide Notify, Tx, Rx;
      defense := defense.(doneDefendingRecv := true);
      CheckNotifyADefenseSessionDone();
    }

    /** Handles the whole cell at the front of the input buffer and removes it. */
    method HandleInputCell(ghost c: Cell)
      requires ReaderOk() && readState.ReadBody? && ValidCellSize(peerCellSize)
      requires |cellInbuf| >= peerCellSize && Decode(cellInbuf[..peerCellSize]) == Good(c)
      requires Acceptable(Abs(), c)
      modifies `defense, `timerRunning, `writeEnabled, `reports, `reportedCells, `spdyInbuf, `consumed, `told, `defensiveCells, `cellInbuf,
               `allUsersDataRecvByteCount, `dummyRecvCellCount
      ensures spdyInbuf == [] && cellInbuf == old(cellInbuf)[peerCellSize..]
      ensures Abs() == AfterCell(old(Abs()), c)
    {
      DecodedFields(cellInbuf, peerCellSize, c);
      AcceptedFlags(Abs(), c);
      assert payloadLen <= peerCellSize;
      FlagsMasked(cellInbuf[0]);
      if cellFlags != 0 {
        HandleCellFlags(FlagsOf(cellFlags));
      } else {
        NoControl(Abs());
      }
      HandleCellContent(cellInbuf[HEADER_SIZE..HEADER_SIZE + payloadLen], cellType, c);
      if TestFlag(cellFlags, DONE_POSITION) {
        assert isClientSide;
        HandleDone();
      }
      cellInbuf := cellInbuf[peerCellSize..];
    }

    method BufferInput(bytes: seq<byte>)
      requires ReaderAtRest()
      modifies `cellInbuf, `allRecvByteCount
      ensures ReaderOk()
      ensures Abs() == Buffered(old(Abs()), bytes)
    {
      cellInbuf := cellInbuf + bytes;
      allRecvByteCount := allRecvByteCount + |bytes|;
    }

    method LookAtHeader()
      requires ReaderOk() && readState.ReadHeader? && |cellInbuf| >= HEADER_SIZE
      modifies `readState, `cellType, `cellFlags, `payloadLen
      ensures ReaderOk() && readState.ReadBody?
    {
      cellType := TypeNumber(cellInbuf[0]);
      cellFlags := cellInbuf[0] % 32;
      payloadLen := PayloadLength(cellInbuf);
      readState := ReadBody;
    }

    lemma InputIs()
      ensures Abs().rx.inbuf == cellInbuf && Abs().cfg.peerCellSize == peerCellSize
    {
    }

    method HandleAndForget(ghost c: Cell)
      requires ReaderOk() && readState.ReadBody? && ValidCellSize(peerCellSize)
      requires |cellInbuf| >= peerCellSize && Decode(cellInbuf[..peerCellSize]) == Good(c)
      requires Acceptable(Abs(), c)
      modifies `defense, `timerRunning, `writeEnabled, `reports, `reportedCells, `spdyInbuf, `consumed, `told, `defensiveCells, `cellInbuf,
               `allUsersDataRecvByteCount, `dummyRecvCellCount, `readState, `cellType, `cellFlags, `payloadLen
      ensures ReaderOk() && readState.ReadHeader? && cellInbuf == old(cellInbuf)[peerCellSize..]
      ensures Abs() == AfterCell(old(Abs()), c)
    {
      hide AfterCell, Decode, Acceptable;
      HandleInputCell(c);
      readState, payloadLen, cellType, cellFlags := ReadHeader, 0, DATA_TYPE, 0;
    }

    method TakeCell()
      requires ReaderOk() && readState.ReadBody? && ValidCellSize(peerCellSize)
      requires Consumable(Abs()) && |cellInbuf| >= peerCellSize
      modifies `defense, `timerRunning, `writeEnabled, `reports, `reportedCells, `spdyInbuf, `consumed, `told, `defensiveCells, `cellInbuf,
               `allUsersDataRecvByteCount, `dummyRecvCellCount, `readState, `cellType, `cellFlags, `payloadLen
      ensures ReaderOk() && readState.ReadHeader?
      ensures |cellInbuf| == old(|cellInbuf|) - peerCellSize
      ensures Consumable(Abs()) && ReadCells(Abs()) == old(ReadCells(Abs()))
    {
      InputIs();
      ghost var c := ReadOneCell(Abs());
      HandleAndForget(c);
    }

    /** `_read_cells`: the header of a cell is looked at as soon as it is there, the cell is handled
        when it is complete. */
    method ReadInputCells()
      requires ReaderOk() && ValidCellSize(peerCellSize) && Consumable(Abs())
      modifies `defense, `timerRunning, `writeEnabled, `reports, `reportedCells, `spdyInbuf, `consumed, `told, `defensiveCells, `cellInbuf,
               `allUsersDataRecvByteCount, `dummyRecvCellCount, `readState, `cellType, `cellFlags, `payloadLen
      ensures ReaderAtRest()
      ensures Abs() == ReadCells(old(Abs()))
    {
      hide AfterCell, Consumable, ReadCells, Tx, Acceptable, Decode;
      var keepConsuming := true;
      while keepConsuming
        invariant ReaderOk() && Consumable(Abs())
        invariant ReadCells(Abs()) == ReadCells(old(Abs()))
        invariant !keepConsuming ==> ReaderAtRest()
        decreases |cellInbuf|, if readState.ReadHeader? then 1 else 0, keepConsuming
      {
        match readState
        case ReadHeader =>
          if |cellInbuf| >= HEADER_SIZE {
            LookAtHeader();
          } else {
            keepConsuming := false;
          }
        case ReadBody =>
          if |cellInbuf| >= peerCellSize {
            TakeCell();
          } else {
            keepConsuming := false;
          }
      }
      NothingToRead(Abs());
    }

    /** `_on_socket_readcb`: the socket delivers some bytes. */
    method OnSocketReadcb(bytes: seq<byte>)
      requires Valid() && Consumable(Buffered(Abs(), bytes))
      modifies `defense, `timerRunning, `writeEnabled, `reports, `reportedCells, `spdyInbuf, `consumed, `told, `defensiveCells, `cellInbuf,
               `allUsersDataRecvByteCount, `dummyRecvCellCount, `readState, `cellType, `cellFlags, `payloadLen,
               `allRecvByteCount
      ensures Valid()
      ensures Abs() == ReadCells(Buffered(old(Abs()), bytes))
    {
      hide EncodeAll, SenderInv, Sizes, BufferFrom, Inv, ReadCells, Consumable, Tx;
      ReceiverIrrelevant(Abs(), Buffered(Abs(), bytes).rx);
      ReadCellsKeeps(Buffered(Abs(), bytes));
      BufferInput(bytes);
      PeerReady(old(Abs()));
      ReadInputCells();
    }
  }
}
