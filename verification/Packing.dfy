/** What goes into the cells: how full they are, which flags they carry, and when a dummy may be
    dropped again. */
module Packing {
  import opened Cells
  import opened SendQueue
  import opened Endpoint
  import opened EndpointInv
  import opened Signals
  import opened Events

  /** The flags of a cell made in this state: what is owed, and DEFENSIVE while a session is pending or
      active. */
  predicate FlagsMadeIn(f: Flags, d: Defense) {
    && (f.start <==> d.needStart) && (f.stop <==> d.needStop)
    && (f.autoStopped <==> d.needAutoStopped) && (f.done <==> d.needDone)
    && (f.defensive <==> d.state.Pending? || d.state.Active?)
  }

  /** The queue without a dummy that may be dropped. */
  function Kept(tx: Sender): seq<Cell>
    requires tx.droppable ==> tx.queue != []
  {
    if tx.droppable then tx.queue[..|tx.queue| - 1] else tx.queue
  }

  // ---------- one cell ----------

  /** A new data cell goes behind the others, in place of a droppable dummy. It takes as many of the first
      bytes of the output as there are and as fit. */
  lemma NewDataCell(ep: Endpoint)
    requires TxOk(ep) && ep.tx.spdyOut != []
    ensures
      var r := AddDataCell(ep);
      && (ep.tx.droppable ==> ep.tx.queue != [])
      && r.tx.queue != [] && r.tx.queue[..|r.tx.queue| - 1] == Kept(ep.tx) && !r.tx.droppable
      && var c := r.tx.queue[|r.tx.queue| - 1];
      && c.kind.Data? && FlagsMadeIn(c.flags, ep.d)
      && c.payload + r.tx.spdyOut == ep.tx.spdyOut
      && 0 < |c.payload| <= ep.cfg.cellSize - HEADER_SIZE
      && (|c.payload| == ep.cfg.cellSize - HEADER_SIZE || r.tx.spdyOut == [])
  {
    hide EncodeAll;
  }

  /** A new dummy cell goes behind the others, and may be dropped again exactly if it carries none of the
      flags START, STOP, AUTO_STOPPED and DONE. */
  lemma NewDummyCell(ep: Endpoint)
    requires TxOk(ep) && !ep.tx.droppable
    ensures
      var r := AddDummyCell(ep);
      && r.tx.queue != [] && r.tx.queue[..|r.tx.queue| - 1] == ep.tx.queue
      && r.tx.spdyOut == ep.tx.spdyOut
      && var c := r.tx.queue[|r.tx.queue| - 1];
      && c.kind.Dummy? && c.payload == [] && FlagsMadeIn(c.flags, ep.d)
      && (r.tx.droppable <==> !c.flags.start && !c.flags.stop && !c.flags.autoStopped && !c.flags.done)
  {
    hide EncodeAll, SenderInv;
  }

  // ---------- packing all output ----------

  /** Data cells that carry exactly these bytes: all are full but the last, and all are or are not
      defensive. */
  predicate Packed(cells: seq<Cell>, data: seq<byte>, room: nat, defensive: bool) {
    && Payloads(cells) == data
    && (forall i :: 0 <= i < |cells| ==>
          cells[i].kind.Data? && 0 < |cells[i].payload| <= room && cells[i].flags.defensive == defensive)
    && (forall i :: 0 <= i < |cells| - 1 ==> |cells[i].payload| == room)
  }

  lemma PackedNone(room: nat, defensive: bool)
    ensures Packed([], [], room, defensive)
  {
  }

  lemma PackedMore(c: Cell, rest: seq<Cell>, data: seq<byte>, room: nat, defensive: bool)
    requires Packed(rest, data, room, defensive)
    requires c.kind.Data? && 0 < |c.payload| <= room && c.flags.defensive == defensive
    requires |c.payload| == room || rest == []
    ensures Packed([c] + rest, c.payload + data, room, defensive)
  {
    PayloadsAppend([c], rest);
    assert Payloads([c]) == c.payload by { assert [c][..0] == []; }
  }

  /** What a flush adds to the queue. */
  predicate Packs(before: Sender, after: Sender, data: seq<byte>, room: nat, defensive: bool)
    requires before.droppable ==> before.queue != []
  {
    if data == [] then after.queue == before.queue
    else Kept(before) <= after.queue && Packed(after.queue[|Kept(before)|..], data, room, defensive)
  }

  lemma {:induction false} FlushPacks(ep: Endpoint)
    requires TxOk(ep)
    ensures ep.tx.droppable ==> ep.tx.queue != []
    ensures Packs(ep.tx, Flush(ep).tx, ep.tx.spdyOut, ep.cfg.cellSize - HEADER_SIZE, !ep.d.state.Inactive?)
    decreases |ep.tx.spdyOut|
  {
    hide EncodeAll, SenderInv, AddDataCell, Packed;
    SenderParts(ep.tx, ep.cfg.cellSize);
    if ep.tx.spdyOut != [] {
      var room, defensive := ep.cfg.cellSize - HEADER_SIZE, !ep.d.state.Inactive?;
      var r := AddDataCell(ep);
      NewDataCell(ep);
      AddDataCellSameSession(ep);
      FlushPacks(r);
      PackedNone(room, defensive);
      var c := r.tx.queue[|r.tx.queue| - 1];
      var rest := Flush(r).tx.queue[|r.tx.queue|..];
      PackedMore(c, rest, r.tx.spdyOut, room, defensive);
      HeadOfRest(Flush(r).tx.queue, Kept(ep.tx), c);
    }
  }

  lemma HeadOfRest(all: seq<Cell>, kept: seq<Cell>, c: Cell)
    requires kept + [c] <= all
    ensures kept <= all && all[|kept|..] == [c] + all[|kept| + 1..]
  {
  }

  // ---------- what the events put into cells ----------

  /** Outside a session a pump packs all output, and no cell it makes is defensive. */
  lemma PumpPacks(ep: Endpoint, data: seq<byte>)
    requires Inv(ep) && ep.d.state.Inactive?
    ensures ep.tx.droppable ==> ep.tx.queue != []
    ensures Packs(ep.tx, Pump(ep, data).tx, data, ep.cfg.cellSize - HEADER_SIZE, false)
  {
    hide EncodeAll, SenderInv, CellsInv, WakeInv, Flush, Packs;
    ProduceKeeps(ep.tx, data, ep.cfg.cellSize);
    assert [] + data == data;
    FlushPacks(ep.(tx := Produce(ep.tx, data)));
    SameQueuePacks(ep.tx, Produce(ep.tx, data), Pump(ep, data).tx, data, ep.cfg.cellSize - HEADER_SIZE, false);
  }

  lemma SameQueuePacks(a: Sender, b: Sender, after: Sender, data: seq<byte>, room: nat, defensive: bool)
    requires a.queue == b.queue && a.droppable == b.droppable && (b.droppable ==> b.queue != [])
    requires Packs(b, after, data, room, defensive)
    ensures Packs(a, after, data, room, defensive)
  {
  }

  /** The one cell of a pending session is a defensive data cell with the START flag, and takes as much as
      fits. */
  lemma PendingCell(ep: Endpoint, data: seq<byte>)
    requires Inv(ep) && MayPump(ep, data) && ep.d.state.Pending?
    ensures
      var r := Pump(ep, data);
      && |r.tx.queue| == 1
      && var c := r.tx.queue[0];
      && c.kind.Data? && c.flags == Flags(true, false, false, false, true)
      && c.payload + r.tx.spdyOut == data
      && (|c.payload| == ep.cfg.cellSize - HEADER_SIZE || r.tx.spdyOut == [])
  {
    hide EncodeAll, SenderInv, CellsInv, AddDataCell;
    ProduceKeeps(ep.tx, data, ep.cfg.cellSize);
    var full := ep.(tx := Produce(ep.tx, data));
    SenderParts(full.tx, full.cfg.cellSize);
    assert full.tx.spdyOut == data;
    NewDataCell(full);
    var queue := AddDataCell(full).tx.queue;
    assert queue[..|queue| - 1] == [];
  }

  /** While a session is active a pump makes no cell at all. */
  lemma ActivePumpWaits(ep: Endpoint, data: seq<byte>)
    requires TxOk(ep) && ep.d.state.Active?
    ensures Pump(ep, data).tx.queue == ep.tx.queue && Pump(ep, data).tx.spdyOut == ep.tx.spdyOut + data
  {
  }

  /** The flush that ends a session packs all output in cells that are not defensive; if there is none, the
      flag that is owed goes into a dummy that is not defensive either and that will not be dropped. */
  lemma ClosingCells(ep: Endpoint, timeUp: bool, data: seq<byte>, accept: nat)
    requires Inv(ep) && MayTick(ep, timeUp) && (ep.d.IsDoneDefendingSend(ep.cfg.L) || timeUp)
    ensures ep.tx.droppable ==> ep.tx.queue != []
    ensures
      var r := Tick(ep, timeUp, data, accept);
      var room := ep.cfg.cellSize - HEADER_SIZE;
      var graceful := ep.d.IsDoneDefendingSend(ep.cfg.L);
      var stop := graceful && ep.d.needStop;
      var done := graceful && !ep.cfg.isClient;
      var autoStopped := !graceful;
      if ep.tx.spdyOut + data != [] then
        Packs(ep.tx, r.tx, ep.tx.spdyOut + data, room, false)
      else if stop || done || autoStopped then
        r.tx.queue == Kept(ep.tx) + [Cell(Dummy, Flags(false, stop, autoStopped, done, false), [])] && !r.tx.droppable
      else r.tx.queue == ep.tx.queue
  {
    hide EncodeAll, SenderInv, CellsInv, WakeInv, FlushControl, Packs;
    if ep.d.IsDoneDefendingSend(ep.cfg.L) {
      ControlCells(Finishing(ep), data);
      SameQueuePacksIf(ep.tx, Finishing(ep).tx, FlushControl(Finishing(ep), data).tx, ep.tx.spdyOut + data,
                       ep.cfg.cellSize - HEADER_SIZE);
    } else {
      ControlCells(AutoStopping(ep), data);
      SameQueuePacksIf(ep.tx, AutoStopping(ep).tx, FlushControl(AutoStopping(ep), data).tx, ep.tx.spdyOut + data,
                       ep.cfg.cellSize - HEADER_SIZE);
    }
  }

  lemma SameQueuePacksIf(a: Sender, b: Sender, after: Sender, data: seq<byte>, room: nat)
    requires a.queue == b.queue && a.droppable == b.droppable && (b.droppable ==> b.queue != [])
    ensures Packs(b, after, data, room, false) ==> Packs(a, after, data, room, false)
  {
  }

  lemma ControlCells(ep: Endpoint, data: seq<byte>)
    requires TxOk(ep) && ep.d.state.Inactive?
    ensures ep.tx.droppable ==> ep.tx.queue != []
    ensures
      var r := FlushControl(ep, data);
      if ep.tx.spdyOut + data != [] then
        Packs(ep.tx, r.tx, ep.tx.spdyOut + data, ep.cfg.cellSize - HEADER_SIZE, false)
      else if ep.d.needStart || ep.d.needStop || ep.d.needAutoStopped || ep.d.needDone then
        && r.tx.queue == Kept(ep.tx)
             + [Cell(Dummy, Flags(ep.d.needStart, ep.d.needStop, ep.d.needAutoStopped, ep.d.needDone, false), [])]
        && !r.tx.droppable
      else r.tx.queue == ep.tx.queue
  {
    hide EncodeAll, SenderInv, Flush, Packs, AddDummyCell;
    SenderParts(ep.tx, ep.cfg.cellSize);
    ProduceKeeps(ep.tx, data, ep.cfg.cellSize);
    var full := ep.(tx := Produce(ep.tx, data));
    FlushPacks(full);
    SameQueuePacks(ep.tx, full.tx, Flush(full).tx, ep.tx.spdyOut + data, ep.cfg.cellSize - HEADER_SIZE, false);
    if ep.tx.spdyOut + data == [] {
      NothingFlushed(full);
      var p := Pump(ep, data);
      assert p.tx == full.tx && p.d == ep.d;
      if ep.d.NextFlags().Important() {
        DropKeeps(p.tx, false, ep.cfg.cellSize);
        ControlDummy(p.(tx := Drop(p.tx, false)));
      }
    } else {
      FlushTakesFlags(full);
    }
  }

  lemma ControlDummy(ep: Endpoint)
    requires TxOk(ep) && ep.d.state.Inactive? && !ep.tx.droppable && ep.d.NextFlags().Important()
    ensures AddDummyCell(ep).tx.queue == ep.tx.queue
      + [Cell(Dummy, Flags(ep.d.needStart, ep.d.needStop, ep.d.needAutoStopped, ep.d.needDone, false), [])]
    ensures !AddDummyCell(ep).tx.droppable
  {
    hide EncodeAll, SenderInv, AddDummyCell;
    NewDummyCell(ep);
    var queue := AddDummyCell(ep).tx.queue;
    assert queue == queue[..|queue| - 1] + [queue[|queue| - 1]];
  }

  lemma NothingFlushed(ep: Endpoint)
    requires TxOk(ep) && ep.tx.spdyOut == []
    ensures Flush(ep) == ep
  {
  }

  lemma {:induction false} FlushTakesFlags(ep: Endpoint)
    requires TxOk(ep) && ep.tx.spdyOut != []
    ensures !Flush(ep).d.NextFlags().Important()
    decreases |ep.tx.spdyOut|
  {
    hide EncodeAll, SenderInv;
    var r := AddDataCell(ep);
    if r.tx.spdyOut != [] {
      FlushTakesFlags(r);
    }
  }

  // ---------- dummies that may be dropped ----------

  /** A dummy that carries no control flag is only there to fill a gap. */
  predicate Filler(c: Cell) {
    c.kind.Dummy? && !c.flags.start && !c.flags.stop && !c.flags.autoStopped && !c.flags.done
  }

  /** A filler in the queue is at the end and may be dropped, or is at the front and partly sent. */
  predicate FillersInv(tx: Sender) {
    forall i :: 0 <= i < |tx.queue| && Filler(tx.queue[i]) ==>
      (i == 0 && tx.progress > 0) || (i == |tx.queue| - 1 && tx.droppable)
  }

  /** So the flag says exactly whether the last cell is a whole filler, and no other cell is one. */
  lemma DroppableExactly(tx: Sender)
    requires FillersInv(tx) && DroppableInv(tx)
    ensures tx.droppable <==>
      tx.queue != [] && Filler(tx.queue[|tx.queue| - 1]) && (|tx.queue| == 1 ==> tx.progress == 0)
    ensures forall i :: 0 <= i < |tx.queue| - 1 && Filler(tx.queue[i]) ==> i == 0 && tx.progress > 0
  {
  }

  lemma DropFillers(tx: Sender, count: bool)
    requires DroppableInv(tx) && FillersInv(tx)
    ensures FillersInv(Drop(tx, count)) && Drop(tx, count).progress == tx.progress
    ensures forall i :: 0 <= i < |Drop(tx, count).queue| && Filler(Drop(tx, count).queue[i]) ==> i == 0 && tx.progress > 0
  {
  }

  lemma AppendFillers(tx: Sender, after: Sender)
    requires after.queue != [] && after.queue[..|after.queue| - 1] == tx.queue && after.progress == tx.progress
    requires FillersInv(tx) && !tx.droppable
    requires Filler(after.queue[|after.queue| - 1]) ==> after.droppable
    ensures FillersInv(after)
  {
  }

  lemma AddDataCellFillers(ep: Endpoint)
    requires TxOk(ep) && FillersInv(ep.tx)
    ensures FillersInv(AddDataCell(ep).tx)
  {
    hide EncodeAll, SenderInv;
    SenderParts(ep.tx, ep.cfg.cellSize);
    if ep.tx.spdyOut != [] {
      DropFillers(ep.tx, true);
      AppendFillers(Drop(ep.tx, true), AddDataCell(ep).tx);
    }
  }

  lemma AddDummyCellFillers(ep: Endpoint)
    requires TxOk(ep) && FillersInv(ep.tx) && !ep.tx.droppable
    ensures FillersInv(AddDummyCell(ep).tx)
  {
    hide EncodeAll, SenderInv;
    NewDummyCell(ep);
    AppendFillers(ep.tx, AddDummyCell(ep).tx);
  }

  lemma {:induction false} FlushFillers(ep: Endpoint)
    requires TxOk(ep) && FillersInv(ep.tx)
    ensures FillersInv(Flush(ep).tx)
    decreases |ep.tx.spdyOut|
  {
    hide EncodeAll, SenderInv, AddDataCell, FillersInv;
    if ep.tx.spdyOut != [] {
      AddDataCellFillers(ep);
      FlushFillers(AddDataCell(ep));
    }
  }

  lemma PumpFillers(ep: Endpoint, data: seq<byte>)
    requires TxOk(ep) && FillersInv(ep.tx)
    ensures FillersInv(Pump(ep, data).tx)
  {
    hide EncodeAll, SenderInv, AddDataCell, Flush;
    ProduceKeeps(ep.tx, data, ep.cfg.cellSize);
    var full := ep.(tx := Produce(ep.tx, data));
    if ep.d.state.Inactive? {
      FlushFillers(full);
    } else if ep.d.state.Pending? {
      AddDataCellFillers(full);
    }
  }

  lemma FlushControlFillers(ep: Endpoint, data: seq<byte>)
    requires TxOk(ep) && FillersInv(ep.tx)
    ensures FillersInv(FlushControl(ep, data).tx)
  {
    hide EncodeAll, SenderInv, Pump, AddDummyCell, FillersInv;
    PumpFillers(ep, data);
    var p := Pump(ep, data);
    if p.d.NextFlags().Important() {
      SenderParts(p.tx, p.cfg.cellSize);
      DropFillers(p.tx, false);
      DropKeeps(p.tx, false, p.cfg.cellSize);
      AddDummyCellFillers(p.(tx := Drop(p.tx, false)));
    }
  }

  /** Sending keeps a filler at the end whole and marked as long as a whole cell is left. */
  lemma AdvanceFillers(tx: Sender, n: nat, cellSize: nat)
    requires QueueInv(tx, cellSize) && n <= OutLen(tx, cellSize)
    requires forall i :: 0 <= i < |tx.queue| && Filler(tx.queue[i]) ==>
      (i == 0 && tx.progress > 0) || (i == |tx.queue| - 1 && (tx.droppable || OutLen(tx, cellSize) - n < cellSize))
    ensures FillersInv(Advance(tx, n, cellSize))
  {
    hide EncodeAll;
    AdvanceSplits(tx, n, cellSize);
    AdvanceLength(tx, n, cellSize);
    var r := Advance(tx, n, cellSize);
    var k := Whole(tx.progress + n, cellSize);
    if OutLen(tx, cellSize) - n < cellSize {
      ShortQueue(r, cellSize);
    }
    forall i | 0 <= i < |r.queue| && Filler(r.queue[i])
      ensures (i == 0 && r.progress > 0) || (i == |r.queue| - 1 && r.droppable)
    {
      assert r.queue[i] == tx.queue[k + i];
    }
  }

  /** Less than a cell's worth of bytes is at most one cell, and not a whole one. */
  lemma ShortQueue(tx: Sender, cellSize: nat)
    requires tx.progress < cellSize && OutLen(tx, cellSize) < cellSize
    ensures |tx.queue| <= 1 && (|tx.queue| == 1 ==> tx.progress > 0)
  {
    assert Span(1, cellSize) == cellSize;
    assert Span(2, cellSize) == Span(1, cellSize) + cellSize;
    if |tx.queue| > 1 {
      SpanMonotone(2, |tx.queue|, cellSize);
    }
  }

  lemma SendFillers(ep: Endpoint, accept: nat)
    requires CanSend(ep) && FillersInv(ep.tx)
    ensures FillersInv(Send(ep, accept).tx)
  {
    hide EncodeAll, SenderInv, Advance;
    SenderParts(ep.tx, ep.cfg.cellSize);
    DropKeeps(ep.tx, true, ep.cfg.cellSize);
    var n := Min(accept, Offered(ep));
    if ep.d.state.Active? {
      var tx := if Waiting(ep) - n < ep.cfg.cellSize then ep.tx.(droppable := false) else ep.tx;
      AdvanceFillers(tx, n, ep.cfg.cellSize);
    } else {
      SenderParts(Drop(ep.tx, true), ep.cfg.cellSize);
      DropFillers(ep.tx, true);
      AdvanceFillers(Drop(ep.tx, true), n, ep.cfg.cellSize);
    }
  }

  lemma RefillFillers(ep: Endpoint)
    requires TxOk(ep) && FillersInv(ep.tx)
    ensures FillersInv(Refill(ep).tx)
  {
    hide EncodeAll, SenderInv, AddDataCell, AddDummyCell;
    if Waiting(ep) < ep.cfg.cellSize {
      ShortNotDroppable(ep);
      if ep.tx.spdyOut != [] {
        AddDataCellFillers(ep);
      } else {
        AddDummyCellFillers(ep);
      }
    }
  }

  lemma ApplyFillers(ep: Endpoint, e: Event)
    requires Inv(ep) && May(ep, e) && FillersInv(ep.tx)
    ensures Checks(ep, e) && FillersInv(Apply(ep, e).tx)
  {
    hide EncodeAll, SenderInv, CellsInv, FillersInv, Pump, FlushControl, Refill, Send;
    ChecksHold(ep, e);
    match e
    case OnPump(data) => PumpFillers(ep, data);
    case OnTick(timeUp, data, accept) =>
      if ep.d.IsDoneDefendingSend(ep.cfg.L) {
        FlushControlFillers(Finishing(ep), data);
      } else if timeUp {
        FlushControlFillers(AutoStopping(ep), data);
      } else {
        RefillFillers(ep);
        SendFillers(Refill(ep), accept);
      }
    case OnWritable(accept) =>
      WritableKeeps(ep, accept);
      SendFillers(if ep.d.state.Pending? then StartSession(ep) else ep, accept);
    case OnArm =>
    case OnStop =>
  }

  // ---------- the statistic of avoided dummies ----------

  /** How many dummies an event saves: one that gives way to data or is not worth sending outside a
      session, and one that a tick need not make because a cell is waiting though there is no output. A
      dummy that gives way to a control flag is not counted. */
  function Saves(ep: Endpoint, e: Event): nat
    requires ValidConfig(ep.cfg)
  {
    match e
    case OnPump(data) => if !ep.d.state.Active? && ep.tx.droppable && ep.tx.spdyOut + data != [] then 1 else 0
    case OnTick(timeUp, data, _) =>
      if ep.d.IsDoneDefendingSend(ep.cfg.L) || timeUp then
        if ep.tx.droppable && ep.tx.spdyOut + data != [] then 1 else 0
      else
        if Waiting(ep) >= ep.cfg.cellSize && ep.tx.spdyOut == [] then 1 else 0
    case OnWritable(_) => if ep.d.state.Inactive? && ep.tx.droppable then 1 else 0
    case OnArm => 0
    case OnStop => 0
  }

  lemma AddDataCellSaves(ep: Endpoint)
    requires TxOk(ep)
    ensures AddDataCell(ep).tx.avoided == ep.tx.avoided + if ep.tx.droppable && ep.tx.spdyOut != [] then 1 else 0
    ensures ep.tx.spdyOut != [] ==> !AddDataCell(ep).tx.droppable
  {
    hide EncodeAll;
  }

  lemma {:induction false} FlushSaves(ep: Endpoint)
    requires TxOk(ep)
    ensures Flush(ep).tx.avoided == ep.tx.avoided + if ep.tx.droppable && ep.tx.spdyOut != [] then 1 else 0
    decreases |ep.tx.spdyOut|
  {
    hide EncodeAll, SenderInv, AddDataCell;
    if ep.tx.spdyOut != [] {
      AddDataCellSaves(ep);
      FlushSaves(AddDataCell(ep));
    }
  }

  lemma PumpSaves(ep: Endpoint, data: seq<byte>)
    requires TxOk(ep)
    ensures Pump(ep, data).tx.avoided
         == ep.tx.avoided + if !ep.d.state.Active? && ep.tx.droppable && ep.tx.spdyOut + data != [] then 1 else 0
  {
    hide EncodeAll, SenderInv, AddDataCell, Flush;
    ProduceKeeps(ep.tx, data, ep.cfg.cellSize);
    var full := ep.(tx := Produce(ep.tx, data));
    if ep.d.state.Inactive? {
      FlushSaves(full);
    } else if ep.d.state.Pending? {
      AddDataCellSaves(full);
    }
  }

  lemma FlushControlSaves(ep: Endpoint, data: seq<byte>)
    requires TxOk(ep) && ep.d.state.Inactive?
    ensures FlushControl(ep, data).tx.avoided
         == ep.tx.avoided + if ep.tx.droppable && ep.tx.spdyOut + data != [] then 1 else 0
  {
    hide EncodeAll, SenderInv, Pump;
    PumpSaves(ep, data);
    var p := Pump(ep, data);
    if p.d.NextFlags().Important() {
      DropKeeps(p.tx, false, p.cfg.cellSize);
    }
  }

  lemma SendSaves(ep: Endpoint, accept: nat)
    requires CanSend(ep)
    ensures Send(ep, accept).tx.avoided == ep.tx.avoided + if !ep.d.state.Active? && ep.tx.droppable then 1 else 0
  {
    hide EncodeAll, SenderInv;
    DropKeeps(ep.tx, true, ep.cfg.cellSize);
  }

  lemma RefillSaves(ep: Endpoint)
    requires TxOk(ep)
    ensures Refill(ep).tx.avoided
         == ep.tx.avoided + if Waiting(ep) >= ep.cfg.cellSize && ep.tx.spdyOut == [] then 1 else 0
  {
    hide EncodeAll, SenderInv, AddDataCell;
    if Waiting(ep) < ep.cfg.cellSize {
      ShortNotDroppable(ep);
      AddDataCellSaves(ep);
    }
  }

  /** The statistic counts exactly the dummies that events have saved. */
  lemma AvoidedExactly(ep: Endpoint, e: Event)
    requires Inv(ep) && May(ep, e)
    ensures Checks(ep, e) && Apply(ep, e).tx.avoided == ep.tx.avoided + Saves(ep, e)
  {
    hide EncodeAll, SenderInv, CellsInv, Pump, FlushControl, Refill, Send;
    ChecksHold(ep, e);
    match e
    case OnPump(data) => PumpSaves(ep, data);
    case OnTick(timeUp, data, accept) =>
      if ep.d.IsDoneDefendingSend(ep.cfg.L) {
        FlushControlSaves(Finishing(ep), data);
      } else if timeUp {
        FlushControlSaves(AutoStopping(ep), data);
      } else {
        RefillSaves(ep);
        RefillState(ep);
        SendSaves(Refill(ep), accept);
      }
    case OnWritable(accept) =>
      WritableKeeps(ep, accept);
      SendSaves(if ep.d.state.Pending? then StartSession(ep) else ep, accept);
    case OnArm =>
    case OnStop =>
  }
}
