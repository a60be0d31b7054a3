/** The control flags of the session protocol as a stream: whatever an end owes its peer is put into
    exactly one cell, in order, and no event loses, repeats or reorders it. */
module Signals {
  import opened Cells
  import opened SendQueue
  import opened Endpoint
  import opened EndpointInv

  function SignalsIn(cells: seq<Cell>): seq<Signal> {
    if cells == [] then [] else SignalsIn(cells[..|cells| - 1]) + Carried(cells[|cells| - 1].flags)
  }

  lemma SignalsOne(a: seq<Cell>, c: Cell)
    ensures SignalsIn(a + [c]) == SignalsIn(a) + Carried(c.flags)
  {
    assert (a + [c])[..|a|] == a;
  }

  lemma Associate(x: seq<Signal>, y: seq<Signal>, z: seq<Signal>)
    ensures (x + y) + z == x + (y + z)
  {
  }

  lemma {:induction false} SignalsAppend(a: seq<Cell>, b: seq<Cell>)
    ensures SignalsIn(a + b) == SignalsIn(a) + SignalsIn(b)
  {
    if b == [] {
      assert a + b == a;
    } else {
      var front, last := b[..|b| - 1], b[|b| - 1];
      SignalsAppend(a, front);
      assert b == front + [last] && a + b == (a + front) + [last];
      SignalsOne(a + front, last);
      SignalsOne(front, last);
      Associate(SignalsIn(a), SignalsIn(front), Carried(last.flags));
    }
  }

  /** The flags still waiting for a cell. */
  function Owed(d: Defense): seq<Signal> {
    Carried(d.NextFlags())
  }

  /** Everything the sending half has put into a cell. */
  function Queued(tx: Sender): seq<Signal> {
    SignalsIn(tx.retired) + SignalsIn(tx.queue)
  }

  /** Everything this end has ever had to tell its peer. */
  function Announced(ep: Endpoint): seq<Signal> {
    Queued(ep.tx) + Owed(ep.d)
  }

  // ---------- the queue ----------

  lemma DropKeepsSignals(tx: Sender, count: bool)
    requires DroppableInv(tx)
    ensures Queued(Drop(tx, count)) == Queued(tx)
  {
    if tx.droppable {
      var front, last := tx.queue[..|tx.queue| - 1], tx.queue[|tx.queue| - 1];
      assert Carried(last.flags) == [];
    }
  }

  lemma AdvanceKeepsSignals(tx: Sender, n: nat, cellSize: nat)
    requires QueueInv(tx, cellSize) && n <= OutLen(tx, cellSize)
    ensures Queued(Advance(tx, n, cellSize)) == Queued(tx)
  {
    AdvanceSplits(tx, n, cellSize);
    SignalsMove(tx.retired, tx.queue, Whole(tx.progress + n, cellSize));
  }

  lemma SignalsMove(retired: seq<Cell>, queue: seq<Cell>, k: nat)
    requires k <= |queue|
    ensures SignalsIn(retired + queue[..k]) + SignalsIn(queue[k..]) == SignalsIn(retired) + SignalsIn(queue)
  {
    assert queue == queue[..k] + queue[k..];
    SignalsAppend(queue[..k], queue[k..]);
    SignalsAppend(retired, queue[..k]);
  }

  // ---------- events ----------

  /** A new cell takes over what was owed. */
  lemma CellTakesOwed(tx: Sender, after: Sender, d: Defense, c: Cell)
    requires after.retired == tx.retired && after.queue == tx.queue + [c] && c.flags == d.NextFlags()
    ensures Queued(after) == Queued(tx) + Owed(d)
  {
    SignalsOne(tx.queue, c);
    Associate(SignalsIn(tx.retired), SignalsIn(tx.queue), Owed(d));
  }

  lemma OwedTaken(d: Defense, taken: Defense)
    requires taken.NextFlags() == d.FlagsTaken().NextFlags()
    ensures Owed(taken) == []
  {
  }

  lemma AddDataCellKeepsSignals(ep: Endpoint)
    requires TxOk(ep)
    ensures Announced(AddDataCell(ep)) == Announced(ep)
    ensures ep.tx.spdyOut != [] ==> Owed(AddDataCell(ep).d) == []
  {
    hide EncodeAll, WireInv, StreamInv;
    if ep.tx.spdyOut != [] {
      DropKeeps(ep.tx, true, ep.cfg.cellSize);
      DropKeepsSignals(ep.tx, true);
      var kept, r := Drop(ep.tx, true), AddDataCell(ep);
      CellTakesOwed(kept, r.tx, ep.d, r.tx.queue[|kept.queue|]);
      OwedTaken(ep.d, r.d);
    }
  }

  lemma AddDummyCellKeepsSignals(ep: Endpoint)
    requires TxOk(ep) && !ep.tx.droppable
    ensures Announced(AddDummyCell(ep)) == Announced(ep)
    ensures Owed(AddDummyCell(ep).d) == []
  {
    SignalsOne(ep.tx.queue, Cell(Dummy, ep.d.NextFlags(), []));
  }

  lemma {:induction false} FlushKeepsSignals(ep: Endpoint)
    requires TxOk(ep)
    ensures Announced(Flush(ep)) == Announced(ep)
    decreases |ep.tx.spdyOut|
  {
    if ep.tx.spdyOut != [] {
      AddDataCellKeepsSignals(ep);
      FlushKeepsSignals(AddDataCell(ep));
    }
  }

  lemma PumpKeepsSignals(ep: Endpoint, data: seq<byte>)
    requires TxOk(ep)
    ensures Announced(Pump(ep, data)) == Announced(ep)
  {
    ProduceKeeps(ep.tx, data, ep.cfg.cellSize);
    var full := ep.(tx := Produce(ep.tx, data));
    assert Announced(full) == Announced(ep);
    if ep.d.state.Inactive? {
      FlushKeepsSignals(full);
    } else if ep.d.state.Pending? {
      AddDataCellKeepsSignals(full);
    }
  }

  lemma SendKeepsSignals(ep: Endpoint, accept: nat)
    requires CanSend(ep)
    ensures Announced(Send(ep, accept)) == Announced(ep)
  {
    hide EncodeAll, StreamInv, CountInv, AllWellFormed;
    DropKeeps(ep.tx, true, ep.cfg.cellSize);
    var n := Min(accept, Offered(ep));
    if ep.d.state.Active? {
      var tx := if Waiting(ep) - n < ep.cfg.cellSize then ep.tx.(droppable := false) else ep.tx;
      AdvanceKeepsSignals(tx, n, ep.cfg.cellSize);
    } else {
      DropKeepsSignals(ep.tx, true);
      AdvanceKeepsSignals(Drop(ep.tx, true), n, ep.cfg.cellSize);
    }
  }

  /** After a flush that ends a session nothing is owed any more. */
  lemma FlushControlKeepsSignals(ep: Endpoint, data: seq<byte>)
    requires TxOk(ep) && ep.d.state.Inactive?
    ensures Announced(FlushControl(ep, data)) == Announced(ep)
    ensures Owed(FlushControl(ep, data).d) == []
  {
    PumpKeepsSignals(ep, data);
    var p := Pump(ep, data);
    if p.d.NextFlags().Important() {
      DropKeeps(p.tx, false, p.cfg.cellSize);
      DropKeepsSignals(p.tx, false);
      AddDummyCellKeepsSignals(p.(tx := Drop(p.tx, false)));
    }
  }

  lemma RefillKeepsSignals(ep: Endpoint)
    requires TxOk(ep)
    ensures Announced(Refill(ep)) == Announced(ep)
  {
    if Waiting(ep) < ep.cfg.cellSize {
      ShortNotDroppable(ep);
      if ep.tx.spdyOut != [] {
        AddDataCellKeepsSignals(ep);
      } else {
        AddDummyCellKeepsSignals(ep);
      }
    }
  }

  /** A tick tells the peer something new only when it ends the session: the server says how. */
  function TickSignals(ep: Endpoint, timeUp: bool): seq<Signal>
    requires ValidConfig(ep.cfg)
  {
    if ep.cfg.isClient then []
    else if ep.d.IsDoneDefendingSend(ep.cfg.L) then [Done]
    else if timeUp then [AutoStopped]
    else []
  }

  lemma FinishingSignals(ep: Endpoint)
    requires Inv(ep) && ep.d.state.Active? && ep.d.stopRequested
    ensures Announced(Finishing(ep)) == Announced(ep) + if ep.cfg.isClient then [] else [Done]
  {
  }

  lemma AutoStoppingSignals(ep: Endpoint)
    requires Inv(ep) && ep.d.state.Active? && !ep.cfg.isClient
    ensures Announced(AutoStopping(ep)) == Announced(ep) + [AutoStopped]
  {
  }

  lemma TickSignalsOnly(ep: Endpoint, timeUp: bool, data: seq<byte>, accept: nat)
    requires Inv(ep) && MayTick(ep, timeUp)
    ensures Announced(Tick(ep, timeUp, data, accept)) == Announced(ep) + TickSignals(ep, timeUp)
  {
    if ep.d.IsDoneDefendingSend(ep.cfg.L) {
      FinishingSignals(ep);
      FlushControlKeepsSignals(Finishing(ep), data);
      NotifySilent(FlushControl(Finishing(ep), data));
    } else if timeUp {
      AutoStoppingSignals(ep);
      FlushControlKeepsSignals(AutoStopping(ep), data);
    } else {
      RefillKeepsSignals(ep);
      SendKeepsSignals(Refill(ep), accept);
    }
  }

  lemma NotifySilent(ep: Endpoint)
    ensures Announced(Notify(ep)) == Announced(ep)
  {
  }

  lemma WritableKeepsSignals(ep: Endpoint, accept: nat)
    requires Inv(ep) && MayWrite(ep)
    ensures Announced(Writable(ep, accept)) == Announced(ep)
  {
    WritableKeeps(ep, accept);
    if ep.d.state.Pending? {
      assert Announced(StartSession(ep)) == Announced(ep);
      SendKeepsSignals(StartSession(ep), accept);
    } else {
      SendKeepsSignals(ep, accept);
    }
  }

  // ---------- a flag in a cell stays in its cell ----------

  /** The flags put into cells so far stay, in order; more may follow. */
  predicate Keeps(a: Endpoint, b: Endpoint) {
    Queued(a.tx) <= Queued(b.tx)
  }

  lemma AddDataCellPlaces(ep: Endpoint)
    requires TxOk(ep)
    ensures Keeps(ep, AddDataCell(ep))
  {
    hide EncodeAll, SenderInv, Queued;
    if ep.tx.spdyOut != [] {
      assert DroppableInv(ep.tx) by { SenderParts(ep.tx, ep.cfg.cellSize); }
      DropKeepsSignals(ep.tx, true);
      var kept, r := Drop(ep.tx, true), AddDataCell(ep);
      CellTakesOwed(kept, r.tx, ep.d, r.tx.queue[|kept.queue|]);
    }
  }

  lemma SenderParts(tx: Sender, cellSize: nat)
    requires SenderInv(tx, cellSize)
    ensures QueueInv(tx, cellSize) && DroppableInv(tx)
  {
  }

  lemma {:induction false} FlushPlaces(ep: Endpoint)
    requires TxOk(ep)
    ensures Keeps(ep, Flush(ep))
    decreases |ep.tx.spdyOut|
  {
    hide EncodeAll, SenderInv, Queued, AddDataCell;
    if ep.tx.spdyOut != [] {
      AddDataCellPlaces(ep);
      FlushPlaces(AddDataCell(ep));
    }
  }

  lemma PumpPlaces(ep: Endpoint, data: seq<byte>)
    requires TxOk(ep)
    ensures Keeps(ep, Pump(ep, data))
  {
    hide EncodeAll, SenderInv, SignalsIn, AddDataCell, Flush;
    ProduceKeeps(ep.tx, data, ep.cfg.cellSize);
    var full := ep.(tx := Produce(ep.tx, data));
    if ep.d.state.Inactive? {
      FlushPlaces(full);
    } else if ep.d.state.Pending? {
      AddDataCellPlaces(full);
    }
  }

  lemma AddDummyCellPlaces(ep: Endpoint)
    requires TxOk(ep) && !ep.tx.droppable
    ensures Keeps(ep, AddDummyCell(ep))
  {
    hide EncodeAll, SenderInv, Queued;
    CellTakesOwed(ep.tx, AddDummyCell(ep).tx, ep.d, Cell(Dummy, ep.d.NextFlags(), []));
  }

  lemma FlushControlPlaces(ep: Endpoint, data: seq<byte>)
    requires TxOk(ep)
    ensures Keeps(ep, FlushControl(ep, data))
  {
    hide EncodeAll, SenderInv, Queued, Pump, AddDummyCell;
    PumpPlaces(ep, data);
    var p := Pump(ep, data);
    if p.d.NextFlags().Important() {
      SenderParts(p.tx, p.cfg.cellSize);
      DropKeepsSignals(p.tx, false);
      DropKeeps(p.tx, false, p.cfg.cellSize);
      AddDummyCellPlaces(p.(tx := Drop(p.tx, false)));
      assert FlushControl(ep, data).tx == AddDummyCell(p.(tx := Drop(p.tx, false))).tx;
    }
  }

  lemma RefillPlaces(ep: Endpoint)
    requires TxOk(ep)
    ensures Keeps(ep, Refill(ep))
  {
    hide EncodeAll, SenderInv, SignalsIn, AddDataCell, AddDummyCell;
    if Waiting(ep) < ep.cfg.cellSize {
      ShortNotDroppable(ep);
      if ep.tx.spdyOut != [] {
        AddDataCellPlaces(ep);
      } else {
        AddDummyCellPlaces(ep);
      }
    }
  }

  lemma SendPlaces(ep: Endpoint, accept: nat)
    requires CanSend(ep)
    ensures Queued(Send(ep, accept).tx) == Queued(ep.tx)
  {
    hide EncodeAll, SenderInv, SignalsIn, Advance;
    SenderParts(ep.tx, ep.cfg.cellSize);
    DropKeeps(ep.tx, true, ep.cfg.cellSize);
    var n := Min(accept, Offered(ep));
    if ep.d.state.Active? {
      var tx := if Waiting(ep) - n < ep.cfg.cellSize then ep.tx.(droppable := false) else ep.tx;
      AdvanceKeepsSignals(tx, n, ep.cfg.cellSize);
    } else {
      SenderParts(Drop(ep.tx, true), ep.cfg.cellSize);
      DropKeepsSignals(ep.tx, true);
      AdvanceKeepsSignals(Drop(ep.tx, true), n, ep.cfg.cellSize);
    }
  }

  lemma TickPlaces(ep: Endpoint, timeUp: bool, data: seq<byte>, accept: nat)
    requires TxOk(ep)
    ensures Keeps(ep, Tick(ep, timeUp, data, accept))
  {
    hide EncodeAll, SenderInv, Queued, FlushControl, Refill, Send;
    if ep.d.IsDoneDefendingSend(ep.cfg.L) {
      FlushControlPlaces(Finishing(ep), data);
    } else if timeUp {
      FlushControlPlaces(AutoStopping(ep), data);
    } else {
      RefillPlaces(ep);
      SendPlaces(Refill(ep), accept);
    }
  }

  lemma WritablePlaces(ep: Endpoint, accept: nat)
    requires Inv(ep) && MayWrite(ep)
    ensures Keeps(ep, Writable(ep, accept))
  {
    hide EncodeAll, SenderInv, Queued, Send;
    WritableKeeps(ep, accept);
    SendPlaces(if ep.d.state.Pending? then StartSession(ep) else ep, accept);
  }

  // ---------- history only grows ----------

  /** Retired cells and wire bytes are final. */
  predicate Extends(a: Endpoint, b: Endpoint) {
    && a.tx.retired <= b.tx.retired
    && a.tx.wire <= b.tx.wire
    && a.cfg == b.cfg
  }

  lemma AddDataCellExtends(ep: Endpoint)
    requires TxOk(ep)
    ensures AddDataCell(ep).tx.retired == ep.tx.retired && AddDataCell(ep).tx.wire == ep.tx.wire
    ensures AddDataCell(ep).rx == ep.rx
    ensures AddDataCell(ep).tx.emitted == ep.tx.emitted
  {
  }

  lemma {:induction false} FlushExtends(ep: Endpoint)
    requires TxOk(ep)
    ensures Flush(ep).tx.retired == ep.tx.retired && Flush(ep).tx.wire == ep.tx.wire
    ensures Flush(ep).rx == ep.rx
    ensures Flush(ep).tx.emitted == ep.tx.emitted
    decreases |ep.tx.spdyOut|
  {
    if ep.tx.spdyOut != [] {
      AddDataCellExtends(ep);
      FlushExtends(AddDataCell(ep));
    }
  }

  lemma PumpExtends(ep: Endpoint, data: seq<byte>)
    requires TxOk(ep)
    ensures Pump(ep, data).tx.retired == ep.tx.retired && Pump(ep, data).tx.wire == ep.tx.wire
    ensures Pump(ep, data).rx == ep.rx
    ensures Pump(ep, data).tx.emitted == ep.tx.emitted + data
  {
    ProduceKeeps(ep.tx, data, ep.cfg.cellSize);
    var full := ep.(tx := Produce(ep.tx, data));
    if ep.d.state.Inactive? {
      FlushExtends(full);
    } else if ep.d.state.Pending? {
      AddDataCellExtends(full);
    }
  }

  lemma SendExtends(ep: Endpoint, accept: nat)
    requires CanSend(ep)
    ensures Extends(ep, Send(ep, accept))
    ensures Send(ep, accept).rx == ep.rx
    ensures Send(ep, accept).tx.emitted == ep.tx.emitted
  {
    DropKeeps(ep.tx, true, ep.cfg.cellSize);
  }

  lemma RefillExtends(ep: Endpoint)
    requires TxOk(ep)
    ensures Refill(ep).tx.retired == ep.tx.retired && Refill(ep).tx.wire == ep.tx.wire
    ensures Refill(ep).rx == ep.rx
    ensures Refill(ep).tx.emitted == ep.tx.emitted
  {
  }

  lemma FlushControlExtends(ep: Endpoint, data: seq<byte>)
    requires TxOk(ep)
    ensures FlushControl(ep, data).tx.retired == ep.tx.retired && FlushControl(ep, data).tx.wire == ep.tx.wire
    ensures FlushControl(ep, data).rx == ep.rx
    ensures FlushControl(ep, data).tx.emitted == ep.tx.emitted + data
  {
    PumpExtends(ep, data);
  }

  lemma TickExtends(ep: Endpoint, timeUp: bool, data: seq<byte>, accept: nat)
    requires TxOk(ep)
    ensures Extends(ep, Tick(ep, timeUp, data, accept))
    ensures Tick(ep, timeUp, data, accept).rx == ep.rx
  {
    if ep.d.IsDoneDefendingSend(ep.cfg.L) {
      FlushControlExtends(Finishing(ep), data);
    } else if timeUp {
      FlushControlExtends(AutoStopping(ep), data);
    } else {
      RefillExtends(ep);
      SendExtends(Refill(ep), accept);
    }
  }

  lemma WritableExtends(ep: Endpoint, accept: nat)
    requires Inv(ep) && MayWrite(ep)
    ensures Extends(ep, Writable(ep, accept))
    ensures Writable(ep, accept).rx == ep.rx
  {
    WritableKeeps(ep, accept);
    if ep.d.state.Pending? {
      SendExtends(StartSession(ep), accept);
    } else {
      SendExtends(ep, accept);
    }
  }
}
