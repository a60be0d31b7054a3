/** What holds of one end at rest, and that every event keeps it. */
module EndpointInv {
  import opened Cells
  import opened SendQueue
  import opened Endpoint

  /** Which flags an end may still owe, and to whom they may be owed. */
  predicate RoleInv(ep: Endpoint) {
    && (ep.cfg.isClient ==> !ep.d.needDone && !ep.d.needAutoStopped)
    && (!ep.cfg.isClient ==> !ep.d.needStart && !ep.d.needStop)
    && !(ep.d.needStart && ep.d.needStop)
    && !(ep.d.needDone && ep.d.needAutoStopped)
  }

  /** No cell carries two control flags; only the client starts and stops, only the server reports. */
  predicate CellRole(c: Cell, isClient: bool) {
    && (isClient ==> !c.flags.done && !c.flags.autoStopped)
    && (!isClient ==> !c.flags.start && !c.flags.stop)
    && !(c.flags.start && c.flags.stop)
    && !(c.flags.done && c.flags.autoStopped)
  }

  predicate CellsInv(ep: Endpoint) {
    && (forall i :: 0 <= i < |ep.tx.queue| ==> CellRole(ep.tx.queue[i], ep.cfg.isClient))
    && (forall i :: 0 <= i < |ep.tx.retired| ==> CellRole(ep.tx.retired[i], ep.cfg.isClient))
  }

  predicate InactiveInv(ep: Endpoint) {
    && ep.d.numWriteAttempts == 0 && ep.d.numDataCellsAdded == 0
    && !ep.d.stopRequested && !ep.d.needStart && !ep.d.needStop
    && ep.tx.spdyOut == []
  }

  /** Waiting for the first write of a session: nothing is queued, or exactly one whole
      data cell, which carries the START flag. */
  predicate PendingInv(ep: Endpoint) {
    && ep.cfg.isClient && ep.d.doneDefendingRecv
    && ep.d.numWriteAttempts == 0 && !ep.d.stopRequested && !ep.d.needStop
    && ep.d.numDataCellsAdded <= 1
    && (ep.d.numDataCellsAdded == 0 ==> ep.d.needStart && ep.tx.queue == [] && ep.tx.spdyOut == [])
    && (ep.d.numDataCellsAdded == 1 ==>
          && !ep.d.needStart && |ep.tx.queue| == 1 && ep.tx.progress == 0 && !ep.tx.droppable
          && ep.tx.queue[0].flags.start)
  }

  predicate ActiveInv(ep: Endpoint) {
    && !(ep.d.needStart && ep.d.stopRequested)
    && (ep.d.needStop ==> ep.d.stopRequested)
    && (!ep.cfg.isClient ==> !ep.d.doneDefendingRecv)
  }

  predicate DefenseInv(ep: Endpoint) {
    && RoleInv(ep)
    && !ep.d.needDone && !ep.d.needAutoStopped
    && (ep.d.state.Inactive? ==> InactiveInv(ep))
    && (ep.d.state.Pending? ==> PendingInv(ep))
    && (ep.d.state.Active? ==> ActiveInv(ep))
  }

  /** A defended session writes on its timer only; otherwise the end asks to be woken for writing
      exactly when it has something to write. */
  predicate WakeInv(ep: Endpoint)
    requires ValidConfig(ep.cfg)
  {
    if ep.d.state.Active? then ep.timerOn && !ep.writeOn
    else !ep.timerOn && (ep.writeOn <==> Waiting(ep) > 0)
  }

  predicate Inv(ep: Endpoint) {
    && TxOk(ep)
    && CellsInv(ep)
    && DefenseInv(ep)
    && WakeInv(ep)
  }

  lemma InvParts(ep: Endpoint)
    requires Inv(ep)
    ensures TxOk(ep)
  {
  }

  lemma InitialHolds(cfg: Config)
    requires ValidConfig(cfg)
    ensures Inv(Initial(cfg))
  {
    EmptyHolds(cfg.cellSize);
  }

  // ---------- adding cells ----------

  lemma AddDataCellCells(ep: Endpoint)
    requires TxOk(ep) && CellsInv(ep) && RoleInv(ep)
    ensures CellsInv(AddDataCell(ep))
  {
  }

  lemma AddDataCellLength(ep: Endpoint)
    requires TxOk(ep) && ep.tx.spdyOut != []
    ensures Waiting(AddDataCell(ep)) == Waiting(ep) + if ep.tx.droppable then 0 else ep.cfg.cellSize
    ensures !AddDataCell(ep).tx.droppable
  {
    DropKeeps(ep.tx, true, ep.cfg.cellSize);
    PushDataKeeps(Drop(ep.tx, true), ep.d.NextFlags(), ep.cfg.cellSize);
  }

  /** What adding a data cell does to everything but the queue's contents. */
  lemma AddDataCellEffect(ep: Endpoint)
    requires TxOk(ep) && CellsInv(ep) && RoleInv(ep) && ep.tx.spdyOut != []
    ensures
      var r := AddDataCell(ep);
      && CellsInv(r) && RoleInv(r)
      && !r.tx.droppable
      && r.d.state == ep.d.state
      && !r.d.NextFlags().Important()
      && r == ep.(tx := r.tx, d := r.d)
      && (!ep.d.state.Pending? ==> r.d == ep.d.FlagsTaken())
      && Waiting(r) == Waiting(ep) + if ep.tx.droppable then 0 else ep.cfg.cellSize
  {
    AddDataCellCells(ep);
    AddDataCellLength(ep);
  }

  lemma AddDummyCellEffect(ep: Endpoint)
    requires TxOk(ep) && CellsInv(ep) && RoleInv(ep) && !ep.tx.droppable
    ensures
      var r := AddDummyCell(ep);
      && CellsInv(r) && RoleInv(r)
      && r == ep.(tx := r.tx, d := ep.d.FlagsTaken())
      && r.tx.spdyOut == ep.tx.spdyOut
      && Waiting(r) == Waiting(ep) + ep.cfg.cellSize
  {
    PushDummyKeeps(ep.tx, ep.d.NextFlags(), ep.cfg.cellSize);
  }

  lemma {:induction false} FlushEffect(ep: Endpoint)
    requires TxOk(ep) && CellsInv(ep) && RoleInv(ep) && !ep.d.state.Pending?
    ensures
      var r := Flush(ep);
      && CellsInv(r) && RoleInv(r)
      && r == ep.(tx := r.tx, d := r.d)
      && (if ep.tx.spdyOut == [] then r == ep else r.d == ep.d.FlagsTaken() && !r.tx.droppable)
    decreases |ep.tx.spdyOut|
  {
    if ep.tx.spdyOut != [] {
      AddDataCellEffect(ep);
      FlushEffect(AddDataCell(ep));
    }
  }

  lemma PumpInactiveEffect(ep: Endpoint, data: seq<byte>)
    requires TxOk(ep) && CellsInv(ep) && RoleInv(ep) && ep.d.state.Inactive?
    ensures
      var r := Pump(ep, data);
      && CellsInv(r) && RoleInv(r)
      && r == ep.(tx := r.tx, d := r.d, writeOn := r.writeOn)
      && r.tx.spdyOut == []
      && (r.d == ep.d || r.d == ep.d.FlagsTaken())
      && (r.writeOn <==> ep.writeOn || r.tx.queue != [])
  {
    hide SenderInv;
    ProduceKeeps(ep.tx, data, ep.cfg.cellSize);
    FlushEffect(ep.(tx := Produce(ep.tx, data)));
  }

  lemma FlushControlEffect(ep: Endpoint, data: seq<byte>)
    requires TxOk(ep) && CellsInv(ep) && RoleInv(ep) && ep.d.state.Inactive?
    requires !ep.writeOn
    ensures
      var r := FlushControl(ep, data);
      && CellsInv(r)
      && r == ep.(tx := r.tx, d := ep.d.FlagsTaken(), writeOn := r.writeOn)
      && r.tx.spdyOut == []
      && (r.writeOn <==> Waiting(r) > 0)
  {
    hide EncodeAll, AllWellFormed, Pump, WireInv, StreamInv, CountInv, AddDummyCell;
    PumpInactiveEffect(ep, data);
    var p := Pump(ep, data);
    OutLenNatural(p.tx, p.cfg.cellSize);
    if p.d.NextFlags().Important() {
      DropKeeps(p.tx, false, p.cfg.cellSize);
      AddDummyCellEffect(p.(tx := Drop(p.tx, false)));
    }
  }

  // ---------- every event keeps the invariant ----------

  /** While pending, SPDY must produce something in the first pump and must not be pumped again. */
  predicate MayPump(ep: Endpoint, data: seq<byte>) {
    ep.d.state.Pending? ==> ep.d.numDataCellsAdded == 0 && data != []
  }

  lemma PumpKeeps(ep: Endpoint, data: seq<byte>)
    requires Inv(ep) && MayPump(ep, data)
    ensures Inv(Pump(ep, data))
  {
    match ep.d.state
    case Inactive =>
      PumpInactiveEffect(ep, data);
      OutLenNatural(ep.tx, ep.cfg.cellSize);
      OutLenNatural(Pump(ep, data).tx, ep.cfg.cellSize);
      if ep.tx.queue != [] {
        PumpInactiveMonotone(ep, data);
      }
    case Pending => PumpPendingKeeps(ep, data);
    case Active => ProduceKeeps(ep.tx, data, ep.cfg.cellSize);
  }

  lemma {:induction false} FlushNonempty(ep: Endpoint)
    requires TxOk(ep) && ep.tx.queue != []
    ensures Flush(ep).tx.queue != []
    decreases |ep.tx.spdyOut|
  {
    if ep.tx.spdyOut != [] {
      FlushNonempty(AddDataCell(ep));
    }
  }

  lemma PumpInactiveMonotone(ep: Endpoint, data: seq<byte>)
    requires TxOk(ep) && ep.d.state.Inactive? && ep.tx.queue != []
    ensures Pump(ep, data).tx.queue != []
  {
    ProduceKeeps(ep.tx, data, ep.cfg.cellSize);
    FlushNonempty(ep.(tx := Produce(ep.tx, data)));
  }

  lemma FirstDataCell(ep: Endpoint)
    requires TxOk(ep) && ep.tx.queue == [] && ep.tx.spdyOut != []
    ensures
      var r := AddDataCell(ep);
      && |r.tx.queue| == 1 && r.tx.queue[0].flags == ep.d.NextFlags()
      && r.tx.progress == 0 && !r.tx.droppable
      && Waiting(ep) == 0 && Waiting(r) == ep.cfg.cellSize
  {
    hide EncodeAll;
    assert Span(1, ep.cfg.cellSize) == ep.cfg.cellSize;
  }

  lemma PumpPendingKeeps(ep: Endpoint, data: seq<byte>)
    requires Inv(ep) && MayPump(ep, data) && ep.d.state.Pending?
    ensures Inv(Pump(ep, data))
    ensures Waiting(Pump(ep, data)) == ep.cfg.cellSize
  {
    hide SenderInv, EncodeAll;
    ProduceKeeps(ep.tx, data, ep.cfg.cellSize);
    var full := ep.(tx := Produce(ep.tx, data));
    AddDataCellEffect(full);
    FirstDataCell(full);
  }

  lemma AdvanceCells(ep: Endpoint, tx: Sender, n: nat)
    requires TxOk(ep) && CellsInv(ep) && QueueInv(tx, ep.cfg.cellSize) && n <= OutLen(tx, ep.cfg.cellSize)
    requires tx.queue <= ep.tx.queue && tx.retired == ep.tx.retired
    ensures CellsInv(ep.(tx := Advance(tx, n, ep.cfg.cellSize)))
  {
    hide EncodeAll;
    AdvanceSplits(tx, n, ep.cfg.cellSize);
    var k := Whole(tx.progress + n, ep.cfg.cellSize);
    assert forall i :: 0 <= i < |tx.queue| ==> tx.queue[i] == ep.tx.queue[i];
  }

  lemma SendActiveEffect(ep: Endpoint, accept: nat)
    requires CanSend(ep) && CellsInv(ep) && ep.d.state.Active?
    ensures
      var r := Send(ep, accept);
      var n := Min(accept, ep.cfg.cellSize);
      && CellsInv(r)
      && r == ep.(tx := r.tx, d := ep.d.(numWriteAttempts := ep.d.numWriteAttempts + 1))
      && Waiting(r) == Waiting(ep) - n
      && r.tx.spdyOut == ep.tx.spdyOut
      && r.tx.allSent == ep.tx.allSent + n
  {
    var n := Min(accept, ep.cfg.cellSize);
    var tx := if Waiting(ep) - n < ep.cfg.cellSize then ep.tx.(droppable := false) else ep.tx;
    AdvanceLength(tx, n, ep.cfg.cellSize);
    AdvanceCells(ep, tx, n);
  }

  lemma SendInactiveEffect(ep: Endpoint, accept: nat)
    requires TxOk(ep) && CellsInv(ep) && !ep.d.state.Active?
    ensures
      var r := Send(ep, accept);
      && CellsInv(r)
      && r == ep.(tx := r.tx, writeOn := r.writeOn)
      && (r.writeOn <==> Waiting(r) > 0)
      && Offered(ep) >= 0
      && Waiting(r) == Offered(ep) - Min(accept, Offered(ep))
      && !r.tx.droppable
      && r.tx.spdyOut == ep.tx.spdyOut
      && r.tx.allSent == ep.tx.allSent + Min(accept, Offered(ep))
  {
    DropKeeps(ep.tx, true, ep.cfg.cellSize);
    var n := Min(accept, Offered(ep));
    AdvanceLength(Drop(ep.tx, true), n, ep.cfg.cellSize);
    AdvanceCells(ep, Drop(ep.tx, true), n);
  }

  lemma SendKeeps(ep: Endpoint, accept: nat)
    requires CanSend(ep) && Inv(ep) && !ep.d.state.Pending?
    ensures Inv(Send(ep, accept))
  {
    if ep.d.state.Active? {
      SendActiveEffect(ep, accept);
    } else {
      SendInactiveEffect(ep, accept);
    }
  }

  lemma StartSessionKeeps(ep: Endpoint)
    requires Inv(ep) && !ep.d.state.Active?
    requires ep.d.state.Pending? ==> ep.d.numDataCellsAdded == 1
    ensures Inv(StartSession(ep))
  {
  }

  /** `is_defense_in_progress`. */
  predicate InProgress(ep: Endpoint) {
    ep.d.state.Active? || !ep.d.doneDefendingRecv
  }

  /** The client arms between sessions, with nothing left to send. */
  predicate MayArm(ep: Endpoint) {
    && ep.cfg.isClient && ep.d.state.Inactive? && !InProgress(ep)
    && ep.tx.spdyOut == [] && Waiting(ep) == 0
  }

  lemma ArmKeeps(ep: Endpoint)
    requires Inv(ep) && MayArm(ep)
    ensures Inv(Arm(ep))
  {
    OutLenNatural(ep.tx, ep.cfg.cellSize);
  }

  predicate MayStop(ep: Endpoint) {
    && !ep.d.state.Pending?
    && (ep.d.state.Active? ==> !ep.d.stopRequested)
  }

  lemma RequestStopKeeps(ep: Endpoint)
    requires Inv(ep) && MayStop(ep)
    ensures Inv(RequestStop(ep))
    ensures ep.d.state.Inactive? ==> RequestStop(ep) == ep
  {
  }

  /** A tick may come only in a session, and on the client never after the time limit. */
  predicate MayTick(ep: Endpoint, timeUp: bool)
    requires ValidConfig(ep.cfg)
  {
    && ep.d.state.Active?
    && (ep.cfg.isClient && timeUp ==> ep.d.IsDoneDefendingSend(ep.cfg.L))
  }

  lemma RefillEffect(ep: Endpoint)
    requires TxOk(ep) && CellsInv(ep) && RoleInv(ep) && ep.d.state.Active?
    ensures
      var r := Refill(ep);
      && CellsInv(r) && RoleInv(r)
      && r == ep.(tx := r.tx, d := r.d)
      && (r.d == ep.d || r.d == ep.d.FlagsTaken())
      && Waiting(r) == Waiting(ep) + if Waiting(ep) < ep.cfg.cellSize then ep.cfg.cellSize else 0
  {
    if Waiting(ep) < ep.cfg.cellSize {
      ShortNotDroppable(ep);
      if ep.tx.spdyOut != [] {
        AddDataCellEffect(ep);
      } else {
        AddDummyCellEffect(ep);
      }
    }
  }

  lemma TickKeeps(ep: Endpoint, timeUp: bool, data: seq<byte>, accept: nat)
    requires Inv(ep) && MayTick(ep, timeUp)
    ensures Inv(Tick(ep, timeUp, data, accept))
  {
    hide SenderInv;
    if ep.d.IsDoneDefendingSend(ep.cfg.L) {
      FlushControlEffect(Finishing(ep), data);
    } else if timeUp {
      FlushControlEffect(AutoStopping(ep), data);
    } else {
      RefillEffect(ep);
      SendKeeps(Refill(ep), accept);
    }
  }

  /** The write event fires only while it is enabled. */
  predicate MayWrite(ep: Endpoint) {
    ep.writeOn
  }

  lemma WritableKeeps(ep: Endpoint, accept: nat)
    requires Inv(ep) && MayWrite(ep)
    ensures !ep.d.state.Active?
    ensures ep.d.state.Pending? ==> Waiting(ep) == ep.cfg.cellSize
    ensures Inv(Writable(ep, accept))
  {
    OutLenNatural(ep.tx, ep.cfg.cellSize);
    if ep.d.state.Pending? {
      assert Span(1, ep.cfg.cellSize) == ep.cfg.cellSize;
      StartSessionKeeps(ep);
      SendKeeps(StartSession(ep), accept);
    } else {
      SendKeeps(ep, accept);
    }
  }

  // ---------- receiving ----------

  lemma OnControlKeeps(ep: Endpoint, f: Flags)
    requires Inv(ep) && Acceptable(ep, Cell(Dummy, f, []))
    ensures Inv(OnControl(ep, f))
  {
  }

  lemma ReceiverIrrelevant(ep: Endpoint, rx: Receiver)
    requires Inv(ep)
    ensures Inv(ep.(rx := rx))
  {
  }

  lemma OnDoneKeeps(ep: Endpoint)
    requires Inv(ep) && ep.cfg.isClient
    ensures Inv(Notify(ep.(d := ep.d.(doneDefendingRecv := true))))
  {
  }

  lemma HandleCellKeeps(ep: Endpoint, c: Cell)
    requires Inv(ep) && Acceptable(ep, c)
    ensures Inv(HandleCell(ep, c))
  {
    hide EncodeAll;
    OnControlKeeps(ep, c.flags);
    var e := OnContent(OnControl(ep, c.flags), c);
    ReceiverIrrelevant(OnControl(ep, c.flags), e.rx);
    if c.flags.done {
      OnDoneKeeps(e);
    }
  }

  lemma {:induction false} ReadCellsKeeps(ep: Endpoint)
    requires Inv(ep) && Consumable(ep)
    ensures Inv(ReadCells(ep))
    decreases |ep.rx.inbuf|
  {
    if |ep.rx.inbuf| >= ep.cfg.peerCellSize {
      var c := Decode(ep.rx.inbuf[..ep.cfg.peerCellSize]).cell;
      HandleCellKeeps(ep, c);
      ReadCellsKeeps(AfterCell(ep, c));
    }
  }
}
