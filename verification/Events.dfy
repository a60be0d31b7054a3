/** The events of one end: what its callers and libevent may do, what the code insists on, and the
    facts about each event that the two-party proof needs. */
module Events {
  import opened Cells
  import opened SendQueue
  import opened Endpoint
  import opened EndpointInv
  import opened Signals

  datatype Event =
    | OnPump(data: seq<byte>)
    | OnTick(timeUp: bool, output: seq<byte>, accepted: nat)
    | OnWritable(accept: nat)
    | OnArm
    | OnStop

  /** The contract of the environment: when an event may happen at all. */
  predicate May(ep: Endpoint, e: Event)
    requires ValidConfig(ep.cfg)
  {
    match e
    case OnPump(data) => MayPump(ep, data)
    case OnTick(timeUp, _, _) => MayTick(ep, timeUp)
    case OnWritable(_) => MayWrite(ep)
    case OnArm => MayArm(ep)
    case OnStop => ep.cfg.isClient && MayStop(ep)
  }

  /** The checks made while flags are put into a cell. */
  predicate FlagChecks(ep: Endpoint) {
    && (ep.d.needStart ==> ep.cfg.isClient)
    && (ep.d.needStart ==> ep.d.state.Pending? || (ep.d.state.Active? && !ep.d.stopRequested))
    && (ep.d.needAutoStopped ==> !ep.cfg.isClient)
    && (ep.d.needDone ==> !ep.cfg.isClient)
  }

  predicate PumpChecks(ep: Endpoint, data: seq<byte>) {
    && TxOk(ep)
    && (ep.d.state.Pending? ==> ep.tx.spdyOut + data != [] && ep.d.numDataCellsAdded == 0)
    && (!ep.d.state.Active? ==> FlagChecks(ep))
  }

  predicate TickChecks(ep: Endpoint, timeUp: bool, data: seq<byte>, accept: nat) {
    && TxOk(ep) && ep.d.state.Active?
    && (if ep.d.IsDoneDefendingSend(ep.cfg.L) then FlagChecks(Finishing(ep))
        else if timeUp then !ep.cfg.isClient && FlagChecks(AutoStopping(ep))
        else FlagChecks(ep) && Waiting(Refill(ep)) >= ep.cfg.cellSize)
    && (ep.d.IsDoneDefendingSend(ep.cfg.L) || timeUp ==>
          Owed(Tick(ep, timeUp, data, accept).d) == [])
  }

  predicate WriteChecks(ep: Endpoint) {
    && TxOk(ep) && !ep.d.state.Active?
    && (ep.d.state.Pending? ==> Waiting(ep) == ep.cfg.cellSize)
    && (ep.d.state.Inactive? ==> Offered(ep) > 0 || (Offered(ep) == 0 && ep.tx.droppable))
  }

  /** Everything the code itself insists on when the event happens. */
  predicate Checks(ep: Endpoint, e: Event) {
    match e
    case OnPump(data) => PumpChecks(ep, data)
    case OnTick(timeUp, data, accept) => TickChecks(ep, timeUp, data, accept)
    case OnWritable(_) => WriteChecks(ep)
    case OnArm =>
      ep.cfg.isClient && ep.d.state.Inactive? && ep.tx.spdyOut == [] && Waiting(ep) == 0 && !ep.d.needStart
    case OnStop => ep.d.state.Active? ==> !ep.d.stopRequested
  }

  function Apply(ep: Endpoint, e: Event): (r: Endpoint)
    requires Checks(ep, e)
    ensures r.cfg == ep.cfg
  {
    match e
    case OnPump(data) => Pump(ep, data)
    case OnTick(timeUp, data, accept) => Tick(ep, timeUp, data, accept)
    case OnWritable(accept) => Writable(ep, accept)
    case OnArm => Arm(ep)
    case OnStop => RequestStop(ep)
  }

  lemma TickChecksHold(ep: Endpoint, timeUp: bool, data: seq<byte>, accept: nat)
    requires Inv(ep) && MayTick(ep, timeUp)
    ensures TickChecks(ep, timeUp, data, accept)
  {
    if ep.d.IsDoneDefendingSend(ep.cfg.L) {
      FlushControlKeepsSignals(Finishing(ep), data);
      NotifySilent(FlushControl(Finishing(ep), data));
      NotifyOwes(FlushControl(Finishing(ep), data));
    } else if timeUp {
      FlushControlKeepsSignals(AutoStopping(ep), data);
    }
  }

  lemma NotifyOwes(ep: Endpoint)
    ensures Owed(Notify(ep).d) == Owed(ep.d)
  {
  }

  /** In a state that satisfies the invariant no check can fail. */
  lemma ChecksHold(ep: Endpoint, e: Event)
    requires Inv(ep) && May(ep, e)
    ensures Checks(ep, e)
  {
    match e
    case OnPump(_) =>
    case OnTick(timeUp, data, accept) => TickChecksHold(ep, timeUp, data, accept);
    case OnWritable(accept) =>
      WritableKeeps(ep, accept);
      OutLenNatural(ep.tx, ep.cfg.cellSize);
      DropKeeps(ep.tx, true, ep.cfg.cellSize);
    case OnArm =>
    case OnStop =>
  }

  /** The contract asks for no more than the checks do, but for calls that no check guards: the client
      may not arm while its peer still defends, and may not stop a session that is only pending; and
      the server's user does not stop at all. */
  lemma ContractIsTight(ep: Endpoint, e: Event)
    requires Inv(ep)
    ensures match e
      case OnPump(data) => Checks(ep, e) <==> May(ep, e)
      case OnTick(timeUp, _, _) => Checks(ep, e) <==> May(ep, e)
      case OnWritable(_) => Checks(ep, e) <==> May(ep, e)
      case OnArm => May(ep, e) <==> Checks(ep, e) && !InProgress(ep)
      case OnStop => May(ep, e) <==> Checks(ep, e) && ep.cfg.isClient && !ep.d.state.Pending?
  {
    hide SenderInv, EncodeAll, CellsInv, Tick;
    if May(ep, e) {
      ChecksHold(ep, e);
    }
    if e.OnWritable? && Checks(ep, e) {
      assert Waiting(ep) > 0;
    }
  }

  /** Why a pending session must not be stopped: the START is already in a cell and will reach the
      server, but the client has forgotten the session and thinks that none is in progress. */
  lemma StopWhilePendingForgets(ep: Endpoint)
    requires Inv(ep) && ep.d.state.Pending? && ep.d.numDataCellsAdded == 1
    ensures
      var r := RequestStop(ep);
      r.d.state.Inactive? && !InProgress(r) && Owed(r.d) == [] && Start in SignalsIn(r.tx.queue)
  {
    hide SenderInv, EncodeAll, CellsInv;
    var c := ep.tx.queue[0];
    assert ep.tx.queue == [] + [c];
    SignalsOne([], c);
    assert Start in Carried(c.flags);
  }

  lemma ApplyKeeps(ep: Endpoint, e: Event)
    requires Inv(ep) && May(ep, e)
    ensures Checks(ep, e) && Inv(Apply(ep, e))
  {
    ChecksHold(ep, e);
    match e
    case OnPump(data) => PumpKeeps(ep, data);
    case OnTick(timeUp, data, accept) => TickKeeps(ep, timeUp, data, accept);
    case OnWritable(accept) => WritableKeeps(ep, accept);
    case OnArm => ArmKeeps(ep);
    case OnStop => RequestStopKeeps(ep);
  }

  lemma ApplyExtends(ep: Endpoint, e: Event)
    requires Inv(ep) && May(ep, e)
    ensures Checks(ep, e) && Extends(ep, Apply(ep, e)) && Apply(ep, e).rx == ep.rx
  {
    ChecksHold(ep, e);
    match e
    case OnPump(data) => PumpExtends(ep, data);
    case OnTick(timeUp, data, accept) => TickExtends(ep, timeUp, data, accept);
    case OnWritable(accept) => WritableExtends(ep, accept);
    case OnArm =>
    case OnStop =>
  }

  /** No event takes a control flag out of a cell again, although cells are dropped. */
  lemma ApplyPlaces(ep: Endpoint, e: Event)
    requires Inv(ep) && May(ep, e)
    ensures Checks(ep, e) && Keeps(ep, Apply(ep, e))
  {
    hide SenderInv, EncodeAll, Queued, Pump, Tick, Writable;
    ChecksHold(ep, e);
    match e
    case OnPump(data) => PumpPlaces(ep, data);
    case OnTick(timeUp, data, accept) => TickPlaces(ep, timeUp, data, accept);
    case OnWritable(accept) => WritablePlaces(ep, accept);
    case OnArm =>
    case OnStop =>
  }

  /** The part of a defense state that the peer's view depends on. */
  predicate SameSession(a: Defense, b: Defense) {
    a.state == b.state && a.stopRequested == b.stopRequested && a.doneDefendingRecv == b.doneDefendingRecv
  }

  lemma AddDataCellSameSession(ep: Endpoint)
    requires TxOk(ep)
    ensures SameSession(ep.d, AddDataCell(ep).d) && AddDataCell(ep).reports == ep.reports
  {
  }

  lemma {:induction false} FlushSameSession(ep: Endpoint)
    requires TxOk(ep)
    ensures SameSession(ep.d, Flush(ep).d) && Flush(ep).reports == ep.reports
    decreases |ep.tx.spdyOut|
  {
    if ep.tx.spdyOut != [] {
      AddDataCellSameSession(ep);
      FlushSameSession(AddDataCell(ep));
    }
  }

  lemma PumpSameSession(ep: Endpoint, data: seq<byte>)
    requires TxOk(ep)
    ensures SameSession(ep.d, Pump(ep, data).d) && Pump(ep, data).reports == ep.reports
  {
    ProduceKeeps(ep.tx, data, ep.cfg.cellSize);
    var full := ep.(tx := Produce(ep.tx, data));
    match ep.d.state
    case Inactive => FlushSameSession(full);
    case Pending => AddDataCellSameSession(full);
    case Active =>
  }

  lemma FlushControlSameSession(ep: Endpoint, data: seq<byte>)
    requires TxOk(ep)
    ensures SameSession(ep.d, FlushControl(ep, data).d) && FlushControl(ep, data).reports == ep.reports
  {
    PumpSameSession(ep, data);
  }

  /** A tick either goes on with the session or ends it, and then this is what is left. */
  lemma TickOutcome(ep: Endpoint, timeUp: bool, data: seq<byte>, accept: nat)
    requires Inv(ep) && MayTick(ep, timeUp)
    ensures
      var r := Tick(ep, timeUp, data, accept);
      if ep.d.IsDoneDefendingSend(ep.cfg.L) || timeUp then
        && r.d.state.Inactive? && !r.d.stopRequested && r.d.doneDefendingRecv == ep.d.doneDefendingRecv
        && r.reports == ep.reports + (if ep.d.doneDefendingRecv then 1 else 0)
      else
        SameSession(ep.d, r.d) && r.reports == ep.reports
  {
    hide EncodeAll, SenderInv, CellsInv;
    if ep.d.IsDoneDefendingSend(ep.cfg.L) {
      FlushControlSameSession(Finishing(ep), data);
    } else if timeUp {
      FlushControlSameSession(AutoStopping(ep), data);
    }
  }
}
