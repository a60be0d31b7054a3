/** The main results about two channels talking to each other: each is about every run in which the
    environment keeps its contract, starting from two fresh ends. */
module Theorems {
  import opened Cells
  import opened SendQueue
  import opened Endpoint
  import opened EndpointInv
  import opened Signals
  import opened Protocol
  import opened Events
  import opened Link
  import opened Packing
  import opened TwoParty

  predicate Run(client: Config, server: Config, steps: seq<Step>) {
    ValidPair(client, server) && Allowed(Opened(client, server), steps)
  }

  /** No check of the code fails in any run: the run never crashes. */
  lemma NoCheckFails(client: Config, server: Config, steps: seq<Step>)
    requires Run(client, server, steps)
    ensures Execute(Opened(client, server), steps).Running?
  {
    OpenedHolds(client, server);
    RunsAreSafe(Opened(client, server), steps);
  }

  /** The state a run leads to. */
  function Reached(client: Config, server: Config, steps: seq<Step>): (sys: System)
    requires Run(client, server, steps)
    ensures ConfigOk(sys)
    ensures Handled(sys.server) <= |sys.client.tx.retired| && Handled(sys.client) <= |sys.server.tx.retired|
  {
    OpenedHolds(client, server);
    RunsAreSafe(Opened(client, server), steps);
    Execute(Opened(client, server), steps).sys
  }

  lemma ReachedHolds(client: Config, server: Config, steps: seq<Step>)
    requires Run(client, server, steps)
    ensures SystemInv(Reached(client, server, steps))
  {
    OpenedHolds(client, server);
    RunsAreSafe(Opened(client, server), steps);
  }

  // ---------- the byte stream ----------

  predicate Drained(from: Endpoint, to: Endpoint) {
    && from.tx.spdyOut == [] && from.tx.queue == []
    && to.rx.allRecv == |from.tx.wire|
  }

  /** The receiver has read every byte that was written, though the sender may hold more. */
  predicate CaughtUp(from: Endpoint, to: Endpoint) {
    to.rx.allRecv == |from.tx.wire|
  }

  lemma CaughtUpHandled(from: Endpoint, to: Endpoint, h: nat)
    requires TxOk(from) && LinkAt(from, to.rx, h) && |to.rx.inbuf| < from.cfg.cellSize
    requires CaughtUp(from, to)
    ensures h == |from.tx.retired|
  {
    WireLength(from);
    SpanStrict(|from.tx.retired|, h, from.cfg.cellSize);
  }

  lemma StreamOneWay(from: Endpoint, to: Endpoint, h: nat)
    requires TxOk(from) && LinkAt(from, to.rx, h) && |to.rx.inbuf| < from.cfg.cellSize
    ensures to.rx.consumed <= from.tx.emitted
    ensures Drained(from, to) ==> to.rx.consumed == from.tx.emitted
  {
    assert from.tx.retired == from.tx.retired[..h] + from.tx.retired[h..];
    PayloadsAppend(from.tx.retired[..h], from.tx.retired[h..]);
    if Drained(from, to) {
      CaughtUpHandled(from, to, h);
    }
  }

  /** In both directions SPDY reads a prefix of what the other SPDY wrote, and all of it once the
      sender holds nothing back and the link is drained. */
  lemma StreamSafety(client: Config, server: Config, steps: seq<Step>)
    requires Run(client, server, steps)
    ensures
      var sys := Reached(client, server, steps);
      && sys.server.rx.consumed <= sys.client.tx.emitted
      && sys.client.rx.consumed <= sys.server.tx.emitted
      && (Drained(sys.client, sys.server) ==> sys.server.rx.consumed == sys.client.tx.emitted)
      && (Drained(sys.server, sys.client) ==> sys.client.rx.consumed == sys.server.tx.emitted)
  {
    ReachedHolds(client, server, steps);
    var sys := Reached(client, server, steps);
    StreamOneWay(sys.client, sys.server, Handled(sys.server));
    StreamOneWay(sys.server, sys.client, Handled(sys.client));
  }

  // ---------- statistics ----------

  /** Every byte SPDY produced is counted as sent, sits in a queued cell, or waits to be packed; and
      the total is whole cells plus the sent part of the front one. */
  predicate SenderAccounts(ep: Endpoint) {
    && |ep.tx.emitted| == ep.tx.dataSent + |Payloads(ep.tx.queue)| + |ep.tx.spdyOut|
    && ep.tx.allSent == |ep.tx.retired| * ep.cfg.cellSize + ep.tx.progress
    && ep.tx.dummySent == Dummies(ep.tx.retired)
  }

  predicate CountersAgree(from: Endpoint, to: Endpoint) {
    && to.rx.allRecv == from.tx.allSent
    && to.rx.dataRecv == from.tx.dataSent
    && to.rx.dummyRecv == from.tx.dummySent
  }

  lemma SenderAccountsHold(ep: Endpoint)
    requires TxOk(ep)
    ensures SenderAccounts(ep)
  {
    WireLength(ep);
    SpanIsProduct(|ep.tx.retired|, ep.cfg.cellSize);
  }

  lemma CountersOneWay(from: Endpoint, to: Endpoint, h: nat)
    requires TxOk(from) && LinkAt(from, to.rx, h) && |to.rx.inbuf| < from.cfg.cellSize
    requires CaughtUp(from, to)
    ensures CountersAgree(from, to)
  {
    CaughtUpHandled(from, to, h);
    assert from.tx.retired[..h] == from.tx.retired;
  }

  lemma Statistics(client: Config, server: Config, steps: seq<Step>)
    requires Run(client, server, steps)
    ensures
      var sys := Reached(client, server, steps);
      && SenderAccounts(sys.client) && SenderAccounts(sys.server)
      && (CaughtUp(sys.client, sys.server) ==> CountersAgree(sys.client, sys.server))
      && (CaughtUp(sys.server, sys.client) ==> CountersAgree(sys.server, sys.client))
  {
    ReachedHolds(client, server, steps);
    var sys := Reached(client, server, steps);
    SenderAccountsHold(sys.client);
    SenderAccountsHold(sys.server);
    if CaughtUp(sys.client, sys.server) {
      CountersOneWay(sys.client, sys.server, Handled(sys.server));
    }
    if CaughtUp(sys.server, sys.client) {
      CountersOneWay(sys.server, sys.client, Handled(sys.client));
    }
  }

  // ---------- wakeups ----------

  /** A defended session runs on its timer alone; outside of it the write event is enabled exactly
      when bytes are waiting. */
  predicate WellWoken(ep: Endpoint) {
    && (ep.d.state.Active? ==> ep.timerOn && !ep.writeOn)
    && (!ep.d.state.Active? ==> !ep.timerOn && (ep.writeOn <==> Waiting(ep) > 0))
  }

  lemma NoLostWakeup(client: Config, server: Config, steps: seq<Step>)
    requires Run(client, server, steps)
    ensures
      var sys := Reached(client, server, steps);
      WellWoken(sys.client) && WellWoken(sys.server)
  {
    ReachedHolds(client, server, steps);
  }

  // ---------- control flags ----------

  lemma ToldIsPlaced(from: Endpoint, to: Endpoint, h: nat)
    requires TxOk(from) && LinkAt(from, to.rx, h) && |to.rx.inbuf| < from.cfg.cellSize
    ensures to.rx.told <= Queued(from.tx)
    ensures Announced(from) == to.rx.told + Flight(from, h)
    ensures Drained(from, to) ==> to.rx.told == Queued(from.tx)
  {
    hide SenderInv, EncodeAll, SignalsIn;
    FlightIsSuffix(from, h);
    assert from.tx.retired == from.tx.retired[..h] + from.tx.retired[h..];
    SignalsAppend(from.tx.retired[..h], from.tx.retired[h..]);
    if Drained(from, to) {
      CaughtUpHandled(from, to, h);
      assert from.tx.retired[..h] == from.tx.retired;
      NoSignals(SignalsIn(from.tx.retired));
    }
  }

  lemma NoSignals(s: seq<Signal>)
    ensures s + SignalsIn([]) == s
  {
  }

  /** The control flags in the cells that a receiver has decoded are a prefix of those the sender put
      into cells, in the same order and each as often, and all of them once nothing is queued and the
      link is drained; with those on their way they are all that the sender has to tell. No cell tells
      the peer both to start and to stop. */
  lemma FlagsDeliveredOnce(client: Config, server: Config, steps: seq<Step>)
    requires Run(client, server, steps)
    ensures
      var sys := Reached(client, server, steps);
      && sys.server.rx.told <= Queued(sys.client.tx) && sys.client.rx.told <= Queued(sys.server.tx)
      && Announced(sys.client) == sys.server.rx.told + Flight(sys.client, Handled(sys.server))
      && Announced(sys.server) == sys.client.rx.told + Flight(sys.server, Handled(sys.client))
      && (Drained(sys.client, sys.server) ==> sys.server.rx.told == Queued(sys.client.tx))
      && (Drained(sys.server, sys.client) ==> sys.client.rx.told == Queued(sys.server.tx))
      && (forall c <- sys.client.tx.retired + sys.client.tx.queue :: !(c.flags.start && c.flags.stop))
  {
    hide SenderInv, EncodeAll, Queued, Announced, Flight, LinkAt;
    ReachedHolds(client, server, steps);
    var sys := Reached(client, server, steps);
    ToldIsPlaced(sys.client, sys.server, Handled(sys.server));
    ToldIsPlaced(sys.server, sys.client, Handled(sys.client));
    assert CellsInv(sys.client);
  }

  lemma {:induction false} ReadingSendsNothing(ep: Endpoint)
    requires ValidCellSize(ep.cfg.peerCellSize) && Consumable(ep)
    ensures ReadCells(ep).tx == ep.tx
    decreases |ep.rx.inbuf|
  {
    hide Decode, Acceptable;
    if |ep.rx.inbuf| >= ep.cfg.peerCellSize {
      var c := Decode(ep.rx.inbuf[..ep.cfg.peerCellSize]).cell;
      AfterCellSilent(ep, c);
      ReadingSendsNothing(AfterCell(ep, c));
    }
  }

  /** No step of a run takes a control flag back that has been put into a cell, although dummy cells
      are dropped and STARTs are withdrawn while they wait for a cell. */
  lemma PlacedFlagsStay(client: Config, server: Config, steps: seq<Step>, step: Step)
    requires Run(client, server, steps) && MayStep(Reached(client, server, steps), step)
    ensures
      var sys := Reached(client, server, steps);
      && StepChecks(sys, step)
      && Keeps(sys.client, Next(sys, step).client) && Keeps(sys.server, Next(sys, step).server)
  {
    hide Inv, LinkAt, ViewInv, Queued, ReadCells, Consumable;
    ReachedHolds(client, server, steps);
    var sys := Reached(client, server, steps);
    StepKeeps(sys, step);
    match step
    case AtClient(e) => ApplyPlaces(sys.client, e);
    case AtServer(e) => ApplyPlaces(sys.server, e);
    case ToServer(n) => ReadingSendsNothing(Arriving(sys.client, sys.server, n));
    case ToClient(n) => ReadingSendsNothing(Arriving(sys.server, sys.client, n));
  }

  // ---------- defensive cells ----------

  /** The count of defensive cells goes on from where it was at the last report. */
  predicate Heard(ep: Endpoint) {
    ep.d.numCellsRecv + ep.reportedCells == ep.rx.defensive
  }

  lemma EventHears(ep: Endpoint, e: Event)
    requires Inv(ep) && May(ep, e) && Heard(ep)
    ensures Checks(ep, e) && Heard(Apply(ep, e))
  {
    hide SenderInv, EncodeAll, CellsInv, Flush, FlushControl, Refill, Send;
    ChecksHold(ep, e);
    match e
    case OnPump(data) => PumpHears(ep, data);
    case OnTick(timeUp, data, accept) => TickHears(ep, timeUp, data, accept);
    case OnWritable(accept) =>
      WritableKeeps(ep, accept);
      SendHears(if ep.d.state.Pending? then StartSession(ep) else ep, accept);
    case OnArm =>
    case OnStop =>
  }

  lemma PumpHears(ep: Endpoint, data: seq<byte>)
    requires Inv(ep) && Heard(ep)
    ensures Heard(Pump(ep, data))
  {
    hide SenderInv, EncodeAll, Flush;
    ProduceKeeps(ep.tx, data, ep.cfg.cellSize);
    if ep.d.state.Inactive? {
      PumpInactiveEffect(ep, data);
    }
  }

  lemma SendHears(ep: Endpoint, accept: nat)
    requires CanSend(ep) && Heard(ep)
    ensures Heard(Send(ep, accept))
  {
    hide SenderInv, EncodeAll;
  }

  lemma TickHears(ep: Endpoint, timeUp: bool, data: seq<byte>, accept: nat)
    requires Inv(ep) && MayTick(ep, timeUp) && Heard(ep)
    ensures Heard(Tick(ep, timeUp, data, accept))
  {
    hide SenderInv, EncodeAll, FlushControl, Refill, Send;
    if ep.d.IsDoneDefendingSend(ep.cfg.L) {
      FlushControlEffect(Finishing(ep), data);
    } else if timeUp {
      FlushControlEffect(AutoStopping(ep), data);
    } else {
      RefillEffect(ep);
      RefillState(ep);
      SendHears(Refill(ep), accept);
    }
  }

  lemma CellHears(ep: Endpoint, c: Cell)
    requires Heard(ep)
    ensures Heard(HandleCell(ep, c))
    ensures HandleCell(ep, c).rx.defensive == ep.rx.defensive + if c.flags.defensive then 1 else 0
    ensures HandleCell(ep, c).reports != ep.reports ==> HandleCell(ep, c).d.numCellsRecv == 0
  {
    hide Carried, OnControl;
    ControlHears(ep, c.flags);
  }

  /** The parts of an end that only reading and reporting change. */
  predicate SameCount(a: Endpoint, b: Endpoint) {
    && a.d.numCellsRecv == b.d.numCellsRecv && a.reportedCells == b.reportedCells
    && a.rx == b.rx && a.reports == b.reports
  }

  lemma SessionsDoNotCount(ep: Endpoint)
    ensures SameCount(ep, OnAutoStopped(ep)) && SameCount(ep, StartSession(ep)) && SameCount(ep, RequestStop(ep))
  {
  }

  lemma ControlHears(ep: Endpoint, f: Flags)
    ensures OnControl(ep, f).d.numCellsRecv == ep.d.numCellsRecv + if f.defensive then 1 else 0
    ensures OnControl(ep, f).reportedCells == ep.reportedCells && OnControl(ep, f).rx == ep.rx
    ensures OnControl(ep, f).reports == ep.reports
  {
    hide OnAutoStopped, StartSession, RequestStop;
    var e1 := if f.autoStopped then OnAutoStopped(ep) else ep;
    var e2 := if f.start then StartSession(e1) else e1;
    SessionsDoNotCount(ep);
    SessionsDoNotCount(e1);
    SessionsDoNotCount(e2);
  }

  lemma {:induction false} ReadingHears(ep: Endpoint)
    requires ValidCellSize(ep.cfg.peerCellSize) && Consumable(ep) && Heard(ep)
    ensures Heard(ReadCells(ep))
    decreases |ep.rx.inbuf|
  {
    hide Decode, Acceptable, HandleCell;
    if |ep.rx.inbuf| >= ep.cfg.peerCellSize {
      var c := Decode(ep.rx.inbuf[..ep.cfg.peerCellSize]).cell;
      CellHears(ep, c);
      ReadingHears(AfterCell(ep, c));
    }
  }

  /** What holds of both ends beside the invariant: the count of defensive cells, and fillers. */
  predicate BothCount(sys: System) {
    && Heard(sys.client) && Heard(sys.server)
    && FillersInv(sys.client.tx) && FillersInv(sys.server.tx)
  }

  lemma StepCounts(sys: System, step: Step)
    requires SystemInv(sys) && MayStep(sys, step) && BothCount(sys)
    ensures StepChecks(sys, step) && BothCount(Next(sys, step))
  {
    hide Inv, LinkAt, ViewInv, Answered, ReadCells, Consumable, Apply, FillersInv;
    StepKeeps(sys, step);
    match step
    case AtClient(e) =>
      EventHears(sys.client, e);
      ApplyFillers(sys.client, e);
    case AtServer(e) =>
      EventHears(sys.server, e);
      ApplyFillers(sys.server, e);
    case ToServer(n) =>
      ReadingHears(Arriving(sys.client, sys.server, n));
      ReadingSendsNothing(Arriving(sys.client, sys.server, n));
    case ToClient(n) =>
      ReadingHears(Arriving(sys.server, sys.client, n));
      ReadingSendsNothing(Arriving(sys.server, sys.client, n));
  }

  lemma {:induction false} RunCounts(sys: System, steps: seq<Step>)
    requires SystemInv(sys) && Allowed(sys, steps) && BothCount(sys)
    ensures Execute(sys, steps).Running? && BothCount(Execute(sys, steps).sys)
    decreases |steps|
  {
    hide PairInv, BothCount, MayStep, StepChecks, Next;
    if steps != [] {
      StepKeeps(sys, steps[0]);
      StepCounts(sys, steps[0]);
      RunCounts(Next(sys, steps[0]), steps[1..]);
    }
  }

  lemma ReachedCounts(client: Config, server: Config, steps: seq<Step>)
    requires Run(client, server, steps)
    ensures BothCount(Reached(client, server, steps))
  {
    hide SystemInv, BothCount, Opened;
    OpenedHolds(client, server);
    OpenedCounts(client, server);
    RunCounts(Opened(client, server), steps);
  }

  lemma OpenedCounts(client: Config, server: Config)
    ensures BothCount(Opened(client, server))
  {
  }

  /** The number an end has for defensive cells is that of the defensive cells it has read, less those
      that it had read when a session was last reported. */
  lemma DefensiveCellsCounted(client: Config, server: Config, steps: seq<Step>)
    requires Run(client, server, steps)
    ensures
      var sys := Reached(client, server, steps);
      && sys.client.d.numCellsRecv + sys.client.reportedCells
           == Defensives(sys.server.tx.retired[..Handled(sys.client)])
      && sys.server.d.numCellsRecv + sys.server.reportedCells
           == Defensives(sys.client.tx.retired[..Handled(sys.server)])
  {
    hide Inv, ViewInv, Answered, Prompted, FillersInv;
    ReachedHolds(client, server, steps);
    ReachedCounts(client, server, steps);
  }

  /** A report starts the count again and forgets the saved attempts; nothing else does. */
  lemma ReportClears(ep: Endpoint)
    ensures Notify(ep).reports != ep.reports ==>
      && Notify(ep).d.numCellsRecv == 0 && Notify(ep).d.savedNumWriteAttempts == 0
      && Notify(ep).reportedCells == ep.rx.defensive
    ensures Notify(ep).reports == ep.reports ==> Notify(ep) == ep
  {
  }

  /** An automatic stop saves the number of attempts and reports nothing. */
  lemma AutoStopSaves(ep: Endpoint, data: seq<byte>, accept: nat)
    requires Inv(ep) && MayTick(ep, true) && !ep.d.IsDoneDefendingSend(ep.cfg.L)
    ensures
      var r := Tick(ep, true, data, accept);
      && r.d.savedNumWriteAttempts == ep.d.numWriteAttempts && r.d.numWriteAttempts == 0
      && r.d.numCellsRecv == ep.d.numCellsRecv && r.reports == ep.reports
  {
    hide SenderInv, EncodeAll, FlushControl;
    FlushControlEffect(AutoStopping(ep), data);
  }

  // ---------- fillers ----------

  /** In every reachable state the last cell of a queue may be dropped exactly if it is a whole dummy
      without control flags, and no other cell of the queue is one: the only other filler there can be is
      at the front and partly sent. */
  lemma FillersAreDroppable(client: Config, server: Config, steps: seq<Step>)
    requires Run(client, server, steps)
    ensures
      var sys := Reached(client, server, steps);
      WellFilled(sys.client.tx) && WellFilled(sys.server.tx)
  {
    hide Inv, ViewInv, Answered, Prompted, LinkAt;
    ReachedHolds(client, server, steps);
    ReachedCounts(client, server, steps);
    var sys := Reached(client, server, steps);
    WellFilledIfInv(sys.client);
    WellFilledIfInv(sys.server);
  }

  predicate WellFilled(tx: Sender) {
    && (tx.droppable <==>
          tx.queue != [] && Filler(tx.queue[|tx.queue| - 1]) && (|tx.queue| == 1 ==> tx.progress == 0))
    && (forall i :: 0 <= i < |tx.queue| - 1 && Filler(tx.queue[i]) ==> i == 0 && tx.progress > 0)
  }

  lemma WellFilledIfInv(ep: Endpoint)
    requires Inv(ep) && FillersInv(ep.tx)
    ensures WellFilled(ep.tx)
  {
    hide SenderInv, EncodeAll;
    InvParts(ep);
    SenderParts(ep.tx, ep.cfg.cellSize);
    DroppableExactly(ep.tx);
  }

  // ---------- the session protocol ----------

  /** Both halves at rest: nobody defends and no control flag is on its way. */
  predicate Quiet(sys: System)
    requires ConfigOk(sys)
    requires Handled(sys.server) <= |sys.client.tx.retired| && Handled(sys.client) <= |sys.server.tx.retired|
  {
    && sys.client.d.state.Inactive? && sys.server.d.state.Inactive?
    && Flight(sys.client, Handled(sys.server)) == []
    && Flight(sys.server, Handled(sys.client)) == []
  }

  /** There is never more than one report per armed session, and none is missing but the last. */
  lemma ReportsAreCounted(client: Config, server: Config, steps: seq<Step>)
    requires Run(client, server, steps)
    ensures
      var sys := Reached(client, server, steps);
      && sys.client.reports <= sys.arms <= sys.client.reports + 1
      && (sys.client.reports == sys.arms ==> Quiet(sys) && !InProgress(sys.client))
  {
    ReachedHolds(client, server, steps);
  }

  /** When everything is quiet, the session armed last has been reported if and only if the last word
      of the server was not AUTO_STOPPED. */
  lemma ReportedExactly(client: Config, server: Config, steps: seq<Step>)
    requires Run(client, server, steps)
    ensures
      var sys := Reached(client, server, steps);
      Quiet(sys) ==> (sys.client.reports == sys.arms <==> !LastWord(sys.client.rx.told, AutoStopped))
  {
    hide Inv, LinkAt, Flight;
    ReachedHolds(client, server, steps);
    var sys := Reached(client, server, steps);
    if Quiet(sys) {
      QuietCount(ViewOf(sys.client, sys.server, Handled(sys.client), Handled(sys.server)), sys.arms,
                 sys.client.reports, sys.client.rx.told);
    }
  }

  lemma QuietCount(v: View, arms: nat, reports: nat, told: seq<Signal>)
    requires ViewInv(v, arms, reports) && Answered(v, told)
    requires v.client.state.Inactive? && v.server.state.Inactive? && v.W == [] && v.G == []
    ensures reports == arms <==> !LastWord(told, AutoStopped)
    ensures reports != arms ==> reports + 1 == arms && !v.client.doneDefendingRecv
  {
  }

  /** A quiet pair with a session that has not been reported. */
  predicate Abandoned(sys: System)
    requires SystemInv(sys)
  {
    Quiet(sys) && sys.client.reports != sys.arms
  }

  /** Reading cells without control flags changes nothing of the session. */
  lemma {:induction false} ReadingSilence(ep: Endpoint)
    requires ValidCellSize(ep.cfg.peerCellSize) && Consumable(ep)
    ensures ep.rx.told <= ReadCells(ep).rx.told
    ensures ReadCells(ep).rx.told == ep.rx.told ==>
      && SameSession(ep.d, ReadCells(ep).d) && ReadCells(ep).reports == ep.reports
      && Owed(ReadCells(ep).d) == Owed(ep.d)
    decreases |ep.rx.inbuf|
  {
    hide Decode, Acceptable, HandleCell, Owed;
    if |ep.rx.inbuf| >= ep.cfg.peerCellSize {
      var c := Decode(ep.rx.inbuf[..ep.cfg.peerCellSize]).cell;
      AfterCellSilent(ep, c);
      ReadingSilence(AfterCell(ep, c));
      if Carried(c.flags) == [] {
        CellSilence(ep, c);
        assert ep.rx.told + [] == ep.rx.told;
      }
    }
  }

  lemma NothingCarried(f: Flags)
    requires Carried(f) == []
    ensures !f.Important()
  {
    assert f.start ==> Start in Carried(f);
    assert f.stop ==> Stop in Carried(f);
    assert f.autoStopped ==> AutoStopped in Carried(f);
    assert f.done ==> Done in Carried(f);
  }

  lemma ControlSilence(ep: Endpoint, f: Flags)
    requires !f.Important()
    ensures SameSession(ep.d, OnControl(ep, f).d) && OnControl(ep, f).reports == ep.reports
    ensures OnControl(ep, f).d.NextFlags() == ep.d.NextFlags()
  {
  }

  lemma CellSilence(ep: Endpoint, c: Cell)
    requires Carried(c.flags) == []
    ensures SameSession(ep.d, HandleCell(ep, c).d) && HandleCell(ep, c).reports == ep.reports
    ensures Owed(HandleCell(ep, c).d) == Owed(ep.d)
  {
    hide Carried, OnControl, SameSession;
    NothingCarried(c.flags);
    ControlSilence(ep, c.flags);
  }

  /** Between sessions an end announces nothing, whatever happens to it. */
  lemma QuietEvent(ep: Endpoint, e: Event, h: nat)
    requires Inv(ep) && May(ep, e) && ep.d.state.Inactive? && !e.OnArm? && h <= |ep.tx.retired|
    ensures
      && Checks(ep, e)
      && var r := Apply(ep, e);
      && r.d.state.Inactive? && r.reports == ep.reports && h <= |r.tx.retired| && Flight(r, h) == Flight(ep, h)
  {
    hide SenderInv, EncodeAll, Announced, Pump, Send, Flight;
    ChecksHold(ep, e);
    ApplyExtends(ep, e);
    match e
    case OnPump(data) =>
      PumpKeepsSignals(ep, data);
      PumpSameSession(ep, data);
      Unchanged(ep, Apply(ep, e), h);
    case OnTick(_, _, _) =>
    case OnWritable(accept) =>
      WritableKeepsSignals(ep, accept);
      SendInactiveEffect(ep, accept);
      Unchanged(ep, Apply(ep, e), h);
    case OnArm =>
    case OnStop =>
      RequestStopKeeps(ep);
  }

  /** Reading what is left when nothing is in flight tells the reader nothing. */
  lemma QuietReading(from: Endpoint, to: Endpoint, h: nat, k: nat)
    requires TxOk(from) && to.cfg.peerCellSize == from.cfg.cellSize && Consumable(to)
    requires LinkAt(from, to.rx, h) && Flight(from, h) == []
    requires LinkAt(from, ReadCells(to).rx, k)
    ensures SameSession(to.d, ReadCells(to).d) && ReadCells(to).reports == to.reports
    ensures Flight(from, k) == []
    ensures ReadCells(to).tx == to.tx && Owed(ReadCells(to).d) == Owed(to.d)
  {
    hide SenderInv, EncodeAll, Flight, Consumable, ReadCells, Announced;
    ReadingSilence(to);
    ReadingSendsNothing(to);
    FlightIsSuffix(from, h);
    FlightIsSuffix(from, k);
    AllTold(to.rx.told, ReadCells(to).rx.told, Flight(from, k));
  }

  lemma AllTold(a: seq<Signal>, b: seq<Signal>, rest: seq<Signal>)
    requires a <= b && a + [] == b + rest
    ensures a == b && rest == []
  {
    assert |a + []| == |b| + |rest|;
  }

  lemma SameFlight(a: Endpoint, b: Endpoint, h: nat)
    requires h <= |a.tx.retired| && a.tx == b.tx && Owed(a.d) == Owed(b.d)
    ensures Flight(a, h) == Flight(b, h)
  {
  }

  lemma HandledBounds(sys: System)
    requires SystemInv(sys)
    ensures Handled(sys.server) <= |sys.client.tx.retired| && Handled(sys.client) <= |sys.server.tx.retired|
  {
  }

  lemma AbandonedDelivery(sys: System, step: Step)
    requires SystemInv(sys) && Abandoned(sys) && MayStep(sys, step) && (step.ToServer? || step.ToClient?)
    ensures StepChecks(sys, step) && SystemInv(Next(sys, step)) && Quiet(Next(sys, step))
    ensures Next(sys, step).client.reports == sys.client.reports && Next(sys, step).arms == sys.arms
  {
    hide Inv, ViewInv, Answered, Prompted, LinkAt, Flight, Consumable, ReadCells;
    StepKeeps(sys, step);
    HandledBounds(sys);
    var after := Next(sys, step);
    match step
    case ToServer(n) =>
      var to := Arriving(sys.client, sys.server, n);
      BytesArrive(sys.client, sys.server, Handled(sys.server), n);
      InvParts(sys.client);
      QuietReading(sys.client, to, Handled(sys.server), Handled(after.server));
      SameFlight(sys.server, after.server, Handled(sys.client));
    case ToClient(n) =>
      var to := Arriving(sys.server, sys.client, n);
      BytesArrive(sys.server, sys.client, Handled(sys.client), n);
      InvParts(sys.server);
      QuietReading(sys.server, to, Handled(sys.client), Handled(after.client));
      SameFlight(sys.client, after.client, Handled(sys.server));
  }

  lemma AbandonedStep(sys: System, step: Step)
    requires SystemInv(sys) && Abandoned(sys) && MayStep(sys, step)
    ensures StepChecks(sys, step) && SystemInv(Next(sys, step)) && Abandoned(Next(sys, step))
    ensures Next(sys, step).client.reports == sys.client.reports && Next(sys, step).arms == sys.arms
  {
    hide Inv, LinkAt, Flight, Legal, Apply, Checks, ReadCells, Consumable;
    StepKeeps(sys, step);
    HandledBounds(sys);
    QuietCount(ViewOf(sys.client, sys.server, Handled(sys.client), Handled(sys.server)), sys.arms,
               sys.client.reports, sys.client.rx.told);
    match step
    case AtClient(e) =>
      ApplyExtends(sys.client, e);
      QuietEvent(sys.client, e, Handled(sys.server));
    case AtServer(e) =>
      ApplyExtends(sys.server, e);
      ServerNeverArms(sys.server, e);
      QuietEvent(sys.server, e, Handled(sys.client));
    case ToServer(n) => AbandonedDelivery(sys, step);
    case ToClient(n) => AbandonedDelivery(sys, step);
  }

  lemma ServerNeverArms(server: Endpoint, e: Event)
    requires ValidConfig(server.cfg) && !server.cfg.isClient && May(server, e)
    ensures !e.OnArm?
  {
  }

  /** Such a session is never reported: no run that goes on from there adds a report or arms again. */
  lemma {:induction false} AbandonedForever(sys: System, more: seq<Step>)
    requires SystemInv(sys) && Abandoned(sys) && Allowed(sys, more)
    ensures Execute(sys, more).Running?
    ensures Execute(sys, more).sys.client.reports == sys.client.reports && Execute(sys, more).sys.arms == sys.arms
    decreases |more|
  {
    hide PairInv, Abandoned, MayStep, StepChecks, Next;
    if more != [] {
      AbandonedStep(sys, more[0]);
      AbandonedForever(Next(sys, more[0]), more[1..]);
    }
  }

  /** The client reports a session only when it ends in the step at hand, and then both halves of it
      are over and nothing of it is left on the links. */
  lemma ReportMeansDone(client: Config, server: Config, steps: seq<Step>, step: Step)
    requires Run(client, server, steps)
    requires MayStep(Reached(client, server, steps), step)
    ensures
      var sys := Reached(client, server, steps);
      && StepChecks(sys, step)
      && var after := Next(sys, step);
      && SystemInv(after)
      && (after.client.reports != sys.client.reports ==>
            && after.client.reports == sys.client.reports + 1 == after.arms
            && Quiet(after))
      && after.server.reports == 0
  {
    ReachedHolds(client, server, steps);
    var sys := Reached(client, server, steps);
    StepKeeps(sys, step);
    ServerNeverReports(client, server, steps, step);
    ReportsOnlyGrow(sys, step);
  }

  lemma ReportsOnlyGrow(sys: System, step: Step)
    requires SystemInv(sys) && MayStep(sys, step)
    ensures StepChecks(sys, step) && Next(sys, step).client.reports >= sys.client.reports
    ensures !(step.AtClient? && step.e.OnArm?) ==> Next(sys, step).arms == sys.arms
    ensures step.AtClient? && step.e.OnArm? ==> Next(sys, step).client.reports == sys.client.reports
  {
    StepKeeps(sys, step);
    match step
    case AtClient(e) => EventReports(sys.client, e);
    case AtServer(e) =>
    case ToServer(n) =>
    case ToClient(n) => ReadReports(Arriving(sys.server, sys.client, n));
  }

  lemma EventReports(ep: Endpoint, e: Event)
    requires Inv(ep) && May(ep, e)
    ensures Checks(ep, e) && Apply(ep, e).reports >= ep.reports
    ensures !ep.cfg.isClient ==> Apply(ep, e).reports == ep.reports
  {
    ChecksHold(ep, e);
    match e
    case OnPump(data) => PumpSameSession(ep, data);
    case OnTick(timeUp, data, accept) => TickOutcome(ep, timeUp, data, accept);
    case OnWritable(accept) => WritableKeeps(ep, accept);
    case OnArm =>
    case OnStop =>
  }

  lemma CellReports(ep: Endpoint, c: Cell)
    requires Acceptable(ep, c)
    ensures HandleCell(ep, c).reports >= ep.reports
    ensures !ep.cfg.isClient ==> HandleCell(ep, c).reports == ep.reports
  {
  }

  lemma {:induction false} ReadReports(ep: Endpoint)
    requires ValidCellSize(ep.cfg.peerCellSize) && Consumable(ep)
    ensures ReadCells(ep).reports >= ep.reports
    ensures !ep.cfg.isClient ==> ReadCells(ep).reports == ep.reports
    decreases |ep.rx.inbuf|
  {
    if |ep.rx.inbuf| >= ep.cfg.peerCellSize {
      var c := Decode(ep.rx.inbuf[..ep.cfg.peerCellSize]).cell;
      CellReports(ep, c);
      ReadReports(AfterCell(ep, c));
    }
  }

  lemma ServerSilentStep(sys: System, step: Step)
    requires SystemInv(sys) && MayStep(sys, step)
    ensures StepChecks(sys, step) && Next(sys, step).server.reports == sys.server.reports
  {
    StepKeeps(sys, step);
    match step
    case AtClient(e) =>
    case AtServer(e) => EventReports(sys.server, e);
    case ToServer(n) => ReadReports(Arriving(sys.client, sys.server, n));
    case ToClient(n) =>
  }

  lemma {:induction false} ServerSilentRun(sys: System, steps: seq<Step>)
    requires SystemInv(sys) && Allowed(sys, steps) && sys.server.reports == 0
    ensures Execute(sys, steps).Running? && Execute(sys, steps).sys.server.reports == 0
    decreases |steps|
  {
    if steps != [] {
      StepKeeps(sys, steps[0]);
      ServerSilentStep(sys, steps[0]);
      ServerSilentRun(Next(sys, steps[0]), steps[1..]);
    }
  }

  /** Only the client ever reports a session. */
  lemma ServerNeverReports(client: Config, server: Config, steps: seq<Step>, step: Step)
    requires Run(client, server, steps)
    requires MayStep(Reached(client, server, steps), step)
    ensures StepChecks(Reached(client, server, steps), step)
    ensures Next(Reached(client, server, steps), step).server.reports == 0
  {
    ReachedHolds(client, server, steps);
    OpenedHolds(client, server);
    ServerSilentRun(Opened(client, server), steps);
    ServerSilentStep(Reached(client, server, steps), step);
  }

  /** When the server says DONE, the last two control flags it was handed are the START that began
      its session and a STOP, nothing else is on its way to it, and the client has asked to stop and
      has not had a report for the session it armed last. */
  lemma DoneAnswersStop(client: Config, server: Config, steps: seq<Step>, timeUp: bool)
    requires Run(client, server, steps)
    requires
      var sys := Reached(client, server, steps);
      sys.server.d.state.Active? && TickSignals(sys.server, timeUp) == [Done]
    ensures
      var sys := Reached(client, server, steps);
      && EndsWith(sys.server.rx.told, [Start, Stop])
      && Flight(sys.client, Handled(sys.server)) == []
      && Flight(sys.server, Handled(sys.client)) == []
      && (sys.client.d.state.Inactive? || sys.client.d.stopRequested)
      && !sys.client.d.doneDefendingRecv
      && sys.client.reports + 1 == sys.arms
  {
    hide SenderInv;
    ReachedHolds(client, server, steps);
  }

  /** A START on its way to the server never meets a session: the server is inactive until it comes. */
  lemma StartFindsServerInactive(client: Config, server: Config, steps: seq<Step>)
    requires Run(client, server, steps)
    ensures
      var sys := Reached(client, server, steps);
      Start in Flight(sys.client, Handled(sys.server)) ==> sys.server.d.state.Inactive?
  {
    hide Inv, LinkAt, Flight, Legal;
    ReachedHolds(client, server, steps);
    var sys := Reached(client, server, steps);
    if Start in Flight(sys.client, Handled(sys.server)) {
      StartMeetsNobody(ViewOf(sys.client, sys.server, Handled(sys.client), Handled(sys.server)));
    }
  }
}
