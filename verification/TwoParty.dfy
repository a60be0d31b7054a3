/** A client and a server joined by two FIFO byte streams, and everything that holds in every run. */
module TwoParty {
  import opened Cells
  import opened SendQueue
  import opened Endpoint
  import opened EndpointInv
  import opened Signals
  import opened Protocol
  import opened Events
  import opened Link

  /** `arms` counts the sessions the client has asked for. What an end has written and its peer has not
      read yet is in flight. */
  datatype System = System(client: Endpoint, server: Endpoint, arms: nat)

  datatype Step =
    | AtClient(e: Event)
    | AtServer(e: Event)
    | ToServer(n: nat)
    | ToClient(n: nat)

  datatype Outcome = Running(sys: System) | Crashed

  predicate ValidPair(client: Config, server: Config) {
    && ValidConfig(client) && ValidConfig(server)
    && client.isClient && !server.isClient
    && client.peerCellSize == server.cellSize && server.peerCellSize == client.cellSize
  }

  function Opened(client: Config, server: Config): System {
    System(Initial(client), Initial(server), 0)
  }

  predicate ConfigOk(sys: System) {
    ValidPair(sys.client.cfg, sys.server.cfg)
  }

  /** The environment: who may do what, and how many bytes a link can deliver. */
  predicate MayStep(sys: System, step: Step)
    requires ConfigOk(sys)
  {
    match step
    case AtClient(e) => May(sys.client, e)
    case AtServer(e) => May(sys.server, e)
    case ToServer(n) => sys.server.rx.allRecv + n <= |sys.client.tx.wire|
    case ToClient(n) => sys.client.rx.allRecv + n <= |sys.server.tx.wire|
  }

  function Arriving(from: Endpoint, to: Endpoint, n: nat): Endpoint
    requires to.rx.allRecv + n <= |from.tx.wire|
  {
    Buffered(to, from.tx.wire[to.rx.allRecv..to.rx.allRecv + n])
  }

  /** Whether the step passes every check of the code. */
  predicate StepChecks(sys: System, step: Step)
    requires ConfigOk(sys) && MayStep(sys, step)
  {
    match step
    case AtClient(e) => Checks(sys.client, e)
    case AtServer(e) => Checks(sys.server, e)
    case ToServer(n) => Consumable(Arriving(sys.client, sys.server, n))
    case ToClient(n) => Consumable(Arriving(sys.server, sys.client, n))
  }

  function Next(sys: System, step: Step): (r: System)
    requires ConfigOk(sys) && MayStep(sys, step) && StepChecks(sys, step)
    ensures ConfigOk(r)
  {
    match step
    case AtClient(e) => System(Apply(sys.client, e), sys.server, sys.arms + if e.OnArm? then 1 else 0)
    case AtServer(e) => sys.(server := Apply(sys.server, e))
    case ToServer(n) => sys.(server := ReadCells(Arriving(sys.client, sys.server, n)))
    case ToClient(n) => sys.(client := ReadCells(Arriving(sys.server, sys.client, n)))
  }

  /** A run in which the environment keeps its contract. */
  predicate Allowed(sys: System, steps: seq<Step>)
    requires ConfigOk(sys)
    decreases |steps|
  {
    steps == [] ||
    (MayStep(sys, steps[0]) && (StepChecks(sys, steps[0]) ==> Allowed(Next(sys, steps[0]), steps[1..])))
  }

  function Execute(sys: System, steps: seq<Step>): Outcome
    requires ConfigOk(sys) && Allowed(sys, steps)
    decreases |steps|
  {
    if steps == [] then Running(sys)
    else if StepChecks(sys, steps[0]) then Execute(Next(sys, steps[0]), steps[1..])
    else Crashed
  }

  // ---------- the invariant of the pair ----------

  function ViewOf(client: Endpoint, server: Endpoint, hc: nat, hs: nat): View
    requires hs <= |client.tx.retired| && hc <= |server.tx.retired|
  {
    View(client.d, Flight(client, hs), server.d, Flight(server, hc))
  }

  /** The client has handled hc cells of the server, the server hs cells of the client. */
  predicate PairInv(client: Endpoint, server: Endpoint, arms: nat, hc: nat, hs: nat) {
    && ValidPair(client.cfg, server.cfg)
    && Inv(client) && Inv(server)
    && LinkAt(client, server.rx, hs) && LinkAt(server, client.rx, hc)
    && ViewInv(ViewOf(client, server, hc, hs), arms, client.reports)
    && Prompted(server.rx.told, server.d)
    && Answered(ViewOf(client, server, hc, hs), client.rx.told)
  }

  predicate SystemInv(sys: System) {
    && ConfigOk(sys)
    && PairInv(sys.client, sys.server, sys.arms, Handled(sys.client), Handled(sys.server))
    && |sys.client.rx.inbuf| < sys.client.cfg.peerCellSize
    && |sys.server.rx.inbuf| < sys.server.cfg.peerCellSize
  }

  lemma OpenedHolds(client: Config, server: Config)
    requires ValidPair(client, server)
    ensures SystemInv(Opened(client, server))
  {
    InitialHolds(client);
    InitialHolds(server);
    InitialLink(client, server);
    InitialLink(server, client);
    InitialFlight(client);
    InitialFlight(server);
  }

  lemma InitialLink(from: Config, to: Config)
    requires ValidConfig(from) && ValidConfig(to)
    ensures Handled(Initial(to)) == 0
    ensures LinkAt(Initial(from), Initial(to).rx, 0)
  {
  }

  lemma InitialFlight(cfg: Config)
    ensures Flight(Initial(cfg), 0) == []
  {
  }

  // ---------- events of the server ----------

  lemma ViewAfterServerEvent(sys: System, e: Event)
    requires SystemInv(sys) && May(sys.server, e)
    ensures Checks(sys.server, e)
    ensures Extends(sys.server, Apply(sys.server, e))
    ensures ViewInv(ViewOf(sys.client, Apply(sys.server, e), Handled(sys.client), Handled(sys.server)),
                    sys.arms, sys.client.reports)
  {
    hide SenderInv, EncodeAll, Announced, Legal, Answered, Prompted, Pump, Tick, Writable, RequestStop, Arm;
    var server, hc := sys.server, Handled(sys.client);
    ChecksHold(server, e);
    ApplyExtends(server, e);
    var r := Apply(server, e);
    var v, w := ViewOf(sys.client, server, hc, Handled(sys.server)), ViewOf(sys.client, r, hc, Handled(sys.server));
    match e
    case OnPump(data) =>
      PumpKeepsSignals(server, data);
      PumpSameSession(server, data);
      Unchanged(server, r, hc);
      ViewDepends(v, w, sys.arms, sys.client.reports);
    case OnTick(timeUp, data, accept) =>
      TickSignalsOnly(server, timeUp, data, accept);
      TickOutcome(server, timeUp, data, accept);
      FlightGrows(server, r, hc, TickSignals(server, timeUp));
      ServerTicks(v, w, server, timeUp, sys.arms, sys.client.reports);
    case OnWritable(accept) =>
      WritableKeepsSignals(server, accept);
      WritableKeeps(server, accept);
      ServerWrites(server, accept);
      Unchanged(server, r, hc);
      ViewDepends(v, w, sys.arms, sys.client.reports);
    case OnArm =>
    case OnStop =>
  }

  /** No event of its own makes a server active or stopping. */
  lemma ServerEventPrompted(server: Endpoint, e: Event, told: seq<Signal>)
    requires Inv(server) && !server.cfg.isClient && May(server, e) && Prompted(told, server.d)
    ensures Checks(server, e) && Prompted(told, Apply(server, e).d)
  {
    ChecksHold(server, e);
    match e
    case OnPump(data) => PumpSameSession(server, data);
    case OnTick(timeUp, data, accept) => TickOutcome(server, timeUp, data, accept);
    case OnWritable(accept) => WritableKeeps(server, accept);
    case OnArm =>
    case OnStop =>
  }

  lemma ServerCellDefense(server: Endpoint, c: Cell)
    requires Inv(server) && !server.cfg.isClient && Acceptable(server, c)
    ensures
      var d := HandleCell(server, c).d;
      if c.flags.start then d.state.Active? && !d.stopRequested
      else if c.flags.stop then d.state.Active? == server.d.state.Active? && (d.state.Active? ==> d.stopRequested)
      else SameSession(server.d, d)
    ensures server.d.state.Active? && c.flags.stop ==> !server.d.stopRequested
  {
    hide SenderInv, EncodeAll, CellsInv, WakeInv;
  }

  lemma EndsAfter(told: seq<Signal>)
    ensures EndsWith(told + [Start], [Start])
    ensures EndsWith(told, [Start]) ==> EndsWith(told + [Stop], [Start, Stop])
  {
    if EndsWith(told, [Start]) {
      assert told[|told| - 1..][0] == Start;
    }
  }

  lemma ServerCellPrompted(server: Endpoint, c: Cell, told: seq<Signal>)
    requires Inv(server) && !server.cfg.isClient && Acceptable(server, c) && CellRole(c, true)
    requires Prompted(told, server.d)
    ensures Prompted(told + Carried(c.flags), HandleCell(server, c).d)
  {
    hide Inv, HandleCell, Acceptable, Carried, EndsWith;
    CarriedByRole(c, true);
    ServerCellDefense(server, c);
    EndsAfter(told);
    if !c.flags.start && !c.flags.stop {
      assert told + [] == told;
    }
  }

  lemma Unchanged(a: Endpoint, b: Endpoint, h: nat)
    requires h <= |a.tx.retired| && Extends(a, b) && Announced(b) == Announced(a)
    ensures h <= |b.tx.retired| && Flight(b, h) == Flight(a, h)
  {
    assert Announced(a) + [] == Announced(a);
    assert Flight(a, h) + [] == Flight(a, h);
    FlightGrows(a, b, h, []);
  }

  lemma ViewDepends(v: View, w: View, arms: nat, reports: nat)
    requires ViewInv(v, arms, reports)
    requires v.W == w.W && v.G == w.G && SameSession(v.client, w.client) && SameSession(v.server, w.server)
    ensures ViewInv(w, arms, reports)
  {
  }

  lemma ServerTicks(v: View, w: View, server: Endpoint, timeUp: bool, arms: nat, reports: nat)
    requires ViewInv(v, arms, reports) && Inv(server) && !server.cfg.isClient
    requires v.server == server.d && server.d.state.Active?
    requires w.client == v.client && w.W == v.W && w.G == v.G + TickSignals(server, timeUp)
    requires if TickSignals(server, timeUp) == [] then SameSession(v.server, w.server)
             else w.server.state.Inactive? && !w.server.stopRequested
    ensures ViewInv(w, arms, reports)
  {
    assert v.G == [];
  }

  // ---------- events of the client ----------

  lemma ViewAfterClientEvent(sys: System, e: Event)
    requires SystemInv(sys) && May(sys.client, e)
    ensures Checks(sys.client, e)
    ensures Extends(sys.client, Apply(sys.client, e))
    ensures ViewInv(ViewOf(Apply(sys.client, e), sys.server, Handled(sys.client), Handled(sys.server)),
                    sys.arms + if e.OnArm? then 1 else 0, Apply(sys.client, e).reports)
  {
    hide SenderInv, EncodeAll, Announced, Legal, Answered, Prompted, Pump, Tick, Writable, RequestStop, Arm;
    var client, hs := sys.client, Handled(sys.server);
    ChecksHold(client, e);
    ApplyExtends(client, e);
    var r := Apply(client, e);
    var v, w := ViewOf(client, sys.server, Handled(sys.client), hs), ViewOf(r, sys.server, Handled(sys.client), hs);
    match e
    case OnPump(data) =>
      PumpKeepsSignals(client, data);
      PumpSameSession(client, data);
      Unchanged(client, r, hs);
      ViewDepends(v, w, sys.arms, client.reports);
    case OnTick(timeUp, data, accept) =>
      TickSignalsOnly(client, timeUp, data, accept);
      TickOutcome(client, timeUp, data, accept);
      assert Announced(client) + [] == Announced(client);
      Unchanged(client, r, hs);
      ClientTicks(v, w, client, timeUp, sys.arms, r.reports);
    case OnWritable(accept) =>
      WritableKeepsSignals(client, accept);
      WritableKeeps(client, accept);
      Unchanged(client, r, hs);
      ClientWrites(v, w, client, accept, sys.arms);
    case OnArm =>
      ArmAnnounces(client);
      FlightGrows(client, r, hs, [Start]);
      ClientArms(v, w, client, sys.arms);
    case OnStop =>
      ClientStops(v, w, client, hs, sys.arms);
  }

  lemma ClientTicks(v: View, w: View, client: Endpoint, timeUp: bool, arms: nat, reports: nat)
    requires Inv(client) && client.cfg.isClient && v.client == client.d && MayTick(client, timeUp)
    requires ViewInv(v, arms, client.reports)
    requires w.server == v.server && w.W == v.W && w.G == v.G
    requires
      if client.d.IsDoneDefendingSend(client.cfg.L) then
        && w.client.state.Inactive? && w.client.doneDefendingRecv == client.d.doneDefendingRecv
        && reports == client.reports + (if client.d.doneDefendingRecv then 1 else 0)
      else SameSession(v.client, w.client) && reports == client.reports
    ensures ViewInv(w, arms, reports)
  {
  }

  lemma ClientWrites(v: View, w: View, client: Endpoint, accept: nat, arms: nat)
    requires Inv(client) && MayWrite(client) && v.client == client.d
    requires TxOk(client) && (client.d.state.Pending? || client.d.state.Active? ==> Waiting(client) >= client.cfg.cellSize)
    requires ViewInv(v, arms, client.reports)
    requires w == v.(client := Writable(client, accept).d)
    ensures ViewInv(w, arms, Writable(client, accept).reports)
  {
  }

  lemma ClientArms(v: View, w: View, client: Endpoint, arms: nat)
    requires Inv(client) && MayArm(client) && v.client == client.d
    requires ViewInv(v, arms, client.reports)
    requires w == v.(client := Arm(client).d, W := v.W + [Start])
    ensures ViewInv(w, arms + 1, Arm(client).reports)
  {
    hide SenderInv, EncodeAll, CellsInv;
    assert v.W == [];
  }

  lemma ArmAnnounces(client: Endpoint)
    requires Inv(client) && MayArm(client)
    ensures Announced(Arm(client)) == Announced(client) + [Start]
  {
    OwedStarts(client.d);
    OwedDepends(Arm(client).d, client.d.(needStart := true));
    assert Owed(client.d) == [];
  }

  /** A stop request replaces a START that is still owed, and otherwise comes after it. */
  lemma StopInFlight(client: Endpoint, hs: nat)
    requires Inv(client) && client.cfg.isClient && MayStop(client) && hs <= |client.tx.retired|
    requires client.d.state.Active? && |Flight(client, hs)| <= 1
    ensures Flight(RequestStop(client), hs) == if client.d.needStart then [Stop] else Flight(client, hs) + [Stop]
    ensures client.d.needStart ==> Flight(client, hs) == [Start]
  {
    hide SenderInv, EncodeAll, CellsInv, WakeInv, Carried, SignalsIn;
    var sent := SignalsIn(client.tx.retired[hs..]) + SignalsIn(client.tx.queue);
    StopOwes(client);
    assert Flight(client, hs) == sent + Owed(client.d);
    assert Flight(RequestStop(client), hs) == sent + [Stop];
    if client.d.needStart {
      assert |sent + [Start]| <= 1;
      assert sent == [];
    } else {
      assert sent + [] == sent;
    }
  }

  lemma StopKeepsLegal(v: View, w: View, client: Endpoint, arms: nat)
    requires Inv(client) && client.cfg.isClient && MayStop(client) && client.d.state.Active?
    requires v.client == client.d && ViewInv(v, arms, client.reports)
    requires w == v.(client := RequestStop(client).d, W := if client.d.needStart then [Stop] else v.W + [Stop])
    requires client.d.needStart ==> v.W == [Start]
    ensures ViewInv(w, arms, RequestStop(client).reports)
  {
    hide SenderInv, EncodeAll, CellsInv, WakeInv;
  }

  lemma ActiveFlight(v: View, arms: nat, reports: nat)
    requires ViewInv(v, arms, reports) && v.client.state.Active? && !v.client.stopRequested
    ensures |v.W| <= 1
  {
  }

  lemma ClientStops(v: View, w: View, client: Endpoint, hs: nat, arms: nat)
    requires Inv(client) && client.cfg.isClient && MayStop(client) && hs <= |client.tx.retired|
    requires v.client == client.d && v.W == Flight(client, hs)
    requires ViewInv(v, arms, client.reports)
    requires w == v.(client := RequestStop(client).d, W := Flight(RequestStop(client), hs))
    ensures ViewInv(w, arms, RequestStop(client).reports)
  {
    hide Inv, ViewInv, Flight;
    if client.d.state.Active? {
      ActiveFlight(v, arms, client.reports);
      StopInFlight(client, hs);
      StopKeepsLegal(v, w, client, arms);
    } else {
      RequestStopKeeps(client);
      InactiveOrPending(client);
      assert w == v;
    }
  }

  lemma InactiveOrPending(client: Endpoint)
    requires MayStop(client) && !client.d.state.Active?
    ensures client.d.state.Inactive?
  {
  }

  lemma StopOwes(client: Endpoint)
    requires Inv(client) && client.cfg.isClient && MayStop(client) && client.d.state.Active?
    ensures Owed(client.d) == if client.d.needStart then [Start] else []
    ensures Owed(RequestStop(client).d) == [Stop]
  {
  }

  // ---------- what the client was told last ----------

  lemma AnsweredDepends(v: View, w: View, told: seq<Signal>)
    requires Answered(v, told) && v.W == w.W && v.G == w.G
    requires SameSession(v.client, w.client) && SameSession(v.server, w.server)
    requires w.client.needStart ==> v.client.needStart
    ensures Answered(w, told)
  {
  }

  lemma ServerEventAnswers(sys: System, e: Event)
    requires SystemInv(sys) && May(sys.server, e)
    ensures Checks(sys.server, e) && Extends(sys.server, Apply(sys.server, e))
    ensures Answered(ViewOf(sys.client, Apply(sys.server, e), Handled(sys.client), Handled(sys.server)),
                     sys.client.rx.told)
  {
    hide SenderInv, EncodeAll, Announced, Answered, Pump, Tick, Writable;
    var server, hc := sys.server, Handled(sys.client);
    ChecksHold(server, e);
    ApplyExtends(server, e);
    var r := Apply(server, e);
    var v, w := ViewOf(sys.client, server, hc, Handled(sys.server)), ViewOf(sys.client, r, hc, Handled(sys.server));
    match e
    case OnPump(data) =>
      PumpKeepsSignals(server, data);
      PumpSameSession(server, data);
      Unchanged(server, r, hc);
      AnsweredDepends(v, w, sys.client.rx.told);
    case OnTick(timeUp, data, accept) =>
      TickSignalsOnly(server, timeUp, data, accept);
      TickOutcome(server, timeUp, data, accept);
      FlightGrows(server, r, hc, TickSignals(server, timeUp));
      ServerTickAnswers(v, w, server, timeUp, sys.arms, sys.client.reports, sys.client.rx.told);
    case OnWritable(accept) =>
      WritableKeepsSignals(server, accept);
      WritableKeeps(server, accept);
      ServerWrites(server, accept);
      Unchanged(server, r, hc);
      AnsweredDepends(v, w, sys.client.rx.told);
    case OnArm =>
    case OnStop =>
  }

  lemma ServerWrites(server: Endpoint, accept: nat)
    requires Inv(server) && !server.cfg.isClient && MayWrite(server)
    requires TxOk(server) && !server.d.state.Active? && (server.d.state.Pending? ==> Waiting(server) >= server.cfg.cellSize)
    ensures SameSession(server.d, Writable(server, accept).d)
  {
    hide SenderInv, EncodeAll;
  }

  lemma ServerTickAnswers(v: View, w: View, server: Endpoint, timeUp: bool, arms: nat, reports: nat, told: seq<Signal>)
    requires ViewInv(v, arms, reports) && Answered(v, told) && ValidConfig(server.cfg) && !server.cfg.isClient
    requires v.server == server.d && server.d.state.Active?
    requires w.client == v.client && w.W == v.W && w.G == v.G + TickSignals(server, timeUp)
    requires if TickSignals(server, timeUp) == [] then SameSession(v.server, w.server)
             else w.server.state.Inactive? && !w.server.stopRequested
    ensures Answered(w, told)
  {
    assert v.G == [];
    if TickSignals(server, timeUp) == [] {
      AnsweredDepends(v, w, told);
    }
  }

  lemma ClientEventAnswers(sys: System, e: Event)
    requires SystemInv(sys) && May(sys.client, e)
    ensures Checks(sys.client, e) && Extends(sys.client, Apply(sys.client, e))
    ensures Answered(ViewOf(Apply(sys.client, e), sys.server, Handled(sys.client), Handled(sys.server)),
                     sys.client.rx.told)
  {
    hide SenderInv, EncodeAll, Announced, Answered, Legal, Pump, Tick, Writable, RequestStop, Arm;
    var client, hs, told := sys.client, Handled(sys.server), sys.client.rx.told;
    ChecksHold(client, e);
    ApplyExtends(client, e);
    var r := Apply(client, e);
    var v, w := ViewOf(client, sys.server, Handled(sys.client), hs), ViewOf(r, sys.server, Handled(sys.client), hs);
    match e
    case OnPump(data) =>
      PumpKeepsSignals(client, data);
      PumpSameSession(client, data);
      PumpOwesNoMore(client, data);
      Unchanged(client, r, hs);
      AnsweredDepends(v, w, told);
    case OnTick(timeUp, data, accept) =>
      TickSignalsOnly(client, timeUp, data, accept);
      TickOutcome(client, timeUp, data, accept);
      TickOwesNoMore(client, timeUp, data, accept);
      assert Announced(client) + [] == Announced(client);
      Unchanged(client, r, hs);
      ClientTickAnswers(v, w, client, sys.arms, told);
    case OnWritable(accept) =>
      WritableKeepsSignals(client, accept);
      WritableKeeps(client, accept);
      Unchanged(client, r, hs);
      ClientWriteAnswers(v, w, client, accept, sys.arms, told);
    case OnArm =>
      ArmAnswers(w, client, told);
    case OnStop =>
      StopAnswers(v, w, client, hs, sys.arms, told);
  }

  lemma PumpOwesNoMore(ep: Endpoint, data: seq<byte>)
    requires Inv(ep) && MayPump(ep, data)
    ensures Pump(ep, data).d.needStart ==> ep.d.needStart
  {
    hide SenderInv, EncodeAll, CellsInv;
    ProduceKeeps(ep.tx, data, ep.cfg.cellSize);
    if ep.d.state.Inactive? {
      PumpInactiveEffect(ep, data);
    }
  }

  lemma TickOwesNoMore(ep: Endpoint, timeUp: bool, data: seq<byte>, accept: nat)
    requires Inv(ep) && MayTick(ep, timeUp)
    ensures Tick(ep, timeUp, data, accept).d.needStart ==> ep.d.needStart
  {
    hide SenderInv, EncodeAll, FlushControl, Refill;
    if ep.d.IsDoneDefendingSend(ep.cfg.L) {
      FlushControlEffect(Finishing(ep), data);
    } else if timeUp {
      FlushControlEffect(AutoStopping(ep), data);
    } else {
      RefillEffect(ep);
    }
  }

  lemma ClientTickAnswers(v: View, w: View, client: Endpoint, arms: nat, told: seq<Signal>)
    requires Inv(client) && client.cfg.isClient && v.client == client.d && client.d.state.Active?
    requires ViewInv(v, arms, client.reports) && Answered(v, told)
    requires w.server == v.server && w.W == v.W && w.G == v.G
    requires w.client.needStart ==> v.client.needStart
    requires
      if client.d.IsDoneDefendingSend(client.cfg.L) then
        w.client.state.Inactive? && w.client.doneDefendingRecv == client.d.doneDefendingRecv
      else SameSession(v.client, w.client)
    ensures Answered(w, told)
  {
    hide SenderInv, EncodeAll, CellsInv;
  }

  lemma ClientWriteAnswers(v: View, w: View, client: Endpoint, accept: nat, arms: nat, told: seq<Signal>)
    requires Inv(client) && MayWrite(client) && v.client == client.d && !client.d.state.Active?
    requires TxOk(client) && (client.d.state.Pending? ==> Waiting(client) >= client.cfg.cellSize)
    requires ViewInv(v, arms, client.reports) && Answered(v, told)
    requires w == v.(client := Writable(client, accept).d)
    ensures Answered(w, told)
  {
    hide SenderInv, EncodeAll, CellsInv;
    SenderParts(client.tx, client.cfg.cellSize);
    OutLenNatural(client.tx, client.cfg.cellSize);
  }

  lemma ArmAnswers(w: View, client: Endpoint, told: seq<Signal>)
    requires w.client == Arm(client).d
    ensures Answered(w, told)
  {
  }

  lemma StopLegalAnswers(v: View, w: View, client: Endpoint, arms: nat, told: seq<Signal>)
    requires Inv(client) && client.cfg.isClient && MayStop(client) && client.d.state.Active?
    requires v.client == client.d && ViewInv(v, arms, client.reports) && Answered(v, told)
    requires w == v.(client := RequestStop(client).d, W := if client.d.needStart then [Stop] else v.W + [Stop])
    requires client.d.needStart ==> v.W == [Start]
    ensures Answered(w, told)
  {
    hide SenderInv, EncodeAll, CellsInv, WakeInv;
  }

  lemma StopAnswers(v: View, w: View, client: Endpoint, hs: nat, arms: nat, told: seq<Signal>)
    requires Inv(client) && client.cfg.isClient && MayStop(client) && hs <= |client.tx.retired|
    requires v.client == client.d && v.W == Flight(client, hs)
    requires ViewInv(v, arms, client.reports) && Answered(v, told)
    requires w == v.(client := RequestStop(client).d, W := Flight(RequestStop(client), hs))
    ensures Answered(w, told)
  {
    hide Inv, ViewInv, Flight, Answered;
    if client.d.state.Active? {
      ActiveFlight(v, arms, client.reports);
      StopInFlight(client, hs);
      StopLegalAnswers(v, w, client, arms, told);
    } else {
      RequestStopKeeps(client);
      InactiveOrPending(client);
      assert w == v;
    }
  }

  lemma ServerCellAnswers(server: Endpoint, v: View, c: Cell, rest: seq<Signal>, arms: nat, reports: nat, told: seq<Signal>)
    requires Inv(server) && Acceptable(server, c)
    requires CellRole(c, true) && !server.cfg.isClient && v.server == server.d
    requires ViewInv(v, arms, reports) && v.W == Carried(c.flags) + rest && Answered(v, told)
    ensures Answered(v.(W := rest, server := HandleCell(server, c).d), told)
  {
    hide SenderInv, EncodeAll, CellsInv;
    CarriedByRole(c, true);
    if c.flags.start {
      FirstIs(v.W, Start, rest);
    } else if c.flags.stop {
      FirstIs(v.W, Stop, rest);
    } else {
      assert rest == v.W;
    }
  }

  lemma AutoStoppedAnswers(client: Endpoint, v: View, c: Cell, rest: seq<Signal>, arms: nat)
    requires Inv(client) && Acceptable(client, c) && c.flags.autoStopped
    requires CellRole(c, false) && client.cfg.isClient && v.client == client.d
    requires ViewInv(v, arms, client.reports) && v.G == [AutoStopped] + rest
    ensures Answered(v.(G := rest, client := HandleCell(client, c).d, W := v.W + Reaction(client, c)),
                     client.rx.told + [AutoStopped])
  {
    hide SenderInv, EncodeAll, CellsInv;
    FirstIs(v.G, AutoStopped, rest);
  }

  lemma DoneAnswers(client: Endpoint, v: View, c: Cell, rest: seq<Signal>, arms: nat)
    requires Inv(client) && Acceptable(client, c) && c.flags.done
    requires CellRole(c, false) && client.cfg.isClient && v.client == client.d
    requires ViewInv(v, arms, client.reports) && v.G == [Done] + rest
    ensures Answered(v.(G := rest, client := HandleCell(client, c).d), client.rx.told + [Done])
  {
    hide SenderInv, EncodeAll, CellsInv;
    FirstIs(v.G, Done, rest);
  }

  lemma PlainAnswers(client: Endpoint, v: View, c: Cell)
    requires Acceptable(client, c) && !c.flags.done && !c.flags.autoStopped
    requires client.cfg.isClient && v.client == client.d && Answered(v, client.rx.told)
    ensures Answered(v.(client := HandleCell(client, c).d), client.rx.told)
  {
    AnsweredDepends(v, v.(client := HandleCell(client, c).d), client.rx.told);
  }

  lemma ClientCellAnswers(client: Endpoint, v: View, c: Cell, rest: seq<Signal>, arms: nat)
    requires Inv(client) && Acceptable(client, c)
    requires CellRole(c, false) && client.cfg.isClient && v.client == client.d
    requires ViewInv(v, arms, client.reports) && v.G == Carried(c.flags) + rest && Answered(v, client.rx.told)
    ensures Answered(v.(G := rest, client := HandleCell(client, c).d, W := v.W + Reaction(client, c)),
                     client.rx.told + Carried(c.flags))
  {
    hide Inv, Answered, Legal, HandleCell, Acceptable;
    CarriedByRole(c, false);
    if c.flags.autoStopped {
      AutoStoppedAnswers(client, v, c, rest, arms);
    } else {
      assert v.W + Reaction(client, c) == v.W;
      if c.flags.done {
        DoneAnswers(client, v, c, rest, arms);
      } else {
        assert rest == v.G && client.rx.told + [] == client.rx.told;
        PlainAnswers(client, v, c);
      }
    }
  }

  // ---------- reading ----------

  /** While a session is only pending, its START has not been sent. */
  lemma PendingHoldsStart(client: Endpoint, hs: nat)
    requires Inv(client) && client.d.state.Pending? && hs < |client.tx.retired|
    requires Flight(client, hs) == [Start]
    ensures Carried(client.tx.retired[hs].flags) == []
  {
    var first := Carried(client.tx.retired[hs].flags);
    FlightHead(client, hs);
    PendingFlight(client, hs + 1);
    LastOf(first, Flight(client, hs + 1));
  }

  lemma LastOf(a: seq<Signal>, b: seq<Signal>)
    requires |b| >= 1 && |a + b| == 1
    ensures a == []
  {
  }

  lemma PendingFlight(client: Endpoint, h: nat)
    requires Inv(client) && client.d.state.Pending? && h <= |client.tx.retired|
    ensures |Flight(client, h)| >= 1
  {
    hide SenderInv, EncodeAll, CellsInv, WakeInv, SignalsIn, Carried;
    if client.d.numDataCellsAdded == 1 {
      StartQueued(client);
    } else {
      StartOwed(client.d);
    }
  }

  lemma StartQueued(client: Endpoint)
    requires |client.tx.queue| == 1 && client.tx.queue[0].flags.start
    ensures |SignalsIn(client.tx.queue)| >= 1
  {
    hide Carried;
    var c := client.tx.queue[0];
    assert client.tx.queue == [] + [c];
    SignalsOne([], c);
    StartCarried(c.flags);
  }

  lemma StartCarried(f: Flags)
    requires f.start
    ensures |Carried(f)| >= 1
  {
    assert Carried(f)[0] == Start;
  }

  lemma StartOwed(d: Defense)
    requires d.needStart
    ensures |Owed(d)| >= 1
  {
    hide Carried;
    StartCarried(d.NextFlags());
  }

  /** One cell, server side: no check trips and the pair stays legal. */
  lemma ServerTakesCell(client: Endpoint, server: Endpoint, arms: nat, hc: nat, hs: nat)
    requires PairInv(client, server, arms, hc, hs) && |server.rx.inbuf| >= client.cfg.cellSize
    ensures hs < |client.tx.retired|
    ensures Decode(server.rx.inbuf[..client.cfg.cellSize]) == Good(client.tx.retired[hs])
    ensures Acceptable(server, client.tx.retired[hs])
    ensures PairInv(client, AfterCell(server, client.tx.retired[hs]), arms, hc, hs + 1)
  {
    NextCell(client, server.rx, hs);
    CellHandled(client, server, hs);
    var c, v := client.tx.retired[hs], ViewOf(client, server, hc, hs);
    var r := AfterCell(server, c);
    FlightHead(client, hs);
    ServerAccepts(server, v, c, Flight(client, hs + 1));
    if client.d.state.Pending? {
      PendingHoldsStart(client, hs);
    }
    ServerHandles(server, v, c, Flight(client, hs + 1), arms, client.reports);
    HandleCellKeeps(server, c);
    ReceiverIrrelevant(HandleCell(server, c), r.rx);
    HandleCellAnnounces(server, c);
    AfterCellSilent(server, c);
    ServerCellPrompted(server, c, server.rx.told);
    ServerCellAnswers(server, v, c, Flight(client, hs + 1), arms, client.reports, client.rx.told);
    assert Announced(server) + [] == Announced(server);
    Unchanged(server, r, hc);
    LinkExtends(server, r, client.rx, hc);
  }

  lemma AfterCellSilent(ep: Endpoint, c: Cell)
    requires ep.cfg.peerCellSize <= |ep.rx.inbuf|
    ensures AfterCell(ep, c).tx == ep.tx && AfterCell(ep, c).d == HandleCell(ep, c).d
    ensures AfterCell(ep, c).reports == HandleCell(ep, c).reports
    ensures AfterCell(ep, c).rx.told == ep.rx.told + Carried(c.flags)
    ensures Announced(AfterCell(ep, c)) == Announced(HandleCell(ep, c))
    ensures Extends(ep, AfterCell(ep, c))
  {
    HandleCellReceives(ep, c);
  }

  lemma ClientTakesCell(client: Endpoint, server: Endpoint, arms: nat, hc: nat, hs: nat)
    requires PairInv(client, server, arms, hc, hs) && |client.rx.inbuf| >= server.cfg.cellSize
    ensures hc < |server.tx.retired|
    ensures Decode(client.rx.inbuf[..server.cfg.cellSize]) == Good(server.tx.retired[hc])
    ensures Acceptable(client, server.tx.retired[hc])
    ensures PairInv(AfterCell(client, server.tx.retired[hc]), server, arms, hc + 1, hs)
  {
    NextCell(server, client.rx, hc);
    CellHandled(server, client, hc);
    var c, v := server.tx.retired[hc], ViewOf(client, server, hc, hs);
    var r := AfterCell(client, c);
    FlightHead(server, hc);
    OwedInFlight(client, hs);
    ClientAccepts(client, v, c, Flight(server, hc + 1));
    ClientHandles(client, v, c, Flight(server, hc + 1), arms);
    HandleCellKeeps(client, c);
    ReceiverIrrelevant(HandleCell(client, c), r.rx);
    HandleCellAnnounces(client, c);
    AfterCellSilent(client, c);
    FlightGrows(client, r, hs, Reaction(client, c));
    ClientCellAnswers(client, v, c, Flight(server, hc + 1), arms);
    LinkExtends(client, r, server.rx, hs);
  }

  lemma OwedInFlight(client: Endpoint, hs: nat)
    requires hs <= |client.tx.retired|
    ensures client.d.needStart ==> Flight(client, hs) != []
  {
    if client.d.needStart {
      assert Start in Owed(client.d);
    }
  }

  lemma {:induction false} ServerReads(client: Endpoint, server: Endpoint, arms: nat, hc: nat, hs: nat) returns (h: nat)
    requires PairInv(client, server, arms, hc, hs)
    ensures Consumable(server)
    ensures PairInv(client, ReadCells(server), arms, hc, h)
    decreases |server.rx.inbuf|
  {
    h := hs;
    if |server.rx.inbuf| >= client.cfg.cellSize {
      ServerTakesCell(client, server, arms, hc, hs);
      h := ServerReads(client, AfterCell(server, client.tx.retired[hs]), arms, hc, hs + 1);
    }
  }

  lemma {:induction false} ClientReads(client: Endpoint, server: Endpoint, arms: nat, hc: nat, hs: nat) returns (h: nat)
    requires PairInv(client, server, arms, hc, hs)
    ensures Consumable(client)
    ensures PairInv(ReadCells(client), server, arms, h, hs)
    decreases |client.rx.inbuf|
  {
    h := hc;
    if |client.rx.inbuf| >= server.cfg.cellSize {
      ClientTakesCell(client, server, arms, hc, hs);
      h := ClientReads(AfterCell(client, server.tx.retired[hc]), server, arms, hc + 1, hs);
    }
  }

  // ---------- every step, every run ----------

  lemma ReadCellsKeepsConfig(ep: Endpoint)
    requires ValidConfig(ep.cfg) && Consumable(ep)
    ensures ReadCells(ep).cfg == ep.cfg && |ReadCells(ep).rx.inbuf| < ep.cfg.peerCellSize
  {
  }

  /** An end that has read everything it can has handled the cells its byte count says. */
  lemma AtRest(from: Endpoint, to: Endpoint, h: nat)
    requires ValidConfig(to.cfg) && to.cfg.peerCellSize == from.cfg.cellSize
    requires LinkAt(from, to.rx, h) && |to.rx.inbuf| < to.cfg.peerCellSize
    ensures Handled(to) == h
  {
    HandledUnique(to, h);
  }

  lemma ServerStepKeeps(sys: System, n: nat)
    requires SystemInv(sys) && MayStep(sys, ToServer(n))
    ensures StepChecks(sys, ToServer(n)) && SystemInv(Next(sys, ToServer(n)))
  {
    hide Inv;
    var before := Arriving(sys.client, sys.server, n);
    BytesArrive(sys.client, sys.server, Handled(sys.server), n);
    ReceiverIrrelevant(sys.server, before.rx);
    ServerBuffered(sys, n);
    var h := ServerReads(sys.client, before, sys.arms, Handled(sys.client), Handled(sys.server));
    ReadCellsKeepsConfig(before);
    AtRest(sys.client, ReadCells(before), h);
  }

  lemma ServerBuffered(sys: System, n: nat)
    requires SystemInv(sys) && MayStep(sys, ToServer(n))
    requires Inv(Arriving(sys.client, sys.server, n))
    requires LinkAt(sys.client, Arriving(sys.client, sys.server, n).rx, Handled(sys.server))
    ensures PairInv(sys.client, Arriving(sys.client, sys.server, n), sys.arms, Handled(sys.client), Handled(sys.server))
  {
    var before := Arriving(sys.client, sys.server, n);
    Unchanged(sys.server, before, Handled(sys.client));
    LinkExtends(sys.server, before, sys.client.rx, Handled(sys.client));
  }

  lemma ClientStepKeeps(sys: System, n: nat)
    requires SystemInv(sys) && MayStep(sys, ToClient(n))
    ensures StepChecks(sys, ToClient(n)) && SystemInv(Next(sys, ToClient(n)))
  {
    hide Inv;
    var before := Arriving(sys.server, sys.client, n);
    BytesArrive(sys.server, sys.client, Handled(sys.client), n);
    ReceiverIrrelevant(sys.client, before.rx);
    ClientBuffered(sys, n);
    var h := ClientReads(before, sys.server, sys.arms, Handled(sys.client), Handled(sys.server));
    ReadCellsKeepsConfig(before);
    AtRest(sys.server, ReadCells(before), h);
  }

  lemma ClientBuffered(sys: System, n: nat)
    requires SystemInv(sys) && MayStep(sys, ToClient(n))
    requires Inv(Arriving(sys.server, sys.client, n))
    requires LinkAt(sys.server, Arriving(sys.server, sys.client, n).rx, Handled(sys.client))
    ensures PairInv(Arriving(sys.server, sys.client, n), sys.server, sys.arms, Handled(sys.client), Handled(sys.server))
  {
    var before := Arriving(sys.server, sys.client, n);
    Unchanged(sys.client, before, Handled(sys.server));
    LinkExtends(sys.client, before, sys.server.rx, Handled(sys.server));
  }

  lemma ClientEventKeeps(sys: System, e: Event)
    requires SystemInv(sys) && May(sys.client, e)
    ensures Checks(sys.client, e) && SystemInv(Next(sys, AtClient(e)))
  {
    hide Inv, LinkAt, ViewInv, Answered, Prompted, Apply, Checks, ViewOf, Extends;
    ApplyKeeps(sys.client, e);
    ApplyExtends(sys.client, e);
    ViewAfterClientEvent(sys, e);
    ClientEventAnswers(sys, e);
    LinkExtends(sys.client, Apply(sys.client, e), sys.server.rx, Handled(sys.server));
  }

  lemma ServerEventKeeps(sys: System, e: Event)
    requires SystemInv(sys) && May(sys.server, e)
    ensures Checks(sys.server, e) && SystemInv(Next(sys, AtServer(e)))
  {
    hide Inv, LinkAt, ViewInv, Answered, Prompted, Apply, Checks, ViewOf, Extends;
    ApplyKeeps(sys.server, e);
    ApplyExtends(sys.server, e);
    ViewAfterServerEvent(sys, e);
    ServerEventPrompted(sys.server, e, sys.server.rx.told);
    ServerEventAnswers(sys, e);
    LinkExtends(sys.server, Apply(sys.server, e), sys.client.rx, Handled(sys.client));
  }

  lemma StepKeeps(sys: System, step: Step)
    requires SystemInv(sys) && MayStep(sys, step)
    ensures StepChecks(sys, step) && SystemInv(Next(sys, step))
  {
    match step
    case AtClient(e) => ClientEventKeeps(sys, e);
    case AtServer(e) => ServerEventKeeps(sys, e);
    case ToServer(n) => ServerStepKeeps(sys, n);
    case ToClient(n) => ClientStepKeeps(sys, n);
  }

  /** No run crashes, and the invariant holds at its end. */
  lemma {:induction false} RunsAreSafe(sys: System, steps: seq<Step>)
    requires SystemInv(sys) && Allowed(sys, steps)
    ensures Execute(sys, steps).Running? && SystemInv(Execute(sys, steps).sys)
    decreases |steps|
  {
    if steps != [] {
      StepKeeps(sys, steps[0]);
      RunsAreSafe(Next(sys, steps[0]), steps[1..]);
    }
  }
}
