/** Two runs of a client and a server, for every pair of matching configurations: a session that the
    server leaves at its time limit and nobody reports, and one that starts behind a long queue. */
module Runs {
  import opened Cells
  import opened SendQueue
  import opened Endpoint
  import opened EndpointInv
  import opened Signals
  import opened Protocol
  import opened Events
  import opened Link
  import opened TwoParty
  import opened Theorems
  import opened Sessions

  /** The steps lead from one state to the other. */
  predicate Leads(a: System, steps: seq<Step>, b: System)
    requires ConfigOk(a)
  {
    Allowed(a, steps) && Execute(a, steps) == Running(b)
  }

  /** A run goes on by one step. */
  lemma {:induction false} OneStep(a: System, steps: seq<Step>, b: System, step: Step)
    requires SystemInv(a) && Leads(a, steps, b) && SystemInv(b) && MayStep(b, step)
    ensures StepChecks(b, step) && SystemInv(Next(b, step))
    ensures Leads(a, steps + [step], Next(b, step))
    decreases |steps|
  {
    hide PairInv, MayStep, StepChecks, Next;
    StepKeeps(b, step);
    if steps == [] {
      assert [] + [step] == [step] && [step][0] == step && [step][1..] == [];
      assert Allowed(Next(b, step), []) && Execute(Next(b, step), []) == Running(Next(b, step));
    } else {
      StepKeeps(a, steps[0]);
      assert (steps + [step])[0] == steps[0] && (steps + [step])[1..] == steps[1..] + [step];
      OneStep(Next(a, steps[0]), steps[1..], b, step);
    }
  }

  // ---------- reading everything ----------

  /** An inactive end becomes active only by being told a START. */
  lemma {:induction false} ReadingWithoutStart(ep: Endpoint)
    requires ValidCellSize(ep.cfg.peerCellSize) && Consumable(ep) && ep.d.state.Inactive?
    ensures ep.rx.told <= ReadCells(ep).rx.told
    ensures ep.cfg.isClient || Start !in ReadCells(ep).rx.told[|ep.rx.told|..] ==> ReadCells(ep).d.state.Inactive?
    decreases |ep.rx.inbuf|
  {
    hide Decode, HandleCell, Acceptable, Carried;
    if |ep.rx.inbuf| >= ep.cfg.peerCellSize {
      var c := Decode(ep.rx.inbuf[..ep.cfg.peerCellSize]).cell;
      AfterCellSilent(ep, c);
      ReadingSilence(AfterCell(ep, c));
      if !c.flags.start {
        CellWithoutStart(ep, c);
        ReadingWithoutStart(AfterCell(ep, c));
        Suffixes(ep.rx.told, Carried(c.flags), ReadCells(ep).rx.told);
      } else {
        StartTold(ep, c);
        assert ReadCells(ep).rx.told[|ep.rx.told|..][..|Carried(c.flags)|] == Carried(c.flags);
      }
    }
  }

  lemma CellWithoutStart(ep: Endpoint, c: Cell)
    requires ep.d.state.Inactive? && !c.flags.start
    ensures HandleCell(ep, c).d.state.Inactive?
  {
    hide Carried;
  }

  lemma StartTold(ep: Endpoint, c: Cell)
    requires c.flags.start && Acceptable(ep, c)
    ensures Start in Carried(c.flags) && !ep.cfg.isClient
  {
    assert Carried(c.flags)[0] == Start;
  }

  lemma Suffixes(told: seq<Signal>, more: seq<Signal>, all: seq<Signal>)
    requires told + more <= all
    ensures forall x :: x in all[|told + more|..] ==> x in all[|told|..]
  {
    assert all[|told|..] == more + all[|told + more|..];
  }

  /** The receiver takes everything that has been written to it. */
  lemma DeliverToServer(a: System, steps: seq<Step>, b: System) returns (more: seq<Step>, c: System)
    requires SystemInv(a) && Leads(a, steps, b) && SystemInv(b)
    ensures Leads(a, more, c) && SystemInv(c)
    ensures c.client == b.client && c.arms == b.arms
    ensures c.server.tx == b.server.tx && c.server.cfg == b.server.cfg
    ensures CaughtUp(c.client, c.server)
    ensures b.server.d.state.Inactive? && Start !in Flight(b.client, Handled(b.server)) ==> c.server.d.state.Inactive?
  {
    hide Inv, ViewInv, Answered, Prompted, Consumable, ReadCells;
    var n := |b.client.tx.wire| - b.server.rx.allRecv;
    var step := ToServer(n);
    OneStep(a, steps, b, step);
    more, c := steps + [step], Next(b, step);
    ReadingSendsNothing(Arriving(b.client, b.server, n));
    ReadingCounts(Arriving(b.client, b.server, n));
    if b.server.d.state.Inactive? && Start !in Flight(b.client, Handled(b.server)) {
      ServerStaysInactive(b, n);
    }
  }

  lemma {:induction false} ReadingCounts(ep: Endpoint)
    requires ValidCellSize(ep.cfg.peerCellSize) && Consumable(ep)
    ensures ReadCells(ep).rx.allRecv == ep.rx.allRecv
    decreases |ep.rx.inbuf|
  {
    hide Decode, Acceptable;
    if |ep.rx.inbuf| >= ep.cfg.peerCellSize {
      var c := Decode(ep.rx.inbuf[..ep.cfg.peerCellSize]).cell;
      HandleCellReceives(ep, c);
      ReadingCounts(AfterCell(ep, c));
    }
  }

  lemma ServerStaysInactive(b: System, n: nat)
    requires SystemInv(b) && MayStep(b, ToServer(n)) && StepChecks(b, ToServer(n)) && SystemInv(Next(b, ToServer(n)))
    requires b.server.d.state.Inactive? && Start !in Flight(b.client, Handled(b.server))
    ensures Next(b, ToServer(n)).server.d.state.Inactive?
  {
    hide Inv, ViewInv, Answered, Prompted, Consumable, ReadCells, Flight, Announced;
    var c := Next(b, ToServer(n));
    InvParts(b.client);
    ReadingWithoutStart(Arriving(b.client, b.server, n));
    ToldIsPlaced(b.client, b.server, Handled(b.server));
    ToldIsPlaced(c.client, c.server, Handled(c.server));
    SuffixOfFlight(b.server.rx.told, c.server.rx.told, Flight(b.client, Handled(b.server)),
                   Flight(c.client, Handled(c.server)));
  }

  lemma SuffixOfFlight(told: seq<Signal>, more: seq<Signal>, flight: seq<Signal>, rest: seq<Signal>)
    requires told <= more && told + flight == more + rest && Start !in flight
    ensures Start !in more[|told|..]
  {
    assert flight == (more + rest)[|told|..];
    assert (more + rest)[|told|..] == more[|told|..] + rest;
  }

  // ---------- a session begins ----------

  lemma ClientArms(a: System, steps: seq<Step>, b: System) returns (more: seq<Step>, c: System)
    requires SystemInv(a) && Leads(a, steps, b) && SystemInv(b) && MayArm(b.client)
    ensures Leads(a, more, c) && SystemInv(c) && c.server == b.server
    ensures c.client == Arm(b.client)
  {
    hide PairInv;
    OneStep(a, steps, b, AtClient(OnArm));
    more, c := steps + [AtClient(OnArm)], Next(b, AtClient(OnArm));
  }

  lemma ClientPumps(a: System, steps: seq<Step>, b: System) returns (more: seq<Step>, c: System)
    requires SystemInv(a) && Leads(a, steps, b) && SystemInv(b)
    requires b.client.d.state.Pending? && b.client.d.numDataCellsAdded == 0
    ensures Leads(a, more, c) && SystemInv(c) && c.server == b.server
    ensures c.client.d.state.Pending? && Waiting(c.client) == c.client.cfg.cellSize
    ensures c.client.rx == b.client.rx && c.client.cfg == b.client.cfg
  {
    hide ViewInv, Answered, Prompted, LinkAt, SenderInv, EncodeAll, Pump;
    var e := OnPump([0]);
    OneStep(a, steps, b, AtClient(e));
    more, c := steps + [AtClient(e)], Next(b, AtClient(e));
    PumpPendingKeeps(b.client, [0]);
    PumpSameSession(b.client, [0]);
    PumpExtends(b.client, [0]);
  }

  lemma ClientWrites(a: System, steps: seq<Step>, b: System) returns (more: seq<Step>, c: System)
    requires SystemInv(a) && Leads(a, steps, b) && SystemInv(b)
    requires b.client.d.state.Pending? && Waiting(b.client) == b.client.cfg.cellSize
    ensures Leads(a, more, c) && SystemInv(c) && c.server == b.server
    ensures c.client.d.state.Active? && !c.client.d.stopRequested && c.client.tx.queue == []
    ensures c.client.rx == b.client.rx && c.client.cfg == b.client.cfg
  {
    hide ViewInv, Answered, Prompted, LinkAt, SenderInv, EncodeAll, Writable;
    var size := b.client.cfg.cellSize;
    var e := OnWritable(size);
    OneStep(a, steps, b, AtClient(e));
    more, c := steps + [AtClient(e)], Next(b, AtClient(e));
    AutoStartBelow(b.client, size);
    ApplyExtends(b.client, e);
    StartedUnstopped(b.client, size);
    SenderParts(c.client.tx, size);
    OutLenNatural(c.client.tx, size);
  }

  lemma StartedUnstopped(client: Endpoint, accept: nat)
    requires Inv(client) && client.d.state.Pending? && MayWrite(client) && Waiting(client) == client.cfg.cellSize
    ensures !Writable(client, accept).d.stopRequested
  {
    hide SenderInv, EncodeAll, CellsInv;
  }

  /** Everything the client has to tell is delivered once its queue is empty, the link is drained and no
      flag waits for a cell. */
  lemma NothingInFlight(from: Endpoint, to: Endpoint, h: nat)
    requires TxOk(from) && LinkAt(from, to.rx, h) && |to.rx.inbuf| < from.cfg.cellSize
    requires CaughtUp(from, to) && from.tx.queue == [] && Owed(from.d) == []
    ensures Flight(from, h) == []
  {
    hide SenderInv, EncodeAll;
    CaughtUpHandled(from, to, h);
    assert from.tx.retired[h..] == [];
  }

  /** A server owes its client nothing between two events, and an inactive client owes nothing either. */
  lemma OwesNothing(ep: Endpoint)
    requires Inv(ep) && (!ep.cfg.isClient || ep.d.state.Inactive?)
    ensures Owed(ep.d) == []
  {
    hide SenderInv, EncodeAll, CellsInv;
  }

  lemma ActiveOwesNothing(sys: System)
    requires SystemInv(sys) && sys.client.d.state.Active? && !sys.client.d.stopRequested
    requires !LastWord(sys.client.rx.told, AutoStopped)
    ensures Owed(sys.client.d) == []
  {
    hide SenderInv, EncodeAll, CellsInv, LinkAt, Flight, ViewInv;
  }

  lemma ArmMeansIdle(sys: System)
    requires SystemInv(sys) && MayArm(sys.client)
    ensures sys.server.d.state.Inactive? && !LastWord(sys.client.rx.told, AutoStopped)
    ensures Flight(sys.server, Handled(sys.client)) == [] && sys.client.d.numDataCellsAdded == 0
  {
    hide SenderInv, EncodeAll, CellsInv, LinkAt, Flight;
  }

  /** In a legal situation in which nothing is in flight and the client defends, so does the server. */
  lemma BothDefend(v: View, arms: nat, reports: nat)
    requires ViewInv(v, arms, reports) && v.W == [] && v.G == []
    requires v.client.state.Active? && !v.client.stopRequested
    ensures v.server.state.Active? && !v.server.stopRequested
  {
  }

  /** Arm, pump, write, deliver: both ends defend, and the server's queue is what it was. */
  lemma SessionBegins(a: System, steps: seq<Step>, b: System) returns (more: seq<Step>, c: System)
    requires SystemInv(a) && Leads(a, steps, b) && SystemInv(b) && MayArm(b.client)
    ensures Leads(a, more, c) && SystemInv(c)
    ensures c.client.d.state.Active? && !c.client.d.stopRequested
    ensures c.server.d.state.Active? && !c.server.d.stopRequested
    ensures c.server.tx == b.server.tx && c.server.cfg == b.server.cfg
    ensures !LastWord(c.client.rx.told, AutoStopped)
    ensures Flight(c.client, Handled(c.server)) == [] && Flight(c.server, Handled(c.client)) == []
  {
    hide PairInv, Arm, Flight;
    ArmMeansIdle(b);
    more, c := ClientArms(a, steps, b);
    ArmedIsPending(b.client);
    more, c := ClientPumps(a, more, c);
    more, c := ClientWrites(a, more, c);
    more, c := DeliverToServer(a, more, c);
    ServerJoins(b, c);
  }

  lemma ArmedIsPending(client: Endpoint)
    ensures Arm(client).d.state.Pending? && Arm(client).d.numDataCellsAdded == client.d.numDataCellsAdded
    ensures Arm(client).rx == client.rx && Arm(client).cfg == client.cfg
  {
  }

  lemma ServerJoins(b: System, c: System)
    requires SystemInv(b) && SystemInv(c) && MayArm(b.client)
    requires c.client.rx == b.client.rx && c.server.tx == b.server.tx && c.client.cfg == b.client.cfg
    requires c.client.d.state.Active? && !c.client.d.stopRequested && c.client.tx.queue == []
    requires CaughtUp(c.client, c.server)
    ensures c.server.d.state.Active? && !c.server.d.stopRequested
    ensures !LastWord(c.client.rx.told, AutoStopped)
    ensures Handled(c.server) <= |c.client.tx.retired| && Handled(c.client) <= |c.server.tx.retired|
    ensures Flight(c.client, Handled(c.server)) == [] && Flight(c.server, Handled(c.client)) == []
  {
    hide Inv, ViewInv, Answered, Prompted, LinkAt, Flight, Owed;
    ArmMeansIdle(b);
    ActiveOwesNothing(c);
    OwesNothing(b.server);
    OwesNothing(c.server);
    InvParts(c.client);
    HandledBounds(b);
    HandledBounds(c);
    NothingInFlight(c.client, c.server, Handled(c.server));
    SameFlight(b.server, c.server, Handled(c.client));
    BothDefend(ViewOf(c.client, c.server, Handled(c.client), Handled(c.server)), c.arms, c.client.reports);
  }

  // ---------- a session behind a long queue ----------

  /** n bytes, whatever they are. */
  function SomeBytes(n: nat): (s: seq<byte>)
    ensures |s| == n
  {
    seq(n, _ => PADDING)
  }

  lemma OneFullCell(ep: Endpoint)
    requires TxOk(ep) && |ep.tx.spdyOut| >= ep.cfg.cellSize - HEADER_SIZE && !ep.tx.droppable
    ensures
      var r := AddDataCell(ep);
      && |r.tx.spdyOut| == |ep.tx.spdyOut| - (ep.cfg.cellSize - HEADER_SIZE) && !r.tx.droppable
      && Waiting(r) == Waiting(ep) + ep.cfg.cellSize
  {
    hide EncodeAll, SenderInv;
    AddDataCellLength(ep);
  }

  lemma TwoFullCells(idle: Endpoint)
    requires Inv(idle) && idle.d.state.Inactive? && idle.tx == EMPTY
    ensures Waiting(Pump(idle, SomeBytes(2 * (idle.cfg.cellSize - HEADER_SIZE)))) == 2 * idle.cfg.cellSize
  {
    hide SenderInv, EncodeAll, AddDataCell;
    var data := SomeBytes(2 * (idle.cfg.cellSize - HEADER_SIZE));
    InvParts(idle);
    ProduceKeeps(idle.tx, data, idle.cfg.cellSize);
    var full := idle.(tx := Produce(idle.tx, data));
    assert full.tx.spdyOut == data;
    var one := AddDataCell(full);
    OneFullCell(full);
    var two := AddDataCell(one);
    OneFullCell(one);
    assert Flush(two) == two;
    assert Flush(one) == Flush(two);
    assert Flush(full) == Flush(one);
  }

  /** Before anything else happens SPDY has two cells' worth of output at the server. */
  lemma ServerHasOutput(client: Config, server: Config) returns (steps: seq<Step>, b: System)
    requires ValidPair(client, server)
    ensures SystemInv(Opened(client, server)) && Leads(Opened(client, server), steps, b) && SystemInv(b)
    ensures b.client == Initial(client) && b.server.cfg == server && Waiting(b.server) == 2 * server.cellSize
  {
    hide PairInv, Pump;
    var a := Opened(client, server);
    OpenedHolds(client, server);
    var data := SomeBytes(2 * (server.cellSize - HEADER_SIZE));
    var produce := AtServer(OnPump(data));
    MayPumpFirst(a, data);
    OneStep(a, [], a, produce);
    steps, b := [] + [produce], Next(a, produce);
    TwoFullCells(a.server);
  }

  lemma LeadsReached(client: Config, server: Config, steps: seq<Step>, c: System)
    requires ValidPair(client, server) && Leads(Opened(client, server), steps, c)
    ensures Run(client, server, steps) && Reached(client, server, steps) == c
  {
  }

  /** A server with two full cells in its queue is told to start: the source's comments say that a
      session never holds two full cells, and this one does. */
  lemma StartsBehindTwoCells(client: Config, server: Config) returns (steps: seq<Step>)
    requires ValidPair(client, server)
    ensures Run(client, server, steps)
    ensures
      var sys := Reached(client, server, steps);
      sys.server.d.state.Active? && Waiting(sys.server) == 2 * server.cellSize
  {
    hide SystemInv, Leads, Flight, MayArm, Initial;
    var more, b := ServerHasOutput(client, server);
    InitialMayArm(client);
    var c: System;
    steps, c := SessionBegins(Opened(client, server), more, b);
    LeadsReached(client, server, steps, c);
  }

  lemma MayPumpFirst(a: System, data: seq<byte>)
    requires SystemInv(a) && a.server == Initial(a.server.cfg)
    ensures MayStep(a, AtServer(OnPump(data))) && Inv(a.server)
  {
  }

  lemma InitialMayArm(cfg: Config)
    requires cfg.isClient
    ensures MayArm(Initial(cfg))
  {
  }

  // ---------- a session that nobody reports ----------

  /** The client's half of a stopping session ends after finitely many ticks. */
  lemma {:induction false} ClientFinishes(a: System, steps: seq<Step>, b: System) returns (more: seq<Step>, c: System)
    requires SystemInv(a) && Leads(a, steps, b) && SystemInv(b)
    requires b.client.d.state.Active? && b.client.d.stopRequested
    ensures Leads(a, more, c) && SystemInv(c) && c.server == b.server && c.client.rx == b.client.rx
    ensures c.client.d.state.Inactive? && c.client.cfg == b.client.cfg
    decreases Remaining(PublicOf(b.client))
  {
    hide ViewInv, Answered, Prompted, LinkAt, SenderInv, EncodeAll, Tick, CellsInv, Remaining;
    var e := OnTick(false, [], 0);
    OneStep(a, steps, b, AtClient(e));
    more, c := steps + [AtClient(e)], Next(b, AtClient(e));
    TickOutcome(b.client, false, [], 0);
    ApplyExtends(b.client, e);
    if !b.client.d.IsDoneDefendingSend(b.client.cfg.L) {
      TickVisible(b.client, false, [], 0);
      RemainingStep(PublicOf(b.client), 0);
      more, c := ClientFinishes(a, more, c);
    }
  }

  /** An inactive client writes all it has. */
  lemma ClientDrains(a: System, steps: seq<Step>, b: System) returns (more: seq<Step>, c: System)
    requires SystemInv(a) && Leads(a, steps, b) && SystemInv(b) && b.client.d.state.Inactive?
    ensures Leads(a, more, c) && SystemInv(c) && c.server == b.server && c.client.rx == b.client.rx
    ensures c.client.d.state.Inactive? && c.client.tx.queue == []
  {
    hide ViewInv, Answered, Prompted, LinkAt, SenderInv, EncodeAll, Writable, CellsInv;
    more, c := steps, b;
    if b.client.writeOn {
      var e := OnWritable(Waiting(b.client));
      OneStep(a, steps, b, AtClient(e));
      more, c := steps + [AtClient(e)], Next(b, AtClient(e));
      ApplyExtends(b.client, e);
      WritesDrain(b.client, Waiting(b.client));
      StaysInactive(b.client, Waiting(b.client));
    } else {
      SenderParts(b.client.tx, b.client.cfg.cellSize);
      OutLenNatural(b.client.tx, b.client.cfg.cellSize);
    }
  }

  lemma StaysInactive(ep: Endpoint, accept: nat)
    requires Inv(ep) && ep.d.state.Inactive? && MayWrite(ep)
    ensures TxOk(ep) && Writable(ep, accept).d == ep.d
  {
    hide SenderInv, EncodeAll, CellsInv;
  }

  lemma ServerDrains(a: System, steps: seq<Step>, b: System) returns (more: seq<Step>, c: System)
    requires SystemInv(a) && Leads(a, steps, b) && SystemInv(b) && b.server.d.state.Inactive?
    ensures Leads(a, more, c) && SystemInv(c) && c.client == b.client && c.server.rx == b.server.rx
    ensures c.server.d.state.Inactive? && c.server.tx.queue == [] && Announced(c.server) == Announced(b.server)
  {
    hide ViewInv, Answered, Prompted, LinkAt, SenderInv, EncodeAll, Writable, CellsInv, Announced;
    more, c := steps, b;
    if b.server.writeOn {
      var e := OnWritable(Waiting(b.server));
      OneStep(a, steps, b, AtServer(e));
      more, c := steps + [AtServer(e)], Next(b, AtServer(e));
      ApplyExtends(b.server, e);
      WritesDrain(b.server, Waiting(b.server));
      StaysInactive(b.server, Waiting(b.server));
      WritableKeepsSignals(b.server, Waiting(b.server));
    } else {
      SenderParts(b.server.tx, b.server.cfg.cellSize);
      OutLenNatural(b.server.tx, b.server.cfg.cellSize);
    }
  }

  lemma DeliverToClient(a: System, steps: seq<Step>, b: System) returns (more: seq<Step>, c: System)
    requires SystemInv(a) && Leads(a, steps, b) && SystemInv(b) && b.client.d.state.Inactive?
    ensures Leads(a, more, c) && SystemInv(c)
    ensures c.server == b.server && c.client.tx == b.client.tx
    ensures CaughtUp(c.server, c.client) && c.client.d.state.Inactive?
  {
    hide Inv, ViewInv, Answered, Prompted, Consumable, ReadCells;
    var n := |b.server.tx.wire| - b.client.rx.allRecv;
    OneStep(a, steps, b, ToClient(n));
    more, c := steps + [ToClient(n)], Next(b, ToClient(n));
    ReadingSendsNothing(Arriving(b.server, b.client, n));
    ReadingCounts(Arriving(b.server, b.client, n));
    ReadingWithoutStart(Arriving(b.server, b.client, n));
  }

  /** The server reaches its time limit in the middle of a session. */
  lemma ServerStopsItself(a: System, steps: seq<Step>, b: System) returns (more: seq<Step>, c: System)
    requires SystemInv(a) && Leads(a, steps, b) && SystemInv(b)
    requires b.server.d.state.Active? && !b.server.d.stopRequested
    ensures Leads(a, more, c) && SystemInv(c) && c.client == b.client
    ensures c.server.d.state.Inactive? && Announced(c.server) == Announced(b.server) + [AutoStopped]
  {
    hide ViewInv, Answered, Prompted, LinkAt, SenderInv, EncodeAll, Tick, CellsInv, Announced;
    var e := OnTick(true, [], 0);
    OneStep(a, steps, b, AtServer(e));
    more, c := steps + [AtServer(e)], Next(b, AtServer(e));
    TickOutcome(b.server, true, [], 0);
    TickSignalsOnly(b.server, true, [], 0);
  }

  lemma ClientAsksToStop(a: System, steps: seq<Step>, b: System) returns (more: seq<Step>, c: System)
    requires SystemInv(a) && Leads(a, steps, b) && SystemInv(b)
    requires b.client.d.state.Active? && !b.client.d.stopRequested
    ensures Leads(a, more, c) && SystemInv(c) && c.server == b.server && c.client.rx == b.client.rx
    ensures c.client.d.state.Active? && c.client.d.stopRequested
  {
    hide ViewInv, Answered, Prompted, LinkAt, SenderInv, EncodeAll, CellsInv;
    OneStep(a, steps, b, AtClient(OnStop));
    more, c := steps + [AtClient(OnStop)], Next(b, AtClient(OnStop));
  }

  /** While AUTO_STOPPED is on its way to a client that has stopped, no START is on its way back. */
  lemma NoStartWhileLeft(sys: System)
    requires SystemInv(sys) && sys.client.d.state.Inactive? && sys.server.d.state.Inactive?
    requires Handled(sys.client) <= |sys.server.tx.retired| && Flight(sys.server, Handled(sys.client)) == [AutoStopped]
    ensures Handled(sys.server) <= |sys.client.tx.retired| && Start !in Flight(sys.client, Handled(sys.server))
  {
    hide Inv, Answered, Prompted, Flight;
    HandledBounds(sys);
    assert Start !in [Stop] && Start !in [];
  }

  lemma LeftInFlight(b: System, c: System)
    requires SystemInv(b) && SystemInv(c) && c.client == b.client
    requires Announced(c.server) == Announced(b.server) + [AutoStopped]
    requires Handled(b.client) <= |b.server.tx.retired| && Flight(b.server, Handled(b.client)) == []
    ensures Handled(c.client) <= |c.server.tx.retired| && Flight(c.server, Handled(c.client)) == [AutoStopped]
    ensures LastWord(Announced(c.server), AutoStopped)
  {
    hide Inv, LinkAt, ViewInv, Answered, Prompted, Flight, Announced;
    HandledBounds(c);
    InvParts(b.server);
    InvParts(c.server);
    ToldIsPlaced(b.server, b.client, Handled(b.client));
    ToldIsPlaced(c.server, c.client, Handled(c.client));
    var told := b.client.rx.told;
    assert (told + [])[|told|..] == [];
    assert (told + [AutoStopped])[|told|..] == [AutoStopped];
    assert (told + Flight(c.server, Handled(c.client)))[|told|..] == Flight(c.server, Handled(c.client));
  }

  /** Up to here the server has left the session, the client has asked to stop and is done with its half. */
  lemma BothLeave(client: Config, server: Config) returns (steps: seq<Step>, c: System)
    requires ValidPair(client, server)
    ensures SystemInv(Opened(client, server)) && Leads(Opened(client, server), steps, c) && SystemInv(c)
    ensures c.client.d.state.Inactive? && c.server.d.state.Inactive? && c.client.tx.queue == []
    ensures LastWord(Announced(c.server), AutoStopped)
    ensures Handled(c.client) <= |c.server.tx.retired| && Flight(c.server, Handled(c.client)) == [AutoStopped]
  {
    hide PairInv, Leads, Flight, Announced, MayArm, Initial, LastWord;
    var a := Opened(client, server);
    OpenedHolds(client, server);
    InitialMayArm(client);
    Nowhere(a);
    steps, c := SessionBegins(a, [], a);
    var b := c;
    steps, c := ServerStopsItself(a, steps, c);
    HandledBounds(b);
    LeftInFlight(b, c);
    steps, c := ClientAsksToStop(a, steps, c);
    steps, c := ClientFinishes(a, steps, c);
    steps, c := ClientDrains(a, steps, c);
  }

  lemma Nowhere(a: System)
    requires ConfigOk(a)
    ensures Leads(a, [], a)
  {
  }

  lemma SameAnnounced(a: Endpoint, b: Endpoint)
    requires Inv(a) && Inv(b) && !a.cfg.isClient && !b.cfg.isClient && a.tx == b.tx
    ensures Announced(a) == Announced(b)
  {
    hide Inv;
    OwesNothing(a);
    OwesNothing(b);
  }

  lemma QuietAtLast(c: System)
    requires SystemInv(c) && c.client.d.state.Inactive? && c.server.d.state.Inactive?
    requires c.client.tx.queue == [] && c.server.tx.queue == []
    requires CaughtUp(c.client, c.server) && CaughtUp(c.server, c.client)
    requires LastWord(Announced(c.server), AutoStopped)
    ensures Handled(c.server) <= |c.client.tx.retired| && Handled(c.client) <= |c.server.tx.retired|
    ensures Quiet(c) && LastWord(c.client.rx.told, AutoStopped)
  {
    hide Inv, LinkAt, ViewInv, Answered, Prompted, Flight, Announced, Owed;
    HandledBounds(c);
    InvParts(c.client);
    InvParts(c.server);
    OwesNothing(c.client);
    OwesNothing(c.server);
    NothingInFlight(c.client, c.server, Handled(c.server));
    NothingInFlight(c.server, c.client, Handled(c.client));
    ToldIsPlaced(c.server, c.client, Handled(c.client));
    assert c.client.rx.told + [] == c.client.rx.told;
  }

  /** Everything that is left is delivered, first to the server and then to the client. */
  lemma AllDelivered(a: System, steps: seq<Step>, b: System) returns (more: seq<Step>, c: System)
    requires SystemInv(a) && Leads(a, steps, b) && SystemInv(b)
    requires b.client.d.state.Inactive? && b.server.d.state.Inactive? && b.client.tx.queue == []
    requires LastWord(Announced(b.server), AutoStopped)
    requires Handled(b.client) <= |b.server.tx.retired| && Flight(b.server, Handled(b.client)) == [AutoStopped]
    ensures Leads(a, more, c) && SystemInv(c)
    ensures Quiet(c) && LastWord(c.client.rx.told, AutoStopped)
  {
    hide Inv, LinkAt, ViewInv, Answered, Prompted, Leads, Flight, Announced, LastWord;
    NoStartWhileLeft(b);
    more, c := DeliverToServer(a, steps, b);
    SameAnnounced(b.server, c.server);
    more, c := ServerDrains(a, more, c);
    more, c := DeliverToClient(a, more, c);
    QuietAtLast(c);
  }

  /** Arm, pump, write, deliver; the server reaches its time limit; the client stops, finishes and drains;
      everything is delivered. Then nothing is left anywhere, and the session has not been reported. */
  lemma NobodyReports(client: Config, server: Config) returns (steps: seq<Step>)
    requires ValidPair(client, server)
    ensures Run(client, server, steps)
    ensures
      var sys := Reached(client, server, steps);
      Quiet(sys) && LastWord(sys.client.rx.told, AutoStopped) && sys.client.reports + 1 == sys.arms
  {
    hide SystemInv, Leads, Quiet, Announced, Flight, LastWord;
    var c: System;
    steps, c := BothLeave(client, server);
    steps, c := AllDelivered(Opened(client, server), steps, c);
    LeadsReached(client, server, steps, c);
    ReportedExactly(client, server, steps);
    ReportsAreCounted(client, server, steps);
  }
}
