/** One end of the channel as a value, and what every event does to it. The class in Channel.dfy is
    proved against these functions; the properties are proved about them. */
module Endpoint {
  import opened Cells
  import opened SendQueue

  datatype DefenseState = Inactive | Pending | Active

  /** L is the number of send attempts of which a session sends a multiple. */
  datatype Config = Config(isClient: bool, cellSize: nat, peerCellSize: nat, L: nat)

  predicate ValidConfig(cfg: Config) {
    ValidCellSize(cfg.cellSize) && ValidCellSize(cfg.peerCellSize) && cfg.L > 0
  }

  /** The fields of `defense_info_`. */
  datatype Defense = Defense(
    state: DefenseState,
    numDataCellsAdded: nat,
    numWriteAttempts: nat,
    stopRequested: bool,
    needStart: bool,
    needStop: bool,
    needDone: bool,
    needAutoStopped: bool,
    doneDefendingRecv: bool,
    numCellsRecv: nat,
    savedNumWriteAttempts: nat)
  {
    /** Clears everything but what must outlive a session. */
    function Reset(): Defense {
      Defense(Inactive, 0, 0, false, false, false, false, false,
              doneDefendingRecv, numCellsRecv, savedNumWriteAttempts)
    }

    predicate IsDoneDefendingSend(L: nat)
      requires L > 0
    {
      stopRequested && numWriteAttempts % L == 0
    }

    /** The flags that the next cell is going to carry. */
    function NextFlags(): Flags {
      Flags(needStart, needStop, needAutoStopped, needDone, !state.Inactive?)
    }

    /** Once a cell carries the pending flags they are no longer needed. */
    function FlagsTaken(): Defense {
      this.(needStart := false, needStop := false, needAutoStopped := false, needDone := false)
    }
  }

  const FRESH: Defense := Defense(Inactive, 0, 0, false, false, false, false, false, true, 0, 0)

  /** The receiving half. `consumed`, `told` and `defensive` are history: all payload bytes handed to SPDY,
      all control flags of the cells that were handled, and how many of these were defensive. */
  datatype Receiver = Receiver(
    inbuf: seq<byte>,
    allRecv: nat,
    dataRecv: nat,
    dummyRecv: nat,
    consumed: seq<byte>,
    told: seq<Signal>,
    defensive: nat)

  /** `reports` counts the A_DEFENSE_SESSION_DONE notifications; `reportedCells` is history: how many
      defensive cells had been handled at the last of them. */
  datatype Endpoint = Endpoint(
    cfg: Config,
    d: Defense,
    tx: Sender,
    rx: Receiver,
    writeOn: bool,
    timerOn: bool,
    reports: nat,
    reportedCells: nat)

  function Initial(cfg: Config): Endpoint {
    Endpoint(cfg, FRESH, EMPTY, Receiver([], 0, 0, 0, [], [], 0), false, false, 0, 0)
  }

  predicate TxOk(ep: Endpoint) {
    ValidConfig(ep.cfg) && SenderInv(ep.tx, ep.cfg.cellSize)
  }

  function Waiting(ep: Endpoint): int {
    OutLen(ep.tx, ep.cfg.cellSize)
  }

  // ---------- adding cells ----------

  function AddDataCell(ep: Endpoint): (r: Endpoint)
    requires TxOk(ep)
    ensures TxOk(r) && r.cfg == ep.cfg
    ensures ep.tx.spdyOut != [] ==> |r.tx.spdyOut| < |ep.tx.spdyOut| && r.tx.queue != []
  {
    if ep.tx.spdyOut == [] then
      ep
    else
      DropKeeps(ep.tx, true, ep.cfg.cellSize);
      var kept := Drop(ep.tx, true);
      PushDataKeeps(kept, ep.d.NextFlags(), ep.cfg.cellSize);
      var d := ep.d.FlagsTaken();
      ep.(tx := PushData(kept, ep.d.NextFlags(), ep.cfg.cellSize),
          d := if d.state.Pending? then d.(numDataCellsAdded := d.numDataCellsAdded + 1) else d)
  }

  function AddDummyCell(ep: Endpoint): (r: Endpoint)
    requires TxOk(ep) && !ep.tx.droppable
    ensures TxOk(r) && r.cfg == ep.cfg
  {
    PushDummyKeeps(ep.tx, ep.d.NextFlags(), ep.cfg.cellSize);
    ep.(tx := PushDummy(ep.tx, ep.d.NextFlags()), d := ep.d.FlagsTaken())
  }

  /** Turns all SPDY output into data cells. */
  function Flush(ep: Endpoint): (r: Endpoint)
    requires TxOk(ep)
    ensures TxOk(r) && r.cfg == ep.cfg && r.tx.spdyOut == []
    decreases |ep.tx.spdyOut|
  {
    if ep.tx.spdyOut == [] then ep else Flush(AddDataCell(ep))
  }

  /** `_pump_spdy_send`: SPDY produces some bytes, which become cells depending on the state. */
  function Pump(ep: Endpoint, data: seq<byte>): (r: Endpoint)
    requires TxOk(ep)
    ensures TxOk(r) && r.cfg == ep.cfg
  {
    ProduceKeeps(ep.tx, data, ep.cfg.cellSize);
    var full := ep.(tx := Produce(ep.tx, data));
    match ep.d.state
    case Inactive =>
      var r := Flush(full);
      if r.tx.queue != [] then r.(writeOn := true) else r
    case Pending => AddDataCell(full).(writeOn := true)
    case Active => full
  }

  // ---------- writing to the socket ----------

  function Min(a: nat, b: nat): nat {
    if a < b then a else b
  }

  /** How many bytes one call of `_send_cell_outbuf` offers to the socket. */
  function Offered(ep: Endpoint): int {
    if ep.d.state.Active? then ep.cfg.cellSize
    else Waiting(ep) - if ep.tx.droppable then ep.cfg.cellSize else 0
  }

  predicate CanSend(ep: Endpoint) {
    && TxOk(ep)
    && (ep.d.state.Active? ==> Waiting(ep) >= ep.cfg.cellSize)
  }

  /** `_send_cell_outbuf`, when the socket is willing to take `accept` bytes. */
  function Send(ep: Endpoint, accept: nat): (r: Endpoint)
    requires CanSend(ep)
    ensures TxOk(r) && r.cfg == ep.cfg
  {
    DropKeeps(ep.tx, true, ep.cfg.cellSize);
    var n := Min(accept, Offered(ep));
    if ep.d.state.Active? then
      var left := Waiting(ep) - n;
      var tx := if left < ep.cfg.cellSize then ep.tx.(droppable := false) else ep.tx;
      AdvanceKeeps(tx, n, ep.cfg.cellSize);
      ep.(d := ep.d.(numWriteAttempts := ep.d.numWriteAttempts + 1),
          tx := Advance(tx, n, ep.cfg.cellSize))
    else
      var tx := Drop(ep.tx, true);
      AdvanceKeeps(tx, n, ep.cfg.cellSize);
      ep.(tx := Advance(tx, n, ep.cfg.cellSize), writeOn := n < Offered(ep))
  }

  // ---------- sessions ----------

  function StartSession(ep: Endpoint): Endpoint {
    ep.(d := ep.d.(state := Active, doneDefendingRecv := false), timerOn := true, writeOn := false)
  }

  /** `set_auto_start_defense_session_on_next_send`. */
  function Arm(ep: Endpoint): Endpoint {
    ep.(d := ep.d.(state := Pending, needStart := true))
  }

  function RequestStop(ep: Endpoint): Endpoint {
    if !ep.d.state.Active? then
      ep.(d := ep.d.Reset())
    else
      ep.(d := ep.d.(stopRequested := true, needStart := false, needStop := ep.d.needStop || ep.cfg.isClient))
  }

  /** `_check_notify_a_defense_session_done`. */
  function Notify(ep: Endpoint): Endpoint {
    if ep.d.state.Inactive? && ep.d.doneDefendingRecv then
      ep.(d := ep.d.(numCellsRecv := 0, savedNumWriteAttempts := 0), reports := ep.reports + 1,
          reportedCells := ep.rx.defensive)
    else
      ep
  }

  /** Flushes, and if a control flag found no data cell to ride on, sends it in a dummy of its own. */
  function FlushControl(ep: Endpoint, data: seq<byte>): (r: Endpoint)
    requires TxOk(ep)
    ensures TxOk(r) && r.cfg == ep.cfg
  {
    var p := Pump(ep, data);
    if p.d.NextFlags().Important() then
      DropKeeps(p.tx, false, p.cfg.cellSize);
      AddDummyCell(p.(tx := Drop(p.tx, false))).(writeOn := true)
    else
      p
  }

  /** The state in which the terminal tick of a session flushes. */
  function Finishing(ep: Endpoint): Endpoint {
    ep.(d := ep.d.Reset().(needStop := ep.d.needStop, needDone := !ep.cfg.isClient,
                           savedNumWriteAttempts := ep.d.numWriteAttempts),
        timerOn := false)
  }

  /** The state in which an automatic stop flushes. */
  function AutoStopping(ep: Endpoint): Endpoint {
    ep.(d := ep.d.Reset().(needAutoStopped := true, savedNumWriteAttempts := ep.d.numWriteAttempts),
        timerOn := false)
  }

  /** The state after a tick has made sure that there is a cell to send. */
  function Refill(ep: Endpoint): (r: Endpoint)
    requires TxOk(ep)
    ensures TxOk(r) && r.cfg == ep.cfg && Waiting(r) >= ep.cfg.cellSize
  {
    OutLenNatural(ep.tx, ep.cfg.cellSize);
    if Waiting(ep) >= ep.cfg.cellSize then
      if ep.tx.spdyOut == [] then ep.(tx := ep.tx.(avoided := ep.tx.avoided + 1)) else ep
    else if ep.tx.spdyOut != [] then
      RefillGrows(ep);
      AddDataCell(ep)
    else
      RefillGrows(ep);
      AddDummyCell(ep)
  }

  /** Fewer bytes than a cell cannot end in a whole dummy. */
  lemma ShortNotDroppable(ep: Endpoint)
    requires TxOk(ep) && Waiting(ep) < ep.cfg.cellSize
    ensures !ep.tx.droppable
  {
    DropKeeps(ep.tx, true, ep.cfg.cellSize);
  }

  lemma RefillGrows(ep: Endpoint)
    requires TxOk(ep) && Waiting(ep) < ep.cfg.cellSize
    ensures !ep.tx.droppable
    ensures ep.tx.spdyOut != [] ==> Waiting(AddDataCell(ep)) == Waiting(ep) + ep.cfg.cellSize
    ensures Waiting(AddDummyCell(ep)) == Waiting(ep) + ep.cfg.cellSize
  {
    ShortNotDroppable(ep);
    if ep.tx.spdyOut != [] {
      PushDataKeeps(ep.tx, ep.d.NextFlags(), ep.cfg.cellSize);
    }
    PushDummyKeeps(ep.tx, ep.d.NextFlags(), ep.cfg.cellSize);
  }

  lemma RefillState(ep: Endpoint)
    requires TxOk(ep) && ep.d.state.Active?
    ensures Refill(ep).d.state.Active? && Refill(ep).cfg == ep.cfg && CanSend(Refill(ep))
    ensures Waiting(Refill(ep)) >= ep.cfg.cellSize
  {
    hide EncodeAll;
  }

  /** `_buflo_timer_fired`: `timeUp` says whether the session's time limit is reached, `data` is what
      SPDY produces if the tick pumps, and `accept` what the socket would take if the tick sends. */
  function Tick(ep: Endpoint, timeUp: bool, data: seq<byte>, accept: nat): (r: Endpoint)
    requires TxOk(ep)
    ensures TxOk(r) && r.cfg == ep.cfg
  {
    if ep.d.IsDoneDefendingSend(ep.cfg.L) then
      Notify(FlushControl(Finishing(ep), data))
    else if timeUp then
      FlushControl(AutoStopping(ep), data)
    else
      Send(Refill(ep), accept)
  }

  /** `_on_socket_writecb`. */
  function Writable(ep: Endpoint, accept: nat): (r: Endpoint)
    requires TxOk(ep) && (ep.d.state.Active? || ep.d.state.Pending? ==> Waiting(ep) >= ep.cfg.cellSize)
    ensures TxOk(r) && r.cfg == ep.cfg
  {
    if ep.d.state.Pending? then Send(StartSession(ep), accept) else Send(ep, accept)
  }

  // ---------- receiving ----------

  /** What `_handle_input_cell` and the functions it calls insist on. */
  predicate Acceptable(ep: Endpoint, c: Cell) {
    && (c.flags.autoStopped ==>
          ep.cfg.isClient && (ep.d.state.Active? && !ep.d.stopRequested ==> !ep.d.needStart))
    && !(c.flags.start && c.flags.stop)
    && (c.flags.start ==> !ep.cfg.isClient && ep.d.state.Inactive?)
    && (c.flags.stop ==> !ep.cfg.isClient && (ep.d.state.Active? ==> !ep.d.stopRequested))
    && (c.flags.done ==> ep.cfg.isClient)
  }

  function OnAutoStopped(ep: Endpoint): Endpoint {
    if ep.d.state.Active? && !ep.d.stopRequested then ep.(d := ep.d.(needStart := true)) else ep
  }

  function OnControl(ep: Endpoint, f: Flags): Endpoint {
    var e1 := if f.autoStopped then OnAutoStopped(ep) else ep;
    var e2 := if f.start then StartSession(e1) else e1;
    var e3 := if f.stop then RequestStop(e2) else e2;
    if f.defensive then e3.(d := e3.d.(numCellsRecv := e3.d.numCellsRecv + 1)) else e3
  }

  /** What the content of a cell adds to the receiving half. */
  function Receives(rx: Receiver, c: Cell): Receiver {
    var r := rx.(told := rx.told + Carried(c.flags), defensive := rx.defensive + if c.flags.defensive then 1 else 0);
    match c.kind
    case Data => r.(dataRecv := r.dataRecv + |c.payload|, consumed := r.consumed + c.payload)
    case Dummy => r.(dummyRecv := r.dummyRecv + 1)
  }

  function OnContent(ep: Endpoint, c: Cell): Endpoint {
    ep.(rx := Receives(ep.rx, c))
  }

  /** `_handle_input_cell`. */
  function HandleCell(ep: Endpoint, c: Cell): Endpoint {
    var e := OnContent(OnControl(ep, c.flags), c);
    if c.flags.done then Notify(e.(d := e.d.(doneDefendingRecv := true))) else e
  }

  lemma OnControlConfig(ep: Endpoint, f: Flags)
    ensures OnControl(ep, f).cfg == ep.cfg
  {
  }

  lemma HandleCellConfig(ep: Endpoint, c: Cell)
    ensures HandleCell(ep, c).cfg == ep.cfg
  {
    hide OnControl;
    OnControlConfig(ep, c.flags);
  }

  /** No cell at the front of the input buffer will trip a check. */
  predicate Consumable(ep: Endpoint)
    requires ValidCellSize(ep.cfg.peerCellSize)
    decreases |ep.rx.inbuf|
  {
    var size := ep.cfg.peerCellSize;
    |ep.rx.inbuf| >= size ==>
      match Decode(ep.rx.inbuf[..size])
      case Fatal => false
      case Good(c) => Acceptable(ep, c) && Consumable(AfterCell(ep, c))
  }

  function AfterCell(ep: Endpoint, c: Cell): (r: Endpoint)
    requires ep.cfg.peerCellSize <= |ep.rx.inbuf|
    ensures r.cfg == ep.cfg && r.rx.inbuf == ep.rx.inbuf[ep.cfg.peerCellSize..]
  {
    hide HandleCell;
    HandleCellConfig(ep, c);
    var e := HandleCell(ep, c);
    e.(rx := e.rx.(inbuf := ep.rx.inbuf[ep.cfg.peerCellSize..]))
  }

  /** `_read_cells`: handles every whole cell at the front of the input buffer. */
  function ReadCells(ep: Endpoint): (r: Endpoint)
    requires ValidCellSize(ep.cfg.peerCellSize) && Consumable(ep)
    ensures r.cfg == ep.cfg && |r.rx.inbuf| < ep.cfg.peerCellSize
    decreases |ep.rx.inbuf|
  {
    if |ep.rx.inbuf| < ep.cfg.peerCellSize then ep
    else ReadCells(AfterCell(ep, Decode(ep.rx.inbuf[..ep.cfg.peerCellSize]).cell))
  }

  function Buffered(ep: Endpoint, bytes: seq<byte>): Endpoint {
    ep.(rx := ep.rx.(inbuf := ep.rx.inbuf + bytes, allRecv := ep.rx.allRecv + |bytes|))
  }
}
