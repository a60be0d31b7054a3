/** The session protocol seen from outside: what both ends are doing and which control flags are still
    on their way. Legal lists every situation a pair of ends can be in. */
module Protocol {
  import opened Cells
  import opened SendQueue
  import opened Endpoint
  import opened EndpointInv
  import opened Signals

  /** The signals of an end that a peer who has handled h cells has not seen yet. */
  function Flight(ep: Endpoint, h: nat): seq<Signal>
    requires h <= |ep.tx.retired|
  {
    SignalsIn(ep.tx.retired[h..]) + SignalsIn(ep.tx.queue) + Owed(ep.d)
  }

  lemma FlightIsSuffix(ep: Endpoint, h: nat)
    requires h <= |ep.tx.retired|
    ensures Announced(ep) == SignalsIn(ep.tx.retired[..h]) + Flight(ep, h)
  {
    assert ep.tx.retired == ep.tx.retired[..h] + ep.tx.retired[h..];
    SignalsAppend(ep.tx.retired[..h], ep.tx.retired[h..]);
    FourPieces(SignalsIn(ep.tx.retired[..h]), SignalsIn(ep.tx.retired[h..]), SignalsIn(ep.tx.queue), Owed(ep.d));
  }

  lemma FourPieces(a: seq<Signal>, b: seq<Signal>, c: seq<Signal>, d: seq<Signal>)
    ensures ((a + b) + c) + d == a + ((b + c) + d)
  {
  }

  lemma CancelPrefix(p: seq<Signal>, a: seq<Signal>, b: seq<Signal>)
    requires p + a == p + b
    ensures a == b
  {
    assert (p + a)[|p|..] == a;
    assert (p + b)[|p|..] == b;
  }

  /** An event that announces x puts exactly x at the end of what is in flight. */
  lemma FlightGrows(a: Endpoint, b: Endpoint, h: nat, x: seq<Signal>)
    requires h <= |a.tx.retired| && Extends(a, b)
    requires Announced(b) == Announced(a) + x
    ensures h <= |b.tx.retired|
    ensures Flight(b, h) == Flight(a, h) + x
  {
    FlightIsSuffix(a, h);
    FlightIsSuffix(b, h);
    assert b.tx.retired[..h] == a.tx.retired[..h];
    Associate(SignalsIn(a.tx.retired[..h]), Flight(a, h), x);
    CancelPrefix(SignalsIn(a.tx.retired[..h]), Flight(b, h), Flight(a, h) + x);
  }

  /** Handling the next cell takes its signals off the front. */
  lemma FlightHead(ep: Endpoint, h: nat)
    requires h < |ep.tx.retired|
    ensures Flight(ep, h) == Carried(ep.tx.retired[h].flags) + Flight(ep, h + 1)
  {
    var c, rest := ep.tx.retired[h], ep.tx.retired[h + 1..];
    assert ep.tx.retired[h..] == [c] + rest;
    SignalsAppend([c], rest);
    assert [c] == [] + [c];
    SignalsOne([], c);
    assert SignalsIn([c]) == Carried(c.flags);
    FourPieces(Carried(c.flags), SignalsIn(rest), SignalsIn(ep.tx.queue), Owed(ep.d));
  }

  /** W is what the client still has to tell the server, G what the server has to tell the client. */
  datatype View = View(client: Defense, W: seq<Signal>, server: Defense, G: seq<Signal>)

  predicate ServerIdle(v: View) {
    v.server.state.Inactive?
  }

  predicate ServerRuns(v: View, stopping: bool) {
    v.server.state.Active? && v.server.stopRequested == stopping
  }

  /** No session, and nothing of one left anywhere. */
  predicate Idle(v: View) {
    && v.client.state.Inactive? && v.client.doneDefendingRecv
    && v.W == [] && ServerIdle(v) && v.G == []
  }

  predicate Opening(v: View) {
    v.client.state.Pending? && v.W == [Start] && ServerIdle(v) && v.G == []
  }

  predicate Running(v: View) {
    && v.client.state.Active? && !v.client.stopRequested && !v.client.doneDefendingRecv
    && ( || (v.W == [Start] && ServerIdle(v) && v.G == [])
         || (v.W == [] && ServerRuns(v, false) && v.G == [])
         || (v.W == [] && ServerIdle(v) && v.G == [AutoStopped]))
  }

  /** The client has asked to stop and has not been told that the server is done. */
  predicate Stopping(v: View) {
    && ((v.client.state.Active? && v.client.stopRequested) || v.client.state.Inactive?)
    && !v.client.doneDefendingRecv
    && ( || (v.W == [Start, Stop] && ServerIdle(v) && v.G == [])
         || (v.W == [Stop] && ServerRuns(v, false) && v.G == [])
         || (v.W == [Stop] && ServerIdle(v) && (v.G == [] || v.G == [AutoStopped]))
         || (v.W == [] && ServerRuns(v, true) && v.G == [])
         || (v.W == [] && ServerIdle(v) && (v.G == [] || v.G == [AutoStopped] || v.G == [Done])))
  }

  /** The server is done and the client knows it, but its own half still runs. */
  predicate Closing(v: View) {
    && v.client.state.Active? && v.client.stopRequested && v.client.doneDefendingRecv
    && v.W == [] && ServerIdle(v) && v.G == []
  }

  predicate Legal(v: View) {
    Idle(v) || Opening(v) || Running(v) || Stopping(v) || Closing(v)
  }

  /** Every armed session has been reported except the one under way. */
  predicate Counted(v: View, arms: nat, reports: nat) {
    if Idle(v) then reports == arms else reports + 1 == arms
  }

  predicate ViewInv(v: View, arms: nat, reports: nat) {
    Legal(v) && Counted(v, arms, reports)
  }

  predicate EndsWith(s: seq<Signal>, tail: seq<Signal>) {
    |tail| <= |s| && s[|s| - |tail|..] == tail
  }

  /** A server session goes back to the START it was last told, and a stopping one to the STOP right
      after that START. */
  predicate Prompted(told: seq<Signal>, server: Defense) {
    server.state.Active? ==> EndsWith(told, if server.stopRequested then [Start, Stop] else [Start])
  }

  /** The last control flag of a sequence. */
  predicate LastWord(told: seq<Signal>, x: Signal) {
    told != [] && told[|told| - 1] == x
  }

  /** What the client was told last: a finished session was not stopped automatically, and if the client
      still owes a START in the middle of a session, or stops one that the server has left for good,
      it was. */
  predicate Answered(v: View, told: seq<Signal>) {
    && (Idle(v) || Closing(v) ==> !LastWord(told, AutoStopped))
    && (v.client.state.Active? && v.client.needStart ==> LastWord(told, AutoStopped))
    && (Stopping(v) && ServerIdle(v) && Start !in v.W && v.G == [] ==> LastWord(told, AutoStopped))
  }

  lemma StartMeetsNobody(v: View)
    requires Legal(v) && Start in v.W
    ensures v.server.state.Inactive?
  {
  }

  // ---------- how a cell changes the view ----------

  /** A client's cell carries at most a START or a STOP, a server's at most an AUTO_STOPPED or a DONE. */
  lemma CarriedByRole(c: Cell, isClient: bool)
    requires CellRole(c, isClient)
    ensures isClient ==> Carried(c.flags) == if c.flags.start then [Start] else if c.flags.stop then [Stop] else []
    ensures !isClient ==>
      Carried(c.flags) == if c.flags.autoStopped then [AutoStopped] else if c.flags.done then [Done] else []
  {
  }

  lemma FirstIs(w: seq<Signal>, first: Signal, rest: seq<Signal>)
    requires w == [first] + rest
    ensures w != [] && w[0] == first && w[1..] == rest
  {
  }

  /** The server can take the next cell of the client in every legal situation. */
  lemma ServerAccepts(server: Endpoint, v: View, c: Cell, rest: seq<Signal>)
    requires CellRole(c, true) && !server.cfg.isClient && v.server == server.d
    requires Legal(v) && v.W == Carried(c.flags) + rest
    ensures Acceptable(server, c)
  {
    CarriedByRole(c, true);
    if c.flags.start {
      FirstIs(v.W, Start, rest);
    } else if c.flags.stop {
      FirstIs(v.W, Stop, rest);
    }
  }

  lemma ClientAccepts(client: Endpoint, v: View, c: Cell, rest: seq<Signal>)
    requires CellRole(c, false) && client.cfg.isClient && v.client == client.d
    requires Legal(v) && v.G == Carried(c.flags) + rest
    requires client.d.needStart ==> v.W != []
    ensures Acceptable(client, c)
  {
    CarriedByRole(c, false);
    if c.flags.autoStopped {
      FirstIs(v.G, AutoStopped, rest);
    } else if c.flags.done {
      FirstIs(v.G, Done, rest);
    }
  }

  lemma ServerHandles(server: Endpoint, v: View, c: Cell, rest: seq<Signal>, arms: nat, reports: nat)
    requires Inv(server) && Acceptable(server, c)
    requires CellRole(c, true) && !server.cfg.isClient && v.server == server.d
    requires ViewInv(v, arms, reports) && v.W == Carried(c.flags) + rest
    requires v.client.state.Pending? ==> Carried(c.flags) == []
    ensures ViewInv(v.(W := rest, server := HandleCell(server, c).d), arms, reports)
  {
    CarriedByRole(c, true);
    if c.flags.start {
      FirstIs(v.W, Start, rest);
    } else if c.flags.stop {
      FirstIs(v.W, Stop, rest);
    } else {
      assert rest == v.W;
    }
  }

  /** A client that learns of an automatic stop in the middle of a session asks for a new start. */
  function Reaction(client: Endpoint, c: Cell): seq<Signal> {
    if c.flags.autoStopped && client.d.state.Active? && !client.d.stopRequested && !client.d.needStart
    then [Start] else []
  }

  lemma ClientHandlesAutoStopped(client: Endpoint, v: View, c: Cell, rest: seq<Signal>, arms: nat)
    requires Inv(client) && Acceptable(client, c) && c.flags.autoStopped
    requires CellRole(c, false) && client.cfg.isClient && v.client == client.d
    requires ViewInv(v, arms, client.reports) && v.G == [AutoStopped] + rest
    ensures
      var r := HandleCell(client, c);
      ViewInv(v.(G := rest, client := r.d, W := v.W + Reaction(client, c)), arms, r.reports)
  {
    FirstIs(v.G, AutoStopped, rest);
    assert v.W + [] == v.W;
  }

  lemma ClientHandlesDone(client: Endpoint, v: View, c: Cell, rest: seq<Signal>, arms: nat)
    requires Inv(client) && Acceptable(client, c) && c.flags.done
    requires CellRole(c, false) && client.cfg.isClient && v.client == client.d
    requires ViewInv(v, arms, client.reports) && v.G == [Done] + rest
    ensures
      var r := HandleCell(client, c);
      ViewInv(v.(G := rest, client := r.d), arms, r.reports)
  {
    FirstIs(v.G, Done, rest);
  }

  lemma ClientHandlesPlain(client: Endpoint, v: View, c: Cell, arms: nat)
    requires Inv(client) && Acceptable(client, c) && !c.flags.done && !c.flags.autoStopped
    requires CellRole(c, false) && client.cfg.isClient && v.client == client.d
    requires ViewInv(v, arms, client.reports)
    ensures
      var r := HandleCell(client, c);
      ViewInv(v.(client := r.d), arms, r.reports)
  {
  }

  lemma ClientHandles(client: Endpoint, v: View, c: Cell, rest: seq<Signal>, arms: nat)
    requires Inv(client) && Acceptable(client, c)
    requires CellRole(c, false) && client.cfg.isClient && v.client == client.d
    requires ViewInv(v, arms, client.reports) && v.G == Carried(c.flags) + rest
    ensures
      var r := HandleCell(client, c);
      ViewInv(v.(G := rest, client := r.d, W := v.W + Reaction(client, c)), arms, r.reports)
  {
    CarriedByRole(c, false);
    if c.flags.autoStopped {
      ClientHandlesAutoStopped(client, v, c, rest, arms);
    } else {
      assert v.W + Reaction(client, c) == v.W;
      if c.flags.done {
        ClientHandlesDone(client, v, c, rest, arms);
      } else {
        assert rest == v.G;
        ClientHandlesPlain(client, v, c, arms);
      }
    }
  }

  /** What handling a cell announces. */
  lemma HandleCellAnnounces(ep: Endpoint, c: Cell)
    requires Inv(ep) && Acceptable(ep, c) && CellRole(c, !ep.cfg.isClient)
    ensures Announced(HandleCell(ep, c)) == Announced(ep) + if ep.cfg.isClient then Reaction(ep, c) else []
  {
    hide EncodeAll;
    var r := HandleCell(ep, c);
    assert r.tx == ep.tx;
    if ep.cfg.isClient {
      OwedAfterCell(ep, c);
      Associate(SignalsIn(ep.tx.retired), SignalsIn(ep.tx.queue), Owed(r.d));
      Associate(Queued(ep.tx), Owed(ep.d), Reaction(ep, c));
    }
  }

  lemma OwedDepends(a: Defense, b: Defense)
    requires a.needStart == b.needStart && a.needStop == b.needStop
    requires a.needAutoStopped == b.needAutoStopped && a.needDone == b.needDone
    ensures Owed(a) == Owed(b)
  {
  }

  lemma NeedsAfterCell(ep: Endpoint, c: Cell)
    requires Inv(ep) && Acceptable(ep, c) && CellRole(c, false) && ep.cfg.isClient
    ensures
      var d := HandleCell(ep, c).d;
      && d.needStop == ep.d.needStop && d.needDone == ep.d.needDone && d.needAutoStopped == ep.d.needAutoStopped
      && d.needStart == (ep.d.needStart || Reaction(ep, c) != [])
    ensures Reaction(ep, c) != [] ==> !ep.d.NextFlags().Important()
  {
    hide EncodeAll, WireInv, StreamInv, CountInv, SenderInv, CellsInv;
  }

  lemma OwedAfterCell(ep: Endpoint, c: Cell)
    requires Inv(ep) && Acceptable(ep, c) && CellRole(c, false) && ep.cfg.isClient
    ensures Owed(HandleCell(ep, c).d) == Owed(ep.d) + Reaction(ep, c)
  {
    NeedsAfterCell(ep, c);
    if Reaction(ep, c) == [] {
      assert Owed(ep.d) + [] == Owed(ep.d);
      OwedDepends(HandleCell(ep, c).d, ep.d);
    } else {
      OwedStarts(ep.d);
      OwedDepends(HandleCell(ep, c).d, ep.d.(needStart := true));
    }
  }

  lemma OwedStarts(d: Defense)
    requires !d.NextFlags().Important()
    ensures Owed(d) == [] && Owed(d.(needStart := true)) == [Start]
  {
  }
}
