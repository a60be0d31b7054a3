/** One defended session seen by somebody who counts bytes on the wire: what is offered and written at
    every tick and when the session ends do not depend on the data. */
module Sessions {
  import opened Cells
  import opened SendQueue
  import opened Endpoint
  import opened EndpointInv
  import opened Events
  import opened Packing

  /** What happens to an end during a session: its own events, or a cell that arrives. */
  datatype Input = Local(e: Event) | Arrives(c: Cell)

  /** What one tick shows: the bytes offered to the socket, the bytes it took, whether the session ended. */
  datatype Observation = Observation(offered: nat, written: nat, ended: bool)

  predicate MayInput(ep: Endpoint, i: Input)
    requires ValidConfig(ep.cfg)
  {
    match i
    case Local(e) => May(ep, e)
    case Arrives(c) => Acceptable(ep, c)
  }

  function Feed(ep: Endpoint, i: Input): (r: Endpoint)
    requires Inv(ep) && MayInput(ep, i)
    ensures Inv(r) && r.cfg == ep.cfg
  {
    hide Inv, Checks, Apply, HandleCell;
    match i
    case Local(e) =>
      ApplyKeeps(ep, e);
      Apply(ep, e)
    case Arrives(c) =>
      HandleCellKeeps(ep, c);
      HandleCellConfig(ep, c);
      HandleCell(ep, c)
  }

  /** Inputs that the environment may supply one after the other while the session lasts. */
  predicate Feasible(ep: Endpoint, inputs: seq<Input>)
    requires Inv(ep)
    decreases |inputs|
  {
    inputs == [] || !ep.d.state.Active? ||
    (MayInput(ep, inputs[0]) && Feasible(Feed(ep, inputs[0]), inputs[1..]))
  }

  /** What a write can offer: a cell's worth of bytes, or less if less is waiting. */
  function OfferOf(ep: Endpoint): nat {
    if Waiting(ep) < 0 then 0 else Min(Waiting(ep), ep.cfg.cellSize)
  }

  function Observe(ep: Endpoint, r: Endpoint): Observation
    requires Inv(ep)
  {
    if !r.d.state.Active? then Observation(0, 0, true)
    else Observation(OfferOf(Refill(ep)),
                     if r.tx.allSent > ep.tx.allSent then r.tx.allSent - ep.tx.allSent else 0, false)
  }

  /** The observations of a whole session. */
  function Watch(ep: Endpoint, inputs: seq<Input>): seq<Observation>
    requires Inv(ep) && Feasible(ep, inputs)
    decreases |inputs|
  {
    if inputs == [] || !ep.d.state.Active? then []
    else
      var r := Feed(ep, inputs[0]);
      (if inputs[0].Local? && inputs[0].e.OnTick? then [Observe(ep, r)] else []) + Watch(r, inputs[1..])
  }

  // ---------- the same session without any data ----------

  /** All that an outsider may know about an end in a session. */
  datatype Public = Public(cellSize: nat, L: nat, waiting: int, attempts: nat, stopping: bool)

  function PublicOf(ep: Endpoint): Public {
    Public(ep.cfg.cellSize, ep.cfg.L, Waiting(ep), ep.d.numWriteAttempts, ep.d.stopRequested)
  }

  /** The part of an input that may show: ticks with what the socket would take, and stop requests. */
  datatype Beat = TickBeat(timeUp: bool, accept: nat) | StopBeat

  function BeatOf(i: Input): seq<Beat> {
    match i
    case Local(e) => (
      match e
      case OnTick(timeUp, _, accept) => [TickBeat(timeUp, accept)]
      case OnStop => [StopBeat]
      case _ => [])
    case Arrives(c) => if c.flags.stop then [StopBeat] else []
  }

  function Beats(inputs: seq<Input>): seq<Beat> {
    if inputs == [] then [] else BeatOf(inputs[0]) + Beats(inputs[1..])
  }

  /** The schedule that is visible: computed from public values alone. */
  function Schedule(p: Public, beats: seq<Beat>): seq<Observation>
    requires p.L > 0
    decreases |beats|
  {
    if beats == [] then []
    else match beats[0]
      case StopBeat => Schedule(p.(stopping := true), beats[1..])
      case TickBeat(timeUp, accept) =>
        if Ends(p, timeUp) then [Observation(0, 0, true)]
        else
          [Observation(p.cellSize, Min(accept, p.cellSize), false)]
          + Schedule(AfterTick(p, accept), beats[1..])
  }

  function AfterTick(p: Public, accept: nat): Public {
    p.(attempts := p.attempts + 1,
       waiting := (if p.waiting < p.cellSize then p.waiting + p.cellSize else p.waiting) - Min(accept, p.cellSize))
  }

  predicate Ends(p: Public, timeUp: bool)
    requires p.L > 0
  {
    (p.stopping && p.attempts % p.L == 0) || timeUp
  }

  // ---------- one input ----------

  /** A tick that does not end the session: one counted attempt, one cell's worth offered. */
  lemma TickVisible(ep: Endpoint, timeUp: bool, data: seq<byte>, accept: nat)
    requires Inv(ep) && MayTick(ep, timeUp) && !Ends(PublicOf(ep), timeUp)
    ensures
      var r := Tick(ep, timeUp, data, accept);
      && r.d.state.Active?
      && PublicOf(r) == AfterTick(PublicOf(ep), accept)
      && Observe(ep, r) == Observation(ep.cfg.cellSize, Min(accept, ep.cfg.cellSize), false)
  {
    hide EncodeAll, WireInv, StreamInv, CountInv;
    RefillEffect(ep);
    SendActiveEffect(Refill(ep), accept);
    RefillSentNothing(ep);
  }

  lemma RefillSentNothing(ep: Endpoint)
    requires TxOk(ep)
    ensures Refill(ep).tx.allSent == ep.tx.allSent
  {
  }

  lemma TickEnds(ep: Endpoint, timeUp: bool, data: seq<byte>, accept: nat)
    requires Inv(ep) && MayTick(ep, timeUp) && Ends(PublicOf(ep), timeUp)
    ensures Tick(ep, timeUp, data, accept).d.state.Inactive?
  {
    TickOutcome(ep, timeUp, data, accept);
  }

  /** Anything but a tick leaves the session on, and shows at most as a stop request. */
  lemma OtherInput(ep: Endpoint, i: Input)
    requires Inv(ep) && ep.d.state.Active? && MayInput(ep, i)
    requires i.Local? ==> !i.e.OnTick?
    ensures
      var r := Feed(ep, i);
      && r.d.state.Active?
      && PublicOf(r) == PublicOf(ep).(stopping := ep.d.stopRequested || BeatOf(i) == [StopBeat])
  {
    hide EncodeAll, WireInv, StreamInv, CountInv;
  }

  // ---------- whole sessions ----------

  lemma BeatsHead(inputs: seq<Input>)
    requires inputs != []
    ensures BeatOf(inputs[0]) == [] ==> Beats(inputs) == Beats(inputs[1..])
    ensures |BeatOf(inputs[0])| == 1 ==> Beats(inputs) != [] && Beats(inputs)[0] == BeatOf(inputs[0])[0]
                                         && Beats(inputs)[1..] == Beats(inputs[1..])
  {
  }

  /** A real session shows exactly what the data-free schedule predicts. */
  lemma {:induction false} WatchIsSchedule(ep: Endpoint, inputs: seq<Input>)
    requires Inv(ep) && ep.d.state.Active? && Feasible(ep, inputs)
    ensures Watch(ep, inputs) == Schedule(PublicOf(ep), Beats(inputs))
    decreases |inputs|
  {
    hide EncodeAll;
    if inputs != [] {
      BeatsHead(inputs);
      var i, p := inputs[0], PublicOf(ep);
      if i.Local? && i.e.OnTick? {
        if Ends(p, i.e.timeUp) {
          TickEnds(ep, i.e.timeUp, i.e.output, i.e.accepted);
        } else {
          TickVisible(ep, i.e.timeUp, i.e.output, i.e.accepted);
          WatchIsSchedule(Feed(ep, i), inputs[1..]);
        }
      } else {
        OtherInput(ep, i);
        WatchIsSchedule(Feed(ep, i), inputs[1..]);
        StopOnce(ep, i);
      }
    }
  }

  lemma StopOnce(ep: Endpoint, i: Input)
    requires Inv(ep) && ep.d.state.Active? && MayInput(ep, i)
    requires i.Local? ==> !i.e.OnTick?
    ensures BeatOf(i) == [] || BeatOf(i) == [StopBeat]
    ensures BeatOf(i) == [] ==> PublicOf(ep).(stopping := ep.d.stopRequested || BeatOf(i) == [StopBeat]) == PublicOf(ep)
  {
  }

  /** Data independence: two sessions that start with the same number of queued bytes and the same
      attempt count, are asked to stop at the same tick, and whose sockets take the same number of
      bytes at every tick cannot be told apart, whatever data either carries. */
  lemma DataIndependence(a: Endpoint, xs: seq<Input>, b: Endpoint, ys: seq<Input>)
    requires Inv(a) && a.d.state.Active? && Feasible(a, xs)
    requires Inv(b) && b.d.state.Active? && Feasible(b, ys)
    requires PublicOf(a) == PublicOf(b) && Beats(xs) == Beats(ys)
    ensures Watch(a, xs) == Watch(b, ys)
  {
    WatchIsSchedule(a, xs);
    WatchIsSchedule(b, ys);
  }

  /** What a tick in the middle of a session shows. */
  predicate OffersOneCell(o: Observation, size: nat) {
    !o.ended ==> o.offered == size && o.written <= size
  }

  predicate AllOfferOneCell(shown: seq<Observation>, size: nat) {
    forall i :: 0 <= i < |shown| ==> OffersOneCell(shown[i], size)
  }

  lemma AllOfferHead(o: Observation, rest: seq<Observation>, size: nat)
    requires OffersOneCell(o, size) && AllOfferOneCell(rest, size)
    ensures AllOfferOneCell([o] + rest, size)
  {
  }

  /** In every session every tick but the last finds a whole cell to offer, offers exactly one cell's
      worth of bytes, and writes at most that. */
  lemma {:induction false} ConstantOffer(ep: Endpoint, inputs: seq<Input>)
    requires Inv(ep) && ep.d.state.Active? && Feasible(ep, inputs)
    ensures AllOfferOneCell(Watch(ep, inputs), ep.cfg.cellSize)
    decreases |inputs|
  {
    hide Inv, MayInput, Feed, Observe, AllOfferOneCell;
    if inputs == [] {
      NothingShown(ep.cfg.cellSize);
    } else {
      var i, r := inputs[0], Feed(ep, inputs[0]);
      if i.Local? && i.e.OnTick? {
        TickOffersOneCell(ep, i);
      } else {
        StaysActive(ep, i);
        assert [] + Watch(r, inputs[1..]) == Watch(r, inputs[1..]);
      }
      if r.d.state.Active? {
        ConstantOffer(r, inputs[1..]);
      } else {
        NothingShown(ep.cfg.cellSize);
      }
      if i.Local? && i.e.OnTick? {
        AllOfferHead(Observe(ep, r), Watch(r, inputs[1..]), ep.cfg.cellSize);
      }
    }
  }

  lemma NothingShown(size: nat)
    ensures AllOfferOneCell([], size)
  {
  }

  lemma TickOffersOneCell(ep: Endpoint, i: Input)
    requires Inv(ep) && ep.d.state.Active? && MayInput(ep, i) && i.Local? && i.e.OnTick?
    ensures OffersOneCell(Observe(ep, Feed(ep, i)), ep.cfg.cellSize)
  {
    hide SenderInv, CellsInv, DefenseInv, WakeInv, Observe, Tick;
    if Ends(PublicOf(ep), i.e.timeUp) {
      TickEnds(ep, i.e.timeUp, i.e.output, i.e.accepted);
      EndObserved(ep, Feed(ep, i));
    } else {
      TickVisible(ep, i.e.timeUp, i.e.output, i.e.accepted);
    }
  }

  lemma EndObserved(ep: Endpoint, r: Endpoint)
    requires Inv(ep) && !r.d.state.Active?
    ensures Observe(ep, r).ended
  {
  }

  // ---------- how long a session lasts ----------

  /** The number of ticks that a stopping session still has to attempt. */
  function Remaining(p: Public): nat
    requires p.L > 0
  {
    (p.L - p.attempts % p.L) % p.L
  }

  lemma QuotientUnique(q: nat, r: nat, d: nat)
    requires r < d
    ensures (q * d + r) % d == r
  {
    var n := q * d + r;
    SpanIsProduct(q, d);
    SpanIsProduct(n / d, d);
    assert n == n / d * d + n % d;
    SpanStrict(q, n / d, d);
    SpanStrict(n / d, q, d);
  }

  lemma NextRemainder(a: nat, L: nat)
    requires L > 0
    ensures (a + 1) % L == if a % L + 1 == L then 0 else a % L + 1
  {
    var q := a / L;
    assert a == q * L + a % L;
    if a % L + 1 == L {
      assert a + 1 == (q + 1) * L + 0;
      QuotientUnique(q + 1, 0, L);
    } else {
      QuotientUnique(q, a % L + 1, L);
    }
  }

  lemma RemainingStep(p: Public, accept: nat)
    requires p.L > 0 && p.attempts % p.L != 0
    ensures Remaining(p) > 0 && Remaining(AfterTick(p, accept)) == Remaining(p) - 1
  {
    NextRemainder(p.attempts, p.L);
    RemainingOf(p);
    RemainingOf(AfterTick(p, accept));
  }

  lemma RemainingOf(p: Public)
    requires p.L > 0
    ensures Remaining(p) == if p.attempts % p.L == 0 then 0 else p.L - p.attempts % p.L
  {
    if p.attempts % p.L != 0 {
      SmallMod(p.L - p.attempts % p.L, p.L);
    }
  }

  lemma SmallMod(a: nat, d: nat)
    requires a < d
    ensures a % d == a
  {
  }

  lemma RemainingZero(p: Public)
    requires p.L > 0
    ensures p.attempts % p.L == 0 ==> Remaining(p) == 0
    ensures Remaining(p) < p.L
  {
  }

  /** Once a session has been asked to stop it ends after Remaining further attempts, which is less
      than L, unless its time limit ends it earlier. */
  lemma {:induction false} SessionEnds(p: Public, beats: seq<Beat>)
    requires p.L > 0 && p.stopping && |beats| > Remaining(p)
    requires forall b <- beats :: b.TickBeat? && !b.timeUp
    ensures
      var shown := Schedule(p, beats);
      && |shown| == Remaining(p) + 1 <= p.L
      && shown[Remaining(p)].ended
      && (forall i :: 0 <= i < Remaining(p) ==> !shown[i].ended)
    decreases |beats|
  {
    RemainingZero(p);
    assert beats[0] in beats;
    if p.attempts % p.L != 0 {
      RemainingStep(p, beats[0].accept);
      SessionEnds(AfterTick(p, beats[0].accept), beats[1..]);
    }
  }

  /** A graceful end saves the attempt count, a multiple of L, unless it has just been reported. */
  lemma GracefulEnd(ep: Endpoint, timeUp: bool, data: seq<byte>, accept: nat)
    requires Inv(ep) && MayTick(ep, timeUp) && ep.d.IsDoneDefendingSend(ep.cfg.L)
    ensures
      var r := Tick(ep, timeUp, data, accept);
      && ep.d.numWriteAttempts % ep.cfg.L == 0
      && r.d.savedNumWriteAttempts == (if ep.d.doneDefendingRecv then 0 else ep.d.numWriteAttempts)
      && r.d.numWriteAttempts == 0
      && r.tx.allSent == ep.tx.allSent
  {
    FlushControlEffect(Finishing(ep), data);
    FlushControlSentNothing(Finishing(ep), data);
    FlushControlSameSession(Finishing(ep), data);
  }

  lemma {:induction false} FlushSentNothing(ep: Endpoint)
    requires TxOk(ep)
    ensures Flush(ep).tx.allSent == ep.tx.allSent
    decreases |ep.tx.spdyOut|
  {
    if ep.tx.spdyOut != [] {
      FlushSentNothing(AddDataCell(ep));
    }
  }

  lemma FlushControlSentNothing(ep: Endpoint, data: seq<byte>)
    requires TxOk(ep) && ep.d.state.Inactive?
    ensures FlushControl(ep, data).tx.allSent == ep.tx.allSent
  {
    ProduceKeeps(ep.tx, data, ep.cfg.cellSize);
    FlushSentNothing(ep.(tx := Produce(ep.tx, data)));
  }

  // ---------- the queue during a session ----------

  /** The state after some inputs, or where the session ended. */
  function After(ep: Endpoint, inputs: seq<Input>): (r: Endpoint)
    requires Inv(ep) && Feasible(ep, inputs)
    ensures Inv(r)
    decreases |inputs|
  {
    if inputs == [] || !ep.d.state.Active? then ep else After(Feed(ep, inputs[0]), inputs[1..])
  }

  predicate Ended(shown: seq<Observation>) {
    shown != [] && (shown[0].ended || Ended(shown[1..]))
  }

  lemma {:induction false} EndedAt(shown: seq<Observation>, i: nat)
    requires i < |shown| && shown[i].ended
    ensures Ended(shown)
  {
    if i > 0 {
      EndedAt(shown[1..], i - 1);
    }
  }

  lemma EndedHead(o: Observation, rest: seq<Observation>)
    ensures Ended([o] + rest) <==> o.ended || Ended(rest)
    ensures [] + rest == rest
  {
    assert ([o] + rest)[1..] == rest;
  }

  lemma {:induction false} EndedMeansOver(ep: Endpoint, inputs: seq<Input>)
    requires Inv(ep) && ep.d.state.Active? && Feasible(ep, inputs)
    ensures Ended(Watch(ep, inputs)) <==> !After(ep, inputs).d.state.Active?
    decreases |inputs|
  {
    hide Inv, Feed, MayInput, Ended;
    if inputs != [] {
      var r := Feed(ep, inputs[0]);
      EndedHead(Observe(ep, r), Watch(r, inputs[1..]));
      if !(inputs[0].Local? && inputs[0].e.OnTick?) {
        StaysActive(ep, inputs[0]);
      }
      if r.d.state.Active? {
        EndedMeansOver(r, inputs[1..]);
      }
    } else {
      NothingEnded();
    }
  }

  lemma NothingEnded()
    ensures !Ended([])
  {
  }

  lemma StaysActive(ep: Endpoint, i: Input)
    requires Inv(ep) && ep.d.state.Active? && MayInput(ep, i)
    requires i.Local? ==> !i.e.OnTick?
    ensures Feed(ep, i).d.state.Active?
  {
    hide Inv, Feed, MayInput;
    OtherInput(ep, i);
  }

  /** A session that has been asked to stop is over after at most L ticks that do not hit its time
      limit, whatever else happens in between. */
  lemma StoppedSessionEnds(ep: Endpoint, inputs: seq<Input>)
    requires Inv(ep) && ep.d.state.Active? && ep.d.stopRequested && Feasible(ep, inputs)
    requires forall b <- Beats(inputs) :: b.TickBeat? && !b.timeUp
    requires |Beats(inputs)| > Remaining(PublicOf(ep))
    ensures !After(ep, inputs).d.state.Active?
    ensures |Watch(ep, inputs)| == Remaining(PublicOf(ep)) + 1 <= ep.cfg.L
  {
    hide Inv, Feasible, Beats, Watch, Schedule, Remaining;
    assert TxOk(ep) by { InvParts(ep); }
    WatchIsSchedule(ep, inputs);
    SessionEnds(PublicOf(ep), Beats(inputs));
    EndedMeansOver(ep, inputs);
    EndedAt(Watch(ep, inputs), Remaining(PublicOf(ep)));
  }

  /** Nobody adds to a full queue: the waiting bytes never grow beyond what they were when the session
      began, except to stay below two cells; and below two cells they remain. */
  lemma {:induction false} BoundedQueue(ep: Endpoint, inputs: seq<Input>)
    requires Inv(ep) && ep.d.state.Active? && Feasible(ep, inputs)
    ensures
      var r := After(ep, inputs);
      r.d.state.Active? ==> Waiting(r) <= Waiting(ep) || Waiting(r) < 2 * ep.cfg.cellSize
    decreases |inputs|
  {
    hide EncodeAll, WireInv;
    if inputs != [] {
      var i := inputs[0];
      if i.Local? && i.e.OnTick? {
        if Ends(PublicOf(ep), i.e.timeUp) {
          TickEnds(ep, i.e.timeUp, i.e.output, i.e.accepted);
        } else {
          TickVisible(ep, i.e.timeUp, i.e.output, i.e.accepted);
          BoundedQueue(Feed(ep, i), inputs[1..]);
        }
      } else {
        OtherInput(ep, i);
        BoundedQueue(Feed(ep, i), inputs[1..]);
      }
    }
  }

  /** The queue of a session never holds two full cells if and only if it does not when the session
      starts. The source's comments promise it for every session. */
  lemma NeverTwoFullCells(ep: Endpoint)
    requires Inv(ep) && ep.d.state.Active?
    ensures (forall inputs | Feasible(ep, inputs) :: BelowTwoCells(After(ep, inputs)))
       <==> Waiting(ep) < 2 * ep.cfg.cellSize
  {
    hide Inv, Feasible, After, Waiting;
    if Waiting(ep) < 2 * ep.cfg.cellSize {
      forall inputs | Feasible(ep, inputs)
        ensures BelowTwoCells(After(ep, inputs))
      {
        BoundedQueue(ep, inputs);
        SameCells(ep, inputs);
      }
    } else {
      NoInputs(ep);
      assert !BelowTwoCells(After(ep, []));
    }
  }

  predicate BelowTwoCells(ep: Endpoint) {
    ep.d.state.Active? ==> Waiting(ep) < 2 * ep.cfg.cellSize
  }

  lemma NoInputs(ep: Endpoint)
    requires Inv(ep)
    ensures Feasible(ep, []) && After(ep, []) == ep
  {
  }

  lemma {:induction false} SameCells(ep: Endpoint, inputs: seq<Input>)
    requires Inv(ep) && Feasible(ep, inputs)
    ensures After(ep, inputs).cfg == ep.cfg
    decreases |inputs|
  {
    hide Inv, Feed;
    if inputs != [] && ep.d.state.Active? {
      SameCells(Feed(ep, inputs[0]), inputs[1..]);
    }
  }

  /** A tick that finds a whole cell waiting adds nothing. */
  lemma FullQueueNeverGrows(ep: Endpoint, timeUp: bool, data: seq<byte>, accept: nat)
    requires Inv(ep) && MayTick(ep, timeUp) && !Ends(PublicOf(ep), timeUp)
    requires Waiting(ep) >= ep.cfg.cellSize
    ensures Waiting(Tick(ep, timeUp, data, accept)) == Waiting(ep) - Min(accept, ep.cfg.cellSize)
  {
    TickVisible(ep, timeUp, data, accept);
  }

  /** Data goes before filler: an ongoing tick that needs a cell adds exactly one, a defensive one, fills
      it with as much of the output as there is and as fits, and makes a dummy only when there is no
      output. */
  lemma DataGoesFirst(ep: Endpoint, timeUp: bool, data: seq<byte>, accept: nat)
    requires Inv(ep) && MayTick(ep, timeUp) && !Ends(PublicOf(ep), timeUp)
    requires Waiting(ep) < ep.cfg.cellSize
    ensures
      var r := Tick(ep, timeUp, data, accept);
      var before, after := ep.tx.retired + ep.tx.queue, r.tx.retired + r.tx.queue;
      var n := Min(|ep.tx.spdyOut|, ep.cfg.cellSize - 3);
      && |after| == |before| + 1 && before <= after
      && var c := after[|before|];
      && c.kind.Data? == (n > 0) && c.payload == ep.tx.spdyOut[..n] && r.tx.spdyOut == ep.tx.spdyOut[n..]
      && FlagsMadeIn(c.flags, ep.d) && c.flags.defensive
  {
    hide SenderInv, EncodeAll, Send, Refill, CellsInv, RoleInv, DefenseInv, WakeInv;
    RefillEffect(ep) by { InvParts(ep); InvCells(ep); }
    OneNewCell(ep);
    SendMoves(Refill(ep), accept);
    SendActiveEffect(Refill(ep), accept);
    var q := Refill(ep).tx.queue;
    assert q == ep.tx.queue + [q[|q| - 1]];
    assert ep.tx.retired + q == (ep.tx.retired + ep.tx.queue) + [q[|q| - 1]];
  }

  lemma OneNewCell(ep: Endpoint)
    requires TxOk(ep) && ep.d.state.Active? && Waiting(ep) < ep.cfg.cellSize
    ensures
      var r := Refill(ep);
      var n := Min(|ep.tx.spdyOut|, ep.cfg.cellSize - 3);
      && r.tx.retired == ep.tx.retired && r.tx.queue != [] && r.tx.queue[..|r.tx.queue| - 1] == ep.tx.queue
      && var c := r.tx.queue[|r.tx.queue| - 1];
      && c.kind.Data? == (n > 0) && c.payload == ep.tx.spdyOut[..n] && r.tx.spdyOut == ep.tx.spdyOut[n..]
      && FlagsMadeIn(c.flags, ep.d)
  {
    hide SenderInv, EncodeAll, AddDummyCell, FlagsMadeIn;
    ShortNotDroppable(ep);
    if ep.tx.spdyOut != [] {
      NewDataCell(ep);
      var q := AddDataCell(ep).tx.queue;
      SplitAt(q[|q| - 1].payload, AddDataCell(ep).tx.spdyOut, ep.tx.spdyOut);
    } else {
      NewDummyCell(ep);
      AddDummyKeepsRetired(ep);
    }
  }

  lemma AddDummyKeepsRetired(ep: Endpoint)
    requires TxOk(ep) && !ep.tx.droppable
    ensures AddDummyCell(ep).tx.retired == ep.tx.retired
  {
    hide SenderInv, EncodeAll;
  }

  lemma SplitAt(a: seq<byte>, b: seq<byte>, all: seq<byte>)
    requires a + b == all
    ensures a == all[..|a|] && b == all[|a|..]
  {
  }

  lemma InvCells(ep: Endpoint)
    requires Inv(ep)
    ensures CellsInv(ep) && RoleInv(ep)
  {
  }

  /** A session that starts by itself on the first write starts with less than two cells. */
  lemma AutoStartBelow(ep: Endpoint, accept: nat)
    requires Inv(ep) && MayWrite(ep) && ep.d.state.Pending?
    ensures Waiting(ep) == ep.cfg.cellSize
    ensures
      var r := Writable(ep, accept);
      && r.d.state.Active? && r.d.numWriteAttempts == 1
      && Waiting(r) == ep.cfg.cellSize - Min(accept, ep.cfg.cellSize)
  {
    WritableKeeps(ep, accept);
    StartSessionKeeps(ep);
    SendActiveEffect(StartSession(ep), accept);
  }

  /** No cell is withdrawn during a session: dummies are kept and cells are only added at the end. */
  lemma NothingReplaced(ep: Endpoint, i: Input)
    requires Inv(ep) && ep.d.state.Active? && MayInput(ep, i)
    requires Feed(ep, i).d.state.Active?
    ensures ep.tx.retired + ep.tx.queue <= Feed(ep, i).tx.retired + Feed(ep, i).tx.queue
  {
    if i.Local? && i.e.OnTick? {
      if Ends(PublicOf(ep), i.e.timeUp) {
        TickEnds(ep, i.e.timeUp, i.e.output, i.e.accepted);
      } else {
        RefillAppends(ep);
        SendMoves(Refill(ep), i.e.accepted);
      }
    } else {
      OtherKeepsCells(ep, i);
    }
  }

  lemma OtherKeepsCells(ep: Endpoint, i: Input)
    requires Inv(ep) && ep.d.state.Active? && MayInput(ep, i)
    requires i.Local? ==> !i.e.OnTick?
    ensures Feed(ep, i).tx.retired == ep.tx.retired && Feed(ep, i).tx.queue == ep.tx.queue
  {
    hide EncodeAll, WireInv;
  }

  lemma RefillAppends(ep: Endpoint)
    requires TxOk(ep)
    ensures Refill(ep).tx.retired == ep.tx.retired && ep.tx.queue <= Refill(ep).tx.queue
  {
    if Waiting(ep) < ep.cfg.cellSize {
      ShortNotDroppable(ep);
    }
  }

  lemma SendMoves(ep: Endpoint, accept: nat)
    requires CanSend(ep) && ep.d.state.Active?
    ensures Send(ep, accept).tx.retired + Send(ep, accept).tx.queue == ep.tx.retired + ep.tx.queue
  {
    var n := Min(accept, ep.cfg.cellSize);
    var tx := if Waiting(ep) - n < ep.cfg.cellSize then ep.tx.(droppable := false) else ep.tx;
    AdvanceMoves(tx, n, ep.cfg.cellSize);
  }

  /** Outside a session every write makes progress: what the socket takes leaves the queue for good,
      and a socket that takes everything leaves nothing behind and no wakeup pending. */
  lemma WritesDrain(ep: Endpoint, accept: nat)
    requires Inv(ep) && MayWrite(ep) && ep.d.state.Inactive?
    ensures
      var r := Writable(ep, accept);
      && (accept > 0 ==> Waiting(r) < Waiting(ep))
      && (accept >= Waiting(ep) ==> Waiting(r) == 0 && r.tx.queue == [] && !r.writeOn)
  {
    WritableKeeps(ep, accept);
    SendInactiveEffect(ep, accept);
    OutLenNatural(Writable(ep, accept).tx, ep.cfg.cellSize);
  }
}
