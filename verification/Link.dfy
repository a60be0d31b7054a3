/** What a receiver holds, in terms of the cells its peer has sent. */
module Link {
  import opened Cells
  import opened SendQueue
  import opened Endpoint
  import opened EndpointInv
  import opened Signals

  /** The receiver has handled the sender's first h cells and buffers the bytes received after them. */
  predicate LinkAt(from: Endpoint, rx: Receiver, h: nat) {
    && h <= |from.tx.retired|
    && Span(h, from.cfg.cellSize) <= rx.allRecv <= |from.tx.wire|
    && rx.inbuf == from.tx.wire[Span(h, from.cfg.cellSize)..rx.allRecv]
    && rx.consumed == Payloads(from.tx.retired[..h])
    && rx.dataRecv == |rx.consumed|
    && rx.dummyRecv == Dummies(from.tx.retired[..h])
    && rx.told == SignalsIn(from.tx.retired[..h])
    && rx.defensive == Defensives(from.tx.retired[..h])
  }

  /** The number of cells an end at rest has handled. */
  function Handled(ep: Endpoint): nat
    requires ValidConfig(ep.cfg)
  {
    Whole(ep.rx.allRecv, ep.cfg.peerCellSize)
  }

  lemma HandledUnique(ep: Endpoint, h: nat)
    requires ValidConfig(ep.cfg)
    requires Span(h, ep.cfg.peerCellSize) <= ep.rx.allRecv < Span(h, ep.cfg.peerCellSize) + ep.cfg.peerCellSize
    ensures Handled(ep) == h
  {
    var size := ep.cfg.peerCellSize;
    WholeAndRest(ep.rx.allRecv, size);
    SpanStrict(h, Handled(ep), size);
    SpanStrict(Handled(ep), h, size);
  }

  /** More cells and more bytes on the sender's side do not disturb the receiver. */
  lemma LinkExtends(from: Endpoint, to: Endpoint, rx: Receiver, h: nat)
    requires LinkAt(from, rx, h) && Extends(from, to)
    ensures LinkAt(to, rx, h)
  {
    assert to.tx.retired[..h] == from.tx.retired[..h];
    assert to.tx.wire[..rx.allRecv] == from.tx.wire[..rx.allRecv];
    SliceOfPrefix(from.tx.wire, to.tx.wire, Span(h, from.cfg.cellSize), rx.allRecv);
  }

  lemma SliceOfPrefix(a: seq<byte>, b: seq<byte>, i: nat, j: nat)
    requires a <= b && i <= j <= |a|
    ensures a[i..j] == b[i..j]
  {
  }

  /** The wire ends less than a cell after the last retired cell. */
  lemma WireLength(ep: Endpoint)
    requires TxOk(ep)
    ensures |ep.tx.wire| == Span(|ep.tx.retired|, ep.cfg.cellSize) + ep.tx.progress
  {
    EncodeAllLength(ep.tx.retired, ep.cfg.cellSize);
  }

  /** When a whole cell is buffered it is the sender's next cell, byte for byte. */
  lemma NextCell(from: Endpoint, rx: Receiver, h: nat)
    requires TxOk(from) && LinkAt(from, rx, h) && |rx.inbuf| >= from.cfg.cellSize
    ensures h < |from.tx.retired|
    ensures rx.inbuf[..from.cfg.cellSize] == Encode(from.tx.retired[h], from.cfg.cellSize)
    ensures Decode(rx.inbuf[..from.cfg.cellSize]) == Good(from.tx.retired[h])
  {
    var size := from.cfg.cellSize;
    WireLength(from);
    SpanStrict(h + 1, |from.tx.retired|, size);
    EncodeAllAt(from.tx.retired, h, size);
    CellOnWire(from.tx.wire, EncodeAll(from.tx.retired, size), rx.inbuf, Span(h, size), rx.allRecv, size);
    CellRoundTrip(from.tx.retired[h], size);
  }

  lemma CellOnWire(wire: seq<byte>, cells: seq<byte>, inbuf: seq<byte>, start: nat, end: nat, size: nat)
    requires cells <= wire && start + size <= |cells| && start + size <= end <= |wire|
    requires inbuf == wire[start..end]
    ensures inbuf[..size] == cells[start..start + size]
  {
  }

  lemma RetiredOne(from: Endpoint, h: nat)
    requires h < |from.tx.retired|
    ensures Payloads(from.tx.retired[..h + 1]) == Payloads(from.tx.retired[..h]) + from.tx.retired[h].payload
    ensures Dummies(from.tx.retired[..h + 1])
         == Dummies(from.tx.retired[..h]) + if from.tx.retired[h].kind.Dummy? then 1 else 0
    ensures Defensives(from.tx.retired[..h + 1])
         == Defensives(from.tx.retired[..h]) + if from.tx.retired[h].flags.defensive then 1 else 0
    ensures SignalsIn(from.tx.retired[..h + 1]) == SignalsIn(from.tx.retired[..h]) + Carried(from.tx.retired[h].flags)
  {
    assert from.tx.retired[..h + 1][..h] == from.tx.retired[..h];
  }

  lemma OnControlSilent(ep: Endpoint, f: Flags)
    ensures OnControl(ep, f).rx == ep.rx && OnControl(ep, f).tx == ep.tx && OnControl(ep, f).cfg == ep.cfg
  {
  }

  lemma HandleCellReceives(ep: Endpoint, c: Cell)
    ensures HandleCell(ep, c).rx == OnContent(ep, c).rx
    ensures HandleCell(ep, c).tx == ep.tx && HandleCell(ep, c).cfg == ep.cfg
  {
    hide OnControl;
    OnControlSilent(ep, c.flags);
  }

  /** Handling that cell moves the link on by one. */
  lemma CellHandled(from: Endpoint, to: Endpoint, h: nat)
    requires TxOk(from) && LinkAt(from, to.rx, h) && to.cfg.peerCellSize == from.cfg.cellSize
    requires |to.rx.inbuf| >= from.cfg.cellSize
    ensures h < |from.tx.retired|
    ensures LinkAt(from, AfterCell(to, from.tx.retired[h]).rx, h + 1)
  {
    NextCell(from, to.rx, h);
    RetiredOne(from, h);
    HandleCellReceives(to, from.tx.retired[h]);
    var c := from.tx.retired[h];
    assert WellFormed(c, from.cfg.cellSize);
    assert from.tx.wire[Span(h, from.cfg.cellSize)..to.rx.allRecv][from.cfg.cellSize..]
        == from.tx.wire[Span(h, from.cfg.cellSize) + from.cfg.cellSize..to.rx.allRecv];
  }

  /** Bytes arrive in the order in which they were written. */
  lemma BytesArrive(from: Endpoint, to: Endpoint, h: nat, n: nat)
    requires LinkAt(from, to.rx, h) && to.rx.allRecv + n <= |from.tx.wire|
    ensures LinkAt(from, Buffered(to, from.tx.wire[to.rx.allRecv..to.rx.allRecv + n]).rx, h)
  {
    assert from.tx.wire[Span(h, from.cfg.cellSize)..to.rx.allRecv] + from.tx.wire[to.rx.allRecv..to.rx.allRecv + n]
        == from.tx.wire[Span(h, from.cfg.cellSize)..to.rx.allRecv + n];
  }
}
