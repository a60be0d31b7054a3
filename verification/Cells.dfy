/** Fixed-size cells: a one-byte type-and-flags field, a two-byte big-endian payload length, the
    payload, and padding up to the cell size. */
module Cells {

  type byte = x: int | 0 <= x < 256

  const HEADER_SIZE: nat := 3
  const PADDING: byte := 65

  // Positions of the flags inside the five low bits of the type-and-flags byte.
  const START_POSITION: nat := 0
  const STOP_POSITION: nat := 1
  const AUTO_STOPPED_POSITION: nat := 2
  const DONE_POSITION: nat := 3
  const DEFENSIVE_POSITION: nat := 4

  datatype CellType = Data | Dummy

  datatype Flags = Flags(start: bool, stop: bool, autoStopped: bool, done: bool, defensive: bool) {
    /** A cell carrying one of these must reach the peer, so it must never be dropped. */
    predicate Important() {
      start || stop || autoStopped || done
    }

    function With(position: nat): (f: Flags)
      requires position <= DEFENSIVE_POSITION
    {
      if position == START_POSITION then this.(start := true)
      else if position == STOP_POSITION then this.(stop := true)
      else if position == AUTO_STOPPED_POSITION then this.(autoStopped := true)
      else if position == DONE_POSITION then this.(done := true)
      else this.(defensive := true)
    }
  }

  /** A control flag as a word of the session protocol. */
  datatype Signal = Start | Stop | AutoStopped | Done

  /** What a cell with these flags tells the peer. */
  function Carried(f: Flags): seq<Signal> {
    (if f.start then [Start] else []) + (if f.stop then [Stop] else [])
    + (if f.autoStopped then [AutoStopped] else []) + (if f.done then [Done] else [])
  }

  datatype Cell = Cell(kind: CellType, flags: Flags, payload: seq<byte>)

  /** A cell that fits: data cells are never empty and dummy cells always are. */
  predicate WellFormed(c: Cell, cellSize: nat) {
    && HEADER_SIZE + |c.payload| <= cellSize
    && (c.kind.Data? <==> c.payload != [])
  }

  predicate ValidCellSize(cellSize: nat) {
    HEADER_SIZE < cellSize <= 0xFFFF
  }

  // ---------- the type-and-flags byte ----------

  function BitValue(position: nat): nat
    requires position <= DEFENSIVE_POSITION
  {
    if position == START_POSITION then 1
    else if position == STOP_POSITION then 2
    else if position == AUTO_STOPPED_POSITION then 4
    else if position == DONE_POSITION then 8
    else 16
  }

  predicate TestFlag(b: byte, position: nat)
    requires position <= DEFENSIVE_POSITION
  {
    if position == START_POSITION then b % 2 == 1
    else if position == STOP_POSITION then b / 2 % 2 == 1
    else if position == AUTO_STOPPED_POSITION then b / 4 % 2 == 1
    else if position == DONE_POSITION then b / 8 % 2 == 1
    else b / 16 % 2 == 1
  }

  /** Sets one flag bit and leaves every other bit of the byte as it is. */
  function SetFlag(b: byte, position: nat): (r: byte)
    requires position <= DEFENSIVE_POSITION
  {
    if TestFlag(b, position) then b else (b + BitValue(position)) % 256
  }

  function TypeBits(kind: CellType): byte {
    if kind.Data? then 0 else 32
  }

  function Bit(on: bool, value: nat): nat {
    if on then value else 0
  }

  function TypeAndFlags(kind: CellType, f: Flags): (b: byte) {
    TypeBits(kind)
    + Bit(f.start, 1) + Bit(f.stop, 2) + Bit(f.autoStopped, 4) + Bit(f.done, 8) + Bit(f.defensive, 16)
  }

  function FlagsOf(b: byte): Flags {
    Flags(TestFlag(b, START_POSITION), TestFlag(b, STOP_POSITION), TestFlag(b, AUTO_STOPPED_POSITION),
          TestFlag(b, DONE_POSITION), TestFlag(b, DEFENSIVE_POSITION))
  }

  function TypeNumber(b: byte): nat {
    b / 32
  }

  lemma FlagsRoundTrip(kind: CellType, f: Flags)
    ensures FlagsOf(TypeAndFlags(kind, f)) == f
    ensures TypeNumber(TypeAndFlags(kind, f)) == if kind.Data? then 0 else 1
  {
  }

  /** Testing a flag of a cell's first byte looks at that flag alone. */
  lemma TestFlagTests(kind: CellType, f: Flags, position: nat)
    requires position <= DEFENSIVE_POSITION
    ensures TestFlag(TypeAndFlags(kind, f), position) <==> f.With(position) == f
  {
    FlagsRoundTrip(kind, f);
    assert FlagsOf(TypeAndFlags(kind, f)).With(position) == FlagsOf(TypeAndFlags(kind, f))
      <==> TestFlag(TypeAndFlags(kind, f), position) by { hide TypeAndFlags; }
  }

  lemma BitAdded(kind: CellType, f: Flags, position: nat)
    requires position <= DEFENSIVE_POSITION && f.With(position) != f
    ensures TypeAndFlags(kind, f.With(position)) == TypeAndFlags(kind, f) + BitValue(position) < 64
  {
  }

  lemma SetFlagSetsOne(kind: CellType, f: Flags, position: nat)
    requires position <= DEFENSIVE_POSITION
    ensures SetFlag(TypeAndFlags(kind, f), position) == TypeAndFlags(kind, f.With(position))
  {
    TestFlagTests(kind, f, position);
    if f.With(position) != f {
      BitAdded(kind, f, position);
    }
  }

  /** Where every flag sits in the byte, as bits. */
  lemma FlagsAreBits(b: byte)
    ensures FlagsOf(b).start <==> (b as bv8) & 0x01 != 0
    ensures FlagsOf(b).stop <==> (b as bv8) & 0x02 != 0
    ensures FlagsOf(b).autoStopped <==> (b as bv8) & 0x04 != 0
    ensures FlagsOf(b).done <==> (b as bv8) & 0x08 != 0
    ensures FlagsOf(b).defensive <==> (b as bv8) & 0x10 != 0
  {
  }

  /** The type is in the three high bits. */
  lemma TypeIsHighBits(b: byte)
    ensures TypeNumber(b) as bv8 == (b as bv8) >> 5
  {
  }

  // ---------- one cell ----------

  function Padding(n: nat): (s: seq<byte>)
    ensures |s| == n
  {
    seq(n, _ => PADDING)
  }

  function HighByte(n: nat): byte
    requires n <= 0xFFFF
  {
    n / 256
  }

  function LowByte(n: nat): byte {
    n % 256
  }

  function Encode(c: Cell, cellSize: nat): (s: seq<byte>)
    requires ValidCellSize(cellSize) && HEADER_SIZE + |c.payload| <= cellSize
    ensures |s| == cellSize
  {
    [TypeAndFlags(c.kind, c.flags), HighByte(|c.payload|), LowByte(|c.payload|)]
    + c.payload + Padding(cellSize - HEADER_SIZE - |c.payload|)
  }

  function PayloadLength(s: seq<byte>): nat
    requires |s| >= HEADER_SIZE
  {
    var high: nat := s[1];
    high * 256 + s[2]
  }

  /** What the receiver makes of one whole cell; None stands for its fatal outcomes. */
  datatype Decoded = Good(cell: Cell) | Fatal

  function Decode(s: seq<byte>): Decoded
    requires |s| >= HEADER_SIZE
  {
    var n := PayloadLength(s);
    if TypeNumber(s[0]) > 1 || HEADER_SIZE + n > |s| then Fatal
    else if TypeNumber(s[0]) == 0 then Good(Cell(Data, FlagsOf(s[0]), s[HEADER_SIZE..HEADER_SIZE + n]))
    else Good(Cell(Dummy, FlagsOf(s[0]), s[HEADER_SIZE..HEADER_SIZE + n]))
  }

  /** The round trip: decoding an encoded cell gives back its type, flags and payload. */
  lemma CellRoundTrip(c: Cell, cellSize: nat)
    requires ValidCellSize(cellSize) && WellFormed(c, cellSize)
    ensures Decode(Encode(c, cellSize)) == Good(c)
  {
    FlagsRoundTrip(c.kind, c.flags);
    var s := Encode(c, cellSize);
    assert s[HEADER_SIZE..HEADER_SIZE + |c.payload|] == c.payload;
  }

  /** The bytes of a cell on the wire: type and flags, the length in network byte order, the payload,
      and padding up to the cell size. */
  lemma CellLayout(c: Cell, cellSize: nat)
    requires ValidCellSize(cellSize) && WellFormed(c, cellSize)
    ensures
      var s := Encode(c, cellSize);
      && |s| == cellSize
      && FlagsOf(s[0]) == c.flags && (s[0] as bv8) >> 5 == (if c.kind.Data? then 0 else 1)
      && (s[1] as int) * 256 + s[2] as int == |c.payload|
      && s[3..3 + |c.payload|] == c.payload
      && (forall i :: 3 + |c.payload| <= i < cellSize ==> s[i] == 'A' as int)
  {
    FlagsRoundTrip(c.kind, c.flags);
    TypeIsHighBits(TypeAndFlags(c.kind, c.flags));
  }

  /** Which bytes are a cell: the type is DATA or DUMMY and the payload fits. */
  lemma DecodeExact(s: seq<byte>)
    requires |s| >= HEADER_SIZE
    ensures
      var n := (s[1] as int) * 256 + s[2] as int;
      && (Decode(s).Fatal? <==> s[0] >= 64 || 3 + n > |s|)
      && (Decode(s).Good? ==>
            && (Decode(s).cell.kind.Data? <==> s[0] < 32)
            && Decode(s).cell.flags == FlagsOf(s[0])
            && Decode(s).cell.payload == s[3..3 + n])
  {
  }

  // ---------- sequences of cells ----------

  predicate AllWellFormed(cs: seq<Cell>, cellSize: nat) {
    forall i :: 0 <= i < |cs| ==> WellFormed(cs[i], cellSize)
  }

  function EncodeAll(cs: seq<Cell>, cellSize: nat): (s: seq<byte>)
    requires ValidCellSize(cellSize) && AllWellFormed(cs, cellSize)
  {
    if cs == [] then [] else EncodeAll(cs[..|cs| - 1], cellSize) + Encode(cs[|cs| - 1], cellSize)
  }

  /** The number of bytes taken by n whole cells. */
  function Span(n: nat, cellSize: nat): nat {
    if n == 0 then 0 else Span(n - 1, cellSize) + cellSize
  }

  lemma {:induction false} SpanIsProduct(n: nat, cellSize: nat)
    ensures Span(n, cellSize) == n * cellSize
  {
    if n > 0 {
      SpanIsProduct(n - 1, cellSize);
    }
  }

  lemma {:induction false} EncodeAllLength(cs: seq<Cell>, cellSize: nat)
    requires ValidCellSize(cellSize) && AllWellFormed(cs, cellSize)
    ensures |EncodeAll(cs, cellSize)| == Span(|cs|, cellSize)
  {
    if cs != [] {
      EncodeAllLength(cs[..|cs| - 1], cellSize);
    }
  }

  lemma {:induction false} EncodeAllAppend(a: seq<Cell>, b: seq<Cell>, cellSize: nat)
    requires ValidCellSize(cellSize) && AllWellFormed(a, cellSize) && AllWellFormed(b, cellSize)
    ensures AllWellFormed(a + b, cellSize)
    ensures EncodeAll(a + b, cellSize) == EncodeAll(a, cellSize) + EncodeAll(b, cellSize)
  {
    hide Encode, WellFormed;
    if b == [] {
      assert a + b == a;
    } else {
      var front := b[..|b| - 1];
      EncodeAllAppend(a, front, cellSize);
      assert (a + b)[..|a + b| - 1] == a + front;
    }
  }

  /** The bytes of one cell, cut out of the encoding of the whole sequence. */
  lemma EncodeAllAt(cs: seq<Cell>, i: nat, cellSize: nat)
    requires ValidCellSize(cellSize) && AllWellFormed(cs, cellSize) && i < |cs|
    ensures Span(i, cellSize) + cellSize <= |EncodeAll(cs, cellSize)|
    ensures EncodeAll(cs, cellSize)[Span(i, cellSize)..Span(i, cellSize) + cellSize] == Encode(cs[i], cellSize)
  {
    hide Encode;
    var a, b := cs[..i], cs[i + 1..];
    assert cs == (a + [cs[i]]) + b;
    EncodeAllAppend(a + [cs[i]], b, cellSize);
    assert (a + [cs[i]])[..i] == a;
    assert EncodeAll(a + [cs[i]], cellSize) == EncodeAll(a, cellSize) + Encode(cs[i], cellSize);
    EncodeAllLength(a, cellSize);
  }

  function Payloads(cs: seq<Cell>): seq<byte> {
    if cs == [] then [] else Payloads(cs[..|cs| - 1]) + cs[|cs| - 1].payload
  }

  lemma {:induction false} PayloadsAppend(a: seq<Cell>, b: seq<Cell>)
    ensures Payloads(a + b) == Payloads(a) + Payloads(b)
  {
    if b == [] {
      assert a + b == a;
    } else {
      var front := b[..|b| - 1];
      PayloadsAppend(a, front);
      assert (a + b)[..|a + b| - 1] == a + front;
    }
  }

  /** How many of the cells are marked as sent in a defense session. */
  function Defensives(cs: seq<Cell>): nat {
    if cs == [] then 0 else Defensives(cs[..|cs| - 1]) + if cs[|cs| - 1].flags.defensive then 1 else 0
  }

  function Dummies(cs: seq<Cell>): nat {
    if cs == [] then 0 else Dummies(cs[..|cs| - 1]) + if cs[|cs| - 1].kind.Dummy? then 1 else 0
  }

  lemma {:induction false} DummiesAppend(a: seq<Cell>, b: seq<Cell>)
    ensures Dummies(a + b) == Dummies(a) + Dummies(b)
  {
    if b == [] {
      assert a + b == a;
    } else {
      var front := b[..|b| - 1];
      DummiesAppend(a, front);
      assert (a + b)[..|a + b| - 1] == a + front;
    }
  }

  /** The per-cell payload sizes that the sender keeps beside its byte buffer. */
  function Sizes(cs: seq<Cell>): seq<nat> {
    seq(|cs|, i requires 0 <= i < |cs| => |cs[i].payload|)
  }
}
