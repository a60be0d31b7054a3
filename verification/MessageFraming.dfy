/** Length-prefixed messages on a byte stream: a header of a one-byte type, a four-byte id and a
    two-byte length, both big-endian, and the payload. */
module MessageFraming {
  import opened Cells

  const MSG_HEADER_SIZE: nat := 7

  datatype Message = Message(kind: byte, id: nat, payload: seq<byte>)

  predicate ValidMessage(m: Message) {
    m.id < 0x1_0000_0000 && |m.payload| < 0x1_0000
  }

  function IdBytes(id: nat): (s: seq<byte>)
    requires id < 0x1_0000_0000
    ensures |s| == 4
  {
    [id / 256 / 256 / 256, id / 256 / 256 % 256, id / 256 % 256, id % 256]
  }

  function LengthBytes(n: nat): (s: seq<byte>)
    requires n < 0x1_0000
    ensures |s| == 2
  {
    [n / 256, n % 256]
  }

  function HeaderBytes(kind: byte, id: nat, n: nat): (s: seq<byte>)
    requires id < 0x1_0000_0000 && n < 0x1_0000
    ensures |s| == MSG_HEADER_SIZE
  {
    [kind] + IdBytes(id) + LengthBytes(n)
  }

  function MessageBytes(m: Message): (s: seq<byte>)
    requires ValidMessage(m)
    ensures |s| == MSG_HEADER_SIZE + |m.payload|
  {
    HeaderBytes(m.kind, m.id, |m.payload|) + m.payload
  }

  /** The header at the front of a buffer. */
  datatype Header = Header(kind: byte, id: nat, len: nat)

  function HeaderAt(s: seq<byte>): (h: Header)
    requires |s| >= MSG_HEADER_SIZE
    ensures h.id < 0x1_0000_0000 && h.len < 0x1_0000
  {
    var b0: nat, b1: nat, b2: nat, b3: nat, n0: nat, n1: nat := s[1], s[2], s[3], s[4], s[5], s[6];
    Header(s[0], ((b0 * 256 + b1) * 256 + b2) * 256 + b3, n0 * 256 + n1)
  }

  /** The seven bytes of a header on the wire, in network byte order. */
  lemma HeaderLayout(kind: byte, id: nat, n: nat)
    requires id < 0x1_0000_0000 && n < 0x1_0000
    ensures
      var s := HeaderBytes(kind, id, n);
      && |s| == 7 && s[0] == kind
      && (s[1] as int) * 0x100_0000 + (s[2] as int) * 0x1_0000 + (s[3] as int) * 0x100 + s[4] as int == id
      && (s[5] as int) * 0x100 + s[6] as int == n
  {
  }

  lemma HeaderRoundTrip(kind: byte, id: nat, n: nat, rest: seq<byte>)
    requires id < 0x1_0000_0000 && n < 0x1_0000
    ensures HeaderAt(HeaderBytes(kind, id, n) + rest) == Header(kind, id, n)
  {
  }

  lemma HeaderExact(s: seq<byte>)
    requires |s| >= MSG_HEADER_SIZE
    ensures HeaderBytes(HeaderAt(s).kind, HeaderAt(s).id, HeaderAt(s).len) == s[..MSG_HEADER_SIZE]
  {
    var b0: nat, b1: nat, b2: nat, b3: nat := s[1], s[2], s[3], s[4];
    var id := HeaderAt(s).id;
    Digit((b0 * 256 + b1) * 256 + b2, b3);
    Digit(b0 * 256 + b1, b2);
    Digit(b0, b1);
    assert IdBytes(id) == [s[1], s[2], s[3], s[4]];
    assert LengthBytes(HeaderAt(s).len) == [s[5], s[6]];
  }

  lemma Digit(high: nat, low: nat)
    requires low < 256
    ensures (high * 256 + low) / 256 == high && (high * 256 + low) % 256 == low
  {
  }

  /** How many bytes the reader must have before it can get on. */
  function Needed(s: seq<byte>): nat {
    if |s| < MSG_HEADER_SIZE then MSG_HEADER_SIZE else MSG_HEADER_SIZE + HeaderAt(s).len
  }

  predicate HasMessage(s: seq<byte>) {
    |s| >= MSG_HEADER_SIZE && |s| >= Needed(s)
  }

  function FirstMessage(s: seq<byte>): (m: Message)
    requires HasMessage(s)
    ensures ValidMessage(m) && MSG_HEADER_SIZE + |m.payload| == Needed(s)
  {
    Message(HeaderAt(s).kind, HeaderAt(s).id, s[MSG_HEADER_SIZE..Needed(s)])
  }

  /** The messages that have arrived completely, and the bytes after them. */
  function Messages(s: seq<byte>): seq<Message>
    decreases |s|
  {
    if HasMessage(s) then [FirstMessage(s)] + Messages(s[Needed(s)..]) else []
  }

  function Rest(s: seq<byte>): seq<byte>
    decreases |s|
  {
    if HasMessage(s) then Rest(s[Needed(s)..]) else s
  }

  predicate AllValid(ms: seq<Message>) {
    forall i :: 0 <= i < |ms| ==> ValidMessage(ms[i])
  }

  function Bytes(ms: seq<Message>): seq<byte>
    requires AllValid(ms)
  {
    if ms == [] then [] else MessageBytes(ms[0]) + Bytes(ms[1..])
  }

  lemma {:induction false} BytesAppend(ms: seq<Message>, m: Message)
    requires AllValid(ms) && ValidMessage(m)
    ensures AllValid(ms + [m]) && Bytes(ms + [m]) == Bytes(ms) + MessageBytes(m)
  {
    hide MessageBytes, ValidMessage;
    if ms == [] {
      assert [m][1..] == [] && MessageBytes(m) + [] == MessageBytes(m);
    } else {
      assert (ms + [m])[1..] == ms[1..] + [m];
      BytesAppend(ms[1..], m);
    }
  }

  // ---------- decoding and encoding are inverse ----------

  lemma FirstOf(m: Message, tail: seq<byte>)
    requires ValidMessage(m)
    ensures HasMessage(MessageBytes(m) + tail) && FirstMessage(MessageBytes(m) + tail) == m
    ensures (MessageBytes(m) + tail)[Needed(MessageBytes(m) + tail)..] == tail
  {
    var s := MessageBytes(m) + tail;
    assert s == HeaderBytes(m.kind, m.id, |m.payload|) + (m.payload + tail);
    HeaderRoundTrip(m.kind, m.id, |m.payload|, m.payload + tail);
    assert s[MSG_HEADER_SIZE..Needed(s)] == m.payload;
  }

  lemma ReadFirst(m: Message, more: seq<byte>)
    requires ValidMessage(m)
    ensures Messages(MessageBytes(m) + more) == [m] + Messages(more)
    ensures Rest(MessageBytes(m) + more) == Rest(more)
  {
    hide HeaderAt, FirstMessage, MessageBytes, HasMessage, Needed;
    FirstOf(m, more);
  }

  /** Reading an encoded sequence gives it back, whatever follows it. */
  lemma {:induction false} ReadBack(ms: seq<Message>, tail: seq<byte>)
    requires AllValid(ms)
    ensures Messages(Bytes(ms) + tail) == ms + Messages(tail)
    ensures Rest(Bytes(ms) + tail) == Rest(tail)
  {
    hide MessageBytes, Messages, Rest;
    if ms == [] {
      assert [] + tail == tail;
    } else {
      var more := Bytes(ms[1..]) + tail;
      assert Bytes(ms) + tail == MessageBytes(ms[0]) + more;
      ReadFirst(ms[0], more);
      ReadBack(ms[1..], tail);
      assert [ms[0]] + (ms[1..] + Messages(tail)) == ms + Messages(tail);
    }
  }

  lemma FirstBytes(s: seq<byte>)
    requires HasMessage(s)
    ensures s == MessageBytes(FirstMessage(s)) + s[Needed(s)..]
  {
    HeaderExact(s);
    assert s == s[..MSG_HEADER_SIZE] + s[MSG_HEADER_SIZE..Needed(s)] + s[Needed(s)..];
  }

  /** Any bytes at all are the encoding of the messages read from them and an incomplete rest. */
  lemma {:induction false} WriteBack(s: seq<byte>)
    ensures AllValid(Messages(s)) && s == Bytes(Messages(s)) + Rest(s)
    ensures !HasMessage(Rest(s))
    decreases |s|
  {
    hide HeaderAt, FirstMessage, MessageBytes, ValidMessage;
    if HasMessage(s) {
      var m, more := FirstMessage(s), s[Needed(s)..];
      WriteBack(more);
      FirstBytes(s);
      assert Messages(s)[1..] == Messages(more);
      assert MessageBytes(m) + (Bytes(Messages(more)) + Rest(more)) == Bytes(Messages(s)) + Rest(s);
    } else {
      assert [] + s == s;
    }
  }

  /** Stopping in the middle does no harm: what is left over is read on when more bytes come. */
  lemma ReadOn(a: seq<byte>, b: seq<byte>)
    ensures Messages(a + b) == Messages(a) + Messages(Rest(a) + b)
    ensures Rest(a + b) == Rest(Rest(a) + b)
  {
    WriteBack(a);
    assert a + b == Bytes(Messages(a)) + (Rest(a) + b);
    ReadBack(Messages(a), Rest(a) + b);
  }

  // ---------- what has arrived ----------

  /** How many of the messages lie completely within the first n bytes of their encoding. */
  function Arrived(ms: seq<Message>, n: int): (k: nat)
    requires AllValid(ms)
    ensures k <= |ms|
  {
    if ms == [] || n < |MessageBytes(ms[0])| then 0 else 1 + Arrived(ms[1..], n - |MessageBytes(ms[0])|)
  }

  /** Arrived is the greatest number of messages whose encoding fits. */
  lemma {:induction false} ArrivedIsGreatest(ms: seq<Message>, n: nat, k: nat)
    requires AllValid(ms) && k <= |ms|
    ensures |Bytes(ms[..k])| <= n <==> k <= Arrived(ms, n)
  {
    hide MessageBytes, ValidMessage;
    if k > 0 {
      assert ms[..k][1..] == ms[1..][..k - 1];
      if n >= |MessageBytes(ms[0])| {
        ArrivedIsGreatest(ms[1..], n - |MessageBytes(ms[0])|, k - 1);
      }
    }
  }

  /** A message that is cut short is not yet seen. */
  lemma CutShort(m: Message, tail: seq<byte>, n: nat)
    requires ValidMessage(m) && n < |MessageBytes(m)|
    ensures !HasMessage((MessageBytes(m) + tail)[..n])
  {
    var s := MessageBytes(m);
    var cut := (s + tail)[..n];
    if |cut| >= MSG_HEADER_SIZE {
      FirstOf(m, []);
      assert s + [] == s;
      assert HeaderAt(cut) == HeaderAt(s);
    }
  }

  /** The first n bytes of an encoded sequence hold exactly the messages that fit into them. */
  lemma {:induction false} PrefixHolds(ms: seq<Message>, n: nat)
    requires AllValid(ms) && n <= |Bytes(ms)|
    ensures Messages(Bytes(ms)[..n]) == ms[..Arrived(ms, n)]
  {
    hide HeaderAt, FirstMessage, MessageBytes, ValidMessage;
    if ms != [] {
      var first, more := MessageBytes(ms[0]), Bytes(ms[1..]);
      if n < |first| {
        CutShort(ms[0], more, n);
      } else {
        assert (first + more)[..n] == first + more[..n - |first|];
        FirstOf(ms[0], more[..n - |first|]);
        PrefixHolds(ms[1..], n - |first|);
      }
    }
  }
}
