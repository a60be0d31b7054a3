/** `GenericMessageChannel`: sends messages and takes them out of the input again, looking at a header
    without removing it, and asks to be called only when it can get on. */
module MessageChannels {
  import opened Cells
  import opened MessageFraming

  datatype StreamState = ReadHeader | ReadMsg

  /** The channel as a value; `received` is what the observer has been given. */
  datatype Reader = Reader(
    input: seq<byte>,
    state: StreamState,
    header: Header,
    watermark: nat,
    received: seq<Message>)

  const NO_HEADER: Header := Header(0, 0, 0)

  const NEW: Reader := Reader([], ReadHeader, NO_HEADER, 0, [])

  /** Between messages no header is kept; otherwise it is the one at the front of the input. */
  predicate HeaderInv(r: Reader) {
    match r.state
    case ReadHeader => r.header == NO_HEADER
    case ReadMsg => |r.input| >= MSG_HEADER_SIZE && r.header == HeaderAt(r.input)
  }

  /** `_consume_input`: gives the observer every message that has arrived and keeps the rest. */
  function Consume(r: Reader): Reader {
    var rest := Rest(r.input);
    Reader(rest,
           if |rest| < MSG_HEADER_SIZE then ReadHeader else ReadMsg,
           if |rest| < MSG_HEADER_SIZE then NO_HEADER else HeaderAt(rest),
           Needed(rest),
           r.received + Messages(r.input))
  }

  /** More bytes come, and the channel is called. */
  function Feed(r: Reader, chunk: seq<byte>): Reader {
    Consume(r.(input := r.input + chunk))
  }

  function FeedAll(r: Reader, chunks: seq<seq<byte>>): Reader {
    if chunks == [] then r else Feed(FeedAll(r, chunks[..|chunks| - 1]), chunks[|chunks| - 1])
  }

  function Concat(chunks: seq<seq<byte>>): seq<byte> {
    if chunks == [] then [] else Concat(chunks[..|chunks| - 1]) + chunks[|chunks| - 1]
  }

  /** A reader between two calls. */
  predicate AtRest(r: Reader) {
    && HeaderInv(r)
    && !HasMessage(r.input)
    && (r.state.ReadHeader? <==> |r.input| < MSG_HEADER_SIZE)
    && r.watermark == Needed(r.input)
  }

  lemma ConsumeRests(r: Reader)
    ensures AtRest(Consume(r))
    ensures Consume(r).state.ReadMsg? ==> Consume(r).header.len > 0
  {
    WriteBack(r.input);
  }

  // ---------- chunking ----------

  /** However the bytes are cut, the observer gets the messages that are in all of them together. */
  lemma {:induction false} ChunksDoNotMatter(chunks: seq<seq<byte>>)
    ensures FeedAll(NEW, chunks).received == Messages(Concat(chunks))
    ensures FeedAll(NEW, chunks).input == Rest(Concat(chunks))
  {
    if chunks != [] {
      var front, last := chunks[..|chunks| - 1], chunks[|chunks| - 1];
      ChunksDoNotMatter(front);
      ReadOn(Concat(front), last);
    }
  }

  /** Any part of an encoded sequence, cut into any chunks, yields exactly the messages that have
      arrived completely, in order and with all their fields. */
  lemma FramingRoundTrip(ms: seq<Message>, chunks: seq<seq<byte>>)
    requires AllValid(ms) && Concat(chunks) <= Bytes(ms)
    ensures FeedAll(NEW, chunks).received == ms[..Arrived(ms, |Concat(chunks)|)]
    ensures Concat(chunks) == Bytes(ms) ==> FeedAll(NEW, chunks).received == ms && FeedAll(NEW, chunks).input == []
  {
    ChunksDoNotMatter(chunks);
    PrefixHolds(ms, |Concat(chunks)|);
    assert Bytes(ms)[..|Concat(chunks)|] == Concat(chunks);
    if Concat(chunks) == Bytes(ms) {
      ReadBack(ms, []);
      assert Bytes(ms) + [] == Bytes(ms);
      assert ms + [] == ms;
    }
  }

  // ---------- the watermark ----------

  /** The watermark is above what is buffered, and a call finds something to do if and only if the
      buffered bytes have reached it. */
  lemma WatermarkExact(r: Reader, more: seq<byte>)
    requires AtRest(r)
    ensures |r.input| < r.watermark
    ensures |r.input + more| < r.watermark <==> Feed(r, more) == r.(input := r.input + more)
  {
    var s := r.input + more;
    if |r.input| >= MSG_HEADER_SIZE {
      assert HeaderAt(s) == HeaderAt(r.input);
    }
    if |s| < r.watermark {
      assert r.received + [] == r.received;
    } else if HasMessage(s) {
      assert Messages(s) != [];
      assert |Feed(r, more).received| > |r.received|;
    }
  }

  /** A channel that is called only when the watermark is reached. */
  function GatedFeed(r: Reader, chunk: seq<byte>): Reader {
    if |r.input + chunk| < r.watermark then r.(input := r.input + chunk) else Feed(r, chunk)
  }

  function GatedFeedAll(r: Reader, chunks: seq<seq<byte>>): Reader {
    if chunks == [] then r else GatedFeed(GatedFeedAll(r, chunks[..|chunks| - 1]), chunks[|chunks| - 1])
  }

  /** Not being called below the watermark never delays a message. */
  lemma {:induction false} GatingIsInvisible(chunks: seq<seq<byte>>)
    ensures GatedFeedAll(NEW, chunks) == FeedAll(NEW, chunks)
    ensures chunks != [] ==> AtRest(FeedAll(NEW, chunks))
  {
    if chunks != [] {
      var front, last := chunks[..|chunks| - 1], chunks[|chunks| - 1];
      GatingIsInvisible(front);
      var r := FeedAll(NEW, front);
      ConsumeRests(r.(input := r.input + last));
      if front != [] {
        WatermarkExact(r, last);
      }
    }
  }

  // ---------- the object ----------

  lemma OneMore(a: Reader, b: Reader)
    requires HasMessage(a.input)
    requires b.input == a.input[Needed(a.input)..] && b.received == a.received + [FirstMessage(a.input)]
    ensures Consume(b) == Consume(a)
  {
    assert (a.received + [FirstMessage(a.input)]) + Messages(b.input)
        == a.received + ([FirstMessage(a.input)] + Messages(b.input));
  }

  /** A reader that has nothing left to do is what the call makes of it, once its watermark is set. */
  lemma NothingMore(r: Reader, done: Reader)
    requires HeaderInv(r) && !HasMessage(r.input) && (r.state.ReadHeader? <==> |r.input| < MSG_HEADER_SIZE)
    requires done == r.(watermark := Needed(r.input))
    ensures done == Consume(r) && AtRest(done)
  {
    assert r.received + [] == r.received;
  }

  class GenericMessageChannel {
    var input: seq<byte>
    var output: seq<byte>
    var state: StreamState
    var msgType: byte
    var msgId: nat
    var msgLen: nat
    var watermark: nat
    var received: seq<Message>

    /** The messages sent so far. */
    ghost var sent: seq<Message>

    ghost function Abs(): Reader
      reads `input, `state, `msgType, `msgId, `msgLen, `watermark, `received
    {
      Reader(input, state, Header(msgType, msgId, msgLen), watermark, received)
    }

    ghost predicate OutputOk()
      reads `output, `sent
    {
      AllValid(sent) && output == Bytes(sent)
    }

    ghost predicate Valid()
      reads this
    {
      HeaderInv(Abs()) && OutputOk()
    }

    constructor ()
      ensures Valid() && Abs() == NEW && sent == []
    {
      input, output, state, msgType, msgId, msgLen := [], [], ReadHeader, 0, 0, 0;
      watermark, received, sent := 0, [], [];
    }

    method SendHeader(kind: byte, id: nat, len: nat)
      requires id < 0x1_0000_0000 && len < 0x1_0000
      modifies `output
      ensures output == old(output) + HeaderBytes(kind, id, len)
    {
      output := output + [kind];
      output := output + IdBytes(id);
      output := output + LengthBytes(len);
    }

    /** Sends the first len bytes of data. */
    method SendMsg(kind: byte, len: nat, data: seq<byte>, id: nat)
      requires Valid() && id < 0x1_0000_0000 && len < 0x1_0000 && len <= |data|
      modifies `output, `sent
      ensures Valid() && sent == old(sent) + [Message(kind, id, data[..len])]
    {
      hide HeaderBytes, HeaderInv;
      ghost var m := Message(kind, id, data[..len]);
      BytesAppend(sent, m);
      SendHeader(kind, id, len);
      if len > 0 {
        output := output + data[..len];
      }
      sent := sent + [m];
      assert (Bytes(old(sent)) + HeaderBytes(kind, id, len)) + m.payload == Bytes(old(sent)) + MessageBytes(m);
    }

    /** Takes a look at the header and leaves it in the input. */
    method PeekHeader()
      requires state.ReadHeader? && |input| >= MSG_HEADER_SIZE
      modifies `state, `msgType, `msgId, `msgLen
      ensures state.ReadMsg? && HeaderInv(Abs())
      ensures Consume(Abs()) == Consume(old(Abs()))
    {
      msgType, msgId, msgLen := HeaderAt(input).kind, HeaderAt(input).id, HeaderAt(input).len;
      state := ReadMsg;
    }

    /** Gives the observer the message at the front of the input and removes it. */
    method TakeMessage()
      requires state.ReadMsg? && HeaderInv(Abs()) && |input| >= MSG_HEADER_SIZE + msgLen
      modifies `input, `state, `msgType, `msgId, `msgLen, `received
      ensures state.ReadHeader? && HeaderInv(Abs())
      ensures |input| < old(|input|)
      ensures Consume(Abs()) == Consume(old(Abs()))
    {
      var totalLen := MSG_HEADER_SIZE + msgLen;
      received := received + [Message(msgType, msgId, input[MSG_HEADER_SIZE..totalLen])];
      msgType, msgId, msgLen := 0, 0, 0;
      state := ReadHeader;
      input := input[totalLen..];
      OneMore(old(Abs()), Abs());
    }

    method UpdateReadWatermark()
      requires state.ReadHeader? ==> msgLen == 0
      requires state.ReadMsg? ==> msgLen > 0
      modifies `watermark
      ensures watermark == MSG_HEADER_SIZE + if state.ReadHeader? then 0 else msgLen
    {
      if state.ReadHeader? {
        assert msgLen == 0;
        watermark := MSG_HEADER_SIZE;
      } else {
        assert msgLen > 0;
        watermark := MSG_HEADER_SIZE + msgLen;
      }
    }

    method ConsumeInput()
      requires Valid()
      modifies `input, `state, `msgType, `msgId, `msgLen, `watermark, `received
      ensures Valid() && Abs() == Consume(old(Abs())) && AtRest(Abs())
    {
      hide Consume, Bytes, HeaderAt;
      var keepConsuming := true;
      while keepConsuming
        invariant HeaderInv(Abs())
        invariant Consume(Abs()) == Consume(old(Abs()))
        invariant !keepConsuming ==> |input| < Needed(input) && (state.ReadHeader? <==> |input| < MSG_HEADER_SIZE)
        decreases |input|, if state.ReadHeader? then 1 else 0, keepConsuming
      {
        match state
        case ReadHeader =>
          assert msgLen == 0;
          if |input| >= MSG_HEADER_SIZE {
            PeekHeader();
          } else {
            keepConsuming := false;
          }
        case ReadMsg =>
          if |input| >= MSG_HEADER_SIZE + msgLen {
            TakeMessage();
          } else {
            keepConsuming := false;
          }
      }
      ghost var idle := Abs();
      UpdateReadWatermark();
      NothingMore(idle, Abs());
    }

    method OnNewReadDataAvailable(chunk: seq<byte>)
      requires Valid()
      modifies `input, `state, `msgType, `msgId, `msgLen, `watermark, `received
      ensures Valid() && Abs() == Feed(old(Abs()), chunk) && AtRest(Abs())
    {
      input := input + chunk;
      ConsumeInput();
    }
  }
}
