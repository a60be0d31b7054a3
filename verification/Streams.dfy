/** The inward half of one SPDY stream: its user writes bytes and at last an EOF, SPDY reads, and a
    read that finds nothing is deferred until the user acts again. */
module Streams {
  import opened Cells

  /** The fields of `StreamState`, and beside them what SPDY makes of them: `waiting` while SPDY does not
      ask for data, `finished` once it has been told of the EOF. `written` and `handed` are history. */
  datatype Stream = Stream(
    buf: seq<byte>,
    deferred: bool,
    seenEof: bool,
    waiting: bool,
    finished: bool,
    written: seq<byte>,
    handed: seq<byte>)

  const NEW: Stream := Stream([], false, false, false, false, [], [])

  datatype Action = Write(data: seq<byte>) | Finish | Read(length: nat)

  /** What one read gives to SPDY. */
  datatype Answer = Some(data: seq<byte>) | Defer | Eof

  /** SPDY asks for a positive number of bytes, and not while it waits or after the EOF. */
  predicate May(s: Stream, a: Action) {
    match a
    case Write(_) => true
    case Finish => !s.seenEof
    case Read(length) => length > 0 && !s.waiting && !s.finished
  }

  /** What the code insists on: one EOF at most, and resuming only what SPDY has put aside. */
  predicate Checks(s: Stream, a: Action) {
    match a
    case Write(_) => s.deferred ==> s.waiting
    case Finish => !s.seenEof && (s.deferred ==> s.waiting)
    case Read(_) => true
  }

  function Resume(s: Stream): Stream {
    if s.deferred then s.(deferred := false, waiting := false) else s
  }

  function Answered(s: Stream, length: nat): Answer {
    if length > 0 && s.buf != [] then Some(s.buf[..if length < |s.buf| then length else |s.buf|])
    else if s.seenEof then Eof
    else Defer
  }

  function Act(s: Stream, a: Action): Stream {
    match a
    case Write(data) => Resume(s.(buf := s.buf + data, written := s.written + data))
    case Finish => Resume(s.(seenEof := true))
    case Read(length) =>
      match Answered(s, length)
      case Some(data) => s.(buf := s.buf[|data|..], handed := s.handed + data)
      case Defer => s.(deferred := true, waiting := true)
      case Eof => s.(finished := true)
  }

  // ---------- every run ----------

  predicate Allowed(s: Stream, run: seq<Action>)
    decreases |run|
  {
    run == [] || (May(s, run[0]) && Allowed(Act(s, run[0]), run[1..]))
  }

  function End(s: Stream, run: seq<Action>): Stream
    decreases |run|
  {
    if run == [] then s else End(Act(s, run[0]), run[1..])
  }

  /** SPDY waits exactly while the stream is marked as deferred, and then there is nothing to read;
      what was handed over and what is buffered make up what was written. */
  predicate Sound(s: Stream) {
    && s.deferred == s.waiting
    && (s.deferred ==> s.buf == [] && !s.seenEof)
    && (s.finished ==> s.seenEof)
    && s.handed + s.buf == s.written
  }

  lemma ActKeeps(s: Stream, a: Action)
    requires Sound(s) && May(s, a)
    ensures Checks(s, a) && Sound(Act(s, a))
    ensures s.handed <= Act(s, a).handed && s.written <= Act(s, a).written
  {
  }

  /** Deferral is sound in every run: no check fails, SPDY is never left waiting with data or an EOF
      to read, and it is handed a prefix of what was written. */
  lemma {:induction false} DeferralIsSound(s: Stream, run: seq<Action>, next: Action)
    requires Sound(s) && Allowed(s, run) && May(End(s, run), next)
    ensures
      var e := End(s, run);
      && Sound(e) && Checks(e, next)
      && (e.waiting ==> e.buf == [] && !e.seenEof)
      && e.handed <= e.written
    decreases |run|
  {
    if run == [] {
      ActKeeps(s, next);
    } else {
      ActKeeps(s, run[0]);
      DeferralIsSound(Act(s, run[0]), run[1..], next);
    }
  }

  /** The EOF is signalled only when everything written so far has been handed over. */
  lemma EofComesLast(s: Stream, length: nat)
    requires Sound(s) && May(s, Read(length))
    ensures Answered(s, length).Eof? <==> s.seenEof && s.handed == s.written
    ensures Answered(s, length).Defer? <==> !s.seenEof && s.handed == s.written
  {
  }

  /** A read hands over the next bytes that were written, as many as were asked for unless there are
      fewer. */
  predicate HandsOver(s: Stream, length: nat, data: seq<byte>) {
    && 0 < |data| <= length
    && |s.handed| + |data| <= |s.written|
    && data == s.written[|s.handed|..|s.handed| + |data|]
    && (|data| == length || s.handed + data == s.written)
  }

  lemma ReadHandsOver(s: Stream, length: nat)
    requires Sound(s) && May(s, Read(length))
    ensures Answered(s, length).Some? ==> HandsOver(s, length, Answered(s, length).data)
    ensures Answered(s, length).Some? <==> s.handed != s.written
  {
    assert s.written[|s.handed|..] == s.buf;
    if s.buf == [] {
      assert s.handed + [] == s.handed;
    }
  }

  // ---------- bytes written after the EOF ----------

  /** The user's part of a run. */
  function UserPart(run: seq<Action>): seq<Action> {
    if run == [] then []
    else (if run[0].Read? then [] else [run[0]]) + UserPart(run[1..])
  }

  predicate OnceFinished(user: seq<Action>, seenEof: bool)
    decreases |user|
  {
    user == [] ||
    (!user[0].Read? && (user[0].Finish? ==> !seenEof) && OnceFinished(user[1..], seenEof || user[0].Finish?))
  }

  /** A user who writes nothing after the EOF. */
  predicate Orderly(user: seq<Action>, seenEof: bool)
    decreases |user|
  {
    user == [] ||
    ((user[0].Write? && seenEof ==> user[0].data == []) && Orderly(user[1..], seenEof || user[0].Finish?))
  }

  lemma {:induction false} OrderlyLosesNothing(s: Stream, run: seq<Action>)
    requires Sound(s) && Allowed(s, run) && Orderly(UserPart(run), s.seenEof)
    requires s.finished ==> s.handed == s.written
    ensures End(s, run).finished ==> End(s, run).handed == End(s, run).written
    decreases |run|
  {
    if run != [] {
      ActKeeps(s, run[0]);
      UserHead(run, s.seenEof);
      OrderlyLosesNothing(Act(s, run[0]), run[1..]);
    }
  }

  lemma UserHead(run: seq<Action>, seenEof: bool)
    requires run != [] && Orderly(UserPart(run), seenEof)
    ensures Orderly(UserPart(run[1..]), seenEof || run[0].Finish?)
    ensures run[0].Write? && seenEof ==> run[0].data == []
  {
    if !run[0].Read? {
      assert UserPart(run)[0] == run[0] && UserPart(run)[1..] == UserPart(run[1..]);
    } else {
      assert [] + UserPart(run[1..]) == UserPart(run[1..]);
    }
  }

  /** Reads that take all that is there, up to the deferral or the EOF. */
  function Drain(s: Stream): seq<Action> {
    if s.waiting || s.finished then []
    else if s.buf == [] then [Read(1)]
    else [Read(|s.buf|), Read(1)]
  }

  function Eager(s: Stream, user: seq<Action>): seq<Action>
    decreases |user|
  {
    if user == [] then []
    else
      var t := Act(s, user[0]);
      [user[0]] + (Drain(t) + Eager(End(t, Drain(t)), user[1..]))
  }

  lemma {:induction false} EndAppend(s: Stream, a: seq<Action>, b: seq<Action>)
    ensures End(s, a + b) == End(End(s, a), b)
    ensures Allowed(s, a + b) <==> Allowed(s, a) && Allowed(End(s, a), b)
    decreases |a|
  {
    hide Act, May;
    if a == [] {
      assert a + b == b;
    } else {
      assert (a + b)[0] == a[0] && (a + b)[1..] == a[1..] + b;
      EndAppend(Act(s, a[0]), a[1..], b);
    }
  }

  lemma {:induction false} UserPartAppend(a: seq<Action>, b: seq<Action>)
    ensures UserPart(a + b) == UserPart(a) + UserPart(b)
  {
    if a == [] {
      assert a + b == b;
    } else {
      assert (a + b)[0] == a[0] && (a + b)[1..] == a[1..] + b;
      UserPartAppend(a[1..], b);
    }
  }

  lemma DrainDrains(s: Stream)
    requires Sound(s)
    ensures Allowed(s, Drain(s)) && UserPart(Drain(s)) == []
    ensures
      var e := End(s, Drain(s));
      && Sound(e) && e.written == s.written && e.seenEof == s.seenEof
      && (!s.finished ==> e.handed == e.written && e.finished == s.seenEof)
      && (s.finished ==> e == s)
  {
    if !s.waiting && !s.finished {
      if s.buf != [] {
        var t := Act(s, Read(|s.buf|));
        assert t.buf == [] && May(t, Read(1));
        assert Drain(s)[1..] == [Read(1)];
        OneRead(t);
        assert Allowed(s, [Read(|s.buf|), Read(1)]);
        assert UserPart(Drain(s)) == UserPart([Read(1)]);
      } else {
        OneRead(s);
      }
    }
  }

  lemma OneRead(s: Stream)
    requires Sound(s) && s.buf == [] && !s.waiting && !s.finished
    ensures Allowed(s, [Read(1)]) && UserPart([Read(1)]) == []
    ensures End(s, [Read(1)]) == Act(s, Read(1)) && Sound(Act(s, Read(1)))
    ensures Act(s, Read(1)) == if s.seenEof then s.(finished := true) else s.(deferred := true, waiting := true)
  {
  }

  /** A reader that is always faster than its user loses exactly the bytes written after the EOF. */
  lemma {:induction false} EagerRun(s: Stream, user: seq<Action>)
    requires Sound(s) && OnceFinished(user, s.seenEof) && s.finished == s.seenEof
    ensures Allowed(s, Eager(s, user)) && UserPart(Eager(s, user)) == user
    ensures !Orderly(user, s.seenEof) || (s.finished && s.handed != s.written) ==>
      End(s, Eager(s, user)).finished && End(s, Eager(s, user)).handed != End(s, Eager(s, user)).written
    decreases |user|
  {
    if user != [] {
      var t := Act(s, user[0]);
      var e := End(t, Drain(t));
      ActKeeps(s, user[0]);
      DrainDrains(t);
      EagerRun(e, user[1..]);
      EndAppend(t, Drain(t), Eager(e, user[1..]));
      UserPartAppend(Drain(t), Eager(e, user[1..]));
      StepAppend(s, user[0], Drain(t) + Eager(e, user[1..]));
      HeadAndRest(user);
    }
  }

  lemma HeadAndRest(user: seq<Action>)
    requires user != []
    ensures [user[0]] + ([] + user[1..]) == user
  {
  }

  lemma StepAppend(s: Stream, a: Action, rest: seq<Action>)
    requires !a.Read?
    ensures End(s, [a] + rest) == End(Act(s, a), rest)
    ensures Allowed(s, [a] + rest) <==> May(s, a) && Allowed(Act(s, a), rest)
    ensures UserPart([a] + rest) == [a] + UserPart(rest)
  {
    assert ([a] + rest)[1..] == rest;
  }

  /** Whether what SPDY has read when it learns of the EOF is all that the user ever writes. */
  predicate Lossless(run: seq<Action>) {
    Allowed(NEW, run) && End(NEW, run).finished ==> End(NEW, run).handed == End(NEW, run).written
  }

  /** A user's bytes are safe from every possible timing of the reads if and only if the user writes
      nothing after the EOF. */
  lemma SafeIffOrderly(user: seq<Action>)
    requires OnceFinished(user, false)
    ensures (forall run: seq<Action> | UserPart(run) == user :: Lossless(run)) <==> Orderly(user, false)
  {
    EagerRun(NEW, user);
    if Orderly(user, false) {
      forall run: seq<Action> | UserPart(run) == user
        ensures Lossless(run)
      {
        if Allowed(NEW, run) {
          OrderlyLosesNothing(NEW, run);
        }
      }
    } else {
      assert !Lossless(Eager(NEW, user));
    }
  }

  /** The smallest loss: one byte written after SPDY has learnt of the EOF. */
  lemma LateByteIsLost(b: byte)
    ensures
      var run := [Finish, Read(1), Write([b])];
      Allowed(NEW, run) && !Lossless(run)
  {
    var run := [Finish, Read(1), Write([b])];
    var s1 := Act(NEW, Finish);
    var s2 := Act(s1, Read(1));
    assert run[1..][0] == Read(1) && run[1..][1..] == [Write([b])];
    assert [Write([b])][1..] == [];
    assert Allowed(s2, [Write([b])]) && Allowed(s1, run[1..]);
    assert End(s2, [Write([b])]) == Act(s2, Write([b])) && End(s1, run[1..]) == Act(s2, Write([b]));
  }

  // ---------- the object ----------

  class StreamState {
    var inwardBuf: seq<byte>
    var inwardDeferred: bool
    var inwardHasSeenEof: bool
    ghost var waiting: bool
    ghost var finished: bool
    ghost var written: seq<byte>
    ghost var handed: seq<byte>

    ghost function Abs(): Stream
      reads this
    {
      Stream(inwardBuf, inwardDeferred, inwardHasSeenEof, waiting, finished, written, handed)
    }

    ghost predicate Valid()
      reads this
    {
      Sound(Abs())
    }

    constructor ()
      ensures Valid() && Abs() == NEW
    {
      inwardBuf, inwardDeferred, inwardHasSeenEof := [], false, false;
      waiting, finished, written, handed := false, false, [], [];
    }

    /** SPDY asks for this stream's data again. */
    method ResumeData()
      requires waiting
      modifies `waiting
      ensures !waiting
    {
      waiting := false;
    }

    method WriteBuffer(data: seq<byte>)
      requires Valid()
      modifies this
      ensures Valid() && Abs() == Act(old(Abs()), Write(data))
      ensures !inwardDeferred
    {
      assert handed + (inwardBuf + data) == (handed + inwardBuf) + data;
      inwardBuf := inwardBuf + data;
      written := written + data;
      if inwardDeferred {
        ResumeData();
        inwardDeferred := false;
      }
    }

    method SetWriteEof()
      requires Valid() && !inwardHasSeenEof
      modifies this
      ensures Valid() && Abs() == Act(old(Abs()), Finish)
      ensures !inwardDeferred
    {
      assert !inwardHasSeenEof;
      inwardHasSeenEof := true;
      if inwardDeferred {
        ResumeData();
        inwardDeferred := false;
      }
    }

    /** SPDY's read callback. */
    method OnSpdylayDataRead(length: nat) returns (answer: Answer)
      requires Valid() && May(Abs(), Read(length))
      modifies this
      ensures Valid() && Abs() == Act(old(Abs()), Read(length))
      ensures answer == Answered(old(Abs()), length)
      ensures answer.Some? ==> HandsOver(old(Abs()), length, answer.data)
    {
      ReadHandsOver(Abs(), length);
      var rv := if length < |inwardBuf| then length else |inwardBuf|;
      var bytes := inwardBuf[..rv];
      handed := handed + bytes;
      inwardBuf := inwardBuf[rv..];
      if rv > 0 {
        answer := Some(bytes);
      } else if !inwardHasSeenEof {
        inwardDeferred := true;
        waiting := true;
        answer := Defer;
      } else {
        finished := true;
        answer := Eof;
      }
    }
  }
}
