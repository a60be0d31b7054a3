/** The block accounting of the torrent client: blocks are handed out to any number of connections,
    each with a state machine of its own. This is the client as a value; TorrentClient.dfy has the
    object. */
module Torrent {

  const MAX_GINT: int := 0x7FFF_FFFF
  const BUFFER_SIZE: nat := 16384

  /** The states of a connection. Connecting stands for everything before the first request. */
  datatype ServerState = Connecting | AuthRequest | AuthReceive | Request | Transfer | Finished | Idle

  datatype Server = Server(addr: nat, port: nat, state: ServerState, down: nat, up: nat) {
    /** A block has been handed to this connection and is not yet counted as downloaded. */
    predicate Busy() {
      state.Transfer? || state.Finished?
    }
  }

  datatype Node = Node(addr: nat, port: nat, sockd: int)

  datatype Client = Client(
    fileSize: int,
    downBlockSize: nat,
    upBlockSize: nat,
    viaSocks: bool,
    socketLimit: nat,
    numBlocks: int,
    blocksRemaining: int,
    blocksDownloaded: nat,
    totalBytesDown: nat,
    totalBytesUp: nat,
    bytesInProgress: int,
    servers: seq<(nat, nat)>,
    connections: map<int, Server>)

  datatype Code = Success | BlockDownloaded | ErrWouldBlock | ErrFatal | ErrSocksConn | ErrNoServer

  /** How one call of the socket went: some bytes were moved, none could be, or the connection broke. */
  datatype Io = Moved(bytes: nat) | WouldBlock | Broken

  /** What epoll reports about a connection, and how the socket calls that this leads to will go. */
  datatype Event = Event(
    sockd: int,
    readable: bool,
    writable: bool,
    socks: Io,
    socksDone: bool,
    sent: Io,
    received: Io,
    finished: bool,
    nodes: seq<Node>)

  /** Division of integers in C, for a positive divisor: it truncates towards zero. */
  function TruncatingDivision(a: int, b: int): int
    requires b > 0
  {
    if a >= 0 then a / b else -((-a) / b)
  }

  function NumBlocks(fileSize: int, downBlockSize: nat): int
    requires downBlockSize > 0
  {
    TruncatingDivision(fileSize + downBlockSize - 1, downBlockSize)
  }

  /** `torrentClient_start`, once the authority is connected. */
  function Started(fileSize: int, downBlockSize: nat, upBlockSize: nat, viaSocks: bool, socketLimit: nat, auth: Node): Client
    requires downBlockSize > 0
  {
    var n := NumBlocks(fileSize, downBlockSize);
    Client(fileSize, downBlockSize, upBlockSize, viaSocks, socketLimit, n, n, 0, 0, 0, 0, [],
           map[auth.sockd := Server(auth.addr, auth.port, AuthRequest, 0, 0)])
  }

  /** What no activation changes. */
  predicate SameSettings(a: Client, b: Client) {
    && a.fileSize == b.fileSize && a.downBlockSize == b.downBlockSize && a.upBlockSize == b.upBlockSize
    && a.viaSocks == b.viaSocks && a.socketLimit == b.socketLimit && a.numBlocks == b.numBlocks
  }

  function Put(tc: Client, sockd: int, s: Server): Client {
    tc.(connections := tc.connections[sockd := s])
  }

  /** What the caller is told when a socket call moved no bytes. */
  function Failure(io: Io): Code {
    if io.WouldBlock? then ErrWouldBlock else ErrFatal
  }

  datatype Outcome = Outcome(tc: Client, code: Code)

  // ---------- the states ----------

  function OnRequest(tc: Client, sockd: int, sent: Io): Outcome
    requires sockd in tc.connections
  {
    var s := tc.connections[sockd];
    if tc.blocksRemaining <= 0 then Outcome(Put(tc, sockd, s.(state := Idle)), Success)
    else if !sent.Moved? then Outcome(Put(tc, sockd, s.(state := Request)), Failure(sent))
    else Outcome(Put(tc.(blocksRemaining := tc.blocksRemaining - 1), sockd,
                     s.(state := Transfer, down := 0, up := 0)), Success)
  }

  function OnConnecting(tc: Client, e: Event): Outcome
    requires e.sockd in tc.connections
  {
    if !e.socks.Moved? then Outcome(tc, Failure(e.socks))
    else if e.socksDone then OnRequest(tc, e.sockd, e.sent)
    else Outcome(tc, ErrSocksConn)
  }

  /** The downloading half of a transfer. */
  function Downloaded(tc: Client, sockd: int, n: nat): Client
    requires sockd in tc.connections
  {
    var s := tc.connections[sockd];
    Put(tc.(totalBytesDown := tc.totalBytesDown + n, bytesInProgress := tc.bytesInProgress - n),
        sockd, s.(down := s.down + n))
  }

  function Uploaded(tc: Client, sockd: int, n: nat): Client
    requires sockd in tc.connections
  {
    var s := tc.connections[sockd];
    Put(tc.(totalBytesUp := tc.totalBytesUp + n), sockd, s.(up := s.up + n))
  }

  predicate Downloads(tc: Client, e: Event)
    requires e.sockd in tc.connections
  {
    e.readable && tc.connections[e.sockd].down < tc.downBlockSize
  }

  predicate Uploads(tc: Client, e: Event)
    requires e.sockd in tc.connections
  {
    e.writable && tc.connections[e.sockd].up < tc.upBlockSize
  }

  function Settled(tc: Client, sockd: int): Client
    requires sockd in tc.connections
  {
    var s := tc.connections[sockd];
    if s.down >= tc.downBlockSize && s.up >= tc.upBlockSize then Put(tc, sockd, s.(state := Finished)) else tc
  }

  function OnTransfer(tc: Client, e: Event): Outcome
    requires e.sockd in tc.connections
  {
    if Downloads(tc, e) && !e.received.Moved? then Outcome(tc, Failure(e.received))
    else
      var after := if Downloads(tc, e) then Downloaded(tc, e.sockd, e.received.bytes) else tc;
      if Uploads(after, e) && !e.sent.Moved? then Outcome(after, Failure(e.sent))
      else
        var both := if Uploads(after, e) then Uploaded(after, e.sockd, e.sent.bytes) else after;
        Outcome(Settled(both, e.sockd), Success)
  }

  function OnFinished(tc: Client, e: Event): Outcome
    requires e.sockd in tc.connections
  {
    if !e.received.Moved? then Outcome(tc, Failure(e.received))
    else if e.finished then
      Outcome(Put(tc.(blocksDownloaded := tc.blocksDownloaded + 1), e.sockd,
                  tc.connections[e.sockd].(state := Request)), BlockDownloaded)
    else Outcome(tc, Success)
  }

  /** A node that the client does not know becomes a server with a connection of its own. */
  function AddNode(tc: Client, n: Node): Client {
    if (n.addr, n.port) in tc.servers then tc
    else
      Put(tc.(servers := tc.servers + [(n.addr, n.port)]), n.sockd,
          Server(n.addr, n.port, if tc.viaSocks then Connecting else Request, 0, 0))
  }

  function AddNodes(tc: Client, nodes: seq<Node>): (r: Client)
    ensures SameSettings(tc, r)
  {
    if nodes == [] then tc else AddNode(AddNodes(tc, nodes[..|nodes| - 1]), nodes[|nodes| - 1])
  }

  function OnAuth(tc: Client, e: Event): Outcome
    requires e.sockd in tc.connections
  {
    var s := tc.connections[e.sockd];
    if s.state.AuthRequest? then
      if e.sent.Moved? then Outcome(Put(tc, e.sockd, s.(state := AuthReceive)), Success)
      else Outcome(tc, Failure(e.sent))
    else if e.received.Moved? then Outcome(AddNodes(tc, e.nodes), Success)
    else Outcome(tc, Failure(e.received))
  }

  /** `torrentClient_activate`. */
  function Activate(tc: Client, e: Event): Outcome {
    if e.sockd !in tc.connections then Outcome(tc, ErrNoServer)
    else match tc.connections[e.sockd].state
      case Connecting => OnConnecting(tc, e)
      case AuthRequest => OnAuth(tc, e)
      case AuthReceive => OnAuth(tc, e)
      case Request => OnRequest(tc, e.sockd, e.sent)
      case Transfer => OnTransfer(tc, e)
      case Finished => OnFinished(tc, e)
      case Idle => Outcome(tc, Success)
  }

  // ---------- the environment ----------

  /** A new socket is below the system's limit and none that is in use. */
  predicate FreshSockets(tc: Client, nodes: seq<Node>) {
    nodes == [] ||
    (FreshSockets(tc, nodes[..|nodes| - 1])
     && 0 <= nodes[|nodes| - 1].sockd < tc.socketLimit
     && nodes[|nodes| - 1].sockd !in AddNodes(tc, nodes[..|nodes| - 1]).connections)
  }

  function Room(wanted: int): int {
    if wanted < BUFFER_SIZE then wanted else BUFFER_SIZE
  }

  /** The socket never moves more bytes than it was asked to. */
  predicate May(tc: Client, e: Event) {
    && FreshSockets(tc, e.nodes)
    && (e.sockd in tc.connections && tc.connections[e.sockd].state.Transfer? ==>
          && (e.received.Moved? ==> e.received.bytes <= Room(tc.downBlockSize - tc.connections[e.sockd].down)
                                    || !Downloads(tc, e))
          && (e.sent.Moved? ==> e.sent.bytes <= Room(tc.upBlockSize - tc.connections[e.sockd].up)
                                || !Uploads(tc, e)))
  }

  /** The caller starts again after a fatal error, with a new connection to the authority. */
  function Step(tc: Client, e: Event, auth: Node): (r: Client)
    requires tc.downBlockSize > 0
    ensures r.downBlockSize == tc.downBlockSize && r.socketLimit == tc.socketLimit
  {
    var r := Activate(tc, e);
    if r.code.ErrFatal? || r.code.ErrSocksConn?
    then Started(tc.fileSize, tc.downBlockSize, tc.upBlockSize, tc.viaSocks, tc.socketLimit, auth)
    else r.tc
  }

  // ---------- sums over the connections ----------

  /** What to add up: the bytes that are in, the bytes that are out, or the blocks handed out. */
  datatype Weight = Down | Up | Block

  /** A connection counts only while it has a block. */
  function Of(w: Weight, s: Server): nat {
    if !s.Busy() then 0
    else match w
      case Down => s.down
      case Up => s.up
      case Block => 1
  }

  function Weighed(w: Weight, c: map<int, Server>, k: int): nat {
    if k in c then Of(w, c[k]) else 0
  }

  /** The sum over all connections on the first n sockets. */
  function Sum(w: Weight, c: map<int, Server>, n: nat): nat {
    if n == 0 then 0 else Sum(w, c, n - 1) + Weighed(w, c, n - 1)
  }

  lemma {:induction false} SumElsewhere(w: Weight, c: map<int, Server>, k: int, s: Server, n: nat)
    requires n <= k
    ensures Sum(w, c[k := s], n) == Sum(w, c, n)
  {
    if n > 0 {
      SumElsewhere(w, c, k, s, n - 1);
    }
  }

  /** How a sum changes when one connection does; a new one changes it from nothing. */
  lemma {:induction false} SumUpdate(w: Weight, c: map<int, Server>, k: int, s: Server, n: nat)
    requires 0 <= k < n
    ensures Sum(w, c[k := s], n) == Sum(w, c, n) - Weighed(w, c, k) + Of(w, s)
  {
    if k == n - 1 {
      SumElsewhere(w, c, k, s, n - 1);
    } else {
      SumUpdate(w, c, k, s, n - 1);
    }
  }

  /** n times size, by repeated addition. */
  function Times(n: nat, size: nat): nat {
    if n == 0 then 0 else Times(n - 1, size) + size
  }

  lemma {:induction false} TimesIsProduct(n: nat, size: nat)
    ensures Times(n, size) == n * size
  {
    if n > 0 {
      TimesIsProduct(n - 1, size);
    }
  }

  lemma {:induction false} TimesAdd(a: nat, b: nat, size: nat)
    ensures Times(a + b, size) == Times(a, size) + Times(b, size)
  {
    if b > 0 {
      TimesAdd(a, b - 1, size);
    }
  }

  lemma OnlyWithBlock(w: Weight, s: Server)
    ensures Of(Block, s) <= 1 && (Of(Block, s) == 0 ==> Of(w, s) == 0)
  {
  }

  /** No connection has more of its block than there is of it. */
  lemma {:induction false} SumBound(w: Weight, c: map<int, Server>, size: nat, n: nat)
    requires forall k <- c :: Of(w, c[k]) <= size
    ensures Sum(w, c, n) <= Times(Sum(Block, c, n), size)
  {
    hide Of;
    if n > 0 {
      SumBound(w, c, size, n - 1);
      if n - 1 in c {
        OnlyWithBlock(w, c[n - 1]);
      }
    }
  }

  lemma {:induction false} NobodyBusy(w: Weight, c: map<int, Server>, n: nat)
    ensures Sum(Block, c, n) == 0 <==> forall k <- c :: 0 <= k < n ==> !c[k].Busy()
    ensures Sum(Block, c, n) == 0 ==> Sum(w, c, n) == 0
  {
    if n > 0 {
      NobodyBusy(w, c, n - 1);
    }
  }

  // ---------- conservation ----------

  predicate ServerInv(tc: Client, s: Server) {
    && (s.state.Transfer? ==> s.down <= tc.downBlockSize && s.up <= tc.upBlockSize)
    && (s.state.Finished? ==> s.down == tc.downBlockSize && s.up == tc.upBlockSize)
  }

  predicate BlocksInv(tc: Client) {
    && tc.numBlocks == tc.blocksRemaining + tc.blocksDownloaded + Sum(Block, tc.connections, tc.socketLimit)
    && (tc.blocksRemaining >= 0 || tc.blocksRemaining == tc.numBlocks)
  }

  predicate BytesInv(tc: Client) {
    && tc.totalBytesDown == Times(tc.blocksDownloaded, tc.downBlockSize) + Sum(Down, tc.connections, tc.socketLimit)
    && tc.totalBytesUp == Times(tc.blocksDownloaded, tc.upBlockSize) + Sum(Up, tc.connections, tc.socketLimit)
    && tc.bytesInProgress + tc.totalBytesDown == 0
  }

  predicate Inv(tc: Client) {
    && tc.downBlockSize > 0 && tc.numBlocks == NumBlocks(tc.fileSize, tc.downBlockSize)
    && (forall k <- tc.connections :: 0 <= k < tc.socketLimit && ServerInv(tc, tc.connections[k]))
    && BlocksInv(tc)
    && BytesInv(tc)
  }

  lemma StartedHolds(fileSize: int, downBlockSize: nat, upBlockSize: nat, viaSocks: bool, socketLimit: nat, auth: Node)
    requires downBlockSize > 0 && 0 <= auth.sockd < socketLimit
    ensures Inv(Started(fileSize, downBlockSize, upBlockSize, viaSocks, socketLimit, auth))
  {
    var c := Started(fileSize, downBlockSize, upBlockSize, viaSocks, socketLimit, auth).connections;
    NobodyBusy(Down, c, socketLimit);
    NobodyBusy(Up, c, socketLimit);
  }

  lemma PutSums(tc: Client, sockd: int, s: Server)
    requires 0 <= sockd < tc.socketLimit
    ensures
      forall w :: Sum(w, Put(tc, sockd, s).connections, tc.socketLimit) ==
        Sum(w, tc.connections, tc.socketLimit) - Weighed(w, tc.connections, sockd) + Of(w, s)
  {
    forall w
      ensures Sum(w, Put(tc, sockd, s).connections, tc.socketLimit) ==
        Sum(w, tc.connections, tc.socketLimit) - Weighed(w, tc.connections, sockd) + Of(w, s)
    {
      SumUpdate(w, tc.connections, sockd, s, tc.socketLimit);
    }
  }

  /** A connection without a block may change into another one without. */
  lemma PutKeeps(tc: Client, sockd: int, s: Server)
    requires Inv(tc) && (sockd in tc.connections || 0 <= sockd < tc.socketLimit)
    requires (sockd in tc.connections ==> !tc.connections[sockd].Busy()) && !s.Busy()
    ensures Inv(Put(tc, sockd, s))
  {
    PutSums(tc, sockd, s);
  }

  lemma RequestKeeps(tc: Client, sockd: int, sent: Io)
    requires Inv(tc) && sockd in tc.connections && !tc.connections[sockd].Busy()
    ensures Inv(OnRequest(tc, sockd, sent).tc)
  {
    var s := tc.connections[sockd];
    PutSums(tc, sockd, s.(state := Idle));
    PutSums(tc, sockd, s.(state := Request));
    PutSums(tc.(blocksRemaining := tc.blocksRemaining - 1), sockd, s.(state := Transfer, down := 0, up := 0));
  }

  lemma DownloadedKeeps(tc: Client, sockd: int, n: nat)
    requires Inv(tc) && sockd in tc.connections && tc.connections[sockd].state.Transfer?
    requires n <= Room(tc.downBlockSize - tc.connections[sockd].down)
    ensures Inv(Downloaded(tc, sockd, n))
  {
    var s := tc.connections[sockd];
    PutSums(tc.(totalBytesDown := tc.totalBytesDown + n, bytesInProgress := tc.bytesInProgress - n),
            sockd, s.(down := s.down + n));
  }

  lemma UploadedKeeps(tc: Client, sockd: int, n: nat)
    requires Inv(tc) && sockd in tc.connections && tc.connections[sockd].state.Transfer?
    requires n <= Room(tc.upBlockSize - tc.connections[sockd].up)
    ensures Inv(Uploaded(tc, sockd, n))
  {
    var s := tc.connections[sockd];
    PutSums(tc.(totalBytesUp := tc.totalBytesUp + n), sockd, s.(up := s.up + n));
  }

  lemma SettledKeeps(tc: Client, sockd: int)
    requires Inv(tc) && sockd in tc.connections && tc.connections[sockd].state.Transfer?
    ensures Inv(Settled(tc, sockd))
  {
    PutSums(tc, sockd, tc.connections[sockd].(state := Finished));
  }

  lemma TransferKeeps(tc: Client, e: Event)
    requires Inv(tc) && e.sockd in tc.connections && tc.connections[e.sockd].state.Transfer? && May(tc, e)
    ensures Inv(OnTransfer(tc, e).tc)
  {
    hide Inv;
    if Downloads(tc, e) && !e.received.Moved? {
      return;
    }
    var after := if Downloads(tc, e) then Downloaded(tc, e.sockd, e.received.bytes) else tc;
    if Downloads(tc, e) {
      DownloadedKeeps(tc, e.sockd, e.received.bytes);
    }
    if Uploads(after, e) && !e.sent.Moved? {
      return;
    }
    var both := if Uploads(after, e) then Uploaded(after, e.sockd, e.sent.bytes) else after;
    if Uploads(after, e) {
      UploadedKeeps(after, e.sockd, e.sent.bytes);
    }
    SettledKeeps(both, e.sockd);
  }

  /** A finished block moves from the connection to the account. */
  lemma FinishedKeeps(tc: Client, e: Event)
    requires Inv(tc) && e.sockd in tc.connections && tc.connections[e.sockd].state.Finished?
    ensures Inv(OnFinished(tc, e).tc)
  {
    PutSums(tc.(blocksDownloaded := tc.blocksDownloaded + 1), e.sockd, tc.connections[e.sockd].(state := Request));
    TimesAdd(tc.blocksDownloaded, 1, tc.downBlockSize);
    TimesAdd(tc.blocksDownloaded, 1, tc.upBlockSize);
    assert Times(1, tc.downBlockSize) == tc.downBlockSize && Times(1, tc.upBlockSize) == tc.upBlockSize;
  }

  lemma {:induction false} AddNodesKeeps(tc: Client, nodes: seq<Node>)
    requires Inv(tc) && FreshSockets(tc, nodes)
    ensures Inv(AddNodes(tc, nodes))
  {
    hide Inv;
    if nodes != [] {
      var front, n := nodes[..|nodes| - 1], nodes[|nodes| - 1];
      AddNodesKeeps(tc, front);
      var t := AddNodes(tc, front);
      ServersIrrelevant(t, t.servers + [(n.addr, n.port)]);
      PutKeeps(t.(servers := t.servers + [(n.addr, n.port)]), n.sockd,
               Server(n.addr, n.port, if tc.viaSocks then Connecting else Request, 0, 0));
    }
  }

  lemma ServersIrrelevant(tc: Client, servers: seq<(nat, nat)>)
    requires Inv(tc)
    ensures Inv(tc.(servers := servers))
  {
  }

  lemma ActivateKeeps(tc: Client, e: Event)
    requires Inv(tc) && May(tc, e)
    ensures Inv(Activate(tc, e).tc)
  {
    hide Inv, OnRequest, OnTransfer, OnFinished, AddNodes, FreshSockets;
    if e.sockd in tc.connections {
      var s := tc.connections[e.sockd];
      match s.state
      case Connecting => RequestKeeps(tc, e.sockd, e.sent);
      case AuthRequest => PutKeeps(tc, e.sockd, s.(state := AuthReceive));
      case AuthReceive => AddNodesKeeps(tc, e.nodes);
      case Request => RequestKeeps(tc, e.sockd, e.sent);
      case Transfer => TransferKeeps(tc, e);
      case Finished => FinishedKeeps(tc, e);
      case Idle =>
    }
  }

  // ---------- every run ----------

  /** One activation; `auth` is the new connection to the authority if the client has to start again. */
  datatype Turn = Turn(e: Event, auth: Node)

  predicate Allowed(tc: Client, turns: seq<Turn>)
    requires tc.downBlockSize > 0
    decreases |turns|
  {
    turns == [] ||
    (May(tc, turns[0].e) && 0 <= turns[0].auth.sockd < tc.socketLimit
     && Allowed(Step(tc, turns[0].e, turns[0].auth), turns[1..]))
  }

  lemma StepKeeps(tc: Client, t: Turn)
    requires Inv(tc) && May(tc, t.e) && 0 <= t.auth.sockd < tc.socketLimit
    ensures Inv(Step(tc, t.e, t.auth))
  {
    ActivateKeeps(tc, t.e);
    StartedHolds(tc.fileSize, tc.downBlockSize, tc.upBlockSize, tc.viaSocks, tc.socketLimit, t.auth);
  }

  function After(tc: Client, turns: seq<Turn>): (r: Client)
    requires Inv(tc) && Allowed(tc, turns)
    ensures Inv(r)
    decreases |turns|
  {
    if turns == [] then tc
    else
      StepKeeps(tc, turns[0]);
      After(Step(tc, turns[0].e, turns[0].auth), turns[1..])
  }

  /** The number of blocks is the quotient rounded up. */
  lemma BlocksRoundUp(fileSize: int, size: nat)
    requires size > 0 && fileSize > 0
    ensures NumBlocks(fileSize, size) > 0
    ensures fileSize <= Times(NumBlocks(fileSize, size), size) < fileSize + size
  {
    var n := (fileSize + size - 1) / size;
    var r := (fileSize + size - 1) % size;
    TimesIsProduct(n, size);
    assert fileSize + size - 1 == n * size + r;
  }

  lemma NothingToLoad(fileSize: int, size: nat)
    requires size > 0 && fileSize <= 0
    ensures NumBlocks(fileSize, size) <= 0
  {
    var a := fileSize + size - 1;
    if a >= 0 {
      SmallQuotient(a, size);
    } else {
      assert (-a) / size >= 0;
    }
  }

  lemma SmallQuotient(a: nat, d: nat)
    requires a < d
    ensures a / d == 0
  {
  }

  /** Conservation: every block is waiting, downloaded or handed to exactly one connection, and every
      byte that has come in belongs to a downloaded block or to one that a connection has. */
  lemma Conservation(tc: Client, turns: seq<Turn>)
    requires Inv(tc) && Allowed(tc, turns)
    ensures
      var r := After(tc, turns);
      && r.numBlocks == r.blocksRemaining + r.blocksDownloaded + Sum(Block, r.connections, r.socketLimit)
      && r.totalBytesDown == r.blocksDownloaded * r.downBlockSize + Sum(Down, r.connections, r.socketLimit)
      && r.totalBytesUp == r.blocksDownloaded * r.upBlockSize + Sum(Up, r.connections, r.socketLimit)
  {
    var r := After(tc, turns);
    TimesIsProduct(r.blocksDownloaded, r.downBlockSize);
    TimesIsProduct(r.blocksDownloaded, r.upBlockSize);
  }

  /** The test for completion by blocks, and the one by bytes. Both ask for some byte first. */
  predicate CompleteByBlocks(tc: Client) {
    tc.totalBytesDown > 0 && tc.blocksDownloaded >= tc.numBlocks
  }

  predicate CompleteByBytes(tc: Client) {
    tc.totalBytesDown > 0 && tc.totalBytesDown >= tc.fileSize
  }

  /** Some byte has come in only if there was something to load. */
  lemma BytesMeanBlocks(tc: Client)
    requires Inv(tc) && tc.totalBytesDown > 0
    ensures tc.fileSize > 0 && tc.blocksRemaining >= 0
  {
    NobodyBusy(Down, tc.connections, tc.socketLimit);
    if tc.fileSize <= 0 {
      NothingToLoad(tc.fileSize, tc.downBlockSize);
    }
  }

  lemma BytesBounded(tc: Client)
    requires Inv(tc)
    ensures tc.totalBytesDown <= Times(tc.blocksDownloaded + Sum(Block, tc.connections, tc.socketLimit), tc.downBlockSize)
  {
    assert forall k <- tc.connections :: ServerInv(tc, tc.connections[k]);
    SumBound(Down, tc.connections, tc.downBlockSize, tc.socketLimit);
    TimesAdd(tc.blocksDownloaded, Sum(Block, tc.connections, tc.socketLimit), tc.downBlockSize);
  }

  lemma {:induction false} TimesMonotone(a: nat, b: nat, size: nat)
    requires a <= b
    ensures Times(a, size) <= Times(b, size)
  {
    TimesAdd(a, b - a, size);
  }

  /** When all blocks are downloaded nothing is under way, and the file has come in with less than a
      block too much. */
  lemma CompletionIsExact(tc: Client)
    requires Inv(tc) && CompleteByBlocks(tc)
    ensures forall k <- tc.connections :: !tc.connections[k].Busy()
    ensures tc.blocksDownloaded == tc.numBlocks && tc.blocksRemaining == 0
    ensures tc.fileSize <= tc.totalBytesDown < tc.fileSize + tc.downBlockSize
  {
    BytesMeanBlocks(tc);
    NobodyBusy(Down, tc.connections, tc.socketLimit);
    BlocksRoundUp(tc.fileSize, tc.downBlockSize);
  }

  /** The two tests agree exactly when no connection still has a block: the bytes of the last block are
      all there before the server says that it is finished. */
  lemma CompletionTestsAgree(tc: Client)
    requires Inv(tc)
    ensures CompleteByBlocks(tc) <==>
      CompleteByBytes(tc) && forall k <- tc.connections :: !tc.connections[k].Busy()
  {
    if CompleteByBlocks(tc) {
      CompletionIsExact(tc);
    } else if CompleteByBytes(tc) && forall k <- tc.connections :: !tc.connections[k].Busy() {
      BytesMeanBlocks(tc);
      NobodyBusy(Down, tc.connections, tc.socketLimit);
      BlocksRoundUp(tc.fileSize, tc.downBlockSize);
      TimesMonotone(tc.blocksDownloaded, tc.numBlocks - 1, tc.downBlockSize);
    }
  }

  /** A client with one node and one block of one byte, before it asks the node. */
  function OneBlock(auth: Node, n: Node): Client {
    Client(1, 1, 1, false, 2, 1, 1, 0, 0, 0, 0, [(n.addr, n.port)],
           map[auth.sockd := Server(auth.addr, auth.port, AuthReceive, 0, 0)]
              [n.sockd := Server(n.addr, n.port, Request, 0, 0)])
  }

  function Ready(sockd: int, readable: bool, nodes: seq<Node>): Event {
    Event(sockd, readable, !readable, Moved(1), true, Moved(1), Moved(1), false, nodes)
  }

  lemma GetsOneBlock(auth: Node, n: Node)
    requires auth.sockd == 0 && n.sockd == 1
    ensures
      var start := Started(1, 1, 1, false, 2, auth);
      var asked := Step(start, Ready(0, false, []), auth);
      && May(start, Ready(0, false, [])) && May(asked, Ready(0, true, [n]))
      && Step(asked, Ready(0, true, [n]), auth) == OneBlock(auth, n)
  {
    var asked := Step(Started(1, 1, 1, false, 2, auth), Ready(0, false, []), auth);
    assert AddNodes(asked, []) == asked && [n][..0] == [];
    assert AddNodes(asked, [n]) == AddNode(asked, n);
  }

  lemma LoadsOneBlock(auth: Node, n: Node)
    requires auth.sockd == 0 && n.sockd == 1
    ensures
      var asked := Step(OneBlock(auth, n), Ready(1, false, []), auth);
      var loaded := Step(asked, Ready(1, true, []), auth);
      && May(OneBlock(auth, n), Ready(1, false, [])) && May(asked, Ready(1, true, []))
      && CompleteByBytes(loaded) && !CompleteByBlocks(loaded)
      && asked.socketLimit == 2
  {
    assert !OneBlock(auth, n).connections[1].Busy();
  }

  /** A run in which the test by bytes holds while the only block is still on its way: the server has
      not said yet that it is finished. */
  lemma ByteTestIsEarly(auth: Node, n: Node) returns (turns: seq<Turn>)
    requires auth.sockd == 0 && n.sockd == 1
    ensures
      var start := Started(1, 1, 1, false, 2, auth);
      && Inv(start) && Allowed(start, turns)
      && CompleteByBytes(After(start, turns)) && !CompleteByBlocks(After(start, turns))
  {
    hide Inv, Step, May, Ready, AddNodes;
    var start := Started(1, 1, 1, false, 2, auth);
    StartedHolds(1, 1, 1, false, 2, auth);
    GetsOneBlock(auth, n);
    LoadsOneBlock(auth, n);
    var ask, learn := Turn(Ready(0, false, []), auth), Turn(Ready(0, true, [n]), auth);
    var request, load := Turn(Ready(1, false, []), auth), Turn(Ready(1, true, []), auth);
    var t1 := Step(start, ask.e, auth);
    var t3 := Step(OneBlock(auth, n), request.e, auth);
    StepKeeps(start, ask);
    StepKeeps(t1, learn);
    StepKeeps(OneBlock(auth, n), request);
    StepKeeps(t3, load);
    turns := OneTurn(t3, load, []);
    turns := OneTurn(OneBlock(auth, n), request, turns);
    turns := OneTurn(t1, learn, turns);
    turns := OneTurn(start, ask, turns);
  }

  /** A run with one more turn at its front. */
  lemma OneTurn(tc: Client, t: Turn, rest: seq<Turn>) returns (turns: seq<Turn>)
    requires Inv(tc) && May(tc, t.e) && 0 <= t.auth.sockd < tc.socketLimit
    requires Allowed(Step(tc, t.e, t.auth), rest)
    ensures Inv(Step(tc, t.e, t.auth)) && Allowed(tc, turns)
    ensures After(tc, turns) == After(Step(tc, t.e, t.auth), rest)
  {
    hide Inv, Step, May;
    turns := [t] + rest;
    StepKeeps(tc, t);
    assert turns[1..] == rest;
  }

  /** No counter leaves the range of a gint if the rounded-up file size fits. */
  lemma NoOverflow(tc: Client)
    requires Inv(tc) && tc.fileSize > 0 && tc.fileSize + tc.downBlockSize - 1 <= MAX_GINT
    ensures 0 <= tc.totalBytesDown <= MAX_GINT && -MAX_GINT <= tc.bytesInProgress <= 0
    ensures 0 <= tc.blocksRemaining <= MAX_GINT && tc.blocksDownloaded <= MAX_GINT
  {
    BlocksRoundUp(tc.fileSize, tc.downBlockSize);
    BytesBounded(tc);
    TimesMonotone(tc.blocksDownloaded + Sum(Block, tc.connections, tc.socketLimit), tc.numBlocks, tc.downBlockSize);
    TimesAtLeast(tc.numBlocks, tc.downBlockSize);
  }

  lemma {:induction false} TimesAtLeast(n: nat, size: nat)
    requires size > 0
    ensures n <= Times(n, size)
  {
    if n > 0 {
      TimesAtLeast(n - 1, size);
    }
  }

  // ---------- what an activation does ----------

  /** C's division truncates: the rest has the sign of the dividend and is smaller than the divisor. */
  lemma DivisionTruncates(a: int, b: int)
    requires b > 0
    ensures
      var q := TruncatingDivision(a, b);
      if a >= 0 then q * b <= a < q * b + b else q * b - b < a <= q * b
  {
    if a >= 0 {
      assert a == a / b * b + a % b;
    } else {
      assert -a == (-a) / b * b + (-a) % b;
      assert -((-a) / b) * b == -((-a) / b * b);
    }
  }

  /** A client starts with every block waiting and one connection, on which it will ask for nodes. */
  lemma StartsEmpty(fileSize: int, downBlockSize: nat, upBlockSize: nat, viaSocks: bool, socketLimit: nat, auth: Node)
    requires downBlockSize > 0
    ensures
      var tc := Started(fileSize, downBlockSize, upBlockSize, viaSocks, socketLimit, auth);
      && tc.blocksRemaining == tc.numBlocks && tc.blocksDownloaded == 0
      && tc.totalBytesDown == 0 && tc.totalBytesUp == 0 && tc.servers == []
      && (forall k :: k in tc.connections <==> k == auth.sockd)
      && tc.connections[auth.sockd].state.AuthRequest?
  {
  }

  /** The other connections and the settings are as they were. */
  predicate OnlyTouches(before: Client, after: Client, sockd: int) {
    && SameSettings(before, after) && before.servers == after.servers
    && before.connections.Keys == after.connections.Keys
    && forall k <- before.connections :: k != sockd ==> after.connections[k] == before.connections[k]
  }

  /** A request takes a block exactly if one is left and the request is sent, and otherwise leaves the
      connection idle, if none is left, or as it is. */
  lemma RequestEffect(tc: Client, e: Event)
    requires e.sockd in tc.connections && tc.connections[e.sockd].state.Request?
    ensures
      var r, s := Activate(tc, e).tc, tc.connections[e.sockd];
      && OnlyTouches(tc, r, e.sockd)
      && r.blocksDownloaded == tc.blocksDownloaded
      && r.totalBytesDown == tc.totalBytesDown && r.totalBytesUp == tc.totalBytesUp
      && (tc.blocksRemaining <= 0 ==>
            r.blocksRemaining == tc.blocksRemaining && r.connections[e.sockd] == s.(state := Idle))
      && (tc.blocksRemaining > 0 && e.sent.Moved? ==>
            && r.blocksRemaining == tc.blocksRemaining - 1
            && r.connections[e.sockd] == Server(s.addr, s.port, Transfer, 0, 0))
      && (tc.blocksRemaining > 0 && !e.sent.Moved? ==> r == tc)
  {
    if tc.blocksRemaining > 0 && !e.sent.Moved? {
      assert tc.connections[e.sockd := tc.connections[e.sockd]] == tc.connections;
    }
  }

  lemma TransferTouches(tc: Client, e: Event)
    requires e.sockd in tc.connections && tc.connections[e.sockd].state.Transfer?
    ensures OnlyTouches(tc, Activate(tc, e).tc, e.sockd)
    ensures Activate(tc, e).tc.blocksRemaining == tc.blocksRemaining
    ensures Activate(tc, e).tc.blocksDownloaded == tc.blocksDownloaded
  {
  }

  /** A transfer is finished exactly when all bytes of the block have come in and all of the answer have
      gone out; a call that moves nothing ends the activation and keeps what was moved before it. */
  lemma TransferEffect(tc: Client, e: Event)
    requires Inv(tc) && May(tc, e) && e.sockd in tc.connections && tc.connections[e.sockd].state.Transfer?
    ensures
      var r, s := Activate(tc, e).tc, tc.connections[e.sockd];
      var receives := e.readable && s.down < tc.downBlockSize;
      var sends := e.writable && s.up < tc.upBlockSize;
      var got := if receives && e.received.Moved? then e.received.bytes else 0;
      var put := if sends && e.sent.Moved? && (receives ==> e.received.Moved?) then e.sent.bytes else 0;
      && OnlyTouches(tc, r, e.sockd)
      && r.blocksRemaining == tc.blocksRemaining && r.blocksDownloaded == tc.blocksDownloaded
      && r.totalBytesDown == tc.totalBytesDown + got && r.totalBytesUp == tc.totalBytesUp + put
      && r.connections[e.sockd].down == s.down + got && r.connections[e.sockd].up == s.up + put
      && ((receives ==> e.received.Moved?) && (sends ==> e.sent.Moved?) ==>
            (r.connections[e.sockd].state.Finished? <==>
               s.down + got == tc.downBlockSize && s.up + put == tc.upBlockSize))
      && (r.connections[e.sockd].state.Finished? || r.connections[e.sockd].state.Transfer?)
      && (!((receives ==> e.received.Moved?) && (sends ==> e.sent.Moved?)) ==> r.connections[e.sockd].state.Transfer?)
  {
    hide OnlyTouches, BlocksInv, BytesInv;
    TransferTouches(tc, e);
  }

  /** A block counts as downloaded exactly when the server says that it is finished. */
  lemma FinishedEffect(tc: Client, e: Event)
    requires e.sockd in tc.connections && tc.connections[e.sockd].state.Finished?
    ensures
      var r := Activate(tc, e).tc;
      var counted := e.received.Moved? && e.finished;
      && OnlyTouches(tc, r, e.sockd)
      && r.blocksDownloaded == tc.blocksDownloaded + (if counted then 1 else 0)
      && r.blocksRemaining == tc.blocksRemaining
      && r.totalBytesDown == tc.totalBytesDown && r.totalBytesUp == tc.totalBytesUp
      && r.connections[e.sockd].state == (if counted then Request else Finished)
      && (Activate(tc, e).code.BlockDownloaded? <==> counted)
  {
  }

  /** The authority is asked once and then listened to. */
  lemma AuthEffect(tc: Client, e: Event)
    requires e.sockd in tc.connections
    ensures tc.connections[e.sockd].state.AuthRequest? ==>
      && OnlyTouches(tc, Activate(tc, e).tc, e.sockd)
      && Activate(tc, e).tc.connections[e.sockd].state == (if e.sent.Moved? then AuthReceive else AuthRequest)
    ensures tc.connections[e.sockd].state.AuthReceive? && !e.received.Moved? ==> Activate(tc, e).tc == tc
    ensures tc.connections[e.sockd].state.Idle? ==> Activate(tc, e).tc == tc
  {
  }

  /** A connection that has got through the proxy goes on as one that makes its first request, and one
      that has not changes nothing; a reply of the authority adds its nodes. */
  lemma ConnectingEffect(tc: Client, e: Event)
    requires e.sockd in tc.connections
    ensures tc.connections[e.sockd].state.Connecting? ==>
      Activate(tc, e).tc ==
        if e.socks.Moved? && e.socksDone
        then Activate(Put(tc, e.sockd, tc.connections[e.sockd].(state := Request)), e).tc
        else tc
    ensures tc.connections[e.sockd].state.AuthReceive? && e.received.Moved? ==>
      Activate(tc, e).tc == AddNodes(tc, e.nodes)
  {
    var s := tc.connections[e.sockd];
    PutTwice(tc.connections, e.sockd, s.(state := Request), s.(state := Idle));
    PutTwice(tc.connections, e.sockd, s.(state := Request), s.(state := Request));
    PutTwice(tc.connections, e.sockd, s.(state := Request), s.(state := Transfer, down := 0, up := 0));
  }

  lemma PutTwice(c: map<int, Server>, k: int, s: Server, t: Server)
    ensures c[k := s][k := t] == c[k := t]
  {
  }

  /** The socket calls that an activation makes, in order, as long as they succeed. */
  function Calls(tc: Client, e: Event): seq<Io>
    requires e.sockd in tc.connections
  {
    var s := tc.connections[e.sockd];
    match s.state
    case Connecting => [e.socks] + if e.socksDone && tc.blocksRemaining > 0 then [e.sent] else []
    case AuthRequest => [e.sent]
    case AuthReceive => [e.received]
    case Request => if tc.blocksRemaining > 0 then [e.sent] else []
    case Transfer =>
      (if e.readable && s.down < tc.downBlockSize then [e.received] else [])
      + if e.writable && s.up < tc.upBlockSize then [e.sent] else []
    case Finished => [e.received]
    case Idle => []
  }

  /** The first call that moves nothing, if there is one. */
  function FirstFailed(calls: seq<Io>): Io {
    if calls == [] then Moved(0) else if calls[0].Moved? then FirstFailed(calls[1..]) else calls[0]
  }

  /** What the caller learns: of the first call that moved nothing whether it would have blocked or broke
      the connection, and otherwise of a refusal by the proxy or of a downloaded block. */
  lemma CodeExact(tc: Client, e: Event)
    ensures Activate(tc, e).code.ErrNoServer? <==> e.sockd !in tc.connections
    ensures e.sockd in tc.connections ==>
      && (Activate(tc, e).code.ErrFatal? <==> FirstFailed(Calls(tc, e)).Broken?)
      && (Activate(tc, e).code.ErrWouldBlock? <==> FirstFailed(Calls(tc, e)).WouldBlock?)
      && (Activate(tc, e).code.ErrSocksConn? <==>
            tc.connections[e.sockd].state.Connecting? && e.socks.Moved? && !e.socksDone)
  {
    hide FirstFailed;
    if e.sockd in tc.connections {
      FirstOfTwo(e.socks, e.sent);
      FirstOfTwo(e.received, e.sent);
      assert [] + [e.sent] == [e.sent] && [e.socks] + [] == [e.socks] && [e.received] + [] == [e.received];
    }
  }

  lemma FirstOfTwo(a: Io, b: Io)
    ensures FirstFailed([]) == Moved(0)
    ensures FirstFailed([a]) == if a.Moved? then Moved(0) else a
    ensures FirstFailed([b]) == if b.Moved? then Moved(0) else b
    ensures FirstFailed([a] + [b]) == if !a.Moved? then a else if !b.Moved? then b else Moved(0)
  {
    assert [a][1..] == [] && [b][1..] == [] && ([a] + [b])[1..] == [b];
  }

  /** The client starts again exactly after a broken connection or a refusal by the proxy. */
  lemma RestartsExactly(tc: Client, e: Event, auth: Node)
    requires tc.downBlockSize > 0 && e.sockd in tc.connections
    ensures
      var restarts := FirstFailed(Calls(tc, e)).Broken?
        || (tc.connections[e.sockd].state.Connecting? && e.socks.Moved? && !e.socksDone);
      Step(tc, e, auth) == if restarts
        then Started(tc.fileSize, tc.downBlockSize, tc.upBlockSize, tc.viaSocks, tc.socketLimit, auth)
        else Activate(tc, e).tc
  {
    hide Calls, FirstFailed, Activate;
    CodeExact(tc, e);
  }

  // ---------- the servers that are found ----------

  /** Nobody is listed twice. */
  predicate Distinct(servers: seq<(nat, nat)>) {
    forall i, j :: 0 <= i < j < |servers| ==> servers[i] != servers[j]
  }

  /** A socket that the reply has opened for the server with this address and port. Behind a SOCKS proxy
      it has to negotiate first. */
  predicate OpenedFor(before: Client, after: Client, sockd: int, server: (nat, nat)) {
    && sockd in after.connections && sockd !in before.connections
    && after.connections[sockd]
         == Server(server.0, server.1, if before.viaSocks then Connecting else Request, 0, 0)
  }

  ghost predicate HasSocket(before: Client, after: Client, server: (nat, nat)) {
    exists k :: OpenedFor(before, after, k, server)
  }

  /** Every server that is new has a new socket. */
  ghost predicate EachHasOne(before: Client, after: Client)
    requires before.servers <= after.servers
  {
    forall i :: |before.servers| <= i < |after.servers| ==> HasSocket(before, after, after.servers[i])
  }

  /** No two new sockets are for the same server. */
  ghost predicate NoneHasTwo(before: Client, after: Client) {
    forall j, k, s :: OpenedFor(before, after, j, s) && OpenedFor(before, after, k, s) ==> j == k
  }

  /** Every new socket is for a server that is new. */
  ghost predicate AllAreForServers(before: Client, after: Client)
    requires before.servers <= after.servers
  {
    forall k, s :: OpenedFor(before, after, k, s) ==> s in after.servers[|before.servers|..]
  }

  /** After a reply every node in it is known, nobody is known twice, those known before are still
      there, every new server has exactly one new connection, which carries its address and port, and
      every connection that was there is as it was. */
  lemma {:induction false} NodesAreKnown(tc: Client, nodes: seq<Node>)
    requires Distinct(tc.servers) && FreshSockets(tc, nodes)
    ensures
      var r := AddNodes(tc, nodes);
      && Distinct(r.servers) && tc.servers <= r.servers
      && (forall n <- nodes :: (n.addr, n.port) in r.servers)
      && (forall k <- tc.connections :: k in r.connections && r.connections[k] == tc.connections[k])
      && EachHasOne(tc, r) && NoneHasTwo(tc, r) && AllAreForServers(tc, r)
  {
    hide EachHasOne, NoneHasTwo, AllAreForServers;
    if nodes != [] {
      var front, n := nodes[..|nodes| - 1], nodes[|nodes| - 1];
      NodesAreKnown(tc, front);
      var mid := AddNodes(tc, front);
      OneMoreNode(mid, n);
      assert forall m <- nodes :: m in front || m == n;
      OneMoreSocket(tc, mid, n);
    } else {
      NoNewSockets(tc);
    }
  }

  lemma NoNewSockets(tc: Client)
    ensures EachHasOne(tc, tc) && NoneHasTwo(tc, tc) && AllAreForServers(tc, tc)
  {
  }

  lemma OneMoreNode(tc: Client, n: Node)
    requires Distinct(tc.servers) && n.sockd !in tc.connections
    ensures
      var r := AddNode(tc, n);
      && Distinct(r.servers) && tc.servers <= r.servers && (n.addr, n.port) in r.servers
      && (forall k <- tc.connections :: k in r.connections && r.connections[k] == tc.connections[k])
  {
    if (n.addr, n.port) !in tc.servers {
      assert (n.addr, n.port) == AddNode(tc, n).servers[|tc.servers|];
    }
  }

  /** What a new node opens: its own socket, for its own address and port. */
  lemma OpenedByNode(tc: Client, mid: Client, n: Node, k: int, s: (nat, nat))
    requires n.sockd !in mid.connections && (n.addr, n.port) !in mid.servers
    requires tc.viaSocks == mid.viaSocks
    requires forall j <- tc.connections :: j in mid.connections
    ensures OpenedFor(tc, AddNode(mid, n), k, s)
       <==> OpenedFor(tc, mid, k, s) || (k == n.sockd && s == (n.addr, n.port))
  {
  }

  lemma OneMoreSocket(tc: Client, mid: Client, n: Node)
    requires tc.servers <= mid.servers && n.sockd !in mid.connections
    requires EachHasOne(tc, mid) && NoneHasTwo(tc, mid) && AllAreForServers(tc, mid)
    requires forall k <- tc.connections :: k in mid.connections
    requires tc.viaSocks == mid.viaSocks
    ensures EachHasOne(tc, AddNode(mid, n)) && NoneHasTwo(tc, AddNode(mid, n)) && AllAreForServers(tc, AddNode(mid, n))
  {
    hide OpenedFor;
    var r, here := AddNode(mid, n), (n.addr, n.port);
    if here !in mid.servers {
      forall k, s
        ensures OpenedFor(tc, r, k, s) <==> OpenedFor(tc, mid, k, s) || (k == n.sockd && s == here)
      {
        OpenedByNode(tc, mid, n, k, s);
      }
      assert r.servers == mid.servers + [here];
      OneMoreServed(tc, mid, r, n.sockd, here);
    }
  }

  lemma OneMoreServed(tc: Client, mid: Client, r: Client, sockd: int, here: (nat, nat))
    requires tc.servers <= mid.servers && r.servers == mid.servers + [here] && here !in mid.servers
    requires forall k, s :: OpenedFor(tc, r, k, s) <==> OpenedFor(tc, mid, k, s) || (k == sockd && s == here)
    requires EachHasOne(tc, mid) && NoneHasTwo(tc, mid) && AllAreForServers(tc, mid)
    ensures EachHasOne(tc, r) && NoneHasTwo(tc, r) && AllAreForServers(tc, r)
  {
    hide OpenedFor;
    assert r.servers[|tc.servers|..] == mid.servers[|tc.servers|..] + [here];
    assert OpenedFor(tc, r, sockd, here);
    forall k, s | OpenedFor(tc, r, k, s)
      ensures s in r.servers[|tc.servers|..]
      ensures s == here ==> k == sockd
    {
      if OpenedFor(tc, mid, k, s) {
        assert s in mid.servers[|tc.servers|..];
        assert s in mid.servers;
      }
    }
    forall i | |tc.servers| <= i < |r.servers|
      ensures HasSocket(tc, r, r.servers[i])
    {
      if i < |mid.servers| {
        assert HasSocket(tc, mid, mid.servers[i]);
        var k :| OpenedFor(tc, mid, k, mid.servers[i]);
        assert OpenedFor(tc, r, k, r.servers[i]);
      } else {
        assert OpenedFor(tc, r, sockd, r.servers[i]);
      }
    }
  }
}
