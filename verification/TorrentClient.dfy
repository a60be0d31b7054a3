/** The torrent client with its counters and its table of connections, updated in place. Every method
    is proved to do to the value Abs() what Torrent.dfy says. */
module TorrentClients {
  import opened Torrent

  class TorrentClient {
    var fileSize: int
    var downBlockSize: nat
    var upBlockSize: nat
    var viaSocks: bool
    const socketLimit: nat
    var numBlocks: int
    var blocksRemaining: int
    var blocksDownloaded: nat
    var totalBytesDown: nat
    var totalBytesUp: nat
    var bytesInProgress: int
    var servers: seq<(nat, nat)>
    var connections: map<int, Server>

    function Abs(): Client
      reads this
    {
      Client(fileSize, downBlockSize, upBlockSize, viaSocks, socketLimit, numBlocks, blocksRemaining, blocksDownloaded,
             totalBytesDown, totalBytesUp, bytesInProgress, servers, connections)
    }

    predicate Valid()
      reads this
    {
      Inv(Abs())
    }

    constructor (size: int, down: nat, up: nat, socks: bool, limit: nat, auth: Node)
      requires down > 0 && 0 <= auth.sockd < limit
      ensures Valid() && Abs() == Started(size, down, up, socks, limit, auth)
    {
      socketLimit := limit;
      new;
      Start(size, down, up, socks, auth);
      StartedHolds(size, down, up, socks, limit, auth);
    }

    /** `torrentClient_start`, with a socket that is connected to the authority. */
    method Start(size: int, down: nat, up: nat, socks: bool, auth: Node)
      requires down > 0
      modifies this
      ensures Abs() == Started(size, down, up, socks, socketLimit, auth)
    {
      servers, viaSocks := [], socks;
      totalBytesDown, totalBytesUp, bytesInProgress := 0, 0, 0;
      fileSize, downBlockSize, upBlockSize := size, down, up;
      numBlocks := TruncatingDivision(size + down - 1, down);
      blocksRemaining, blocksDownloaded := numBlocks, 0;
      connections := map[auth.sockd := Server(auth.addr, auth.port, AuthRequest, 0, 0)];
    }

    method SetState(sockd: int, state: ServerState)
      requires sockd in connections
      modifies `connections
      ensures Abs() == Put(old(Abs()), sockd, old(connections)[sockd].(state := state))
    {
      connections := connections[sockd := connections[sockd].(state := state)];
    }

    method ActivateRequest(sockd: int, sent: Io) returns (code: Code)
      requires sockd in connections
      modifies `connections, `blocksRemaining
      ensures Outcome(Abs(), code) == OnRequest(old(Abs()), sockd, sent)
    {
      connections := connections[sockd := connections[sockd].(state := Request)];
      if blocksRemaining <= 0 {
        SetState(sockd, Idle);
        return Success;
      }
      if !sent.Moved? {
        return Failure(sent);
      }
      blocksRemaining := blocksRemaining - 1;
      connections := connections[sockd := connections[sockd].(down := 0, up := 0)];
      SetState(sockd, Transfer);
      return Success;
    }

    method ActivateConnecting(e: Event) returns (code: Code)
      requires e.sockd in connections
      modifies `connections, `blocksRemaining
      ensures Outcome(Abs(), code) == OnConnecting(old(Abs()), e)
    {
      if !e.socks.Moved? {
        return Failure(e.socks);
      }
      if !e.socksDone {
        return ErrSocksConn;
      }
      code := ActivateRequest(e.sockd, e.sent);
    }

    method ActivateTransfer(e: Event) returns (code: Code)
      requires e.sockd in connections
      modifies `connections, `totalBytesDown, `totalBytesUp, `bytesInProgress
      ensures Outcome(Abs(), code) == OnTransfer(old(Abs()), e)
    {
      if e.readable && connections[e.sockd].down < downBlockSize {
        if !e.received.Moved? {
          return Failure(e.received);
        }
        connections := connections[e.sockd := connections[e.sockd].(down := connections[e.sockd].down + e.received.bytes)];
        totalBytesDown := totalBytesDown + e.received.bytes;
        bytesInProgress := bytesInProgress - e.received.bytes;
      }
      code := ActivateUpload(e);
    }

    method ActivateUpload(e: Event) returns (code: Code)
      requires e.sockd in connections
      modifies `connections, `totalBytesUp
      ensures
        var tc := old(Abs());
        if Uploads(tc, e) && !e.sent.Moved? then Abs() == tc && code == Failure(e.sent)
        else
          Abs() == Settled(if Uploads(tc, e) then Uploaded(tc, e.sockd, e.sent.bytes) else tc, e.sockd)
          && code == Success
    {
      if e.writable && connections[e.sockd].up < upBlockSize {
        if !e.sent.Moved? {
          return Failure(e.sent);
        }
        connections := connections[e.sockd := connections[e.sockd].(up := connections[e.sockd].up + e.sent.bytes)];
        totalBytesUp := totalBytesUp + e.sent.bytes;
      }
      if connections[e.sockd].down >= downBlockSize && connections[e.sockd].up >= upBlockSize {
        SetState(e.sockd, Finished);
      }
      return Success;
    }

    method ActivateFinished(e: Event) returns (code: Code)
      requires e.sockd in connections
      modifies `connections, `blocksDownloaded
      ensures Outcome(Abs(), code) == OnFinished(old(Abs()), e)
    {
      if !e.received.Moved? {
        return Failure(e.received);
      }
      if !e.finished {
        return Success;
      }
      SetState(e.sockd, Request);
      blocksDownloaded := blocksDownloaded + 1;
      return BlockDownloaded;
    }

    /** Connects to every node of the reply that is not known yet. */
    method AddServers(nodes: seq<Node>)
      modifies `connections, `servers
      ensures Abs() == AddNodes(old(Abs()), nodes)
    {
      var i := 0;
      while i < |nodes|
        invariant 0 <= i <= |nodes|
        invariant Abs() == AddNodes(old(Abs()), nodes[..i])
      {
        var n := nodes[i];
        assert nodes[..i + 1][..i] == nodes[..i];
        var found := Known(n);
        if !found {
          var state := if viaSocks then Connecting else Request;
          servers := servers + [(n.addr, n.port)];
          connections := connections[n.sockd := Server(n.addr, n.port, state, 0, 0)];
        }
        i := i + 1;
      }
      assert nodes[..i] == nodes;
    }

    method Known(n: Node) returns (found: bool)
      ensures found <==> (n.addr, n.port) in servers
    {
      found := false;
      var i := 0;
      while !found && i < |servers|
        invariant 0 <= i <= |servers|
        invariant found <==> (n.addr, n.port) in servers[..i]
      {
        if servers[i].0 == n.addr && servers[i].1 == n.port {
          found := true;
        }
        i := i + 1;
      }
      assert i == |servers| ==> servers[..i] == servers;
    }

    method ActivateAuth(e: Event) returns (code: Code)
      requires e.sockd in connections
      requires connections[e.sockd].state.AuthRequest? || connections[e.sockd].state.AuthReceive?
      modifies `connections, `servers
      ensures Outcome(Abs(), code) == OnAuth(old(Abs()), e)
    {
      if connections[e.sockd].state.AuthRequest? {
        if !e.sent.Moved? {
          return Failure(e.sent);
        }
        SetState(e.sockd, AuthReceive);
        return Success;
      }
      if !e.received.Moved? {
        return Failure(e.received);
      }
      AddServers(e.nodes);
      return Success;
    }

    method Activate(e: Event) returns (code: Code)
      requires Valid() && May(Abs(), e)
      modifies this
      ensures Valid() && Outcome(Abs(), code) == Torrent.Activate(old(Abs()), e)
    {
      hide Inv, OnAuth, OnRequest, OnTransfer, OnFinished, OnConnecting, FreshSockets;
      ActivateKeeps(Abs(), e);
      if e.sockd !in connections {
        return ErrNoServer;
      }
      match connections[e.sockd].state
      case Connecting => code := ActivateConnecting(e);
      case AuthRequest => code := ActivateAuth(e);
      case AuthReceive => code := ActivateAuth(e);
      case Request => code := ActivateRequest(e.sockd, e.sent);
      case Transfer => code := ActivateTransfer(e);
      case Finished => code := ActivateFinished(e);
      case Idle => code := Success;
    }

    /** What the caller does with an event: after a fatal error everything starts again. */
    method Handle(e: Event, auth: Node)
      requires Valid() && May(Abs(), e) && 0 <= auth.sockd < socketLimit
      modifies this
      ensures Valid() && Abs() == Step(old(Abs()), e, auth)
    {
      hide Inv;
      StepKeeps(Abs(), Turn(e, auth));
      PositiveBlock(Abs());
      var code := Activate(e);
      if code.ErrFatal? || code.ErrSocksConn? {
        SettingsStay(old(Abs()), e);
        Start(fileSize, downBlockSize, upBlockSize, viaSocks, auth);
      }
    }
  }

  lemma PositiveBlock(tc: Client)
    requires Inv(tc)
    ensures tc.downBlockSize > 0
  {
  }

  lemma SettingsStay(tc: Client, e: Event)
    ensures SameSettings(tc, Torrent.Activate(tc, e).tc)
  {
    hide OnTransfer, AddNodes;
    if e.sockd in tc.connections {
      TransferSettings(tc, e);
    }
  }

  lemma TransferSettings(tc: Client, e: Event)
    requires e.sockd in tc.connections
    ensures SameSettings(tc, OnTransfer(tc, e).tc)
  {
  }
}
