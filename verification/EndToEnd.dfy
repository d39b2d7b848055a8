/** A load generator connection joined to an echo loop by two FIFO byte streams.

    The two parties move in any order, one system call at a time, with any chunk sizes, any
    EAGAIN and any failure. The echo loop is that of server_poll.c and server_select.c
    (OneRead) or of server_epoll.c (DrainAll). */
module EndToEnd {
  import opened Kernel
  import Echo = EchoLoop
  import Client = LoadgenClient

  datatype System = System(c: Client.Conn, s: Echo.Conn)

  datatype Move =
    | ClientEvent(err: bool, out: bool, in_: bool)
    | ClientCall(cr: Ret)
    | ServerEvent
    | ServerCall(sr: Ret)

  function Start(active: bool): System {
    System(Client.Connected(active), Echo.Accepted())
  }

  /** What one party writes is queued for the other. */
  function Next(p: Echo.Policy, y: System, m: Move): (y': System)
    requires y.s.Valid()
    ensures y'.s.Valid()
  {
    match m
    case ClientEvent(err, out, in_) => y.(c := y.c.Begin(err, out, in_))
    case ServerEvent => y.(s := y.s.Begin())
    case ClientCall(r) =>
      var c := Client.Step(y.c, r);
      System(c, y.s.(sk := y.s.sk.Deliver(Emitted(y.c.sk, c.sk))))
    case ServerCall(r) =>
      var s := Echo.Step(p, y.s, r);
      System(y.c.(sk := y.c.sk.Deliver(Emitted(y.s.sk, s.sk))), s)
  }

  function Run(p: Echo.Policy, y: System, moves: seq<Move>): (y': System)
    requires y.s.Valid()
    ensures y'.s.Valid()
    decreases |moves|
  {
    if moves == [] then y
    else Run(p, Next(p, y, moves[0]), moves[1..])
  }

  /** The payload, k times over. */
  function Requests(k: nat): Bytes {
    if k == 0 then [] else Requests(k - 1) + Client.Payload()
  }

  lemma {:induction false} RequestsLength(k: nat)
    ensures |Requests(k)| == k * Client.PAYLOAD_LEN
  {
    if k > 0 {
      RequestsLength(k - 1);
    }
  }

  /** The two streams are FIFO. */
  ghost predicate Linked(y: System) {
    && y.s.sk.taken + y.s.sk.rq == y.c.sk.out
    && y.c.sk.taken + y.c.sk.rq == y.s.sk.out
  }

  /** What the client has sent and received, in terms of its completed requests. */
  ghost predicate Protocol(c: Client.Conn) {
    && c.sk.taken == Requests(c.completed) + c.recvBuf[..c.recvOffset]
    && c.sk.out == Requests(c.completed)
                   + (if c.phase.Receiving? then Client.Payload()
                      else Client.Payload()[..c.sendOffset])
    && c.errors == (if c.sk.open then 0 else 1)
    && (c.pc.SendLoop? ==> c.phase.Sending? && c.active)
    && (c.pc.RecvLoop? ==> c.phase.Receiving?)
    && (c.pc.NextRequest? ==> c.phase.Sending? && c.sendOffset == 0)
    && (c.phase.Sending? ==> c.recvOffset == 0)
    && (!c.pc.Idle? ==> c.sk.open)
  }

  ghost predicate Inv(y: System) {
    y.s.Valid() && Echo.Echoes(y.s) && Linked(y) && Protocol(y.c)
  }

  lemma StartInv(active: bool)
    ensures Inv(Start(active))
  {
    assert Client.Payload()[..0] == [];
  }

  /** Prefixes of one request behind the same history. */
  lemma PrefixBehind(a: Bytes, x: Bytes, z: Bytes)
    requires a + x <= a + z
    ensures x <= z
  {
    assert x == (a + x)[|a|..] && z == (a + z)[|a|..];
    assert (a + z)[..|a + x|] == a + x;
    assert z[..|x|] == (a + z)[|a|..|a| + |x|] == x;
  }

  /** The client's peer never returns anything but what it was sent, in order. */
  ghost predicate Answered(c: Client.Conn) {
    c.sk.taken + c.sk.rq <= c.sk.out
  }

  /** The bytes received so far for the current request are the payload's own. */
  lemma ReceivedIsPayload(c: Client.Conn)
    requires Protocol(c) && Answered(c) && c.phase.Receiving?
    ensures c.recvBuf[..c.recvOffset] + c.sk.rq <= Client.Payload()
  {
    assert Requests(c.completed) + (c.recvBuf[..c.recvOffset] + c.sk.rq) == c.sk.taken + c.sk.rq;
    PrefixBehind(Requests(c.completed), c.recvBuf[..c.recvOffset] + c.sk.rq, Client.Payload());
  }

  lemma InvAnswered(y: System)
    requires Inv(y)
    ensures Answered(y.c)
  {
    assert y.s.sk.out <= y.s.sk.taken <= y.c.sk.out;
  }

  /** A write lengthens the sent part of the payload. */
  lemma SentChunk(before: Bytes, p: Bytes, at: nat, k: nat)
    requires at + k <= |p|
    ensures (before + p[..at]) + p[at..at + k] == before + p[..at + k]
    ensures p[..|p|] == p
  {
    assert p[..at] + p[at..at + k] == p[..at + k];
  }

  lemma SendProtocol(c: Client.Conn, r: Ret)
    requires Protocol(c) && (c.pc.SendLoop? || c.pc.NextRequest?)
    ensures Protocol(Client.Step(c, r))
  {
    if r.N? {
      SentChunk(Requests(c.completed), Client.Payload(), c.sendOffset, Min(r.n, Client.PAYLOAD_LEN - c.sendOffset));
      assert c.recvBuf[..0] == [];
    }
  }

  lemma Overwritten(buf: Bytes, at: nat, data: Bytes)
    requires at + |data| <= |buf|
    ensures Client.Overwrite(buf, at, data)[..at + |data|] == buf[..at] + data
  {
  }

  /** A receive step keeps the protocol; in particular a complete echo equals the payload, so
      the comparison never counts an error. */
  lemma RecvProtocol(c: Client.Conn, r: Ret)
    requires Protocol(c) && Answered(c) && c.pc.RecvLoop?
    ensures Protocol(Client.Step(c, r))
  {
    if r.N? {
      var k := c.sk.ReadCount(Client.PAYLOAD_LEN - c.recvOffset, r.n);
      var data := c.sk.rq[..k];
      var buf := Client.Overwrite(c.recvBuf, c.recvOffset, data);
      ReceivedChunk(c, k);
      if c.recvOffset + k == Client.PAYLOAD_LEN {
        ReceivedWhole(c, k);
        assert buf[..0] == [] && Client.Payload()[..0] == [];
      }
    }
  }

  /** The bytes of one read lengthen what was received. */
  lemma ReceivedChunk(c: Client.Conn, k: nat)
    requires Protocol(c) && c.phase.Receiving? && k <= |c.sk.rq| && c.recvOffset + k <= Client.PAYLOAD_LEN
    ensures var data := c.sk.rq[..k];
      c.sk.taken + data
      == Requests(c.completed) + Client.Overwrite(c.recvBuf, c.recvOffset, data)[..c.recvOffset + k]
  {
    var data := c.sk.rq[..k];
    Overwritten(c.recvBuf, c.recvOffset, data);
    assert (Requests(c.completed) + c.recvBuf[..c.recvOffset]) + data
        == Requests(c.completed) + (c.recvBuf[..c.recvOffset] + data);
  }

  /** A buffer filled to the payload's length holds the payload. */
  lemma ReceivedWhole(c: Client.Conn, k: nat)
    requires Protocol(c) && Answered(c) && c.phase.Receiving?
    requires k <= |c.sk.rq| && c.recvOffset + k == Client.PAYLOAD_LEN
    ensures Client.Overwrite(c.recvBuf, c.recvOffset, c.sk.rq[..k])[..Client.PAYLOAD_LEN] == Client.Payload()
  {
    var had, data := c.recvBuf[..c.recvOffset], c.sk.rq[..k];
    ReceivedIsPayload(c);
    Overwritten(c.recvBuf, c.recvOffset, data);
    assert had + c.sk.rq == (had + data) + c.sk.rq[k..];
  }

  /** A client step moves bytes from its queue to its history and changes nothing else of its
      input, and writes only where it has no input to take. */
  lemma ClientStreams(c: Client.Conn, r: Ret)
    ensures var c' := Client.Step(c, r);
      && c'.sk.taken + c'.sk.rq == c.sk.taken + c.sk.rq
      && c.sk.out <= c'.sk.out
  {
    match c.pc
    case Idle =>
    case SendLoop(_) =>
    case RecvLoop =>
      if r.N? {
        var k := c.sk.ReadCount(Client.PAYLOAD_LEN - c.recvOffset, r.n);
        ReadKeepsStream(c.sk, k);
        assert k > 0 ==> Client.StepRecv(c, r).sk == c.sk.AfterRead(k);
      }
    case NextRequest =>
  }

  lemma ClientProtocol(c: Client.Conn, r: Ret)
    requires Protocol(c) && Answered(c)
    ensures Protocol(Client.Step(c, r))
  {
    match c.pc
    case Idle =>
    case RecvLoop => RecvProtocol(c, r);
    case _ => SendProtocol(c, r);
  }

  lemma ClientCallInv(p: Echo.Policy, y: System, r: Ret)
    requires Inv(y)
    ensures Inv(Next(p, y, ClientCall(r)))
  {
    InvAnswered(y);
    ClientProtocol(y.c, r);
    ClientStreams(y.c, r);
    var c := Client.Step(y.c, r);
    DeliveredEchoes(y.s, Emitted(y.c.sk, c.sk));
    assert c.sk.out == y.c.sk.out + Emitted(y.c.sk, c.sk);
  }

  lemma DeliveredEchoes(s: Echo.Conn, data: Bytes)
    requires s.Valid() && Echo.Echoes(s)
    ensures var s' := s.(sk := s.sk.Deliver(data));
      s'.Valid() && Echo.Echoes(s') && s'.sk.out == s.sk.out
      && s'.sk.taken + s'.sk.rq == s.sk.taken + s.sk.rq + data
  {
  }

  lemma ServerCallInv(p: Echo.Policy, y: System, r: Ret)
    requires Inv(y)
    ensures Inv(Next(p, y, ServerCall(r)))
  {
    var s := Echo.Step(p, y.s, r);
    Echo.StepEchoes(p, y.s, r);
    assert s.sk.out == y.s.sk.out + Emitted(y.s.sk, s.sk);
    if y.s.pc.Reading? && r.N? {
      ReadKeepsStream(y.s.sk, y.s.sk.ReadCount(BUF_SIZE, r.n));
    }
    assert s.sk.taken + s.sk.rq == y.s.sk.taken + y.s.sk.rq;
  }

  lemma {:induction false} RunInv(p: Echo.Policy, y: System, moves: seq<Move>)
    requires Inv(y)
    ensures Inv(Run(p, y, moves))
    decreases |moves|
  {
    if moves != [] {
      match moves[0] {
        case ClientCall(r) => ClientCallInv(p, y, r);
        case ServerCall(r) => ServerCallInv(p, y, r);
        case _ =>
      }
      RunInv(p, Next(p, y, moves[0]), moves[1..]);
    }
  }

  /** Conservation, in every reachable state with the server side open: every byte the client
      has sent is, in order, received, in the return stream, in the server's buffer, or in the
      request stream. At most one request is outstanding, and a client that waits has exactly
      the missing bytes under way. */
  lemma NothingLost(p: Echo.Policy, active: bool, moves: seq<Move>)
    ensures var y := Run(p, Start(active), moves);
      && (y.s.sk.open ==> y.c.sk.out == y.c.sk.taken + y.c.sk.rq + y.s.Rest() + y.s.sk.rq)
      && |y.c.sk.taken| <= |y.c.sk.out| <= |y.c.sk.taken| + Client.PAYLOAD_LEN
      && (y.s.sk.open && y.c.phase.Receiving? ==>
            |y.c.sk.rq| + |y.s.Rest()| + |y.s.sk.rq| == Client.PAYLOAD_LEN - y.c.recvOffset)
  {
    StartInv(active);
    RunInv(p, Start(active), moves);
    var y := Run(p, Start(active), moves);
    if y.s.sk.open {
      assert y.c.sk.out == y.s.sk.out + y.s.Rest() + y.s.sk.rq;
    }
  }

  // ---------------------------------------------------------------- what closes the two sides

  /** The client is told of an error between two handlers, or makes a call that it does not survive. */
  predicate ClientFails(c: Client.Conn, m: Move) {
    || (m.ClientEvent? && m.err && c.pc.Idle?)
    || (m.ClientCall? && Client.Fatal(c.pc, c.sk.rq, m.cr))
  }

  predicate ServerFails(s: Echo.Conn, m: Move) {
    m.ServerCall? && Echo.Fatal(s.pc, s.sk.rq, m.sr)
  }

  ghost predicate ClientNeverFails(p: Echo.Policy, y: System, moves: seq<Move>)
    requires y.s.Valid()
    decreases |moves|
  {
    moves != [] ==> !ClientFails(y.c, moves[0]) && ClientNeverFails(p, Next(p, y, moves[0]), moves[1..])
  }

  ghost predicate ServerNeverFails(p: Echo.Policy, y: System, moves: seq<Move>)
    requires y.s.Valid()
    decreases |moves|
  {
    moves != [] ==> !ServerFails(y.s, moves[0]) && ServerNeverFails(p, Next(p, y, moves[0]), moves[1..])
  }

  /** A closed side has no handler running. */
  predicate ClosedRest(y: System) {
    (!y.c.sk.open ==> y.c.pc.Idle?) && (!y.s.sk.open ==> y.s.pc.Idle?)
  }

  lemma NextOpenIff(p: Echo.Policy, y: System, m: Move)
    requires y.s.Valid() && ClosedRest(y)
    ensures var y' := Next(p, y, m);
      && ClosedRest(y')
      && (y'.c.sk.open <==> y.c.sk.open && !ClientFails(y.c, m))
      && (y'.s.sk.open <==> y.s.sk.open && !ServerFails(y.s, m))
  {
    match m
    case ClientEvent(_, _, _) =>
    case ClientCall(r) =>
      if y.c.sk.open {
        Client.StepOpenIff(y.c, r);
      }
    case ServerEvent =>
    case ServerCall(r) =>
      if y.s.sk.open {
        Echo.StepOpenIff(p, y.s, r);
      }
  }

  /** In every run a side is open at the end if and only if it never met one of the failures that close
      it: EAGAIN at any call, and any cutting of requests and echoes, leave both open. */
  lemma {:induction false} RunOpenIff(p: Echo.Policy, y: System, moves: seq<Move>)
    requires y.s.Valid() && ClosedRest(y)
    ensures y.c.sk.open ==> (Run(p, y, moves).c.sk.open <==> ClientNeverFails(p, y, moves))
    ensures y.s.sk.open ==> (Run(p, y, moves).s.sk.open <==> ServerNeverFails(p, y, moves))
    ensures !y.c.sk.open ==> !Run(p, y, moves).c.sk.open
    ensures !y.s.sk.open ==> !Run(p, y, moves).s.sk.open
    decreases |moves|
  {
    if moves != [] {
      NextOpenIff(p, y, moves[0]);
      RunOpenIff(p, Next(p, y, moves[0]), moves[1..]);
    }
  }

  /** The load generator never counts a wrong echo: what it counts is one error, if it met a failure
      that closes a connection, and otherwise none, with the connection open; and what it received is
      its completed requests followed by a prefix of the payload. */
  lemma NoMismatch(p: Echo.Policy, active: bool, moves: seq<Move>)
    ensures var c := Run(p, Start(active), moves).c;
      && c.errors == (if ClientNeverFails(p, Start(active), moves) then 0 else 1)
      && (c.sk.open <==> c.errors == 0)
      && c.sk.taken == Requests(c.completed) + Client.Payload()[..c.recvOffset]
  {
    StartInv(active);
    RunInv(p, Start(active), moves);
    RunOpenIff(p, Start(active), moves);
    var y := Run(p, Start(active), moves);
    if y.c.phase.Receiving? {
      InvAnswered(y);
      ReceivedIsPayload(y.c);
    } else {
      assert y.c.recvBuf[..0] == Client.Payload()[..0];
    }
  }

  // ---------------------------------------------------------------- no state of rest

  lemma {:induction false} RunInterest(p: Echo.Policy, y: System, moves: seq<Move>)
    requires y.s.Valid() && Client.InterestAgrees(y.c)
    ensures Client.InterestAgrees(Run(p, y, moves).c) && Run(p, y, moves).c.active == y.c.active
    decreases |moves|
  {
    if moves != [] {
      if moves[0].ClientCall? {
        Client.StepInterest(y.c, moves[0].cr);
      }
      RunInterest(p, Next(p, y, moves[0]), moves[1..]);
    }
  }

  /** Nothing a waiting client needs is anywhere but in a queue: where nothing failed and neither side
      runs, the client either waits for room to send a request, or waits for bytes, and all of them
      are queued for one of the two. A level-triggered server is told of them; for the edge-triggered
      one NaiveLoop shows that it is, too. */
  lemma NeverStuck(p: Echo.Policy, moves: seq<Move>)
    requires ClientNeverFails(p, Start(true), moves) && ServerNeverFails(p, Start(true), moves)
    ensures var y := Run(p, Start(true), moves);
      y.c.pc.Idle? && y.s.pc.Idle? ==>
        if y.c.phase.Sending? then y.c.interest.Out?
        else y.c.interest.In? && |y.c.sk.rq| + |y.s.sk.rq| == Client.PAYLOAD_LEN - y.c.recvOffset > 0
  {
    RunInterest(p, Start(true), moves);
    NothingLost(p, true, moves);
    RunOpenIff(p, Start(true), moves);
  }
}
