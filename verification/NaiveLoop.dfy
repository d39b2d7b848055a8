/** A load generator connection joined to server_epoll.c, with the edges that tell the server of its
    bytes. An edge that had gone by unnoticed would leave the loop at rest for good with bytes
    queued; none does. The client waits on a level-triggered epoll, which goes on reporting. */
module NaiveLoop {
  import opened Kernel
  import Edges = NaiveEdge
  import Echo = EchoLoop
  import Client = LoadgenClient
  import EndToEnd

  datatype System = System(c: Client.Conn, w: Edges.World)

  datatype Move =
    | ClientEvent(err: bool, out: bool, in_: bool)
    | ClientCall(r: Ret)
    | Server(e: Edges.Change)

  function Start(): System {
    System(Client.Connected(true), Edges.Start())
  }

  /** Bytes arrive at the server only as the client writes them, and the end of the stream only once
      the client has closed. */
  predicate Enabled(y: System, m: Move) {
    m.Server? ==> !m.e.Arrives? && (m.e.Finishes? ==> !y.c.sk.open) && Edges.Enabled(y.w, m.e)
  }

  function Next(y: System, m: Move): (y': System)
    requires y.w.c.Valid()
    ensures y'.w.c.Valid()
  {
    match m
    case ClientEvent(err, out, in_) => y.(c := y.c.Begin(err, out, in_))
    case ClientCall(r) =>
      var c := Client.Step(y.c, r);
      System(c, Edges.Next(y.w, Edges.Arrives(Emitted(y.c.sk, c.sk))))
    case Server(e) =>
      var w := Edges.Next(y.w, e);
      System(if e.Answers? then y.c.(sk := y.c.sk.Deliver(Emitted(y.w.c.sk, w.c.sk))) else y.c, w)
  }

  ghost predicate Possible(y: System, moves: seq<Move>)
    requires y.w.c.Valid()
    decreases |moves|
  {
    moves != [] ==> Enabled(y, moves[0]) && Possible(Next(y, moves[0]), moves[1..])
  }

  function Run(y: System, moves: seq<Move>): (y': System)
    requires y.w.c.Valid()
    ensures y'.w.c.Valid()
    decreases |moves|
  {
    if moves == [] then y else Run(Next(y, moves[0]), moves[1..])
  }

  /** The two streams, the edges, and that only a closed client has finished. */
  ghost predicate Inv(y: System) {
    && EndToEnd.Inv(EndToEnd.System(y.c, y.w.c)) && Edges.Inv(y.w)
    && Client.InterestAgrees(y.c) && y.c.active && (y.w.fin ==> !y.c.sk.open)
  }

  /** What a move is to the two streams; a move of the kernel alone is nothing to them. */
  lemma StreamsKept(y: System, m: Move)
    requires Inv(y) && Enabled(y, m)
    ensures var v := Next(y, m); EndToEnd.Inv(EndToEnd.System(v.c, v.w.c))
  {
    var joined := EndToEnd.System(y.c, y.w.c);
    if m.ClientCall? {
      EndToEnd.ClientCallInv(Echo.DrainAll, joined, m.r);
    } else if m.Server? && m.e.Answers? {
      EndToEnd.ServerCallInv(Echo.DrainAll, joined, m.e.r);
    }
  }

  lemma ClosedStaysClosed(c: Client.Conn, r: Ret)
    requires EndToEnd.Protocol(c) && !c.sk.open
    ensures Client.Step(c, r) == c
  {
  }

  lemma ClientKept(y: System, m: Move)
    requires Inv(y) && Enabled(y, m)
    ensures var v := Next(y, m); Client.InterestAgrees(v.c) && v.c.active && (v.w.fin ==> !v.c.sk.open)
  {
    if m.ClientCall? {
      Client.StepInterest(y.c, m.r);
      if y.w.fin {
        ClosedStaysClosed(y.c, m.r);
      }
    }
  }

  lemma EdgesKept(y: System, m: Move)
    requires Inv(y) && Enabled(y, m)
    ensures Edges.Inv(Next(y, m).w)
  {
    if m.ClientCall? {
      Edges.NextInv(y.w, Edges.Arrives(Emitted(y.c.sk, Client.Step(y.c, m.r).sk)));
    } else if m.Server? {
      Edges.NextInv(y.w, m.e);
    }
  }

  lemma {:induction false} RunInv(y: System, moves: seq<Move>)
    requires Inv(y) && Possible(y, moves)
    ensures Inv(Run(y, moves))
    decreases |moves|
  {
    if moves != [] {
      StreamsKept(y, moves[0]);
      ClientKept(y, moves[0]);
      EdgesKept(y, moves[0]);
      RunInv(Next(y, moves[0]), moves[1..]);
    }
  }

  // ---------------------------------------------------------------- both sides stay open

  predicate BothOpen(y: System) {
    y.c.sk.open && y.w.c.sk.open
  }

  /** The client is told of an error or makes a call that it does not survive, or a call of the server is
      answered with an error. */
  predicate Fails(y: System, m: Move) {
    || (m.ClientEvent? && m.err && y.c.pc.Idle?)
    || (m.ClientCall? && Client.Fatal(y.c.pc, y.c.sk.rq, m.r))
    || (m.Server? && m.e.Answers? && m.e.r.Err? && !y.w.c.pc.Idle?)
  }

  ghost predicate NeverFails(y: System, moves: seq<Move>)
    requires y.w.c.Valid()
    decreases |moves|
  {
    moves != [] ==> !Fails(y, moves[0]) && NeverFails(Next(y, moves[0]), moves[1..])
  }

  /** The server closes on its own only when a call fails: it meets the end of the stream only after the
      client has closed. */
  lemma NextBothOpenIff(y: System, m: Move)
    requires Inv(y) && Enabled(y, m)
    ensures BothOpen(Next(y, m)) <==> BothOpen(y) && !Fails(y, m)
  {
    if m.ClientCall? && y.c.sk.open {
      Client.StepOpenIff(y.c, m.r);
    } else if m.Server? {
      Edges.NextOpenIff(y.w, m.e);
    }
  }

  /** In every run both sides are open at the end if and only if nothing failed: no EAGAIN, no cutting of
      the streams and no timing of the edges closes either. */
  lemma {:induction false} RunBothOpenIff(y: System, moves: seq<Move>)
    requires Inv(y) && Possible(y, moves)
    ensures BothOpen(Run(y, moves)) <==> BothOpen(y) && NeverFails(y, moves)
    decreases |moves|
  {
    if moves != [] {
      NextBothOpenIff(y, moves[0]);
      StreamsKept(y, moves[0]);
      ClientKept(y, moves[0]);
      EdgesKept(y, moves[0]);
      RunBothOpenIff(Next(y, moves[0]), moves[1..]);
    }
  }

  /** The loop never comes to rest, however requests and echoes are cut and whenever edges are
      reported: where nothing failed and neither side runs, either an edge is raised, or the client
      waits for room to send, or all that it waits for is in its own queue. */
  lemma NeverAtRest(moves: seq<Move>)
    requires Possible(Start(), moves) && NeverFails(Start(), moves)
    ensures var y := Run(Start(), moves);
      y.c.pc.Idle? && y.w.c.pc.Idle? && !y.w.edge ==>
        if y.c.phase.Sending? then y.c.interest.Out?
        else y.c.interest.In? && |y.c.sk.rq| == Client.PAYLOAD_LEN - y.c.recvOffset > 0
  {
    EndToEnd.StartInv(true);
    RunInv(Start(), moves);
    RunBothOpenIff(Start(), moves);
    var y := Run(Start(), moves);
    if y.w.c.sk.open {
      assert |y.c.sk.out| == |y.w.c.sk.out| + |y.w.c.Rest()| + |y.w.c.sk.rq|;
    }
    assert |y.c.recvBuf[..y.c.recvOffset]| == y.c.recvOffset;
  }
}
