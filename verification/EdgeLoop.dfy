/** A load generator connection joined to epoll_et_server.c, with the edges that tell the server of
    bytes and of room to write, and with room for a fixed number of bytes on the way back.

    Where the echo is exact, no edge goes by that the loop still needs, and the server's pending
    remainder waits only while the client has bytes to read. */
module EdgeLoop {
  import opened Kernel
  import Edges = NoLostEdge
  import Server = BufferedEcho
  import Client = LoadgenClient
  import Loop = ClosedLoop

  datatype System = System(c: Client.Conn, w: Edges.World)

  datatype Move =
    | ClientWakes(err: bool, out: bool, in_: bool)
    | ClientDoes(r: Ret)
    | Kernel(e: Edges.Change)

  function Start(room: nat): System {
    System(Client.Connected(true), Edges.Start(room))
  }

  function Joined(y: System): Loop.Pair {
    Loop.Pair(y.c, y.w.c)
  }

  /** Bytes arrive only as the client writes them, room opens only as it reads, and the stream ends
      only once it has closed. */
  predicate Enabled(y: System, m: Move)
    requires y.w.c.Valid()
  {
    m.Kernel? ==>
      && !m.e.Arrives? && !m.e.SpaceOpens? && (m.e.Finishes? ==> !y.c.sk.open)
      && Edges.Enabled(y.w, m.e)
  }

  /** What a client's call is to the server's side: its bytes arrive, and what it read makes room. */
  function Served(w: Edges.World, before: Sock, after: Sock): (w': Edges.World)
    requires w.c.Valid() && before.out <= after.out && |before.taken| <= |after.taken|
    ensures w'.c == w.c.(sk := w.c.sk.Deliver(Emitted(before, after))) && w'.c.Valid()
    ensures w'.space == w.space + (|after.taken| - |before.taken|)
  {
    Edges.Next(Edges.Next(w, Edges.Arrives(Emitted(before, after))),
               Edges.SpaceOpens(|after.taken| - |before.taken|))
  }

  function Next(y: System, m: Move): (y': System)
    requires y.w.c.Valid() && Enabled(y, m)
    ensures y'.w.c.Valid()
  {
    match m
    case ClientWakes(err, out, in_) => y.(c := y.c.Begin(err, out, in_))
    case ClientDoes(r) =>
      var c := Client.Step(y.c, r);
      ClientReads(y.c, r);
      System(c, Served(y.w, y.c.sk, c.sk))
    case Kernel(e) =>
      var w := Edges.Next(y.w, e);
      System(if e.Answers? then y.c.(sk := y.c.sk.Deliver(Emitted(y.w.c.sk, w.c.sk))) else y.c, w)
  }

  lemma ClientReads(c: Client.Conn, r: Ret)
    ensures var c' := Client.Step(c, r);
      |c.sk.taken| <= |c'.sk.taken| && |c'.sk.taken| - |c.sk.taken| == |c.sk.rq| - |c'.sk.rq|
  {
    match c.pc
    case Idle =>
    case SendLoop(_) =>
    case RecvLoop => RecvReads(c, r);
    case NextRequest =>
  }

  lemma RecvReads(c: Client.Conn, r: Ret)
    requires c.pc.RecvLoop?
    ensures var c' := Client.StepRecv(c, r);
      |c.sk.taken| <= |c'.sk.taken| && |c'.sk.taken| - |c.sk.taken| == |c.sk.rq| - |c'.sk.rq|
  {
    if r.N? {
      var k := c.sk.ReadCount(Client.PAYLOAD_LEN - c.recvOffset, r.n);
      assert Client.StepRecv(c, r).sk == if k == 0 then c.sk.Closed() else c.sk.AfterRead(k);
    }
  }

  ghost predicate Possible(y: System, moves: seq<Move>)
    requires y.w.c.Valid()
    decreases |moves|
  {
    moves != [] ==> Enabled(y, moves[0]) && Possible(Next(y, moves[0]), moves[1..])
  }

  function Run(y: System, moves: seq<Move>): (y': System)
    requires y.w.c.Valid() && Possible(y, moves)
    ensures y'.w.c.Valid()
    decreases |moves|
  {
    if moves == [] then y else Run(Next(y, moves[0]), moves[1..])
  }

  /** No write of the server disturbs its echo. */
  ghost predicate AllHarmless(y: System, moves: seq<Move>)
    requires y.w.c.Valid() && Possible(y, moves)
    decreases |moves|
  {
    moves != [] ==> Harmless(y, moves[0]) && AllHarmless(Next(y, moves[0]), moves[1..])
  }

  predicate Harmless(y: System, m: Move)
    requires y.w.c.Valid()
  {
    m.Kernel? && m.e.Answers? ==> Server.Harmless(y.w.c, Server.Call(m.e.r))
  }

  /** What a move is to the joined pair, unless it changes the edges only. */
  function ActOf(m: Move): Loop.Act {
    match m
    case ClientWakes(err, out, in_) => Loop.ClientWakes(err, out, in_)
    case ClientDoes(r) => Loop.ClientDoes(r)
    case Kernel(Report(in_, out)) => Loop.ServerWakes(out, in_)
    case Kernel(Answers(r)) => Loop.ServerDoes(r)
    case Kernel(_) => Loop.ServerWakes(false, false)
  }

  predicate EdgesOnly(m: Move) {
    m.Kernel? && !m.e.Report? && !m.e.Answers?
  }

  lemma NextIsApply(y: System, m: Move)
    requires y.w.c.Valid() && Enabled(y, m)
    ensures Joined(Next(y, m)) == if EdgesOnly(m) then Joined(y) else Loop.Apply(Server.Edge, Joined(y), ActOf(m))
  {
  }

  /** Exact streams; edges; and the bytes on their way back take up the room that is not free. */
  ghost predicate Inv(y: System, room: nat) {
    && Loop.LooseInv(Joined(y)) && Edges.NoneLost(y.w)
    && y.w.space + |y.c.sk.rq| == room
    && Client.InterestAgrees(y.c) && y.c.active
  }

  lemma PairKept(y: System, m: Move)
    requires Loop.LooseInv(Joined(y)) && Enabled(y, m) && Harmless(y, m)
    ensures Loop.LooseInv(Joined(Next(y, m)))
  {
    NextIsApply(y, m);
    if !EdgesOnly(m) {
      Loop.ApplyLoose(Server.Edge, Joined(y), ActOf(m));
    }
  }

  lemma EdgesKept(y: System, m: Move)
    requires y.w.c.Valid() && Edges.NoneLost(y.w) && Enabled(y, m)
    ensures Edges.NoneLost(Next(y, m).w)
  {
    if m.ClientDoes? {
      var c := Client.Step(y.c, m.r);
      ClientReads(y.c, m.r);
      var arrived := Edges.Arrives(Emitted(y.c.sk, c.sk));
      Edges.NextKeepsEdges(y.w, arrived);
      Edges.NextKeepsEdges(Edges.Next(y.w, arrived), Edges.SpaceOpens(|c.sk.taken| - |y.c.sk.taken|));
    } else if m.Kernel? {
      Edges.NextKeepsEdges(y.w, m.e);
    }
  }

  lemma RoomKept(y: System, m: Move)
    requires y.w.c.Valid() && Enabled(y, m)
    ensures var v := Next(y, m); v.w.space + |v.c.sk.rq| == y.w.space + |y.c.sk.rq|
  {
    if m.ClientDoes? {
      ClientReads(y.c, m.r);
    }
  }

  lemma InterestKept(y: System, m: Move)
    requires y.w.c.Valid() && Enabled(y, m) && Client.InterestAgrees(y.c) && y.c.active
    ensures Client.InterestAgrees(Next(y, m).c) && Next(y, m).c.active
  {
    if m.ClientDoes? {
      Client.StepInterest(y.c, m.r);
    }
  }

  lemma {:induction false} RunInv(y: System, moves: seq<Move>, room: nat)
    requires Inv(y, room) && Possible(y, moves) && AllHarmless(y, moves)
    ensures Inv(Run(y, moves), room)
    decreases |moves|
  {
    if moves != [] {
      PairKept(y, moves[0]);
      EdgesKept(y, moves[0]);
      RoomKept(y, moves[0]);
      InterestKept(y, moves[0]);
      RunInv(Next(y, moves[0]), moves[1..], room);
    }
  }

  // ---------------------------------------------------------------- both sides stay open

  predicate BothOpen(y: System) {
    y.c.sk.open && y.w.c.sk.open
  }

  /** The client is told of an error or makes a call that it does not survive, or a call of the server is
      answered with an error. */
  predicate Fails(y: System, m: Move) {
    || (m.ClientWakes? && m.err && y.c.pc.Idle?)
    || (m.ClientDoes? && Client.Fatal(y.c.pc, y.c.sk.rq, m.r))
    || (m.Kernel? && m.e.Answers? && m.e.r.Err? && !y.w.c.pc.Idle?)
  }

  ghost predicate NeverFails(y: System, moves: seq<Move>)
    requires y.w.c.Valid() && Possible(y, moves)
    decreases |moves|
  {
    moves != [] ==> !Fails(y, moves[0]) && NeverFails(Next(y, moves[0]), moves[1..])
  }

  /** A closed side has no handler running, and only a closed client has finished. */
  ghost predicate Rest(y: System) {
    y.w.c.Valid() && (!y.c.sk.open ==> y.c.pc.Idle?) && (y.w.fin ==> !y.c.sk.open)
  }

  lemma RestKept(y: System, m: Move)
    requires Rest(y) && Enabled(y, m)
    ensures Rest(Next(y, m))
  {
    if m.ClientDoes? && y.c.sk.open {
      Client.StepOpenIff(y.c, m.r);
    }
  }

  /** The server closes on its own only when a call fails: it meets the end of the stream only after the
      client has closed. */
  lemma NextBothOpenIff(y: System, m: Move)
    requires Rest(y) && Enabled(y, m)
    ensures BothOpen(Next(y, m)) <==> BothOpen(y) && !Fails(y, m)
  {
    if m.ClientDoes? && y.c.sk.open {
      Client.StepOpenIff(y.c, m.r);
    } else if m.Kernel? {
      Edges.NextOpenIff(y.w, m.e);
    }
  }

  /** In every run, whether or not its echoes are exact, both sides are open at the end if and only if
      nothing failed. */
  lemma {:induction false} RunBothOpenIff(y: System, moves: seq<Move>)
    requires Rest(y) && Possible(y, moves)
    ensures BothOpen(Run(y, moves)) <==> BothOpen(y) && NeverFails(y, moves)
    decreases |moves|
  {
    if moves != [] {
      NextBothOpenIff(y, moves[0]);
      RestKept(y, moves[0]);
      RunBothOpenIff(Next(y, moves[0]), moves[1..]);
    }
  }

  // ---------------------------------------------------------------- no state of rest

  /** The client waits for room to send; or it waits for bytes, and some are in its own queue: all
      that are missing, or as many as there is room for. */
  ghost predicate ClientCanGoOn(c: Client.Conn, room: nat) {
    if c.phase.Sending? then c.interest.Out?
    else
      && c.interest.In? && |c.sk.rq| <= Client.PAYLOAD_LEN - c.recvOffset
      && (|c.sk.rq| == Client.PAYLOAD_LEN - c.recvOffset || |c.sk.rq| == room)
      && (room > 0 ==> c.sk.rq != [])
  }

  predicate Waiting(y: System) {
    y.c.pc.Idle? && y.w.c.pc.Idle? && !y.w.edgeIn && !y.w.edgeOut
  }

  /** The loop never comes to rest where the echo is exact: where nothing failed, neither side runs and
      no edge is raised, the client can go on. */
  lemma NeverAtRest(room: nat, moves: seq<Move>)
    requires Possible(Start(room), moves) && AllHarmless(Start(room), moves) && NeverFails(Start(room), moves)
    ensures var y := Run(Start(room), moves); Waiting(y) ==> ClientCanGoOn(y.c, room)
  {
    Loop.JoinedInv(true);
    RunInv(Start(room), moves, room);
    RunBothOpenIff(Start(room), moves);
    var y := Run(Start(room), moves);
    if Waiting(y) && y.c.phase.Receiving? {
      Loop.LooseRight(Joined(y));
      assert |y.c.sk.out| == |y.c.sk.taken| + |y.c.sk.rq| + |y.w.c.Pending()| + |y.w.c.sk.rq|;
      assert |y.c.recvBuf[..y.c.recvOffset]| == y.c.recvOffset;
    }
  }

  // ---------------------------------------------------------------- requests written whole

  /** The client's writes move a whole request or nothing. */
  predicate WholeRequest(c: Client.Conn, m: Move) {
    m.ClientDoes? ==>
      var sent := Emitted(c.sk, Client.Step(c, m.r).sk); sent == [] || |sent| == Client.PAYLOAD_LEN
  }

  ghost predicate AllWhole(y: System, moves: seq<Move>)
    requires y.w.c.Valid() && Possible(y, moves)
    decreases |moves|
  {
    moves != [] ==> WholeRequest(y.c, moves[0]) && AllWhole(Next(y, moves[0]), moves[1..])
  }

  /** No more than one request is ever queued for the server. */
  lemma QueueIsShort(y: System)
    requires Loop.Inv(Joined(y))
    ensures |y.w.c.sk.rq| <= Client.PAYLOAD_LEN
  {
    var s, c := y.w.c.sk, y.c;
    assert |s.out| <= |s.taken|;
    assert |c.sk.taken| + |c.sk.rq| == |s.out| && |s.taken| + |s.rq| == |c.sk.out|;
    assert |c.recvBuf[..c.recvOffset]| == c.recvOffset && |Client.Payload()[..c.sendOffset]| == c.sendOffset;
  }

  lemma WholeKept(y: System, m: Move)
    requires Loop.Inv(Joined(y)) && Enabled(y, m) && WholeRequest(y.c, m)
    ensures Loop.Inv(Joined(Next(y, m)))
  {
    NextIsApply(y, m);
    QueueIsShort(y);
    if !EdgesOnly(m) {
      Loop.ApplyInv(Server.Edge, Joined(y), ActOf(m));
    }
  }

  lemma {:induction false} WholeIsHarmless(y: System, moves: seq<Move>)
    requires Loop.Inv(Joined(y)) && Possible(y, moves) && AllWhole(y, moves)
    ensures AllHarmless(y, moves)
    decreases |moves|
  {
    if moves != [] {
      if y.w.c.pc.Echoing? {
        assert [] + y.w.c.pc.data == y.w.c.pc.data + [];
      }
      WholeKept(y, moves[0]);
      WholeIsHarmless(Next(y, moves[0]), moves[1..]);
    }
  }

  /** With requests written whole that needs no assumption on the server's writes: its reads take all
      that is queued, so none meets a remainder. */
  lemma NeverAtRestWhole(room: nat, moves: seq<Move>)
    requires Possible(Start(room), moves) && AllWhole(Start(room), moves) && NeverFails(Start(room), moves)
    ensures var y := Run(Start(room), moves); Waiting(y) ==> ClientCanGoOn(y.c, room)
  {
    Loop.JoinedInv(true);
    WholeIsHarmless(Start(room), moves);
    NeverAtRest(room, moves);
  }
}
