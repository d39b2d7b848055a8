/** A load generator connection joined to the buffering echo handlers of epoll_lt_server.c and
    epoll_et_server.c. LeanLoop carries the results over to epoll_lt_lean_server.c.

    These handlers echo exactly only if no read overtakes a pending remainder. Where requests
    are delivered whole, the closed loop sees to that: the client sends nothing until all of the
    last echo is back. Where a request can arrive in two parts, it does not. */
module ClosedLoop {
  import opened Kernel
  import Server = BufferedEcho
  import Client = LoadgenClient
  import opened EndToEnd

  datatype Pair = Pair(c: Client.Conn, s: Server.Conn)

  datatype Act =
    | ClientWakes(err: bool, out: bool, in_: bool)
    | ClientDoes(cr: Ret)
    | ServerWakes(out: bool, in_: bool)
    | ServerDoes(sr: Ret)

  function Joined(active: bool): Pair {
    Pair(Client.Connected(active), Server.Accepted())
  }

  /** What an act is to the server. */
  function ToServer(y: Pair, a: Act): seq<Server.Move> {
    match a
    case ClientWakes(_, _, _) => []
    case ClientDoes(r) => [Server.Arrive(Emitted(y.c.sk, Client.Step(y.c, r).sk))]
    case ServerWakes(out, in_) => [Server.Event(out, in_)]
    case ServerDoes(r) => [Server.Call(r)]
  }

  function Apply(m: Server.Mode, y: Pair, a: Act): (y': Pair)
    requires y.s.Valid()
    ensures y'.s.Valid()
  {
    match a
    case ClientWakes(err, out, in_) => y.(c := y.c.Begin(err, out, in_))
    case ClientDoes(r) =>
      var c := Client.Step(y.c, r);
      Pair(c, Server.Next(m, y.s, Server.Arrive(Emitted(y.c.sk, c.sk))))
    case ServerWakes(out, in_) => y.(s := Server.Next(m, y.s, Server.Event(out, in_)))
    case ServerDoes(r) =>
      var s := Server.Step(m, y.s, r);
      Pair(y.c.(sk := y.c.sk.Deliver(Emitted(y.s.sk, s.sk))), s)
  }

  function Play(m: Server.Mode, y: Pair, acts: seq<Act>): (y': Pair)
    requires y.s.Valid()
    ensures y'.s.Valid()
    decreases |acts|
  {
    if acts == [] then y else Play(m, Apply(m, y, acts[0]), acts[1..])
  }

  /** The client's writes move a whole request or nothing, and a read of the server takes all
      that is queued or nothing. The server's writes and the client's reads are unrestricted. */
  predicate Whole(m: Server.Mode, y: Pair, a: Act)
    requires y.s.Valid()
  {
    match a
    case ClientDoes(r) =>
      var sent := Emitted(y.c.sk, Client.Step(y.c, r).sk);
      sent == [] || |sent| == Client.PAYLOAD_LEN
    case ServerDoes(r) =>
      var s := Server.Step(m, y.s, r);
      s.sk.taken == y.s.sk.taken || s.sk.rq == []
    case _ => true
  }

  ghost predicate AllWhole(m: Server.Mode, y: Pair, acts: seq<Act>)
    requires y.s.Valid()
    decreases |acts|
  {
    acts != [] ==> Whole(m, y, acts[0]) && AllWhole(m, Apply(m, y, acts[0]), acts[1..])
  }

  /** While the server holds bytes, no more are queued for it. */
  ghost predicate OneAtATime(s: Server.Conn)
    requires s.Valid()
  {
    s.Pending() + s.InHand() != [] ==> s.sk.rq == []
  }

  ghost predicate FifoPair(c: Sock, s: Sock) {
    s.taken + s.rq == c.out && c.taken + c.rq == s.out
  }

  ghost predicate Inv(y: Pair) {
    && y.s.Valid() && Server.EchoInv(y.s) && OneAtATime(y.s)
    && FifoPair(y.c.sk, y.s.sk) && Protocol(y.c) && y.c.sendOffset == 0
  }

  lemma JoinedInv(active: bool)
    ensures Inv(Joined(active))
  {
    assert Client.Payload()[..0] == [];
  }

  lemma InvAnswered(y: Pair)
    requires Inv(y)
    ensures Answered(y.c)
  {
    assert y.s.sk.out <= y.s.sk.taken <= y.c.sk.out;
  }

  /** Between requests nothing is under way in either direction, and the server holds nothing. */
  lemma QuietWhenSending(y: Pair)
    requires Inv(y) && y.c.phase.Sending?
    ensures y.c.sk.rq == [] && y.s.sk.rq == [] && (y.s.sk.open ==> y.s.Pending() + y.s.InHand() == [])
  {
    InvAnswered(y);
    assert Client.Payload()[..0] == [] && y.c.recvBuf[..0] == [];
    assert y.c.sk.taken == y.c.sk.out;
    assert |y.s.sk.out| <= |y.s.sk.taken|;
    if y.s.sk.open {
      assert |y.s.sk.taken| == |y.s.sk.out| + |y.s.Pending()| + |y.s.InHand()|;
    }
  }

  /** Under whole writes the client is never in the middle of a request. */
  lemma WholeSendOffset(c: Client.Conn, r: Ret)
    requires Protocol(c) && c.sendOffset == 0
    requires var sent := Emitted(c.sk, Client.Step(c, r).sk); sent == [] || |sent| == Client.PAYLOAD_LEN
    ensures Client.Step(c, r).sendOffset == 0
    ensures Emitted(c.sk, Client.Step(c, r).sk) != [] ==> c.phase.Sending?
  {
  }

  lemma Arrives(s: Server.Conn, data: Bytes)
    requires s.Valid() && Server.EchoInv(s) && OneAtATime(s)
    requires data != [] && s.sk.open ==> s.Pending() + s.InHand() == []
    ensures var s' := s.(sk := s.sk.Deliver(data)); s'.Valid() && Server.EchoInv(s') && OneAtATime(s')
  {
    assert !s.sk.open ==> s.Pending() == [] && s.InHand() == [];
  }

  /** What the client sends finds the server with nothing in hand. */
  lemma SentFindsQuiet(y: Pair, r: Ret)
    requires Inv(y)
    requires var sent := Emitted(y.c.sk, Client.Step(y.c, r).sk); sent == [] || |sent| == Client.PAYLOAD_LEN
    ensures var s' := y.s.(sk := y.s.sk.Deliver(Emitted(y.c.sk, Client.Step(y.c, r).sk)));
      s'.Valid() && Server.EchoInv(s') && OneAtATime(s')
  {
    var sent := Emitted(y.c.sk, Client.Step(y.c, r).sk);
    WholeSendOffset(y.c, r);
    if sent != [] {
      QuietWhenSending(y);
    }
    Arrives(y.s, sent);
  }

  /** One side takes some of its input and writes; the other side's queue grows by what it wrote. */
  lemma FifoKept(c: Sock, c': Sock, s: Sock)
    requires FifoPair(c, s) && c.out <= c'.out && c'.taken + c'.rq == c.taken + c.rq
    ensures FifoPair(c', s.Deliver(Emitted(c, c'))) && FifoPair(s.Deliver(Emitted(c, c')), c')
  {
    var sent := Emitted(c, c');
    assert s.taken + (s.rq + sent) == (s.taken + s.rq) + sent;
    assert c'.out == c.out + sent;
  }

  lemma ClientDoesFifo(c: Client.Conn, r: Ret, s: Sock)
    requires FifoPair(c.sk, s)
    ensures var c' := Client.Step(c, r); FifoPair(c'.sk, s.Deliver(Emitted(c.sk, c'.sk)))
  {
    ClientStreams(c, r);
    FifoKept(c.sk, Client.Step(c, r).sk, s);
  }

  lemma ClientDoesClient(y: Pair, r: Ret)
    requires Inv(y)
    requires var sent := Emitted(y.c.sk, Client.Step(y.c, r).sk); sent == [] || |sent| == Client.PAYLOAD_LEN
    ensures Protocol(Client.Step(y.c, r)) && Client.Step(y.c, r).sendOffset == 0
  {
    InvAnswered(y);
    ClientProtocol(y.c, r);
    WholeSendOffset(y.c, r);
  }

  lemma ClientDoesInv(m: Server.Mode, y: Pair, r: Ret)
    requires Inv(y) && Whole(m, y, ClientDoes(r))
    ensures Inv(Apply(m, y, ClientDoes(r)))
  {
    ClientDoesFifo(y.c, r, y.s.sk);
    ClientDoesClient(y, r);
    SentFindsQuiet(y, r);
  }

  /** A read that moves bytes finds no remainder: while there is one, nothing is queued. */
  lemma ReadFindsEmpty(m: Server.Mode, s: Server.Conn, r: Ret)
    requires s.Valid() && OneAtATime(s) && s.pc.Reading? && Server.Step(m, s, r).pc.Echoing?
    ensures s.Pending() == []
  {
    assert s.sk.rq != [];
  }

  lemma ServerStreams(m: Server.Mode, s: Server.Conn, r: Ret)
    requires s.Valid()
    ensures var s' := Server.Step(m, s, r); s'.sk.taken + s'.sk.rq == s.sk.taken + s.sk.rq && s.sk.out <= s'.sk.out
  {
    if s.pc.Reading? && r.N? {
      ReadKeepsStream(s.sk, s.sk.ReadCount(BUF_SIZE, r.n));
    }
  }

  lemma ServerStepOneAtATime(m: Server.Mode, s: Server.Conn, r: Ret)
    requires s.Valid() && OneAtATime(s)
    requires var s' := Server.Step(m, s, r); s'.sk.taken == s.sk.taken || s'.sk.rq == []
    ensures OneAtATime(Server.Step(m, s, r))
  {
    match s.pc
    case Idle =>
    case Flushing(_) => assert s.Pending() != [];
    case Reading =>
    case Echoing(_) => assert s.InHand() != [];
  }

  lemma ServerStepInv(m: Server.Mode, s: Server.Conn, r: Ret)
    requires s.Valid() && Server.EchoInv(s) && OneAtATime(s)
    requires var s' := Server.Step(m, s, r); s'.sk.taken == s.sk.taken || s'.sk.rq == []
    ensures var s' := Server.Step(m, s, r); Server.EchoInv(s') && OneAtATime(s')
  {
    if s.pc.Reading? && Server.Step(m, s, r).pc.Echoing? {
      ReadFindsEmpty(m, s, r);
    }
    Server.NextEchoInv(m, s, Server.Call(r));
    ServerStepOneAtATime(m, s, r);
  }

  /** Bytes on their way back change nothing of what the client has seen. */
  lemma ReturnedProtocol(c: Client.Conn, data: Bytes)
    requires Protocol(c)
    ensures Protocol(c.(sk := c.sk.Deliver(data)))
  {
  }

  lemma ServerDoesFifo(m: Server.Mode, s: Server.Conn, r: Ret, c: Sock)
    requires s.Valid() && FifoPair(c, s.sk)
    ensures var s' := Server.Step(m, s, r); FifoPair(c.Deliver(Emitted(s.sk, s'.sk)), s'.sk)
  {
    ServerStreams(m, s, r);
    FifoKept(s.sk, Server.Step(m, s, r).sk, c);
  }

  lemma ServerDoesInv(m: Server.Mode, y: Pair, r: Ret)
    requires Inv(y) && Whole(m, y, ServerDoes(r))
    ensures Inv(Apply(m, y, ServerDoes(r)))
  {
    ServerStepInv(m, y.s, r);
    ServerDoesFifo(m, y.s, r, y.c.sk);
    ReturnedProtocol(y.c, Emitted(y.s.sk, Server.Step(m, y.s, r).sk));
  }

  lemma ClientWakesInv(m: Server.Mode, y: Pair, a: Act)
    requires Inv(y) && a.ClientWakes?
    ensures Inv(Apply(m, y, a))
  {
  }

  lemma ServerWakesInv(m: Server.Mode, y: Pair, a: Act)
    requires Inv(y) && a.ServerWakes?
    ensures Inv(Apply(m, y, a))
  {
    Server.NextEchoInv(m, y.s, Server.Event(a.out, a.in_));
  }

  lemma ApplyInv(m: Server.Mode, y: Pair, a: Act)
    requires Inv(y) && Whole(m, y, a)
    ensures Inv(Apply(m, y, a))
  {
    match a
    case ClientWakes(_, _, _) => ClientWakesInv(m, y, a);
    case ClientDoes(r) => ClientDoesInv(m, y, r);
    case ServerWakes(_, _) => ServerWakesInv(m, y, a);
    case ServerDoes(r) => ServerDoesInv(m, y, r);
  }

  lemma {:induction false} PlayInv(m: Server.Mode, y: Pair, acts: seq<Act>)
    requires Inv(y) && AllWhole(m, y, acts)
    ensures Inv(Play(m, y, acts))
    decreases |acts|
  {
    if acts != [] {
      ApplyInv(m, y, acts[0]);
      PlayInv(m, Apply(m, y, acts[0]), acts[1..]);
    }
  }

  // ---------------------------------------------------------------- what follows

  /** What the run is to the server alone. */
  function ServerMoves(m: Server.Mode, y: Pair, acts: seq<Act>): seq<Server.Move>
    requires y.s.Valid()
    decreases |acts|
  {
    if acts == [] then [] else ToServer(y, acts[0]) + ServerMoves(m, Apply(m, y, acts[0]), acts[1..])
  }

  lemma OneServerMove(m: Server.Mode, y: Pair, a: Act)
    requires Inv(y)
    ensures var moves := ToServer(y, a);
      && |moves| <= 1
      && Server.Run(m, y.s, moves) == Apply(m, y, a).s
      && Server.ReadsFindEmpty(m, y.s, moves)
  {
    if a.ServerDoes? && y.s.pc.Reading? && Apply(m, y, a).s.pc.Echoing? {
      ReadFindsEmpty(m, y.s, a.sr);
    }
  }

  /** Runs of the server one after the other. */
  lemma {:induction false} ThenRun(m: Server.Mode, s: Server.Conn, a: seq<Server.Move>, b: seq<Server.Move>)
    requires s.Valid() && |a| <= 1
    requires Server.ReadsFindEmpty(m, s, a) && Server.ReadsFindEmpty(m, Server.Run(m, s, a), b)
    ensures Server.ReadsFindEmpty(m, s, a + b)
    ensures Server.Run(m, s, a + b) == Server.Run(m, Server.Run(m, s, a), b)
  {
    if a == [] {
      assert a + b == b;
    } else {
      assert (a + b)[0] == a[0] && (a + b)[1..] == b && a[1..] == [];
      assert Server.Run(m, s, a) == Server.Next(m, s, a[0]);
    }
  }

  /** The hypothesis under which BufferedEcho proves exact echo holds in every such run: no read
      overtakes a remainder. */
  lemma {:induction false} HypothesisHolds(m: Server.Mode, y: Pair, acts: seq<Act>)
    requires Inv(y) && AllWhole(m, y, acts)
    ensures Server.ReadsFindEmpty(m, y.s, ServerMoves(m, y, acts))
    ensures Server.Run(m, y.s, ServerMoves(m, y, acts)) == Play(m, y, acts).s
    decreases |acts|
  {
    if acts != [] {
      var y' := Apply(m, y, acts[0]);
      OneServerMove(m, y, acts[0]);
      ApplyInv(m, y, acts[0]);
      HypothesisHolds(m, y', acts[1..]);
      ThenRun(m, y.s, ToServer(y, acts[0]), ServerMoves(m, y', acts[1..]));
    }
  }

  // ---------------------------------------------------------------- any chunking

  /** What holds whatever the sizes of reads and writes on either side, as long as the server's
      echo is exact. */
  ghost predicate LooseInv(y: Pair) {
    y.s.Valid() && Server.Echoes(y.s) && FifoPair(y.c.sk, y.s.sk) && Protocol(y.c)
  }

  lemma LooseAnswered(y: Pair)
    requires LooseInv(y)
    ensures Answered(y.c)
  {
    assert y.s.sk.out <= y.s.sk.taken <= y.c.sk.out;
  }

  lemma LooseServerKept(m: Server.Mode, y: Pair, a: Act)
    requires LooseInv(y) && Server.AllHarmless(m, y.s, ToServer(y, a))
    ensures Server.Echoes(Apply(m, y, a).s)
  {
    match a
    case ClientWakes(_, _, _) =>
    case ClientDoes(r) => Server.NextEchoesIff(m, y.s, ToServer(y, a)[0]);
    case ServerWakes(out, in_) => Server.NextEchoesIff(m, y.s, ToServer(y, a)[0]);
    case ServerDoes(r) => Server.NextEchoesIff(m, y.s, ToServer(y, a)[0]);
  }

  lemma LooseClientKept(m: Server.Mode, y: Pair, a: Act)
    requires LooseInv(y)
    ensures Protocol(Apply(m, y, a).c)
  {
    match a
    case ClientWakes(_, _, _) =>
    case ClientDoes(r) =>
      LooseAnswered(y);
      ClientProtocol(y.c, r);
    case ServerWakes(_, _) =>
    case ServerDoes(r) => ReturnedProtocol(y.c, Emitted(y.s.sk, Server.Step(m, y.s, r).sk));
  }

  lemma LooseFifoKept(m: Server.Mode, y: Pair, a: Act)
    requires LooseInv(y)
    ensures FifoPair(Apply(m, y, a).c.sk, Apply(m, y, a).s.sk)
  {
    match a
    case ClientWakes(_, _, _) =>
    case ClientDoes(r) => ClientDoesFifo(y.c, r, y.s.sk);
    case ServerWakes(_, _) =>
    case ServerDoes(r) => ServerDoesFifo(m, y.s, r, y.c.sk);
  }

  lemma ApplyLoose(m: Server.Mode, y: Pair, a: Act)
    requires LooseInv(y) && Server.AllHarmless(m, y.s, ToServer(y, a))
    ensures LooseInv(Apply(m, y, a))
  {
    LooseServerKept(m, y, a);
    LooseClientKept(m, y, a);
    LooseFifoKept(m, y, a);
  }

  lemma ToServerRuns(m: Server.Mode, y: Pair, a: Act)
    requires y.s.Valid()
    ensures |ToServer(y, a)| <= 1 && Server.Run(m, y.s, ToServer(y, a)) == Apply(m, y, a).s
  {
  }

  lemma HarmlessThen(m: Server.Mode, s: Server.Conn, a: seq<Server.Move>, b: seq<Server.Move>)
    requires s.Valid() && |a| <= 1
    ensures Server.AllHarmless(m, s, a + b) <==>
            Server.AllHarmless(m, s, a) && Server.AllHarmless(m, Server.Run(m, s, a), b)
  {
    if a == [] {
      assert a + b == b;
    } else {
      assert (a + b)[0] == a[0] && (a + b)[1..] == b && a[1..] == [];
      assert Server.Run(m, s, a) == Server.Next(m, s, a[0]);
    }
  }

  lemma {:induction false} PlayLoose(m: Server.Mode, y: Pair, acts: seq<Act>)
    requires LooseInv(y) && Server.AllHarmless(m, y.s, ServerMoves(m, y, acts))
    ensures LooseInv(Play(m, y, acts))
    decreases |acts|
  {
    if acts != [] {
      var y' := Apply(m, y, acts[0]);
      ToServerRuns(m, y, acts[0]);
      HarmlessThen(m, y.s, ToServer(y, acts[0]), ServerMoves(m, y', acts[1..]));
      ApplyLoose(m, y, acts[0]);
      PlayLoose(m, y', acts[1..]);
    }
  }

  /** Requests may arrive in any pieces and be read, echoed and received in any pieces: as long as
      no write of the server disturbs its echo, an open connection has no error, what the client
      received is its completed requests followed by a prefix of the payload, and nothing sent is
      lost. */
  lemma NoMismatchHarmless(m: Server.Mode, active: bool, acts: seq<Act>)
    requires Server.AllHarmless(m, Server.Accepted(), ServerMoves(m, Joined(active), acts))
    ensures NothingWrong(Play(m, Joined(active), acts))
  {
    JoinedInv(active);
    PlayLoose(m, Joined(active), acts);
    LooseRight(Play(m, Joined(active), acts));
  }

  /** Moreover that is the exact condition: of all runs, nothing is wrong at any point in those, and
      only those, in which no write of the server disturbs its echo. */
  lemma {:induction false} RightThroughoutIff(m: Server.Mode, y: Pair, acts: seq<Act>)
    requires LooseInv(y)
    ensures RightThroughout(m, y, acts) <==> Server.AllHarmless(m, y.s, ServerMoves(m, y, acts))
    decreases |acts|
  {
    LooseRight(y);
    if acts != [] {
      var a, y' := acts[0], Apply(m, y, acts[0]);
      ToServerRuns(m, y, a);
      HarmlessThen(m, y.s, ToServer(y, a), ServerMoves(m, y', acts[1..]));
      if Server.AllHarmless(m, y.s, ToServer(y, a)) {
        ApplyLoose(m, y, a);
        RightThroughoutIff(m, y', acts[1..]);
      } else {
        HarmfulIsWrong(m, y, a);
      }
    }
  }

  ghost predicate RightThroughout(m: Server.Mode, y: Pair, acts: seq<Act>)
    requires y.s.Valid()
    decreases |acts|
  {
    NothingWrong(y) && (acts != [] ==> RightThroughout(m, Apply(m, y, acts[0]), acts[1..]))
  }

  ghost predicate NothingWrong(y: Pair)
    requires y.s.Valid()
  {
    && y.c.errors == (if y.c.sk.open then 0 else 1)
    && y.c.sk.taken == Requests(y.c.completed) + Client.Payload()[..y.c.recvOffset]
    && Conserved(y)
  }

  /** What was sent is received, on the way back, held by the server or on the way there. */
  ghost predicate Conserved(y: Pair)
    requires y.s.Valid()
  {
    y.s.sk.open ==> y.c.sk.out == y.c.sk.taken + y.c.sk.rq + y.s.Pending() + y.s.InHand() + y.s.sk.rq
  }

  lemma LooseRight(y: Pair)
    requires LooseInv(y)
    ensures NothingWrong(y)
  {
    LooseAnswered(y);
    if y.c.phase.Receiving? {
      ReceivedIsPayload(y.c);
    } else {
      assert y.c.recvBuf[..0] == Client.Payload()[..0];
    }
  }

  lemma HarmfulIsWrong(m: Server.Mode, y: Pair, a: Act)
    requires LooseInv(y) && !Server.AllHarmless(m, y.s, ToServer(y, a))
    ensures !NothingWrong(Apply(m, y, a))
  {
    HarmfulMove(m, y, a);
    Server.NextEchoesIff(m, y.s, Server.Call(a.sr));
    LooseFifoKept(m, y, a);
    InexactNotConserved(Apply(m, y, a));
  }

  /** Only a write of the server can be harmful, and it leaves the connection open. */
  lemma HarmfulMove(m: Server.Mode, y: Pair, a: Act)
    requires y.s.Valid() && !Server.AllHarmless(m, y.s, ToServer(y, a))
    ensures a.ServerDoes? && !Server.Harmless(y.s, Server.Call(a.sr))
    ensures Apply(m, y, a).s == Server.Next(m, y.s, Server.Call(a.sr)) && Apply(m, y, a).s.sk.open
  {
  }

  lemma InexactNotConserved(y: Pair)
    requires y.s.Valid() && y.s.sk.open && FifoPair(y.c.sk, y.s.sk) && !Server.Echoes(y.s)
    ensures !Conserved(y)
  {
    var held := y.s.Pending() + y.s.InHand();
    if Conserved(y) {
      assert y.s.sk.taken + y.s.sk.rq == (y.s.sk.out + held) + y.s.sk.rq;
      SamePrefix(y.s.sk.taken, y.s.sk.out + held, y.s.sk.rq);
    }
  }

  lemma SamePrefix(a: Bytes, b: Bytes, c: Bytes)
    requires a + c == b + c
    ensures a == b
  {
    assert |a + c| == |b + c|;
    assert a == (a + c)[..|a|] && b == (b + c)[..|b|];
  }

  /** In particular where every read that moves bytes finds no remainder, whatever the chunks. */
  lemma NoMismatchEmpty(m: Server.Mode, active: bool, acts: seq<Act>)
    requires Server.ReadsFindEmpty(m, Server.Accepted(), ServerMoves(m, Joined(active), acts))
    ensures NothingWrong(Play(m, Joined(active), acts))
  {
    Server.EmptyIsHarmless(m, Server.Accepted(), ServerMoves(m, Joined(active), acts));
    NoMismatchHarmless(m, active, acts);
  }

  /** With whole requests the hypothesis always holds, so the buffering servers never corrupt an
      echo either. */
  lemma NoMismatchWhole(m: Server.Mode, active: bool, acts: seq<Act>)
    requires AllWhole(m, Joined(active), acts)
    ensures NothingWrong(Play(m, Joined(active), acts))
  {
    JoinedInv(active);
    HypothesisHolds(m, Joined(active), acts);
    NoMismatchEmpty(m, active, acts);
  }

  lemma {:induction false} PlayWatches(m: Server.Mode, y: Pair, acts: seq<Act>)
    requires y.s.Valid() && Client.InterestAgrees(y.c) && Server.MaskAgrees(y.s)
    ensures Client.InterestAgrees(Play(m, y, acts).c) && Server.MaskAgrees(Play(m, y, acts).s)
    ensures Play(m, y, acts).c.active == y.c.active
    decreases |acts|
  {
    if acts != [] {
      var a := acts[0];
      match a {
        case ClientWakes(_, _, _) =>
        case ClientDoes(r) => Client.StepInterest(y.c, r);
        case ServerWakes(out, in_) => Server.NextMaskAgrees(m, y.s, Server.Event(out, in_));
        case ServerDoes(r) => Server.NextMaskAgrees(m, y.s, Server.Call(r));
      }
      PlayWatches(m, Apply(m, y, a), acts[1..]);
    }
  }

  // ---------------------------------------------------------------- both sides stay open

  predicate BothOpen(y: Pair) {
    y.c.sk.open && y.s.sk.open
  }

  /** The client is told of an error between two handlers, or one side makes a call that it does not
      survive. */
  predicate Fails(y: Pair, a: Act) {
    match a
    case ClientWakes(err, _, _) => err && y.c.pc.Idle?
    case ClientDoes(r) => Client.Fatal(y.c.pc, y.c.sk.rq, r)
    case ServerWakes(_, _) => false
    case ServerDoes(r) => Server.Fatal(y.s.pc, y.s.sk.rq, r)
  }

  ghost predicate NeverFails(m: Server.Mode, y: Pair, acts: seq<Act>)
    requires y.s.Valid()
    decreases |acts|
  {
    acts != [] ==> !Fails(y, acts[0]) && NeverFails(m, Apply(m, y, acts[0]), acts[1..])
  }

  lemma ApplyOpenIff(m: Server.Mode, y: Pair, a: Act)
    requires y.s.Valid() && (!y.c.sk.open ==> y.c.pc.Idle?)
    ensures var y' := Apply(m, y, a);
      && (BothOpen(y') <==> BothOpen(y) && !Fails(y, a))
      && (!y'.c.sk.open ==> y'.c.pc.Idle?)
  {
    match a
    case ClientWakes(_, _, _) =>
    case ClientDoes(r) =>
      if y.c.sk.open {
        Client.StepOpenIff(y.c, r);
      }
    case ServerWakes(_, _) =>
    case ServerDoes(r) => Server.StepOpenIff(m, y.s, r);
  }

  /** In every run, whether or not its echoes are exact, both sides are open at the end if and only if
      nothing failed. */
  lemma {:induction false} PlayOpenIff(m: Server.Mode, y: Pair, acts: seq<Act>)
    requires y.s.Valid() && (!y.c.sk.open ==> y.c.pc.Idle?)
    ensures BothOpen(Play(m, y, acts)) <==> BothOpen(y) && NeverFails(m, y, acts)
    decreases |acts|
  {
    if acts != [] {
      ApplyOpenIff(m, y, acts[0]);
      PlayOpenIff(m, Apply(m, y, acts[0]), acts[1..]);
    }
  }

  // ---------------------------------------------------------------- no state of rest

  /** Where neither side runs, the client waits for room to send, or for bytes, which are queued for
      one of the two or pending in the server with EPOLLOUT registered. */
  ghost predicate CanGoOn(y: Pair)
    requires y.s.Valid()
  {
    y.c.pc.Idle? && y.s.pc.Idle? ==>
      if y.c.phase.Sending? then y.c.interest.Out?
      else
        && y.c.interest.In? && (y.s.interest.InOut? <==> y.s.Pending() != [])
        && |y.c.sk.rq| + |y.s.Pending()| + |y.s.sk.rq| == Client.PAYLOAD_LEN - y.c.recvOffset > 0
  }

  /** With a buffering server too, in any chunks, as long as the echo is exact and nothing failed. A level-triggered
      server is told of what is queued; EdgeLoop shows that the edge-triggered one is. */
  lemma NeverStuckHarmless(m: Server.Mode, acts: seq<Act>)
    requires Server.AllHarmless(m, Server.Accepted(), ServerMoves(m, Joined(true), acts))
    requires NeverFails(m, Joined(true), acts)
    ensures CanGoOn(Play(m, Joined(true), acts))
  {
    var y := Play(m, Joined(true), acts);
    PlayOpenIff(m, Joined(true), acts);
    PlayWatches(m, Joined(true), acts);
    NoMismatchHarmless(m, true, acts);
    JoinedInv(true);
    PlayLoose(m, Joined(true), acts);
    if y.c.phase.Receiving? && y.s.sk.open {
      assert |y.c.sk.out| == |Requests(y.c.completed)| + Client.PAYLOAD_LEN;
      assert |y.c.sk.taken| == |Requests(y.c.completed)| + y.c.recvOffset;
    }
  }

  /** In particular where requests are delivered whole. */
  lemma NeverStuckWhole(m: Server.Mode, acts: seq<Act>)
    requires AllWhole(m, Joined(true), acts) && NeverFails(m, Joined(true), acts)
    ensures CanGoOn(Play(m, Joined(true), acts))
  {
    JoinedInv(true);
    HypothesisHolds(m, Joined(true), acts);
    Server.EmptyIsHarmless(m, Server.Accepted(), ServerMoves(m, Joined(true), acts));
    NeverStuckHarmless(m, acts);
  }

  // ---------------------------------------------------------------- requests in two parts

  function P(): Bytes {
    Client.Payload()
  }

  /** The client has sent its request whole. */
  function Requested(): Pair {
    Pair(Client.Connected(true).(sk := Sock(true, [], [], P()), phase := Client.Receiving, interest := Client.In),
         Server.Accepted().(sk := Sock(true, P(), [], [])))
  }

  /** The server has read ten bytes of it and could write none of them. */
  function TenHeld(): Pair {
    var y := Requested();
    y.(s := y.s.(sk := Sock(true, P()[10..], P()[..10], []), wbuf := Server.Buffered(y.s.wbuf, P()[..10]),
                 wlen := 10, interest := Server.InOut, events := 1))
  }

  /** It has read the other nineteen and written them at once. */
  function Overtaken(): Pair {
    var y := TenHeld();
    Pair(y.c.(sk := y.c.sk.Deliver(P()[10..])),
         y.s.(sk := Sock(true, [], P(), P()[10..]), events := 2, requests := 1))
  }

  /** It has written the ten bytes. */
  function Swapped(): Pair {
    var y := Overtaken();
    Pair(y.c.(sk := y.c.sk.Deliver(P()[..10])),
         y.s.(sk := Sock(true, [], P(), P()[10..] + P()[..10]), wlen := 0, interest := Server.In, requests := 2))
  }

  lemma SendWhole(m: Server.Mode)
    ensures Apply(m, Apply(m, Joined(true), ClientWakes(false, true, false)), ClientDoes(N(29))) == Requested()
  {
    assert P()[0..29] == P() && [] + P() == P();
  }

  lemma ReadTen(m: Server.Mode)
    ensures var y := Apply(m, Requested(), ServerWakes(false, true));
      Apply(m, Apply(m, y, ServerDoes(N(10))), ServerDoes(Again)) == TenHeld()
  {
    var y := Apply(m, Requested(), ServerWakes(false, true));
    var z := Apply(m, y, ServerDoes(N(10)));
    assert [] + P()[..10] == P()[..10];
    assert z.s.pc == Server.Echoing(P()[..10]);
    assert P()[..10][..0] == [] && P()[..10][0..] == P()[..10];
    assert z.c.sk.Deliver([]) == z.c.sk;
  }

  lemma ReadRest(m: Server.Mode)
    ensures var y := Apply(m, TenHeld(), ServerWakes(false, true));
      Apply(m, Apply(m, y, ServerDoes(N(19))), ServerDoes(N(19))) == Overtaken()
  {
    var y := Apply(m, TenHeld(), ServerWakes(false, true));
    var z := Apply(m, y, ServerDoes(N(19)));
    assert P()[10..][..19] == P()[10..] && P()[..10] + P()[10..] == P() && P()[10..][19..] == [];
    assert z.s.pc == Server.Echoing(P()[10..]);
    assert [] + P()[10..] == P()[10..];
  }

  lemma WriteTen(m: Server.Mode)
    ensures Apply(m, Apply(m, Overtaken(), ServerWakes(true, false)), ServerDoes(N(10))) == Swapped()
  {
    var y := Apply(m, Overtaken(), ServerWakes(true, false));
    assert y.s.wbuf[0..10] == P()[..10];
  }

  lemma Differ()
    ensures P()[10..] + P()[..10] != P()
  {
    assert (P()[10..] + P()[..10])[1] == P()[11];
    assert P()[11] == Client.PayloadByte(11) == 65 && P()[1] == Client.PayloadByte(1) == 73;
  }

  /** The client compares what came back, and it differs. */
  lemma CompareSwapped(m: Server.Mode)
    ensures var y := Apply(m, Apply(m, Swapped(), ClientWakes(false, false, true)), ClientDoes(N(29)));
      y.c.errors == 1 && y.c.completed == 0 && y.c.sk.open && y.s.sk.open
  {
    Differ();
    assert Swapped().c.sk.rq == P()[10..] + P()[..10];
    WrongEcho(Swapped().c.Begin(false, false, true));
  }

  lemma WrongEcho(c: Client.Conn)
    requires c.pc.RecvLoop? && c.recvOffset == 0 && |c.sk.rq| == Client.PAYLOAD_LEN && c.sk.rq != P()
    ensures var c' := Client.Step(c, N(Client.PAYLOAD_LEN));
      c'.errors == c.errors + 1 && c'.completed == c.completed && c'.sk.open == c.sk.open
  {
    assert c.sk.rq[..Client.PAYLOAD_LEN] == c.sk.rq;
    assert Client.Overwrite(c.recvBuf, 0, c.sk.rq)[..Client.PAYLOAD_LEN] == c.sk.rq;
  }

  lemma {:induction false} PlayConcat(m: Server.Mode, y: Pair, a: seq<Act>, b: seq<Act>)
    requires y.s.Valid()
    ensures Play(m, y, a + b) == Play(m, Play(m, y, a), b)
    decreases |a|
  {
    if a == [] {
      assert a + b == b;
    } else {
      assert (a + b)[0] == a[0] && (a + b)[1..] == a[1..] + b;
      PlayConcat(m, Apply(m, y, a[0]), a[1..], b);
    }
  }

  lemma PlayTwo(m: Server.Mode, y: Pair, a: Act, b: Act)
    requires y.s.Valid()
    ensures Play(m, y, [a, b]) == Apply(m, Apply(m, y, a), b)
  {
    assert [a, b][1..] == [b] && [b][1..] == [];
    assert Play(m, Apply(m, y, a), [b]) == Apply(m, Apply(m, y, a), b);
  }

  lemma PlayThree(m: Server.Mode, y: Pair, a: Act, b: Act, c: Act)
    requires y.s.Valid()
    ensures Play(m, y, [a, b, c]) == Apply(m, Apply(m, Apply(m, y, a), b), c)
  {
    assert [a, b, c][1..] == [b, c];
    PlayTwo(m, Apply(m, y, a), b, c);
  }

  /** A request delivered as ten bytes and then nineteen. */
  function SplitActs(): seq<Act> {
    [ClientWakes(false, true, false), ClientDoes(N(29))]
    + ([ServerWakes(false, true), ServerDoes(N(10)), ServerDoes(Again)]
       + ([ServerWakes(false, true), ServerDoes(N(19)), ServerDoes(N(19))]
          + ([ServerWakes(true, false), ServerDoes(N(10))]
             + [ClientWakes(false, false, true), ClientDoes(N(29))])))
  }

  /** Without whole delivery the claim is false of the code, in both modes: the rest of a request
      overtakes its buffered beginning, and the load generator counts a wrong echo on a
      connection where nothing failed. */
  lemma SplitRequestMismatch(m: Server.Mode)
    ensures var y := Play(m, Joined(true), SplitActs());
      y.c.errors == 1 && y.c.completed == 0 && y.c.sk.open && y.s.sk.open
  {
    var e := [ClientWakes(false, false, true), ClientDoes(N(29))];
    var d := [ServerWakes(true, false), ServerDoes(N(10))];
    var c := [ServerWakes(false, true), ServerDoes(N(19)), ServerDoes(N(19))];
    var b := [ServerWakes(false, true), ServerDoes(N(10)), ServerDoes(Again)];
    var a := [ClientWakes(false, true, false), ClientDoes(N(29))];
    PlayConcat(m, Joined(true), a, b + (c + (d + e)));
    PlayTwo(m, Joined(true), a[0], a[1]);
    SendWhole(m);
    PlayConcat(m, Requested(), b, c + (d + e));
    PlayThree(m, Requested(), b[0], b[1], b[2]);
    ReadTen(m);
    PlayConcat(m, TenHeld(), c, d + e);
    PlayThree(m, TenHeld(), c[0], c[1], c[2]);
    ReadRest(m);
    PlayConcat(m, Overtaken(), d, e);
    PlayTwo(m, Overtaken(), d[0], d[1]);
    WriteTen(m);
    PlayTwo(m, Swapped(), e[0], e[1]);
    CompareSwapped(m);
  }
}
