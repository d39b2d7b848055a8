/** A load generator connection joined to server_uring.c by two FIFO byte streams, amid all the
    other connections of the server. The kernel completes reads with any part of what is queued and
    writes with any part of what they offer. The server takes a write for done whatever its result
    says, so that nothing is lost exactly as long as none stops short. */
module UringEndToEnd {
  import opened Kernel
  import Client = LoadgenClient
  import EndToEnd
  import U = UringServer
  import opened UringEcho

  /** The server's world, the client, the server's structure for it, and what is queued for the
      server to read. linked ends when the server frees the structure or a write fails. */
  datatype System = System(w: U.World, c: Client.Conn, id: nat, rq: Bytes, linked: bool)

  datatype Move = ClientEvent(err: bool, out: bool, in_: bool) | ClientCall(r: Ret) | Server(m: U.Move)

  /** The move completes an operation of this connection. */
  predicate Ours(y: System, m: U.Move) {
    y.linked && (m.ReadDone? || m.WriteDone?) && m.i < |y.w.u.armed| && U.Key(y.w.u.armed[m.i]) == y.id
  }

  predicate Enabled(y: System, m: Move) {
    m.Server? ==>
      && U.Enabled(y.w, m.m)
      && (Ours(y, m.m) && m.m.ReadDone? ==> m.m.data <= y.rq)
      && (Ours(y, m.m) && m.m.WriteDone? ==> m.m.res <= |U.Offered(y.w, y.id)|)
  }

  function Next(y: System, m: Move): System
    requires Enabled(y, m)
  {
    match m
    case ClientEvent(err, out, in_) => y.(c := y.c.Begin(err, out, in_))
    case ClientCall(r) =>
      var c := Client.Step(y.c, r);
      y.(c := c, rq := y.rq + Emitted(y.c.sk, c.sk))
    case Server(sm) =>
      var w := U.Next(y.w, sm);
      if !y.linked || y.id !in w.u.conns then y.(w := w, linked := false)
      else if !Ours(y, sm) then y.(w := w)
      else if sm.ReadDone? then y.(w := w, rq := y.rq[|sm.data|..])
      else if sm.res <= 0 then y.(w := w, linked := false)
      else y.(w := w, c := y.c.(sk := y.c.sk.Deliver(U.Offered(y.w, y.id)[..sm.res])))
  }

  ghost predicate Possible(y: System, moves: seq<Move>)
    decreases |moves|
  {
    moves != [] ==> Enabled(y, moves[0]) && Possible(Next(y, moves[0]), moves[1..])
  }

  ghost function Run(y: System, moves: seq<Move>): System
    requires Possible(y, moves)
    decreases |moves|
  {
    if moves == [] then y else Run(Next(y, moves[0]), moves[1..])
  }

  /** A write of this connection that does not fail takes all it is offered. */
  predicate Whole(y: System, m: Move) {
    m.Server? && Ours(y, m.m) && m.m.WriteDone? && m.m.res > 0 ==> m.m.res == |U.Offered(y.w, y.id)|
  }

  ghost predicate AllWhole(y: System, moves: seq<Move>)
    requires Possible(y, moves)
    decreases |moves|
  {
    moves != [] ==> Whole(y, moves[0]) && AllWhole(Next(y, moves[0]), moves[1..])
  }

  // ---------------------------------------------------------------- the invariant

  /** The bytes of a sequence of chunks. */
  function Flat(chunks: seq<Bytes>): Bytes {
    if chunks == [] then [] else Flat(chunks[..|chunks| - 1]) + chunks[|chunks| - 1]
  }

  lemma FlatAppend(chunks: seq<Bytes>, x: Bytes)
    ensures Flat(chunks + [x]) == Flat(chunks) + x
  {
    assert (chunks + [x])[..|chunks|] == chunks;
  }

  function Got(y: System): Bytes {
    Flat(U.Get(y.w.got, y.id))
  }

  function Put(y: System): Bytes {
    Flat(U.Get(y.w.put, y.id))
  }

  /** What the server has read and not yet written: nothing, or its last chunk. */
  function Owed(y: System): Bytes {
    var got, put := U.Get(y.w.got, y.id), U.Get(y.w.put, y.id);
    if |got| == |put| + 1 then got[|put|] else []
  }

  ghost predicate Linked(y: System) {
    if y.linked then y.id in y.w.u.conns && Joined(Got(y), Put(y), y.rq, y.c.sk) else EndToEnd.Answered(y.c)
  }

  /** The two streams are FIFO. */
  ghost predicate Joined(got: Bytes, put: Bytes, rq: Bytes, c: Sock) {
    got + rq == c.out && c.taken + c.rq == put
  }

  lemma ClientJoined(got: Bytes, put: Bytes, rq: Bytes, c: Sock, c': Sock)
    requires Joined(got, put, rq, c) && c.out <= c'.out && c'.taken + c'.rq == c.taken + c.rq
    ensures Joined(got, put, rq + Emitted(c, c'), c')
  {
    assert c'.out == c.out + Emitted(c, c');
    assert got + (rq + Emitted(c, c')) == (got + rq) + Emitted(c, c');
  }

  lemma ReadJoined(got: Bytes, put: Bytes, rq: Bytes, c: Sock, data: Bytes)
    requires Joined(got, put, rq, c) && data <= rq
    ensures Joined(got + data, put, rq[|data|..], c)
  {
    assert rq == data + rq[|data|..];
    assert (got + data) + rq[|data|..] == got + (data + rq[|data|..]);
  }

  lemma WriteJoined(got: Bytes, put: Bytes, rq: Bytes, c: Sock, chunk: Bytes)
    requires Joined(got, put, rq, c)
    ensures Joined(got, put + chunk, rq, c.Deliver(chunk))
  {
    assert c.taken + (c.rq + chunk) == (c.taken + c.rq) + chunk;
  }

  ghost predicate Inv(y: System) {
    U.Sound(y.w.u, y.w.cq) && Accounted(y.w) && EndToEnd.Protocol(y.c) && Linked(y)
  }

  lemma GotIsPutOwed(y: System)
    requires Level(Of(y.w, y.id))
    ensures Got(y) == Put(y) + Owed(y)
  {
    var got, put := U.Get(y.w.got, y.id), U.Get(y.w.put, y.id);
    if got != put {
      assert got == put + [got[|put|]];
      FlatAppend(put, got[|put|]);
    }
  }

  lemma InvAnswered(y: System)
    requires Inv(y)
    ensures EndToEnd.Answered(y.c)
  {
    if y.linked {
      GotIsPutOwed(y);
      assert y.c.sk.out == Put(y) + (Owed(y) + y.rq);
    }
  }

  // ---------------------------------------------------------------- every move

  lemma ClientCallLinked(y: System, r: Ret)
    requires Linked(y)
    ensures Linked(Next(y, ClientCall(r)))
  {
    EndToEnd.ClientStreams(y.c, r);
    if y.linked {
      ClientJoined(Got(y), Put(y), y.rq, y.c.sk, Client.Step(y.c, r).sk);
    }
  }

  lemma ClientCallInv(y: System, r: Ret)
    requires Inv(y)
    ensures Inv(Next(y, ClientCall(r)))
  {
    InvAnswered(y);
    EndToEnd.ClientProtocol(y.c, r);
    ClientCallLinked(y, r);
  }

  /** Steps for other connections leave what this one has read and written. */
  lemma OtherKept(w: U.World, m: U.Move, id: nat)
    requires U.Enabled(w, m) && id in w.u.conns
    requires m.ReadDone? || m.WriteDone? ==> U.Key(w.u.armed[m.i]) != id
    ensures var v := U.Next(w, m); U.Get(v.got, id) == U.Get(w.got, id) && U.Get(v.put, id) == U.Get(w.put, id)
  {
  }

  lemma ReadLinked(y: System, i: nat, data: Bytes)
    requires y.linked && Linked(y) && Enabled(y, Server(U.ReadDone(i, data))) && Ours(y, U.ReadDone(i, data))
    ensures Linked(Next(y, Server(U.ReadDone(i, data))))
  {
    FlatAppend(U.Get(y.w.got, y.id), data);
    ReadJoined(Got(y), Put(y), y.rq, y.c.sk, data);
  }

  lemma WriteLinked(y: System, i: nat, res: int)
    requires y.linked && Linked(y) && EndToEnd.Answered(y.c)
    requires Enabled(y, Server(U.WriteDone(i, res))) && Ours(y, U.WriteDone(i, res))
    requires Whole(y, Server(U.WriteDone(i, res)))
    ensures Linked(Next(y, Server(U.WriteDone(i, res))))
  {
    var chunk := U.Offered(y.w, y.id);
    assert chunk[..|chunk|] == chunk;
    FlatAppend(U.Get(y.w.put, y.id), chunk);
    WriteJoined(Got(y), Put(y), y.rq, y.c.sk, chunk);
  }

  lemma ServerLinked(y: System, m: U.Move)
    requires Inv(y) && Enabled(y, Server(m)) && Whole(y, Server(m))
    ensures Linked(Next(y, Server(m)))
  {
    InvAnswered(y);
    if Ours(y, m) {
      if m.ReadDone? {
        ReadLinked(y, m.i, m.data);
      } else {
        WriteLinked(y, m.i, m.res);
      }
    } else if y.linked {
      OtherKept(y.w, m, y.id);
    }
  }

  lemma NextInv(y: System, m: Move)
    requires Inv(y) && Enabled(y, m) && Whole(y, m)
    ensures Inv(Next(y, m))
  {
    match m
    case ClientEvent(_, _, _) =>
    case ClientCall(r) => ClientCallInv(y, r);
    case Server(sm) =>
      U.NextSound(y.w, sm);
      NextAccounted(y.w, sm);
      ServerLinked(y, sm);
      ServerProtocol(y, sm);
  }

  lemma ServerProtocol(y: System, m: U.Move)
    requires Enabled(y, Server(m)) && EndToEnd.Protocol(y.c)
    ensures EndToEnd.Protocol(Next(y, Server(m)).c)
  {
  }

  lemma {:induction false} RunInv(y: System, moves: seq<Move>)
    requires Inv(y) && Possible(y, moves) && AllWhole(y, moves)
    ensures Inv(Run(y, moves))
    decreases |moves|
  {
    if moves != [] {
      NextInv(y, moves[0]);
      RunInv(Next(y, moves[0]), moves[1..]);
    }
  }

  // ---------------------------------------------------------------- what the client sees

  /** No wrong echo was counted, and while the connection lives, every byte sent is received, on the
      way back, owed by the server, or on the way there. */
  ghost predicate NothingWrong(y: System) {
    && y.c.errors == (if y.c.sk.open then 0 else 1)
    && y.c.sk.taken == EndToEnd.Requests(y.c.completed) + Client.Payload()[..y.c.recvOffset]
    && (y.linked ==> y.c.sk.out == y.c.sk.taken + y.c.sk.rq + Owed(y) + y.rq)
  }

  lemma Outcome(y: System)
    requires Inv(y)
    ensures NothingWrong(y)
  {
    InvAnswered(y);
    if y.c.phase.Receiving? {
      EndToEnd.ReceivedIsPayload(y.c);
    } else {
      assert y.c.recvBuf[..0] == Client.Payload()[..0];
    }
    if y.linked {
      GotIsPutOwed(y);
    }
  }

  /** What a write leaves over is owed no longer, though it was not sent. */
  lemma ShortIsWrong(y: System, i: nat, res: int)
    requires Inv(y) && Enabled(y, Server(U.WriteDone(i, res))) && !Whole(y, Server(U.WriteDone(i, res)))
    ensures !NothingWrong(Next(y, Server(U.WriteDone(i, res))))
  {
    var v := Next(y, Server(U.WriteDone(i, res)));
    Outcome(y);
    assert y.w.u.armed[i] in y.w.u.armed && OpOk(Of(y.w, y.id), y.w.u.armed[i]);
    var put := U.Get(y.w.put, y.id);
    assert U.Get(y.w.got, y.id) == put + [U.Buffer(y.w, y.id)];
    assert U.Get(v.w.put, y.id) == put + [U.Offered(y.w, y.id)] && U.Get(v.w.got, y.id) == U.Get(y.w.got, y.id);
    assert |Owed(y)| == |U.Offered(y.w, y.id)| && Owed(v) == [];
    assert |v.c.sk.rq| == |y.c.sk.rq| + res && v.linked && v.rq == y.rq;
    assert |y.c.sk.out| == |y.c.sk.taken| + |y.c.sk.rq| + |Owed(y)| + |y.rq|;
  }

  ghost predicate RightThroughout(y: System, moves: seq<Move>)
    requires Possible(y, moves)
    decreases |moves|
  {
    NothingWrong(y) && (moves != [] ==> RightThroughout(Next(y, moves[0]), moves[1..]))
  }

  /** Of all runs, nothing is wrong at any point in those, and only those, in which no write of this
      connection stops short. */
  lemma {:induction false} RightThroughoutIff(y: System, moves: seq<Move>)
    requires Inv(y) && Possible(y, moves)
    ensures RightThroughout(y, moves) <==> AllWhole(y, moves)
    decreases |moves|
  {
    Outcome(y);
    if moves != [] {
      if Whole(y, moves[0]) {
        NextInv(y, moves[0]);
        RightThroughoutIff(Next(y, moves[0]), moves[1..]);
      } else {
        ShortIsWrong(y, moves[0].m.i, moves[0].m.res);
      }
    }
  }

  /** A client connects to a server that has run for any time, and is given the structure id. */
  lemma JoinInv(before: seq<U.Move>, active: bool, id: nat)
    requires U.Possible(U.Start(), before)
    requires var w := U.Run(U.Start(), before); id in w.u.conns && U.Get(w.got, id) == [] == U.Get(w.put, id)
    ensures Inv(System(U.Run(U.Start(), before), Client.Connected(active), id, [], true))
  {
    U.StartSound();
    U.RunSound(U.Start(), before);
    StartAccounted();
    RunAccounted(U.Start(), before);
    FreshInv(U.Run(U.Start(), before), active, id);
  }

  lemma FreshInv(w: U.World, active: bool, id: nat)
    requires U.Sound(w.u, w.cq) && Accounted(w)
    requires id in w.u.conns && U.Get(w.got, id) == [] == U.Get(w.put, id)
    ensures Inv(System(w, Client.Connected(active), id, [], true))
  {
    EndToEnd.StartInv(active);
  }

  /** A client that connects to a server that has run for any time, whatever the server does for
      others: nothing it sends is lost, and none of its echoes is wrong, if and only if no write of
      its connection stops short. */
  lemma NothingLostIff(before: seq<U.Move>, active: bool, id: nat, moves: seq<Move>)
    requires U.Possible(U.Start(), before)
    requires var w := U.Run(U.Start(), before); id in w.u.conns && U.Get(w.got, id) == [] == U.Get(w.put, id)
    requires Possible(System(U.Run(U.Start(), before), Client.Connected(active), id, [], true), moves)
    ensures var y := System(U.Run(U.Start(), before), Client.Connected(active), id, [], true);
      RightThroughout(y, moves) <==> AllWhole(y, moves)
  {
    JoinInv(before, active, id);
    RightThroughoutIff(System(U.Run(U.Start(), before), Client.Connected(active), id, [], true), moves);
  }

  /** So no wrong echo is counted where the writes of the connection are whole. */
  lemma NoMismatch(before: seq<U.Move>, active: bool, id: nat, moves: seq<Move>)
    requires U.Possible(U.Start(), before)
    requires var w := U.Run(U.Start(), before); id in w.u.conns && U.Get(w.got, id) == [] == U.Get(w.put, id)
    requires var y := System(U.Run(U.Start(), before), Client.Connected(active), id, [], true);
      Possible(y, moves) && AllWhole(y, moves)
    ensures NothingWrong(Run(System(U.Run(U.Start(), before), Client.Connected(active), id, [], true), moves))
  {
    var y := System(U.Run(U.Start(), before), Client.Connected(active), id, [], true);
    JoinInv(before, active, id);
    RunInv(y, moves);
    Outcome(Run(y, moves));
  }
}
