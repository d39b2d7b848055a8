/** A load generator connection joined to io_uring_opt_server.c by two FIFO byte streams, amid all the
    other connections of the server.

    Three things can come between a request and its echo: a message that finds no entry is dropped,
    a send may stop short or fail, and a send may overtake an older one. Nothing else can. */
module UringOptLoop {
  import opened Kernel
  import opened Tags
  import Client = LoadgenClient
  import EndToEnd
  import U = UringOpt
  import Buffers = UringBuffers
  import Order = UringOrder
  import Rearm = UringRearm
  import Content = UringPayload

  /** The server's world, the client, its descriptor at the server, and what is queued for the
      server to receive. */
  datatype System = System(w: U.World, c: Client.Conn, fd: nat, rq: Bytes)

  datatype Move = ClientEvent(err: bool, out: bool, in_: bool) | ClientCall(r: Ret) | Server(m: U.Move)

  /** The move completes an operation on this descriptor. */
  predicate Ours(y: System, m: U.Move) {
    (m.Received? || m.SendDone?) && m.i < |y.w.u.armed| && y.w.u.armed[m.i].fd == y.fd
  }

  predicate Enabled(y: System, m: Move) {
    m.Server? ==> U.Enabled(y.w, m.m) && (Ours(y, m.m) && m.m.Received? ==> m.m.data <= y.rq)
  }

  /** What a send reads from its buffer. */
  function Carried(w: U.World, i: nat): Bytes
    requires i < |w.u.armed| && w.u.armed[i].Send?
  {
    U.Payload(w.storage, w.u.armed[i].bid, w.u.armed[i].len)
  }

  /** The bytes of it that reach the client, given the result of the send. */
  function Arrived(data: Bytes, res: int): Bytes {
    if res <= 0 then [] else data[..Min(res, |data|)]
  }

  function Next(y: System, m: Move): System
    requires Enabled(y, m)
  {
    match m
    case ClientEvent(err, out, in_) => y.(c := y.c.Begin(err, out, in_))
    case ClientCall(r) =>
      var c := Client.Step(y.c, r);
      y.(c := c, rq := y.rq + Emitted(y.c.sk, c.sk))
    case Server(sm) =>
      var w := U.Next(y.w, sm);
      if !Ours(y, sm) then y.(w := w)
      else if sm.Received? then y.(w := w, rq := y.rq[|sm.data|..])
      else y.(w := w, c := y.c.(sk := y.c.sk.Deliver(Arrived(Carried(y.w, sm.i), sm.res))))
  }

  ghost predicate Possible(y: System, moves: seq<Move>)
    decreases |moves|
  {
    moves != [] ==> Enabled(y, moves[0]) && Possible(Next(y, moves[0]), moves[1..])
  }

  // ---------------------------------------------------------------- bytes under way

  /** The bytes of the messages for one descriptor. */
  function BytesFor(fd: nat, ms: seq<U.Message>): Bytes {
    if ms == [] then [] else (if ms[0].fd == fd then ms[0].data else []) + BytesFor(fd, ms[1..])
  }

  lemma {:induction false} BytesConcat(fd: nat, a: seq<U.Message>, b: seq<U.Message>)
    ensures BytesFor(fd, a + b) == BytesFor(fd, a) + BytesFor(fd, b)
  {
    if a == [] {
      assert a + b == b;
    } else {
      var ab := a + b;
      ConcatHead(a, b);
      BytesConcat(fd, a[1..], b);
      var head := if a[0].fd == fd then a[0].data else [];
      assert BytesFor(fd, ab) == head + BytesFor(fd, a[1..] + b);
      assert head + (BytesFor(fd, a[1..]) + BytesFor(fd, b)) == (head + BytesFor(fd, a[1..])) + BytesFor(fd, b);
    }
  }

  lemma BytesOne(fd: nat, m: U.Message)
    ensures BytesFor(fd, [m]) == if m.fd == fd then m.data else []
  {
    assert [m][1..] == [];
  }

  /** What the outstanding sends of the descriptor hold. */
  function Outgoing(w: U.World, fd: nat): Bytes {
    BytesFor(fd, Content.OpMessages(w.u.Outstanding(), w.storage))
  }

  /** What was received on it and awaits processing. */
  function Incoming(w: U.World, fd: nat): Bytes {
    BytesFor(fd, Content.CqMessages(w.cq, w.storage))
  }

  /** What was sent is received, on the way back, held by a send, received by the server, or on the
      way there, in this order. */
  ghost predicate Conserved(y: System) {
    Balanced(y.c.sk, Outgoing(y.w, y.fd), Incoming(y.w, y.fd), y.rq)
  }

  ghost predicate Balanced(c: Sock, outgoing: Bytes, incoming: Bytes, rq: Bytes) {
    c.out == c.taken + c.rq + outgoing + incoming + rq
  }

  ghost predicate NoneEmpty(ms: seq<U.Message>) {
    forall m | m in ms :: m.data != []
  }

  /** The server's own invariant, and that no message is empty. */
  ghost predicate Sound(w: U.World, listen: nat) {
    Content.Good(w, listen) && |w.u.sq| <= U.ENTRIES && NoneEmpty(w.received) && NoneEmpty(w.handed)
  }

  ghost predicate Inv(y: System, listen: nat) {
    Sound(y.w, listen) && EndToEnd.Protocol(y.c) && Conserved(y)
  }

  // ---------------------------------------------------------------- messages have their bytes

  lemma FirstQueued(w: U.World, listen: nat)
    requires Sound(w, listen) && w.cq != [] && w.cq[0].IsData()
    ensures U.Delivered(w.cq[0], w.storage).data != []
    ensures Content.CqMessages(w.cq, w.storage)
         == [U.Delivered(w.cq[0], w.storage)] + Content.CqMessages(w.cq[1..], w.storage)
  {
    assert w.received[|w.processed|] == Content.CqMessages(w.cq, w.storage)[0];
    assert w.received[|w.processed|] in w.received;
  }

  /** A send's buffer holds as many bytes as the send asks for. */
  lemma CarriedWhole(w: U.World, i: nat, listen: nat)
    requires Sound(w, listen) && i < |w.u.armed| && w.u.armed[i].Send?
    ensures |Carried(w, i)| == w.u.armed[i].len > 0
  {
    var op := w.u.armed[i];
    assert op in w.u.armed && op.Valid(listen);
    OutstandingNotEmpty(w, i);
  }

  lemma OutstandingNotEmpty(w: U.World, i: nat)
    requires Content.CarriedOut(w) && NoneEmpty(w.handed) && i < |w.u.armed| && w.u.armed[i].Send?
    ensures Carried(w, i) != []
  {
    assert w.u.armed[i] == w.u.Outstanding()[i];
    OpListed(w.u.Outstanding(), i, w.storage);
    Included(w.handed, w.sent, Content.OpMessages(w.u.Outstanding(), w.storage));
  }

  lemma Included(a: seq<U.Message>, b: seq<U.Message>, c: seq<U.Message>)
    requires multiset(a) == multiset(b) + multiset(c)
    ensures forall m | m in c :: m in a
  {
    forall m | m in c ensures m in a {
      assert m in multiset(c) && m in multiset(a);
    }
  }

  lemma {:induction false} OpListed(ops: seq<U.Op>, i: nat, storage: seq<Bytes>)
    requires i < |ops| && ops[i].Send?
    ensures U.Message(ops[i].fd, U.Payload(storage, ops[i].bid, ops[i].len)) in Content.OpMessages(ops, storage)
  {
    if i > 0 {
      OpListed(ops[1..], i - 1, storage);
    }
  }

  lemma NextSound(w: U.World, m: U.Move, listen: nat)
    requires Sound(w, listen) && U.Enabled(w, m)
    ensures Sound(U.Next(w, m), listen)
  {
    U.NextValid(w, m, listen);
    Buffers.NextConserved(w, m, listen);
    Content.NextFaithful(w, m, listen);
    Content.NextDropsIff(w, m);
    if m.Process? && w.cq[0].IsData() {
      FirstQueued(w, listen);
    }
  }

  // ---------------------------------------------------------------- what each move does to them

  lemma KernelKept(w: U.World, m: U.Move, fd: nat, listen: nat)
    requires Sound(w, listen) && U.Enabled(w, m) && (m.Submit? || m.Accepted? || m.RecvEnded?)
    ensures Outgoing(U.Next(w, m), fd) == Outgoing(w, fd) && Incoming(U.Next(w, m), fd) == Incoming(w, fd)
  {
    if m.Submit? {
      Buffers.FlushOutstanding(w.u, m.k);
    } else {
      U.OpTag(w.u.armed[m.i], listen);
      Order.OtherDone(w.u, m.i, m.more, w.storage);
      var c := U.Cqe(w.u.armed[m.i].Tag(), m.res, if m.more then 2 else 0);
      Content.CqMessagesPost(w.cq, c, w.storage);
      assert Content.CqMessages(w.cq, w.storage) + [] == Content.CqMessages(w.cq, w.storage);
    }
  }

  lemma ReceivedKept(w: U.World, i: nat, data: Bytes, more: bool, fd: nat, listen: nat)
    requires Sound(w, listen) && U.Enabled(w, U.Received(i, data, more))
    ensures var v := U.Next(w, U.Received(i, data, more));
      && Outgoing(v, fd) == Outgoing(w, fd)
      && Incoming(v, fd) == Incoming(w, fd) + if w.u.armed[i].fd == fd then data else []
  {
    var d := U.Message(w.u.armed[i].fd, data);
    ReceivedOps(w, i, data, more, listen);
    Content.ReceivedQueue(w, i, data, more, listen);
    BytesConcat(fd, Content.CqMessages(w.cq, w.storage), [d]);
    BytesOne(fd, d);
  }

  lemma ReceivedOps(w: U.World, i: nat, data: Bytes, more: bool, listen: nat)
    requires Sound(w, listen) && U.Enabled(w, U.Received(i, data, more))
    ensures var v := U.Next(w, U.Received(i, data, more));
      Content.OpMessages(v.u.Outstanding(), v.storage) == Content.OpMessages(w.u.Outstanding(), w.storage)
  {
    var bid := w.u.free[0];
    assert bid in w.u.free;
    Content.NextBufferUnowned(w);
    Content.OpMessagesFrame(w.u.Outstanding(), w.storage, bid, data);
    Order.OtherDone(w.u.(free := w.u.free[1..]), i, more, w.storage[bid := data]);
  }

  /** The message that a move processes, if it is for the descriptor. */
  function Taken(w: U.World, fd: nat): Bytes
    requires w.cq != []
  {
    if w.cq[0].IsData() && TagFd(w.cq[0].tag) == fd then U.Delivered(w.cq[0], w.storage).data else []
  }

  lemma TakenBytes(w: U.World, fd: nat)
    requires w.cq != []
    ensures BytesFor(fd, Content.CqeMessage(w.cq[0], w.storage)) == Taken(w, fd)
  {
    BytesOne(fd, U.Delivered(w.cq[0], w.storage));
  }

  lemma ProcessTakes(w: U.World, flush1: nat, flush2: nat, fd: nat)
    requires U.Enabled(w, U.Process(flush1, flush2))
    ensures Incoming(w, fd) == Taken(w, fd) + Incoming(U.Next(w, U.Process(flush1, flush2)), fd)
  {
    TakenBytes(w, fd);
    BytesConcat(fd, Content.CqeMessage(w.cq[0], w.storage), Content.CqMessages(w.cq[1..], w.storage));
  }

  lemma ProcessHands(w: U.World, flush1: nat, flush2: nat, fd: nat)
    requires U.Enabled(w, U.Process(flush1, flush2)) && |w.u.sq| <= U.ENTRIES
    ensures Outgoing(U.Next(w, U.Process(flush1, flush2)), fd) ==
            Outgoing(w, fd) + if Rearm.Room(w.u, flush1) then Taken(w, fd) else []
  {
    var ops := Content.OpMessages(w.u.Outstanding(), w.storage);
    var handed := if Rearm.Room(w.u, flush1) then Content.CqeMessage(w.cq[0], w.storage) else [];
    Rearm.HasSqeIff(w.u, flush1);
    Content.HandleMessages(w.u, w.cq[0], flush1, flush2, w.storage);
    TakenBytes(w, fd);
    BytesConcat(fd, ops, handed);
  }

  /** What the older outstanding sends of the descriptor hold. */
  function Older(w: U.World, i: nat, fd: nat): Bytes
    requires i < |w.u.armed|
  {
    BytesFor(fd, Content.OpMessages(w.u.armed[..i], w.storage))
  }

  function Younger(w: U.World, i: nat, fd: nat): Bytes
    requires i < |w.u.armed|
  {
    BytesFor(fd, Content.OpMessages(w.u.Outstanding()[i + 1..], w.storage))
  }

  lemma SendKept(w: U.World, i: nat, res: int, fd: nat, listen: nat)
    requires Sound(w, listen) && U.Enabled(w, U.SendDone(i, res))
    ensures var v := U.Next(w, U.SendDone(i, res));
      && Incoming(v, fd) == Incoming(w, fd)
      && Outgoing(v, fd) == Older(w, i, fd) + Younger(w, i, fd)
      && Outgoing(w, fd) == Older(w, i, fd) + (if w.u.armed[i].fd == fd then Carried(w, i) else []) + Younger(w, i, fd)
  {
    var op, ops, cs := w.u.armed[i], w.u.Outstanding(), Content.CqMessages(w.cq, w.storage);
    U.OpTag(op, listen);
    Content.CqMessagesPost(w.cq, U.Cqe(op.Tag(), res, 0), w.storage);
    assert cs + [] == cs;
    Buffers.CompletedOutstanding(w.u, i);
    Around(ops, i);
    assert ops[..i] == w.u.armed[..i];
    Order.OpMessagesSplit(ops[..i], op, ops[i + 1..], w.storage);
    var x, m, z := Content.OpMessages(ops[..i], w.storage), Content.OpMessage(op, w.storage),
                   Content.OpMessages(ops[i + 1..], w.storage);
    BytesConcat(fd, x + m, z);
    BytesConcat(fd, x, m);
    BytesConcat(fd, x, z);
    BytesOne(fd, m[0]);
  }

  // ---------------------------------------------------------------- and to the balance

  lemma ReceivedBalanced(c: Sock, outgoing: Bytes, incoming: Bytes, rq: Bytes, data: Bytes)
    requires Balanced(c, outgoing, incoming, rq) && data <= rq
    ensures Balanced(c, outgoing, incoming + data, rq[|data|..])
  {
    var before := c.taken + c.rq + outgoing;
    assert rq == data + rq[|data|..];
    assert (before + (incoming + data)) + rq[|data|..] == (before + incoming) + (data + rq[|data|..]);
  }

  lemma ProcessBalancedIff(c: Sock, outgoing: Bytes, kept: Bytes, data: Bytes, incoming: Bytes, rq: Bytes)
    requires Balanced(c, outgoing, data + incoming, rq) && (kept == data || kept == [])
    ensures Balanced(c, outgoing + kept, incoming, rq) <==> kept == data
  {
    var before := c.taken + c.rq;
    assert ((before + outgoing) + (data + incoming)) + rq == ((before + (outgoing + data)) + incoming) + rq;
    assert |c.out| == |before| + |outgoing| + |data| + |incoming| + |rq|;
  }

  /** A send that carries k bytes of m from behind x. */
  lemma SendBalancedIff(c: Sock, x: Bytes, m: Bytes, z: Bytes, incoming: Bytes, rq: Bytes, k: nat)
    requires Balanced(c, x + m + z, incoming, rq) && k <= |m|
    ensures Balanced(c.Deliver(m[..k]), x + z, incoming, rq) <==> k == |m| && x + m == m + x
  {
    var before, after := c.taken + c.rq, z + incoming + rq;
    assert c.out == before + ((x + m) + after);
    assert c.taken + (c.rq + m[..k]) + (x + z) + incoming + rq == before + ((m[..k] + x) + after);
    if k == |m| {
      assert m[..k] == m;
      SameBetween(before, x + m, m + x, after);
    } else {
      assert |before + ((m[..k] + x) + after)| < |c.out|;
    }
  }

  lemma SameBetween(a: Bytes, x: Bytes, y: Bytes, b: Bytes)
    requires |x| == |y|
    ensures a + (x + b) == a + (y + b) <==> x == y
  {
    if a + (x + b) == a + (y + b) {
      assert x == (a + (x + b))[|a|..][..|x|] && y == (a + (y + b))[|a|..][..|y|];
    }
  }

  lemma ClientBalanced(c: Client.Conn, r: Ret, outgoing: Bytes, incoming: Bytes, rq: Bytes)
    requires Balanced(c.sk, outgoing, incoming, rq)
    ensures var c' := Client.Step(c, r); Balanced(c'.sk, outgoing, incoming, rq + Emitted(c.sk, c'.sk))
  {
    var c' := Client.Step(c, r);
    EndToEnd.ClientStreams(c, r);
    var had := c.sk.taken + c.sk.rq + outgoing + incoming;
    assert c'.sk.out == c.sk.out + Emitted(c.sk, c'.sk);
    assert (had + rq) + Emitted(c.sk, c'.sk) == had + (rq + Emitted(c.sk, c'.sk));
  }

  // ---------------------------------------------------------------- harmless moves

  /** A message received on the descriptor finds an entry, and a send on it takes all it is given and
      overtakes nothing, or only what commutes with it. */
  predicate Harmless(y: System, m: Move)
    requires Enabled(y, m)
  {
    m.Server? ==>
      match m.m
      case Process(flush1, _) => Taken(y.w, y.fd) != [] ==> Rearm.Room(y.w.u, flush1)
      case SendDone(i, res) =>
        y.w.u.armed[i].fd == y.fd ==>
          && res == y.w.u.armed[i].len
          && Older(y.w, i, y.fd) + Carried(y.w, i) == Carried(y.w, i) + Older(y.w, i, y.fd)
      case _ => true
  }

  lemma OtherSendConserved(y: System, i: nat, res: int, listen: nat)
    requires Sound(y.w, listen) && Conserved(y) && Enabled(y, Server(U.SendDone(i, res)))
    requires y.w.u.armed[i].fd != y.fd
    ensures Conserved(Next(y, Server(U.SendDone(i, res))))
  {
    OtherSendKept(y.w, i, res, y.fd, listen);
  }

  lemma OtherSendKept(w: U.World, i: nat, res: int, fd: nat, listen: nat)
    requires Sound(w, listen) && U.Enabled(w, U.SendDone(i, res)) && w.u.armed[i].fd != fd
    ensures var v := U.Next(w, U.SendDone(i, res));
      Outgoing(v, fd) == Outgoing(w, fd) && Incoming(v, fd) == Incoming(w, fd)
  {
    SendKept(w, i, res, fd, listen);
    assert Older(w, i, fd) + [] == Older(w, i, fd);
  }

  /** What a send delivers, as a part of what it carries. */
  lemma ArrivedPart(c: Sock, x: Bytes, m: Bytes, z: Bytes, incoming: Bytes, rq: Bytes, res: int)
    requires Balanced(c, x + m + z, incoming, rq) && res <= |m| && m != []
    ensures Balanced(c.Deliver(Arrived(m, res)), x + z, incoming, rq) <==> res == |m| && x + m == m + x
  {
    var k := if res <= 0 then 0 else res;
    assert Arrived(m, res) == m[..k];
    SendBalancedIff(c, x, m, z, incoming, rq, k);
  }

  lemma OwnSendConservedIff(y: System, i: nat, res: int, listen: nat)
    requires Sound(y.w, listen) && Conserved(y) && Enabled(y, Server(U.SendDone(i, res)))
    requires y.w.u.armed[i].fd == y.fd
    ensures Conserved(Next(y, Server(U.SendDone(i, res)))) <==>
            var x, m := Older(y.w, i, y.fd), Carried(y.w, i);
            res == y.w.u.armed[i].len && x + m == m + x
  {
    var m := Carried(y.w, i);
    SendKept(y.w, i, res, y.fd, listen);
    CarriedWhole(y.w, i, listen);
    ArrivedPart(y.c.sk, Older(y.w, i, y.fd), m, Younger(y.w, i, y.fd), Incoming(y.w, y.fd), y.rq, res);
  }

  lemma SendConservedIff(y: System, i: nat, res: int, listen: nat)
    requires Sound(y.w, listen) && Conserved(y) && Enabled(y, Server(U.SendDone(i, res)))
    ensures Conserved(Next(y, Server(U.SendDone(i, res)))) <==> Harmless(y, Server(U.SendDone(i, res)))
  {
    if y.w.u.armed[i].fd == y.fd {
      OwnSendConservedIff(y, i, res, listen);
    } else {
      OtherSendConserved(y, i, res, listen);
    }
  }

  lemma ServerConservedIff(y: System, m: U.Move, listen: nat)
    requires Sound(y.w, listen) && Conserved(y) && Enabled(y, Server(m))
    ensures Conserved(Next(y, Server(m))) <==> Harmless(y, Server(m))
  {
    match m
    case Process(flush1, flush2) =>
      ProcessTakes(y.w, flush1, flush2, y.fd);
      ProcessHands(y.w, flush1, flush2, y.fd);
      var data := Taken(y.w, y.fd);
      var kept := if Rearm.Room(y.w.u, flush1) then data else [];
      ProcessBalancedIff(y.c.sk, Outgoing(y.w, y.fd), kept, data,
                         Incoming(U.Next(y.w, m), y.fd), y.rq);
    case SendDone(i, res) => SendConservedIff(y, i, res, listen);
    case Received(i, data, more) =>
      ReceivedKept(y.w, i, data, more, y.fd, listen);
      if Ours(y, m) {
        ReceivedBalanced(y.c.sk, Outgoing(y.w, y.fd), Incoming(y.w, y.fd), y.rq, data);
      } else {
        assert Incoming(y.w, y.fd) + [] == Incoming(y.w, y.fd);
      }
    case Submit(_) => KernelKept(y.w, m, y.fd, listen);
    case Accepted(_, _, _) => KernelKept(y.w, m, y.fd, listen);
    case RecvEnded(_, _, _) => KernelKept(y.w, m, y.fd, listen);
  }

  lemma ConservedAnswered(y: System)
    requires Conserved(y)
    ensures EndToEnd.Answered(y.c)
  {
    var back := y.c.sk.taken + y.c.sk.rq;
    assert y.c.sk.out == back + (Outgoing(y.w, y.fd) + Incoming(y.w, y.fd) + y.rq);
  }

  lemma ProtocolKept(y: System, m: Move)
    requires EndToEnd.Protocol(y.c) && Conserved(y) && Enabled(y, m)
    ensures EndToEnd.Protocol(Next(y, m).c)
  {
    if m.ClientCall? {
      ConservedAnswered(y);
      EndToEnd.ClientProtocol(y.c, m.r);
    }
  }

  lemma NextInvIff(y: System, m: Move, listen: nat)
    requires Inv(y, listen) && Enabled(y, m)
    ensures Harmless(y, m) ==> Inv(Next(y, m), listen)
    ensures !Harmless(y, m) ==> !Conserved(Next(y, m))
  {
    ProtocolKept(y, m);
    match m
    case ClientEvent(_, _, _) =>
    case ClientCall(r) => ClientBalanced(y.c, r, Outgoing(y.w, y.fd), Incoming(y.w, y.fd), y.rq);
    case Server(sm) =>
      NextSound(y.w, sm, listen);
      ServerConservedIff(y, sm, listen);
  }

  // ---------------------------------------------------------------- whole runs

  /** No wrong echo was counted, and nothing sent is lost or out of order. */
  ghost predicate NothingWrong(y: System) {
    && y.c.errors == (if y.c.sk.open then 0 else 1)
    && y.c.sk.taken == EndToEnd.Requests(y.c.completed) + Client.Payload()[..y.c.recvOffset]
    && Conserved(y)
  }

  ghost predicate RightThroughout(y: System, moves: seq<Move>)
    requires Possible(y, moves)
    decreases |moves|
  {
    NothingWrong(y) && (moves != [] ==> RightThroughout(Next(y, moves[0]), moves[1..]))
  }

  ghost predicate AllHarmless(y: System, moves: seq<Move>)
    requires Possible(y, moves)
    decreases |moves|
  {
    moves != [] ==> Harmless(y, moves[0]) && AllHarmless(Next(y, moves[0]), moves[1..])
  }

  lemma InvRight(y: System, listen: nat)
    requires Inv(y, listen)
    ensures NothingWrong(y)
  {
    ConservedAnswered(y);
    if y.c.phase.Receiving? {
      EndToEnd.ReceivedIsPayload(y.c);
    } else {
      assert y.c.recvBuf[..0] == Client.Payload()[..0];
    }
  }

  lemma {:induction false} RightIff(y: System, moves: seq<Move>, listen: nat)
    requires Inv(y, listen) && Possible(y, moves)
    ensures RightThroughout(y, moves) <==> AllHarmless(y, moves)
    decreases |moves|
  {
    InvRight(y, listen);
    if moves != [] {
      NextInvIff(y, moves[0], listen);
      if Harmless(y, moves[0]) {
        RightIff(Next(y, moves[0]), moves[1..], listen);
      }
    }
  }

  lemma {:induction false} RunSound(w: U.World, moves: seq<U.Move>, listen: nat)
    requires Sound(w, listen) && U.Possible(w, moves)
    ensures Sound(U.Run(w, moves), listen)
    decreases |moves|
  {
    if moves != [] {
      NextSound(w, moves[0], listen);
      RunSound(U.Next(w, moves[0]), moves[1..], listen);
    }
  }

  /** A client that connects to a server that has run for any time, on a descriptor with nothing
      under way: whatever the server does for others, nothing it sends is lost, cut or reordered and
      none of its echoes is wrong, if and only if each of its messages finds an entry and each of its
      sends is whole and overtakes nothing that does not commute with it. */
  lemma NothingWrongIff(listen: nat, before: seq<U.Move>, active: bool, fd: nat, moves: seq<Move>)
    requires listen < U.MAX_FDS && U.Possible(U.Start(listen), before)
    requires var w := U.Run(U.Start(listen), before); Outgoing(w, fd) == [] == Incoming(w, fd)
    requires Possible(System(U.Run(U.Start(listen), before), Client.Connected(active), fd, []), moves)
    ensures var y := System(U.Run(U.Start(listen), before), Client.Connected(active), fd, []);
      RightThroughout(y, moves) <==> AllHarmless(y, moves)
  {
    Content.StartGood(listen);
    RunSound(U.Start(listen), before, listen);
    EndToEnd.StartInv(active);
    RightIff(System(U.Run(U.Start(listen), before), Client.Connected(active), fd, []), moves, listen);
  }
}
