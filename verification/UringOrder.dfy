/** The order of sends in io_uring_opt_server.c. Messages are handed to sends in the order in which
    they were received, but several sends on one descriptor can be outstanding at once, and nothing
    in the server makes the kernel carry them out in turn. */
module UringOrder {
  import opened Kernel
  import opened Tags
  import opened BufferRing
  import opened UringOpt
  import opened UringBuffers
  import opened UringRearm
  import opened UringPayload

  /** The messages for one descriptor. */
  function For(fd: nat, ms: seq<Message>): seq<Message> {
    if ms == [] then [] else (if ms[0].fd == fd then [ms[0]] else []) + For(fd, ms[1..])
  }

  lemma {:induction false} ForConcat(fd: nat, a: seq<Message>, b: seq<Message>)
    ensures For(fd, a + b) == For(fd, a) + For(fd, b)
  {
    if a == [] {
      assert a + b == b;
    } else {
      var ab := a + b;
      ConcatHead(a, b);
      ForConcat(fd, a[1..], b);
      var head := if a[0].fd == fd then [a[0]] else [];
      assert For(fd, ab) == head + For(fd, a[1..] + b);
    }
  }

  lemma ForOne(fd: nat, m: Message)
    ensures For(fd, [m]) == if m.fd == fd then [m] else []
  {
    assert [m][1..] == [];
  }

  /** On this descriptor what was handed to sends has been carried out, in order, but for what the
      outstanding sends hold, in order. */
  ghost predicate InTurn(w: World, fd: nat) {
    For(fd, w.handed) == For(fd, w.sent) + For(fd, OpMessages(w.u.Outstanding(), w.storage))
  }

  /** Older outstanding sends of the descriptor, if any, carry the same bytes as the one that
      completes. */
  ghost predicate InStep(w: World, m: Move, fd: nat) {
    m.SendDone? && m.i < |w.u.armed| && w.u.armed[m.i].Send? && w.u.armed[m.i].fd == fd ==>
      AllCarry(w.u.armed[..m.i], w.storage, fd, w.u.armed[m.i])
  }

  /** Every send for the descriptor carries what op carries. */
  ghost predicate AllCarry(ops: seq<Op>, storage: seq<Bytes>, fd: nat, op: Op) {
    forall o | o in ops :: Carries(o, storage, fd, op)
  }

  ghost predicate AllInStep(w: World, moves: seq<Move>, fd: nat)
    requires Possible(w, moves)
    decreases |moves|
  {
    moves != [] ==> InStep(w, moves[0], fd) && AllInStep(Next(w, moves[0]), moves[1..], fd)
  }

  ghost predicate InTurnThroughout(w: World, moves: seq<Move>, fd: nat)
    requires Possible(w, moves)
    decreases |moves|
  {
    InTurn(w, fd) && (moves != [] ==> InTurnThroughout(Next(w, moves[0]), moves[1..], fd))
  }

  /** A send completes before no older send of its descriptor. */
  ghost predicate OldestFirst(w: World, m: Move) {
    m.SendDone? && m.i < |w.u.armed| ==>
      forall k | 0 <= k < m.i :: !(w.u.armed[k].Send? && w.u.armed[k].fd == w.u.armed[m.i].fd)
  }

  ghost predicate AllOldestFirst(w: World, moves: seq<Move>)
    requires Possible(w, moves)
    decreases |moves|
  {
    moves != [] ==> OldestFirst(w, moves[0]) && AllOldestFirst(Next(w, moves[0]), moves[1..])
  }

  lemma OpMessagesSplit(before: seq<Op>, op: Op, after: seq<Op>, storage: seq<Bytes>)
    ensures OpMessages(before + after, storage) == OpMessages(before, storage) + OpMessages(after, storage)
    ensures OpMessages(before + [op] + after, storage)
         == OpMessages(before, storage) + OpMessage(op, storage) + OpMessages(after, storage)
  {
    OpMessagesConcat(before, after, storage);
    OpMessagesConcat(before + [op], after, storage);
    OpMessagesPush(before, op, storage);
  }

  /** One element can be moved past a sequence exactly if all elements are that one. */
  lemma {:induction false} MovesPastIff(x: seq<Message>, m: Message)
    ensures [m] + x == x + [m] <==> AllAre(x, m)
  {
    if x != [] {
      var rest := x[1..];
      MovesPastIff(rest, m);
      assert x == [x[0]] + rest;
      if [m] + x == x + [m] {
        assert ([m] + x)[0] == m && (x + [m])[0] == x[0];
        assert ([m] + x)[1..] == x && (x + [m])[1..] == rest + [m];
        assert [m] + rest == rest + [m];
      }
      if AllAre(x, m) {
        assert x[0] in x && forall e | e in rest :: e in x;
        assert [m] + x == [m] + ([m] + rest) == [m] + (rest + [m]) == x + [m];
      }
    }
  }

  ghost predicate AllAre(ms: seq<Message>, m: Message) {
    forall e | e in ms :: e == m
  }

  lemma AllAreConcat(a: seq<Message>, b: seq<Message>, m: Message)
    ensures AllAre(a + b, m) <==> AllAre(a, m) && AllAre(b, m)
  {
    assert forall e | e in a :: e in a + b;
    assert forall e | e in b :: e in a + b;
  }

  /** An operation is no send for the descriptor, or carries what op carries. */
  predicate Carries(o: Op, storage: seq<Bytes>, fd: nat, op: Op) {
    o.Send? && o.fd == fd ==> OpMessage(o, storage) == OpMessage(op, storage)
  }

  lemma CarriesIff(o: Op, storage: seq<Bytes>, fd: nat, op: Op)
    requires op.Send?
    ensures Carries(o, storage, fd, op) <==> AllAre(For(fd, OpMessage(o, storage)), OpMessage(op, storage)[0])
  {
    if o.Send? {
      ForOne(fd, OpMessage(o, storage)[0]);
      if o.fd == fd {
        assert OpMessage(o, storage)[0] in For(fd, OpMessage(o, storage));
      }
    }
  }

  /** The messages for a descriptor are all equal exactly if its sends carry the same. */
  lemma {:induction false} AllCarryIff(ops: seq<Op>, storage: seq<Bytes>, fd: nat, op: Op)
    requires op.Send?
    ensures AllCarry(ops, storage, fd, op) <==> AllAre(For(fd, OpMessages(ops, storage)), OpMessage(op, storage)[0])
  {
    if ops != [] {
      var o, rest, m := ops[0], ops[1..], OpMessage(op, storage)[0];
      AllCarryIff(rest, storage, fd, op);
      CarriesIff(o, storage, fd, op);
      ForConcat(fd, OpMessage(o, storage), OpMessages(rest, storage));
      AllAreConcat(For(fd, OpMessage(o, storage)), For(fd, OpMessages(rest, storage)), m);
      FirstCarries(ops, storage, fd, op);
    }
  }

  lemma FirstCarries(ops: seq<Op>, storage: seq<Bytes>, fd: nat, op: Op)
    requires ops != []
    ensures AllCarry(ops, storage, fd, op) <==> Carries(ops[0], storage, fd, op) && AllCarry(ops[1..], storage, fd, op)
  {
    assert ops == [ops[0]] + ops[1..];
    assert ops[0] in ops && forall o | o in ops[1..] :: o in ops;
  }

  /** Removing an operation that is no send leaves the order of the others. */
  lemma OtherDone(u: User, i: nat, more: bool, storage: seq<Bytes>)
    requires i < |u.armed| && !u.armed[i].Send?
    ensures OpMessages(Completed(u, i, more).Outstanding(), storage) == OpMessages(u.Outstanding(), storage)
  {
    if !more {
      var ops := u.Outstanding();
      CompletedOutstanding(u, i);
      Around(ops, i);
      OpMessagesSplit(ops[..i], ops[i], ops[i + 1..], storage);
      assert OpMessages(ops[..i], storage) + [] == OpMessages(ops[..i], storage);
    }
  }

  /** What a completed send leaves of the messages for its descriptor. */
  lemma SendSplit(u: User, i: nat, storage: seq<Bytes>, fd: nat)
    requires i < |u.armed| && u.armed[i].Send?
    ensures var x, m, z := For(fd, OpMessages(u.armed[..i], storage)), For(fd, OpMessage(u.armed[i], storage)),
                           For(fd, OpMessages(u.Outstanding()[i + 1..], storage));
      && For(fd, OpMessages(u.Outstanding(), storage)) == x + m + z
      && For(fd, OpMessages(Completed(u, i, false).Outstanding(), storage)) == x + z
  {
    var ops := u.Outstanding();
    CompletedOutstanding(u, i);
    Around(ops, i);
    assert ops[..i] == u.armed[..i];
    OpMessagesSplit(ops[..i], ops[i], ops[i + 1..], storage);
    ForThree(fd, OpMessages(ops[..i], storage), OpMessage(ops[i], storage), OpMessages(ops[i + 1..], storage));
    ForConcat(fd, OpMessages(ops[..i], storage), OpMessages(ops[i + 1..], storage));
  }

  lemma ForThree(fd: nat, x: seq<Message>, m: seq<Message>, z: seq<Message>)
    ensures For(fd, x + m + z) == For(fd, x) + For(fd, m) + For(fd, z)
  {
    ForConcat(fd, x + m, z);
    ForConcat(fd, x, m);
  }

  lemma ProcessInTurn(w: World, flush1: nat, flush2: nat, fd: nat)
    requires InTurn(w, fd) && Enabled(w, Process(flush1, flush2))
    ensures InTurn(Next(w, Process(flush1, flush2)), fd)
  {
    var c := w.cq[0];
    var added := if c.IsData() && w.u.HasSqe(flush1) then [Delivered(c, w.storage)] else [];
    HandleMessages(w.u, c, flush1, flush2, w.storage);
    ProcessHands(w, flush1, flush2);
    BothGrow(fd, w.handed, w.sent, OpMessages(w.u.Outstanding(), w.storage), added);
  }

  lemma ProcessHands(w: World, flush1: nat, flush2: nat)
    requires Enabled(w, Process(flush1, flush2))
    ensures var c, v := w.cq[0], Next(w, Process(flush1, flush2));
      && v.handed == w.handed + (if c.IsData() && w.u.HasSqe(flush1) then [Delivered(c, w.storage)] else [])
      && v.sent == w.sent && v.storage == w.storage && v.u == Handle(w.u, c, flush1, flush2)
  {
    assert w.handed + [] == w.handed;
  }

  lemma BothGrow(fd: nat, handed: seq<Message>, sent: seq<Message>, ops: seq<Message>, added: seq<Message>)
    requires For(fd, handed) == For(fd, sent) + For(fd, ops)
    ensures For(fd, handed + added) == For(fd, sent) + For(fd, ops + added)
  {
    ForConcat(fd, ops, added);
    ForConcat(fd, handed, added);
  }

  /** s + x + m + z == s + m + x + z exactly if m moves past x. */
  lemma SwapIff(s: seq<Message>, x: seq<Message>, m: seq<Message>, z: seq<Message>)
    ensures s + (x + m + z) == (s + m) + (x + z) <==> x + m == m + x
  {
    var left, right := x + m, m + x;
    assert s + (x + m + z) == s + (left + z);
    assert (s + m) + (x + z) == s + (right + z);
    if s + (left + z) == s + (right + z) {
      assert (s + (left + z))[|s|..] == left + z && (s + (right + z))[|s|..] == right + z;
      assert (left + z)[..|left|] == left && (right + z)[..|right|] == right;
    }
  }

  lemma SendInTurnIff(w: World, i: nat, res: int, fd: nat)
    requires InTurn(w, fd) && Enabled(w, SendDone(i, res))
    ensures InTurn(Next(w, SendDone(i, res)), fd) <==> InStep(w, SendDone(i, res), fd)
  {
    var op := w.u.armed[i];
    var x, m := For(fd, OpMessages(w.u.armed[..i], w.storage)), OpMessage(op, w.storage);
    var z := For(fd, OpMessages(w.u.Outstanding()[i + 1..], w.storage));
    SendSplit(w.u, i, w.storage, fd);
    ForConcat(fd, w.sent, m);
    ForOne(fd, m[0]);
    SwapIff(For(fd, w.sent), x, For(fd, m), z);
    if op.fd == fd {
      MovesPastIff(x, m[0]);
      AllCarryIff(w.u.armed[..i], w.storage, fd, op);
    } else {
      assert x + [] == [] + x;
    }
  }

  lemma ReceivedInTurn(w: World, i: nat, data: Bytes, more: bool, listen: nat, fd: nat)
    requires Good(w, listen) && InTurn(w, fd) && Enabled(w, Received(i, data, more))
    ensures InTurn(Next(w, Received(i, data, more)), fd)
  {
    var bid := w.u.free[0];
    assert bid in w.u.free;
    NextBufferUnowned(w);
    OpMessagesFrame(w.u.Outstanding(), w.storage, bid, data);
    OtherDone(w.u.(free := w.u.free[1..]), i, more, w.storage[bid := data]);
  }

  lemma NextInTurnIff(w: World, m: Move, listen: nat, fd: nat)
    requires Good(w, listen) && InTurn(w, fd) && Enabled(w, m)
    ensures InTurn(Next(w, m), fd) <==> InStep(w, m, fd)
  {
    match m
    case Submit(k) => FlushOutstanding(w.u, k);
    case Received(i, data, more) => ReceivedInTurn(w, i, data, more, listen, fd);
    case SendDone(i, res) => SendInTurnIff(w, i, res, fd);
    case Process(flush1, flush2) => ProcessInTurn(w, flush1, flush2, fd);
    case Accepted(i, _, more) => OtherDone(w.u, i, more, w.storage);
    case RecvEnded(i, _, more) => OtherDone(w.u, i, more, w.storage);
  }

  lemma {:induction false} RunInTurnIff(w: World, moves: seq<Move>, listen: nat, fd: nat)
    requires Good(w, listen) && InTurn(w, fd) && Possible(w, moves)
    ensures InTurnThroughout(w, moves, fd) <==> AllInStep(w, moves, fd)
    decreases |moves|
  {
    if moves != [] {
      NextInTurnIff(w, moves[0], listen, fd);
      NextValid(w, moves[0], listen);
      NextConserved(w, moves[0], listen);
      NextFaithful(w, moves[0], listen);
      if InStep(w, moves[0], fd) {
        RunInTurnIff(Next(w, moves[0]), moves[1..], listen, fd);
      }
    }
  }

  lemma StartInTurn(listen: nat, fd: nat)
    requires listen < MAX_FDS
    ensures Good(Start(listen), listen) && InTurn(Start(listen), fd)
  {
    StartGood(listen);
    OpMessagesPush([], Accept(listen), Start(listen).storage);
    assert [] + [Accept(listen)] == [Accept(listen)];
  }

  /** From the start, for every run and every descriptor: what was handed to its sends is at every
      step what they carried out followed by what they still hold, in order, if and only if no send
      ever completes before an older one with other bytes. */
  lemma SentInOrderIff(listen: nat, moves: seq<Move>, fd: nat)
    requires listen < MAX_FDS && Possible(Start(listen), moves)
    ensures InTurnThroughout(Start(listen), moves, fd) <==> AllInStep(Start(listen), moves, fd)
  {
    StartInTurn(listen, fd);
    RunInTurnIff(Start(listen), moves, listen, fd);
  }

  lemma {:induction false} OldestInStep(w: World, moves: seq<Move>, fd: nat)
    requires Possible(w, moves) && AllOldestFirst(w, moves)
    ensures AllInStep(w, moves, fd)
    decreases |moves|
  {
    if moves != [] {
      var m := moves[0];
      if m.SendDone? && w.u.armed[m.i].fd == fd {
        forall o | o in w.u.armed[..m.i] ensures !(o.Send? && o.fd == fd) {
          var k :| 0 <= k < m.i && w.u.armed[..m.i][k] == o;
          assert o == w.u.armed[k];
        }
      }
      OldestInStep(Next(w, m), moves[1..], fd);
    }
  }

  lemma {:induction false} InTurnAtEnd(w: World, moves: seq<Move>, fd: nat)
    requires Possible(w, moves) && InTurnThroughout(w, moves, fd)
    ensures InTurn(Run(w, moves), fd)
    decreases |moves|
  {
    if moves != [] {
      InTurnAtEnd(Next(w, moves[0]), moves[1..], fd);
    }
  }

  /** In particular, if the kernel completes the sends of a descriptor oldest first, everything for it
      is carried out in the order in which it was handed over. */
  lemma SentInOrder(listen: nat, moves: seq<Move>, fd: nat)
    requires listen < MAX_FDS && Possible(Start(listen), moves) && AllOldestFirst(Start(listen), moves)
    ensures For(fd, Run(Start(listen), moves).sent) <= For(fd, Run(Start(listen), moves).handed)
  {
    OldestInStep(Start(listen), moves, fd);
    SentInOrderIff(listen, moves, fd);
    InTurnAtEnd(Start(listen), moves, fd);
  }

  // ---------------------------------------------------------------- out of turn

  /** The listener and one connection armed, every buffer free, nothing sent. */
  ghost predicate OneArmed(w: World, listen: nat) {
    && w.u.armed == [Accept(listen), Recv(5)] && w.u.sq == [] && w.cq == [] && w.u.free == AllBids()
    && 5 in w.u.active && |w.storage| == BUF_RING_ENTRIES && w.sent == [] && w.received == []
  }

  lemma ReachOneArmed(listen: nat) returns (moves: seq<Move>)
    requires listen < MAX_FDS
    ensures Possible(Start(listen), moves) && OneArmed(Run(Start(listen), moves), listen)
  {
    var w0 := Start(listen);
    var w1 := Next(w0, Submit(1));
    OneConnection(w1, listen);
    var w2 := Next(w1, Accepted(0, 5, true));
    var w3 := Next(w2, Process(1, 1));
    var w4 := Next(w3, Submit(1));
    FirstKept(w1, listen);
    assert w4.u.armed == [Accept(listen), Recv(5)] && w4.u.sq == [];
    RunTwo(w2, Process(1, 1), Submit(1), []);
    RunTwo(w0, Submit(1), Accepted(0, 5, true), [Process(1, 1)] + ([Submit(1)] + []));
    moves := [Submit(1)] + ([Accepted(0, 5, true)] + ([Process(1, 1)] + ([Submit(1)] + [])));
  }

  lemma FirstKept(w: World, listen: nat)
    requires listen < MAX_FDS && w.u.armed == [Accept(listen)] && w.u.sq == [] && w.cq == []
    ensures var v := Next(w, Accepted(0, 5, true)); Enabled(v, Process(1, 1))
    ensures var v := Next(Next(w, Accepted(0, 5, true)), Process(1, 1));
      v.u.free == w.u.free && v.storage == w.storage && v.sent == w.sent && v.received == w.received
  {
    TagRoundTrip(EVENT_ACCEPT, listen, 0);
  }

  function Data(len: nat, bid: nat): Cqe {
    Cqe(Recv(5).Tag(), len, Flags(bid, true))
  }

  /** Two receives deliver. */
  lemma TwoDelivered(w: World, listen: nat, a: Bytes, b: Bytes)
    requires OneArmed(w, listen) && 0 < |a| <= BUF_SIZE && 0 < |b| <= BUF_SIZE
    ensures Enabled(w, Received(1, a, true)) && Enabled(Next(w, Received(1, a, true)), Received(1, b, true))
    ensures var v := Next(Next(w, Received(1, a, true)), Received(1, b, true));
      && v.u.armed == w.u.armed && v.u.sq == [] && v.u.active == w.u.active && v.sent == []
      && v.cq == [Data(|a|, 0), Data(|b|, 1)]
      && |v.storage| == BUF_RING_ENTRIES && v.storage[0] == a && v.storage[1] == b
  {
    var v := Next(w, Received(1, a, true));
    assert v.u.free == AllBids()[1..] && v.u.free[0] == 1;
  }

  /** A delivered message is handed to a send. */
  lemma Handed(u: User, len: nat, bid: nat)
    requires 0 < len <= BUF_SIZE && |u.sq| < ENTRIES && bid < BUF_RING_ENTRIES
    ensures var v := Handle(u, Data(len, bid), 1, 1);
      v.armed == u.armed && v.sq == u.sq + [Send(5, bid, len)] && Data(len, bid).IsData()
  {
    TagRoundTrip(EVENT_RECV, 5, 0);
    FlagsRoundTrip(Recv(5).Tag(), len, bid, true);
  }

  lemma TwoHanded(w: World, listen: nat, m: nat, n: nat)
    requires w.u.armed == [Accept(listen), Recv(5)] && w.u.sq == [] && w.cq == [Data(m, 0), Data(n, 1)]
    requires 0 < m <= BUF_SIZE && 0 < n <= BUF_SIZE
    ensures Enabled(w, Process(1, 1)) && Enabled(Next(w, Process(1, 1)), Process(1, 1))
    ensures var v := Next(Next(w, Process(1, 1)), Process(1, 1));
      && v.u.armed == w.u.armed && v.u.sq == [Send(5, 0, m), Send(5, 1, n)] && v.cq == []
      && v.storage == w.storage && v.sent == w.sent
  {
    Handed(w.u, m, 0);
    var x := Next(w, Process(1, 1));
    assert x.cq == [Data(n, 1)] && x.u.sq == [Send(5, 0, m)];
    Handed(x.u, n, 1);
  }

  /** The younger send completes first. */
  lemma YoungerFirst(w: World, listen: nat, a: Bytes, b: Bytes)
    requires w.u.armed == [Accept(listen), Recv(5), Send(5, 0, |a|), Send(5, 1, |b|)] && w.sent == []
    requires |w.storage| == BUF_RING_ENTRIES && w.storage[0] == a && w.storage[1] == b
    ensures Enabled(w, SendDone(3, |b|)) && Enabled(Next(w, SendDone(3, |b|)), SendDone(2, |a|))
    ensures Next(Next(w, SendDone(3, |b|)), SendDone(2, |a|)).sent == [Message(5, b), Message(5, a)]
  {
    var v := Next(w, SendDone(3, |b|));
    assert v.u.armed == [Accept(listen), Recv(5), Send(5, 0, |a|)];
    assert a[..|a|] == a && b[..|b|] == b;
  }

  /** From the delivery of both to their sending out of turn. */
  lemma OutOfTurn(w: World, listen: nat, a: Bytes, b: Bytes) returns (moves: seq<Move>)
    requires w.u.armed == [Accept(listen), Recv(5)] && w.u.sq == [] && w.cq == [Data(|a|, 0), Data(|b|, 1)]
    requires 0 < |a| <= BUF_SIZE && 0 < |b| <= BUF_SIZE && w.sent == []
    requires |w.storage| == BUF_RING_ENTRIES && w.storage[0] == a && w.storage[1] == b
    ensures Possible(w, moves) && Run(w, moves).sent == [Message(5, b), Message(5, a)]
    ensures forall m | m in moves :: !m.Received?
  {
    TwoHanded(w, listen, |a|, |b|);
    var w2 := Next(Next(w, Process(1, 1)), Process(1, 1));
    var w3 := Next(w2, Submit(2));
    assert w3.u.armed == [Accept(listen), Recv(5), Send(5, 0, |a|), Send(5, 1, |b|)];
    YoungerFirst(w3, listen, a, b);
    var end := [SendDone(3, |b|)] + ([SendDone(2, |a|)] + []);
    RunTwo(w3, SendDone(3, |b|), SendDone(2, |a|), []);
    RunThen(w2, Submit(2), end);
    moves := [Process(1, 1)] + ([Process(1, 1)] + ([Submit(2)] + end));
    RunTwo(w, Process(1, 1), Process(1, 1), [Submit(2)] + end);
  }

  lemma BothReceived(w: World, listen: nat, a: Bytes, b: Bytes)
    requires OneArmed(w, listen) && 0 < |a| <= BUF_SIZE && 0 < |b| <= BUF_SIZE
    requires Enabled(w, Received(1, a, true)) && Enabled(Next(w, Received(1, a, true)), Received(1, b, true))
    ensures Next(Next(w, Received(1, a, true)), Received(1, b, true)).received == [Message(5, a), Message(5, b)]
  {
  }

  /** For any two messages there is a run from the start in which one connection receives them in
      one order and the sends carry them out in the other. */
  lemma SendsOvertake(listen: nat, a: Bytes, b: Bytes) returns (moves: seq<Move>)
    requires listen < MAX_FDS && 0 < |a| <= BUF_SIZE && 0 < |b| <= BUF_SIZE
    ensures Possible(Start(listen), moves)
    ensures Run(Start(listen), moves).sent == [Message(5, b), Message(5, a)]
    ensures Run(Start(listen), moves).received == [Message(5, a), Message(5, b)]
  {
    var first := ReachOneArmed(listen);
    var w := Run(Start(listen), first);
    TwoDelivered(w, listen, a, b);
    BothReceived(w, listen, a, b);
    var w1 := Next(Next(w, Received(1, a, true)), Received(1, b, true));
    var rest := OutOfTurn(w1, listen, a, b);
    NothingReceived(w1, rest);
    RunTwo(w, Received(1, a, true), Received(1, b, true), rest);
    var all := [Received(1, a, true)] + ([Received(1, b, true)] + rest);
    RunConcat(Start(listen), first, all);
    moves := first + all;
  }

  lemma {:induction false} NothingReceived(w: World, moves: seq<Move>)
    requires Possible(w, moves) && forall m | m in moves :: !m.Received?
    ensures Run(w, moves).received == w.received
    decreases |moves|
  {
    if moves != [] {
      assert moves[0] in moves;
      NothingReceived(Next(w, moves[0]), moves[1..]);
    }
  }
}
