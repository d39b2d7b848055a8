/** What is in the shared buffers of io_uring_opt_server.c, and the STATS identity.

    The kernel fills a buffer while other buffers are being read by sends that were queued long
    ago. Since an owned buffer is never in the free ring, what a send carries out is what its
    receive delivered. */
module UringPayload {
  import opened Kernel
  import opened Tags
  import opened BufferRing
  import opened UringOpt
  import opened UringBuffers
  import opened UringRearm

  function CqeMessage(c: Cqe, storage: seq<Bytes>): seq<Message> {
    if c.IsData() then [Delivered(c, storage)] else []
  }

  /** The messages of receive completions not yet processed, as the buffers hold them. */
  function CqMessages(cq: seq<Cqe>, storage: seq<Bytes>): seq<Message> {
    if cq == [] then [] else CqeMessage(cq[0], storage) + CqMessages(cq[1..], storage)
  }

  function OpMessage(op: Op, storage: seq<Bytes>): seq<Message> {
    if op.Send? then [Message(op.fd, Payload(storage, op.bid, op.len))] else []
  }

  /** What the outstanding sends would carry out now. */
  function OpMessages(ops: seq<Op>, storage: seq<Bytes>): seq<Message> {
    if ops == [] then [] else OpMessage(ops[0], storage) + OpMessages(ops[1..], storage)
  }

  lemma {:induction false} CqMessagesConcat(a: seq<Cqe>, b: seq<Cqe>, storage: seq<Bytes>)
    ensures CqMessages(a + b, storage) == CqMessages(a, storage) + CqMessages(b, storage)
  {
    if a == [] {
      assert a + b == b;
    } else {
      assert (a + b)[0] == a[0] && (a + b)[1..] == a[1..] + b;
      CqMessagesConcat(a[1..], b, storage);
    }
  }

  lemma {:induction false} OpMessagesConcat(a: seq<Op>, b: seq<Op>, storage: seq<Bytes>)
    ensures OpMessages(a + b, storage) == OpMessages(a, storage) + OpMessages(b, storage)
  {
    if a == [] {
      assert a + b == b;
    } else {
      assert (a + b)[0] == a[0] && (a + b)[1..] == a[1..] + b;
      OpMessagesConcat(a[1..], b, storage);
    }
  }

  lemma CqMessagesPost(cq: seq<Cqe>, c: Cqe, storage: seq<Bytes>)
    ensures CqMessages(cq + [c], storage) == CqMessages(cq, storage) + CqeMessage(c, storage)
  {
    CqMessagesConcat(cq, [c], storage);
    assert [c][1..] == [];
  }

  lemma OpMessagesPush(ops: seq<Op>, op: Op, storage: seq<Bytes>)
    ensures OpMessages(ops + [op], storage) == OpMessages(ops, storage) + OpMessage(op, storage)
  {
    OpMessagesConcat(ops, [op], storage);
    assert [op][1..] == [];
  }

  lemma OpMessagesWithout(s: seq<Op>, i: nat, storage: seq<Bytes>)
    requires i < |s|
    ensures multiset(OpMessages(Without(s, i), storage)) + multiset(OpMessage(s[i], storage))
         == multiset(OpMessages(s, storage))
  {
    Around(s, i);
    OpMessagesMiddle(s[..i], s[i], s[i + 1..], storage);
  }

  lemma OpMessagesMiddle(before: seq<Op>, op: Op, after: seq<Op>, storage: seq<Bytes>)
    ensures multiset(OpMessages(before + after, storage)) + multiset(OpMessage(op, storage))
         == multiset(OpMessages(before + [op] + after, storage))
  {
    OpMessagesConcat(before, after, storage);
    OpMessagesConcat(before + [op], after, storage);
    OpMessagesConcat(before, [op], storage);
    assert [op][1..] == [];
  }

  // ---------------------------------------------------------------- a refill touches no owner

  /** Filling a buffer that no operation holds leaves their messages as they are. */
  lemma {:induction false} OpMessagesFrame(ops: seq<Op>, storage: seq<Bytes>, bid: nat, data: Bytes)
    requires bid < |storage| && bid !in OpBids(ops)
    ensures OpMessages(ops, storage[bid := data]) == OpMessages(ops, storage)
  {
    if ops != [] {
      assert forall b | b in OpBids(ops[1..]) :: b in OpBids(ops);
      assert forall b | b in OpBid(ops[0]) :: b in OpBids(ops);
      OpMessagesFrame(ops[1..], storage, bid, data);
      if ops[0].Send? {
        assert ops[0].bid in OpBid(ops[0]);
      }
    }
  }

  lemma {:induction false} CqMessagesFrame(cq: seq<Cqe>, storage: seq<Bytes>, bid: nat, data: Bytes)
    requires bid < |storage| && bid !in CqBids(cq)
    ensures CqMessages(cq, storage[bid := data]) == CqMessages(cq, storage)
  {
    if cq != [] {
      assert forall b | b in CqBids(cq[1..]) :: b in CqBids(cq);
      assert forall b | b in CqeBid(cq[0]) :: b in CqBids(cq);
      CqMessagesFrame(cq[1..], storage, bid, data);
      if cq[0].IsData() {
        assert cq[0].Bid() in CqeBid(cq[0]);
      }
    }
  }

  /** The buffer the kernel is about to fill belongs to nobody else. */
  lemma NextBufferUnowned(w: World)
    requires Conserved(w) && w.u.free != []
    ensures w.u.free[0] !in OpBids(w.u.Outstanding()) && w.u.free[0] !in CqBids(w.cq)
  {
    var b := w.u.free[0];
    PrefixOnce(BUF_RING_ENTRIES, b);
    assert AllBids()[..BUF_RING_ENTRIES] == AllBids();
    assert b in multiset(w.u.free);
    assert Held(w)[b] <= 1;
  }

  // ---------------------------------------------------------------- the invariant

  /** Received = processed, then still queued. */
  ghost predicate InOrder(w: World) {
    && w.received == w.processed + CqMessages(w.cq, w.storage)
    && |w.processed| == |w.handed| + w.drops
    && (w.drops == 0 ==> w.handed == w.processed)
    && Within(w.handed, w.processed)
  }

  /** The elements of a occur in b in the same order. */
  ghost predicate Within(a: seq<Message>, b: seq<Message>)
    decreases |b|
  {
    if b == [] then a == []
    else
      var init, last := b[..|b| - 1], b[|b| - 1];
      Within(a, init) || (a != [] && a[|a| - 1] == last && Within(a[..|a| - 1], init))
  }

  lemma WithinAppend(a: seq<Message>, b: seq<Message>, x: Message)
    requires Within(a, b)
    ensures Within(a, b + [x]) && Within(a + [x], b + [x])
  {
    assert (b + [x])[..|b|] == b && (a + [x])[..|a|] == a;
  }

  /** Handed = carried out, or outstanding. */
  ghost predicate CarriedOut(w: World) {
    multiset(w.handed) == multiset(w.sent) + multiset(OpMessages(w.u.Outstanding(), w.storage))
  }

  ghost predicate Faithful(w: World) {
    InOrder(w) && CarriedOut(w)
  }

  ghost predicate Good(w: World, listen: nat) {
    Valid(w, listen) && Conserved(w) && Faithful(w)
  }

  /** A process step adds at most one send, the one that carries its completion's bytes. */
  lemma HandleMessages(u: User, c: Cqe, flush1: nat, flush2: nat, storage: seq<Bytes>)
    ensures OpMessages(Handle(u, c, flush1, flush2).Outstanding(), storage) ==
            OpMessages(u.Outstanding(), storage)
            + if c.IsData() && u.HasSqe(flush1) then [Delivered(c, storage)] else []
  {
    var fd := TagFd(c.tag);
    if TagType(c.tag) == EVENT_ACCEPT {
      AcceptMessages(u, c, flush1, flush2, storage);
    } else if TagType(c.tag) == EVENT_RECV {
      if c.res > 0 {
        DataMessages(u, c, flush1, flush2, storage);
      } else if c.res == -ENOBUFS {
        PushRecvMessages(u, fd, flush1, storage);
        RearmMessages(u.Push(Recv(fd), flush1), c, fd, flush2, storage);
      } else if c.Transient() {
        RearmMessages(u, c, fd, flush1, storage);
        RearmMessages(u.Rearm(c, fd, flush1), c, fd, flush2, storage);
      }
    } else if TagType(c.tag) == EVENT_SEND {
      assert Handle(u, c, flush1, flush2).Outstanding() == u.Outstanding();
    }
  }

  lemma PushMessages(u: User, op: Op, flush: nat, storage: seq<Bytes>)
    ensures OpMessages(u.Push(op, flush).Outstanding(), storage) ==
            OpMessages(u.Outstanding(), storage) + if u.HasSqe(flush) then OpMessage(op, storage) else []
  {
    PushOutstanding(u, op, flush);
    if u.HasSqe(flush) {
      OpMessagesPush(u.Outstanding(), op, storage);
    } else {
      assert u.Outstanding() + [] == u.Outstanding();
    }
  }

  lemma PushRecvMessages(u: User, fd: nat, flush: nat, storage: seq<Bytes>)
    ensures OpMessages(u.Push(Recv(fd), flush).Outstanding(), storage) == OpMessages(u.Outstanding(), storage)
  {
    PushMessages(u, Recv(fd), flush, storage);
  }

  lemma RearmMessages(u: User, c: Cqe, fd: nat, flush: nat, storage: seq<Bytes>)
    ensures OpMessages(u.Rearm(c, fd, flush).Outstanding(), storage) == OpMessages(u.Outstanding(), storage)
  {
    PushRecvMessages(u, fd, flush, storage);
  }

  lemma AcceptMessages(u: User, c: Cqe, flush1: nat, flush2: nat, storage: seq<Bytes>)
    ensures OpMessages(HandleAccept(u, c, flush1, flush2).Outstanding(), storage) ==
            OpMessages(u.Outstanding(), storage)
  {
    if 0 <= c.res < MAX_FDS {
      PushRecvMessages(u.(active := u.active + {c.res as nat}), c.res as nat, flush1, storage);
    }
    PushMessages(Admit(u, c.res, flush1), Accept(TagFd(c.tag)), flush2, storage);
  }

  lemma DataMessages(u: User, c: Cqe, flush1: nat, flush2: nat, storage: seq<Bytes>)
    requires c.IsData()
    ensures OpMessages(HandleRecv(u, c, flush1, flush2).Outstanding(), storage) ==
            OpMessages(u.Outstanding(), storage) + if u.HasSqe(flush1) then [Delivered(c, storage)] else []
  {
    var op := Send(TagFd(c.tag), c.Bid(), c.res as nat);
    var v := u.(events := u.events + 1);
    var x := v.PushSend(op, flush1);
    assert HandleRecv(u, c, flush1, flush2) == x.Rearm(c, op.fd, flush2);
    PushMessages(v, op, flush1, storage);
    RearmMessages(x, c, op.fd, flush2, storage);
    assert x.Outstanding() == v.Push(op, flush1).Outstanding();
    assert v.HasSqe(flush1) == u.HasSqe(flush1) && v.Outstanding() == u.Outstanding();
  }

  lemma ProcessInOrder(w: World, flush1: nat, flush2: nat)
    requires InOrder(w) && Enabled(w, Process(flush1, flush2))
    ensures InOrder(Next(w, Process(flush1, flush2)))
  {
    var d := Delivered(w.cq[0], w.storage);
    var rest := CqMessages(w.cq[1..], w.storage);
    if w.cq[0].IsData() {
      WithinAppend(w.handed, w.processed, d);
      MovesOver(w.processed, d, rest);
    } else {
      assert [] + rest == rest;
    }
  }

  lemma MovesOver(a: seq<Message>, m: Message, b: seq<Message>)
    ensures a + ([m] + b) == (a + [m]) + b
  {
  }

  lemma ProcessCarried(w: World, flush1: nat, flush2: nat)
    requires CarriedOut(w) && Enabled(w, Process(flush1, flush2))
    ensures CarriedOut(Next(w, Process(flush1, flush2)))
  {
    var c := w.cq[0];
    HandleMessages(w.u, c, flush1, flush2, w.storage);
    var before := OpMessages(w.u.Outstanding(), w.storage);
    if !(c.IsData() && w.u.HasSqe(flush1)) {
      assert before + [] == before;
    }
  }

  lemma SendDoneFaithful(w: World, i: nat, res: int, listen: nat)
    requires Good(w, listen) && Enabled(w, SendDone(i, res))
    ensures Faithful(Next(w, SendDone(i, res)))
  {
    var op := w.u.armed[i];
    OpTag(op, listen);
    SendCarried(w.u, i, w.storage);
    CqMessagesPost(w.cq, Cqe(op.Tag(), res, 0), w.storage);
    assert CqMessages(w.cq, w.storage) + [] == CqMessages(w.cq, w.storage);
  }

  lemma SendCarried(u: User, i: nat, storage: seq<Bytes>)
    requires i < |u.armed|
    ensures multiset(OpMessages(Completed(u, i, false).Outstanding(), storage))
            + multiset(OpMessage(u.armed[i], storage)) == multiset(OpMessages(u.Outstanding(), storage))
  {
    CompletedOutstanding(u, i);
    OpMessagesWithout(u.Outstanding(), i, storage);
  }

  /** Completing an operation that is no send leaves the sends as they are. */
  lemma CompletedMessages(u: User, i: nat, more: bool, storage: seq<Bytes>)
    requires i < |u.armed| && !u.armed[i].Send?
    ensures multiset(OpMessages(Completed(u, i, more).Outstanding(), storage)) ==
            multiset(OpMessages(u.Outstanding(), storage))
  {
    if !more {
      CompletedOutstanding(u, i);
      OpMessagesWithout(u.Outstanding(), i, storage);
    }
  }

  /** The completion of a receive, read from its freshly filled buffer. */
  lemma FilledMessage(op: Op, data: Bytes, bid: nat, more: bool, storage: seq<Bytes>, listen: nat)
    requires op.Recv? && op.Valid(listen) && data != [] && bid < |storage| && storage[bid] == data
    ensures CqeMessage(Cqe(op.Tag(), |data|, Flags(bid, more)), storage) == [Message(op.fd, data)]
  {
    OpTag(op, listen);
    FlagsRoundTrip(op.Tag(), |data|, bid, more);
    assert data[..|data|] == data;
  }

  /** A receive adds its message behind those that wait, and spoils none of them. */
  lemma ReceivedQueue(w: World, i: nat, data: Bytes, more: bool, listen: nat)
    requires Good(w, listen) && Enabled(w, Received(i, data, more))
    ensures var v := Next(w, Received(i, data, more));
      CqMessages(v.cq, v.storage) == CqMessages(w.cq, w.storage) + [Message(w.u.armed[i].fd, data)]
  {
    var op, bid := w.u.armed[i], w.u.free[0];
    assert bid in w.u.free && op in w.u.armed;
    var storage := w.storage[bid := data];
    NextBufferUnowned(w);
    FilledMessage(op, data, bid, more, storage, listen);
    CqMessagesPost(w.cq, Cqe(op.Tag(), |data|, Flags(bid, more)), storage);
    CqMessagesFrame(w.cq, w.storage, bid, data);
  }

  lemma ReceivedInOrder(w: World, i: nat, data: Bytes, more: bool, listen: nat)
    requires Good(w, listen) && Enabled(w, Received(i, data, more))
    ensures InOrder(Next(w, Received(i, data, more)))
  {
    var d := Message(w.u.armed[i].fd, data);
    ReceivedQueue(w, i, data, more, listen);
    assert w.processed + (CqMessages(w.cq, w.storage) + [d]) == w.received + [d];
  }

  lemma ReceivedCarried(w: World, i: nat, data: Bytes, more: bool, listen: nat)
    requires Good(w, listen) && Enabled(w, Received(i, data, more))
    ensures CarriedOut(Next(w, Received(i, data, more)))
  {
    var bid := w.u.free[0];
    assert bid in w.u.free;
    NextBufferUnowned(w);
    OpMessagesFrame(w.u.Outstanding(), w.storage, bid, data);
    CompletedMessages(w.u.(free := w.u.free[1..]), i, more, w.storage[bid := data]);
  }

  /** A completion without data changes neither what is queued nor what is outstanding. */
  lemma EndedFaithful(w: World, i: nat, more: bool, c: Cqe)
    requires Faithful(w) && i < |w.u.armed| && !w.u.armed[i].Send? && !c.IsData()
    ensures Faithful(w.(u := Completed(w.u, i, more), cq := w.cq + [c]))
  {
    CompletedMessages(w.u, i, more, w.storage);
    CqMessagesPost(w.cq, c, w.storage);
    assert CqMessages(w.cq, w.storage) + [] == CqMessages(w.cq, w.storage);
  }

  lemma NextFaithful(w: World, m: Move, listen: nat)
    requires Good(w, listen) && Enabled(w, m)
    ensures Faithful(Next(w, m))
  {
    match m
    case Submit(k) => FlushOutstanding(w.u, k);
    case Received(i, data, more) =>
      ReceivedInOrder(w, i, data, more, listen);
      ReceivedCarried(w, i, data, more, listen);
    case SendDone(i, res) => SendDoneFaithful(w, i, res, listen);
    case Process(flush1, flush2) =>
      ProcessInOrder(w, flush1, flush2);
      ProcessCarried(w, flush1, flush2);
    case _ =>
      OpTag(w.u.armed[m.i], listen);
      EndedFaithful(w, m.i, m.more, Cqe(w.u.armed[m.i].Tag(), m.res, if m.more then 2 else 0));
  }

  lemma {:induction false} RunGood(w: World, moves: seq<Move>, listen: nat)
    requires Good(w, listen) && Possible(w, moves)
    ensures Good(Run(w, moves), listen)
    decreases |moves|
  {
    if moves != [] {
      NextValid(w, moves[0], listen);
      NextConserved(w, moves[0], listen);
      NextFaithful(w, moves[0], listen);
      RunGood(Next(w, moves[0]), moves[1..], listen);
    }
  }

  /** Payload integrity over every run: what the kernel delivered is, in order, what the loop has
      processed followed by what is still queued, each message read from its buffer unspoiled;
      what is handed to sends is part of it, in the same order, with exactly the dropped messages
      missing; and what has been handed is what has been carried out together with what the
      outstanding sends still hold. */
  lemma EveryByteKept(listen: nat, moves: seq<Move>)
    requires listen < MAX_FDS && Possible(Start(listen), moves)
    ensures var w := Run(Start(listen), moves);
      && w.received == w.processed + CqMessages(w.cq, w.storage)
      && Within(w.handed, w.processed) && |w.processed| == |w.handed| + w.drops
      && multiset(w.handed) == multiset(w.sent) + multiset(OpMessages(w.u.Outstanding(), w.storage))
  {
    StartGood(listen);
    RunGood(Start(listen), moves, listen);
  }

  lemma StartGood(listen: nat)
    requires listen < MAX_FDS
    ensures Good(Start(listen), listen)
  {
    StartConserved(listen);
    OpMessagesPush([], Accept(listen), seq(BUF_RING_ENTRIES, _ => []));
    assert [] + [Accept(listen)] == [Accept(listen)];
  }

  /** The processing of data finds an entry: there is room, or the one flush makes some. */
  predicate FindsEntry(w: World, m: Move) {
    m.Process? && w.cq != [] && w.cq[0].IsData() ==> Room(w.u, m.flush1)
  }

  ghost predicate AlwaysFinds(w: World, moves: seq<Move>)
    requires Possible(w, moves)
    decreases |moves|
  {
    moves != [] ==> FindsEntry(w, moves[0]) && AlwaysFinds(Next(w, moves[0]), moves[1..])
  }

  lemma NextDropsIff(w: World, m: Move)
    requires Enabled(w, m) && |w.u.sq| <= ENTRIES
    ensures |Next(w, m).u.sq| <= ENTRIES
    ensures Next(w, m).drops == w.drops + One(!FindsEntry(w, m))
  {
    if m.Process? {
      HandleBounded(w.u, w.cq[0], m.flush1, m.flush2);
      HasSqeIff(w.u, m.flush1);
    }
  }

  lemma {:induction false} RunDropsIff(w: World, moves: seq<Move>)
    requires Possible(w, moves) && |w.u.sq| <= ENTRIES
    ensures Run(w, moves).drops >= w.drops
    ensures Run(w, moves).drops == w.drops <==> AlwaysFinds(w, moves)
    decreases |moves|
  {
    if moves != [] {
      NextDropsIff(w, moves[0]);
      RunDropsIff(Next(w, moves[0]), moves[1..]);
    }
  }

  /** What the kernel delivers is, in order, what is handed to sends followed by what is still
      queued, exactly in the runs where every processing of data finds an entry. */
  lemma EveryByteHandedIff(listen: nat, moves: seq<Move>)
    requires listen < MAX_FDS && Possible(Start(listen), moves)
    ensures var w := Run(Start(listen), moves);
      w.received == w.handed + CqMessages(w.cq, w.storage) <==> AlwaysFinds(Start(listen), moves)
  {
    var w := Run(Start(listen), moves);
    StartGood(listen);
    RunGood(Start(listen), moves, listen);
    RunDropsIff(Start(listen), moves);
    assert |w.received| == |w.processed| + |CqMessages(w.cq, w.storage)|;
  }

  lemma {:induction false} FlushesFind(w: World, moves: seq<Move>)
    requires Possible(w, moves) && forall m | m in moves :: FlushWorks(m)
    ensures AlwaysFinds(w, moves)
    decreases |moves|
  {
    if moves != [] {
      assert moves[0] in moves;
      FlushesFind(Next(w, moves[0]), moves[1..]);
    }
  }

  /** In particular nothing is dropped where the flush of a full queue takes an entry. */
  lemma EveryByteHanded(listen: nat, moves: seq<Move>)
    requires listen < MAX_FDS && Possible(Start(listen), moves)
    requires forall m | m in moves :: FlushWorks(m)
    ensures var w := Run(Start(listen), moves);
      w.drops == 0 && w.received == w.handed + CqMessages(w.cq, w.storage)
  {
    FlushesFind(Start(listen), moves);
    RunDropsIff(Start(listen), moves);
    EveryByteHandedIff(listen, moves);
  }

  // ---------------------------------------------------------------- a buffer in use stays as it is

  /** The buffer is never free during the run. */
  ghost predicate InUseThroughout(w: World, moves: seq<Move>, bid: nat)
    requires Possible(w, moves)
    decreases |moves|
  {
    bid !in w.u.free && (moves != [] ==> InUseThroughout(Next(w, moves[0]), moves[1..], bid))
  }

  /** From the receive that fills a buffer to the end of the send that reads it, that is for as long
      as the buffer is not free, no step of kernel or process changes what is in it. */
  lemma {:induction false} InUseKeepsBytes(w: World, moves: seq<Move>, bid: nat)
    requires Possible(w, moves) && InUseThroughout(w, moves, bid) && bid < |w.storage|
    ensures |Run(w, moves).storage| == |w.storage| && Run(w, moves).storage[bid] == w.storage[bid]
    decreases |moves|
  {
    if moves != [] {
      if moves[0].Received? {
        assert w.u.free[0] in w.u.free;
      }
      InUseKeepsBytes(Next(w, moves[0]), moves[1..], bid);
    }
  }

  predicate FromReceive(op: Op, bid: nat, fd: nat, len: nat) {
    op.Send? && op.bid == bid ==> op.fd == fd && op.len == len
  }

  /** Whatever refers to the buffer refers to one receive, of len bytes on fd. */
  ghost predicate Marked(u: User, cq: seq<Cqe>, bid: nat, fd: nat, len: nat) {
    && (forall c | c in cq :: c.IsData() && c.Bid() == bid ==> TagFd(c.tag) == fd && c.res == len)
    && (forall op | op in u.Outstanding() :: FromReceive(op, bid, fd, len))
  }

  lemma PushMarked(u: User, cq: seq<Cqe>, op: Op, flush: nat, bid: nat, fd: nat, len: nat)
    requires Marked(u, cq, bid, fd, len) && FromReceive(op, bid, fd, len)
    ensures Marked(u.Push(op, flush), cq, bid, fd, len)
    ensures op.Send? ==> Marked(u.PushSend(op, flush), cq, bid, fd, len)
  {
    PushOutstanding(u, op, flush);
  }

  lemma RearmMarked(u: User, cq: seq<Cqe>, c: Cqe, to: nat, flush: nat, bid: nat, fd: nat, len: nat)
    requires Marked(u, cq, bid, fd, len)
    ensures Marked(u.Rearm(c, to, flush), cq, bid, fd, len)
  {
    PushMarked(u, cq, Recv(to), flush, bid, fd, len);
  }

  lemma AcceptMarked(u: User, cq: seq<Cqe>, c: Cqe, flush1: nat, flush2: nat, bid: nat, fd: nat, len: nat)
    requires Marked(u, cq, bid, fd, len)
    ensures Marked(HandleAccept(u, c, flush1, flush2), cq, bid, fd, len)
  {
    if 0 <= c.res < MAX_FDS {
      var v := u.(active := u.active + {c.res as nat});
      assert v.Outstanding() == u.Outstanding();
      PushMarked(v, cq, Recv(c.res as nat), flush1, bid, fd, len);
    }
    PushMarked(Admit(u, c.res, flush1), cq, Accept(TagFd(c.tag)), flush2, bid, fd, len);
  }

  lemma RecvMarked(u: User, cq: seq<Cqe>, c: Cqe, flush1: nat, flush2: nat, bid: nat, fd: nat, len: nat)
    requires Marked(u, cq, bid, fd, len)
    requires TagType(c.tag) == EVENT_RECV && (c.IsData() && c.Bid() == bid ==> TagFd(c.tag) == fd && c.res == len)
    ensures Marked(HandleRecv(u, c, flush1, flush2), cq, bid, fd, len)
  {
    var to := TagFd(c.tag);
    if c.res > 0 {
      var op := Send(to, c.Bid(), c.res as nat);
      var v := u.(events := u.events + 1);
      assert v.Outstanding() == u.Outstanding();
      PushMarked(v, cq, op, flush1, bid, fd, len);
      RearmMarked(v.PushSend(op, flush1), cq, c, to, flush2, bid, fd, len);
    } else if c.res == -ENOBUFS {
      PushMarked(u, cq, Recv(to), flush1, bid, fd, len);
      RearmMarked(u.Push(Recv(to), flush1), cq, c, to, flush2, bid, fd, len);
    } else if c.Transient() {
      RearmMarked(u, cq, c, to, flush1, bid, fd, len);
      RearmMarked(u.Rearm(c, to, flush1), cq, c, to, flush2, bid, fd, len);
    }
  }

  lemma ProcessMarked(w: World, flush1: nat, flush2: nat, bid: nat, fd: nat, len: nat)
    requires w.cq != [] && Marked(w.u, w.cq, bid, fd, len)
    ensures Marked(Handle(w.u, w.cq[0], flush1, flush2), w.cq[1..], bid, fd, len)
  {
    var c := w.cq[0];
    assert c in w.cq && forall x | x in w.cq[1..] :: x in w.cq;
    if TagType(c.tag) == EVENT_ACCEPT {
      AcceptMarked(w.u, w.cq[1..], c, flush1, flush2, bid, fd, len);
    } else if TagType(c.tag) == EVENT_RECV {
      RecvMarked(w.u, w.cq[1..], c, flush1, flush2, bid, fd, len);
    } else {
      assert Handle(w.u, c, flush1, flush2).Outstanding() == w.u.Outstanding();
    }
  }

  lemma NextMarked(w: World, m: Move, listen: nat, bid: nat, fd: nat, len: nat)
    requires Valid(w, listen) && Enabled(w, m) && bid !in w.u.free && Marked(w.u, w.cq, bid, fd, len)
    ensures Marked(Next(w, m).u, Next(w, m).cq, bid, fd, len)
  {
    if m.Submit? {
      FlushOutstanding(w.u, m.k);
    } else if m.Process? {
      ProcessMarked(w, m.flush1, m.flush2, bid, fd, len);
    } else {
      var op := w.u.armed[m.i];
      OpTag(op, listen);
      WithoutMembers(w.u.armed, m.i);
      assert forall x | x in Next(w, m).u.Outstanding() :: x in w.u.Outstanding();
      if m.Received? {
        assert w.u.free[0] in w.u.free;
        FlagsRoundTrip(op.Tag(), |m.data|, w.u.free[0], m.more);
      }
    }
  }

  lemma {:induction false} RunMarked(w: World, moves: seq<Move>, listen: nat, bid: nat, fd: nat, len: nat)
    requires Valid(w, listen) && Possible(w, moves) && InUseThroughout(w, moves, bid)
    requires Marked(w.u, w.cq, bid, fd, len)
    ensures Marked(Run(w, moves).u, Run(w, moves).cq, bid, fd, len)
    decreases |moves|
  {
    if moves != [] {
      NextValid(w, moves[0], listen);
      NextMarked(w, moves[0], listen, bid, fd, len);
      RunMarked(Next(w, moves[0]), moves[1..], listen, bid, fd, len);
    }
  }

  /** When a receive has filled a free buffer, only its own completion refers to it. */
  lemma FilledMarked(w: World, i: nat, data: Bytes, more: bool, listen: nat)
    requires Valid(w, listen) && Conserved(w) && Enabled(w, Received(i, data, more))
    ensures var v := Next(w, Received(i, data, more)); Marked(v.u, v.cq, w.u.free[0], w.u.armed[i].fd, |data|)
  {
    var bid, op := w.u.free[0], w.u.armed[i];
    NextBufferUnowned(w);
    OpTag(op, listen);
    FlagsRoundTrip(op.Tag(), |data|, bid, more);
    WithoutMembers(w.u.armed, i);
    forall x | x in w.u.Outstanding() && x.Send? ensures x.bid != bid {
      SendListed(w.u.Outstanding(), x);
    }
    forall c | c in w.cq && c.IsData() ensures c.Bid() != bid {
      DataListed(w.cq, c);
    }
  }

  lemma {:induction false} SendListed(ops: seq<Op>, x: Op)
    requires x in ops && x.Send?
    ensures x.bid in OpBids(ops)
  {
    if ops[0] != x {
      SendListed(ops[1..], x);
    } else {
      assert x.bid in OpBid(ops[0]);
    }
  }

  lemma {:induction false} DataListed(cq: seq<Cqe>, c: Cqe)
    requires c in cq && c.IsData()
    ensures c.Bid() in CqBids(cq)
  {
    if cq[0] != c {
      DataListed(cq[1..], c);
    } else {
      assert c.Bid() in CqeBid(cq[0]);
    }
  }

  /** Every single message: if a receive fills a buffer, and the buffer is in use from then until a
      send of it completes, that send carries out exactly the bytes of that receive, to its
      descriptor, whatever happened in between. */
  lemma OwnBytesCarried(w: World, i: nat, data: Bytes, more: bool, between: seq<Move>, j: nat, res: int, listen: nat)
    requires Valid(w, listen) && Conserved(w) && Enabled(w, Received(i, data, more))
    requires Possible(Next(w, Received(i, data, more)), between)
    requires InUseThroughout(Next(w, Received(i, data, more)), between, w.u.free[0])
    requires var v := Run(Next(w, Received(i, data, more)), between);
      Enabled(v, SendDone(j, res)) && v.u.armed[j].bid == w.u.free[0]
    ensures var v := Run(Next(w, Received(i, data, more)), between);
      Next(v, SendDone(j, res)).sent == v.sent + [Message(w.u.armed[i].fd, data)]
  {
    var bid, w1 := w.u.free[0], Next(w, Received(i, data, more));
    var v := Run(w1, between);
    assert bid in w.u.free;
    NextValid(w, Received(i, data, more), listen);
    FilledMarked(w, i, data, more, listen);
    InUseKeepsBytes(w1, between, bid);
    RunMarked(w1, between, listen, bid, w.u.armed[i].fd, |data|);
    assert v.u.armed[j] in v.u.Outstanding();
    assert data[..|data|] == data;
  }

  // ---------------------------------------------------------------- STATS

  function Sends(ops: seq<Op>): nat {
    |OpBids(ops)|
  }

  function SendCqes(cq: seq<Cqe>): nat {
    if cq == [] then 0 else One(cq[0].IsSend()) + SendCqes(cq[1..])
  }

  lemma {:induction false} SendCqesPost(cq: seq<Cqe>, c: Cqe)
    ensures SendCqes(cq + [c]) == SendCqes(cq) + One(c.IsSend())
  {
    if cq == [] {
      assert [] + [c] == [c] && [c][1..] == [];
    } else {
      assert (cq + [c])[0] == cq[0] && (cq + [c])[1..] == cq[1..] + [c];
      SendCqesPost(cq[1..], c);
    }
  }

  /** Counted receives = counted requests, sends on their way, sends that failed, and drops. */
  ghost predicate Accounted(w: World) {
    w.u.events == w.u.requests + Sends(w.u.Outstanding()) + SendCqes(w.cq) + w.failed + w.drops
  }

  lemma PushSends(u: User, op: Op, flush: nat)
    ensures Sends(u.Push(op, flush).Outstanding()) == Sends(u.Outstanding()) + One(op.Send? && u.HasSqe(flush))
    ensures u.Push(op, flush).events == u.events && u.Push(op, flush).requests == u.requests
  {
    PushOutstanding(u, op, flush);
    OpBidsConcat(u.Outstanding(), [op]);
    OpBidsOne(op);
    assert u.Outstanding() + [] == u.Outstanding();
  }

  lemma RearmSends(u: User, c: Cqe, fd: nat, flush: nat)
    ensures var v := u.Rearm(c, fd, flush);
      Sends(v.Outstanding()) == Sends(u.Outstanding()) && v.events == u.events && v.requests == u.requests
  {
    PushSends(u, Recv(fd), flush);
  }

  lemma DataSends(u: User, c: Cqe, flush1: nat, flush2: nat)
    requires c.IsData()
    ensures var v := HandleRecv(u, c, flush1, flush2);
      && Sends(v.Outstanding()) == Sends(u.Outstanding()) + One(u.HasSqe(flush1))
      && v.events == u.events + 1 && v.requests == u.requests
  {
    var op := Send(TagFd(c.tag), c.Bid(), c.res as nat);
    var v := u.(events := u.events + 1);
    var x := v.PushSend(op, flush1);
    assert HandleRecv(u, c, flush1, flush2) == x.Rearm(c, op.fd, flush2);
    PushSends(v, op, flush1);
    RearmSends(x, c, op.fd, flush2);
    assert x.Outstanding() == v.Push(op, flush1).Outstanding();
    assert v.HasSqe(flush1) == u.HasSqe(flush1) && v.Outstanding() == u.Outstanding();
  }

  lemma HandleSends(u: User, c: Cqe, flush1: nat, flush2: nat)
    ensures var v := Handle(u, c, flush1, flush2);
      && Sends(v.Outstanding()) == Sends(u.Outstanding()) + One(c.IsData() && u.HasSqe(flush1))
      && v.events == u.events + One(c.IsData())
      && v.requests == u.requests + One(c.IsSend() && c.res > 0)
  {
    var fd := TagFd(c.tag);
    if TagType(c.tag) == EVENT_ACCEPT {
      if 0 <= c.res < MAX_FDS {
        PushSends(u.(active := u.active + {c.res as nat}), Recv(c.res as nat), flush1);
      }
      PushSends(Admit(u, c.res, flush1), Accept(fd), flush2);
    } else if TagType(c.tag) == EVENT_RECV {
      if c.res > 0 {
        DataSends(u, c, flush1, flush2);
      } else if c.res == -ENOBUFS {
        PushSends(u, Recv(fd), flush1);
        RearmSends(u.Push(Recv(fd), flush1), c, fd, flush2);
      } else if c.Transient() {
        RearmSends(u, c, fd, flush1);
        RearmSends(u.Rearm(c, fd, flush1), c, fd, flush2);
      }
    }
  }

  lemma CompletedSends(u: User, i: nat, more: bool)
    requires i < |u.armed| && (u.armed[i].Send? ==> !more)
    ensures Sends(Completed(u, i, more).Outstanding()) == Sends(u.Outstanding()) - One(u.armed[i].Send?)
  {
    if !more {
      CompletedOutstanding(u, i);
      OpBidsWithout(u.Outstanding(), i);
      var before, after := OpBids(u.Outstanding()), OpBids(Without(u.Outstanding(), i));
      assert |multiset(after) + multiset(OpBid(u.armed[i]))| == |multiset(before)|;
      assert |multiset(after)| == |after| && |multiset(before)| == |before|;
    }
  }

  lemma NextAccounted(w: World, m: Move, listen: nat)
    requires Valid(w, listen) && Accounted(w) && Enabled(w, m)
    ensures Accounted(Next(w, m))
  {
    match m
    case Submit(k) => FlushOutstanding(w.u, k);
    case Process(flush1, flush2) => HandleSends(w.u, w.cq[0], flush1, flush2);
    case Received(i, data, more) =>
      OpTag(w.u.armed[i], listen);
      CompletedSends(w.u.(free := w.u.free[1..]), i, more);
      SendCqesPost(w.cq, Cqe(w.u.armed[i].Tag(), |data|, Flags(w.u.free[0], more)));
    case SendDone(i, res) =>
      OpTag(w.u.armed[i], listen);
      CompletedSends(w.u, i, false);
      SendCqesPost(w.cq, Cqe(w.u.armed[i].Tag(), res, 0));
    case _ =>
      OpTag(w.u.armed[m.i], listen);
      CompletedSends(w.u, m.i, m.more);
      SendCqesPost(w.cq, Cqe(w.u.armed[m.i].Tag(), m.res, if m.more then 2 else 0));
  }

  lemma {:induction false} RunAccounted(w: World, moves: seq<Move>, listen: nat)
    requires Valid(w, listen) && Accounted(w) && Possible(w, moves)
    ensures Accounted(Run(w, moves))
    decreases |moves|
  {
    if moves != [] {
      NextValid(w, moves[0], listen);
      NextAccounted(w, moves[0], listen);
      RunAccounted(Next(w, moves[0]), moves[1..], listen);
    }
  }
}
