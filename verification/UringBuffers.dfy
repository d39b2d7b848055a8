/** Who owns each of the 8192 buffers of io_uring_opt_server.c, and what is in it.

    In every reachable state each buffer id is exactly once among: the free ring, the receive
    completions not yet processed, the sends not yet completed, and the send completions not yet
    processed. So no buffer is filled again while a send still reads it, and every byte received
    is handed to a send, and carried out, as it was received. */
module UringBuffers {
  import opened Kernel
  import opened Tags
  import opened BufferRing
  import opened UringOpt

  // ---------------------------------------------------------------- owners

  function OpBid(op: Op): seq<nat> {
    if op.Send? then [op.bid] else []
  }

  /** The buffers that operations hold. */
  function OpBids(ops: seq<Op>): seq<nat> {
    if ops == [] then [] else OpBid(ops[0]) + OpBids(ops[1..])
  }

  function CqeBid(c: Cqe): seq<nat> {
    if c.IsData() then [c.Bid()] else if c.IsSend() then [TagBid(c.tag)] else []
  }

  /** The buffers that unprocessed completions hold. */
  function CqBids(cq: seq<Cqe>): seq<nat> {
    if cq == [] then [] else CqeBid(cq[0]) + CqBids(cq[1..])
  }

  /** How often each id is in the ring or with an operation. */
  function UserHeld(u: User): multiset<nat> {
    multiset(u.free) + multiset(OpBids(u.Outstanding()))
  }

  function Held(w: World): multiset<nat> {
    UserHeld(w.u) + multiset(CqBids(w.cq))
  }

  lemma {:induction false} OpBidsConcat(a: seq<Op>, b: seq<Op>)
    ensures OpBids(a + b) == OpBids(a) + OpBids(b)
  {
    if a == [] {
      assert a + b == b;
    } else {
      assert (a + b)[0] == a[0] && (a + b)[1..] == a[1..] + b;
      OpBidsConcat(a[1..], b);
    }
  }

  lemma {:induction false} CqBidsConcat(a: seq<Cqe>, b: seq<Cqe>)
    ensures CqBids(a + b) == CqBids(a) + CqBids(b)
  {
    if a == [] {
      assert a + b == b;
    } else {
      assert (a + b)[0] == a[0] && (a + b)[1..] == a[1..] + b;
      CqBidsConcat(a[1..], b);
    }
  }

  lemma OpBidsOne(op: Op)
    ensures OpBids([op]) == OpBid(op)
  {
    assert [op][1..] == [];
  }

  lemma CqBidsOne(c: Cqe)
    ensures CqBids([c]) == CqeBid(c)
  {
    assert [c][1..] == [];
  }

  lemma OpBidsWithout(s: seq<Op>, i: nat)
    requires i < |s|
    ensures multiset(OpBids(Without(s, i))) + multiset(OpBid(s[i])) == multiset(OpBids(s))
  {
    Around(s, i);
    OpBidsMiddle(s[..i], s[i], s[i + 1..]);
  }

  lemma OpBidsMiddle(before: seq<Op>, op: Op, after: seq<Op>)
    ensures multiset(OpBids(before + after)) + multiset(OpBid(op)) == multiset(OpBids(before + [op] + after))
  {
    OpBidsConcat(before, after);
    OpBidsConcat(before + [op], after);
    OpBidsConcat(before, [op]);
    OpBidsOne(op);
  }

  // ---------------------------------------------------------------- the process's steps

  lemma FlushOutstanding(u: User, k: nat)
    ensures u.Flush(k).Outstanding() == u.Outstanding()
  {
    var n := Min(k, |u.sq|);
    assert u.armed + u.sq == (u.armed + u.sq[..n]) + u.sq[n..];
  }

  /** A submission adds one operation, or none if no entry is found. */
  lemma PushOutstanding(u: User, op: Op, flush: nat)
    ensures u.Push(op, flush).Outstanding() ==
            u.Outstanding() + if u.HasSqe(flush) then [op] else []
    ensures u.Push(op, flush).free == u.free && u.Push(op, flush).active == u.active
  {
    FlushOutstanding(u, flush);
    var v := u.MakeRoom(flush);
    assert v.armed + (v.sq + [op]) == (v.armed + v.sq) + [op];
  }

  lemma PushHeld(u: User, op: Op, flush: nat)
    ensures UserHeld(u.Push(op, flush)) ==
            UserHeld(u) + multiset(if u.HasSqe(flush) then OpBid(op) else [])
  {
    PushOutstanding(u, op, flush);
    if u.HasSqe(flush) {
      OpBidsConcat(u.Outstanding(), [op]);
      OpBidsOne(op);
    } else {
      assert u.Outstanding() + [] == u.Outstanding();
    }
  }

  lemma RearmHeld(u: User, c: Cqe, fd: nat, flush: nat)
    ensures UserHeld(u.Rearm(c, fd, flush)) == UserHeld(u)
  {
    PushHeld(u, Recv(fd), flush);
  }

  lemma ReturnHeld(u: User, bid: nat)
    ensures UserHeld(u.Return(bid)) == UserHeld(u) + multiset([bid])
  {
  }

  /** Either the send holds the buffer, or the ring has it back. */
  lemma PushSendHeld(u: User, op: Op, flush: nat)
    requires op.Send?
    ensures UserHeld(u.PushSend(op, flush)) == UserHeld(u) + multiset([op.bid])
  {
    PushHeld(u, op, flush);
    if !u.HasSqe(flush) {
      ReturnHeld(u.Push(op, flush), op.bid);
    }
  }

  /** Processing a completion moves its buffer, if it has one, to the ring or to a send. */
  lemma HandleHeld(u: User, c: Cqe, flush1: nat, flush2: nat)
    ensures UserHeld(Handle(u, c, flush1, flush2)) == UserHeld(u) + multiset(CqeBid(c))
  {
    if TagType(c.tag) == EVENT_ACCEPT {
      AcceptHeld(u, c, flush1, flush2);
    } else if TagType(c.tag) == EVENT_RECV {
      RecvHeld(u, c, flush1, flush2);
    } else if TagType(c.tag) == EVENT_SEND {
      ReturnHeld(u, TagBid(c.tag));
    }
  }

  lemma AcceptHeld(u: User, c: Cqe, flush1: nat, flush2: nat)
    ensures UserHeld(HandleAccept(u, c, flush1, flush2)) == UserHeld(u)
  {
    if 0 <= c.res < MAX_FDS {
      PushHeld(u.(active := u.active + {c.res as nat}), Recv(c.res as nat), flush1);
    }
    PushHeld(Admit(u, c.res, flush1), Accept(TagFd(c.tag)), flush2);
  }

  lemma RecvHeld(u: User, c: Cqe, flush1: nat, flush2: nat)
    requires TagType(c.tag) == EVENT_RECV
    ensures UserHeld(HandleRecv(u, c, flush1, flush2)) == UserHeld(u) + multiset(CqeBid(c))
  {
    if c.res > 0 {
      DataHeld(u, c, flush1, flush2);
      assert CqeBid(c) == [c.Bid()];
    } else {
      NoDataHeld(u, c, flush1, flush2);
      assert CqeBid(c) == [];
    }
  }

  lemma DataHeld(u: User, c: Cqe, flush1: nat, flush2: nat)
    requires c.res > 0
    ensures UserHeld(HandleRecv(u, c, flush1, flush2)) == UserHeld(u) + multiset([c.Bid()])
  {
    var op := Send(TagFd(c.tag), c.Bid(), c.res as nat);
    var v := u.(events := u.events + 1);
    var x := v.PushSend(op, flush1);
    assert HandleRecv(u, c, flush1, flush2) == x.Rearm(c, op.fd, flush2);
    PushSendHeld(v, op, flush1);
    RearmHeld(x, c, op.fd, flush2);
  }

  lemma NoDataHeld(u: User, c: Cqe, flush1: nat, flush2: nat)
    requires c.res <= 0
    ensures UserHeld(HandleRecv(u, c, flush1, flush2)) == UserHeld(u)
  {
    var fd := TagFd(c.tag);
    if c.res == -ENOBUFS {
      PushHeld(u, Recv(fd), flush1);
      RearmHeld(u.Push(Recv(fd), flush1), c, fd, flush2);
    } else if c.Transient() {
      RearmHeld(u, c, fd, flush1);
      RearmHeld(u.Rearm(c, fd, flush1), c, fd, flush2);
    }
  }

  // ---------------------------------------------------------------- conservation

  ghost predicate Conserved(w: World) {
    Held(w) == multiset(AllBids())
  }

  lemma CompletedOutstanding(u: User, i: nat)
    requires i < |u.armed|
    ensures Completed(u, i, false).Outstanding() == Without(u.Outstanding(), i)
    ensures u.Outstanding()[i] == u.armed[i]
  {
  }

  lemma CompletedHeld(u: User, i: nat, more: bool)
    requires i < |u.armed| && (u.armed[i].Send? ==> !more)
    ensures UserHeld(Completed(u, i, more)) + multiset(OpBid(u.armed[i])) == UserHeld(u)
  {
    if !more {
      CompletedOutstanding(u, i);
      OpBidsWithout(u.Outstanding(), i);
    }
  }

  lemma PostHeld(cq: seq<Cqe>, c: Cqe)
    ensures multiset(CqBids(cq + [c])) == multiset(CqBids(cq)) + multiset(CqeBid(c))
  {
    CqBidsConcat(cq, [c]);
    CqBidsOne(c);
  }

  /** A completion takes over the buffer of its operation. */
  lemma CompletionConserved(w: World, i: nat, more: bool, c: Cqe)
    requires i < |w.u.armed| && (w.u.armed[i].Send? ==> !more)
    requires CqeBid(c) == OpBid(w.u.armed[i])
    ensures UserHeld(Completed(w.u, i, more)) + multiset(CqBids(w.cq + [c])) == Held(w)
  {
    CompletedHeld(w.u, i, more);
    PostHeld(w.cq, c);
  }

  /** A completion with its operation's tag and no buffer of its own. */
  lemma TaggedConserved(w: World, i: nat, more: bool, res: int, flags: nat, listen: nat)
    requires Valid(w, listen) && i < |w.u.armed|
    requires if w.u.armed[i].Send? then !more else w.u.armed[i].Recv? ==> res <= 0
    ensures var c := Cqe(w.u.armed[i].Tag(), res, flags);
      UserHeld(Completed(w.u, i, more)) + multiset(CqBids(w.cq + [c])) == Held(w)
  {
    assert w.u.armed[i] in w.u.armed;
    OpTag(w.u.armed[i], listen);
    CompletionConserved(w, i, more, Cqe(w.u.armed[i].Tag(), res, flags));
  }

  lemma NextConserved(w: World, m: Move, listen: nat)
    requires Valid(w, listen) && Enabled(w, m) && Conserved(w)
    ensures Conserved(Next(w, m))
  {
    match m
    case Submit(k) =>
      FlushOutstanding(w.u, k);
    case Accepted(i, res, more) =>
      TaggedConserved(w, i, more, res, if more then 2 else 0, listen);
    case RecvEnded(i, res, more) =>
      TaggedConserved(w, i, more, res, if more then 2 else 0, listen);
    case SendDone(i, res) =>
      TaggedConserved(w, i, false, res, 0, listen);
    case Received(i, data, more) =>
      ReceivedConserved(w, i, data, more, listen);
    case Process(flush1, flush2) =>
      HandleHeld(w.u, w.cq[0], flush1, flush2);
      ProcessHeld(w.cq);
  }

  lemma ProcessHeld(cq: seq<Cqe>)
    requires cq != []
    ensures multiset(CqBids(cq)) == multiset(CqeBid(cq[0])) + multiset(CqBids(cq[1..]))
  {
  }

  lemma ReceivedConserved(w: World, i: nat, data: Bytes, more: bool, listen: nat)
    requires Valid(w, listen) && Enabled(w, Received(i, data, more)) && Conserved(w)
    ensures Conserved(Next(w, Received(i, data, more)))
  {
    var op, bid := w.u.armed[i], w.u.free[0];
    var u := w.u.(free := w.u.free[1..]);
    var c := Cqe(op.Tag(), |data|, Flags(bid, more));
    assert op in w.u.armed;
    FilledBid(op, |data|, bid, more, listen);
    CompletedHeld(u, i, more);
    PostHeld(w.cq, c);
    TakenHeld(w.u);
  }

  /** The completion of a receive names its buffer. */
  lemma FilledBid(op: Op, len: nat, bid: nat, more: bool, listen: nat)
    requires op.Recv? && op.Valid(listen) && len > 0
    ensures CqeBid(Cqe(op.Tag(), len, Flags(bid, more))) == [bid]
  {
    OpTag(op, listen);
    FlagsRoundTrip(op.Tag(), len, bid, more);
  }

  lemma TakenHeld(u: User)
    requires u.free != []
    ensures UserHeld(u.(free := u.free[1..])) + multiset([u.free[0]]) == UserHeld(u)
  {
    assert u.free == [u.free[0]] + u.free[1..];
  }

  lemma {:induction false} RunConserved(w: World, moves: seq<Move>, listen: nat)
    requires Valid(w, listen) && Conserved(w) && Possible(w, moves)
    ensures Valid(Run(w, moves), listen) && Conserved(Run(w, moves))
    decreases |moves|
  {
    if moves != [] {
      NextValid(w, moves[0], listen);
      NextConserved(w, moves[0], listen);
      RunConserved(Next(w, moves[0]), moves[1..], listen);
    }
  }

  lemma StartConserved(listen: nat)
    requires listen < MAX_FDS
    ensures Valid(Start(listen), listen) && Conserved(Start(listen))
  {
    OpBidsOne(Accept(listen));
    assert [] + [Accept(listen)] == [Accept(listen)];
    forall b | b in AllBids()
      ensures b < BUF_RING_ENTRIES
    {
    }
  }

  lemma {:induction false} PrefixOnce(n: nat, b: nat)
    requires n <= BUF_RING_ENTRIES
    ensures multiset(AllBids()[..n])[b] == if b < n then 1 else 0
  {
    if n > 0 {
      PrefixOnce(n - 1, b);
      assert AllBids()[..n] == AllBids()[..n - 1] + [n - 1];
    }
  }

  /** Exactly one owner: in every reachable state every buffer id occurs exactly once among the
      four places together, and no other number occurs at all. */
  lemma OneOwner(listen: nat, moves: seq<Move>, b: nat)
    requires listen < MAX_FDS && Possible(Start(listen), moves)
    ensures var w := Run(Start(listen), moves);
      multiset(w.u.free)[b] + multiset(OpBids(w.u.Outstanding()))[b] + multiset(CqBids(w.cq))[b]
        == if b < BUF_RING_ENTRIES then 1 else 0
  {
    StartConserved(listen);
    RunConserved(Start(listen), moves, listen);
    PrefixOnce(BUF_RING_ENTRIES, b);
    assert AllBids()[..BUF_RING_ENTRIES] == AllBids();
    var w := Run(Start(listen), moves);
    assert Held(w)[b] == multiset(w.u.free)[b] + multiset(OpBids(w.u.Outstanding()))[b] + multiset(CqBids(w.cq))[b];
  }
}
