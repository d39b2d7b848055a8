/** Multishot operations of io_uring_opt_server.c do not die out: every active connection keeps
    a receive and the listener keeps its one accept, whatever the kernel reports.

    An operation is live while it is queued, accepted by the kernel, or announced by a
    completion that ends it and has not been processed. */
module UringRearm {
  import opened Kernel
  import opened Tags
  import opened BufferRing
  import opened UringOpt
  import opened UringBuffers
  import opened UringActive

  /** The completion ends the multishot operation. */
  predicate Ends(c: Cqe, op: Op) {
    && !c.More() && TagFd(c.tag) == op.fd
    && TagType(c.tag) == (if op.Accept? then EVENT_ACCEPT else EVENT_RECV)
  }

  function Ending(cq: seq<Cqe>, op: Op): nat {
    if cq == [] then 0 else One(Ends(cq[0], op)) + Ending(cq[1..], op)
  }

  function Live(u: User, cq: seq<Cqe>, op: Op): nat {
    multiset(u.Outstanding())[op] + Ending(cq, op)
  }

  lemma {:induction false} EndingPost(cq: seq<Cqe>, c: Cqe, op: Op)
    ensures Ending(cq + [c], op) == Ending(cq, op) + One(Ends(c, op))
  {
    if cq == [] {
      assert [] + [c] == [c] && [c][1..] == [];
    } else {
      assert (cq + [c])[0] == cq[0] && (cq + [c])[1..] == cq[1..] + [c];
      EndingPost(cq[1..], c, op);
    }
  }

  ghost predicate AllLive(u: User, cq: seq<Cqe>, listen: nat) {
    && |u.sq| <= ENTRIES
    && (forall fd | fd in u.active :: Live(u, cq, Recv(fd)) >= 1)
    && Live(u, cq, Accept(listen)) == 1
  }

  /** A flush of the submission queue that get_sqe_safe has to make takes at least one entry. */
  predicate FlushWorks(m: Move) {
    m.Process? ==> m.flush1 > 0 && m.flush2 > 0
  }

  // ---------------------------------------------------------------- the process's steps

  /** Room in the queue, or a flush that takes something, is exactly what a submission needs. */
  lemma HasSqeIff(u: User, flush: nat)
    requires |u.sq| <= ENTRIES
    ensures u.HasSqe(flush) <==> |u.sq| < ENTRIES || flush > 0
  {
  }

  lemma PushCount(u: User, op: Op, flush: nat, x: Op)
    requires |u.sq| <= ENTRIES
    ensures var v := u.Push(op, flush);
      && multiset(v.Outstanding())[x] == multiset(u.Outstanding())[x] + One(x == op && u.HasSqe(flush))
      && |v.sq| <= ENTRIES && v.active == u.active
  {
    PushOutstanding(u, op, flush);
    assert u.Outstanding() + [] == u.Outstanding();
  }

  lemma RearmCount(u: User, c: Cqe, fd: nat, flush: nat, x: Op)
    requires |u.sq| <= ENTRIES
    ensures var v := u.Rearm(c, fd, flush);
      && multiset(v.Outstanding())[x] ==
         multiset(u.Outstanding())[x] + One(x == Recv(fd) && fd in u.active && !c.More() && u.HasSqe(flush))
      && |v.sq| <= ENTRIES && v.active == u.active
  {
    PushCount(u, Recv(fd), flush, x);
  }

  lemma PushSendCount(u: User, op: Op, flush: nat, x: Op)
    requires |u.sq| <= ENTRIES && op.Send? && !x.Send?
    ensures var v := u.PushSend(op, flush);
      && multiset(v.Outstanding())[x] == multiset(u.Outstanding())[x]
      && |v.sq| <= ENTRIES && v.active == u.active
  {
    PushCount(u, op, flush, x);
  }

  /** How many receives a processed receive completion submits for its descriptor. */
  function Rearms(active: bool, c: Cqe): nat {
    var stopped := One(active && !c.More());
    if c.res > 0 then stopped
    else if c.res == -ENOBUFS then 1 + stopped
    else if c.Transient() then 2 * stopped
    else 0
  }

  lemma DataCount(u: User, c: Cqe, flush1: nat, flush2: nat, x: Op)
    requires |u.sq| <= ENTRIES && flush1 > 0 && flush2 > 0 && !x.Send? && c.res > 0
    ensures var v := HandleRecv(u, c, flush1, flush2);
      && multiset(v.Outstanding())[x] ==
         multiset(u.Outstanding())[x] + (if x == Recv(TagFd(c.tag)) then Rearms(TagFd(c.tag) in u.active, c) else 0)
      && |v.sq| <= ENTRIES && v.active == u.active
  {
    var w := AfterSend(u, c, flush1);
    AfterSendCount(u, c, flush1, x);
    HasSqeIff(w, flush2);
    RearmCount(w, c, TagFd(c.tag), flush2, x);
    DataIsSendAndRearm(u, c, flush1, flush2);
  }

  lemma DataIsSendAndRearm(u: User, c: Cqe, flush1: nat, flush2: nat)
    requires c.res > 0
    ensures HandleRecv(u, c, flush1, flush2) == AfterSend(u, c, flush1).Rearm(c, TagFd(c.tag), flush2)
  {
  }

  function AfterSend(u: User, c: Cqe, flush: nat): User
    requires c.res > 0
  {
    u.(events := u.events + 1).PushSend(Send(TagFd(c.tag), c.Bid(), c.res), flush)
  }

  lemma AfterSendCount(u: User, c: Cqe, flush: nat, x: Op)
    requires |u.sq| <= ENTRIES && !x.Send? && c.res > 0
    ensures var v := AfterSend(u, c, flush);
      && multiset(v.Outstanding())[x] == multiset(u.Outstanding())[x]
      && |v.sq| <= ENTRIES && v.active == u.active
  {
    var v := u.(events := u.events + 1);
    assert v.Outstanding() == u.Outstanding();
    PushSendCount(v, Send(TagFd(c.tag), c.Bid(), c.res), flush, x);
  }

  lemma NoBuffersCount(u: User, c: Cqe, flush1: nat, flush2: nat, x: Op)
    requires |u.sq| <= ENTRIES && flush1 > 0 && flush2 > 0 && c.res == -ENOBUFS
    ensures var v := HandleRecv(u, c, flush1, flush2);
      && multiset(v.Outstanding())[x] ==
         multiset(u.Outstanding())[x] + (if x == Recv(TagFd(c.tag)) then Rearms(TagFd(c.tag) in u.active, c) else 0)
      && |v.sq| <= ENTRIES && v.active == u.active
  {
    var fd := TagFd(c.tag);
    HasSqeIff(u, flush1);
    PushCount(u, Recv(fd), flush1, x);
    HasSqeIff(u.Push(Recv(fd), flush1), flush2);
    RearmCount(u.Push(Recv(fd), flush1), c, fd, flush2, x);
  }

  lemma TransientCount(u: User, c: Cqe, flush1: nat, flush2: nat, x: Op)
    requires |u.sq| <= ENTRIES && flush1 > 0 && flush2 > 0 && c.Transient()
    ensures var v := HandleRecv(u, c, flush1, flush2);
      && multiset(v.Outstanding())[x] ==
         multiset(u.Outstanding())[x] + (if x == Recv(TagFd(c.tag)) then Rearms(TagFd(c.tag) in u.active, c) else 0)
      && |v.sq| <= ENTRIES && v.active == u.active
  {
    var fd := TagFd(c.tag);
    HasSqeIff(u, flush1);
    RearmCount(u, c, fd, flush1, x);
    HasSqeIff(u.Rearm(c, fd, flush1), flush2);
    RearmCount(u.Rearm(c, fd, flush1), c, fd, flush2, x);
  }

  lemma RecvCount(u: User, c: Cqe, flush1: nat, flush2: nat, x: Op)
    requires |u.sq| <= ENTRIES && flush1 > 0 && flush2 > 0 && !x.Send?
    ensures var v, fd := HandleRecv(u, c, flush1, flush2), TagFd(c.tag);
      && multiset(v.Outstanding())[x] ==
         multiset(u.Outstanding())[x] + (if x == Recv(fd) then Rearms(fd in u.active, c) else 0)
      && |v.sq| <= ENTRIES
      && v.active == (if c.res > 0 || c.res == -ENOBUFS || c.Transient() then u.active else u.active - {fd})
  {
    if c.res > 0 {
      DataCount(u, c, flush1, flush2, x);
    } else if c.res == -ENOBUFS {
      NoBuffersCount(u, c, flush1, flush2, x);
    } else if c.Transient() {
      TransientCount(u, c, flush1, flush2, x);
    }
  }

  /** A submission finds an entry. */
  predicate Room(u: User, flush: nat) {
    |u.sq| < ENTRIES || flush > 0
  }

  /** An entry is left after one submission has been made. */
  predicate RoomForTwo(u: User, flush: nat) {
    |u.sq| + 1 < ENTRIES || (|u.sq| == ENTRIES && flush > 1)
  }

  lemma RoomAfterPush(u: User, op: Op, flush: nat)
    requires |u.sq| <= ENTRIES
    ensures |u.Push(op, flush).sq| <= ENTRIES
    ensures |u.Push(op, flush).sq| < ENTRIES <==> RoomForTwo(u, flush)
  {
  }

  /** A processed receive completion leads to a new receive of its descriptor. */
  predicate Arms(u: User, c: Cqe, flush1: nat, flush2: nat) {
    var stopped := TagFd(c.tag) in u.active && !c.More();
    if c.res > 0 then stopped && (RoomForTwo(u, flush1) || flush2 > 0)
    else if c.res == -ENOBUFS then Room(u, flush1) || (stopped && flush2 > 0)
    else c.Transient() && stopped && (Room(u, flush1) || flush2 > 0)
  }

  /** The receives of its descriptor become more exactly if it does, and nothing else changes. */
  ghost predicate ArmedIff(u: User, v: User, fd: nat, armed: bool, x: Op) {
    && multiset(v.Outstanding())[x] >= multiset(u.Outstanding())[x]
    && (multiset(v.Outstanding())[x] > multiset(u.Outstanding())[x] <==> x == Recv(fd) && armed)
    && |v.sq| <= ENTRIES
  }

  lemma DataArms(u: User, c: Cqe, flush1: nat, flush2: nat, x: Op)
    requires |u.sq| <= ENTRIES && !x.Send? && c.res > 0
    ensures ArmedIff(u, HandleRecv(u, c, flush1, flush2), TagFd(c.tag), Arms(u, c, flush1, flush2), x)
    ensures HandleRecv(u, c, flush1, flush2).active == u.active
  {
    var w, v0 := AfterSend(u, c, flush1), u.(events := u.events + 1);
    AfterSendCount(u, c, flush1, x);
    RoomAfterPush(v0, Send(TagFd(c.tag), c.Bid(), c.res), flush1);
    HasSqeIff(w, flush2);
    RearmCount(w, c, TagFd(c.tag), flush2, x);
    assert HandleRecv(u, c, flush1, flush2) == w.Rearm(c, TagFd(c.tag), flush2);
  }

  lemma NoBuffersArms(u: User, c: Cqe, flush1: nat, flush2: nat, x: Op)
    requires |u.sq| <= ENTRIES && c.res == -ENOBUFS
    ensures ArmedIff(u, HandleRecv(u, c, flush1, flush2), TagFd(c.tag), Arms(u, c, flush1, flush2), x)
    ensures HandleRecv(u, c, flush1, flush2).active == u.active
  {
    var fd := TagFd(c.tag);
    var w := u.Push(Recv(fd), flush1);
    HasSqeIff(u, flush1);
    PushCount(u, Recv(fd), flush1, x);
    HasSqeIff(w, flush2);
    RearmCount(w, c, fd, flush2, x);
    assert HandleRecv(u, c, flush1, flush2) == w.Rearm(c, fd, flush2);
  }

  lemma TransientArms(u: User, c: Cqe, flush1: nat, flush2: nat, x: Op)
    requires |u.sq| <= ENTRIES && c.Transient()
    ensures ArmedIff(u, HandleRecv(u, c, flush1, flush2), TagFd(c.tag), Arms(u, c, flush1, flush2), x)
    ensures HandleRecv(u, c, flush1, flush2).active == u.active
  {
    var fd := TagFd(c.tag);
    var w := u.Rearm(c, fd, flush1);
    HasSqeIff(u, flush1);
    RearmCount(u, c, fd, flush1, x);
    HasSqeIff(w, flush2);
    RearmCount(w, c, fd, flush2, x);
    assert HandleRecv(u, c, flush1, flush2) == w.Rearm(c, fd, flush2);
  }

  lemma RecvArms(u: User, c: Cqe, flush1: nat, flush2: nat, x: Op)
    requires |u.sq| <= ENTRIES && !x.Send?
    ensures ArmedIff(u, HandleRecv(u, c, flush1, flush2), TagFd(c.tag), Arms(u, c, flush1, flush2), x)
    ensures HandleRecv(u, c, flush1, flush2).active == if Stays(c) then u.active else u.active - {TagFd(c.tag)}
  {
    if c.res > 0 {
      DataArms(u, c, flush1, flush2, x);
    } else if c.res == -ENOBUFS {
      NoBuffersArms(u, c, flush1, flush2, x);
    } else if c.Transient() {
      TransientArms(u, c, flush1, flush2, x);
    }
  }

  /** A receive completion that leaves its connection active. */
  predicate Stays(c: Cqe) {
    c.res > 0 || c.res == -ENOBUFS || c.Transient()
  }

  lemma AdmitCount(u: User, res: int, flush: nat, x: Op)
    requires |u.sq| <= ENTRIES
    ensures var v := Admit(u, res, flush);
      && multiset(v.Outstanding())[x] ==
         multiset(u.Outstanding())[x] + One(0 <= res < MAX_FDS && x == Recv(res as nat) && Room(u, flush))
      && |v.sq| <= ENTRIES
      && v.active == u.active + (if 0 <= res < MAX_FDS then {res as nat} else {})
  {
    if 0 <= res < MAX_FDS {
      var w := u.(active := u.active + {res as nat});
      assert w.Outstanding() == u.Outstanding();
      HasSqeIff(w, flush);
      PushCount(w, Recv(res as nat), flush, x);
    }
  }

  /** Room for the accept once the new connection, if there is one, has its receive. */
  predicate RoomForAccept(u: User, res: int, flush: nat) {
    if 0 <= res < MAX_FDS then RoomForTwo(u, flush) else |u.sq| < ENTRIES
  }

  lemma RoomAfterAdmit(u: User, res: int, flush: nat)
    requires |u.sq| <= ENTRIES
    ensures |Admit(u, res, flush).sq| < ENTRIES <==> RoomForAccept(u, res, flush)
  {
  }

  lemma AcceptCount(u: User, c: Cqe, flush1: nat, flush2: nat, x: Op)
    requires |u.sq| <= ENTRIES
    ensures var v, w := HandleAccept(u, c, flush1, flush2), Admit(u, c.res, flush1);
      && multiset(v.Outstanding())[x] == multiset(w.Outstanding())[x]
         + One(!c.More() && x == Accept(TagFd(c.tag)) && (RoomForAccept(u, c.res, flush1) || flush2 > 0))
      && |v.sq| <= ENTRIES && v.active == w.active
  {
    AdmitCount(u, c.res, flush1, x);
    RoomAfterAdmit(u, c.res, flush1);
    HasSqeIff(Admit(u, c.res, flush1), flush2);
    PushCount(Admit(u, c.res, flush1), Accept(TagFd(c.tag)), flush2, x);
  }

  lemma LiveNow(u: User, cq: seq<Cqe>, x: Op)
    requires cq != []
    ensures Live(u, cq, x) == Live(u, cq[1..], x) + One(Ends(cq[0], x))
  {
  }

  // ---------------------------------------------------------------- the exact guard

  /** What the processing of a completion must find: an entry for the receive of a new connection, for
      the receive of a connection whose last one has ended, and for the accept. */
  predicate Guard(u: User, cq: seq<Cqe>, flush1: nat, flush2: nat)
    requires cq != []
  {
    var c, fd := cq[0], TagFd(cq[0].tag);
    if TagType(c.tag) == EVENT_ACCEPT then
      && (0 <= c.res < MAX_FDS ==> Room(u, flush1) || Live(u, cq[1..], Recv(c.res as nat)) >= 1)
      && (!c.More() ==> RoomForAccept(u, c.res, flush1) || flush2 > 0)
    else TagType(c.tag) == EVENT_RECV && fd in u.active && !c.More() && Stays(c) ==>
      || Live(u, cq[1..], Recv(fd)) >= 1
      || (if c.res > 0 then RoomForTwo(u, flush1) else Room(u, flush1))
      || flush2 > 0
  }

  lemma AcceptLiveIff(u: User, cq: seq<Cqe>, flush1: nat, flush2: nat, listen: nat)
    requires AllLive(u, cq, listen) && cq != []
    requires TagType(cq[0].tag) == EVENT_ACCEPT && TagFd(cq[0].tag) == listen
    ensures AllLive(HandleAccept(u, cq[0], flush1, flush2), cq[1..], listen) <==> Guard(u, cq, flush1, flush2)
  {
    var c, rest := cq[0], cq[1..];
    var v := HandleAccept(u, c, flush1, flush2);
    ListenerLive(u, cq, flush1, flush2, listen);
    forall fd | fd in v.active
      ensures Live(v, rest, Recv(fd)) >= 1 <==> (c.res == fd ==> Room(u, flush1) || Live(u, rest, Recv(fd)) >= 1)
    {
      AcceptedLive(u, cq, flush1, flush2, fd);
    }
    AdmitCount(u, c.res, flush1, Accept(listen));
    AcceptCount(u, c, flush1, flush2, Accept(listen));
    if 0 <= c.res < MAX_FDS {
      assert c.res as nat in v.active;
    }
  }

  lemma ListenerLive(u: User, cq: seq<Cqe>, flush1: nat, flush2: nat, listen: nat)
    requires |u.sq| <= ENTRIES && Live(u, cq, Accept(listen)) == 1 && cq != []
    requires TagType(cq[0].tag) == EVENT_ACCEPT && TagFd(cq[0].tag) == listen
    ensures Live(HandleAccept(u, cq[0], flush1, flush2), cq[1..], Accept(listen)) == 1 <==>
            (!cq[0].More() ==> RoomForAccept(u, cq[0].res, flush1) || flush2 > 0)
  {
    AdmitCount(u, cq[0].res, flush1, Accept(listen));
    AcceptCount(u, cq[0], flush1, flush2, Accept(listen));
    LiveNow(u, cq, Accept(listen));
  }

  lemma AcceptedLive(u: User, cq: seq<Cqe>, flush1: nat, flush2: nat, fd: nat)
    requires cq != [] && |u.sq| <= ENTRIES && TagType(cq[0].tag) == EVENT_ACCEPT
    requires fd in u.active ==> Live(u, cq, Recv(fd)) >= 1
    requires fd in HandleAccept(u, cq[0], flush1, flush2).active
    ensures Live(HandleAccept(u, cq[0], flush1, flush2), cq[1..], Recv(fd)) >= 1 <==>
            (cq[0].res == fd ==> Room(u, flush1) || Live(u, cq[1..], Recv(fd)) >= 1)
  {
    AdmitCount(u, cq[0].res, flush1, Recv(fd));
    AcceptCount(u, cq[0], flush1, flush2, Recv(fd));
    LiveNow(u, cq, Recv(fd));
  }

  lemma RecvLiveIff(u: User, cq: seq<Cqe>, flush1: nat, flush2: nat, listen: nat)
    requires AllLive(u, cq, listen) && cq != [] && TagType(cq[0].tag) == EVENT_RECV
    ensures AllLive(HandleRecv(u, cq[0], flush1, flush2), cq[1..], listen) <==> Guard(u, cq, flush1, flush2)
  {
    var c, rest := cq[0], cq[1..];
    var v, own := HandleRecv(u, c, flush1, flush2), TagFd(c.tag);
    RecvArms(u, c, flush1, flush2, Accept(listen));
    LiveNow(u, cq, Accept(listen));
    forall fd | fd in v.active
      ensures Live(v, rest, Recv(fd)) >= 1 <==>
              (fd == own && !c.More() ==> Live(u, rest, Recv(fd)) >= 1 || Arms(u, c, flush1, flush2))
    {
      RecvArms(u, c, flush1, flush2, Recv(fd));
      LiveNow(u, cq, Recv(fd));
    }
    assert own in v.active <==> own in u.active && Stays(c);
  }

  lemma OtherLive(u: User, cq: seq<Cqe>, flush1: nat, flush2: nat, listen: nat)
    requires AllLive(u, cq, listen) && cq != []
    requires TagType(cq[0].tag) != EVENT_ACCEPT && TagType(cq[0].tag) != EVENT_RECV
    ensures AllLive(Handle(u, cq[0], flush1, flush2), cq[1..], listen)
  {
    var v := Handle(u, cq[0], flush1, flush2);
    assert v.Outstanding() == u.Outstanding();
    LiveNow(u, cq, Accept(listen));
    forall fd | fd in v.active
      ensures Live(v, cq[1..], Recv(fd)) >= 1
    {
      LiveNow(u, cq, Recv(fd));
    }
  }

  /** Processing a completion leaves every active connection a receive and the listener its accept
      exactly if it meets its guard. */
  lemma ProcessLiveIff(u: User, cq: seq<Cqe>, flush1: nat, flush2: nat, listen: nat)
    requires AllLive(u, cq, listen) && cq != [] && cq[0].Valid(listen)
    ensures AllLive(Handle(u, cq[0], flush1, flush2), cq[1..], listen) <==> Guard(u, cq, flush1, flush2)
  {
    if TagType(cq[0].tag) == EVENT_ACCEPT {
      AcceptLiveIff(u, cq, flush1, flush2, listen);
    } else if TagType(cq[0].tag) == EVENT_RECV {
      RecvLiveIff(u, cq, flush1, flush2, listen);
    } else {
      OtherLive(u, cq, flush1, flush2, listen);
    }
  }

  // ---------------------------------------------------------------- every step

  lemma CompletedCount(u: User, i: nat)
    requires i < |u.armed|
    ensures multiset(Completed(u, i, false).Outstanding()) + multiset{u.armed[i]} == multiset(u.Outstanding())
  {
    CompletedOutstanding(u, i);
    Around(u.Outstanding(), i);
  }

  /** A multishot completion leaves its operation live: still armed, or announced as ended. */
  lemma PostLive(u: User, cq: seq<Cqe>, i: nat, more: bool, c: Cqe, x: Op, listen: nat)
    requires i < |u.armed| && u.armed[i].Valid(listen) && c.tag == u.armed[i].Tag() && c.More() == more
    requires !x.Send? && (u.armed[i].Send? ==> !more)
    ensures Live(Completed(u, i, more), cq + [c], x) == Live(u, cq, x)
  {
    OpTag(u.armed[i], listen);
    EndingPost(cq, c, x);
    if !more {
      CompletedCount(u, i);
    }
  }

  lemma PostAllLive(u: User, cq: seq<Cqe>, i: nat, more: bool, c: Cqe, listen: nat)
    requires AllLive(u, cq, listen) && i < |u.armed| && u.armed[i].Valid(listen)
    requires c.tag == u.armed[i].Tag() && c.More() == more && (u.armed[i].Send? ==> !more)
    ensures AllLive(Completed(u, i, more), cq + [c], listen)
  {
    PostLive(u, cq, i, more, c, Accept(listen), listen);
    forall fd | fd in u.active
      ensures Live(Completed(u, i, more), cq + [c], Recv(fd)) >= 1
    {
      PostLive(u, cq, i, more, c, Recv(fd), listen);
    }
  }

  /** Whatever the kernel does keeps it. */
  lemma KernelKeepsLive(w: World, m: Move, listen: nat)
    requires Valid(w, listen) && AllLive(w.u, w.cq, listen) && Enabled(w, m) && !m.Process?
    ensures AllLive(Next(w, m).u, Next(w, m).cq, listen)
  {
    if m.Submit? {
      FlushOutstanding(w.u, m.k);
    } else if m.Received? {
      var c := Cqe(w.u.armed[m.i].Tag(), |m.data|, Flags(w.u.free[0], m.more));
      var u := w.u.(free := w.u.free[1..]);
      FlagsRoundTrip(c.tag, c.res, w.u.free[0], m.more);
      assert u.armed[m.i] in w.u.armed && u.Outstanding() == w.u.Outstanding();
      assert AllLive(u, w.cq, listen);
      PostAllLive(u, w.cq, m.i, m.more, c, listen);
    } else {
      var more := if m.SendDone? then false else m.more;
      assert w.u.armed[m.i] in w.u.armed;
      PostAllLive(w.u, w.cq, m.i, more, Cqe(w.u.armed[m.i].Tag(), m.res, if more then 2 else 0), listen);
    }
  }

  ghost predicate Guarded(w: World, m: Move)
    requires Enabled(w, m)
  {
    m.Process? ==> Guard(w.u, w.cq, m.flush1, m.flush2)
  }

  lemma NextLiveIff(w: World, m: Move, listen: nat)
    requires Valid(w, listen) && AllLive(w.u, w.cq, listen) && Enabled(w, m)
    ensures AllLive(Next(w, m).u, Next(w, m).cq, listen) <==> Guarded(w, m)
  {
    if m.Process? {
      assert w.cq[0] in w.cq;
      ProcessLiveIff(w.u, w.cq, m.flush1, m.flush2, listen);
    } else {
      KernelKeepsLive(w, m, listen);
    }
  }

  ghost predicate AllGuarded(w: World, moves: seq<Move>)
    requires Possible(w, moves)
    decreases |moves|
  {
    moves != [] ==> Guarded(w, moves[0]) && AllGuarded(Next(w, moves[0]), moves[1..])
  }

  ghost predicate LiveThroughout(w: World, moves: seq<Move>, listen: nat)
    requires Possible(w, moves)
    decreases |moves|
  {
    AllLive(w.u, w.cq, listen) && (moves != [] ==> LiveThroughout(Next(w, moves[0]), moves[1..], listen))
  }

  /** Over every run: at every step each active connection has a live receive and the listener exactly
      one live accept, if and only if every processing of a completion meets its guard. */
  lemma {:induction false} RunLiveIff(w: World, moves: seq<Move>, listen: nat)
    requires Valid(w, listen) && AllLive(w.u, w.cq, listen) && Possible(w, moves)
    ensures LiveThroughout(w, moves, listen) <==> AllGuarded(w, moves)
    decreases |moves|
  {
    if moves != [] {
      NextValid(w, moves[0], listen);
      NextLiveIff(w, moves[0], listen);
      if Guarded(w, moves[0]) {
        RunLiveIff(Next(w, moves[0]), moves[1..], listen);
      }
    }
  }

  lemma StartLive(listen: nat)
    requires listen < MAX_FDS
    ensures Valid(Start(listen), listen) && AllLive(Start(listen).u, Start(listen).cq, listen)
  {
    StartConserved(listen);
    assert [] + [Accept(listen)] == [Accept(listen)];
  }

  /** Every connection that was accepted and not closed since, as far as the completions processed tell,
      has a live receive, and the listener exactly one live accept. */
  ghost predicate Served(u: User, cq: seq<Cqe>, log: seq<Cqe>, listen: nat) {
    && Live(u, cq, Accept(listen)) == 1
    && forall fd: nat | Connected(log, fd) :: Live(u, cq, Recv(fd)) >= 1
  }

  /** At every step of a run before which the completions of the log were processed. */
  ghost predicate ServedThroughout(w: World, moves: seq<Move>, log: seq<Cqe>, listen: nat)
    requires Possible(w, moves)
    decreases |moves|
  {
    && Served(w.u, w.cq, log, listen)
    && (moves != [] ==> ServedThroughout(Next(w, moves[0]), moves[1..], log + Seen(w, moves[0]), listen))
  }

  lemma {:induction false} ServedIsLive(w: World, moves: seq<Move>, log: seq<Cqe>, listen: nat)
    requires Possible(w, moves) && Agrees(w.u, log) && Valid(w, listen) && |w.u.sq| <= ENTRIES
    ensures ServedThroughout(w, moves, log, listen) <==> LiveThroughout(w, moves, listen)
    decreases |moves|
  {
    if moves != [] {
      NextAgrees(w, moves[0], log);
      NextValid(w, moves[0], listen);
      NextFits(w, moves[0]);
      ServedIsLive(Next(w, moves[0]), moves[1..], log + Seen(w, moves[0]), listen);
    }
  }

  lemma HandleBounded(u: User, c: Cqe, flush1: nat, flush2: nat)
    requires |u.sq| <= ENTRIES
    ensures |Handle(u, c, flush1, flush2).sq| <= ENTRIES
  {
  }

  lemma NextFits(w: World, m: Move)
    requires Enabled(w, m) && |w.u.sq| <= ENTRIES
    ensures |Next(w, m).u.sq| <= ENTRIES
  {
    if m.Process? {
      HandleBounded(w.u, w.cq[0], m.flush1, m.flush2);
    }
  }

  /** The same from the start of the program. */
  lemma NeverDeafIff(listen: nat, moves: seq<Move>)
    requires listen < MAX_FDS && Possible(Start(listen), moves)
    ensures ServedThroughout(Start(listen), moves, [], listen) <==> AllGuarded(Start(listen), moves)
  {
    StartLive(listen);
    RunLiveIff(Start(listen), moves, listen);
    ServedIsLive(Start(listen), moves, [], listen);
  }

  lemma {:induction false} FlushesGuard(w: World, moves: seq<Move>)
    requires Possible(w, moves) && forall m | m in moves :: FlushWorks(m)
    ensures AllGuarded(w, moves)
    decreases |moves|
  {
    if moves != [] {
      assert moves[0] in moves;
      FlushesGuard(Next(w, moves[0]), moves[1..]);
    }
  }

  lemma {:induction false} LiveAtEnd(w: World, moves: seq<Move>, listen: nat)
    requires Possible(w, moves) && LiveThroughout(w, moves, listen)
    ensures AllLive(Run(w, moves).u, Run(w, moves).cq, listen)
    decreases |moves|
  {
    if moves != [] {
      LiveAtEnd(Next(w, moves[0]), moves[1..], listen);
    }
  }

  /** In particular where the flush of a full queue always takes an entry, for any results and any
      pattern of F_MORE. */
  lemma NeverDeaf(listen: nat, moves: seq<Move>)
    requires listen < MAX_FDS && Possible(Start(listen), moves)
    requires forall m | m in moves :: FlushWorks(m)
    ensures var w := Run(Start(listen), moves); Served(w.u, w.cq, Processed(Start(listen), moves), listen)
  {
    StartLive(listen);
    FlushesGuard(Start(listen), moves);
    RunLiveIff(Start(listen), moves, listen);
    LiveAtEnd(Start(listen), moves, listen);
    forall fd: nat | Connected(Processed(Start(listen), moves), fd)
      ensures fd in Run(Start(listen), moves).u.active
    {
      ActiveIff(listen, moves, fd);
    }
  }

  // ---------------------------------------------------------------- what does not hold

  /** "Exactly one receive per connection" is kept by exactly these completions of an active
      connection that leave it active: data, and a transient error that did not stop the
      multishot. After ENOBUFS the receive is submitted once too often, and after a transient
      error that stopped it twice instead of once. */
  lemma ReceiveCountKeptIff(u: User, cq: seq<Cqe>, flush1: nat, flush2: nat)
    requires cq != [] && TagType(cq[0].tag) == EVENT_RECV && TagFd(cq[0].tag) in u.active
    requires |u.sq| <= ENTRIES && flush1 > 0 && flush2 > 0
    requires cq[0].res > 0 || cq[0].res == -ENOBUFS || cq[0].Transient()
    ensures var x := Recv(TagFd(cq[0].tag));
      Live(Handle(u, cq[0], flush1, flush2), cq[1..], x) == Live(u, cq, x) <==>
      cq[0].res > 0 || (cq[0].Transient() && cq[0].More())
  {
    RecvCount(u, cq[0], flush1, flush2, Recv(TagFd(cq[0].tag)));
  }

  /** When the kernel ends the accept stream the listener keeps its one accept exactly if there is
      room for it or the flush takes an entry. */
  lemma AcceptSurvivesIff(u: User, cq: seq<Cqe>, flush1: nat, flush2: nat, listen: nat)
    requires cq != [] && Ends(cq[0], Accept(listen))
    requires |u.sq| <= ENTRIES && Live(u, cq, Accept(listen)) == 1
    ensures Live(Handle(u, cq[0], flush1, flush2), cq[1..], Accept(listen)) == 1 <==>
            RoomForAccept(u, cq[0].res, flush1) || flush2 > 0
  {
    ListenerLive(u, cq, flush1, flush2, listen);
  }

  // ---------------------------------------------------------------- witnesses

  lemma RunThen(w: World, m: Move, rest: seq<Move>)
    requires Enabled(w, m) && Possible(Next(w, m), rest)
    ensures Possible(w, [m] + rest) && Run(w, [m] + rest) == Run(Next(w, m), rest)
  {
    assert ([m] + rest)[0] == m && ([m] + rest)[1..] == rest;
  }

  lemma RunTwo(w: World, m: Move, n: Move, rest: seq<Move>)
    requires Enabled(w, m) && Enabled(Next(w, m), n) && Possible(Next(Next(w, m), n), rest)
    ensures Possible(w, [m] + ([n] + rest)) && Run(w, [m] + ([n] + rest)) == Run(Next(Next(w, m), n), rest)
  {
    RunThen(Next(w, m), n, rest);
    RunThen(w, m, [n] + rest);
  }

  /** A run: the listener accepts descriptor 5, whose receive ends for lack of buffers. */
  function NoBuffersRun(): seq<Move> {
    [Submit(1)] + ([Accepted(0, 5, true)] + ([Process(1, 1)] + ([Submit(1)] + ShortageRun())))
  }

  function ShortageRun(): seq<Move> {
    [RecvEnded(1, -ENOBUFS, false)] + ([Process(1, 1)] + [])
  }

  /** One connection can have two receives. */
  lemma TwoReceives(listen: nat)
    requires listen < MAX_FDS
    ensures Possible(Start(listen), NoBuffersRun())
    ensures var w := Run(Start(listen), NoBuffersRun());
      5 in w.u.active && w.u.Outstanding() == [Accept(listen), Recv(5), Recv(5)] && w.cq == []
  {
    var w0 := Start(listen);
    var w1 := Next(w0, Submit(1));
    var w2 := Next(w1, Accepted(0, 5, true));
    OneConnection(w1, listen);
    var w3 := Next(w2, Process(1, 1));
    var w4 := Next(w3, Submit(1));
    assert w4.u.armed == [Accept(listen), Recv(5)] && w4.u.sq == [];
    OneShortage(w4, listen);
    var w5 := Next(w4, RecvEnded(1, -ENOBUFS, false));
    RunTwo(w4, RecvEnded(1, -ENOBUFS, false), Process(1, 1), []);
    RunTwo(w2, Process(1, 1), Submit(1), ShortageRun());
    RunTwo(w0, Submit(1), Accepted(0, 5, true), [Process(1, 1)] + ([Submit(1)] + ShortageRun()));
  }

  lemma OneConnection(w: World, listen: nat)
    requires listen < MAX_FDS && w.u.armed == [Accept(listen)] && w.u.sq == [] && w.cq == []
    ensures Enabled(Next(w, Accepted(0, 5, true)), Process(1, 1))
    ensures var v' := Next(Next(w, Accepted(0, 5, true)), Process(1, 1));
      v'.u.armed == [Accept(listen)] && v'.u.sq == [Recv(5)] && v'.cq == [] && 5 in v'.u.active
  {
    TagRoundTrip(EVENT_ACCEPT, listen, 0);
  }

  lemma OneShortage(w: World, listen: nat)
    requires w.u.armed == [Accept(listen), Recv(5)] && w.u.sq == [] && w.cq == [] && 5 in w.u.active
    ensures Enabled(Next(w, RecvEnded(1, -ENOBUFS, false)), Process(1, 1))
    ensures var v' := Next(Next(w, RecvEnded(1, -ENOBUFS, false)), Process(1, 1));
      5 in v'.u.active && v'.u.Outstanding() == [Accept(listen), Recv(5), Recv(5)] && v'.cq == []
  {
    TagRoundTrip(EVENT_RECV, 5, 0);
    var v := Next(w, RecvEnded(1, -ENOBUFS, false));
    assert v.u.armed == [Accept(listen)] && v.cq == [Cqe(Recv(5).Tag(), -ENOBUFS, 0)];
  }

  /** A state in which the listener's accept is armed and k receives wait in the queue. */
  ghost predicate Waiting(w: World, listen: nat, k: nat) {
    w.u.armed == [Accept(listen)] && |w.u.sq| == k && w.cq == [] && forall op | op in w.u.sq :: op.Recv? && op.fd < k
  }

  /** One more connection is accepted while nothing is submitted. */
  lemma AcceptOne(w: World, listen: nat, k: nat)
    requires listen < MAX_FDS && Waiting(w, listen, k) && k < ENTRIES
    ensures Enabled(w, Accepted(0, k, true)) && Enabled(Next(w, Accepted(0, k, true)), Process(1, 1))
    ensures Waiting(Next(Next(w, Accepted(0, k, true)), Process(1, 1)), listen, k + 1)
  {
    TagRoundTrip(EVENT_ACCEPT, listen, 0);
  }

  lemma {:induction false} FillQueue(w: World, listen: nat, k: nat) returns (moves: seq<Move>)
    requires listen < MAX_FDS && Waiting(w, listen, k) && k <= ENTRIES
    ensures Possible(w, moves) && Waiting(Run(w, moves), listen, ENTRIES)
    decreases ENTRIES - k
  {
    if k == ENTRIES {
      moves := [];
    } else {
      AcceptOne(w, listen, k);
      var a, p := Accepted(0, k, true), Process(1, 1);
      var rest := FillQueue(Next(Next(w, a), p), listen, k + 1);
      RunTwo(w, a, p, rest);
      moves := [a] + ([p] + rest);
    }
  }

  lemma LastAccept(w: World, listen: nat)
    requires listen < MAX_FDS && Waiting(w, listen, ENTRIES)
    ensures Possible(w, [Accepted(0, -EAGAIN, false)] + [Process(0, 0)])
    ensures var v := Run(w, [Accepted(0, -EAGAIN, false)] + [Process(0, 0)]);
      Live(v.u, v.cq, Accept(listen)) == 0
  {
    TagRoundTrip(EVENT_ACCEPT, listen, 0);
    var a, p := Accepted(0, -EAGAIN, false), Process(0, 0);
    var w1 := Next(w, a);
    assert w1.u.armed == [] && w1.cq == [Cqe(Accept(listen).Tag(), -EAGAIN, 0)];
    var v := Next(w1, p);
    assert v.u.armed == [] && v.u.sq == w.u.sq && v.cq == [];
    assert Accept(listen) !in v.u.Outstanding();
    RunThen(w1, p, []);
    assert [p] + [] == [p];
    RunThen(w, a, [p]);
  }

  lemma {:induction false} RunConcat(w: World, a: seq<Move>, b: seq<Move>)
    requires Possible(w, a) && Possible(Run(w, a), b)
    ensures Possible(w, a + b) && Run(w, a + b) == Run(Run(w, a), b)
    decreases |a|
  {
    if a == [] {
      assert a + b == b;
    } else {
      var ab := a + b;
      ConcatHead(a, b);
      RunConcat(Next(w, a[0]), a[1..], b);
      assert Run(w, a) == Run(Next(w, a[0]), a[1..]);
      assert Run(w, ab) == Run(Next(w, a[0]), a[1..] + b);
    }
  }

  /** Where a flush takes nothing the listener can be lost: a run from the start after which no
      accept is armed, queued or waiting to be re-armed. */
  lemma ListenerCanBeLost(listen: nat) returns (moves: seq<Move>)
    requires listen < MAX_FDS
    ensures Possible(Start(listen), moves)
    ensures Live(Run(Start(listen), moves).u, Run(Start(listen), moves).cq, Accept(listen)) == 0
  {
    var w0 := Start(listen);
    var w1 := Next(w0, Submit(1));
    assert Waiting(w1, listen, 0);
    var fill := FillQueue(w1, listen, 0);
    LastAccept(Run(w1, fill), listen);
    var end := [Accepted(0, -EAGAIN, false)] + [Process(0, 0)];
    RunConcat(w1, fill, end);
    RunThen(w0, Submit(1), fill + end);
    moves := [Submit(1)] + (fill + end);
  }

  lemma DeafAccepted(w: World, listen: nat)
    requires listen < MAX_FDS && Waiting(w, listen, ENTRIES)
    ensures Possible(w, [Accepted(0, ENTRIES, true)] + ([Process(0, 0)] + []))
    ensures var v := Run(w, [Accepted(0, ENTRIES, true)] + ([Process(0, 0)] + []));
      ENTRIES in v.u.active && Live(v.u, v.cq, Recv(ENTRIES)) == 0
  {
    var a, p := Accepted(0, ENTRIES, true), Process(0, 0);
    TagRoundTrip(EVENT_ACCEPT, listen, 0);
    var w1 := Next(w, a);
    assert w1.cq == [Cqe(Accept(listen).Tag(), ENTRIES, 2)];
    var v := Next(w1, p);
    assert v.u.sq == w.u.sq && v.u.armed == w.u.armed && v.cq == [];
    assert Recv(ENTRIES) !in v.u.Outstanding();
    RunTwo(w, a, p, []);
  }

  /** Nor does a connection that is accepted onto a full queue get its receive: a run from the start
      that leaves it connected, with no receive armed, queued or waiting to be re-armed. */
  lemma ConnectionCanBeDeaf(listen: nat) returns (moves: seq<Move>)
    requires listen < MAX_FDS
    ensures Possible(Start(listen), moves)
    ensures var v := Run(Start(listen), moves);
      Connected(Processed(Start(listen), moves), ENTRIES) && Live(v.u, v.cq, Recv(ENTRIES)) == 0
  {
    var w0 := Start(listen);
    var w1 := Next(w0, Submit(1));
    assert Waiting(w1, listen, 0);
    var fill := FillQueue(w1, listen, 0);
    DeafAccepted(Run(w1, fill), listen);
    var end := [Accepted(0, ENTRIES, true)] + ([Process(0, 0)] + []);
    RunConcat(w1, fill, end);
    RunThen(w0, Submit(1), fill + end);
    moves := [Submit(1)] + (fill + end);
    ActiveIff(listen, moves, ENTRIES);
  }
}
