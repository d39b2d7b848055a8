/** Which connections io_uring_opt_server.c holds active, told from the completions it has processed:
    an accept makes a descriptor active, and only the end of its stream or an error that is not
    transient, of a receive or of a send, makes it inactive again. */
module UringActive {
  import opened Kernel
  import opened Tags
  import opened UringOpt

  /** The completion that a move processes. */
  function Seen(w: World, m: Move): seq<Cqe>
    requires Enabled(w, m)
  {
    if m.Process? then [w.cq[0]] else []
  }

  /** The completions that a run processes, in order. */
  ghost function Processed(w: World, moves: seq<Move>): seq<Cqe>
    requires Possible(w, moves)
    decreases |moves|
  {
    if moves == [] then [] else Seen(w, moves[0]) + Processed(Next(w, moves[0]), moves[1..])
  }

  /** An accept that returned the descriptor, and conns[] can hold it. */
  predicate Opens(c: Cqe, fd: nat) {
    TagType(c.tag) == EVENT_ACCEPT && c.res == fd && fd < MAX_FDS
  }

  /** A receive on the descriptor that met the end of its stream, or a receive or send on it that failed
      for good. */
  predicate Closes(c: Cqe, fd: nat) {
    && TagFd(c.tag) == fd
    && (|| (TagType(c.tag) == EVENT_RECV && c.res <= 0 && c.res !in {-ENOBUFS, -EAGAIN, -EINTR})
        || (TagType(c.tag) == EVENT_SEND && c.res < 0 && c.res !in {-EAGAIN, -EINTR}))
  }

  /** Accepted, and not closed since. */
  ghost predicate Connected(log: seq<Cqe>, fd: nat) {
    exists i | 0 <= i < |log| :: Opens(log[i], fd) && NoneCloses(log[i + 1..], fd)
  }

  ghost predicate NoneCloses(log: seq<Cqe>, fd: nat) {
    forall j | 0 <= j < |log| :: !Closes(log[j], fd)
  }

  lemma ConnectedAppend(log: seq<Cqe>, c: Cqe, fd: nat)
    ensures Connected(log + [c], fd) <==> Opens(c, fd) || (Connected(log, fd) && !Closes(c, fd))
  {
    var all := log + [c];
    if Opens(c, fd) {
      assert all[|log|] == c && NoneCloses(all[|log| + 1..], fd);
    }
    forall i | 0 <= i < |log|
      ensures NoneCloses(all[i + 1..], fd) <==> NoneCloses(log[i + 1..], fd) && !Closes(c, fd)
      ensures all[i] == log[i]
    {
      assert all[i + 1..] == log[i + 1..] + [c];
      NoneClosesAppend(log[i + 1..], c, fd);
    }
  }

  lemma NoneClosesAppend(log: seq<Cqe>, c: Cqe, fd: nat)
    ensures NoneCloses(log + [c], fd) <==> NoneCloses(log, fd) && !Closes(c, fd)
  {
    var all := log + [c];
    assert all[|log|] == c && forall j | 0 <= j < |log| :: all[j] == log[j];
  }

  lemma HandleActiveIff(u: User, c: Cqe, flush1: nat, flush2: nat, fd: nat)
    ensures fd in Handle(u, c, flush1, flush2).active <==> Opens(c, fd) || (fd in u.active && !Closes(c, fd))
  {
  }

  /** The table conns[] and the completions processed agree. */
  ghost predicate Agrees(u: User, log: seq<Cqe>) {
    forall fd: nat :: fd in u.active <==> Connected(log, fd)
  }

  lemma NextAgrees(w: World, m: Move, log: seq<Cqe>)
    requires Enabled(w, m) && Agrees(w.u, log)
    ensures Agrees(Next(w, m).u, log + Seen(w, m))
  {
    if m.Process? {
      forall fd: nat ensures fd in Next(w, m).u.active <==> Connected(log + [w.cq[0]], fd) {
        HandleActiveIff(w.u, w.cq[0], m.flush1, m.flush2, fd);
        ConnectedAppend(log, w.cq[0], fd);
      }
    } else {
      assert log + [] == log;
    }
  }

  lemma {:induction false} RunAgrees(w: World, moves: seq<Move>, log: seq<Cqe>)
    requires Possible(w, moves) && Agrees(w.u, log)
    ensures Agrees(Run(w, moves).u, log + Processed(w, moves))
    decreases |moves|
  {
    if moves == [] {
      assert log + [] == log;
    } else {
      NextAgrees(w, moves[0], log);
      RunAgrees(Next(w, moves[0]), moves[1..], log + Seen(w, moves[0]));
      assert log + Processed(w, moves) == (log + Seen(w, moves[0])) + Processed(Next(w, moves[0]), moves[1..]);
    }
  }

  /** From the start, over every run: a descriptor is active if and only if some processed accept
      returned it and no completion processed since closes it. */
  lemma ActiveIff(listen: nat, moves: seq<Move>, fd: nat)
    requires Possible(Start(listen), moves)
    ensures fd in Run(Start(listen), moves).u.active <==> Connected(Processed(Start(listen), moves), fd)
  {
    RunAgrees(Start(listen), moves, []);
    assert [] + Processed(Start(listen), moves) == Processed(Start(listen), moves);
  }

  // ---------------------------------------------------------------- counters

  function DataCqes(log: seq<Cqe>): nat {
    if log == [] then 0 else One(TagType(log[0].tag) == EVENT_RECV && log[0].res > 0) + DataCqes(log[1..])
  }

  function SentCqes(log: seq<Cqe>): nat {
    if log == [] then 0 else One(TagType(log[0].tag) == EVENT_SEND && log[0].res > 0) + SentCqes(log[1..])
  }

  /** Submissions count nothing. */
  ghost predicate SameCounts(u: User, v: User) {
    v.events == u.events && v.requests == u.requests
  }

  lemma PushCounts(u: User, op: Op, flush: nat)
    ensures SameCounts(u, u.Push(op, flush)) && (op.Send? ==> SameCounts(u, u.PushSend(op, flush)))
  {
  }

  lemma RearmCounts(u: User, c: Cqe, fd: nat, flush: nat)
    ensures SameCounts(u, u.Rearm(c, fd, flush))
  {
    PushCounts(u, Recv(fd), flush);
  }

  lemma AcceptCounts(u: User, c: Cqe, flush1: nat, flush2: nat)
    ensures SameCounts(u, HandleAccept(u, c, flush1, flush2))
  {
    if 0 <= c.res < MAX_FDS {
      PushCounts(u.(active := u.active + {c.res as nat}), Recv(c.res as nat), flush1);
    }
    PushCounts(Admit(u, c.res, flush1), Accept(TagFd(c.tag)), flush2);
  }

  lemma RecvCounts(u: User, c: Cqe, flush1: nat, flush2: nat)
    ensures var v := HandleRecv(u, c, flush1, flush2);
      v.events == u.events + One(c.res > 0) && v.requests == u.requests
  {
    var fd := TagFd(c.tag);
    if c.res > 0 {
      var v, op := u.(events := u.events + 1), Send(fd, c.Bid(), c.res as nat);
      PushCounts(v, op, flush1);
      RearmCounts(v.PushSend(op, flush1), c, fd, flush2);
    } else if c.res == -ENOBUFS {
      PushCounts(u, Recv(fd), flush1);
      RearmCounts(u.Push(Recv(fd), flush1), c, fd, flush2);
    } else if c.Transient() {
      RearmCounts(u, c, fd, flush1);
      RearmCounts(u.Rearm(c, fd, flush1), c, fd, flush2);
    }
  }

  lemma HandleCounts(u: User, c: Cqe, flush1: nat, flush2: nat)
    ensures var v := Handle(u, c, flush1, flush2);
      && v.events == u.events + One(TagType(c.tag) == EVENT_RECV && c.res > 0)
      && v.requests == u.requests + One(TagType(c.tag) == EVENT_SEND && c.res > 0)
  {
    if TagType(c.tag) == EVENT_ACCEPT {
      AcceptCounts(u, c, flush1, flush2);
    } else if TagType(c.tag) == EVENT_RECV {
      RecvCounts(u, c, flush1, flush2);
    }
  }

  /** The two STATS counters count the receives that brought data and the sends that moved any. */
  lemma {:induction false} CountersCount(w: World, moves: seq<Move>)
    requires Possible(w, moves)
    ensures var v, log := Run(w, moves), Processed(w, moves);
      v.u.events == w.u.events + DataCqes(log) && v.u.requests == w.u.requests + SentCqes(log)
    decreases |moves|
  {
    if moves != [] {
      var rest := Processed(Next(w, moves[0]), moves[1..]);
      CountersCount(Next(w, moves[0]), moves[1..]);
      if moves[0].Process? {
        HandleCounts(w.u, w.cq[0], moves[0].flush1, moves[0].flush2);
        assert ([w.cq[0]] + rest)[1..] == rest;
      } else {
        assert [] + rest == rest;
      }
    }
  }
}
