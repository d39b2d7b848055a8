/** io_uring_opt_server.c as it runs: static tables, the shared buffer ring and a bounded
    submission queue, updated in place by the completion loop.

    Every method is proved to do what UringOpt says of the values it stands for. */
module UringOptServer {
  import opened Kernel
  import opened Tags
  import opened BufferRing
  import opened UringOpt
  import opened UringBuffers

  datatype ConnState = ConnState(fd: int, active: bool)

  class Server {
    const br: BufRing
    const conns: array<ConnState>
    var sq: seq<Op>
    var armed: seq<Op>  // what the kernel has accepted and not completed
    var events: nat
    var requests: nat

    ghost predicate Valid()
      reads this, br, br.bids, conns
    {
      br.Valid() && conns.Length == MAX_FDS && br.Value().Count() <= BUF_RING_ENTRIES
    }

    ghost function Active(): set<nat>
      reads this, conns
    {
      set fd: nat | fd < conns.Length && conns[fd].active
    }

    ghost function View(): User
      reads this, br, br.bids, conns
      requires Valid()
    {
      User(br.Value().Fifo(), Active(), sq, armed, events, requests)
    }

    constructor (listen_fd: nat)
      ensures Valid() && fresh(br) && fresh(br.bids) && fresh(conns)
      ensures View() == User(AllBids(), {}, [Accept(listen_fd)], [], 0, 0)
    {
      br := new BufRing();
      conns := new ConnState[MAX_FDS](_ => ConnState(0, false));
      sq, armed, events, requests := [Accept(listen_fd)], [], 0, 0;
      new;
      assert |br.Value().Fifo()| == |AllBids()|;
      assert Active() == {};
    }

    /** io_uring_submit, taking k entries or as many as there are. */
    method Submit(k: nat)
      requires Valid()
      modifies `sq, `armed
      ensures Valid() && View() == old(View()).Flush(k)
    {
      var n := Min(k, |sq|);
      armed := armed + sq[..n];
      sq := sq[n..];
    }

    /** Flushes a full queue once; reports whether an entry can be had. */
    method GetSqeSafe(flush: nat) returns (ok: bool)
      requires Valid()
      modifies `sq, `armed
      ensures Valid() && View() == old(View()).MakeRoom(flush) && ok == old(View()).HasSqe(flush)
    {
      if |sq| >= ENTRIES {
        Submit(flush);
      }
      ok := |sq| < ENTRIES;
    }

    method AddMultishotAccept(listen_fd: nat, flush: nat)
      requires Valid()
      modifies `sq, `armed
      ensures Valid() && View() == old(View()).Push(Accept(listen_fd), flush)
    {
      var ok := GetSqeSafe(flush);
      if !ok {
        return;
      }
      sq := sq + [Accept(listen_fd)];
    }

    method AddMultishotRecv(fd: nat, flush: nat)
      requires Valid()
      modifies `sq, `armed
      ensures Valid() && View() == old(View()).Push(Recv(fd), flush)
    {
      var ok := GetSqeSafe(flush);
      if !ok {
        return;
      }
      sq := sq + [Recv(fd)];
    }

    /** The buffer is out, so the ring has room for it. */
    method ReturnBuffer(bid: nat)
      requires Valid() && br.Value().Count() < BUF_RING_ENTRIES && bid !in br.Value().Fifo()
      modifies br, br.bids
      ensures Valid() && View() == old(View()).Return(bid)
    {
      br.ReturnBuffer(bid);
      assert |br.Value().Fifo()| <= BUF_RING_ENTRIES;
    }

    method AddSend(fd: nat, bid: nat, len: nat, flush: nat)
      requires Valid() && br.Value().Count() < BUF_RING_ENTRIES && bid !in br.Value().Fifo()
      modifies `sq, `armed, br, br.bids
      ensures Valid() && View() == old(View()).PushSend(Send(fd, bid, len), flush)
    {
      var ok := GetSqeSafe(flush);
      if !ok {
        ReturnBuffer(bid);
        return;
      }
      sq := sq + [Send(fd, bid, len)];
    }

    method SetActive(fd: nat, active: bool)
      requires Valid() && fd < MAX_FDS
      modifies conns
      ensures Valid()
      ensures View() == old(View()).(active := if active then old(Active()) + {fd} else old(Active()) - {fd})
    {
      conns[fd] := ConnState(fd, active);
    }

    method Rearm(c: Cqe, fd: nat, flush: nat)
      requires Valid() && fd < MAX_FDS
      modifies `sq, `armed
      ensures Valid() && View() == old(View()).Rearm(c, fd, flush)
    {
      if conns[fd].active && !c.More() {
        AddMultishotRecv(fd, flush);
      }
    }

    method OnAccept(c: Cqe, flush1: nat, flush2: nat)
      requires Valid()
      modifies this, conns
      ensures Valid() && View() == HandleAccept(old(View()), c, flush1, flush2)
    {
      if 0 <= c.res < MAX_FDS {
        SetActive(c.res, true);
        AddMultishotRecv(c.res, flush1);
      }
      if !c.More() {
        AddMultishotAccept(TagFd(c.tag), flush2);
      }
    }

    method OnData(c: Cqe, fd: nat, flush1: nat, flush2: nat)
      requires Valid() && fd < MAX_FDS && c.res > 0
      requires br.Value().Count() < BUF_RING_ENTRIES && c.Bid() !in br.Value().Fifo()
      modifies this, conns, br, br.bids
      ensures Valid()
      ensures View() == old(View()).(events := old(View()).events + 1)
                        .PushSend(Send(fd, c.Bid(), c.res as nat), flush1).Rearm(c, fd, flush2)
    {
      CountEvent();
      AddSend(fd, c.Bid(), c.res, flush1);
      Rearm(c, fd, flush2);
    }

    method CountEvent()
      requires Valid()
      modifies `events
      ensures Valid() && View() == old(View()).(events := old(View()).events + 1)
    {
      events := events + 1;
    }

    method OnRecv(c: Cqe, flush1: nat, flush2: nat)
      requires Valid() && TagFd(c.tag) < MAX_FDS
      requires c.res > 0 ==> br.Value().Count() < BUF_RING_ENTRIES && c.Bid() !in br.Value().Fifo()
      modifies this, conns, br, br.bids
      ensures Valid() && View() == HandleRecv(old(View()), c, flush1, flush2)
    {
      var fd := TagFd(c.tag);
      if c.res > 0 {
        OnData(c, fd, flush1, flush2);
      } else if c.res == -ENOBUFS {
        AddMultishotRecv(fd, flush1);
        Rearm(c, fd, flush2);
      } else if c.res == -EAGAIN || c.res == -EINTR {
        Rearm(c, fd, flush1);
        Rearm(c, fd, flush2);
      } else {
        SetActive(fd, false);
      }
    }

    method OnSend(c: Cqe)
      requires Valid() && TagFd(c.tag) < MAX_FDS
      requires br.Value().Count() < BUF_RING_ENTRIES && TagBid(c.tag) !in br.Value().Fifo()
      modifies this, conns, br, br.bids
      ensures Valid() && View() == HandleSend(old(View()), c)
    {
      ReturnBuffer(TagBid(c.tag));
      if c.res < 0 && c.res != -EAGAIN && c.res != -EINTR {
        SetActive(TagFd(c.tag), false);
      } else if c.res > 0 {
        requests := requests + 1;
      }
    }

    /** The kernel's side: a receive takes the next free buffer. */
    method KernelTakes() returns (bid: nat)
      requires Valid() && View().free != []
      modifies br
      ensures Valid() && bid == old(View()).free[0] && View() == old(View()).(free := old(View()).free[1..])
    {
      bid := br.Take();
      assert |br.Value().Fifo()| <= BUF_RING_ENTRIES;
    }

    /** The kernel's side: an operation completes, for good unless it announces more. */
    method KernelCompletes(i: nat, more: bool)
      requires Valid() && i < |armed|
      modifies `armed
      ensures Valid() && View() == Completed(old(View()), i, more)
    {
      if !more {
        armed := Without(armed, i);
      }
    }

    /** The completion loop over one batch. That each completion's buffer is outside the ring,
        and the ring therefore has room, is not checked by the code: it follows from the buffers
        of the process and of the batch being distinct. */
    method ProcessBatch(cqes: seq<Cqe>, flushes: seq<(nat, nat)>, listen: nat)
      requires Valid() && |flushes| == |cqes| && forall c | c in cqes :: c.Valid(listen)
      requires UserHeld(View()) + multiset(CqBids(cqes)) <= multiset(AllBids())
      modifies this, conns, br, br.bids
      ensures Valid() && View() == HandleAll(old(View()), cqes, flushes)
    {
      ghost var goal := HandleAll(View(), cqes, flushes);
      for i := 0 to |cqes|
        invariant Valid()
        invariant goal == HandleAll(View(), cqes[i..], flushes[i..])
        invariant UserHeld(View()) + multiset(CqBids(cqes[i..])) <= multiset(AllBids())
      {
        var c, flush := cqes[i], flushes[i];
        assert c in cqes && cqes[i..][0] == c && cqes[i..][1..] == cqes[i + 1..];
        assert flushes[i..][0] == flush && flushes[i..][1..] == flushes[i + 1..];
        BufferIsOut(View(), cqes[i..]);
        HandleHeld(View(), c, flush.0, flush.1);
        Dispatch(c, flush.0, flush.1);
      }
    }

    method Dispatch(c: Cqe, flush1: nat, flush2: nat)
      requires Valid() && (TagType(c.tag) == EVENT_RECV || TagType(c.tag) == EVENT_SEND ==> TagFd(c.tag) < MAX_FDS)
      requires forall b | b in CqeBid(c) :: br.Value().Count() < BUF_RING_ENTRIES && b !in br.Value().Fifo()
      modifies this, conns, br, br.bids
      ensures Valid() && View() == Handle(old(View()), c, flush1, flush2)
    {
      if TagType(c.tag) == EVENT_ACCEPT {
        OnAccept(c, flush1, flush2);
      } else if TagType(c.tag) == EVENT_RECV {
        assert c.res > 0 ==> c.Bid() in CqeBid(c);
        OnRecv(c, flush1, flush2);
      } else if TagType(c.tag) == EVENT_SEND {
        assert TagBid(c.tag) in CqeBid(c);
        OnSend(c);
      }
    }
  }

  /** Whatever part of the pending completions a batch takes, the invariants of the whole run give
      what ProcessBatch needs. */
  lemma BatchReady(w: World, listen: nat, n: nat)
    requires UringOpt.Valid(w, listen) && Conserved(w) && n <= |w.cq|
    ensures forall c | c in w.cq[..n] :: c.Valid(listen)
    ensures UserHeld(w.u) + multiset(CqBids(w.cq[..n])) <= multiset(AllBids())
  {
    assert w.cq == w.cq[..n] + w.cq[n..];
    CqBidsConcat(w.cq[..n], w.cq[n..]);
    assert forall c | c in w.cq[..n] :: c in w.cq;
  }

  /** What the processing of the oldest completion needs. */
  lemma DispatchReady(w: World, listen: nat)
    requires UringOpt.Valid(w, listen) && Conserved(w) && w.cq != []
    ensures w.cq[0].Valid(listen)
    ensures forall b | b in CqeBid(w.cq[0]) :: |w.u.free| < BUF_RING_ENTRIES && b !in w.u.free
  {
    assert w.cq[..|w.cq|] == w.cq && w.cq[0] in w.cq;
    BatchReady(w, listen, |w.cq|);
    BufferIsOut(w.u, w.cq);
  }

  /** The server together with the completions that the kernel has posted for it. */
  class Machine {
    const server: Server
    var cq: seq<Cqe>

    ghost predicate Follows(w: World)
      reads this, server, server.br, server.br.bids, server.conns
    {
      server.Valid() && server.View() == w.u && cq == w.cq
    }

    constructor (listen: nat)
      ensures Follows(Start(listen))
      ensures fresh(server) && fresh(server.br) && fresh(server.br.bids) && fresh(server.conns)
    {
      server := new Server(listen);
      cq := [];
    }

    /** A completion of the kernel other than one that delivers data. */
    method Post(i: nat, res: int, more: bool)
      requires server.Valid() && i < |server.armed|
      modifies this, server`armed
      ensures server.Valid() && server.View() == Completed(old(server.View()), i, more)
      ensures cq == old(cq) + [Cqe(old(server.armed)[i].Tag(), res, if more then 2 else 0)]
    {
      cq := cq + [Cqe(server.armed[i].Tag(), res, if more then 2 else 0)];
      server.KernelCompletes(i, more);
    }

    /** A receive delivers data: it takes a buffer and posts a completion that names it. */
    method Deliver(i: nat, len: nat, more: bool)
      requires server.Valid() && server.View().free != [] && i < |server.armed|
      modifies this, server`armed, server.br
      ensures server.Valid()
      ensures var u := old(server.View()); server.View() == Completed(u.(free := u.free[1..]), i, more)
      ensures cq == old(cq) + [Cqe(old(server.armed)[i].Tag(), len, Flags(old(server.View()).free[0], more))]
    {
      var bid := server.KernelTakes();
      cq := cq + [Cqe(server.armed[i].Tag(), len, Flags(bid, more))];
      server.KernelCompletes(i, more);
    }

    /** One step of kernel or process. That the process never returns a buffer to a full ring, or
        one that is in the ring, is not assumed: it holds in every state that the invariants
        describe. */
    method Step(m: Move, ghost w: World, listen: nat)
      requires Follows(w) && UringOpt.Valid(w, listen) && Conserved(w) && Enabled(w, m)
      modifies this, server, server.br, server.br.bids, server.conns
      ensures Follows(Next(w, m))
    {
      match m {
        case Submit(k) => server.Submit(k);
        case Accepted(i, res, more) => Post(i, res, more);
        case Received(i, data, more) => Deliver(i, |data|, more);
        case RecvEnded(i, res, more) => Post(i, res, more);
        case SendDone(i, res) => Post(i, res, false);
        case Process(flush1, flush2) =>
          DispatchReady(w, listen);
          server.Dispatch(cq[0], flush1, flush2);
          cq := cq[1..];
      }
    }
  }

  /** The program from its start: the objects reach exactly the states of the model, on every run.
      So every call on the way finds what it requires. */
  method Drive(moves: seq<Move>, listen: nat) returns (machine: Machine)
    requires listen < MAX_FDS && Possible(Start(listen), moves)
    ensures fresh(machine) && machine.Follows(Run(Start(listen), moves))
  {
    machine := new Machine(listen);
    ghost var w, goal := Start(listen), Run(Start(listen), moves);
    StartConserved(listen);
    for k := 0 to |moves|
      invariant UringOpt.Valid(w, listen) && Conserved(w) && machine.Follows(w)
      invariant Possible(w, moves[k..]) && Run(w, moves[k..]) == goal
      invariant fresh(machine) && fresh(machine.server) && fresh(machine.server.br)
      invariant fresh(machine.server.br.bids) && fresh(machine.server.conns)
    {
      assert moves[k..][0] == moves[k] && moves[k..][1..] == moves[k + 1..];
      machine.Step(moves[k], w, listen);
      NextValid(w, moves[k], listen);
      NextConserved(w, moves[k], listen);
      w := Next(w, moves[k]);
    }
  }

  function HandleAll(u: User, cqes: seq<Cqe>, flushes: seq<(nat, nat)>): User
    requires |cqes| == |flushes|
    decreases |cqes|
  {
    if cqes == [] then u
    else HandleAll(Handle(u, cqes[0], flushes[0].0, flushes[0].1), cqes[1..], flushes[1..])
  }

  /** Where every id occurs at most once, the buffer of the next completion is not in the ring,
      and the ring is not full. */
  lemma BufferIsOut(u: User, cqes: seq<Cqe>)
    requires cqes != [] && UserHeld(u) + multiset(CqBids(cqes)) <= multiset(AllBids())
    ensures forall b | b in CqeBid(cqes[0]) :: |u.free| < BUF_RING_ENTRIES && b !in u.free
  {
    forall b | b in CqeBid(cqes[0])
      ensures |u.free| < BUF_RING_ENTRIES && b !in u.free
    {
      PrefixOnce(BUF_RING_ENTRIES, b);
      assert AllBids()[..BUF_RING_ENTRIES] == AllBids();
      assert b in multiset(CqBids(cqes));
      var bag := multiset(u.free) + multiset{b};
      assert bag <= UserHeld(u) + multiset(CqBids(cqes));
      assert bag[b] <= 1;
      BagSize(bag, multiset(AllBids()));
      assert |bag| == |u.free| + 1;
      assert |multiset(AllBids())| == |AllBids()|;
    }
  }

  lemma BagSize(a: multiset<nat>, b: multiset<nat>)
    requires a <= b
    ensures |a| <= |b|
  {
    assert b == a + (b - a);
  }
}
