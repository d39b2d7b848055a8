/** io_uring_opt_server.c: a multishot accept, multishot receives that draw from a shared pool
    of 8192 buffers, and sends that give the buffers back.

    User is what the process holds; Handle is its treatment of one completion. World adds the
    kernel: operations it has accepted, completions not yet processed, and the contents of the
    buffers. Everything below holds after any interleaving of the two. */
module UringOpt {
  import opened Kernel
  import opened Division
  import opened Tags
  import opened BufferRing

  const ENTRIES: nat := 16384
  const MAX_FDS: nat := 65536

  const EVENT_ACCEPT: nat := 0
  const EVENT_RECV: nat := 1
  const EVENT_SEND: nat := 2

  const EINTR: int := 4
  const EAGAIN: int := 11
  const ENOBUFS: int := 105

  /** A submission: what its SQE asks for. */
  datatype Op = Accept(fd: nat) | Recv(fd: nat) | Send(fd: nat, bid: nat, len: nat) {
    /** user_data */
    function Tag(): nat {
      match this
      case Accept(fd) => MakeTag(EVENT_ACCEPT, fd, 0)
      case Recv(fd) => MakeTag(EVENT_RECV, fd, 0)
      case Send(fd, bid, _) => MakeTag(EVENT_SEND, fd, bid)
    }

    /** Descriptors index conns[], buffer ids index buf_storage[], and only the listener accepts. */
    predicate Valid(listen: nat) {
      && fd < MAX_FDS
      && (Accept? ==> fd == listen)
      && (Send? ==> bid < BUF_RING_ENTRIES && 0 < len <= BUF_SIZE)
    }
  }

  /** A completion as the process sees it. */
  datatype Cqe = Cqe(tag: nat, res: int, flags: nat) {
    predicate More() {
      flags / 2 % 2 == 1
    }

    /** flags >> IORING_CQE_BUFFER_SHIFT */
    function Bid(): nat {
      flags / P16
    }

    predicate IsData() {
      TagType(tag) == EVENT_RECV && res > 0
    }

    predicate IsSend() {
      TagType(tag) == EVENT_SEND
    }

    predicate Transient() {
      res == -EAGAIN || res == -EINTR
    }

    /** What the kernel's contract makes of a completion: its tag is that of a submission, and
        a successful receive carries a buffer and at most a buffer's worth of bytes. */
    predicate Valid(listen: nat) {
      && (TagType(tag) == EVENT_ACCEPT ==> TagFd(tag) == listen)
      && (TagType(tag) == EVENT_RECV || TagType(tag) == EVENT_SEND ==> TagFd(tag) < MAX_FDS)
      && (IsData() ==> Bid() < BUF_RING_ENTRIES && res <= BUF_SIZE)
      && (IsSend() ==> TagBid(tag) < BUF_RING_ENTRIES)
    }
  }

  /** The process: free buffers in ring order, active descriptors, the submission queue, the
      operations handed to the kernel by a flush, and the STATS counters. */
  datatype User = User(free: seq<nat>, active: set<nat>, sq: seq<Op>, armed: seq<Op>,
                       events: nat, requests: nat)
  {
    /** Every operation that has been submitted and not completed. */
    function Outstanding(): seq<Op> {
      armed + sq
    }

    /** io_uring_submit, which takes k entries or as many as there are. */
    function Flush(k: nat): User {
      var n := Min(k, |sq|);
      this.(sq := sq[n..], armed := armed + sq[..n])
    }

    /** get_sqe_safe: flush a full queue once, taking the given number of entries. */
    function MakeRoom(flush: nat): User {
      if |sq| < ENTRIES then this else Flush(flush)
    }

    predicate HasSqe(flush: nat) {
      |MakeRoom(flush).sq| < ENTRIES
    }

    /** get_sqe_safe and io_uring_prep_*: queued if an entry is found. */
    function Push(op: Op, flush: nat): User {
      var u := MakeRoom(flush);
      if HasSqe(flush) then u.(sq := u.sq + [op]) else u
    }

    function Return(bid: nat): User {
      this.(free := free + [bid])
    }

    /** add_send, which gives the buffer back when no entry is found. */
    function PushSend(op: Op, flush: nat): User
      requires op.Send?
    {
      var u := Push(op, flush);
      if HasSqe(flush) then u else u.Return(op.bid)
    }

    function Rearm(c: Cqe, fd: nat, flush: nat): User {
      if fd in active && !c.More() then Push(Recv(fd), flush) else this
    }
  }

  /** A new connection becomes active and gets its receive, if conns[] can hold it. */
  function Admit(u: User, res: int, flush: nat): User {
    if 0 <= res < MAX_FDS then u.(active := u.active + {res as nat}).Push(Recv(res as nat), flush) else u
  }

  function HandleAccept(u: User, c: Cqe, flush1: nat, flush2: nat): User {
    var v := Admit(u, c.res, flush1);
    if c.More() then v else v.Push(Accept(TagFd(c.tag)), flush2)
  }

  function HandleRecv(u: User, c: Cqe, flush1: nat, flush2: nat): User {
    var fd := TagFd(c.tag);
    if c.res > 0 then
      u.(events := u.events + 1).PushSend(Send(fd, c.Bid(), c.res as nat), flush1).Rearm(c, fd, flush2)
    else if c.res == -ENOBUFS then u.Push(Recv(fd), flush1).Rearm(c, fd, flush2)
    else if c.Transient() then u.Rearm(c, fd, flush1).Rearm(c, fd, flush2)
    else u.(active := u.active - {fd})
  }

  function HandleSend(u: User, c: Cqe): User {
    var v := u.Return(TagBid(c.tag));
    if c.res < 0 && !c.Transient() then v.(active := v.active - {TagFd(c.tag)})
    else if c.res > 0 then v.(requests := v.requests + 1)
    else v
  }

  /** The body of the completion loop. The flush arguments say how many entries io_uring_submit
      would take if get_sqe_safe had to call it, at the first and the second submission. */
  function Handle(u: User, c: Cqe, flush1: nat, flush2: nat): User {
    if TagType(c.tag) == EVENT_ACCEPT then HandleAccept(u, c, flush1, flush2)
    else if TagType(c.tag) == EVENT_RECV then HandleRecv(u, c, flush1, flush2)
    else if TagType(c.tag) == EVENT_SEND then HandleSend(u, c)
    else u
  }

  // ---------------------------------------------------------------- the world

  /** A message: bytes for a descriptor. */
  datatype Message = Message(fd: nat, data: Bytes)

  /** received: what the kernel delivered, in the order of its completions. processed: what the
      completion loop has seen of it. handed: what was passed to a send, in order. sent: what the
      kernel read from the buffers when it carried the sends out. drops and failed count the
      messages that add_send gave up and the sends that completed without success. */
  datatype World = World(u: User, cq: seq<Cqe>, storage: seq<Bytes>,
                         received: seq<Message>, processed: seq<Message>, handed: seq<Message>,
                         sent: seq<Message>, drops: nat, failed: nat)

  datatype Move =
    | Submit(k: nat)
    | Accepted(i: nat, res: int, more: bool)
    | Received(i: nat, data: Bytes, more: bool)
    | RecvEnded(i: nat, res: int, more: bool)
    | SendDone(i: nat, res: int)
    | Process(flush1: nat, flush2: nat)

  function Start(listen: nat): World {
    World(User(AllBids(), {}, [Accept(listen)], [], 0, 0), [], seq(BUF_RING_ENTRIES, _ => []),
          [], [], [], [], 0, 0)
  }

  function Flags(bid: nat, more: bool): nat {
    bid * P16 + (if more then 2 else 0) + 1
  }

  /** The kernel completes only what it has accepted; a receive that delivers takes a buffer. */
  predicate Enabled(w: World, m: Move) {
    match m
    case Submit(_) => true
    case Accepted(i, res, _) => i < |w.u.armed| && w.u.armed[i].Accept?
    case Received(i, data, _) =>
      i < |w.u.armed| && w.u.armed[i].Recv? && 0 < |data| <= BUF_SIZE && w.u.free != []
    case RecvEnded(i, res, _) => i < |w.u.armed| && w.u.armed[i].Recv? && res <= 0
    case SendDone(i, res) => i < |w.u.armed| && w.u.armed[i].Send? && res <= w.u.armed[i].len
    case Process(_, _) => w.cq != []
  }

  /** A multishot operation stays armed while the kernel reports more. */
  function Completed(u: User, i: nat, more: bool): User
    requires i < |u.armed|
  {
    if more then u else u.(armed := Without(u.armed, i))
  }

  /** The message that a completed receive delivers, as the buffer holds it. */
  function Delivered(c: Cqe, storage: seq<Bytes>): Message {
    Message(TagFd(c.tag), Payload(storage, c.Bid(), c.res))
  }

  function Payload(storage: seq<Bytes>, bid: nat, len: int): Bytes {
    if bid < |storage| && 0 <= len <= |storage[bid]| then storage[bid][..len] else []
  }

  function Next(w: World, m: Move): (w': World)
    requires Enabled(w, m)
  {
    match m
    case Submit(k) => w.(u := w.u.Flush(k))
    case Accepted(i, res, more) =>
      w.(u := Completed(w.u, i, more), cq := w.cq + [Cqe(w.u.armed[i].Tag(), res, if more then 2 else 0)])
    case Received(i, data, more) =>
      var op, bid := w.u.armed[i], w.u.free[0];
      w.(u := Completed(w.u.(free := w.u.free[1..]), i, more),
         cq := w.cq + [Cqe(op.Tag(), |data|, Flags(bid, more))],
         storage := if bid < |w.storage| then w.storage[bid := data] else w.storage,
         received := w.received + [Message(op.fd, data)])
    case RecvEnded(i, res, more) =>
      w.(u := Completed(w.u, i, more), cq := w.cq + [Cqe(w.u.armed[i].Tag(), res, if more then 2 else 0)])
    case SendDone(i, res) =>
      var op := w.u.armed[i];
      w.(u := Completed(w.u, i, false), cq := w.cq + [Cqe(op.Tag(), res, 0)],
         sent := w.sent + [Message(op.fd, Payload(w.storage, op.bid, op.len))])
    case Process(flush1, flush2) =>
      var c := w.cq[0];
      var queued := c.IsData() && w.u.HasSqe(flush1);
      World(Handle(w.u, c, flush1, flush2), w.cq[1..], w.storage, w.received,
            if c.IsData() then w.processed + [Delivered(c, w.storage)] else w.processed,
            if queued then w.handed + [Delivered(c, w.storage)] else w.handed, w.sent,
            w.drops + One(c.IsData() && !queued), w.failed + One(c.IsSend() && c.res <= 0))
  }

  ghost predicate Possible(w: World, moves: seq<Move>)
    decreases |moves|
  {
    moves != [] ==> Enabled(w, moves[0]) && Possible(Next(w, moves[0]), moves[1..])
  }

  ghost function Run(w: World, moves: seq<Move>): World
    requires Possible(w, moves)
    decreases |moves|
  {
    if moves == [] then w else Run(Next(w, moves[0]), moves[1..])
  }

  // ---------------------------------------------------------------- well-formedness

  ghost predicate Valid(w: World, listen: nat) {
    && listen < MAX_FDS && |w.storage| == BUF_RING_ENTRIES
    && (forall op | op in w.u.armed :: op.Valid(listen))
    && (forall op | op in w.u.sq :: op.Valid(listen))
    && (forall c | c in w.cq :: c.Valid(listen))
    && (forall b | b in w.u.free :: b < BUF_RING_ENTRIES)
  }

  lemma FlagBits(bid: nat, low: nat)
    requires low < 4
    ensures (bid * P16 + low) / P16 == bid
    ensures (bid * P16 + low) / 2 % 2 == low / 2
  {
    QuotientIs(bid * P16 + low, P16, bid, low);
    var half := 32768 * bid + low / 2;
    QuotientIs(bid * P16 + low, 2, half, low % 2);
    QuotientIs(half, 2, 16384 * bid, low / 2);
  }

  lemma FlagsRoundTrip(tag: nat, res: int, bid: nat, more: bool)
    ensures var c := Cqe(tag, res, Flags(bid, more)); c.Bid() == bid && c.More() == more
  {
    FlagBits(bid, if more then 3 else 1);
  }

  lemma OpTag(op: Op, listen: nat)
    requires op.Valid(listen)
    ensures TagFd(op.Tag()) == op.fd && TagType(op.Tag()) == (if op.Accept? then EVENT_ACCEPT
                                                              else if op.Recv? then EVENT_RECV else EVENT_SEND)
    ensures op.Send? ==> TagBid(op.Tag()) == op.bid
  {
    match op
    case Accept(fd) => TagRoundTrip(EVENT_ACCEPT, fd, 0);
    case Recv(fd) => TagRoundTrip(EVENT_RECV, fd, 0);
    case Send(fd, bid, _) => TagRoundTrip(EVENT_SEND, fd, bid);
  }

  ghost predicate UserValid(u: User, listen: nat) {
    && listen < MAX_FDS
    && (forall op | op in u.armed :: op.Valid(listen))
    && (forall op | op in u.sq :: op.Valid(listen))
    && (forall b | b in u.free :: b < BUF_RING_ENTRIES)
  }

  lemma PushValid(u: User, op: Op, flush: nat, listen: nat)
    requires UserValid(u, listen) && op.Valid(listen)
    ensures UserValid(u.Push(op, flush), listen)
  {
  }

  lemma RearmValid(u: User, c: Cqe, fd: nat, flush: nat, listen: nat)
    requires UserValid(u, listen) && fd < MAX_FDS
    ensures UserValid(u.Rearm(c, fd, flush), listen)
  {
    PushValid(u, Recv(fd), flush, listen);
  }

  lemma HandleValid(u: User, c: Cqe, flush1: nat, flush2: nat, listen: nat)
    requires UserValid(u, listen) && c.Valid(listen)
    ensures UserValid(Handle(u, c, flush1, flush2), listen)
  {
    var fd := TagFd(c.tag);
    if TagType(c.tag) == EVENT_ACCEPT {
      if 0 <= c.res < MAX_FDS {
        PushValid(u.(active := u.active + {c.res as nat}), Recv(c.res as nat), flush1, listen);
      }
      PushValid(Admit(u, c.res, flush1), Accept(fd), flush2, listen);
    } else if TagType(c.tag) == EVENT_RECV {
      if c.res > 0 {
        var op := Send(fd, c.Bid(), c.res as nat);
        var v := u.(events := u.events + 1);
        PushValid(v, op, flush1, listen);
        RearmValid(v.PushSend(op, flush1), c, fd, flush2, listen);
      } else if c.res == -ENOBUFS {
        PushValid(u, Recv(fd), flush1, listen);
        RearmValid(u.Push(Recv(fd), flush1), c, fd, flush2, listen);
      } else if c.Transient() {
        RearmValid(u, c, fd, flush1, listen);
        RearmValid(u.Rearm(c, fd, flush1), c, fd, flush2, listen);
      }
    }
  }

  lemma WithoutMembers<T>(s: seq<T>, i: nat)
    requires i < |s|
    ensures forall x | x in Without(s, i) :: x in s
    ensures multiset(Without(s, i)) == multiset(s) - multiset{s[i]}
  {
    assert s == s[..i] + [s[i]] + s[i + 1..];
  }

  lemma NextValid(w: World, m: Move, listen: nat)
    requires Valid(w, listen) && Enabled(w, m)
    ensures Valid(Next(w, m), listen)
  {
    if m.Submit? {
      assert UserValid(w.u.Flush(m.k), listen);
    } else if m.Process? {
      HandleValid(w.u, w.cq[0], m.flush1, m.flush2, listen);
    } else {
      var op := w.u.armed[m.i];
      WithoutMembers(w.u.armed, m.i);
      OpTag(op, listen);
      if m.Received? {
        FlagsRoundTrip(op.Tag(), |m.data|, w.u.free[0], m.more);
        assert w.u.free[0] in w.u.free && forall b | b in w.u.free[1..] :: b in w.u.free;
      }
    }
  }
}
