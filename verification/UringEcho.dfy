/** server_uring.c, continued: every write takes from a connection's buffer exactly the bytes that
    its last read put there. The buffer is shared by the kernel and the process, and only the rule
    of one operation at a time keeps it from being refilled under a write. */
module UringEcho {
  import opened Kernel
  import opened UringServer

  /** What is known about one connection: chunks read and written so far, its buffer, and how
      much of the buffer is to be written. */
  datatype Ledger = Ledger(got: seq<Bytes>, put: seq<Bytes>, buf: Bytes, len: nat)

  function Of(w: World, id: nat): Ledger {
    Ledger(Get(w.got, id), Get(w.put, id), Buffer(w, id), if id in w.u.conns then w.u.conns[id].len else 0)
  }

  predicate Even(l: Ledger) {
    l.got == l.put
  }

  /** One chunk has been read and not yet written; it is in the buffer. */
  predicate Owing(l: Ledger) {
    l.got == l.put + [l.buf]
  }

  /** A read is under way with nothing owed, a write with the buffer owed and its length right. */
  predicate OpOk(l: Ledger, op: Op) {
    op.Io? ==> if op.kind.Read? then Even(l) else Owing(l) && l.len == |l.buf|
  }

  predicate CqeOk(l: Ledger, c: Cqe) {
    c.op.Io? ==> if c.op.kind.Read? && c.res > 0 then Owing(l) && c.res == |l.buf| else Even(l)
  }

  /** The chunks written are the chunks read, in order, but for at most the last. */
  ghost predicate Level(l: Ledger) {
    Even(l) || (l.got != [] && l.put == l.got[..|l.got| - 1])
  }

  ghost predicate OpsOk(w: World, ops: seq<Op>) {
    forall x | x in ops :: OpOk(Of(w, Key(x)), x)
  }

  ghost predicate CqesOk(w: World, cq: seq<Cqe>) {
    forall c | c in cq :: CqeOk(Of(w, Key(c.op)), c)
  }

  ghost predicate AllLevel(w: World) {
    forall id | id in w.u.conns :: Level(Of(w, id))
  }

  ghost predicate Accounted(w: World) {
    OpsOk(w, w.u.armed) && OpsOk(w, w.u.sq) && CqesOk(w, w.cq) && AllLevel(w)
  }

  /** Ledgers may differ only for one structure. */
  ghost predicate SameBut(v: World, w: World, key: nat) {
    forall k | k != key :: Of(v, k) == Of(w, k)
  }

  lemma {:induction false} OpListed(cq: seq<Cqe>, c: Cqe)
    requires c in cq
    ensures c.op in CqOps(cq)
  {
    if cq[0] != c {
      OpListed(cq[1..], c);
    }
  }

  /** What is taken out of the kernel leaves nothing in flight for the same structure. */
  lemma Alone(u: User, cq: seq<Cqe>, i: nat)
    requires Sound(u, cq) && i < |u.armed|
    ensures Idle(u.(armed := Without(u.armed, i)), cq, Key(u.armed[i]))
  {
    var key := Key(u.armed[i]);
    var u' := u.(armed := Without(u.armed, i));
    FlightSum(u, cq);
    FlightSum(u', cq);
    KeysWithout(u.armed, i);
    assert multiset(Owners(u))[key] <= 1;
    IdleIff(u', cq, key);
  }

  lemma OpsFrame(w: World, v: World, from: seq<Op>, ops: seq<Op>)
    requires OpsOk(w, from)
    requires forall x | x in ops :: x in from && Of(v, Key(x)) == Of(w, Key(x))
    ensures OpsOk(v, ops)
  {
  }

  lemma CqesFrame(w: World, v: World, from: seq<Cqe>, cq: seq<Cqe>)
    requires CqesOk(w, from)
    requires forall c | c in cq :: c in from && Of(v, Key(c.op)) == Of(w, Key(c.op))
    ensures CqesOk(v, cq)
  {
  }

  lemma IdleApart(u: User, cq: seq<Cqe>, key: nat)
    requires Idle(u, cq, key)
    ensures forall x | x in u.armed :: Key(x) != key
    ensures forall x | x in u.sq :: Key(x) != key
    ensures forall c | c in cq :: Key(c.op) != key
  {
    assert forall x | x in u.armed :: x in InFlight(u, cq);
    assert forall x | x in u.sq :: x in InFlight(u, cq);
    forall c | c in cq ensures Key(c.op) != key {
      OpListed(cq, c);
      assert c.op in InFlight(u, cq);
    }
  }

  /** A completion of operation i that changes no ledger but that of its own connection. */
  lemma PostAccounted(w: World, v: World, i: nat, res: int)
    requires Accounted(w) && i < |w.u.armed|
    requires Idle(w.u.(armed := Without(w.u.armed, i)), w.cq, Key(w.u.armed[i]))
    requires v.u == Post(w, i, res).u && v.cq == Post(w, i, res).cq
    requires SameBut(v, w, Key(w.u.armed[i]))
    requires CqeOk(Of(v, Key(w.u.armed[i])), Cqe(w.u.armed[i], res))
    requires Key(w.u.armed[i]) in w.u.conns ==> Level(Of(v, Key(w.u.armed[i])))
    ensures Accounted(v)
  {
    var op, rest := w.u.armed[i], Without(w.u.armed, i);
    IdleApart(w.u.(armed := rest), w.cq, Key(op));
    assert forall x | x in rest :: x in w.u.armed;
    OpsFrame(w, v, w.u.armed, rest);
    OpsFrame(w, v, w.u.sq, w.u.sq);
    CqesFrame(w, v, w.cq, w.cq);
    assert v.cq == w.cq + [Cqe(op, res)];
  }

  lemma ReadDoneAccounted(w: World, i: nat, data: Bytes)
    requires Sound(w.u, w.cq) && Accounted(w) && Enabled(w, ReadDone(i, data))
    ensures Accounted(Next(w, ReadDone(i, data)))
  {
    Alone(w.u, w.cq, i);
    ReadDonePosted(w, i, data);
  }

  lemma ReadDonePosted(w: World, i: nat, data: Bytes)
    requires Accounted(w) && Enabled(w, ReadDone(i, data))
    requires Idle(w.u.(armed := Without(w.u.armed, i)), w.cq, w.u.armed[i].id)
    ensures Accounted(Next(w, ReadDone(i, data)))
  {
    var v, id := Next(w, ReadDone(i, data)), w.u.armed[i].id;
    assert w.u.armed[i] in w.u.armed;
    assert Of(v, id) == Of(w, id).(got := Of(w, id).got + [data], buf := data);
    PostAccounted(w, v, i, |data|);
  }

  lemma WriteDoneAccounted(w: World, i: nat, res: int)
    requires Sound(w.u, w.cq) && Accounted(w) && Enabled(w, WriteDone(i, res))
    ensures Accounted(Next(w, WriteDone(i, res)))
  {
    Alone(w.u, w.cq, i);
    WriteTakesLastRead(w, i);
    WriteDonePosted(w, i, res);
  }

  lemma WriteDonePosted(w: World, i: nat, res: int)
    requires Accounted(w) && Enabled(w, WriteDone(i, res))
    requires Idle(w.u.(armed := Without(w.u.armed, i)), w.cq, w.u.armed[i].id)
    requires var id := w.u.armed[i].id; Get(w.got, id) == Get(w.put, id) + [Offered(w, id)]
    ensures Accounted(Next(w, WriteDone(i, res)))
  {
    var v, id := Next(w, WriteDone(i, res)), w.u.armed[i].id;
    assert Of(v, id) == Of(w, id).(put := Of(w, id).put + [Offered(w, id)]);
    PostAccounted(w, v, i, res);
  }

  /** A write that the kernel holds takes exactly the chunk last read, and all before it have been
      written. */
  lemma WriteTakesLastRead(w: World, i: nat)
    requires Sound(w.u, w.cq) && Accounted(w) && IsIo(w.u.armed, i, Write)
    ensures var id := w.u.armed[i].id; Get(w.got, id) == Get(w.put, id) + [Offered(w, id)]
  {
    var op := w.u.armed[i];
    assert op in w.u.armed;
    assert op in InFlight(w.u, w.cq);
    assert Buffer(w, op.id)[..|Buffer(w, op.id)|] == Buffer(w, op.id);
  }

  /** Whatever is in flight refers to a live structure or to the listener's. */
  ghost predicate Referred(u: User, cq: seq<Cqe>) {
    forall x | x in InFlight(u, cq) :: Key(x) in u.conns || Key(x) == ACCEPT_CONN
  }

  /** Processing a completion leaves what is still in flight accounted for. */
  lemma RestAccounted(w: World, v: World, key: nat)
    requires Accounted(w) && w.cq != [] && Idle(w.u, w.cq[1..], key) && Referred(w.u, w.cq[1..])
    requires forall k | (k in w.u.conns || k == ACCEPT_CONN) && k != key :: Of(v, k) == Of(w, k)
    ensures OpsOk(v, w.u.armed) && OpsOk(v, w.u.sq) && CqesOk(v, w.cq[1..])
  {
    var u, cq := w.u, w.cq[1..];
    IdleApart(u, cq, key);
    forall c | c in cq ensures c.op in InFlight(u, cq) { OpListed(cq, c); }
    assert forall x | x in u.armed || x in u.sq :: x in InFlight(u, cq);
    OpsFrame(w, v, u.armed, u.armed);
    OpsFrame(w, v, u.sq, u.sq);
    CqesFrame(w, v, w.cq, cq);
  }

  lemma ProcessApart(u: User, cq: seq<Cqe>)
    requires Sound(u, cq) && cq != []
    ensures Idle(u, cq[1..], Key(cq[0].op)) && Referred(u, cq[1..])
    ensures cq[0].op.Io? ==> cq[0].op.id in u.conns && u.conns[cq[0].op.id].kind == cq[0].op.kind
    ensures ACCEPT_CONN !in u.conns
  {
    Popped(u, cq);
  }

  /** The operations that processing queues. */
  ghost predicate Queued(v: User, u: User, a: Op, b: Op) {
    forall x | x in v.sq :: x in u.sq || x == a || x == b
  }

  lemma AcceptLedgers(w: World, address: nat)
    requires Enabled(w, Process(address)) && w.cq[0].op.Accept? && ACCEPT_CONN !in w.u.conns
    ensures var v := Next(w, Process(address));
      && v.u.armed == w.u.armed && v.cq == w.cq[1..] && Queued(v.u, w.u, Accept, Io(address, Read))
      && (Io(address, Read) in v.u.sq ==> Io(address, Read) in w.u.sq || address in v.u.conns)
      && (address in v.u.conns ==> Even(Of(v, address)))
      && (forall k | k in v.u.conns :: k in w.u.conns || k == address)
      && (forall k | k in w.u.conns :: k != address && Of(v, k) == Of(w, k))
  {
  }

  lemma ProcessAccept(w: World, address: nat)
    requires Accounted(w) && Enabled(w, Process(address)) && w.cq[0].op.Accept? && ACCEPT_CONN !in w.u.conns
    requires Idle(w.u, w.cq[1..], ACCEPT_CONN) && Referred(w.u, w.cq[1..])
    ensures Accounted(Next(w, Process(address)))
  {
    var v := Next(w, Process(address));
    AcceptLedgers(w, address);
    RestAccounted(w, v, ACCEPT_CONN);
    Finish(w, v, Accept, Io(address, Read));
  }

  /** Processing one completion, put together. */
  lemma Finish(w: World, v: World, a: Op, b: Op)
    requires OpsOk(v, v.u.armed) && OpsOk(v, w.u.sq) && CqesOk(v, v.cq) && AllLevel(v)
    requires Queued(v.u, w.u, a, b)
    requires a in v.u.sq && a !in w.u.sq ==> OpOk(Of(v, Key(a)), a)
    requires b in v.u.sq && b !in w.u.sq ==> OpOk(Of(v, Key(b)), b)
    ensures Accounted(v)
  {
  }

  /** The state after the treatment of a completion for connection id. */
  ghost predicate AfterIo(w: World, v: World, id: nat)
    requires w.cq != []
  {
    && v.u.armed == w.u.armed && v.cq == w.cq[1..] && Queued(v.u, w.u, Io(id, Read), Io(id, Write))
    && SameBut(v, w, id) && v.u.conns.Keys <= w.u.conns.Keys && Level(Of(v, id))
    && (Io(id, Read) in v.u.sq && Io(id, Read) !in w.u.sq ==> Even(Of(v, id)))
    && (Io(id, Write) in v.u.sq && Io(id, Write) !in w.u.sq ==> OpOk(Of(v, id), Io(id, Write)))
  }

  lemma FreeLedgers(w: World, address: nat)
    requires Enabled(w, Process(address)) && w.cq[0].op.Io? && w.cq[0].res <= 0
    requires w.cq[0].op.id in w.u.conns && Level(Of(w, w.cq[0].op.id))
    ensures AfterIo(w, Next(w, Process(address)), w.cq[0].op.id)
  {
  }

  lemma ReadLedgers(w: World, address: nat)
    requires Enabled(w, Process(address)) && w.cq[0].op.Io? && w.cq[0].res > 0
    requires var op := w.cq[0].op; op.id in w.u.conns && w.u.conns[op.id].kind.Read? && op.kind.Read?
    requires CqeOk(Of(w, w.cq[0].op.id), w.cq[0]) && Level(Of(w, w.cq[0].op.id))
    ensures AfterIo(w, Next(w, Process(address)), w.cq[0].op.id)
  {
  }

  lemma WriteLedgers(w: World, address: nat)
    requires Enabled(w, Process(address)) && w.cq[0].op.Io? && w.cq[0].res > 0
    requires var op := w.cq[0].op; op.id in w.u.conns && w.u.conns[op.id].kind.Write? && op.kind.Write?
    requires CqeOk(Of(w, w.cq[0].op.id), w.cq[0]) && Level(Of(w, w.cq[0].op.id))
    ensures AfterIo(w, Next(w, Process(address)), w.cq[0].op.id)
  {
  }

  lemma ProcessIo(w: World, address: nat)
    requires Accounted(w) && Enabled(w, Process(address)) && w.cq[0].op.Io? && ACCEPT_CONN !in w.u.conns
    requires var op := w.cq[0].op; op.id in w.u.conns && w.u.conns[op.id].kind == op.kind
    requires Idle(w.u, w.cq[1..], w.cq[0].op.id) && Referred(w.u, w.cq[1..])
    ensures Accounted(Next(w, Process(address)))
  {
    var v, id := Next(w, Process(address)), w.cq[0].op.id;
    if w.cq[0].res <= 0 {
      FreeLedgers(w, address);
    } else if w.cq[0].op.kind.Read? {
      ReadLedgers(w, address);
    } else {
      WriteLedgers(w, address);
    }
    RestAccounted(w, v, id);
    Finish(w, v, Io(id, Read), Io(id, Write));
  }

  lemma SubmitAccounted(w: World, k: nat)
    requires Accounted(w)
    ensures Accounted(Next(w, Move.Submit(k)))
  {
    var v := Next(w, Move.Submit(k));
    assert forall id :: Of(v, id) == Of(w, id);
    OpsFrame(w, v, w.u.armed, w.u.armed);
    OpsFrame(w, v, w.u.sq, w.u.sq);
    CqesFrame(w, v, w.cq, w.cq);
  }

  /** An accept, or a read that failed, completes. */
  lemma PlainAccounted(w: World, m: Move)
    requires Sound(w.u, w.cq) && Accounted(w) && Enabled(w, m) && (m.Accepted? || m.Failed?)
    ensures Accounted(Next(w, m))
  {
    var op := w.u.armed[m.i];
    assert op in w.u.armed;
    Alone(w.u, w.cq, m.i);
    PostAccounted(w, Next(w, m), m.i, m.res);
  }

  lemma NextAccounted(w: World, m: Move)
    requires Sound(w.u, w.cq) && Accounted(w) && Enabled(w, m)
    ensures Accounted(Next(w, m))
  {
    match m
    case Submit(k) => SubmitAccounted(w, k);
    case Accepted(_, _) => PlainAccounted(w, m);
    case Failed(_, _) => PlainAccounted(w, m);
    case ReadDone(i, data) => ReadDoneAccounted(w, i, data);
    case WriteDone(i, res) => WriteDoneAccounted(w, i, res);
    case Process(address) =>
      ProcessApart(w.u, w.cq);
      if w.cq[0].op.Accept? {
        ProcessAccept(w, address);
      } else {
        ProcessIo(w, address);
      }
  }

  /** Over every run, also those in which the submission queue overflows: what was handed to the
      writes of a live connection is what its reads returned, but for at most the last chunk. */
  lemma {:induction false} RunAccounted(w: World, moves: seq<Move>)
    requires Sound(w.u, w.cq) && Accounted(w) && Possible(w, moves)
    ensures Accounted(Run(w, moves))
    ensures forall id | id in Run(w, moves).u.conns :: Level(Of(Run(w, moves), id))
    decreases |moves|
  {
    if moves != [] {
      NextSound(w, moves[0]);
      NextAccounted(w, moves[0]);
      RunAccounted(Next(w, moves[0]), moves[1..]);
    }
  }

  lemma StartAccounted()
    ensures Accounted(Start())
  {
  }

  /** From the start of the program, on every live connection: the chunks written are those read,
      in order, and at most one of them is not written yet. */
  lemma EchoesInOrder(moves: seq<Move>, id: nat)
    requires Possible(Start(), moves) && id in Run(Start(), moves).u.conns
    ensures var w := Run(Start(), moves);
      && Get(w.put, id) <= Get(w.got, id)
      && |Get(w.got, id)| <= |Get(w.put, id)| + 1
  {
    StartSound();
    StartAccounted();
    RunAccounted(Start(), moves);
  }
}
