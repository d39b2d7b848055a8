/** server_uring.c: one heap structure per connection, one operation in flight for it, and a
    submission queue of 4096 entries that is flushed once per batch and never otherwise.

    A connection is named by the address malloc gave it, a number here; addresses are used
    again after free. */
module UringServer {
  import opened Kernel

  const ENTRIES: nat := 4096

  /** The address of the static structure that stands for the listener. */
  const ACCEPT_CONN: nat := 0

  datatype Kind = Read | Write

  /** struct conn_info, apart from its buffer, which only the kernel touches. */
  datatype Conn = Conn(fd: int, kind: Kind, len: nat)

  /** What a submission asks for, and so what its completion reports on. */
  datatype Op = Accept | Io(id: nat, kind: Kind)

  datatype Cqe = Cqe(op: Op, res: int)

  /** The process: live connections, the submission queue, and what the kernel has accepted. */
  datatype User = User(conns: map<nat, Conn>, sq: seq<Op>, armed: seq<Op>) {

    /** io_uring_get_sqe gives an entry unless the queue is full; without one the add_ functions
        return without doing anything. */
    function Push(op: Op): User {
      if |sq| < ENTRIES then this.(sq := sq + [op]) else this
    }

    /** What add_read and add_write have in common: the structure is changed only when there is
        an entry for the operation. */
    function Arm(id: nat, c: Conn): User
      requires id in conns
    {
      if |sq| < ENTRIES then this.(conns := conns[id := c]).Push(Io(id, c.kind)) else this
    }

    function AddRead(id: nat): User
      requires id in conns
    {
      Arm(id, conns[id].(kind := Read))
    }

    function AddWrite(id: nat, len: nat): User
      requires id in conns
    {
      Arm(id, conns[id].(kind := Write, len := len))
    }

    function Free(id: nat): User {
      this.(conns := conns - {id})
    }

    function Submit(k: nat): User {
      var n := Min(k, |sq|);
      this.(sq := sq[n..], armed := armed + sq[..n])
    }
  }

  /** What malloc may return. */
  predicate IsFree(u: User, address: nat) {
    address !in u.conns && address != ACCEPT_CONN
  }

  /** The treatment of one completion. The process sees the address and the result, and goes by
      the type stored in the structure, not by what was submitted. A new structure lies at an
      address that malloc chooses. */
  function Handle(u: User, c: Cqe, address: nat): User
    requires IsFree(u, address)
  {
    match c.op
    case Accept =>
      var v := if c.res >= 0
               then u.(conns := u.conns[address := Conn(c.res, Read, 0)]).AddRead(address) else u;
      v.Push(Accept)
    case Io(id, _) =>
      if id !in u.conns then u
      else if c.res <= 0 then u.Free(id)
      else if u.conns[id].kind.Read? then u.AddWrite(id, c.res)
      else u.AddRead(id)
  }

  // ---------------------------------------------------------------- the world

  /** Buffers, and for every address what was read into its buffer and what was written from it
      since its connection was accepted. */
  datatype World = World(u: User, cq: seq<Cqe>, bufs: map<nat, Bytes>,
                         got: map<nat, seq<Bytes>>, put: map<nat, seq<Bytes>>)

  datatype Move =
    | Submit(k: nat)
    | Accepted(i: nat, res: int)
    | ReadDone(i: nat, data: Bytes)
    | WriteDone(i: nat, res: int)
    | Failed(i: nat, res: int)
    | Process(address: nat)

  function Get(m: map<nat, seq<Bytes>>, id: nat): seq<Bytes> {
    if id in m then m[id] else []
  }

  function Start(): World {
    World(User(map[], [Accept], []), [], map[], map[], map[])
  }

  predicate IsIo(ops: seq<Op>, i: nat, kind: Kind) {
    i < |ops| && ops[i].Io? && ops[i].kind == kind
  }

  predicate Enabled(w: World, m: Move) {
    match m
    case Submit(_) => true
    case Accepted(i, _) => i < |w.u.armed| && w.u.armed[i].Accept?
    case ReadDone(i, data) => IsIo(w.u.armed, i, Read) && 0 < |data| <= BUF_SIZE
    case WriteDone(i, _) => IsIo(w.u.armed, i, Write)
    case Failed(i, res) => IsIo(w.u.armed, i, Read) && res <= 0
    case Process(address) => w.cq != [] && IsFree(w.u, address)
  }

  function Post(w: World, i: nat, res: int): World
    requires i < |w.u.armed|
  {
    w.(u := w.u.(armed := Without(w.u.armed, i)), cq := w.cq + [Cqe(w.u.armed[i], res)])
  }

  /** What lies in a connection's buffer from its beginning on. */
  function Buffer(w: World, id: nat): Bytes {
    if id in w.bufs then w.bufs[id] else []
  }

  /** The bytes a write of a connection takes from its buffer. */
  function Offered(w: World, id: nat): Bytes {
    var b := Buffer(w, id);
    if id in w.u.conns && w.u.conns[id].len <= |b| then b[..w.u.conns[id].len] else []
  }

  function Next(w: World, m: Move): World
    requires Enabled(w, m)
  {
    match m
    case Submit(k) => w.(u := w.u.Submit(k))
    case Accepted(i, res) => Post(w, i, res)
    case Failed(i, res) => Post(w, i, res)
    case ReadDone(i, data) =>
      var id := w.u.armed[i].id;
      Post(w, i, |data|).(bufs := w.bufs[id := data], got := w.got[id := Get(w.got, id) + [data]])
    case WriteDone(i, res) =>
      var id := w.u.armed[i].id;
      Post(w, i, res).(put := w.put[id := Get(w.put, id) + [Offered(w, id)]])
    case Process(address) =>
      var v := w.(u := Handle(w.u, w.cq[0], address), cq := w.cq[1..]);
      if address in v.u.conns then v.(got := v.got[address := []], put := v.put[address := []]) else v
  }

  ghost predicate Possible(w: World, moves: seq<Move>)
    decreases |moves|
  {
    moves != [] ==> Enabled(w, moves[0]) && Possible(Next(w, moves[0]), moves[1..])
  }

  ghost function Run(w: World, moves: seq<Move>): World
    requires Possible(w, moves)
    decreases |moves|
  {
    if moves == [] then w else Run(Next(w, moves[0]), moves[1..])
  }

  // ---------------------------------------------------------------- operations in flight

  /** Whom an operation belongs to: a connection, or the static accept structure. */
  function Key(op: Op): nat {
    if op.Accept? then ACCEPT_CONN else op.id
  }

  function Keys(ops: seq<Op>): seq<nat> {
    if ops == [] then [] else [Key(ops[0])] + Keys(ops[1..])
  }

  function CqOps(cq: seq<Cqe>): seq<Op> {
    if cq == [] then [] else [cq[0].op] + CqOps(cq[1..])
  }

  /** Queued, accepted by the kernel, or completed and not yet processed. */
  function InFlight(u: User, cq: seq<Cqe>): seq<Op> {
    u.armed + u.sq + CqOps(cq)
  }

  function Flight(u: User, cq: seq<Cqe>): multiset<nat> {
    multiset(Keys(InFlight(u, cq)))
  }

  /** The live structures, and the static one for accept. */
  function Owners(u: User): set<nat> {
    u.conns.Keys + {ACCEPT_CONN}
  }

  lemma {:induction false} KeysConcat(a: seq<Op>, b: seq<Op>)
    ensures Keys(a + b) == Keys(a) + Keys(b)
  {
    if a == [] {
      assert a + b == b;
    } else {
      assert (a + b)[0] == a[0] && (a + b)[1..] == a[1..] + b;
      KeysConcat(a[1..], b);
    }
  }

  lemma {:induction false} CqOpsConcat(a: seq<Cqe>, b: seq<Cqe>)
    ensures CqOps(a + b) == CqOps(a) + CqOps(b)
  {
    if a == [] {
      assert a + b == b;
    } else {
      assert (a + b)[0] == a[0] && (a + b)[1..] == a[1..] + b;
      CqOpsConcat(a[1..], b);
    }
  }

  lemma {:induction false} KeysLength(ops: seq<Op>)
    ensures |Keys(ops)| == |ops|
  {
    if ops != [] {
      KeysLength(ops[1..]);
    }
  }

  lemma {:induction false} KeyListed(ops: seq<Op>, i: nat)
    requires i < |ops|
    ensures Key(ops[i]) in Keys(ops)
  {
    if i > 0 {
      KeyListed(ops[1..], i - 1);
    }
  }

  /** At most one operation per structure, and none for a structure that is not live. */
  ghost predicate AtMostOne(u: User, cq: seq<Cqe>) {
    Flight(u, cq) <= multiset(Owners(u))
  }

  /** Exactly one operation per live structure. */
  ghost predicate ExactlyOne(u: User, cq: seq<Cqe>) {
    Flight(u, cq) == multiset(Owners(u))
  }

  /** What was submitted for a connection is what its type says. */
  ghost predicate KindsAgree(u: User, cq: seq<Cqe>) {
    forall op | op in InFlight(u, cq) && op.Io? :: op.id in u.conns && u.conns[op.id].kind == op.kind
  }

  lemma PushFlight(u: User, cq: seq<Cqe>, op: Op)
    requires |u.sq| < ENTRIES
    ensures Flight(u.Push(op), cq) == Flight(u, cq) + multiset{Key(op)}
  {
    FlightSum(u, cq);
    FlightSum(u.Push(op), cq);
    KeysConcat(u.sq, [op]);
    KeysOne(op);
  }

  lemma PushMembers(u: User, cq: seq<Cqe>, op: Op)
    ensures forall x | x in InFlight(u.Push(op), cq) :: x == op || x in InFlight(u, cq)
  {
  }

  lemma SubmitFlight(u: User, cq: seq<Cqe>, k: nat)
    ensures InFlight(u.Submit(k), cq) == InFlight(u, cq)
  {
    var n := Min(k, |u.sq|);
    assert u.armed + u.sq[..n] + u.sq[n..] == u.armed + u.sq;
  }

  lemma KeysOne(op: Op)
    ensures Keys([op]) == [Key(op)]
  {
    assert [op][1..] == [];
  }

  lemma KeysMiddle(before: seq<Op>, op: Op, after: seq<Op>)
    ensures multiset(Keys(before + after)) + multiset{Key(op)} == multiset(Keys(before + [op] + after))
  {
    KeysConcat(before, after);
    KeysConcat(before + [op], after);
    KeysConcat(before, [op]);
    KeysOne(op);
  }

  lemma KeysWithout(s: seq<Op>, i: nat)
    requires i < |s|
    ensures multiset(Keys(Without(s, i))) + multiset{Key(s[i])} == multiset(Keys(s))
  {
    Around(s, i);
    KeysMiddle(s[..i], s[i], s[i + 1..]);
  }

  lemma FlightSum(u: User, cq: seq<Cqe>)
    ensures Flight(u, cq) == multiset(Keys(u.armed)) + multiset(Keys(u.sq)) + multiset(Keys(CqOps(cq)))
  {
    KeysConcat(u.armed + u.sq, CqOps(cq));
    KeysConcat(u.armed, u.sq);
  }

  lemma CqOpsPost(cq: seq<Cqe>, op: Op, res: int)
    ensures CqOps(cq + [Cqe(op, res)]) == CqOps(cq) + [op]
  {
    CqOpsConcat(cq, [Cqe(op, res)]);
    assert [Cqe(op, res)][1..] == [];
  }

  /** Completing moves an operation from the kernel to the completion queue. */
  lemma PostFlight(w: World, i: nat, res: int)
    requires i < |w.u.armed|
    ensures var v := Post(w, i, res); Flight(v.u, v.cq) == Flight(w.u, w.cq)
  {
    var op, v := w.u.armed[i], Post(w, i, res);
    FlightSum(w.u, w.cq);
    FlightSum(v.u, v.cq);
    KeysWithout(w.u.armed, i);
    CqOpsPost(w.cq, op, res);
    KeysConcat(CqOps(w.cq), [op]);
    KeysOne(op);
  }

  lemma PostMembers(w: World, i: nat, res: int)
    requires i < |w.u.armed|
    ensures var v := Post(w, i, res); forall x | x in InFlight(v.u, v.cq) :: x in InFlight(w.u, w.cq)
  {
    CqOpsPost(w.cq, w.u.armed[i], res);
  }

  /** Taking a completion out of its queue takes its operation out of flight. */
  lemma PopFlight(u: User, cq: seq<Cqe>)
    requires cq != []
    ensures Flight(u, cq) == Flight(u, cq[1..]) + multiset{Key(cq[0].op)}
    ensures forall x | x in InFlight(u, cq[1..]) :: x in InFlight(u, cq)
    ensures cq[0].op in InFlight(u, cq)
  {
    FlightSum(u, cq);
    FlightSum(u, cq[1..]);
    assert CqOps(cq) == [cq[0].op] + CqOps(cq[1..]);
    KeysConcat([cq[0].op], CqOps(cq[1..]));
    KeysOne(cq[0].op);
  }

  lemma CqOpsLength(cq: seq<Cqe>)
    ensures |CqOps(cq)| == |cq|
  {
  }

  function Size(u: User, cq: seq<Cqe>): nat {
    |u.armed| + |u.sq| + |cq|
  }

  /** Among states with at most one operation per structure, those with exactly one are told by
      counting. */
  lemma ExactlyOneIff(u: User, cq: seq<Cqe>)
    requires ACCEPT_CONN !in u.conns && AtMostOne(u, cq)
    ensures Size(u, cq) <= |u.conns| + 1
    ensures ExactlyOne(u, cq) <==> Size(u, cq) == |u.conns| + 1
  {
    KeysLength(InFlight(u, cq));
    CqOpsLength(cq);
    assert |Flight(u, cq)| == Size(u, cq);
    var slack := multiset(Owners(u)) - Flight(u, cq);
    assert multiset(Owners(u)) == Flight(u, cq) + slack;
    OwnersSize(u);
  }

  lemma OwnersSize(u: User)
    requires ACCEPT_CONN !in u.conns
    ensures |multiset(Owners(u))| == |u.conns| + 1
  {
    assert |Owners(u)| == |u.conns.Keys| + 1;
  }

  // ---------------------------------------------------------------- one operation per connection

  ghost predicate Sound(u: User, cq: seq<Cqe>) {
    ACCEPT_CONN !in u.conns && AtMostOne(u, cq) && KindsAgree(u, cq)
  }

  ghost predicate Idle(u: User, cq: seq<Cqe>, key: nat) {
    forall x | x in InFlight(u, cq) :: Key(x) != key
  }

  lemma IdleIff(u: User, cq: seq<Cqe>, key: nat)
    ensures Idle(u, cq, key) <==> key !in Flight(u, cq)
  {
    var ops := InFlight(u, cq);
    if key in Flight(u, cq) {
      KeyFound(ops, key);
    }
    forall x | x in ops ensures Key(x) in Keys(ops) {
      var i :| 0 <= i < |ops| && ops[i] == x;
      KeyListed(ops, i);
    }
  }

  lemma {:induction false} KeyFound(ops: seq<Op>, key: nat)
    requires key in Keys(ops)
    ensures exists x :: x in ops && Key(x) == key
  {
    if Key(ops[0]) != key {
      KeyFound(ops[1..], key);
      var x :| x in ops[1..] && Key(x) == key;
      assert x in ops;
    } else {
      assert ops[0] in ops;
    }
  }

  /** The structure whose completion is taken out of the queue is live and has nothing else in
      flight. */
  lemma Popped(u: User, cq: seq<Cqe>)
    requires Sound(u, cq) && cq != []
    ensures Sound(u, cq[1..]) && Idle(u, cq[1..], Key(cq[0].op))
    ensures Flight(u, cq) == Flight(u, cq[1..]) + multiset{Key(cq[0].op)}
    ensures cq[0].op.Io? ==> cq[0].op.id in u.conns && u.conns[cq[0].op.id].kind == cq[0].op.kind
  {
    PopFlight(u, cq);
    var key := Key(cq[0].op);
    assert multiset(Owners(u))[key] <= 1;
    IdleIff(u, cq[1..], key);
  }

  lemma ArmSound(u: User, cq: seq<Cqe>, id: nat, c: Conn)
    requires Sound(u, cq) && id in u.conns && Idle(u, cq, id)
    ensures Sound(u.Arm(id, c), cq)
    ensures forall x | x in InFlight(u.Arm(id, c), cq) :: x == Io(id, c.kind) || x in InFlight(u, cq)
  {
    if |u.sq| < ENTRIES {
      var u' := u.(conns := u.conns[id := c]);
      assert Flight(u', cq) == Flight(u, cq) && InFlight(u', cq) == InFlight(u, cq);
      PushFlight(u', cq, Io(id, c.kind));
      PushMembers(u', cq, Io(id, c.kind));
      IdleIff(u, cq, id);
      assert Owners(u') == Owners(u);
    }
  }

  lemma NewSound(u: User, cq: seq<Cqe>, id: nat, c: Conn)
    requires Sound(u, cq) && IsFree(u, id)
    ensures var v := u.(conns := u.conns[id := c]);
      Sound(v, cq) && Idle(v, cq, id) && InFlight(v, cq) == InFlight(u, cq)
  {
    var v := u.(conns := u.conns[id := c]);
    assert InFlight(v, cq) == InFlight(u, cq);
    IdleIff(u, cq, id);
    assert Owners(v) == Owners(u) + {id};
  }

  lemma AcceptSound(u: User, cq: seq<Cqe>)
    requires Sound(u, cq) && Idle(u, cq, ACCEPT_CONN)
    ensures Sound(u.Push(Accept), cq)
  {
    if |u.sq| < ENTRIES {
      PushFlight(u, cq, Accept);
      PushMembers(u, cq, Accept);
      IdleIff(u, cq, ACCEPT_CONN);
    }
  }

  lemma FreeSound(u: User, cq: seq<Cqe>, id: nat)
    requires Sound(u, cq) && id in u.conns && Idle(u, cq, id)
    ensures Sound(u.Free(id), cq)
  {
    var v := u.Free(id);
    assert InFlight(v, cq) == InFlight(u, cq);
    IdleIff(u, cq, id);
    assert Owners(v) == Owners(u) - {id};
    BagWithout(Flight(u, cq), Owners(u), id);
    assert Flight(v, cq) == Flight(u, cq);
  }

  lemma BagWithout(bag: multiset<nat>, s: set<nat>, x: nat)
    requires bag <= multiset(s) && x !in bag
    ensures bag <= multiset(s - {x})
  {
  }

  lemma HandleAccept(u: User, cq: seq<Cqe>, res: int, address: nat)
    requires Sound(u, cq) && Idle(u, cq, ACCEPT_CONN) && IsFree(u, address)
    ensures Sound(Handle(u, Cqe(Accept, res), address), cq)
  {
    if res >= 0 {
      var c := Conn(res, Read, 0);
      var u1 := u.(conns := u.conns[address := c]);
      NewSound(u, cq, address, c);
      ArmSound(u1, cq, address, c);
      var u2 := u1.Arm(address, c);
      assert Idle(u2, cq, ACCEPT_CONN);
      AcceptSound(u2, cq);
    } else {
      AcceptSound(u, cq);
    }
  }

  lemma HandleIo(u: User, cq: seq<Cqe>, id: nat, kind: Kind, res: int, address: nat)
    requires Sound(u, cq) && id in u.conns && Idle(u, cq, id) && IsFree(u, address)
    ensures Sound(Handle(u, Cqe(Io(id, kind), res), address), cq)
  {
    if res <= 0 {
      FreeSound(u, cq, id);
    } else if u.conns[id].kind.Read? {
      ArmSound(u, cq, id, u.conns[id].(kind := Write, len := res));
    } else {
      ArmSound(u, cq, id, u.conns[id].(kind := Read));
    }
  }

  /** The entries that the treatment of a completion asks for. */
  function Wanted(c: Cqe): nat {
    match c.op
    case Accept => if c.res >= 0 then 2 else 1
    case Io(_, _) => if c.res > 0 then 1 else 0
  }

  lemma ArmSizes(u: User, id: nat, c: Conn)
    requires id in u.conns && |u.sq| <= ENTRIES
    ensures var v := u.Arm(id, c);
      v.armed == u.armed && v.conns.Keys == u.conns.Keys && |v.sq| == Min(|u.sq| + 1, ENTRIES)
  {
    assert u.conns[id := c].Keys == u.conns.Keys;
  }

  /** How many live connections a completion adds. */
  function Born(c: Cqe): int {
    match c.op
    case Accept => if c.res >= 0 then 1 else 0
    case Io(_, _) => if c.res <= 0 then -1 else 0
  }

  lemma HandleSizes(u: User, c: Cqe, address: nat)
    requires IsFree(u, address) && |u.sq| <= ENTRIES && (c.op.Io? ==> c.op.id in u.conns)
    ensures var v := Handle(u, c, address);
      && v.armed == u.armed && |v.sq| == Min(|u.sq| + Wanted(c), ENTRIES)
      && |v.conns.Keys| == |u.conns.Keys| + Born(c)
  {
    match c.op
    case Accept =>
      if c.res >= 0 {
        var k := Conn(c.res, Read, 0);
        var u1 := u.(conns := u.conns[address := k]);
        assert u1.conns.Keys == u.conns.Keys + {address};
        ArmSizes(u1, address, k);
      }
    case Io(id, _) =>
      if c.res <= 0 {
        assert (u.conns - {id}).Keys == u.conns.Keys - {id};
      } else if u.conns[id].kind.Read? {
        ArmSizes(u, id, u.conns[id].(kind := Write, len := c.res));
      } else {
        ArmSizes(u, id, u.conns[id].(kind := Read));
      }
  }

  lemma ProcessSound(u: User, cq: seq<Cqe>, address: nat)
    requires Sound(u, cq) && cq != [] && IsFree(u, address)
    ensures Sound(Handle(u, cq[0], address), cq[1..])
  {
    Popped(u, cq);
    match cq[0].op
    case Accept => HandleAccept(u, cq[1..], cq[0].res, address);
    case Io(id, kind) => HandleIo(u, cq[1..], id, kind, cq[0].res, address);
  }

  /** Processing a completion keeps one operation per live connection exactly when the submission
      queue has the entries it asks for. */
  lemma ProcessExactIff(u: User, cq: seq<Cqe>, address: nat)
    requires Sound(u, cq) && ExactlyOne(u, cq) && cq != [] && IsFree(u, address) && |u.sq| <= ENTRIES
    ensures ExactlyOne(Handle(u, cq[0], address), cq[1..]) <==> |u.sq| + Wanted(cq[0]) <= ENTRIES
  {
    var v := Handle(u, cq[0], address);
    Popped(u, cq);
    ProcessSound(u, cq, address);
    ExactlyOneIff(u, cq);
    ExactlyOneIff(v, cq[1..]);
    ProcessSizes(u, cq, address);
  }

  /** What processing a completion does to the number of operations and of connections. */
  lemma ProcessSizes(u: User, cq: seq<Cqe>, address: nat)
    requires IsFree(u, address) && |u.sq| <= ENTRIES && cq != [] && (cq[0].op.Io? ==> cq[0].op.id in u.conns)
    ensures var v, c := Handle(u, cq[0], address), cq[0];
      && Size(v, cq[1..]) == Size(u, cq) - 1 + Min(Wanted(c), ENTRIES - |u.sq|)
      && |v.conns| == |u.conns| + Wanted(c) - 1
  {
    HandleSizes(u, cq[0], address);
    var v := Handle(u, cq[0], address);
    assert |v.conns| == |v.conns.Keys| && |u.conns| == |u.conns.Keys|;
  }

  lemma PostSound(w: World, i: nat, res: int)
    requires i < |w.u.armed| && Sound(w.u, w.cq)
    ensures var v := Post(w, i, res); Sound(v.u, v.cq) && (ExactlyOne(w.u, w.cq) ==> ExactlyOne(v.u, v.cq))
  {
    PostFlight(w, i, res);
    PostMembers(w, i, res);
    assert Owners(Post(w, i, res).u) == Owners(w.u);
  }

  lemma SubmitSound(u: User, cq: seq<Cqe>, k: nat)
    requires Sound(u, cq)
    ensures Sound(u.Submit(k), cq) && (ExactlyOne(u, cq) ==> ExactlyOne(u.Submit(k), cq))
  {
    SubmitFlight(u, cq, k);
    assert Owners(u.Submit(k)) == Owners(u);
  }

  lemma NextSound(w: World, m: Move)
    requires Enabled(w, m) && Sound(w.u, w.cq)
    ensures var v := Next(w, m); Sound(v.u, v.cq)
    ensures !m.Process? && ExactlyOne(w.u, w.cq) ==> var v := Next(w, m); ExactlyOne(v.u, v.cq)
  {
    match m
    case Submit(k) => SubmitSound(w.u, w.cq, k);
    case Accepted(i, res) => PostSound(w, i, res);
    case ReadDone(i, data) => PostSound(w, i, |data|);
    case WriteDone(i, res) => PostSound(w, i, res);
    case Failed(i, res) => PostSound(w, i, res);
    case Process(address) => ProcessSound(w.u, w.cq, address);
  }

  lemma StartSound()
    ensures var w := Start(); Sound(w.u, w.cq) && ExactlyOne(w.u, w.cq)
  {
    var w := Start();
    assert InFlight(w.u, w.cq) == [Accept];
    KeysOne(Accept);
    assert Owners(w.u) == {ACCEPT_CONN};
    assert Flight(w.u, w.cq) == multiset{ACCEPT_CONN};
  }

  /** Over every run: no connection has two operations in flight, none in flight refers to a
      connection that was freed, and the stored type tells what is in flight. */
  lemma {:induction false} RunSound(w: World, moves: seq<Move>)
    requires Sound(w.u, w.cq) && Possible(w, moves)
    ensures var v := Run(w, moves); Sound(v.u, v.cq)
    decreases |moves|
  {
    if moves != [] {
      NextSound(w, moves[0]);
      RunSound(Next(w, moves[0]), moves[1..]);
    }
  }

  /** No more than bound connections are live whenever a completion is processed. */
  ghost predicate FewLive(w: World, moves: seq<Move>, bound: nat)
    requires Possible(w, moves)
    decreases |moves|
  {
    moves != [] ==>
      (moves[0].Process? ==> |w.u.conns| <= bound) && FewLive(Next(w, moves[0]), moves[1..], bound)
  }

  lemma ProcessExact(u: User, cq: seq<Cqe>, address: nat)
    requires Sound(u, cq) && ExactlyOne(u, cq) && cq != [] && IsFree(u, address) && |u.conns| <= ENTRIES - 2
    ensures ExactlyOne(Handle(u, cq[0], address), cq[1..])
  {
    ExactlyOneIff(u, cq);
    ProcessExactIff(u, cq, address);
  }

  lemma ProcessNext(w: World, address: nat)
    requires Enabled(w, Process(address))
    ensures var v := Next(w, Process(address)); v.u == Handle(w.u, w.cq[0], address) && v.cq == w.cq[1..]
  {
  }

  lemma NextExact(w: World, m: Move)
    requires Enabled(w, m) && Sound(w.u, w.cq) && ExactlyOne(w.u, w.cq)
    requires m.Process? ==> |w.u.conns| <= ENTRIES - 2
    ensures var v := Next(w, m); ExactlyOne(v.u, v.cq)
  {
    match m
    case Process(address) =>
      ProcessNext(w, address);
      ProcessExact(w.u, w.cq, address);
    case _ =>
      NextSound(w, m);
  }

  /** With few enough connections the queue never overflows, however completions are batched, and
      no connection is ever left without an operation. */
  lemma {:induction false} RunExact(w: World, moves: seq<Move>)
    requires Sound(w.u, w.cq) && ExactlyOne(w.u, w.cq) && Possible(w, moves) && FewLive(w, moves, ENTRIES - 2)
    ensures var v := Run(w, moves); ExactlyOne(v.u, v.cq)
    decreases |moves|
  {
    if moves != [] {
      NextSound(w, moves[0]);
      NextExact(w, moves[0]);
      RunExact(Next(w, moves[0]), moves[1..]);
    }
  }

  /** From the start of the program: never two operations for one structure, never one for a
      structure that was freed, and the stored type always tells which one it is. */
  lemma OneOperationEach(moves: seq<Move>)
    requires Possible(Start(), moves)
    ensures var w := Run(Start(), moves);
      && (forall key :: Flight(w.u, w.cq)[key] <= 1)
      && (forall op | op in InFlight(w.u, w.cq) && op.Io? ::
            op.id in w.u.conns && w.u.conns[op.id].kind == op.kind)
  {
    StartSound();
    RunSound(Start(), moves);
    var w := Run(Start(), moves);
    assert Flight(w.u, w.cq) <= multiset(Owners(w.u));
    forall key ensures Flight(w.u, w.cq)[key] <= 1 {
      assert Flight(w.u, w.cq)[key] <= multiset(Owners(w.u))[key];
    }
  }

  /** From the start, with no more than 4094 live connections: every connection and the listener
      have their operation, and the submission queue has room for all of them. */
  lemma NoneStranded(moves: seq<Move>)
    requires Possible(Start(), moves) && FewLive(Start(), moves, ENTRIES - 2)
    ensures var w := Run(Start(), moves);
      && Flight(w.u, w.cq)[ACCEPT_CONN] == 1
      && (forall id | id in w.u.conns :: Flight(w.u, w.cq)[id] == 1)
      && |w.u.armed| + |w.u.sq| + |w.cq| == |w.u.conns| + 1
  {
    StartSound();
    RunSound(Start(), moves);
    RunExact(Start(), moves);
    var w := Run(Start(), moves);
    ExactlyOneIff(w.u, w.cq);
    assert Flight(w.u, w.cq) == multiset(Owners(w.u));
    forall id | id in w.u.conns ensures Flight(w.u, w.cq)[id] == 1 {
      assert id in Owners(w.u);
    }
  }
}
