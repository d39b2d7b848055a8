/** The bounds of server_uring.c are exact. Up to 4094 live connections the listener keeps its
    accept; with 4095 there is a run from the start that loses it for good. Up to 4095 every
    connection keeps its operation; with 4096 there is a run that leaves one without.

    In both runs all connections have their reads complete before the process looks, so that one
    batch asks for an entry for each of them. */
module UringLimit {
  import opened Kernel
  import opened UringServer

  /** The reads of connections a + 1 to n. */
  function Reads(a: nat, n: nat): seq<Op>
    decreases n - a
  {
    if a >= n then [] else [Io(a + 1, Read)] + Reads(a + 1, n)
  }

  lemma {:induction false} ReadsGrow(a: nat, n: nat)
    requires a <= n
    ensures Reads(a, n + 1) == Reads(a, n) + [Io(n + 1, Read)]
    ensures |Reads(a, n)| == n - a
    decreases n - a
  {
    if a < n {
      ReadsGrow(a + 1, n);
    } else {
      assert Reads(n + 1, n + 1) == [];
    }
  }

  function Ids(n: nat): (s: set<nat>)
    ensures forall id :: id in s <==> 1 <= id <= n
  {
    if n == 0 then {} else Ids(n - 1) + {n}
  }

  lemma {:induction false} IdsSize(n: nat)
    ensures |Ids(n)| == n
  {
    if n > 0 {
      IdsSize(n - 1);
    }
  }

  /** n connections, all with a read accepted by the kernel, and the accept behind them. */
  ghost predicate AllReading(u: User, n: nat) {
    && u.armed == Reads(0, n) + [Accept] && u.sq == []
    && u.conns.Keys == Ids(n) && forall id | id in u.conns :: u.conns[id].kind.Read?
  }

  /** The first k of n connections have a write in the submission queue, the others a read that the
      kernel holds. */
  ghost predicate Written(u: User, n: nat, k: nat) {
    k <= n && u.armed == Reads(k, n) + [Accept] && Queued(u, n, k)
  }

  ghost predicate Queued(u: User, n: nat, k: nat) {
    && |u.sq| == k && (forall op | op in u.sq :: op.Io? && 1 <= op.id <= k)
    && u.conns.Keys == Ids(n) && forall id | id in u.conns && id > k :: u.conns[id].kind.Read?
  }

  lemma RunThen(w: World, m: Move, rest: seq<Move>, bound: nat)
    requires Enabled(w, m) && Possible(Next(w, m), rest)
    requires FewLive(Next(w, m), rest, bound) && (m.Process? ==> |w.u.conns| <= bound)
    ensures Possible(w, [m] + rest) && FewLive(w, [m] + rest, bound)
    ensures Run(w, [m] + rest) == Run(Next(w, m), rest)
  {
    assert ([m] + rest)[0] == m && ([m] + rest)[1..] == rest;
  }

  lemma {:induction false} RunConcat(w: World, a: seq<Move>, b: seq<Move>, bound: nat)
    requires Possible(w, a) && FewLive(w, a, bound)
    requires Possible(Run(w, a), b) && FewLive(Run(w, a), b, bound)
    ensures Possible(w, a + b) && FewLive(w, a + b, bound) && Run(w, a + b) == Run(Run(w, a), b)
    decreases |a|
  {
    if a == [] {
      assert a + b == b;
    } else {
      var ab := a + b;
      ConcatHead(a, b);
      RunConcat(Next(w, a[0]), a[1..], b, bound);
      assert Run(w, a) == Run(Next(w, a[0]), a[1..]);
      assert Run(w, ab) == Run(Next(w, a[0]), a[1..] + b);
    }
  }

  // ---------------------------------------------------------------- connections arrive

  lemma AcceptCompletes(w: World, n: nat)
    requires AllReading(w.u, n) && w.cq == []
    ensures Enabled(w, Accepted(n, n))
    ensures var v := Next(w, Accepted(n, n));
      v.u == w.u.(armed := Reads(0, n)) && v.cq == [Cqe(Accept, n)] && |v.u.conns| == n
  {
    ReadsGrow(0, n);
    IdsSize(n);
    assert w.u.conns.Keys == Ids(n);
    assert Without(w.u.armed, n) == Reads(0, n);
  }

  lemma AcceptHandled(u: User, n: nat)
    requires AllReading(u, n)
    ensures AllReading(Handle(u.(armed := Reads(0, n)), Cqe(Accept, n), n + 1).Submit(2), n + 1)
  {
    var before := u.(armed := Reads(0, n));
    ReadsGrow(0, n);
    BothQueued(before, n, n + 1);
    var v := Handle(before, Cqe(Accept, n), n + 1);
    assert v.conns.Keys == Ids(n) + {n + 1} == Ids(n + 1);
    assert v.sq[..2] == v.sq && v.sq[2..] == [];
    assert Reads(0, n) + [Io(n + 1, Read), Accept] == (Reads(0, n) + [Io(n + 1, Read)]) + [Accept];
  }

  lemma BothQueued(u: User, res: nat, address: nat)
    requires IsFree(u, address) && u.sq == []
    ensures Handle(u, Cqe(Accept, res), address) ==
            u.(sq := [Io(address, Read), Accept], conns := u.conns[address := Conn(res, Read, 0)])
  {
    var c := Conn(res, Read, 0);
    assert u.conns[address := c][address := c] == u.conns[address := c];
  }

  lemma {:induction false} Grow(w: World, n: nat, goal: nat) returns (moves: seq<Move>)
    requires AllReading(w.u, n) && w.cq == [] && n <= goal
    ensures Possible(w, moves) && FewLive(w, moves, goal)
    ensures AllReading(Run(w, moves).u, goal) && Run(w, moves).cq == []
    decreases goal - n
  {
    if n == goal {
      moves := [];
    } else {
      var a, p, s := Accepted(n, n), Process(n + 1), Move.Submit(2);
      AcceptCompletes(w, n);
      var w1 := Next(w, a);
      AcceptHandled(w.u, n);
      ProcessNext(w1, n + 1);
      var w2 := Next(w1, p);
      var rest := Grow(Next(w2, s), n + 1, goal);
      RunThen(w2, s, rest, goal);
      RunThen(w1, p, [s] + rest, goal);
      RunThen(w, a, [p] + ([s] + rest), goal);
      moves := [a] + ([p] + ([s] + rest));
    }
  }

  // ---------------------------------------------------------------- their reads complete

  lemma ReadCompletes(w: World, n: nat, k: nat)
    requires Written(w.u, n, k) && w.cq == [] && k < n
    ensures Enabled(w, ReadDone(0, [0]))
    ensures var v := Next(w, ReadDone(0, [0]));
      && v.u == w.u.(armed := Reads(k + 1, n) + [Accept]) && v.cq == [Cqe(Io(k + 1, Read), 1)]
      && |v.u.conns| == n
  {
    IdsSize(n);
    assert w.u.armed[0] == Io(k + 1, Read);
    assert Without(w.u.armed, 0) == Reads(k + 1, n) + [Accept];
  }

  lemma ReadHandled(u: User, n: nat, k: nat)
    requires k < n && k < ENTRIES && Queued(u, n, k)
    ensures var v := Handle(u, Cqe(Io(k + 1, Read), 1), n + 1); v.armed == u.armed && Queued(v, n, k + 1)
  {
    assert k + 1 in Ids(n);
    WriteQueued(u, k + 1, n + 1);
    var v := Handle(u, Cqe(Io(k + 1, Read), 1), n + 1);
    assert v.conns.Keys == u.conns.Keys;
  }

  lemma WriteQueued(u: User, id: nat, address: nat)
    requires IsFree(u, address) && id in u.conns && u.conns[id].kind.Read? && |u.sq| < ENTRIES
    ensures Handle(u, Cqe(Io(id, Read), 1), address) ==
            u.(sq := u.sq + [Io(id, Write)], conns := u.conns[id := u.conns[id].(kind := Write, len := 1)])
  {
  }

  /** One more read completes and is processed. */
  lemma ReadOne(w: World, n: nat, k: nat)
    requires Written(w.u, n, k) && w.cq == [] && k < n && k < ENTRIES
    ensures Enabled(w, ReadDone(0, [0])) && Enabled(Next(w, ReadDone(0, [0])), Process(n + 1))
    ensures |Next(w, ReadDone(0, [0])).u.conns| == n
    ensures var v := Next(Next(w, ReadDone(0, [0])), Process(n + 1)); Written(v.u, n, k + 1) && v.cq == []
  {
    ReadCompletes(w, n, k);
    var w1 := Next(w, ReadDone(0, [0]));
    ReadHandled(w1.u, n, k);
    ProcessNext(w1, n + 1);
  }

  lemma {:induction false} ReadAll(w: World, n: nat, k: nat, goal: nat) returns (moves: seq<Move>)
    requires Written(w.u, n, k) && w.cq == [] && k <= goal <= n && goal <= ENTRIES
    ensures Possible(w, moves) && FewLive(w, moves, n)
    ensures Written(Run(w, moves).u, n, goal) && Run(w, moves).cq == []
    decreases goal - k
  {
    if k == goal {
      moves := [];
    } else {
      var d, p := ReadDone(0, [0]), Process(n + 1);
      ReadOne(w, n, k);
      var w1 := Next(w, d);
      var rest := ReadAll(Next(w1, p), n, k + 1, goal);
      RunThen(w1, p, rest, n);
      RunThen(w, d, [p] + rest, n);
      moves := [d] + ([p] + rest);
    }
  }

  /** From the start: n connections, of which the first k have been read and wait to be written. */
  lemma Reach(n: nat, k: nat) returns (moves: seq<Move>)
    requires k <= n && k <= ENTRIES
    ensures Possible(Start(), moves) && FewLive(Start(), moves, n)
    ensures Written(Run(Start(), moves).u, n, k) && Run(Start(), moves).cq == []
  {
    var w0 := Start();
    var w1 := Next(w0, Move.Submit(1));
    assert w1.u.conns.Keys == Ids(0);
    var grow := Grow(w1, 0, n);
    var w2 := Run(w1, grow);
    assert Written(w2.u, n, 0);
    var read := ReadAll(w2, n, 0, k);
    RunConcat(w1, grow, read, n);
    RunThen(w0, Move.Submit(1), grow + read, n);
    moves := [Move.Submit(1)] + (grow + read);
  }

  // ---------------------------------------------------------------- one completion too many

  lemma AcceptLost(w: World)
    requires Written(w.u, ENTRIES - 1, ENTRIES - 1) && w.cq == []
    ensures var end := [Accepted(0, 7)] + ([Process(ENTRIES)] + []);
      Possible(w, end) && FewLive(w, end, ENTRIES - 1) && Stranded(Run(w, end), ACCEPT_CONN)
  {
    var n := ENTRIES - 1;
    var a, p := Accepted(0, 7), Process(ENTRIES);
    assert w.u.armed == [Accept];
    IdsSize(n);
    var w1 := Next(w, a);
    assert w1.u == w.u.(armed := []) && w1.cq == [Cqe(Accept, 7)];
    ProcessNext(w1, ENTRIES);
    OneQueued(w1.u, 7, ENTRIES);
    IdleParts(Next(w1, p).u, [], ACCEPT_CONN);
    RunThen(w1, p, [], n);
    RunThen(w, a, [p] + [], n);
  }

  lemma OneQueued(u: User, res: nat, address: nat)
    requires IsFree(u, address) && |u.sq| == ENTRIES - 1
    ensures var v := Handle(u, Cqe(Accept, res), address); v.sq == u.sq + [Io(address, Read)] && v.armed == u.armed
  {
  }

  /** One connection more than the bound allows: never are more than 4095 live when a completion is
      processed, and at the end the listener has no accept queued, accepted or completed. */
  lemma ListenerStranded() returns (moves: seq<Move>)
    ensures Possible(Start(), moves) && FewLive(Start(), moves, ENTRIES - 1)
    ensures Stranded(Run(Start(), moves), ACCEPT_CONN)
  {
    var before := Reach(ENTRIES - 1, ENTRIES - 1);
    AcceptLost(Run(Start(), before));
    var end := [Accepted(0, 7)] + ([Process(ENTRIES)] + []);
    RunConcat(Start(), before, end, ENTRIES - 1);
    moves := before + end;
  }

  /** Of 4095 connections all but the last have asked for an entry, and one more connects: its read
      and the accept take the last two entries. */
  lemma OneMoreAccepted(w: World)
    requires Written(w.u, ENTRIES - 1, ENTRIES - 2) && w.cq == []
    ensures var end := [Accepted(1, 7)] + ([Process(ENTRIES)] + []);
      && Possible(w, end) && FewLive(w, end, ENTRIES) && LastWaits(Run(w, end))
  {
    var n := ENTRIES - 1;
    var a, p := Accepted(1, 7), Process(ENTRIES);
    assert Reads(n, n) == [] && w.u.armed == [Io(n, Read), Accept];
    assert Without(w.u.armed, 1) == [Io(n, Read)];
    IdsSize(n);
    var w1 := Next(w, a);
    assert w1.u == w.u.(armed := [Io(n, Read)]) && w1.cq == [Cqe(Accept, 7)];
    ProcessNext(w1, ENTRIES);
    LastTwoQueued(w1.u, n, 7, ENTRIES);
    IdsSize(ENTRIES);
    RunThen(w1, p, [], ENTRIES);
    RunThen(w, a, [p] + [], ENTRIES);
  }

  lemma LastTwoQueued(u: User, n: nat, res: nat, address: nat)
    requires IsFree(u, address) && |u.sq| == ENTRIES - 2 && address == n + 1
    requires u.conns.Keys == Ids(n) && n in u.conns && u.conns[n].kind.Read?
    requires forall op | op in u.sq :: op.Io? && op.id < n
    ensures var v := Handle(u, Cqe(Accept, res), address);
      && v.armed == u.armed && |v.sq| == ENTRIES && (forall x | x in v.sq :: Key(x) != n)
      && v.conns.Keys == Ids(n + 1) && v.conns[n].kind.Read?
  {
    var v := Handle(u, Cqe(Accept, res), address);
    assert n in Ids(n);
    assert v.sq == u.sq + [Io(address, Read), Accept];
    assert v.conns.Keys == Ids(n) + {address} == Ids(n + 1);
  }

  /** 4096 live connections, a full queue, and a read of connection 4095 that the kernel holds. */
  ghost predicate LastWaits(w: World) {
    var n := ENTRIES - 1;
    && w.u.armed == [Io(n, Read)] && w.cq == [] && |w.u.sq| == ENTRIES
    && (forall x | x in w.u.sq :: Key(x) != n)
    && w.u.conns.Keys == Ids(ENTRIES) && |w.u.conns| == ENTRIES && w.u.conns[n].kind.Read?
  }

  lemma WriteLost(w: World)
    requires LastWaits(w)
    ensures var end := [ReadDone(0, [0])] + ([Process(ENTRIES + 1)] + []);
      Possible(w, end) && FewLive(w, end, ENTRIES) && Stranded(Run(w, end), ENTRIES - 1)
  {
    var d, p := ReadDone(0, [0]), Process(ENTRIES + 1);
    var w1 := Next(w, d);
    assert w1.u == w.u.(armed := []) && w1.cq == [Cqe(Io(ENTRIES - 1, Read), 1)];
    ProcessNext(w1, ENTRIES + 1);
    NotQueued(w1.u, ENTRIES - 1, ENTRIES + 1);
    IdleParts(w1.u, [], ENTRIES - 1);
    RunThen(w1, p, [], ENTRIES);
    RunThen(w, d, [p] + [], ENTRIES);
  }

  lemma NotQueued(u: User, id: nat, address: nat)
    requires IsFree(u, address) && id in u.conns && u.conns[id].kind.Read? && |u.sq| == ENTRIES
    ensures Handle(u, Cqe(Io(id, Read), 1), address) == u
  {
  }

  /** One connection more than the bound for connections: never are more than 4096 live when a
      completion is processed, and at the end a live connection that has been read from will never
      be written to or read again. */
  lemma ConnectionStranded() returns (moves: seq<Move>)
    ensures Possible(Start(), moves) && FewLive(Start(), moves, ENTRIES)
    ensures Stranded(Run(Start(), moves), ENTRIES - 1)
  {
    var before := Reach(ENTRIES - 1, ENTRIES - 2);
    var w := Run(Start(), before);
    OneMoreAccepted(w);
    var last := [Accepted(1, 7)] + ([Process(ENTRIES)] + []);
    var end := [ReadDone(0, [0])] + ([Process(ENTRIES + 1)] + []);
    WriteLost(Run(w, last));
    RunConcat(w, last, end, ENTRIES);
    FewerLive(Start(), before, ENTRIES - 1, ENTRIES);
    RunConcat(Start(), before, last + end, ENTRIES);
    moves := before + (last + end);
  }

  lemma {:induction false} FewerLive(w: World, moves: seq<Move>, few: nat, many: nat)
    requires Possible(w, moves) && FewLive(w, moves, few) && few <= many
    ensures FewLive(w, moves, many)
    decreases |moves|
  {
    if moves != [] {
      FewerLive(Next(w, moves[0]), moves[1..], few, many);
    }
  }

  // ---------------------------------------------------------------- every connection covered

  /** Every live connection has exactly one operation; the listener need not. */
  ghost predicate Covered(u: User, cq: seq<Cqe>) {
    forall id | id in u.conns :: Flight(u, cq)[id] == 1
  }

  /** The operation of a connection that the treatment of a completion asks for. */
  predicate Asks(c: Cqe) {
    if c.op.Accept? then c.res >= 0 else c.res > 0
  }

  /** The structures whose operations are queued. */
  ghost function Added(u: User, c: Cqe, address: nat): multiset<nat> {
    match c.op
    case Accept =>
      (if Asks(c) && |u.sq| < ENTRIES then multiset{address} else multiset{})
      + (if |u.sq| + One(Asks(c)) < ENTRIES then multiset{ACCEPT_CONN} else multiset{})
    case Io(id, _) => if Asks(c) && |u.sq| < ENTRIES then multiset{id} else multiset{}
  }

  lemma ArmFlight(u: User, cq: seq<Cqe>, id: nat, c: Conn)
    requires id in u.conns
    ensures Flight(u.Arm(id, c), cq) ==
            Flight(u, cq) + if |u.sq| < ENTRIES then multiset{id} else multiset{}
  {
    if |u.sq| < ENTRIES {
      var u' := u.(conns := u.conns[id := c]);
      assert InFlight(u', cq) == InFlight(u, cq);
      PushFlight(u', cq, Io(id, c.kind));
    }
  }

  lemma AcceptFlight(u: User, cq: seq<Cqe>, res: int, address: nat)
    requires IsFree(u, address) && |u.sq| <= ENTRIES
    ensures Flight(Handle(u, Cqe(Accept, res), address), cq) ==
            Flight(u, cq) + Added(u, Cqe(Accept, res), address)
  {
    var v := u;
    if res >= 0 {
      var u1 := u.(conns := u.conns[address := Conn(res, Read, 0)]);
      assert InFlight(u1, cq) == InFlight(u, cq);
      ArmFlight(u1, cq, address, u1.conns[address]);
      v := u1.AddRead(address);
    }
    if |v.sq| < ENTRIES {
      PushFlight(v, cq, Accept);
    }
  }

  lemma HandleFlight(u: User, cq: seq<Cqe>, c: Cqe, address: nat)
    requires IsFree(u, address) && |u.sq| <= ENTRIES && (c.op.Io? ==> c.op.id in u.conns)
    ensures Flight(Handle(u, c, address), cq) == Flight(u, cq) + Added(u, c, address)
  {
    match c.op
    case Accept => AcceptFlight(u, cq, c.res, address);
    case Io(id, _) =>
      if c.res <= 0 {
        assert InFlight(u.Free(id), cq) == InFlight(u, cq);
      } else if u.conns[id].kind.Read? {
        ArmFlight(u, cq, id, u.conns[id].(kind := Write, len := c.res));
      } else {
        ArmFlight(u, cq, id, u.conns[id].(kind := Read));
      }
  }

  lemma HandleConns(u: User, c: Cqe, address: nat)
    requires IsFree(u, address) && (c.op.Io? ==> c.op.id in u.conns)
    ensures Handle(u, c, address).conns.Keys ==
            if c.op.Accept? then (if Asks(c) then u.conns.Keys + {address} else u.conns.Keys)
            else (if Asks(c) then u.conns.Keys else u.conns.Keys - {c.op.id})
  {
  }

  /** The connection that a completion is about, or the one it brings. */
  function Subject(c: Cqe, address: nat): nat {
    if c.op.Accept? then address else c.op.id
  }

  lemma SubjectFlight(u: User, cq: seq<Cqe>, address: nat)
    requires Sound(u, cq) && cq != [] && IsFree(u, address) && |u.sq| <= ENTRIES
    ensures Flight(Handle(u, cq[0], address), cq[1..])[Subject(cq[0], address)] ==
            One(Asks(cq[0]) && |u.sq| < ENTRIES)
  {
    var c, rest := cq[0], cq[1..];
    Popped(u, cq);
    HandleFlight(u, rest, c, address);
    IdleIff(u, rest, Key(c.op));
    assert address !in Owners(u) && Flight(u, rest) <= multiset(Owners(u));
    assert multiset(Owners(u))[address] == 0;
    assert Flight(u, rest)[Subject(c, address)] == 0;
  }

  lemma AddedElsewhere(u: User, c: Cqe, address: nat, id: nat)
    requires id != ACCEPT_CONN && id != Subject(c, address)
    ensures Added(u, c, address)[id] == 0
  {
  }

  lemma OtherFlight(u: User, cq: seq<Cqe>, address: nat, id: nat)
    requires Sound(u, cq) && cq != [] && IsFree(u, address) && |u.sq| <= ENTRIES
    requires id in u.conns && id != Subject(cq[0], address)
    ensures Flight(Handle(u, cq[0], address), cq[1..])[id] == Flight(u, cq)[id]
  {
    Popped(u, cq);
    HandleFlight(u, cq[1..], cq[0], address);
    AddedElsewhere(u, cq[0], address, id);
    assert id != Key(cq[0].op);
  }

  /** Treating a completion keeps every connection covered exactly when a connection that asks for
      an operation finds an entry. */
  lemma ProcessCoveredIff(u: User, cq: seq<Cqe>, address: nat)
    requires Sound(u, cq) && Covered(u, cq) && cq != [] && IsFree(u, address) && |u.sq| <= ENTRIES
    ensures Covered(Handle(u, cq[0], address), cq[1..]) <==> (Asks(cq[0]) ==> |u.sq| < ENTRIES)
  {
    var v := Handle(u, cq[0], address);
    Popped(u, cq);
    HandleConns(u, cq[0], address);
    SubjectFlight(u, cq, address);
    forall id | id in u.conns && id != Subject(cq[0], address)
      ensures Flight(v, cq[1..])[id] == 1
    {
      OtherFlight(u, cq, address, id);
    }
    if Asks(cq[0]) {
      assert Subject(cq[0], address) in v.conns;
    }
  }

  lemma NextCovered(w: World, m: Move)
    requires Enabled(w, m) && !m.Process? && Covered(w.u, w.cq)
    ensures var v := Next(w, m); Covered(v.u, v.cq)
  {
    if m.Submit? {
      SubmitFlight(w.u, w.cq, m.k);
    } else if m.ReadDone? {
      PostFlight(w, m.i, |m.data|);
    } else {
      PostFlight(w, m.i, m.res);
    }
  }

  /** The queue never holds more than its entries. */
  lemma NextFits(w: World, m: Move)
    requires Enabled(w, m) && |w.u.sq| <= ENTRIES && Sound(w.u, w.cq)
    ensures |Next(w, m).u.sq| <= ENTRIES
  {
    if m.Process? {
      Popped(w.u, w.cq);
      ProcessNext(w, m.address);
      HandleSizes(w.u, w.cq[0], m.address);
    }
  }

  ghost predicate ExactThroughout(w: World, moves: seq<Move>)
    requires Possible(w, moves)
    decreases |moves|
  {
    ExactlyOne(w.u, w.cq) && (moves != [] ==> ExactThroughout(Next(w, moves[0]), moves[1..]))
  }

  /** Each completion finds the one or two entries that it asks for. */
  ghost predicate AllEntries(w: World, moves: seq<Move>)
    requires Possible(w, moves)
    decreases |moves|
  {
    moves != [] ==>
      && (moves[0].Process? ==> |w.u.sq| + Wanted(w.cq[0]) <= ENTRIES)
      && AllEntries(Next(w, moves[0]), moves[1..])
  }

  /** Over every run: the listener and each live connection have exactly one operation throughout if
      and only if each completion finds the entries it asks for. */
  lemma {:induction false} ExactThroughoutIff(w: World, moves: seq<Move>)
    requires Possible(w, moves) && Sound(w.u, w.cq) && ExactlyOne(w.u, w.cq) && |w.u.sq| <= ENTRIES
    ensures ExactThroughout(w, moves) <==> AllEntries(w, moves)
    decreases |moves|
  {
    if moves != [] {
      var m, v := moves[0], Next(w, moves[0]);
      NextSound(w, m);
      NextFits(w, m);
      if m.Process? {
        ProcessNext(w, m.address);
        ProcessExactIff(w.u, w.cq, m.address);
      }
      if ExactlyOne(v.u, v.cq) {
        ExactThroughoutIff(v, moves[1..]);
      }
    }
  }

  ghost predicate CoveredThroughout(w: World, moves: seq<Move>)
    requires Possible(w, moves)
    decreases |moves|
  {
    Covered(w.u, w.cq) && (moves != [] ==> CoveredThroughout(Next(w, moves[0]), moves[1..]))
  }

  /** Each completion that asks for an operation of a connection finds an entry in the queue. */
  ghost predicate AllFind(w: World, moves: seq<Move>)
    requires Possible(w, moves)
    decreases |moves|
  {
    moves != [] ==>
      && (moves[0].Process? && Asks(w.cq[0]) ==> |w.u.sq| < ENTRIES)
      && AllFind(Next(w, moves[0]), moves[1..])
  }

  /** Over every run: each live connection has exactly one operation throughout if and only if each
      completion that asks for one finds an entry. */
  lemma {:induction false} CoveredIff(w: World, moves: seq<Move>)
    requires Possible(w, moves) && Sound(w.u, w.cq) && Covered(w.u, w.cq) && |w.u.sq| <= ENTRIES
    ensures CoveredThroughout(w, moves) <==> AllFind(w, moves)
    decreases |moves|
  {
    if moves != [] {
      var m, v := moves[0], Next(w, moves[0]);
      NextSound(w, m);
      NextFits(w, m);
      if m.Process? {
        ProcessNext(w, m.address);
        ProcessCoveredIff(w.u, w.cq, m.address);
      } else {
        NextCovered(w, m);
      }
      if Covered(v.u, v.cq) {
        CoveredIff(v, moves[1..]);
      }
    }
  }

  /** With no more than 4095 live connections there is always an entry: the completion itself is one
      of the operations that could fill the queue. */
  lemma {:induction false} FewFind(w: World, moves: seq<Move>)
    requires Possible(w, moves) && Sound(w.u, w.cq) && FewLive(w, moves, ENTRIES - 1)
    ensures AllFind(w, moves)
    decreases |moves|
  {
    if moves != [] {
      ExactlyOneIff(w.u, w.cq);
      NextSound(w, moves[0]);
      FewFind(Next(w, moves[0]), moves[1..]);
    }
  }

  lemma {:induction false} CoveredAtEnd(w: World, moves: seq<Move>)
    requires Possible(w, moves) && CoveredThroughout(w, moves)
    ensures Covered(Run(w, moves).u, Run(w, moves).cq)
    decreases |moves|
  {
    if moves != [] {
      CoveredAtEnd(Next(w, moves[0]), moves[1..]);
    }
  }

  /** From the start, with no more than 4095 live connections: every connection has its operation,
      whatever becomes of the listener. */
  lemma ConnectionsCovered(moves: seq<Move>)
    requires Possible(Start(), moves) && FewLive(Start(), moves, ENTRIES - 1)
    ensures var w := Run(Start(), moves); forall id | id in w.u.conns :: Flight(w.u, w.cq)[id] == 1
  {
    StartSound();
    FewFind(Start(), moves);
    CoveredIff(Start(), moves);
    CoveredAtEnd(Start(), moves);
  }

  // ---------------------------------------------------------------- for good

  /** A structure that the process still counts on has no operation. */
  ghost predicate Stranded(w: World, key: nat) {
    Idle(w.u, w.cq, key) && (key == ACCEPT_CONN || key in w.u.conns)
  }

  /** Processing queues operations only for the structure of its completion and for a new one, and
      frees no other. */
  lemma HandleTouches(u: User, c: Cqe, address: nat)
    requires IsFree(u, address)
    ensures var v := Handle(u, c, address);
      && v.armed == u.armed
      && (forall x | x in v.sq :: x in u.sq || Key(x) == Key(c.op) || Key(x) == address)
      && (forall id | id in u.conns && id != Key(c.op) :: id in v.conns)
  {
  }

  lemma IdleParts(u: User, cq: seq<Cqe>, key: nat)
    ensures Idle(u, cq, key) <==>
            && (forall x | x in u.armed :: Key(x) != key) && (forall x | x in u.sq :: Key(x) != key)
            && (forall x | x in CqOps(cq) :: Key(x) != key)
  {
    assert forall x | x in u.armed :: x in InFlight(u, cq);
    assert forall x | x in u.sq :: x in InFlight(u, cq);
    assert forall x | x in CqOps(cq) :: x in InFlight(u, cq);
  }

  lemma ProcessStranded(w: World, address: nat, key: nat)
    requires Stranded(w, key) && Enabled(w, Process(address))
    ensures Stranded(Next(w, Process(address)), key)
  {
    var v, c := Handle(w.u, w.cq[0], address), w.cq[0];
    ProcessNext(w, address);
    IdleParts(w.u, w.cq, key);
    assert CqOps(w.cq) == [c.op] + CqOps(w.cq[1..]);
    assert c.op in CqOps(w.cq) && forall x | x in CqOps(w.cq[1..]) :: x in CqOps(w.cq);
    HandleTouches(w.u, c, address);
    IdleParts(v, w.cq[1..], key);
  }

  lemma NextStranded(w: World, m: Move, key: nat)
    requires Stranded(w, key) && Enabled(w, m)
    ensures Stranded(Next(w, m), key)
  {
    match m
    case Submit(k) => SubmitFlight(w.u, w.cq, k);
    case Process(address) => ProcessStranded(w, address, key);
    case Accepted(i, res) => PostMembers(w, i, res);
    case ReadDone(i, data) => PostMembers(w, i, |data|);
    case WriteDone(i, res) => PostMembers(w, i, res);
    case Failed(i, res) => PostMembers(w, i, res);
  }

  /** Nothing that kernel or process do afterwards brings the operation back. */
  lemma {:induction false} StrandedForGood(w: World, moves: seq<Move>, key: nat)
    requires Stranded(w, key) && Possible(w, moves)
    ensures Stranded(Run(w, moves), key)
    decreases |moves|
  {
    if moves != [] {
      NextStranded(w, moves[0], key);
      StrandedForGood(Next(w, moves[0]), moves[1..], key);
    }
  }
}
