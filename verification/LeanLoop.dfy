/** A load generator connection joined to the handler of epoll_lt_lean_server.c. What ClosedLoop
    shows of the static table holds here as well, since the two move alike; and where no echo is
    wrong nothing leaks. */
module LeanLoop {
  import opened Kernel
  import Full = BufferedEcho
  import Lean = LeanEcho
  import Client = LoadgenClient
  import EndToEnd
  import Table = ClosedLoop

  datatype Pair = Pair(c: Client.Conn, l: Lean.Conn)

  function Joined(active: bool): Pair {
    Pair(Client.Connected(active), Lean.Accepted())
  }

  function Apply(y: Pair, a: Table.Act): (y': Pair)
    requires y.l.Valid()
    ensures y'.l.Valid()
  {
    match a
    case ClientWakes(err, out, in_) => y.(c := y.c.Begin(err, out, in_))
    case ClientDoes(r) =>
      var c := Client.Step(y.c, r);
      Pair(c, Lean.Next(y.l, Full.Arrive(Emitted(y.c.sk, c.sk))))
    case ServerWakes(out, in_) => y.(l := Lean.Next(y.l, Full.Event(out, in_)))
    case ServerDoes(r) =>
      var l := Lean.Step(y.l, r);
      Pair(y.c.(sk := y.c.sk.Deliver(Emitted(y.l.sk, l.sk))), l)
  }

  function Play(y: Pair, acts: seq<Table.Act>): (y': Pair)
    requires y.l.Valid()
    ensures y'.l.Valid()
    decreases |acts|
  {
    if acts == [] then y else Play(Apply(y, acts[0]), acts[1..])
  }

  // ---------------------------------------------------------------- like the static table

  /** The same client, and a connection of the static table that the lean one looks like. */
  ghost predicate Like(y: Pair, z: Table.Pair) {
    && y.l.Valid() && z.s.Valid() && y.c == z.c
    && Lean.Simulates(y.l, z.s) && Full.MaskAgrees(z.s)
  }

  lemma LikePending(l: Lean.Conn, s: Full.Conn)
    requires l.Valid() && s.Valid() && Lean.Simulates(l, s)
    ensures l.Pending() == s.Pending() && l.InHand() == s.InHand()
  {
  }

  lemma ApplyLike(y: Pair, z: Table.Pair, a: Table.Act)
    requires Like(y, z)
    ensures Like(Apply(y, a), Table.Apply(Full.Level, z, a))
  {
    var moves := Table.ToServer(z, a);
    if moves != [] {
      Lean.NextSimulates(y.l, z.s, moves[0]);
      Full.NextMaskAgrees(Full.Level, z.s, moves[0]);
    }
  }

  lemma {:induction false} PlayLike(y: Pair, z: Table.Pair, acts: seq<Table.Act>)
    requires Like(y, z)
    ensures Like(Play(y, acts), Table.Play(Full.Level, z, acts))
    decreases |acts|
  {
    if acts != [] {
      ApplyLike(y, z, acts[0]);
      PlayLike(Apply(y, acts[0]), Table.Apply(Full.Level, z, acts[0]), acts[1..]);
    }
  }

  lemma JoinedLike(active: bool)
    ensures Like(Joined(active), Table.Joined(active))
  {
  }

  // ---------------------------------------------------------------- right echoes

  /** No wrong echo was counted, and what was sent is received, on the way back, held by the server
      or on the way there. */
  ghost predicate NothingWrong(y: Pair)
    requires y.l.Valid()
  {
    && y.c.errors == (if y.c.sk.open then 0 else 1)
    && y.c.sk.taken == EndToEnd.Requests(y.c.completed) + Client.Payload()[..y.c.recvOffset]
    && (y.l.sk.open ==>
          y.c.sk.out == y.c.sk.taken + y.c.sk.rq + y.l.Pending() + y.l.InHand() + y.l.sk.rq)
  }

  /** A write after a read that stops short finds no remainder to overwrite, and a complete one
      commutes with the remainder that it overtakes. */
  predicate Harmless(l: Lean.Conn, a: Table.Act)
    requires l.Valid()
  {
    a.ServerDoes? && l.pc.Echoing? && !a.sr.Err? ==>
      if a.sr.N? && a.sr.n >= |l.pc.data| then l.Pending() + l.pc.data == l.pc.data + l.Pending()
      else l.Pending() == []
  }

  ghost predicate RightThroughout(y: Pair, acts: seq<Table.Act>)
    requires y.l.Valid()
    decreases |acts|
  {
    NothingWrong(y) && (acts != [] ==> RightThroughout(Apply(y, acts[0]), acts[1..]))
  }

  ghost predicate AllHarmless(y: Pair, acts: seq<Table.Act>)
    requires y.l.Valid()
    decreases |acts|
  {
    acts != [] ==> Harmless(y.l, acts[0]) && AllHarmless(Apply(y, acts[0]), acts[1..])
  }

  lemma {:induction false} RightLike(y: Pair, z: Table.Pair, acts: seq<Table.Act>)
    requires Like(y, z)
    ensures RightThroughout(y, acts) <==> Table.RightThroughout(Full.Level, z, acts)
    decreases |acts|
  {
    LikePending(y.l, z.s);
    if acts != [] {
      ApplyLike(y, z, acts[0]);
      RightLike(Apply(y, acts[0]), Table.Apply(Full.Level, z, acts[0]), acts[1..]);
    }
  }

  lemma OneHarmlessLike(y: Pair, z: Table.Pair, a: Table.Act)
    requires Like(y, z)
    ensures Harmless(y.l, a) <==> Full.AllHarmless(Full.Level, z.s, Table.ToServer(z, a))
  {
    LikePending(y.l, z.s);
  }

  lemma {:induction false} HarmlessLike(y: Pair, z: Table.Pair, acts: seq<Table.Act>)
    requires Like(y, z)
    ensures AllHarmless(y, acts) <==> Full.AllHarmless(Full.Level, z.s, Table.ServerMoves(Full.Level, z, acts))
    decreases |acts|
  {
    if acts != [] {
      var z' := Table.Apply(Full.Level, z, acts[0]);
      OneHarmlessLike(y, z, acts[0]);
      ApplyLike(y, z, acts[0]);
      HarmlessLike(Apply(y, acts[0]), z', acts[1..]);
      Table.ToServerRuns(Full.Level, z, acts[0]);
      Table.HarmlessThen(Full.Level, z.s, Table.ToServer(z, acts[0]), Table.ServerMoves(Full.Level, z', acts[1..]));
    }
  }

  /** The exact condition, in any chunks: nothing is ever wrong if and only if no write of the server
      disturbs its echo. */
  lemma RightThroughoutIff(active: bool, acts: seq<Table.Act>)
    ensures RightThroughout(Joined(active), acts) <==> AllHarmless(Joined(active), acts)
  {
    var y, z := Joined(active), Table.Joined(active);
    JoinedLike(active);
    Table.JoinedInv(active);
    RightLike(y, z, acts);
    HarmlessLike(y, z, acts);
    Table.RightThroughoutIff(Full.Level, z, acts);
  }

  /** What fails on either side, by its place, its queue and the answer. */
  predicate Fails(y: Pair, a: Table.Act) {
    match a
    case ClientWakes(err, _, _) => err && y.c.pc.Idle?
    case ClientDoes(r) => Client.Fatal(y.c.pc, y.c.sk.rq, r)
    case ServerWakes(_, _) => false
    case ServerDoes(r) => Full.Fatal(y.l.pc, y.l.sk.rq, r)
  }

  ghost predicate NeverFails(y: Pair, acts: seq<Table.Act>)
    requires y.l.Valid()
    decreases |acts|
  {
    acts != [] ==> !Fails(y, acts[0]) && NeverFails(Apply(y, acts[0]), acts[1..])
  }

  lemma {:induction false} FailsLike(y: Pair, z: Table.Pair, acts: seq<Table.Act>)
    requires Like(y, z)
    ensures NeverFails(y, acts) <==> Table.NeverFails(Full.Level, z, acts)
    decreases |acts|
  {
    if acts != [] {
      ApplyLike(y, z, acts[0]);
      FailsLike(Apply(y, acts[0]), Table.Apply(Full.Level, z, acts[0]), acts[1..]);
    }
  }

  /** In every run both sides are open at the end if and only if nothing failed. */
  lemma BothOpenIff(active: bool, acts: seq<Table.Act>)
    ensures var y := Play(Joined(active), acts);
      y.c.sk.open && y.l.sk.open <==> NeverFails(Joined(active), acts)
  {
    JoinedLike(active);
    FailsLike(Joined(active), Table.Joined(active), acts);
    PlayLike(Joined(active), Table.Joined(active), acts);
    Table.PlayOpenIff(Full.Level, Table.Joined(active), acts);
  }

  /** Then the loop does not come to rest either: where nothing failed and neither side runs, the
      client waits for room to send, or for bytes, which are queued for one of the two (and so
      reported, in level-triggered mode) or pending with EPOLLOUT registered. */
  lemma NeverStuck(acts: seq<Table.Act>)
    requires AllHarmless(Joined(true), acts) && NeverFails(Joined(true), acts)
    ensures var y := Play(Joined(true), acts);
      y.c.pc.Idle? && y.l.pc.Idle? ==>
        if y.c.phase.Sending? then y.c.interest.Out?
        else
          && y.c.interest.In? && (y.l.interest.InOut? <==> y.l.pw.Some?)
          && |y.c.sk.rq| + |y.l.Pending()| + |y.l.sk.rq| == Client.PAYLOAD_LEN - y.c.recvOffset > 0
  {
    JoinedLike(true);
    HarmlessLike(Joined(true), Table.Joined(true), acts);
    FailsLike(Joined(true), Table.Joined(true), acts);
    PlayLike(Joined(true), Table.Joined(true), acts);
    Table.NeverStuckHarmless(Full.Level, acts);
    LikePending(Play(Joined(true), acts).l, Table.Play(Full.Level, Table.Joined(true), acts).s);
  }

  // ---------------------------------------------------------------- leaks

  lemma OneLeaksNothing(y: Pair, a: Table.Act)
    requires y.l.Valid() && Harmless(y.l, a)
    ensures Lean.Outstanding(Apply(y, a).l) - Lean.Held(Apply(y, a).l) == Lean.Outstanding(y.l) - Lean.Held(y.l)
  {
    if a.ServerDoes? {
      Lean.OneCounted(y.l, Full.Call(a.sr));
      assert y.l.pw.Some? ==> y.l.Pending() != [];
    }
  }

  lemma {:induction false} PlayLeaksNothing(y: Pair, acts: seq<Table.Act>)
    requires y.l.Valid() && AllHarmless(y, acts)
    ensures var v := Play(y, acts);
      Lean.Outstanding(v.l) - Lean.Held(v.l) == Lean.Outstanding(y.l) - Lean.Held(y.l)
    decreases |acts|
  {
    if acts != [] {
      OneLeaksNothing(y, acts[0]);
      PlayLeaksNothing(Apply(y, acts[0]), acts[1..]);
    }
  }

  /** Where no echo is ever wrong, nothing has leaked: what was allocated and not freed is the
      remainder that the table points to. */
  lemma RightLeaksNothing(active: bool, acts: seq<Table.Act>)
    requires RightThroughout(Joined(active), acts)
    ensures var l := Play(Joined(active), acts).l; Lean.Outstanding(l) == Lean.Held(l)
  {
    RightThroughoutIff(active, acts);
    PlayLeaksNothing(Joined(active), acts);
  }
}
