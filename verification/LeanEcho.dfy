/** epoll_lt_lean_server.c: the level-triggered server with its remainder allocated on demand
    instead of kept in a static table, and the proof that the two cannot be told apart. */
module LeanEcho {
  import opened Kernel
  import Full = BufferedEcho

  /** struct pending_write as a value: buf[offset..len] is still to be written. */
  datatype Remainder = Remainder(buf: Bytes, len: nat, offset: nat)

  datatype Option<T> = None | Some(value: T)

  /** One connection, with the remainders allocated for it so far and those freed again. */
  datatype Conn = Conn(sk: Sock, pw: Option<Remainder>, interest: Full.Interest, pc: Full.Pc,
                       events: nat, requests: nat, mallocs: nat, frees: nat)
  {
    predicate Valid() {
      && (pw.Some? ==> |pw.value.buf| == pw.value.len <= BUF_SIZE && pw.value.offset < pw.value.len)
      && (pc.Flushing? ==> pw.Some?)
      && (pc.Echoing? ==> 0 < |pc.data| <= BUF_SIZE)
      && (!sk.open ==> pw.None? && pc.Idle?)
    }

    /** What is still to be written of an earlier read. */
    function Pending(): Bytes
      requires Valid()
    {
      if pw.Some? then pw.value.buf[pw.value.offset..] else []
    }

    function InHand(): Bytes {
      if pc.Echoing? then pc.data else []
    }

    function EnterRead(wanted: bool): Conn {
      this.(pc := if wanted then Full.Reading else Full.Idle)
    }

    /** A remainder that the table points to is freed. */
    function Release(): Conn {
      this.(pw := None, frees := frees + Held(this))
    }

    function Close(): Conn {
      Release().(sk := sk.Closed(), pc := Full.Idle)
    }

    function Drained(): Conn {
      Release().(interest := Full.In, requests := requests + 1)
    }

    /** A write event does nothing where no remainder is allocated. */
    function Begin(out: bool, in_: bool): Conn {
      if !sk.open || !pc.Idle? then this
      else if out && pw.Some? then this.(pc := Full.Flushing(in_))
      else EnterRead(in_)
    }
  }

  function Accepted(): Conn {
    Conn(Fresh(), None, Full.In, Full.Idle, 0, 0, 0, 0)
  }

  function Held(c: Conn): nat {
    One(c.pw.Some?)
  }

  function StepFlush(c: Conn, r: Ret): (c': Conn)
    requires c.Valid() && c.pc.Flushing?
    ensures c'.Valid() && c.sk.out <= c'.sk.out
  {
    match r
    case Again => c.EnterRead(c.pc.thenRead)
    case Err => c.Close()
    case N(n) =>
      var p := c.pw.value;
      var k := Min(n, p.len - p.offset);
      var d := c.(sk := c.sk.AfterWrite(p.buf[p.offset..p.offset + k]));
      if p.offset + k < p.len then d.(pw := Some(p.(offset := p.offset + k)))
      else d.Drained().EnterRead(c.pc.thenRead)
  }

  function StepRead(c: Conn, r: Ret): (c': Conn)
    requires c.Valid() && c.pc.Reading?
    ensures c'.Valid() && c.sk.out <= c'.sk.out
  {
    match r
    case Again => c.(pc := Full.Idle)
    case Err => c.Close()
    case N(n) =>
      var k := c.sk.ReadCount(BUF_SIZE, n);
      if k == 0 then c.Close()
      else c.(sk := c.sk.AfterRead(k), pc := Full.Echoing(c.sk.rq[..k]), events := c.events + 1)
  }

  function StepEcho(c: Conn, r: Ret): (c': Conn)
    requires c.Valid() && c.pc.Echoing?
    ensures c'.Valid() && c.sk.out <= c'.sk.out
  {
    if r.Err? then c.Close()
    else
      var data := c.pc.data;
      var n := if r.N? then Min(r.n, |data|) else 0;
      var d := c.(sk := c.sk.AfterWrite(data[..n]), pc := Full.Idle);
      if n < |data| then
        d.(pw := Some(Remainder(data[n..], |data| - n, 0)), interest := Full.InOut, mallocs := c.mallocs + 1)
      else d.(requests := c.requests + 1)
  }

  function Step(c: Conn, r: Ret): (c': Conn)
    requires c.Valid()
    ensures c'.Valid() && c.sk.out <= c'.sk.out
  {
    match c.pc
    case Idle => c
    case Flushing(_) => StepFlush(c, r)
    case Reading => StepRead(c, r)
    case Echoing(_) => StepEcho(c, r)
  }

  function Handle(c: Conn, rets: seq<Ret>): (c': Conn)
    requires c.Valid()
    ensures c'.Valid() && c'.pc.Idle?
    decreases |rets|, Full.Rank(c.pc)
  {
    if c.pc.Idle? then c
    else if rets == [] then Handle(Step(c, Again), [])
    else Handle(Step(c, rets[0]), rets[1..])
  }

  function Next(c: Conn, e: Full.Move): (c': Conn)
    requires c.Valid()
    ensures c'.Valid()
  {
    match e
    case Arrive(data) => c.(sk := c.sk.Deliver(data))
    case Event(out, in_) => c.Begin(out && c.interest.InOut?, in_)
    case Call(r) => Step(c, r)
  }

  function Run(c: Conn, moves: seq<Full.Move>): (c': Conn)
    requires c.Valid()
    ensures c'.Valid()
    decreases |moves|
  {
    if moves == [] then c else Run(Next(c, moves[0]), moves[1..])
  }

  // ---------------------------------------------------------------- simulation

  /** The lean connection looks like the static-table one: same streams, same registration,
      same place in the handler, same counters, and the same bytes still to write, with
      nothing allocated exactly when there are none. */
  ghost predicate Simulates(l: Conn, s: Full.Conn)
    requires l.Valid() && s.Valid()
  {
    && l.sk == s.sk && l.interest == s.interest && l.pc == s.pc
    && l.events == s.events && l.requests == s.requests
    && (l.pw.Some? <==> s.Held())
    && (l.pw.Some? ==> l.pw.value.buf[l.pw.value.offset..] == s.Pending())
  }

  /** Two buffers that hold the same remainder at different places: k bytes of it, and the rest. */
  lemma SameRemainder(buf: Bytes, offset: nat, wbuf: Bytes, woffset: nat, wlen: nat, k: nat)
    requires offset <= |buf| && woffset <= wlen <= |wbuf| && buf[offset..] == wbuf[woffset..wlen]
    requires k <= wlen - woffset
    ensures |buf| - offset == wlen - woffset
    ensures buf[offset..offset + k] == wbuf[woffset..woffset + k]
    ensures buf[offset + k..] == wbuf[woffset + k..wlen]
  {
    assert |buf[offset..]| == |wbuf[woffset..wlen]|;
    assert buf[offset..offset + k] == buf[offset..][..k] && wbuf[woffset..woffset + k] == wbuf[woffset..wlen][..k];
    assert buf[offset + k..] == buf[offset..][k..] && wbuf[woffset + k..wlen] == wbuf[woffset..wlen][k..];
  }

  lemma FlushSimulates(l: Conn, s: Full.Conn, r: Ret)
    requires l.Valid() && s.Valid() && Simulates(l, s) && l.pc.Flushing?
    ensures Simulates(StepFlush(l, r), Full.StepFlush(s, r))
  {
    if r.N? {
      var p := l.pw.value;
      var k := Min(r.n, p.len - p.offset);
      SameRemainder(p.buf, p.offset, s.wbuf, s.woffset, s.wlen, k);
    }
  }

  lemma EchoSimulates(l: Conn, s: Full.Conn, r: Ret)
    requires l.Valid() && s.Valid() && Simulates(l, s) && l.pc.Echoing?
    ensures Simulates(StepEcho(l, r), Full.StepEcho(Full.Level, s, r))
  {
    var l', s' := StepEcho(l, r), Full.StepEcho(Full.Level, s, r);
    if !r.Err? {
      var n := Full.EchoCount(s, r);
      var rest := s.pc.data[n..];
      if n < |s.pc.data| {
        assert l'.pw.value.buf[0..] == rest;
        assert s'.Pending() == rest;
      } else {
        assert s'.Pending() == s.Pending();
      }
    }
  }

  lemma NextSimulates(l: Conn, s: Full.Conn, e: Full.Move)
    requires l.Valid() && s.Valid() && Simulates(l, s) && Full.MaskAgrees(s)
    ensures Simulates(Next(l, e), Full.Next(Full.Level, s, e))
  {
    match e
    case Arrive(_) =>
    case Event(_, _) =>
    case Call(r) =>
      match l.pc {
        case Idle =>
        case Flushing(_) => FlushSimulates(l, s, r);
        case Reading =>
        case Echoing(_) => EchoSimulates(l, s, r);
      }
  }

  /** For every sequence of arrivals, events and answers, including reads that overwrite a
      remainder, the lean server does exactly what the static-table server does. */
  lemma {:induction false} RunSimulates(l: Conn, s: Full.Conn, moves: seq<Full.Move>)
    requires l.Valid() && s.Valid() && Simulates(l, s) && Full.MaskAgrees(s)
    ensures Simulates(Run(l, moves), Full.Run(Full.Level, s, moves))
    decreases |moves|
  {
    if moves != [] {
      NextSimulates(l, s, moves[0]);
      Full.NextMaskAgrees(Full.Level, s, moves[0]);
      RunSimulates(Next(l, moves[0]), Full.Next(Full.Level, s, moves[0]), moves[1..]);
    }
  }

  /** The same of a whole handler. */
  lemma {:induction false} HandleSimulates(l: Conn, s: Full.Conn, rets: seq<Ret>)
    requires l.Valid() && s.Valid() && Simulates(l, s) && Full.MaskAgrees(s)
    ensures Simulates(Handle(l, rets), Full.Handle(Full.Level, s, rets))
    decreases |rets|, Full.Rank(l.pc)
  {
    if !l.pc.Idle? {
      var r, rest := if rets == [] then Again else rets[0], if rets == [] then [] else rets[1..];
      NextSimulates(l, s, Full.Call(r));
      Full.NextMaskAgrees(Full.Level, s, Full.Call(r));
      HandleSimulates(Step(l, r), Full.Step(Full.Level, s, r), rest);
    }
  }

  ghost predicate NeverFails(c: Conn, moves: seq<Full.Move>)
    requires c.Valid()
    decreases |moves|
  {
    moves != [] ==>
      && !(moves[0].Call? && Full.Fatal(c.pc, c.sk.rq, moves[0].r))
      && NeverFails(Next(c, moves[0]), moves[1..])
  }

  /** In every run a connection is open at the end if and only if it was open and none of its calls
      failed: no error, and no read that moves nothing without EAGAIN. */
  lemma {:induction false} RunOpenIff(c: Conn, moves: seq<Full.Move>)
    requires c.Valid()
    ensures Run(c, moves).sk.open <==> c.sk.open && NeverFails(c, moves)
    decreases |moves|
  {
    if moves != [] {
      NextOpenIff(c, moves[0]);
      RunOpenIff(Next(c, moves[0]), moves[1..]);
    }
  }

  lemma NextOpenIff(c: Conn, e: Full.Move)
    requires c.Valid()
    ensures Next(c, e).sk.open <==> c.sk.open && !(e.Call? && Full.Fatal(c.pc, c.sk.rq, e.r))
  {
  }

  /** From acceptance on, in particular. */
  lemma Indistinguishable(moves: seq<Full.Move>)
    ensures Simulates(Run(Accepted(), moves), Full.Run(Full.Level, Full.Accepted(), moves))
  {
    RunSimulates(Accepted(), Full.Accepted(), moves);
  }

  /** The two differ in the source on one input only: a write event for an idle connection that
      holds no remainder, which the table server counts as a completed request. The kernel
      never reports it, since EPOLLOUT is then not registered. */
  lemma DifferOnlyOnSpuriousOut(l: Conn, s: Full.Conn, out: bool, in_: bool)
    requires l.Valid() && s.Valid() && Simulates(l, s)
    ensures Simulates(l.Begin(out, in_), s.Begin(out, in_)) <==>
            !(out && s.sk.open && s.pc.Idle? && !s.Held())
  {
  }

  // ---------------------------------------------------------------- allocations

  /** A write stops short while a remainder is held: its pointer is replaced by that to another. */
  predicate Overwrites(c: Conn, e: Full.Move)
    requires c.Valid()
  {
    && e.Call? && c.pc.Echoing? && c.pw.Some? && !e.r.Err?
    && (e.r.N? ==> e.r.n < |c.pc.data|)
  }

  function Overwritten(c: Conn, moves: seq<Full.Move>): nat
    requires c.Valid()
    decreases |moves|
  {
    if moves == [] then 0 else One(Overwrites(c, moves[0])) + Overwritten(Next(c, moves[0]), moves[1..])
  }

  /** The allocations that were made and not freed again. */
  function Outstanding(c: Conn): int {
    c.mallocs - c.frees
  }

  lemma OneCounted(c: Conn, e: Full.Move)
    requires c.Valid()
    ensures Outstanding(Next(c, e)) - Outstanding(c) == Held(Next(c, e)) - Held(c) + One(Overwrites(c, e))
  {
  }

  /** Over every run: allocations made and not freed are the remainder that the table points to and
      those whose pointer was overwritten. */
  lemma {:induction false} AllocationsCounted(c: Conn, moves: seq<Full.Move>)
    requires c.Valid()
    ensures var d := Run(c, moves);
      Outstanding(d) - Outstanding(c) == Held(d) - Held(c) + Overwritten(c, moves)
    decreases |moves|
  {
    if moves != [] {
      OneCounted(c, moves[0]);
      AllocationsCounted(Next(c, moves[0]), moves[1..]);
    }
  }

  /** From acceptance: nothing has leaked if and only if no remainder was overwritten. */
  lemma NothingLeaksIff(moves: seq<Full.Move>)
    ensures var d := Run(Accepted(), moves); Outstanding(d) == Held(d) <==> Overwritten(Accepted(), moves) == 0
  {
    AllocationsCounted(Accepted(), moves);
  }

  /** Two bytes, read one at a time while there is no room to write them: one remainder leaks. */
  lemma CanLeak(b: byte)
    ensures var again := [Full.Event(false, true), Full.Call(N(1)), Full.Call(Again)];
      var d := Run(Accepted(), [Full.Arrive([b, b])] + (again + again));
      d.mallocs == 2 && d.frees == 0 && Held(d) == 1
  {
    var again := [Full.Event(false, true), Full.Call(N(1)), Full.Call(Again)];
    var c := Next(Accepted(), Full.Arrive([b, b]));
    assert c.sk.rq == [b, b];
    ReadNoRoom(c, again);
    var d := Next(Next(Next(c, again[0]), again[1]), again[2]);
    ReadNoRoom(d, []);
    var e := Next(Next(Next(d, again[0]), again[1]), again[2]);
    assert Run(e, []) == e && again + [] == again;
    var all := [Full.Arrive([b, b])] + (again + again);
    assert all[0] == Full.Arrive([b, b]) && all[1..] == again + again;
  }

  /** An event whose read takes one byte and whose write finds no room. */
  lemma ReadNoRoom(c: Conn, rest: seq<Full.Move>)
    requires c.Valid() && c.sk.open && c.pc.Idle? && c.sk.rq != []
    ensures var again := [Full.Event(false, true), Full.Call(N(1)), Full.Call(Again)];
      var d := Next(Next(Next(c, again[0]), again[1]), again[2]);
      && d.sk.open && d.pc.Idle? && d.pw.Some? && d.sk.rq == c.sk.rq[1..]
      && d.mallocs == c.mallocs + 1 && d.frees == c.frees
      && Run(c, again + rest) == Run(d, rest)
  {
    var again := [Full.Event(false, true), Full.Call(N(1)), Full.Call(Again)];
    var c1 := Next(c, again[0]);
    var c2 := Next(c1, again[1]);
    assert c2.pc == Full.Echoing(c.sk.rq[..1]);
    var d := Next(c2, again[2]);
    var s := again + rest;
    assert s[1..] == again[1..] + rest && s[1..][1..] == again[2..] + rest && s[1..][1..][1..] == rest;
    assert Run(c2, s[1..][1..]) == Run(d, rest);
    assert Run(c1, s[1..]) == Run(c2, s[1..][1..]);
  }
}
