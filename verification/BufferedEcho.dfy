/** The echo handler of epoll_lt_server.c and epoll_et_server.c: a write that stops short
    leaves its remainder in a per-connection buffer, and EPOLLOUT is registered until the
    remainder is out.

    Step is one system call. The two servers differ in one place: after a read that filled
    the whole buffer, the edge-triggered one reads again. */
module BufferedEcho {
  import opened Kernel

  datatype Mode = Level | Edge

  datatype Interest = In | InOut

  type WBuf = s: Bytes | |s| == BUF_SIZE witness seq(BUF_SIZE, _ => 0)

  /** Where the handler stands: outside, before a write of the remainder, before a read, or
      before the write of what was just read. */
  datatype Pc = Idle | Flushing(thenRead: bool) | Reading | Echoing(data: Bytes)

  /** One connection: the kernel's side, the remainder wbuf[woffset..wlen], the registered
      interest, and its share of the STATS counters. */
  datatype Conn = Conn(sk: Sock, wbuf: WBuf, wlen: nat, woffset: nat, interest: Interest,
                       pc: Pc, events: nat, requests: nat)
  {
    predicate Valid() {
      && woffset <= wlen <= BUF_SIZE
      && (pc.Flushing? ==> woffset < wlen)
      && (pc.Echoing? ==> 0 < |pc.data| <= BUF_SIZE)
      && (!sk.open ==> wlen == 0 && pc.Idle?)
    }

    function Pending(): (p: Bytes)
      requires Valid()
      ensures |p| == wlen - woffset
    {
      wbuf[woffset..wlen]
    }

    predicate Held() {
      woffset < wlen
    }

    /** Read from the socket and not yet handed to a write. */
    function InHand(): Bytes {
      if pc.Echoing? then pc.data else []
    }

    function EnterRead(wanted: bool): Conn {
      this.(pc := if wanted then Reading else Idle)
    }

    /** The remainder is out: watch for input only. */
    function Drained(): Conn {
      this.(wlen := 0, woffset := 0, interest := In, requests := requests + 1)
    }

    function Close(): Conn {
      this.(sk := sk.Closed(), wlen := 0, woffset := 0, pc := Idle)
    }

    /** An event reported for an open connection whose handler is not running. */
    function Begin(out: bool, in_: bool): Conn {
      if !sk.open || !pc.Idle? then this
      else if !out then EnterRead(in_)
      else if woffset < wlen then this.(pc := Flushing(in_))
      else Drained().EnterRead(in_)
    }
  }

  function Accepted(): Conn {
    Conn(Fresh(), seq(BUF_SIZE, _ => 0), 0, 0, In, Idle, 0, 0)
  }

  /** An entry of the static table that no connection has used yet. */
  function Unused(): Conn {
    Accepted().(sk := Fresh().Closed())
  }

  /** The entry of a descriptor that has just been accepted: nothing pending, watched for input.
      The bytes of the buffer and the counters are what they were. */
  function Reused(c: Conn): Conn {
    c.(sk := Fresh(), wlen := 0, woffset := 0, interest := In, pc := Idle)
  }

  /** memcpy into the front of the buffer. */
  function Buffered(wbuf: WBuf, rest: Bytes): (w: WBuf)
    requires |rest| <= BUF_SIZE
    ensures w[..|rest|] == rest
  {
    rest + wbuf[|rest|..]
  }

  function StepFlush(c: Conn, r: Ret): (c': Conn)
    requires c.Valid() && c.pc.Flushing?
    ensures c'.Valid() && c.sk.out <= c'.sk.out
  {
    match r
    case Again => c.EnterRead(c.pc.thenRead)
    case Err => c.Close()
    case N(n) =>
      var k := Min(n, c.wlen - c.woffset);
      var d := c.(sk := c.sk.AfterWrite(c.wbuf[c.woffset..c.woffset + k]), woffset := c.woffset + k);
      if d.woffset < d.wlen then d else d.Drained().EnterRead(c.pc.thenRead)
  }

  function StepRead(c: Conn, r: Ret): (c': Conn)
    requires c.Valid() && c.pc.Reading?
    ensures c'.Valid() && c'.sk.out == c.sk.out
  {
    match r
    case Again => c.(pc := Idle)
    case Err => c.Close()
    case N(n) =>
      var k := c.sk.ReadCount(BUF_SIZE, n);
      if k == 0 then c.Close()
      else c.(sk := c.sk.AfterRead(k), pc := Echoing(c.sk.rq[..k]), events := c.events + 1)
  }

  /** How much of the data in hand the write takes; EAGAIN counts as nothing. */
  function EchoCount(c: Conn, r: Ret): (n: nat)
    requires c.pc.Echoing?
    ensures n <= |c.pc.data|
  {
    if r.N? then Min(r.n, |c.pc.data|) else 0
  }

  function AfterEcho(m: Mode, size: nat): Pc {
    if m.Edge? && size == BUF_SIZE then Reading else Idle
  }

  function StepEcho(m: Mode, c: Conn, r: Ret): (c': Conn)
    requires c.Valid() && c.pc.Echoing?
    ensures c'.Valid() && c.sk.out <= c'.sk.out
  {
    if r.Err? then c.Close()
    else
      var data := c.pc.data;
      var n := EchoCount(c, r);
      var d := c.(sk := c.sk.AfterWrite(data[..n]), pc := AfterEcho(m, |data|));
      if n < |data| then
        d.(wbuf := Buffered(c.wbuf, data[n..]), wlen := |data| - n, woffset := 0, interest := InOut)
      else d.(requests := c.requests + 1)
  }

  /** One system call of the handler, answered by r. */
  function Step(m: Mode, c: Conn, r: Ret): (c': Conn)
    requires c.Valid()
    ensures c'.Valid() && c.sk.out <= c'.sk.out
  {
    match c.pc
    case Idle => c
    case Flushing(_) => StepFlush(c, r)
    case Reading => StepRead(c, r)
    case Echoing(_) => StepEcho(m, c, r)
  }

  /** The calls that a connection does not survive: any error, and a read that moves nothing. EAGAIN is
      never one of them. */
  predicate Fatal(pc: Pc, queue: Bytes, r: Ret) {
    match pc
    case Idle => false
    case Flushing(_) => r.Err?
    case Reading => r.Err? || (r.N? && (r.n == 0 || queue == []))
    case Echoing(_) => r.Err?
  }

  lemma StepOpenIff(m: Mode, c: Conn, r: Ret)
    requires c.Valid()
    ensures Step(m, c, r).sk.open <==> c.sk.open && !Fatal(c.pc, c.sk.rq, r)
  {
  }

  function Rank(pc: Pc): nat {
    match pc
    case Idle => 0
    case Reading => 1
    case Echoing(_) => 2
    case Flushing(_) => 3
  }

  /** A whole handler: when the answers run out, every further call reports EAGAIN. */
  function Handle(m: Mode, c: Conn, rets: seq<Ret>): (c': Conn)
    requires c.Valid()
    ensures c'.Valid() && c'.pc.Idle?
    decreases |rets|, Rank(c.pc)
  {
    if c.pc.Idle? then c
    else if rets == [] then Handle(m, Step(m, c, Again), [])
    else Handle(m, Step(m, c, rets[0]), rets[1..])
  }

  // ---------------------------------------------------------------- runs

  /** What happens to a connection: bytes arrive, an event is delivered, or the handler's
      next call is answered. The kernel reports EPOLLOUT only where it is registered. */
  datatype Move = Arrive(data: Bytes) | Event(out: bool, in_: bool) | Call(r: Ret)

  function Next(m: Mode, c: Conn, e: Move): (c': Conn)
    requires c.Valid()
    ensures c'.Valid()
  {
    match e
    case Arrive(data) => c.(sk := c.sk.Deliver(data))
    case Event(out, in_) => c.Begin(out && c.interest.InOut?, in_)
    case Call(r) => Step(m, c, r)
  }

  function Run(m: Mode, c: Conn, moves: seq<Move>): (c': Conn)
    requires c.Valid()
    ensures c'.Valid()
    decreases |moves|
  {
    if moves == [] then c else Run(m, Next(m, c, moves[0]), moves[1..])
  }

  /** The calls that a handler makes, with their answers. */
  function CallsOf(m: Mode, c: Conn, rets: seq<Ret>): (calls: seq<Move>)
    requires c.Valid()
    decreases |rets|, Rank(c.pc)
  {
    if c.pc.Idle? then []
    else if rets == [] then [Call(Again)] + CallsOf(m, Step(m, c, Again), [])
    else [Call(rets[0])] + CallsOf(m, Step(m, c, rets[0]), rets[1..])
  }

  /** A whole handler is a part of a run. */
  lemma {:induction false} HandleIsRun(m: Mode, c: Conn, rets: seq<Ret>)
    requires c.Valid()
    ensures Run(m, c, CallsOf(m, c, rets)) == Handle(m, c, rets)
    decreases |rets|, Rank(c.pc)
  {
    if !c.pc.Idle? {
      var r, rest := if rets == [] then Again else rets[0], if rets == [] then [] else rets[1..];
      assert ([Call(r)] + CallsOf(m, Step(m, c, r), rest))[1..] == CallsOf(m, Step(m, c, r), rest);
      HandleIsRun(m, Step(m, c, r), rest);
    }
  }

  predicate Fails(c: Conn, e: Move) {
    e.Call? && Fatal(c.pc, c.sk.rq, e.r)
  }

  ghost predicate NeverFails(m: Mode, c: Conn, moves: seq<Move>)
    requires c.Valid()
    decreases |moves|
  {
    moves != [] ==> !Fails(c, moves[0]) && NeverFails(m, Next(m, c, moves[0]), moves[1..])
  }

  /** In every run of either server a connection is open at the end if and only if it was open and none
      of its calls failed. */
  lemma {:induction false} RunOpenIff(m: Mode, c: Conn, moves: seq<Move>)
    requires c.Valid()
    ensures Run(m, c, moves).sk.open <==> c.sk.open && NeverFails(m, c, moves)
    decreases |moves|
  {
    if moves != [] {
      if moves[0].Call? {
        StepOpenIff(m, c, moves[0].r);
      }
      RunOpenIff(m, Next(m, c, moves[0]), moves[1..]);
    }
  }

  // ---------------------------------------------------------------- how often a handler reads

  function ReadSize(c: Conn, r: Ret): nat {
    if r.N? then c.sk.ReadCount(BUF_SIZE, r.n) else 0
  }

  /** What each read of a handler moved. */
  function ReadSizes(m: Mode, c: Conn, rets: seq<Ret>): (sizes: seq<nat>)
    requires c.Valid()
    decreases |rets|, Rank(c.pc)
  {
    if c.pc.Idle? then []
    else
      var r, rest := if rets == [] then Again else rets[0], if rets == [] then [] else rets[1..];
      (if c.pc.Reading? then [ReadSize(c, r)] else []) + ReadSizes(m, Step(m, c, r), rest)
  }

  /** The reads that may follow one that moved so many bytes. */
  predicate MayReadOn(m: Mode, size: nat) {
    m.Edge? && size == BUF_SIZE
  }

  ghost predicate ReadsStop(m: Mode, sizes: seq<nat>) {
    forall k | 0 <= k < |sizes| - 1 :: MayReadOn(m, sizes[k])
  }

  /** A handler that is going to read does read, unless it fails first; it reads on after a full buffer
      in edge-triggered mode, unless its write fails, and never otherwise. */
  ghost predicate ReadsAsMode(m: Mode, c: Conn, sizes: seq<nat>, open: bool) {
    && ReadsStop(m, sizes)
    && (sizes != [] && open ==> !MayReadOn(m, sizes[|sizes| - 1]))
    && match c.pc
       case Idle => sizes == [] && open == c.sk.open
       case Reading => sizes != []
       case Flushing(thenRead) => if thenRead then open ==> sizes != [] else sizes == []
       case Echoing(data) => if MayReadOn(m, |data|) then open ==> sizes != [] else sizes == []
  }

  lemma FlushReads(m: Mode, c: Conn, r: Ret, sizes: seq<nat>, open: bool)
    requires c.Valid() && c.pc.Flushing? && ReadsAsMode(m, StepFlush(c, r), sizes, open)
    ensures ReadsAsMode(m, c, sizes, open)
  {
  }

  lemma EchoReads(m: Mode, c: Conn, r: Ret, sizes: seq<nat>, open: bool)
    requires c.Valid() && c.pc.Echoing? && ReadsAsMode(m, StepEcho(m, c, r), sizes, open)
    ensures ReadsAsMode(m, c, sizes, open)
  {
  }

  lemma ReadReads(m: Mode, c: Conn, r: Ret, sizes: seq<nat>, open: bool)
    requires c.Valid() && c.pc.Reading? && ReadsAsMode(m, StepRead(c, r), sizes, open)
    ensures ReadsAsMode(m, c, [ReadSize(c, r)] + sizes, open)
  {
    var all, d := [ReadSize(c, r)] + sizes, StepRead(c, r);
    assert all[1..] == sizes;
    if d.pc.Echoing? {
      assert |d.pc.data| == ReadSize(c, r);
    }
  }

  lemma {:induction false} HandlerReads(m: Mode, c: Conn, rets: seq<Ret>)
    requires c.Valid()
    ensures ReadsAsMode(m, c, ReadSizes(m, c, rets), Handle(m, c, rets).sk.open)
    decreases |rets|, Rank(c.pc)
  {
    if !c.pc.Idle? {
      var r, rest := if rets == [] then Again else rets[0], if rets == [] then [] else rets[1..];
      var d := Step(m, c, r);
      HandlerReads(m, d, rest);
      var sizes, open := ReadSizes(m, d, rest), Handle(m, d, rest).sk.open;
      match c.pc {
        case Flushing(_) => FlushReads(m, c, r, sizes, open);
        case Reading => ReadReads(m, c, r, sizes, open);
        case Echoing(_) => EchoReads(m, c, r, sizes, open);
      }
      assert [] + sizes == sizes;
    }
  }

  /** One event with input: exactly one read in level-triggered mode; in edge-triggered mode full
      buffers, and one read that is short of that, or a failed write. */
  lemma EventReads(m: Mode, c: Conn, out: bool, in_: bool, rets: seq<Ret>)
    requires c.Valid() && c.sk.open && c.pc.Idle?
    ensures var sizes, open := ReadSizes(m, c.Begin(out, in_), rets), Handle(m, c.Begin(out, in_), rets).sk.open;
      && ReadsStop(m, sizes) && (open ==> (sizes != [] <==> in_))
      && (m.Level? ==> |sizes| <= 1)
      && (m.Edge? && open && in_ ==> sizes[|sizes| - 1] < BUF_SIZE)
  {
    var b := c.Begin(out, in_);
    HandlerReads(m, b, rets);
    SizesBounded(m, b, rets);
    var sizes := ReadSizes(m, b, rets);
    assert |sizes| > 1 ==> MayReadOn(m, sizes[0]);
  }

  lemma {:induction false} SizesBounded(m: Mode, c: Conn, rets: seq<Ret>)
    requires c.Valid()
    ensures forall k | 0 <= k < |ReadSizes(m, c, rets)| :: ReadSizes(m, c, rets)[k] <= BUF_SIZE
    decreases |rets|, Rank(c.pc)
  {
    if !c.pc.Idle? {
      var r, rest := if rets == [] then Again else rets[0], if rets == [] then [] else rets[1..];
      SizesBounded(m, Step(m, c, r), rest);
    }
  }

  // ---------------------------------------------------------------- the registered interest

  /** EPOLLOUT is registered exactly while a remainder is pending. */
  ghost predicate MaskAgrees(c: Conn)
    requires c.Valid()
  {
    c.sk.open ==> (c.interest.InOut? <==> c.Held())
  }

  lemma NextMaskAgrees(m: Mode, c: Conn, e: Move)
    requires c.Valid() && MaskAgrees(c)
    ensures MaskAgrees(Next(m, c, e))
  {
  }

  lemma {:induction false} RunMaskAgrees(m: Mode, c: Conn, moves: seq<Move>)
    requires c.Valid() && MaskAgrees(c)
    ensures MaskAgrees(Run(m, c, moves))
    decreases |moves|
  {
    if moves != [] {
      NextMaskAgrees(m, c, moves[0]);
      RunMaskAgrees(m, Next(m, c, moves[0]), moves[1..]);
    }
  }

  // ---------------------------------------------------------------- exact echo

  /** Everything consumed is echoed, in order, or still held; a closed connection has echoed
      a prefix of what it consumed. */
  ghost predicate Echoes(c: Conn)
    requires c.Valid()
  {
    && (c.sk.open ==> c.sk.taken == c.sk.out + c.Pending() + c.InHand())
    && c.sk.out <= c.sk.taken
  }

  /** Every read of the run that moves bytes finds no pending remainder. */
  ghost predicate ReadsFindEmpty(m: Mode, c: Conn, moves: seq<Move>)
    requires c.Valid()
    decreases |moves|
  {
    moves != [] ==>
      && (c.pc.Reading? && Next(m, c, moves[0]).pc.Echoing? ==> c.Pending() == [])
      && ReadsFindEmpty(m, Next(m, c, moves[0]), moves[1..])
  }

  lemma StepFlushEchoes(c: Conn, r: Ret)
    requires c.Valid() && c.pc.Flushing? && Echoes(c)
    ensures Echoes(StepFlush(c, r))
  {
    if r.N? {
      var k := Min(r.n, c.wlen - c.woffset);
      var chunk := c.wbuf[c.woffset..c.woffset + k];
      assert c.Pending() == chunk + c.wbuf[c.woffset + k..c.wlen];
      assert c.sk.out + c.Pending() == (c.sk.out + chunk) + c.wbuf[c.woffset + k..c.wlen];
      assert StepFlush(c, r).Pending() == c.wbuf[c.woffset + k..c.wlen];
    }
  }

  lemma StepReadEchoes(c: Conn, r: Ret)
    requires c.Valid() && c.pc.Reading? && Echoes(c)
    ensures Echoes(StepRead(c, r))
  {
    var c' := StepRead(c, r);
    if c'.pc.Echoing? {
      assert c'.sk.taken == c.sk.taken + c'.InHand();
      assert c'.Pending() == c.Pending();
    }
  }

  /** The write that follows a read keeps the echo exact in exactly these cases: a write that
      stops short requires that no remainder was pending, since it overwrites it; a complete
      write overtakes the remainder, which is harmless only if the two commute. */
  lemma EchoKeptIff(m: Mode, c: Conn, r: Ret)
    requires c.Valid() && c.pc.Echoing? && Echoes(c) && c.sk.open && !r.Err?
    ensures EchoCount(c, r) < |c.pc.data| ==>
              (Echoes(StepEcho(m, c, r)) <==> c.Pending() == [])
    ensures EchoCount(c, r) == |c.pc.data| ==>
              (Echoes(StepEcho(m, c, r)) <==> c.Pending() + c.pc.data == c.pc.data + c.Pending())
  {
    if EchoCount(c, r) < |c.pc.data| {
      ShortWriteKeptIff(m, c, r);
    } else {
      CompleteWriteKeptIff(m, c, r);
    }
  }

  lemma ShortWriteKeptIff(m: Mode, c: Conn, r: Ret)
    requires c.Valid() && c.pc.Echoing? && Echoes(c) && c.sk.open && !r.Err?
    requires EchoCount(c, r) < |c.pc.data|
    ensures Echoes(StepEcho(m, c, r)) <==> c.Pending() == []
  {
    var c', data, held := StepEcho(m, c, r), c.pc.data, c.Pending();
    ShortWriteOwes(m, c, r);
    assert |c.sk.taken| == |c.sk.out| + |held| + |data|;
    if held == [] {
      assert c.sk.taken == c.sk.out + data;
    }
  }

  /** After a write that stops short what was read last is written or held. */
  lemma ShortWriteOwes(m: Mode, c: Conn, r: Ret)
    requires c.Valid() && c.pc.Echoing? && c.sk.open && !r.Err? && EchoCount(c, r) < |c.pc.data|
    ensures var c' := StepEcho(m, c, r);
      && c'.sk.out + c'.Pending() + c'.InHand() == c.sk.out + c.pc.data
      && c'.sk.out <= c.sk.out + c.pc.data && c'.sk.taken == c.sk.taken && c'.sk.open
  {
    var data, n, c' := c.pc.data, EchoCount(c, r), StepEcho(m, c, r);
    assert data == data[..n] + data[n..];
    assert c'.Pending() == data[n..];
    assert (c.sk.out + data[..n]) + data[n..] == c.sk.out + data;
  }

  lemma CompleteWriteKeptIff(m: Mode, c: Conn, r: Ret)
    requires c.Valid() && c.pc.Echoing? && Echoes(c) && c.sk.open && !r.Err?
    requires EchoCount(c, r) == |c.pc.data|
    ensures Echoes(StepEcho(m, c, r)) <==> c.Pending() + c.pc.data == c.pc.data + c.Pending()
  {
    var data, c' := c.pc.data, StepEcho(m, c, r);
    assert data[..|data|] == data;
    assert c'.Pending() == c.Pending() && c'.InHand() == [];
    assert c.sk.taken == c.sk.out + (c.Pending() + data);
    assert c'.sk.out + c'.Pending() == c.sk.out + (data + c.Pending());
    assert c'.sk.out == c.sk.out + data;
    if Echoes(c') {
      assert c.sk.out + (c.Pending() + data) == c.sk.out + (data + c.Pending());
      assert (c.sk.out + (c.Pending() + data))[|c.sk.out|..] == c.Pending() + data;
      assert (c.sk.out + (data + c.Pending()))[|c.sk.out|..] == data + c.Pending();
    }
    if c.Pending() + data == data + c.Pending() {
      assert c.sk.taken == c'.sk.out + c.Pending();
    }
  }

  /** A handler between its read and its write holds the echo invariant and, under the
      hypothesis below, nothing pending. */
  ghost predicate EchoInv(c: Conn)
    requires c.Valid()
  {
    Echoes(c) && (c.pc.Echoing? ==> c.Pending() == [])
  }

  lemma NextEchoInv(m: Mode, c: Conn, e: Move)
    requires c.Valid() && EchoInv(c)
    requires c.pc.Reading? && Next(m, c, e).pc.Echoing? ==> c.Pending() == []
    ensures EchoInv(Next(m, c, e))
  {
    match e
    case Arrive(_) =>
    case Event(_, _) =>
    case Call(r) =>
      match c.pc {
        case Idle =>
        case Flushing(_) => StepFlushEchoes(c, r);
        case Reading => StepReadEchoes(c, r);
        case Echoing(data) =>
          if r.Err? {
            assert c.sk.out <= c.sk.taken;
          } else {
            assert [] + data == data + [];
            EchoKeptIff(m, c, r);
          }
      }
  }

  /** If every read finds the remainder gone, every run echoes exactly, in both modes. */
  lemma {:induction false} RunEchoes(m: Mode, c: Conn, moves: seq<Move>)
    requires c.Valid() && EchoInv(c) && ReadsFindEmpty(m, c, moves)
    ensures EchoInv(Run(m, c, moves))
    decreases |moves|
  {
    if moves != [] {
      NextEchoInv(m, c, moves[0]);
      RunEchoes(m, Next(m, c, moves[0]), moves[1..]);
    }
  }

  /** A move that does not disturb the echo: a write after a read that stops short finds no
      remainder to overwrite, and a complete one commutes with the remainder it overtakes. */
  predicate Harmless(c: Conn, e: Move)
    requires c.Valid()
  {
    e.Call? && c.pc.Echoing? && !e.r.Err? ==>
      if EchoCount(c, e.r) < |c.pc.data| then c.Pending() == []
      else c.Pending() + c.pc.data == c.pc.data + c.Pending()
  }

  ghost predicate AllHarmless(m: Mode, c: Conn, moves: seq<Move>)
    requires c.Valid()
    decreases |moves|
  {
    moves != [] ==> Harmless(c, moves[0]) && AllHarmless(m, Next(m, c, moves[0]), moves[1..])
  }

  /** The echo is exact at every step of the run. */
  ghost predicate EchoesThroughout(m: Mode, c: Conn, moves: seq<Move>)
    requires c.Valid()
    decreases |moves|
  {
    Echoes(c) && (moves != [] ==> EchoesThroughout(m, Next(m, c, moves[0]), moves[1..]))
  }

  lemma NextEchoesIff(m: Mode, c: Conn, e: Move)
    requires c.Valid() && Echoes(c)
    ensures Echoes(Next(m, c, e)) <==> Harmless(c, e)
  {
    if e.Call? {
      match c.pc {
        case Idle =>
        case Flushing(_) => StepFlushEchoes(c, e.r);
        case Reading => StepReadEchoes(c, e.r);
        case Echoing(_) =>
          if !e.r.Err? {
            EchoKeptIff(m, c, e.r);
          }
      }
    }
  }

  /** Over whole runs, in both modes: the echo is exact at every step if and only if every write
      that follows a read is harmless. */
  lemma {:induction false} RunEchoesIff(m: Mode, c: Conn, moves: seq<Move>)
    requires c.Valid() && Echoes(c)
    ensures EchoesThroughout(m, c, moves) <==> AllHarmless(m, c, moves)
    decreases |moves|
  {
    if moves != [] {
      NextEchoesIff(m, c, moves[0]);
      if Harmless(c, moves[0]) {
        RunEchoesIff(m, Next(m, c, moves[0]), moves[1..]);
      }
    }
  }

  lemma {:induction false} EchoesEnd(m: Mode, c: Conn, moves: seq<Move>)
    requires c.Valid() && EchoesThroughout(m, c, moves)
    ensures Echoes(Run(m, c, moves))
    decreases |moves|
  {
    if moves != [] {
      EchoesEnd(m, Next(m, c, moves[0]), moves[1..]);
    }
  }

  /** Reads that find no remainder are followed by harmless writes. */
  lemma {:induction false} EmptyIsHarmless(m: Mode, c: Conn, moves: seq<Move>)
    requires c.Valid() && EchoInv(c) && ReadsFindEmpty(m, c, moves)
    ensures AllHarmless(m, c, moves)
    decreases |moves|
  {
    if moves != [] {
      if c.pc.Echoing? {
        assert [] + c.pc.data == c.pc.data + [];
      }
      NextEchoInv(m, c, moves[0]);
      EmptyIsHarmless(m, Next(m, c, moves[0]), moves[1..]);
    }
  }

  // ---------------------------------------------------------------- accounting

  /** Requests that will never be counted: their remainder was overwritten by a later one, was
      thrown away by a close, or their first write failed. */
  datatype Lost = Lost(overwritten: nat, discarded: nat, fatal: nat) {
    function Plus(that: Lost): Lost {
      Lost(overwritten + that.overwritten, discarded + that.discarded, fatal + that.fatal)
    }
  }

  /** What one move loses. */
  function Loss(m: Mode, c: Conn, e: Move): Lost
    requires c.Valid()
  {
    var held := c.Held();
    var failed := Fails(c, e);
    var short := e.Call? && c.pc.Echoing? && !e.r.Err? && EchoCount(c, e.r) < |c.pc.data|;
    Lost(One(held && short), One(held && failed), One(c.pc.Echoing? && failed))
  }

  function Losses(m: Mode, c: Conn, moves: seq<Move>): Lost
    requires c.Valid()
    decreases |moves|
  {
    if moves == [] then Lost(0, 0, 0)
    else Loss(m, c, moves[0]).Plus(Losses(m, Next(m, c, moves[0]), moves[1..]))
  }

  /** A connection's counted reads that are neither counted as requests nor lost yet. */
  function Owed(c: Conn): int
    requires c.Valid()
  {
    One(c.Held()) + One(c.pc.Echoing?)
  }

  ghost predicate Accounted(c: Conn, c': Conn, lost: Lost)
    requires c.Valid() && c'.Valid()
  {
    c'.events - c.events == (c'.requests - c.requests) + (Owed(c') - Owed(c))
      + lost.overwritten + lost.discarded + lost.fatal
  }

  lemma EchoAccounts(m: Mode, c: Conn, r: Ret)
    requires c.Valid() && MaskAgrees(c) && c.pc.Echoing?
    ensures Accounted(c, Next(m, c, Call(r)), Loss(m, c, Call(r)))
  {
  }

  lemma FlushAccounts(m: Mode, c: Conn, r: Ret)
    requires c.Valid() && MaskAgrees(c) && c.pc.Flushing?
    ensures Accounted(c, Next(m, c, Call(r)), Loss(m, c, Call(r)))
  {
  }

  lemma NextAccounts(m: Mode, c: Conn, e: Move)
    requires c.Valid() && MaskAgrees(c)
    ensures Accounted(c, Next(m, c, e), Loss(m, c, e))
  {
    if e.Call? && c.pc.Flushing? {
      FlushAccounts(m, c, e.r);
    } else if e.Call? && c.pc.Echoing? {
      EchoAccounts(m, c, e.r);
    }
  }

  /** The STATS identity of both servers: reads = requests + reads still owed + reads lost. */
  lemma {:induction false} RunAccounts(m: Mode, c: Conn, moves: seq<Move>)
    requires c.Valid() && MaskAgrees(c)
    ensures Accounted(c, Run(m, c, moves), Losses(m, c, moves))
    decreases |moves|
  {
    if moves != [] {
      var d := Next(m, c, moves[0]);
      NextAccounts(m, c, moves[0]);
      NextMaskAgrees(m, c, moves[0]);
      RunAccounts(m, d, moves[1..]);
      AccountsAdd(c, d, Run(m, d, moves[1..]), Loss(m, c, moves[0]), Losses(m, d, moves[1..]));
    }
  }

  /** A read that moves bytes. */
  predicate Moves(c: Conn, e: Move) {
    e.Call? && c.pc.Reading? && e.r.N? && e.r.n > 0 && c.sk.rq != []
  }

  function MovingReads(m: Mode, c: Conn, moves: seq<Move>): nat
    requires c.Valid()
    decreases |moves|
  {
    if moves == [] then 0 else One(Moves(c, moves[0])) + MovingReads(m, Next(m, c, moves[0]), moves[1..])
  }

  /** The counter of events counts those reads, which with RunAccounts settles that of requests. */
  lemma {:induction false} EventsCountReads(m: Mode, c: Conn, moves: seq<Move>)
    requires c.Valid()
    ensures Run(m, c, moves).events == c.events + MovingReads(m, c, moves)
    decreases |moves|
  {
    if moves != [] {
      OneEvent(m, c, moves[0]);
      EventsCountReads(m, Next(m, c, moves[0]), moves[1..]);
    }
  }

  lemma OneEvent(m: Mode, c: Conn, e: Move)
    requires c.Valid()
    ensures Next(m, c, e).events == c.events + One(Moves(c, e))
  {
  }

  lemma AccountsAdd(a: Conn, b: Conn, c: Conn, x: Lost, y: Lost)
    requires a.Valid() && b.Valid() && c.Valid()
    requires Accounted(a, b, x) && Accounted(b, c, y)
    ensures Accounted(a, c, x.Plus(y))
  {
  }
}
