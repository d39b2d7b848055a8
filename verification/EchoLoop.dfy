/** The blocking-style echo loop that server_poll.c, server_select.c and server_epoll.c
    share: read once, then write until everything is out, retrying on EAGAIN.

    Step is one system call of the handler, so that any other party may move between two
    calls. Serve runs a handler to its end. The three servers differ in what follows a
    completed write: poll and select return to the scan, the edge-triggered server reads
    again. */
module EchoLoop {
  import opened Kernel

  datatype Policy = OneRead | DrainAll

  datatype Pc = Idle | Reading | Writing(buf: Bytes, total: nat)

  datatype Conn = Conn(sk: Sock, pc: Pc) {

    /** The handler's local buffer is well formed: something remains to be written. */
    predicate Valid() {
      pc.Writing? ==> pc.total < |pc.buf| <= BUF_SIZE
    }

    /** What the handler has read and not yet written. */
    function Rest(): Bytes
      requires Valid()
    {
      if pc.Writing? then pc.buf[pc.total..] else []
    }

    /** An event for an open, idle connection starts the handler. */
    function Begin(): Conn {
      if sk.open && pc.Idle? then this.(pc := Reading) else this
    }

    function Close(): Conn {
      Conn(sk.Closed(), Idle)
    }
  }

  function Accepted(): Conn {
    Conn(Fresh(), Idle)
  }

  /** One system call of the handler, answered by r. */
  function Step(p: Policy, c: Conn, r: Ret): (c': Conn)
    requires c.Valid()
    ensures c'.Valid() && c.sk.out <= c'.sk.out
  {
    match c.pc
    case Idle => c
    case Reading => (
      match r
      case Again => c.(pc := Idle)
      case Err => c.Close()
      case N(n) =>
        var k := c.sk.ReadCount(BUF_SIZE, n);
        if k == 0 then c.Close() else Conn(c.sk.AfterRead(k), Writing(c.sk.rq[..k], 0))
    )
    case Writing(buf, total) => (
      match r
      case Again => c
      case Err => c.Close()
      case N(n) =>
        var k := Min(n, |buf| - total);
        var sk := c.sk.AfterWrite(buf[total..total + k]);
        if total + k < |buf| then Conn(sk, Writing(buf, total + k))
        else Conn(sk, if p.OneRead? then Idle else Reading)
    )
  }

  /** A whole handler: answers are taken in order, and when they run out the connection
      fails, so that every handler ends. */
  function Serve(p: Policy, c: Conn, rets: seq<Ret>): (c': Conn)
    requires c.Valid()
    ensures c'.Valid()
    decreases |rets|
  {
    if c.pc.Idle? then c
    else if rets == [] then Step(p, c, Err)
    else Serve(p, Step(p, c, rets[0]), rets[1..])
  }

  /** Exact echo: nothing is lost, duplicated or reordered while the connection is open,
      and a closed connection has echoed a prefix of what it read. */
  ghost predicate Echoes(c: Conn)
    requires c.Valid()
  {
    && (c.sk.open ==> c.sk.taken == c.sk.out + c.Rest())
    && c.sk.out <= c.sk.taken
    && (!c.sk.open ==> c.pc.Idle?)
  }

  lemma StepEchoes(p: Policy, c: Conn, r: Ret)
    requires c.Valid() && Echoes(c)
    ensures Echoes(Step(p, c, r))
  {
    var c' := Step(p, c, r);
    match c.pc
    case Idle =>
    case Reading =>
      if r.N? {
        var k := c.sk.ReadCount(BUF_SIZE, r.n);
        if k > 0 && c.sk.open {
          assert c'.Rest() == c.sk.rq[..k];
        }
      }
    case Writing(buf, total) =>
      if r.N? {
        var k := Min(r.n, |buf| - total);
        var written := buf[total..total + k];
        assert c.Rest() == written + buf[total + k..];
        assert c'.Rest() == buf[total + k..];
        if c.sk.open {
          assert c.sk.out + c.Rest() == c'.sk.out + c'.Rest();
        }
      }
  }

  // ---------------------------------------------------------------- what closes a connection

  /** The calls that a handler does not survive: any error, and a read that moves nothing. EAGAIN is
      never one of them. */
  predicate Fatal(pc: Pc, queue: Bytes, r: Ret) {
    match pc
    case Idle => false
    case Reading => r.Err? || (r.N? && (r.n == 0 || queue == []))
    case Writing(_, _) => r.Err?
  }

  lemma StepOpenIff(p: Policy, c: Conn, r: Ret)
    requires c.Valid() && c.sk.open
    ensures Step(p, c, r).sk.open <==> !Fatal(c.pc, c.sk.rq, r)
  {
  }

  /** Writing so many bytes fails: an error comes before they are out, or the answers end. */
  predicate WriteFails(left: nat, rets: seq<Ret>)
    decreases |rets|
  {
    left > 0 &&
      (rets == [] || rets[0].Err? ||
       WriteFails(if rets[0].N? then left - Min(rets[0].n, left) else left, rets[1..]))
  }

  /** The bytes that the first answer of a handler moves. */
  function FirstRead(queue: Bytes, rets: seq<Ret>): (data: Bytes)
    ensures data <= queue && |data| <= BUF_SIZE
  {
    if rets != [] && rets[0].N? then queue[..Min(rets[0].n, Min(BUF_SIZE, |queue|))] else []
  }

  /** The answers close the connection: the read fails or moves nothing without EAGAIN, or the write
      of what it moved fails. */
  predicate HandlerFails(queue: Bytes, rets: seq<Ret>) {
    rets == [] || rets[0].Err? ||
    (rets[0].N? && (FirstRead(queue, rets) == [] || WriteFails(|FirstRead(queue, rets)|, rets[1..])))
  }

  /** What one event does to a client of poll or select: one read, and all of it echoed, or a prefix of
      it where the connection is closed. */
  ghost predicate Outcome(c: Conn, rets: seq<Ret>, c': Conn) {
    var data := FirstRead(c.sk.rq, rets);
    && (c'.sk.open <==> !HandlerFails(c.sk.rq, rets))
    && c'.sk.taken == c.sk.taken + data && c'.sk.rq == c.sk.rq[|data|..]
    && c.sk.out <= c'.sk.out <= c.sk.out + data
    && (c'.sk.open ==> c'.sk.out == c.sk.out + data)
  }

  lemma ServeOutcome(c: Conn, rets: seq<Ret>)
    requires c.sk.open && c.pc.Idle?
    ensures Outcome(c, rets, Serve(OneRead, c.Begin(), rets))
  {
    var b, data := c.Begin(), FirstRead(c.sk.rq, rets);
    assert c.sk.taken + [] == c.sk.taken && c.sk.out + [] == c.sk.out;
    if rets != [] {
      var d := Step(OneRead, b, rets[0]);
      assert Serve(OneRead, b, rets) == Serve(OneRead, d, rets[1..]);
      if data != [] {
        WriteOutcome(d, rets[1..]);
        assert data[0..] == data;
      }
    }
  }

  lemma {:induction false} WriteOutcome(c: Conn, rets: seq<Ret>)
    requires c.Valid() && c.sk.open && c.pc.Writing?
    ensures var c', rest := Serve(OneRead, c, rets), c.pc.buf[c.pc.total..];
      && (c'.sk.open <==> !WriteFails(|rest|, rets))
      && c'.sk.taken == c.sk.taken && c'.sk.rq == c.sk.rq
      && c.sk.out <= c'.sk.out <= c.sk.out + rest
      && (c'.sk.open ==> c'.sk.out == c.sk.out + rest)
    decreases |rets|
  {
    if rets != [] && !rets[0].Err? {
      var d := Step(OneRead, c, rets[0]);
      OneWrite(c, rets[0]);
      if d.pc.Writing? {
        WriteOutcome(d, rets[1..]);
      }
    }
  }

  /** One write moves a part of what is left, and all of it ends the loop. */
  lemma OneWrite(c: Conn, r: Ret)
    requires c.Valid() && c.sk.open && c.pc.Writing? && !r.Err?
    ensures var d, rest := Step(OneRead, c, r), c.pc.buf[c.pc.total..];
      var k := if r.N? then Min(r.n, |rest|) else 0;
      && d.sk == c.sk.AfterWrite(rest[..k])
      && c.sk.out + rest == d.sk.out + rest[k..]
      && (if k < |rest| then d.pc.Writing? && d.pc.buf[d.pc.total..] == rest[k..] else d.pc.Idle? && rest[k..] == [])
  {
    var rest := c.pc.buf[c.pc.total..];
    var k := if r.N? then Min(r.n, |rest|) else 0;
    assert rest == rest[..k] + rest[k..];
    assert rest[..k] == c.pc.buf[c.pc.total..c.pc.total + k] && rest[k..] == c.pc.buf[c.pc.total + k..];
    assert c.sk.out + rest == (c.sk.out + rest[..k]) + rest[k..];
    assert c.sk.out + [] == c.sk.out;
  }

  /** A handler ends outside its loops. */
  lemma {:induction false} ServeIdle(c: Conn, rets: seq<Ret>)
    requires c.Valid()
    ensures Serve(OneRead, c, rets).pc.Idle?
    decreases |rets|
  {
    if !c.pc.Idle? && rets != [] {
      ServeIdle(Step(OneRead, c, rets[0]), rets[1..]);
    }
  }

  /** Connections, by descriptor. */
  type Net = map<int, Conn>

  ghost function OpenSet(net: Net): set<int> {
    set fd | fd in net && net[fd].sk.open
  }

  /** Every connection has echoed what it consumed, and no handler is in the middle of it. */
  ghost predicate AllEcho(net: Net) {
    forall fd | fd in net :: net[fd].Valid() && Echoes(net[fd]) && net[fd].pc.Idle?
  }

  /** The clients among those served whose answers close them. */
  ghost function Lost(served: seq<int>, net: Net, io: int -> seq<Ret>): set<int> {
    set fd | fd in served && fd in net && HandlerFails(net[fd].sk.rq, io(fd))
  }

  /** What became of the open connections: those served had their one read and its echo, the others are
      as they were. */
  ghost predicate ServedOnly(served: seq<int>, net: Net, io: int -> seq<Ret>, net': Net) {
    forall fd | fd in OpenSet(net) && fd in net' ::
      if fd in served then Outcome(net[fd], io(fd), net'[fd]) else net'[fd] == net[fd]
  }

  /** Bytes arrive on some connections. */
  function Arrive(net: Net, arrived: map<int, Bytes>): (r: Net)
    ensures r.Keys == net.Keys
    ensures forall fd | fd in net ::
              r[fd] == if fd in arrived then net[fd].(sk := net[fd].sk.Deliver(arrived[fd])) else net[fd]
  {
    map fd | fd in net :: if fd in arrived then net[fd].(sk := net[fd].sk.Deliver(arrived[fd])) else net[fd]
  }

  /** A client that is served leaves its connection echoing and idle. */
  lemma ServedEchoes(c: Conn, rets: seq<Ret>)
    requires c.Valid() && Echoes(c) && c.pc.Idle?
    ensures Echoes(Serve(OneRead, c.Begin(), rets)) && Serve(OneRead, c.Begin(), rets).pc.Idle?
  {
    ServeEchoes(OneRead, c.Begin(), rets);
  }

  /** Whatever the kernel answers, a handler leaves the connection echoing exactly. */
  lemma {:induction false} ServeEchoes(p: Policy, c: Conn, rets: seq<Ret>)
    requires c.Valid() && Echoes(c)
    ensures Echoes(Serve(p, c, rets)) && Serve(p, c, rets).pc.Idle?
    decreases |rets|
  {
    if c.pc.Idle? {
    } else if rets == [] {
      StepEchoes(p, c, Err);
    } else {
      StepEchoes(p, c, rets[0]);
      ServeEchoes(p, Step(p, c, rets[0]), rets[1..]);
    }
  }

  /** The answer to call number i of a handler. */
  function Reply(rets: seq<Ret>, i: nat): Ret {
    if i < |rets| then rets[i] else Err
  }

  lemma ServeUnfolds(p: Policy, c: Conn, rets: seq<Ret>, i: nat)
    requires c.Valid() && !c.pc.Idle? && i <= |rets|
    ensures Serve(p, c, rets[i..]) ==
            Serve(p, Step(p, c, Reply(rets, i)), if i < |rets| then rets[i + 1..] else [])
  {
    if i < |rets| {
      assert rets[i..][0] == rets[i] && rets[i..][1..] == rets[i + 1..];
    }
  }

  /** The handler once total bytes of its buffer are written. */
  function Written(p: Policy, sk: Sock, buf: Bytes, total: nat): Conn {
    Conn(sk, if total < |buf| then Writing(buf, total) else if p.OneRead? then Idle else Reading)
  }

  lemma WriteStep(p: Policy, sk: Sock, buf: Bytes, total: nat, rets: seq<Ret>, i: nat)
    requires total < |buf| <= BUF_SIZE && i <= |rets|
    ensures Serve(p, Written(p, sk, buf, total), rets[i..]) ==
            match Reply(rets, i)
            case Err => Conn(sk, Idle).Close()
            case Again => Serve(p, Written(p, sk, buf, total), rets[i + 1..])
            case N(n) =>
              var k := Min(n, |buf| - total);
              Serve(p, Written(p, sk.AfterWrite(buf[total..total + k]), buf, total + k), rets[i + 1..])
  {
    ServeUnfolds(p, Written(p, sk, buf, total), rets, i);
  }

  /** One write of the loop, unless it fails. */
  method WriteChunk(ghost p: Policy, sk0: Sock, buf: Bytes, total0: nat, r: Ret, ghost rets: seq<Ret>, ghost i: nat)
    returns (sk: Sock, total: nat)
    requires total0 < |buf| <= BUF_SIZE && i < |rets| && r == rets[i] && !r.Err?
    ensures total0 <= total <= |buf| && sk.open == sk0.open
    ensures Serve(p, Written(p, sk0, buf, total0), rets[i..]) == Serve(p, Written(p, sk, buf, total), rets[i + 1..])
  {
    WriteStep(p, sk0, buf, total0, rets, i);
    sk, total := sk0, total0;
    if r.N? {
      var n := Min(r.n, |buf| - total);
      sk, total := sk.AfterWrite(buf[total..total + n]), total + n;
    }
  }

  /** Writes out a buffer that was just read, as the inner loops of the three servers do:
      EAGAIN retries, any other failure stops the loop short. */
  method WriteAll(p: Policy, sk0: Sock, buf: Bytes, rets: seq<Ret>, i0: nat)
    returns (sk: Sock, totalWritten: nat, i: nat)
    requires 0 < |buf| <= BUF_SIZE && i0 <= |rets|
    ensures i0 <= i <= |rets| && totalWritten <= |buf| && sk.open == sk0.open
    ensures Serve(p, Written(p, sk0, buf, 0), rets[i0..]) ==
            if totalWritten < |buf| then Conn(sk, Idle).Close()
            else Serve(p, Written(p, sk, buf, totalWritten), rets[i..])
  {
    sk, totalWritten, i := sk0, 0, i0;
    ghost var goal := Serve(p, Written(p, sk0, buf, 0), rets[i0..]);
    while totalWritten < |buf|
      invariant i0 <= i <= |rets| && totalWritten <= |buf| && sk.open == sk0.open
      invariant goal == Serve(p, Written(p, sk, buf, totalWritten), rets[i..])
      decreases |rets| - i
    {
      var r := Reply(rets, i);
      if r.Err? {
        WriteStep(p, sk, buf, totalWritten, rets, i);
        break;
      }
      sk, totalWritten := WriteChunk(p, sk, buf, totalWritten, r, rets, i);
      i := i + 1;
    }
  }

  /** The client branch of a poll or select scan: one read, its echo, and whether the
      connection was closed. */
  method ServeOnce(c0: Conn, rets: seq<Ret>) returns (c: Conn)
    requires c0.pc.Idle? && c0.sk.open
    ensures c == Serve(OneRead, c0.Begin(), rets) && Outcome(c0, rets, c)
  {
    ServeOutcome(c0, rets);
    c := c0;
    var r := Reply(rets, 0);
    ServeUnfolds(OneRead, c0.Begin(), rets, 0);
    assert rets[0..] == rets;
    var bytesRead := if r.N? then c.sk.ReadCount(BUF_SIZE, r.n) else 0;
    if bytesRead == 0 {
      if r.Again? {
        return;
      }
      c := c.Close();
    } else {
      var buf := c.sk.rq[..bytesRead];
      var sk, totalWritten, i := WriteAll(OneRead, c.sk.AfterRead(bytesRead), buf, rets, 1);
      c := Conn(sk, Idle);
      if totalWritten < bytesRead {
        c := c.Close();
      }
    }
  }
}
