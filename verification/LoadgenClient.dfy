/** One connection of the closed-loop load generator (loadgen.c, worker_thread): send the
    payload, receive its echo, compare, send again.

    Conn and Step describe it one system call at a time. WorkerConn is the struct the C code
    mutates, and its HandleEvent is the body of the event loop. */
module LoadgenClient {
  import opened Kernel

  const PAYLOAD_LEN: nat := 29
  const RECV_BUF_SIZE: nat := 64

  /** The bytes of the request, "PING_ECHO_PAYLOAD_1234567890" and a newline. */
  function PayloadByte(k: nat): byte {
    var text: Bytes := [
      80, 73, 78, 71, 95, 69, 67, 72, 79, 95, 80, 65, 89, 76, 79, 65, 68, 95,
      49, 50, 51, 52, 53, 54, 55, 56, 57, 48, 10];
    if k < |text| then text[k] else 0
  }

  function Payload(): (p: Bytes)
    ensures |p| == PAYLOAD_LEN
  {
    seq(PAYLOAD_LEN, (k: nat) => PayloadByte(k))
  }

  type Offset = n: nat | n < PAYLOAD_LEN

  type RecvBuf = s: Bytes | |s| == RECV_BUF_SIZE witness seq(RECV_BUF_SIZE, _ => 0)

  datatype Phase = Sending | Receiving

  datatype Interest = Nothing | In | Out

  /** Where the event handler stands: outside, before a write of the send path, before a read
      of the receive path, or before the immediate write that follows a complete echo. */
  datatype Pc = Idle | SendLoop(thenRecv: bool) | RecvLoop | NextRequest

  datatype Conn = Conn(
    sk: Sock, active: bool, phase: Phase, sendOffset: Offset, recvOffset: Offset,
    recvBuf: RecvBuf, interest: Interest, pc: Pc, completed: nat, errors: nat)
  {
    function Fail(): Conn {
      this.(sk := sk.Closed(), pc := Idle, errors := errors + 1)
    }

    /** The receive path is entered only by an active connection that awaits an echo. */
    function EnterRecv(wanted: bool): Conn {
      this.(pc := if wanted && active && phase.Receiving? then RecvLoop else Idle)
    }

    function Begin(err: bool, out: bool, in_: bool): Conn {
      if !sk.open || !pc.Idle? then this
      else if err then Fail()
      else if out && active && phase.Sending? then this.(pc := SendLoop(in_))
      else EnterRecv(in_)
    }
  }

  function Connected(active: bool): Conn {
    Conn(Fresh(), active, Sending, 0, 0, seq(RECV_BUF_SIZE, _ => 0),
         if active then Out else Nothing, Idle, 0, 0)
  }

  function Overwrite(buf: Bytes, at: nat, data: Bytes): (r: Bytes)
    requires at + |data| <= |buf|
    ensures |r| == |buf|
  {
    buf[..at] + data + buf[at + |data|..]
  }

  /** The echo is complete: compare it with the payload and turn to the next request. */
  function Complete(c: Conn): (c': Conn)
    ensures c'.sk == c.sk
  {
    var same := c.recvBuf[..PAYLOAD_LEN] == Payload();
    c.(completed := c.completed + (if same then 1 else 0),
       errors := c.errors + (if same then 0 else 1),
       phase := Sending, sendOffset := 0, recvOffset := 0, pc := NextRequest)
  }

  function StepSend(c: Conn, r: Ret): (c': Conn)
    requires c.pc.SendLoop?
    ensures c.sk.out <= c'.sk.out
  {
    match r
    case Again => c.EnterRecv(c.pc.thenRecv)
    case Err => c.Fail()
    case N(n) =>
      var k := Min(n, PAYLOAD_LEN - c.sendOffset);
      var sk := c.sk.AfterWrite(Payload()[c.sendOffset..c.sendOffset + k]);
      if c.sendOffset + k < PAYLOAD_LEN then c.(sk := sk, sendOffset := c.sendOffset + k)
      else c.(sk := sk, phase := Receiving, sendOffset := 0, recvOffset := 0,
              interest := In).EnterRecv(c.pc.thenRecv)
  }

  function StepRecv(c: Conn, r: Ret): (c': Conn)
    requires c.pc.RecvLoop?
    ensures c'.sk.out == c.sk.out
  {
    match r
    case Again => c.(pc := Idle)
    case Err => c.Fail()
    case N(n) =>
      var k := c.sk.ReadCount(PAYLOAD_LEN - c.recvOffset, n);
      if k == 0 then c.Fail()
      else
        var d := c.(sk := c.sk.AfterRead(k),
                    recvBuf := Overwrite(c.recvBuf, c.recvOffset, c.sk.rq[..k]));
        if c.recvOffset + k < PAYLOAD_LEN then d.(recvOffset := c.recvOffset + k)
        else Complete(d)
  }

  function StepNext(c: Conn, r: Ret): (c': Conn)
    requires c.pc.NextRequest?
    ensures c.sk.out <= c'.sk.out
  {
    match r
    case Again => c.(sendOffset := 0, interest := Out, pc := Idle)
    case Err => c.Fail()
    case N(n) =>
      var k := Min(n, PAYLOAD_LEN);
      var sk := c.sk.AfterWrite(Payload()[..k]);
      if k == PAYLOAD_LEN then c.(sk := sk, phase := Receiving, pc := Idle)
      else if k > 0 then c.(sk := sk, sendOffset := k, interest := Out, pc := Idle)
      else c.Fail()
  }

  /** One system call of the handler, answered by r. */
  function Step(c: Conn, r: Ret): (c': Conn)
    ensures c.sk.out <= c'.sk.out
  {
    match c.pc
    case Idle => c
    case SendLoop(_) => StepSend(c, r)
    case RecvLoop => StepRecv(c, r)
    case NextRequest => StepNext(c, r)
  }

  /** An open connection waits for what its phase needs: room to send, or bytes to receive. A
      connection that is not active waits for nothing. */
  ghost predicate InterestAgrees(c: Conn) {
    && (c.sk.open && c.active ==> c.interest == if c.phase.Receiving? || c.pc.NextRequest? then In else Out)
    && (!c.active ==> c.interest.Nothing? && c.pc.Idle?)
    && (c.pc.RecvLoop? ==> c.phase.Receiving?) && (c.pc.SendLoop? || c.pc.NextRequest? ==> c.phase.Sending?)
  }

  lemma StepInterest(c: Conn, r: Ret)
    requires InterestAgrees(c)
    ensures InterestAgrees(Step(c, r)) && Step(c, r).active == c.active
  {
  }

  /** The calls that a connection does not survive: any error, a read that moves nothing, and an
      immediate next request of which nothing is taken. EAGAIN is never one of them. */
  predicate Fatal(pc: Pc, queue: Bytes, r: Ret) {
    match pc
    case Idle => false
    case SendLoop(_) => r.Err?
    case RecvLoop => r.Err? || (r.N? && (r.n == 0 || queue == []))
    case NextRequest => r.Err? || (r.N? && r.n == 0)
  }

  lemma StepOpenIff(c: Conn, r: Ret)
    requires c.sk.open
    ensures Step(c, r).sk.open <==> !Fatal(c.pc, c.sk.rq, r)
  {
  }

  function Rank(pc: Pc): nat {
    match pc
    case Idle => 0
    case SendLoop(_) => 2
    case _ => 1
  }

  /** A whole handler: when the answers run out, every further call reports EAGAIN. */
  function Handle(c: Conn, rets: seq<Ret>): (c': Conn)
    ensures c'.pc.Idle?
    decreases |rets|, Rank(c.pc)
  {
    if c.pc.Idle? then c
    else if rets == [] then Handle(Step(c, Again), [])
    else Handle(Step(c, rets[0]), rets[1..])
  }

  lemma HandleUnfolds(c: Conn, rets: seq<Ret>, i: nat)
    requires !c.pc.Idle?
    ensures Handle(c, Remaining(rets, i)) ==
            Handle(Step(c, Answer(rets, i)), Remaining(rets, i + 1))
  {
    if i < |rets| {
      assert rets[i..][0] == rets[i] && rets[i..][1..] == rets[i + 1..];
    }
  }

  // ---------------------------------------------------------------- what an event achieves

  /** The bytes that the answers up to the first EAGAIN or error would move; to a read, an answer of
      nothing ends them too. */
  function Leading(rets: seq<Ret>, reading: bool): nat {
    if rets == [] || !rets[0].N? || (reading && rets[0].n == 0) then 0
    else rets[0].n + Leading(rets[1..], reading)
  }

  /** The request goes on by k bytes, and the echo is awaited exactly when it is out. */
  ghost predicate Sent(c: Conn, k: nat, c': Conn)
    requires k <= PAYLOAD_LEN - c.sendOffset
  {
    && c'.sk.out == c.sk.out + Payload()[c.sendOffset..c.sendOffset + k]
    && (c'.phase.Receiving? <==> k == PAYLOAD_LEN - c.sendOffset)
    && c'.sk.taken == c.sk.taken
  }

  lemma SentNothing(c: Conn, c': Conn)
    requires c.phase.Sending? && c'.phase == c.phase && c'.sk.out == c.sk.out && c'.sk.taken == c.sk.taken
    ensures Sent(c, 0, c')
  {
    assert c.sk.out + Payload()[c.sendOffset..c.sendOffset] == c.sk.out;
  }

  lemma SentThen(c: Conn, d: Conn, c': Conn, k: nat, more: nat)
    requires k <= PAYLOAD_LEN - c.sendOffset && d.sendOffset == c.sendOffset + k
    requires d.sk == c.sk.AfterWrite(Payload()[c.sendOffset..c.sendOffset + k])
    requires more <= PAYLOAD_LEN - d.sendOffset && Sent(d, more, c')
    ensures Sent(c, k + more, c')
  {
    TwoSlices(c.sk.out, Payload(), c.sendOffset, k, more);
  }

  lemma TwoSlices(out: Bytes, p: Bytes, at: nat, k: nat, more: nat)
    requires at + k + more <= |p|
    ensures (out + p[at..at + k]) + p[at + k..at + k + more] == out + p[at..at + k + more]
  {
    assert p[at..at + k] + p[at + k..at + k + more] == p[at..at + k + more];
  }

  /** The send path writes on until the payload is out, EAGAIN or an error, and then awaits the echo. */
  lemma {:induction false} SendOutcome(c: Conn, rets: seq<Ret>)
    requires c.sk.open && c.active && c.phase.Sending? && c.pc == SendLoop(false)
    ensures Sent(c, Min(PAYLOAD_LEN - c.sendOffset, Leading(rets, false)), Handle(c, rets))
    decreases |rets|
  {
    var d := Step(c, Answer(rets, 0));
    HandleFirst(c, rets);
    if d.pc.SendLoop? {
      SendOutcome(d, rets[1..]);
      SentThen(c, d, Handle(d, rets[1..]), rets[0].n, Min(PAYLOAD_LEN - d.sendOffset, Leading(rets[1..], false)));
    } else {
      SendEnds(c, rets);
    }
  }

  /** The handler's first call, and the rest of it. */
  lemma HandleFirst(c: Conn, rets: seq<Ret>)
    requires !c.pc.Idle?
    ensures var d := Step(c, Answer(rets, 0));
      Handle(c, rets) == if d.pc.Idle? then d else Handle(d, if rets == [] then [] else rets[1..])
  {
  }

  lemma SendEnds(c: Conn, rets: seq<Ret>)
    requires c.sk.open && c.active && c.phase.Sending? && c.pc == SendLoop(false)
    requires !Step(c, Answer(rets, 0)).pc.SendLoop?
    ensures Sent(c, Min(PAYLOAD_LEN - c.sendOffset, Leading(rets, false)), Step(c, Answer(rets, 0)))
  {
    if !Answer(rets, 0).N? {
      SentNothing(c, Step(c, Answer(rets, 0)));
    }
  }

  /** The answers left when a read has moved so many bytes. */
  function AfterMoving(left: nat, rets: seq<Ret>): seq<Ret> {
    if left == 0 || rets == [] then rets
    else AfterMoving(if rets[0].N? then left - Min(left, rets[0].n) else left, rets[1..])
  }

  /** The part of the next request that its immediate write moves. */
  function Tried(rets: seq<Ret>): Bytes {
    if rets != [] && rets[0].N? then Payload()[..Min(rets[0].n, PAYLOAD_LEN)] else []
  }

  /** What the receive path takes of its queue: all of the echo that is missing, if there is so much, and
      no more than the answers allow. */
  function Takes(c: Conn, rets: seq<Ret>): (k: nat)
    ensures k <= |c.sk.rq| && k <= PAYLOAD_LEN - c.recvOffset
  {
    Min(PAYLOAD_LEN - c.recvOffset, Min(|c.sk.rq|, Leading(rets, true)))
  }

  /** The echo goes on by k bytes; once it is complete the next request is tried at once, and before
      that nothing is written. */
  ghost predicate Received(c: Conn, k: nat, rets: seq<Ret>, c': Conn)
    requires k <= |c.sk.rq| && k <= PAYLOAD_LEN - c.recvOffset
  {
    var left := PAYLOAD_LEN - c.recvOffset;
    && c'.sk.taken == c.sk.taken + c.sk.rq[..k] && c'.sk.rq == c.sk.rq[k..]
    && c'.sk.out == c.sk.out + if k == left then Tried(AfterMoving(left, rets)) else []
  }

  lemma ReceivedNothing(c: Conn, rets: seq<Ret>, c': Conn)
    requires c'.sk.taken == c.sk.taken && c'.sk.rq == c.sk.rq && c'.sk.out == c.sk.out
    ensures Received(c, 0, rets, c')
  {
    assert c.sk.taken + c.sk.rq[..0] == c.sk.taken && c.sk.out + [] == c.sk.out;
  }

  lemma ReceivedThen(c: Conn, d: Conn, c': Conn, k: nat, more: nat, rets: seq<Ret>)
    requires rets != [] && rets[0].N? && k == c.sk.ReadCount(PAYLOAD_LEN - c.recvOffset, rets[0].n)
    requires k < PAYLOAD_LEN - c.recvOffset && d.recvOffset == c.recvOffset + k && d.sk == c.sk.AfterRead(k)
    requires more <= |d.sk.rq| && more <= PAYLOAD_LEN - d.recvOffset && Received(d, more, rets[1..], c')
    ensures Received(c, k + more, rets, c')
  {
    assert c.sk.rq[..k] + c.sk.rq[k..][..more] == c.sk.rq[..k + more];
    assert c.sk.taken + (c.sk.rq[..k] + c.sk.rq[k..][..more]) == (c.sk.taken + c.sk.rq[..k]) + c.sk.rq[k..][..more];
  }

  /** The last part of an echo. */
  lemma ReceivedLast(c: Conn, rets: seq<Ret>)
    requires c.sk.open && c.pc.RecvLoop? && rets != [] && rets[0].N?
    requires c.sk.ReadCount(PAYLOAD_LEN - c.recvOffset, rets[0].n) == PAYLOAD_LEN - c.recvOffset
    ensures Received(c, PAYLOAD_LEN - c.recvOffset, rets, Handle(c, rets))
  {
    var d, left := Step(c, rets[0]), PAYLOAD_LEN - c.recvOffset;
    assert d.pc.NextRequest? && d.sk == c.sk.AfterRead(left);
    assert AfterMoving(left, rets) == AfterMoving(0, rets[1..]) == rets[1..];
    HandleFirst(c, rets);
    NextOutcome(d, rets[1..]);
  }

  lemma NextOutcome(d: Conn, rets: seq<Ret>)
    requires d.pc.NextRequest?
    ensures var c' := Handle(d, rets);
      c'.sk.taken == d.sk.taken && c'.sk.rq == d.sk.rq && c'.sk.out == d.sk.out + Tried(rets)
  {
    HandleFirst(d, rets);
    assert d.sk.out + [] == d.sk.out && Payload()[..0] == [];
  }

  /** A read that ends the loop without completing the echo moves nothing. */
  lemma RecvEnds(c: Conn, rets: seq<Ret>)
    requires c.sk.open && c.pc.RecvLoop? && Step(c, Answer(rets, 0)).pc.Idle?
    ensures Takes(c, rets) == 0 && Received(c, 0, rets, Step(c, Answer(rets, 0)))
  {
    ReceivedNothing(c, rets, Step(c, Answer(rets, 0)));
  }

  /** A read that moves bytes and leaves the echo incomplete. */
  lemma RecvGoesOn(c: Conn, rets: seq<Ret>)
    requires c.sk.open && c.pc.RecvLoop? && Step(c, Answer(rets, 0)).pc.RecvLoop?
    ensures rets != [] && rets[0].N?
    ensures var d, k := Step(c, rets[0]), c.sk.ReadCount(PAYLOAD_LEN - c.recvOffset, rets[0].n);
      && k < PAYLOAD_LEN - c.recvOffset && d.recvOffset == c.recvOffset + k && d.sk == c.sk.AfterRead(k)
      && Takes(c, rets) == k + Takes(d, rets[1..])
  {
  }

  lemma {:induction false} RecvOutcome(c: Conn, rets: seq<Ret>)
    requires c.sk.open && c.pc.RecvLoop?
    ensures Received(c, Takes(c, rets), rets, Handle(c, rets))
    decreases |rets|
  {
    var d := Step(c, Answer(rets, 0));
    HandleFirst(c, rets);
    match d.pc
    case Idle => RecvEnds(c, rets);
    case RecvLoop =>
      RecvGoesOn(c, rets);
      RecvOutcome(d, rets[1..]);
      ReceivedThen(c, d, Handle(d, rets[1..]), c.sk.ReadCount(PAYLOAD_LEN - c.recvOffset, rets[0].n),
                   Takes(d, rets[1..]), rets);
    case NextRequest => RecvCompletes(c, rets);
  }

  lemma RecvCompletes(c: Conn, rets: seq<Ret>)
    requires c.sk.open && c.pc.RecvLoop? && Step(c, Answer(rets, 0)).pc.NextRequest?
    ensures Received(c, Takes(c, rets), rets, Handle(c, rets))
  {
    assert Takes(c, rets) == PAYLOAD_LEN - c.recvOffset;
    ReceivedLast(c, rets);
  }

  /** The echo as far as it has been received. */
  function Echo(c: Conn): Bytes {
    c.recvBuf[..c.recvOffset]
  }

  /** What the k bytes count for: a completed request where they complete an echo that equals the
      payload, an error where they complete another, and an error where the connection fails. */
  ghost predicate Counted(c: Conn, k: nat, c': Conn)
    requires k <= |c.sk.rq| && k <= PAYLOAD_LEN - c.recvOffset
  {
    var whole, same := k == PAYLOAD_LEN - c.recvOffset, Echo(c) + c.sk.rq[..k] == Payload();
    && c'.completed == c.completed + One(whole && same)
    && c'.errors == c.errors + One(whole && !same) + One(!c'.sk.open)
  }

  lemma EchoGoesOn(c: Conn, k: nat)
    requires k <= |c.sk.rq| && k <= PAYLOAD_LEN - c.recvOffset
    ensures Overwrite(c.recvBuf, c.recvOffset, c.sk.rq[..k])[..c.recvOffset + k] == Echo(c) + c.sk.rq[..k]
  {
  }

  lemma CountedThen(c: Conn, d: Conn, c': Conn, k: nat, more: nat, r: Ret)
    requires c.sk.open && c.pc.RecvLoop? && r.N? && d == Step(c, r) && d.pc.RecvLoop?
    requires k == c.sk.ReadCount(PAYLOAD_LEN - c.recvOffset, r.n) && d.recvOffset == c.recvOffset + k
    requires more <= |d.sk.rq| && more <= PAYLOAD_LEN - d.recvOffset && Counted(d, more, c')
    ensures k + more <= |c.sk.rq| && Counted(c, k + more, c')
  {
    EchoGoesOn(c, k);
    TwoSlices(Echo(c), c.sk.rq, 0, k, more);
    assert c.sk.rq[k..][..more] == c.sk.rq[k..k + more];
  }

  lemma CompleteCounted(c: Conn, r: Ret)
    requires c.sk.open && c.pc.RecvLoop? && r.N?
    requires c.sk.ReadCount(PAYLOAD_LEN - c.recvOffset, r.n) == PAYLOAD_LEN - c.recvOffset
    ensures Counted(c, PAYLOAD_LEN - c.recvOffset, Step(c, r))
  {
    EchoGoesOn(c, PAYLOAD_LEN - c.recvOffset);
  }

  lemma NextCounted(d: Conn, rets: seq<Ret>)
    requires d.sk.open && d.pc.NextRequest?
    ensures var c' := Handle(d, rets);
      c'.completed == d.completed && c'.errors == d.errors + One(!c'.sk.open)
  {
    HandleFirst(d, rets);
  }

  lemma LastCounted(c: Conn, rets: seq<Ret>)
    requires c.sk.open && c.pc.RecvLoop? && Step(c, Answer(rets, 0)).pc.NextRequest?
    ensures Counted(c, Takes(c, rets), Handle(c, rets))
  {
    var d := Step(c, rets[0]);
    assert Takes(c, rets) == PAYLOAD_LEN - c.recvOffset;
    CompleteCounted(c, rets[0]);
    HandleFirst(c, rets);
    NextCounted(d, rets[1..]);
  }

  lemma EndCounted(c: Conn, rets: seq<Ret>)
    requires c.sk.open && c.pc.RecvLoop? && Step(c, Answer(rets, 0)).pc.Idle?
    ensures Counted(c, Takes(c, rets), Step(c, Answer(rets, 0)))
  {
    RecvEnds(c, rets);
  }

  lemma {:induction false} RecvCounts(c: Conn, rets: seq<Ret>)
    requires c.sk.open && c.pc.RecvLoop?
    ensures Counted(c, Takes(c, rets), Handle(c, rets))
    decreases |rets|
  {
    var d := Step(c, Answer(rets, 0));
    HandleFirst(c, rets);
    match d.pc
    case Idle => EndCounted(c, rets);
    case RecvLoop =>
      RecvGoesOn(c, rets);
      RecvCounts(d, rets[1..]);
      CountedThen(c, d, Handle(d, rets[1..]), c.sk.ReadCount(PAYLOAD_LEN - c.recvOffset, rets[0].n),
                  Takes(d, rets[1..]), rets[0]);
    case NextRequest => LastCounted(c, rets);
  }

  /** What one event achieves for an open connection between two handlers: with room to send, the
      request goes on as far as the answers allow; with bytes to read, the echo does, and is compared
      when it is complete. */
  lemma EventOutcome(c: Conn, out: bool, in_: bool, rets: seq<Ret>)
    requires c.sk.open && c.pc.Idle? && c.active
    ensures var c' := Handle(c.Begin(false, out, in_), rets);
      && (c.phase.Sending? && out && !in_ ==>
            Sent(c, Min(PAYLOAD_LEN - c.sendOffset, Leading(rets, false)), c'))
      && (c.phase.Receiving? && in_ ==> Received(c, Takes(c, rets), rets, c') && Counted(c, Takes(c, rets), c'))
  {
    var b := c.Begin(false, out, in_);
    if c.phase.Sending? && out && !in_ {
      SendOutcome(b, rets);
    } else if c.phase.Receiving? && in_ {
      RecvOutcome(b, rets);
      RecvCounts(b, rets);
    }
  }

  /** struct conn_state together with the counters of its worker. The socket and its epoll
      registration belong to the kernel. */
  class WorkerConn {
    var fd: int
    var is_active: bool
    var state: int  // 1 = sending, 2 = receiving
    var send_offset: nat
    var recv_offset: nat
    const recv_buf: array<byte>
    var errors: nat
    var completed: nat
    var sk: Sock
    var interest: Interest

    ghost predicate Valid()
      reads this
    {
      && recv_buf.Length == RECV_BUF_SIZE
      && (state == 1 || state == 2)
      && send_offset < PAYLOAD_LEN && recv_offset < PAYLOAD_LEN
      && (fd >= 0 <==> sk.open)
    }

    ghost function State(pc: Pc): Conn
      reads this, recv_buf
      requires Valid()
    {
      Conn(sk, is_active, if state == 1 then Sending else Receiving, send_offset, recv_offset,
           recv_buf[..], interest, pc, completed, errors)
    }

    constructor (fd: nat, active: bool)
      ensures Valid() && fresh(recv_buf) && State(Idle) == Connected(active)
    {
      this.fd, is_active, state := fd, active, 1;
      send_offset, recv_offset, errors, completed := 0, 0, 0, 0;
      recv_buf := new byte[RECV_BUF_SIZE](_ => 0);
      sk, interest := Fresh(), if active then Out else Nothing;
      new;
      assert recv_buf[..] == seq(RECV_BUF_SIZE, _ => 0);
    }

    method Fail()
      modifies `fd, `errors, `sk
      ensures fd == -1 && errors == old(errors) + 1 && sk == old(sk).Closed()
    {
      errors := errors + 1;
      sk := sk.Closed();
      fd := -1;
    }

    /** The send path: write the rest of the payload until it is out, EAGAIN or an error. */
    method SendPath(thenRecv: bool, rets: seq<Ret>) returns (i: nat)
      requires Valid() && fd >= 0 && state == 1 && is_active
      modifies `fd, `errors, `sk, `state, `send_offset, `recv_offset, `interest
      ensures Valid() && (state == 2 ==> fd >= 0)
      ensures Handle(old(State(SendLoop(thenRecv))), rets) ==
              Handle(State(Idle).EnterRecv(thenRecv), Remaining(rets, i))
    {
      i := 0;
      ghost var goal := Handle(State(SendLoop(thenRecv)), rets);
      assert Remaining(rets, 0) == rets;
      var done := false;
      while send_offset < PAYLOAD_LEN && !done
        invariant state == 1 && send_offset <= PAYLOAD_LEN && recv_offset < PAYLOAD_LEN
        invariant recv_buf.Length == RECV_BUF_SIZE && (fd >= 0 <==> sk.open)
        invariant !done ==> fd >= 0 && i <= |rets|
        invariant done ==> send_offset < PAYLOAD_LEN
        invariant goal == Handle(Progress(thenRecv, done), Remaining(rets, i))
        decreases |rets| - i, !done
      {
        HandleUnfolds(State(SendLoop(thenRecv)), rets, i);
        done := WriteChunk(thenRecv, Answer(rets, i));
        i := i + 1;
      }
      if fd >= 0 && send_offset == PAYLOAD_LEN {
        state, send_offset, recv_offset := 2, 0, 0;
        interest := In;
      }
    }

    /** One write of the send loop, and whether it ends the loop early. */
    method WriteChunk(ghost thenRecv: bool, r: Ret) returns (done: bool)
      requires Valid() && fd >= 0 && state == 1 && is_active
      modifies `fd, `errors, `sk, `send_offset
      ensures send_offset <= PAYLOAD_LEN && (fd >= 0 <==> sk.open)
      ensures if done then send_offset < PAYLOAD_LEN else fd >= 0
      ensures done <== r == Again
      ensures Progress(thenRecv, done) == Step(old(State(SendLoop(thenRecv))), r)
    {
      done := false;
      match r {
        case N(k) =>
          var n := Min(k, PAYLOAD_LEN - send_offset);
          sk := sk.AfterWrite(Payload()[send_offset..send_offset + n]);
          send_offset := send_offset + n;
        case Again =>
          done := true;
        case Err =>
          Fail();
          done := true;
      }
    }

    /** What the send loop has reached: stopped, still writing, or everything written. */
    ghost function Progress(thenRecv: bool, done: bool): Conn
      reads this, recv_buf
      requires state == 1 && send_offset <= PAYLOAD_LEN && recv_offset < PAYLOAD_LEN
      requires recv_buf.Length == RECV_BUF_SIZE && (fd >= 0 <==> sk.open)
      requires done ==> send_offset < PAYLOAD_LEN
    {
      if done then State(Idle).EnterRecv(thenRecv)
      else if send_offset < PAYLOAD_LEN then State(SendLoop(thenRecv))
      else Conn(sk, is_active, Receiving, 0, 0, recv_buf[..], In, Idle, completed,
                errors).EnterRecv(thenRecv)
    }

    /** The kernel copies the bytes of a read into the receive buffer. */
    method Store(at: nat, data: Bytes)
      requires at + |data| <= recv_buf.Length
      modifies recv_buf
      ensures recv_buf[..] == Overwrite(old(recv_buf[..]), at, data)
    {
      forall j | 0 <= j < |data| {
        recv_buf[at + j] := data[j];
      }
    }

    /** What the receive loop has reached: stopped, still reading, or the whole echo read. */
    ghost function RecvProgress(done: bool): Conn
      reads this, recv_buf
      requires state == 2 && send_offset < PAYLOAD_LEN && recv_offset <= PAYLOAD_LEN
      requires recv_buf.Length == RECV_BUF_SIZE && (fd >= 0 <==> sk.open)
      requires done ==> recv_offset < PAYLOAD_LEN
    {
      if done then State(Idle)
      else if recv_offset < PAYLOAD_LEN then State(RecvLoop)
      else Complete(Conn(sk, is_active, Receiving, send_offset, 0, recv_buf[..], interest,
                         RecvLoop, completed, errors))
    }

    /** The receive path: read until the echo is complete, EAGAIN or an error; then compare it
        and try the next request at once. */
    method RecvPath(rets: seq<Ret>, i0: nat)
      requires Valid() && fd >= 0 && state == 2 && is_active
      modifies this, recv_buf
      ensures Valid()
      ensures State(Idle) == Handle(old(State(RecvLoop)), Remaining(rets, i0))
    {
      ghost var goal := Handle(State(RecvLoop), Remaining(rets, i0));
      var i := i0;
      var done := false;
      while recv_offset < PAYLOAD_LEN && !done
        invariant recv_buf.Length == RECV_BUF_SIZE && recv_offset <= PAYLOAD_LEN
        invariant state == 2 && send_offset < PAYLOAD_LEN && (fd >= 0 <==> sk.open)
        invariant !done ==> fd >= 0
        invariant done ==> recv_offset < PAYLOAD_LEN
        invariant goal == Handle(RecvProgress(done), Remaining(rets, i))
        decreases PAYLOAD_LEN - recv_offset, !done
      {
        HandleUnfolds(State(RecvLoop), rets, i);
        done := ReadChunk(Answer(rets, i));
        i := i + 1;
      }
      if !done {
        CompleteEcho();
        SendNext(rets, i);
      }
    }

    /** One read of the receive loop, and whether it ends the loop early. */
    method ReadChunk(r: Ret) returns (done: bool)
      requires Valid() && fd >= 0 && state == 2
      modifies `fd, `errors, `sk, `recv_offset, recv_buf
      ensures recv_offset <= PAYLOAD_LEN && (fd >= 0 <==> sk.open)
      ensures if done then recv_offset < PAYLOAD_LEN else fd >= 0 && recv_offset > old(recv_offset)
      ensures RecvProgress(done) == Step(old(State(RecvLoop)), r)
    {
      var n := if r.N? then sk.ReadCount(PAYLOAD_LEN - recv_offset, r.n) else 0;
      done := n == 0;
      if n == 0 {
        if !r.Again? {
          Fail();
        }
      } else {
        Store(recv_offset, sk.rq[..n]);
        sk := sk.AfterRead(n);
        recv_offset := recv_offset + n;
      }
    }

    /** Verification of the echo, and the return to the sending state. */
    method CompleteEcho()
      requires recv_buf.Length == RECV_BUF_SIZE && recv_offset == PAYLOAD_LEN && fd >= 0 && sk.open
      requires state == 2 && send_offset < PAYLOAD_LEN
      modifies `errors, `completed, `state, `send_offset, `recv_offset
      ensures Valid() && state == 1
      ensures State(NextRequest) ==
              Complete(Conn(sk, is_active, Receiving, old(send_offset), 0, recv_buf[..], interest,
                            RecvLoop, old(completed), old(errors)))
    {
      if recv_buf[..PAYLOAD_LEN] != Payload() {
        errors := errors + 1;
      } else {
        completed := completed + 1;
      }
      assert recv_buf[..][..PAYLOAD_LEN] == recv_buf[..PAYLOAD_LEN];
      state, send_offset, recv_offset := 1, 0, 0;
    }

    /** The immediate write of the next request. */
    method SendNext(rets: seq<Ret>, i: nat)
      requires Valid() && fd >= 0 && state == 1 && send_offset == 0
      modifies `fd, `errors, `sk, `state, `send_offset, `interest
      ensures Valid()
      ensures State(Idle) == Handle(old(State(NextRequest)), Remaining(rets, i))
    {
      var r := Answer(rets, i);
      HandleUnfolds(State(NextRequest), rets, i);
      if r.N? && r.n > 0 {
        var n := Min(r.n, PAYLOAD_LEN);
        sk := sk.AfterWrite(Payload()[..n]);
        if n == PAYLOAD_LEN {
          state := 2;
        } else {
          send_offset := n;
          interest := Out;
        }
      } else if r.Again? {
        send_offset := 0;
        interest := Out;
      } else {
        if r.N? {
          sk := sk.AfterWrite(Payload()[..0]);
        }
        Fail();
      }
    }

    /** The body of the event loop for one reported event. */
    method HandleEvent(err: bool, out: bool, in_: bool, rets: seq<Ret>)
      requires Valid() && fd >= 0
      modifies this, recv_buf
      ensures Valid()
      ensures State(Idle) == Handle(old(State(Idle)).Begin(err, out, in_), rets)
    {
      if err {
        Fail();
        return;
      }
      var i := 0;
      assert Remaining(rets, 0) == rets;
      if out && is_active && state == 1 {
        i := SendPath(in_, rets);
      }
      if in_ && is_active && state == 2 {
        RecvPath(rets, i);
      }
    }
  }
}
