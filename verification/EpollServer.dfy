/** The event handlers of epoll_lt_server.c and epoll_et_server.c as they run: loops over
    system calls that update a client's buffer in place.

    Every method is proved to reach the state that BufferedEcho computes, for every sequence
    of answers. */
module EpollServer {
  import opened Kernel
  import opened BufferedEcho
  import Listener = ListenerEdge

  const MAX_FDS: nat := 65536

  lemma HandleUnfolds(m: Mode, c: Conn, rets: seq<Ret>, i: nat)
    requires c.Valid() && !c.pc.Idle?
    ensures Handle(m, c, Remaining(rets, i)) ==
            Handle(m, Step(m, c, Answer(rets, i)), Remaining(rets, i + 1))
  {
    if i < |rets| {
      assert rets[i..][0] == rets[i] && rets[i..][1..] == rets[i + 1..];
    }
  }

  /** struct client_state, with the kernel's side of the descriptor and the connection's share
      of g_events and g_requests. */
  class ClientState {
    const wbuf: array<byte>
    var wlen: nat
    var woffset: nat
    var sk: Sock
    var interest: Interest
    var events: nat
    var requests: nat

    ghost predicate Valid()
      reads this
    {
      && wbuf.Length == BUF_SIZE
      && woffset <= wlen <= BUF_SIZE
      && (!sk.open ==> wlen == 0)
    }

    ghost function State(pc: Pc): (c: Conn)
      reads this, wbuf
      requires Valid()
    {
      Conn(sk, wbuf[..], wlen, woffset, interest, pc, events, requests)
    }

    constructor ()
      ensures Valid() && fresh(wbuf) && State(Idle) == Unused()
    {
      wbuf := new byte[BUF_SIZE](_ => 0);
      wlen, woffset, events, requests := 0, 0, 0, 0;
      sk, interest := Fresh().Closed(), In;
      new;
      assert wbuf[..] == seq(BUF_SIZE, _ => 0);
    }

    method Close()
      modifies `sk, `wlen, `woffset
      ensures sk == old(sk).Closed() && wlen == 0 && woffset == 0
    {
      sk := sk.Closed();
      wlen := 0;
      woffset := 0;
    }

    /** Writes the remainder until it is out, EAGAIN or an error. */
    method FlushLoop(m: Mode, thenRead: bool, rets: seq<Ret>)
      returns (blocked: bool, error: bool, i: nat)
      requires Valid() && sk.open
      modifies `sk, `woffset
      ensures Valid() && sk.open && (blocked || error || woffset == wlen)
      ensures blocked || error ==> woffset < wlen
      ensures Handle(m, old(State(Idle)).Begin(true, thenRead), rets) ==
              Handle(m, FlushProgress(thenRead, blocked, error), Remaining(rets, i))
    {
      blocked, error, i := false, false, 0;
      ghost var goal := Handle(m, FlushProgress(thenRead, false, false), rets);
      assert Remaining(rets, 0) == rets;
      while woffset < wlen && !blocked && !error
        invariant Valid() && sk.open && (!blocked ==> i <= |rets|)
        invariant blocked || error ==> woffset < wlen
        invariant goal == Handle(m, FlushProgress(thenRead, blocked, error), Remaining(rets, i))
        decreases |rets| - i, !blocked
      {
        HandleUnfolds(m, State(Flushing(thenRead)), rets, i);
        blocked, error := WriteChunk(thenRead, Answer(rets, i));
        i := i + 1;
      }
    }

    /** The write branch: the flush loop, then a close or the return to input only. */
    method FlushPending(m: Mode, thenRead: bool, rets: seq<Ret>) returns (error: bool, i: nat)
      requires Valid() && sk.open
      modifies `sk, `wlen, `woffset, `interest, `requests
      ensures Valid() && sk.open == !error
      ensures Handle(m, old(State(Idle)).Begin(true, thenRead), rets) ==
              Handle(m, if error then State(Idle) else State(Idle).EnterRead(thenRead), Remaining(rets, i))
    {
      var blocked;
      blocked, error, i := FlushLoop(m, thenRead, rets);
      if error {
        Close();
      } else if woffset == wlen {
        BackToInput();
      }
    }

    /** The remainder is out: the buffer is emptied and EPOLLOUT no longer asked for. */
    method BackToInput()
      requires Valid() && sk.open
      modifies `wlen, `woffset, `interest, `requests
      ensures Valid() && State(Idle) == old(State(Idle)).Drained()
    {
      wlen := 0;
      woffset := 0;
      interest := In;
      requests := requests + 1;
    }

    /** One write of the flush loop. */
    method WriteChunk(ghost thenRead: bool, r: Ret) returns (blocked: bool, error: bool)
      requires Valid() && sk.open && woffset < wlen
      modifies `sk, `woffset
      ensures Valid() && sk.open && blocked == r.Again? && error == r.Err?
      ensures blocked || error ==> woffset < wlen
      ensures FlushProgress(thenRead, blocked, error) == StepFlush(old(State(Flushing(thenRead))), r)
    {
      blocked, error := r.Again?, r.Err?;
      if r.N? {
        var n := Min(r.n, wlen - woffset);
        assert wbuf[..][woffset..woffset + n] == wbuf[woffset..woffset + n];
        sk := sk.AfterWrite(wbuf[woffset..woffset + n]);
        woffset := woffset + n;
      }
    }

    /** What the flush loop has reached. */
    ghost function FlushProgress(thenRead: bool, blocked: bool, error: bool): (c: Conn)
      reads this, wbuf
      requires Valid() && sk.open
      ensures c.Valid()
    {
      if error then State(Idle).Close()
      else if blocked then State(Idle).EnterRead(thenRead)
      else if woffset < wlen then State(Flushing(thenRead))
      else State(Idle).Drained().EnterRead(thenRead)
    }

    /** memcpy of what a write left over, and EPOLLOUT registered for it. */
    method Buffer(rest: Bytes)
      requires wbuf.Length == BUF_SIZE && 0 < |rest| <= BUF_SIZE
      modifies `wlen, `woffset, `interest, wbuf
      ensures wbuf[..] == Buffered(old(wbuf[..]), rest)
      ensures wlen == |rest| && woffset == 0 && interest == InOut
    {
      forall j | 0 <= j < |rest| {
        wbuf[j] := rest[j];
      }
      wlen := |rest|;
      woffset := 0;
      interest := InOut;
    }

    /** Echoes what was just read with one write. */
    method Echo(m: Mode, data: Bytes, r: Ret)
      requires Valid() && sk.open && 0 < |data| <= BUF_SIZE
      modifies this, wbuf
      ensures Valid() && sk.open == !r.Err?
      ensures State(if r.Err? then Idle else AfterEcho(m, |data|)) ==
              Step(m, old(State(Echoing(data))), r)
    {
      if r.Err? {
        Close();
        return;
      }
      var n := if r.N? then Min(r.n, |data|) else 0;
      sk := sk.AfterWrite(data[..n]);
      if n < |data| {
        Buffer(data[n..]);
      } else {
        requests := requests + 1;
      }
    }

    /** The echo as the handler's next call. */
    method EchoNext(m: Mode, data: Bytes, rets: seq<Ret>, i: nat)
      requires Valid() && sk.open && 0 < |data| <= BUF_SIZE
      modifies this, wbuf
      ensures Valid()
      ensures Handle(m, old(State(Echoing(data))), Remaining(rets, i)) ==
              Handle(m, State(if sk.open then AfterEcho(m, |data|) else Idle), Remaining(rets, i + 1))
    {
      HandleUnfolds(m, State(Echoing(data)), rets, i);
      Echo(m, data, Answer(rets, i));
    }

    /** One read; the connection is closed at end of stream or on an error. */
    method Read(ghost m: Mode, r: Ret) returns (data: Bytes)
      requires Valid() && sk.open
      modifies `sk, `events, `wlen, `woffset
      ensures Valid() && |data| <= BUF_SIZE && (data != [] ==> sk.open && r.N?)
      ensures State(if data == [] then Idle else Echoing(data)) == Step(m, old(State(Reading)), r)
    {
      data := if r.N? then sk.rq[..sk.ReadCount(BUF_SIZE, r.n)] else [];
      if data != [] {
        sk := sk.AfterRead(|data|);
        events := events + 1;
      } else if !r.Again? {
        Close();
      }
    }

    /** One read, and its echo if it moved bytes. The result says whether the read moved
        bytes, how many, and whether the connection survived. */
    method ReadAndEcho(m: Mode, rets: seq<Ret>, i: nat) returns (bytesRead: nat)
      requires Valid() && sk.open
      modifies this, wbuf
      ensures Valid() && bytesRead <= BUF_SIZE && (i >= |rets| ==> bytesRead == 0)
      ensures Handle(m, old(State(Reading)), Remaining(rets, i)) ==
              Handle(m, State(if bytesRead > 0 && sk.open then AfterEcho(m, bytesRead) else Idle),
                     Remaining(rets, i + 2))
    {
      HandleUnfolds(m, State(Reading), rets, i);
      var data := Read(m, Answer(rets, i));
      bytesRead := |data|;
      if data != [] {
        EchoNext(m, data, rets, i + 1);
      }
    }

    /** The level-triggered read branch: exactly one read. */
    method ReadOnce(rets: seq<Ret>, i: nat)
      requires Valid() && sk.open
      modifies this, wbuf
      ensures Valid()
      ensures State(Idle) == Handle(Level, old(State(Reading)), Remaining(rets, i))
    {
      var bytesRead := ReadAndEcho(Level, rets, i);
    }

    /** Where the edge-triggered read loop stands after a read of so many bytes. */
    ghost function Draining(bytesRead: nat): (c: Conn)
      reads this, wbuf
      requires Valid()
      ensures c.Valid()
    {
      State(if bytesRead == BUF_SIZE && sk.open then Reading else Idle)
    }

    method DrainStep(rets: seq<Ret>, i: nat) returns (bytesRead: nat)
      requires Valid() && sk.open
      modifies this, wbuf
      ensures Valid() && bytesRead <= BUF_SIZE && (i >= |rets| ==> bytesRead == 0)
      ensures Handle(Edge, old(State(Reading)), Remaining(rets, i)) ==
              Handle(Edge, Draining(bytesRead), Remaining(rets, i + 2))
    {
      bytesRead := ReadAndEcho(Edge, rets, i);
    }

    /** The edge-triggered read branch: read until a short read, EAGAIN or a failure. */
    method ReadDrain(rets: seq<Ret>, i0: nat)
      requires Valid() && sk.open
      modifies this, wbuf
      ensures Valid()
      ensures State(Idle) == Handle(Edge, old(State(Reading)), Remaining(rets, i0))
    {
      var i: nat := i0;
      var bytesRead: nat := BUF_SIZE;
      ghost var goal := Handle(Edge, State(Reading), Remaining(rets, i0));
      while bytesRead == BUF_SIZE && sk.open
        invariant Valid() && bytesRead <= BUF_SIZE
        invariant goal == Handle(Edge, Draining(bytesRead), Remaining(rets, i))
        decreases if i <= |rets| then |rets| - i + 1 else 0, bytesRead
      {
        bytesRead := DrainStep(rets, i);
        i := i + 2;
      }
    }

    /** The body of the event loop for one client event: the remainder first, then input. */
    method HandleEvent(m: Mode, out: bool, in_: bool, rets: seq<Ret>)
      requires Valid() && sk.open
      modifies this, wbuf
      ensures Valid()
      ensures State(Idle) == Handle(m, old(State(Idle)).Begin(out, in_), rets)
    {
      var i := 0;
      assert Remaining(rets, 0) == rets;
      if out {
        var error;
        error, i := FlushPending(m, in_, rets);
        if error {
          return;
        }
      }
      if in_ {
        if m.Level? {
          ReadOnce(rets, i);
        } else {
          ReadDrain(rets, i);
        }
      }
    }
  }

  // ---------------------------------------------------------------- the table

  /** What happens to the server: bytes arrive on a connection, the listener's loop runs, or an event
      of a connection is reported. The kernel reports EPOLLOUT only where it is registered. */
  datatype Turn =
    | Arrives(fd: nat, data: Bytes)
    | Accepts(answers: seq<Listener.Answer>)
    | Reports(fd: nat, out: bool, in_: bool, rets: seq<Ret>)

  /** The descriptor is among those that the accept loop is given. */
  predicate Admitted(fd: nat, answers: seq<Listener.Answer>) {
    Listener.Got(fd) in Listener.LoopCalls(answers)
  }

  /** An entry of the table after some calls of the accept loop. */
  function Taken(fd: nat, c: Conn, calls: seq<Listener.Answer>): Conn {
    if Listener.Got(fd) in calls then Reused(c) else c
  }

  ghost predicate Once(fd: nat, calls: seq<Listener.Answer>) {
    forall j, k | 0 <= j < k < |calls| :: !(calls[j] == calls[k] == Listener.Got(fd))
  }

  /** None of the descriptors that the calls return is in use, and none comes twice. */
  ghost predicate Available(was: seq<Conn>, calls: seq<Listener.Answer>) {
    forall fd | 0 <= fd < |was| :: Once(fd, calls) && (Listener.Got(fd) in calls ==> !was[fd].sk.open)
  }

  lemma TakenNext(fd: nat, c: Conn, calls: seq<Listener.Answer>, k: nat)
    requires k < |calls| && Once(fd, calls)
    ensures Taken(fd, c, calls[..k + 1]) ==
            if calls[k] == Listener.Got(fd) then Reused(Taken(fd, c, calls[..k])) else Taken(fd, c, calls[..k])
    ensures calls[k] == Listener.Got(fd) ==> Taken(fd, c, calls[..k]) == c
  {
    assert calls[..k + 1] == calls[..k] + [calls[k]];
  }

  /** The kernel gives a descriptor once, and only while it is not in use. */
  ghost predicate Possible(fd: nat, c: Conn, t: Turn) {
    match t
    case Arrives(_, _) => true
    case Accepts(answers) => (Admitted(fd, answers) ==> !c.sk.open) && Once(fd, Listener.LoopCalls(answers))
    case Reports(to, _, _, _) => to == fd ==> c.sk.open
  }

  /** One entry of the table after a turn. */
  function After(m: Mode, fd: nat, c: Conn, t: Turn): (c': Conn)
    requires c.Valid() && c.pc.Idle?
    ensures c'.Valid() && c'.pc.Idle?
  {
    match t
    case Arrives(to, data) => if to == fd then c.(sk := c.sk.Deliver(data)) else c
    case Accepts(answers) => Taken(fd, c, Listener.LoopCalls(answers))
    case Reports(to, out, in_, rets) =>
      if to == fd then Handle(m, c.Begin(out && c.interest.InOut?, in_), rets) else c
  }

  /** The last call admits nobody. */
  lemma TakenLast(was: seq<Conn>, calls: seq<Listener.Answer>, k: nat)
    requires k + 1 == |calls| && !calls[k].Got?
    ensures forall fd | 0 <= fd < |was| ::
              Taken(fd, was[fd], calls[..k]) == Taken(fd, was[fd], calls[..k + 1])
  {
    assert calls[..k + 1] == calls[..k] + [calls[k]];
  }

  /** The loop has made k calls and goes on. */
  ghost predicate GoesOn(answers: seq<Listener.Answer>, k: nat) {
    && k <= |Listener.LoopCalls(answers)| && k <= |answers|
    && Listener.LoopCalls(answers)[k..] == Listener.LoopCalls(answers[k..])
  }

  /** Its next call, and whether it is the last. */
  lemma CallAt(answers: seq<Listener.Answer>, k: nat)
    requires GoesOn(answers, k)
    ensures var calls, a := Listener.LoopCalls(answers), if k < |answers| then answers[k] else Listener.Empty;
      k < |calls| && calls[k] == a && if a.Got? then GoesOn(answers, k + 1) else k + 1 == |calls|
  {
    var calls := Listener.LoopCalls(answers);
    assert calls[k..] == Listener.LoopCalls(answers[k..]);
    assert calls[k] == calls[k..][0];
    if k < |answers| && answers[k].Got? {
      assert answers[k..][1..] == answers[k + 1..];
      assert calls[k + 1..] == calls[k..][1..];
    }
  }

  function AfterAll(m: Mode, fd: nat, c: Conn, turns: seq<Turn>): (c': Conn)
    requires c.Valid() && c.pc.Idle?
    ensures c'.Valid() && c'.pc.Idle?
    decreases |turns|
  {
    if turns == [] then c else AfterAll(m, fd, After(m, fd, c, turns[0]), turns[1..])
  }

  ghost predicate AllPossible(m: Mode, fd: nat, c: Conn, turns: seq<Turn>)
    requires c.Valid() && c.pc.Idle?
    decreases |turns|
  {
    turns != [] ==> Possible(fd, c, turns[0]) && AllPossible(m, fd, After(m, fd, c, turns[0]), turns[1..])
  }

  /** The calls of accept reach the table by their answers, the other turns by their descriptor. */
  predicate InTable(t: Turn) {
    t.Accepts? || t.fd < MAX_FDS
  }

  // ---------------------------------------------------------------- an entry over its connections

  /** The entry as a turn finds it once the accept loop is through with it. */
  function Begun(fd: nat, c: Conn, t: Turn): (c': Conn)
    requires c.Valid() && c.pc.Idle?
    ensures c'.Valid() && c'.pc.Idle?
  {
    if t.Accepts? then Taken(fd, c, Listener.LoopCalls(t.answers)) else c
  }

  /** What a turn is to an entry: an arrival, or an event with the calls of its handler. */
  function MovesOf(m: Mode, fd: nat, c: Conn, t: Turn): seq<Move>
    requires c.Valid() && c.pc.Idle?
  {
    match t
    case Arrives(to, data) => if to == fd then [Arrive(data)] else []
    case Accepts(_) => []
    case Reports(to, out, in_, rets) =>
      if to == fd then [Event(out, in_)] + CallsOf(m, c.Begin(out && c.interest.InOut?, in_), rets) else []
  }

  lemma AfterIsRun(m: Mode, fd: nat, c: Conn, t: Turn)
    requires c.Valid() && c.pc.Idle?
    ensures After(m, fd, c, t) == Run(m, Begun(fd, c, t), MovesOf(m, fd, c, t))
  {
    if t.Arrives? && t.fd == fd {
      assert [Arrive(t.data)][1..] == [];
      assert Run(m, Next(m, c, Arrive(t.data)), []) == Next(m, c, Arrive(t.data));
    } else if t.Reports? && t.fd == fd {
      var d := c.Begin(t.out && c.interest.InOut?, t.in_);
      HandleIsRun(m, d, t.rets);
      assert MovesOf(m, fd, c, t)[1..] == CallsOf(m, d, t.rets);
    }
  }

  /** After a turn an entry is a connection if and only if it has just been accepted, or it was one and
      none of its calls in the turn failed. */
  lemma AfterOpenIff(m: Mode, fd: nat, c: Conn, t: Turn)
    requires c.Valid() && c.pc.Idle? && Possible(fd, c, t)
    ensures After(m, fd, c, t).sk.open <==>
            (t.Accepts? && Admitted(fd, t.answers)) || (c.sk.open && NeverFails(m, c, MovesOf(m, fd, c, t)))
  {
    AfterIsRun(m, fd, c, t);
    RunOpenIff(m, Begun(fd, c, t), MovesOf(m, fd, c, t));
  }

  /** The entry echoes exactly at every system call of its connections. */
  ghost predicate EntryEchoes(m: Mode, fd: nat, c: Conn, turns: seq<Turn>)
    requires c.Valid() && c.pc.Idle?
    decreases |turns|
  {
    && Echoes(c)
    && (turns != [] ==>
          && EchoesThroughout(m, Begun(fd, c, turns[0]), MovesOf(m, fd, c, turns[0]))
          && EntryEchoes(m, fd, After(m, fd, c, turns[0]), turns[1..]))
  }

  /** Each write that follows a read on this descriptor is harmless. */
  ghost predicate EntryHarmless(m: Mode, fd: nat, c: Conn, turns: seq<Turn>)
    requires c.Valid() && c.pc.Idle?
    decreases |turns|
  {
    turns != [] ==>
      && AllHarmless(m, Begun(fd, c, turns[0]), MovesOf(m, fd, c, turns[0]))
      && EntryHarmless(m, fd, After(m, fd, c, turns[0]), turns[1..])
  }

  /** In the table too, whatever the other entries do and however often the descriptor is reused, an
      entry echoes exactly throughout if and only if each of its own writes after a read is harmless. */
  lemma {:induction false} EntryEchoesIff(m: Mode, fd: nat, c: Conn, turns: seq<Turn>)
    requires c.Valid() && c.pc.Idle? && Echoes(c)
    ensures EntryEchoes(m, fd, c, turns) <==> EntryHarmless(m, fd, c, turns)
    decreases |turns|
  {
    if turns != [] {
      var b, moves := Begun(fd, c, turns[0]), MovesOf(m, fd, c, turns[0]);
      RunEchoesIff(m, b, moves);
      AfterIsRun(m, fd, c, turns[0]);
      if AllHarmless(m, b, moves) {
        EchoesEnd(m, b, moves);
        EntryEchoesIff(m, fd, After(m, fd, c, turns[0]), turns[1..]);
      }
    }
  }

  /** The static table client_states[MAX_FDS], indexed by descriptor. */
  class Server {
    const m: Mode
    const table: array<ClientState>

    ghost predicate Valid()
      reads this, table, set i | 0 <= i < table.Length :: table[i]
    {
      && table.Length == MAX_FDS
      && (forall i | 0 <= i < MAX_FDS :: table[i].Valid())
      && (forall i, j | 0 <= i < j < MAX_FDS :: table[i] != table[j] && table[i].wbuf != table[j].wbuf)
    }

    /** The table is zeroed: no entry is a connection. */
    constructor (m: Mode)
      ensures Valid() && this.m == m && fresh(table)
      ensures forall i | 0 <= i < MAX_FDS :: fresh(table[i]) && fresh(table[i].wbuf)
      ensures forall fd | 0 <= fd < MAX_FDS :: State(fd) == Unused()
    {
      this.m := m;
      var first := new ClientState();
      var states := new ClientState[MAX_FDS](_ => first);
      table := states;
      new;
      for k := 1 to MAX_FDS
        invariant table == states && fresh(states)
        invariant forall i | 0 <= i < MAX_FDS :: fresh(table[i]) && fresh(table[i].wbuf)
        invariant forall i | 0 <= i < k :: table[i].Valid() && table[i].State(Idle) == Unused()
        invariant forall i, j | 0 <= i < j < k :: table[i] != table[j] && table[i].wbuf != table[j].wbuf
      {
        var next := new ClientState();
        table[k] := next;
      }
    }

    ghost function State(fd: nat): Conn
      reads this, table, set i | 0 <= i < table.Length :: table[i]
      reads set i | 0 <= i < table.Length :: table[i].wbuf
      requires Valid() && fd < MAX_FDS
    {
      table[fd].State(Idle)
    }

    /** A new connection: its entry starts empty whatever it held before, and is watched for
        input. A descriptor beyond the table is refused. */
    method Accept(fd: nat) returns (accepted: bool)
      requires Valid() && (fd < MAX_FDS ==> !State(fd).sk.open)
      modifies if fd < MAX_FDS then {table[fd]} else {}
      ensures Valid() && accepted == (fd < MAX_FDS)
      ensures accepted ==> State(fd) == Reused(old(State(fd)))
      ensures forall other | 0 <= other < MAX_FDS && other != fd :: State(other) == old(State(other))
    {
      accepted := fd < MAX_FDS;
      if accepted {
        var cs := table[fd];
        cs.wlen := 0;
        cs.woffset := 0;
        cs.sk := Fresh();
        cs.interest := In;
      }
    }

    ghost function Entries(): (s: seq<Conn>)
      reads this, table, set i | 0 <= i < table.Length :: table[i]
      reads set i | 0 <= i < table.Length :: table[i].wbuf
      requires Valid()
      ensures |s| == MAX_FDS && forall fd | 0 <= fd < MAX_FDS :: s[fd] == State(fd)
    {
      seq(MAX_FDS, fd requires 0 <= fd < MAX_FDS && Valid()
                      reads this, table, set i | 0 <= i < table.Length :: table[i]
                      reads set i | 0 <= i < table.Length :: table[i].wbuf => State(fd))
    }

    /** The loop's call number k, answered with a descriptor. */
    method AcceptNext(ghost was: seq<Conn>, ghost calls: seq<Listener.Answer>, ghost k: nat, fd: nat)
      requires Valid() && |was| == MAX_FDS && k < |calls| && calls[k] == Listener.Got(fd)
      requires forall x | 0 <= x < MAX_FDS :: State(x) == Taken(x, was[x], calls[..k])
      requires Available(was, calls)
      modifies if fd < MAX_FDS then {table[fd]} else {}
      ensures Valid()
      ensures forall x | 0 <= x < MAX_FDS :: State(x) == Taken(x, was[x], calls[..k + 1])
    {
      forall x | 0 <= x < MAX_FDS
        ensures Taken(x, was[x], calls[..k + 1]) == if x == fd then Reused(State(x)) else State(x)
        ensures x == fd ==> !State(x).sk.open
      {
        TakenNext(x, was[x], calls, k);
      }
      var accepted := Accept(fd);
    }

    /** The loop's call number k: whether it goes on. */
    method AcceptStep(ghost was: seq<Conn>, answers: seq<Listener.Answer>, k: nat) returns (more: bool)
      requires Valid() && GoesOn(answers, k) && |was| == MAX_FDS && Available(was, Listener.LoopCalls(answers))
      requires forall x | 0 <= x < MAX_FDS :: State(x) == Taken(x, was[x], Listener.LoopCalls(answers)[..k])
      modifies set i | 0 <= i < table.Length :: table[i]
      ensures Valid() && if more then GoesOn(answers, k + 1) else k + 1 == |Listener.LoopCalls(answers)|
      ensures k < |Listener.LoopCalls(answers)|
      ensures forall x | 0 <= x < MAX_FDS :: State(x) == Taken(x, was[x], Listener.LoopCalls(answers)[..k + 1])
    {
      var a := if k < |answers| then answers[k] else Listener.Empty;
      CallAt(answers, k);
      more := a.Got?;
      if more {
        AcceptNext(was, Listener.LoopCalls(answers), k, a.fd);
      } else {
        TakenLast(was, Listener.LoopCalls(answers), k);
      }
    }

    /** The loop, from entries as they were. */
    method AcceptLoop(ghost was: seq<Conn>, answers: seq<Listener.Answer>) returns (calls: nat)
      requires Valid() && was == Entries() && Available(was, Listener.LoopCalls(answers))
      modifies set i | 0 <= i < table.Length :: table[i]
      ensures Valid() && calls == |Listener.LoopCalls(answers)|
      ensures forall fd | 0 <= fd < MAX_FDS ::
                State(fd) == Taken(fd, was[fd], Listener.LoopCalls(answers)[..calls])
    {
      calls := 0;
      var more := true;
      while more
        invariant Valid() && calls <= |Listener.LoopCalls(answers)|
        invariant if more then GoesOn(answers, calls) else calls == |Listener.LoopCalls(answers)|
        invariant forall fd | 0 <= fd < MAX_FDS ::
                    State(fd) == Taken(fd, was[fd], Listener.LoopCalls(answers)[..calls])
        decreases |Listener.LoopCalls(answers)| - calls, more
      {
        more := AcceptStep(was, answers, calls);
        calls := calls + 1;
      }
    }

    /** The accept loop: one accept after another, until an answer that is no connection. */
    method AcceptAll(answers: seq<Listener.Answer>) returns (calls: nat)
      requires Valid() && forall fd | 0 <= fd < MAX_FDS :: Possible(fd, State(fd), Accepts(answers))
      modifies set i | 0 <= i < table.Length :: table[i]
      ensures Valid() && calls == |Listener.LoopCalls(answers)|
      ensures forall fd | 0 <= fd < MAX_FDS ::
                State(fd) == After(m, fd, old(State(fd)), Accepts(answers))
    {
      ghost var was := Entries();
      assert Available(was, Listener.LoopCalls(answers)) by {
        forall fd | 0 <= fd < MAX_FDS
          ensures Once(fd, Listener.LoopCalls(answers)) && (Admitted(fd, answers) ==> !was[fd].sk.open)
        {
          assert Possible(fd, State(fd), Accepts(answers));
        }
      }
      calls := AcceptLoop(was, answers);
      assert Listener.LoopCalls(answers)[..calls] == Listener.LoopCalls(answers);
    }

    /** Bytes arrive: the kernel's part. */
    method Deliver(fd: nat, data: Bytes)
      requires Valid() && fd < MAX_FDS
      modifies table[fd]
      ensures Valid() && State(fd) == old(State(fd)).(sk := old(State(fd)).sk.Deliver(data))
      ensures forall other | 0 <= other < MAX_FDS && other != fd :: State(other) == old(State(other))
    {
      table[fd].sk := table[fd].sk.Deliver(data);
    }

    /** One client event touches its own connection and no other. */
    method Dispatch(fd: nat, out: bool, in_: bool, rets: seq<Ret>)
      requires Valid() && fd < MAX_FDS && State(fd).sk.open
      modifies table[fd], table[fd].wbuf
      ensures Valid()
      ensures State(fd) == Handle(m, old(State(fd)).Begin(out, in_), rets)
      ensures forall other | 0 <= other < MAX_FDS && other != fd :: State(other) == old(State(other))
    {
      table[fd].HandleEvent(m, out, in_, rets);
    }

    method TakeTurn(t: Turn)
      requires Valid() && InTable(t) && forall fd | 0 <= fd < MAX_FDS :: Possible(fd, State(fd), t)
      modifies set i | 0 <= i < table.Length :: table[i]
      modifies set i | 0 <= i < table.Length :: table[i].wbuf
      ensures Valid() && forall fd | 0 <= fd < MAX_FDS :: State(fd) == After(m, fd, old(State(fd)), t)
    {
      match t
      case Arrives(fd, data) =>
        Deliver(fd, data);
      case Accepts(answers) =>
        var calls := AcceptAll(answers);
      case Reports(fd, out, in_, rets) =>
        Dispatch(fd, out && table[fd].interest.InOut?, in_, rets);
    }
  }

  /** The server from its start: however long it goes on, every entry of the table is what its own
      turns make of an entry that starts unused, and no other entry has any part in it. */
  method Drive(m: Mode, turns: seq<Turn>) returns (s: Server)
    requires forall t | t in turns :: InTable(t)
    requires forall fd | 0 <= fd < MAX_FDS :: AllPossible(m, fd, Unused(), turns)
    ensures fresh(s) && s.m == m && s.Valid()
    ensures forall fd | 0 <= fd < MAX_FDS :: s.State(fd) == AfterAll(m, fd, Unused(), turns)
  {
    s := new Server(m);
    ghost var table := s.table;
    for k := 0 to |turns|
      invariant s.m == m && s.table == table && s.Valid()
      invariant forall i | 0 <= i < MAX_FDS :: fresh(s.table[i]) && fresh(s.table[i].wbuf)
      invariant forall fd | 0 <= fd < MAX_FDS :: AllPossible(m, fd, s.State(fd), turns[k..])
      invariant forall fd | 0 <= fd < MAX_FDS ::
                  AfterAll(m, fd, s.State(fd), turns[k..]) == AfterAll(m, fd, Unused(), turns)
    {
      assert turns[k..][0] == turns[k] && turns[k..][1..] == turns[k + 1..];
      s.TakeTurn(turns[k]);
    }
  }
}
