/** The edge-triggered server against the kernel's edge notifications (epoll_et_server.c).

    An edge is reported once. Bytes may arrive, and send space may open, between any two
    system calls of the handler. The proof shows that stopping at a short read never leaves
    bytes behind without a further edge, and that a pending remainder never waits for an edge
    that has already gone by. End of stream is different, as the last part shows. */
module NoLostEdge {
  import opened Kernel
  import opened BufferedEcho

  /** A connection, the free space of its send queue, whether the peer has finished sending,
      and the edges raised and not yet reported. */
  datatype World = World(c: Conn, space: nat, fin: bool, edgeIn: bool, edgeOut: bool)

  datatype Change =
    | Arrives(data: Bytes)
    | Finishes
    | SpaceOpens(n: nat)
    | Spurious(in_: bool, out: bool)
    | Report(in_: bool, out: bool)
    | Answers(r: Ret)

  function Start(space: nat): World {
    World(Accepted(), space, false, false, false)
  }

  predicate Readable(w: World) {
    w.c.sk.rq != [] || w.fin
  }

  /** EPOLL_CTL_MOD is called when the remainder is out and when a new one is buffered. */
  predicate CallsMod(c: Conn, r: Ret)
    requires c.Valid()
  {
    || (c.pc.Flushing? && r.N? && c.wlen - c.woffset <= r.n)
    || (c.pc.Echoing? && !r.Err? && EchoCount(c, r) < |c.pc.data|)
  }

  /** What the kernel may do. A read takes as much as the queue and the buffer allow, so that a
      short read empties the queue; it reports end of stream, or EAGAIN, only on an empty queue.
      A write takes no more than the free space, and reports EAGAIN only without space. An event
      carries every raised edge of the registered interest. */
  predicate Enabled(w: World, e: Change)
    requires w.c.Valid()
  {
    match e
    case Report(in_, out) =>
      && (w.edgeIn ==> in_)
      && (w.edgeOut && w.c.interest.InOut? ==> out)
      && (out ==> w.c.interest.InOut?)
    case Answers(r) => (
      match w.c.pc
      case Idle => true
      case Flushing(_) => && (r.N? ==> Min(r.n, w.c.wlen - w.c.woffset) <= w.space)
                          && (r.Again? ==> w.space == 0)
      case Echoing(_) => EchoCount(w.c, r) <= w.space && (r.Again? ==> w.space == 0)
      case Reading =>
        && (r.Again? ==> !Readable(w))
        && (r.N? ==>
              && w.c.sk.ReadCount(BUF_SIZE, r.n) == Min(BUF_SIZE, |w.c.sk.rq|)
              && (w.c.sk.rq == [] ==> w.fin))
    )
    case _ => true
  }

  function Next(w: World, e: Change): (w': World)
    requires w.c.Valid() && Enabled(w, e)
    ensures w'.c.Valid()
  {
    match e
    case Arrives(data) => w.(c := w.c.(sk := w.c.sk.Deliver(data)), edgeIn := w.edgeIn || data != [])
    case Finishes => w.(fin := true, edgeIn := true)
    case SpaceOpens(n) => w.(space := w.space + n, edgeOut := w.edgeOut || (n > 0 && w.c.interest.InOut?))
    case Spurious(in_, out) => w.(edgeIn := w.edgeIn || in_, edgeOut := w.edgeOut || out)
    case Report(in_, out) =>
      if w.c.pc.Idle? then w.(c := w.c.Begin(out, in_), edgeIn := false, edgeOut := false) else w
    case Answers(r) =>
      var c' := Step(Edge, w.c, r);
      var space' := w.space - |Emitted(w.c.sk, c'.sk)|;
      // EPOLL_CTL_MOD polls the descriptor again and raises what is ready.
      var mod := CallsMod(w.c, r);
      World(c', space', w.fin,
            w.edgeIn || (mod && (c'.sk.rq != [] || w.fin)),
            w.edgeOut || (mod && c'.interest.InOut? && space' > 0))
  }

  /** A run of the world in which the kernel keeps its contract. */
  ghost predicate Possible(w: World, changes: seq<Change>)
    requires w.c.Valid()
    decreases |changes|
  {
    changes != [] ==> Enabled(w, changes[0]) && Possible(Next(w, changes[0]), changes[1..])
  }

  function Run(w: World, changes: seq<Change>): (w': World)
    requires w.c.Valid() && Possible(w, changes)
    ensures w'.c.Valid()
    decreases |changes|
  {
    if changes == [] then w else Run(Next(w, changes[0]), changes[1..])
  }

  /** The handler is going to read again before it returns. */
  predicate WillRead(c: Conn) {
    match c.pc
    case Idle => false
    case Flushing(thenRead) => thenRead
    case Reading => true
    case Echoing(data) => |data| == BUF_SIZE
  }

  /** No edge is lost: queued bytes have an edge coming or a read coming, and a pending
      remainder with space to go has an edge coming or is being written. */
  ghost predicate NoneLost(w: World)
    requires w.c.Valid()
  {
    w.c.sk.open ==>
      && MaskAgrees(w.c)
      && (w.c.sk.rq != [] ==> w.edgeIn || WillRead(w.c))
      && (w.c.Held() && w.space > 0 ==> w.edgeOut || w.c.pc.Flushing?)
  }

  lemma AnswerKeepsEdges(w: World, r: Ret)
    requires w.c.Valid() && NoneLost(w) && Enabled(w, Answers(r))
    ensures NoneLost(Next(w, Answers(r)))
  {
    var c' := Step(Edge, w.c, r);
    NextMaskAgrees(Edge, w.c, Call(r));
    match w.c.pc
    case Idle =>
    case Flushing(_) =>
    case Reading =>
      if r.N? && c'.sk.open {
        assert |c'.sk.rq| == |w.c.sk.rq| - |c'.pc.data|;
      }
    case Echoing(_) =>
  }

  lemma NextKeepsEdges(w: World, e: Change)
    requires w.c.Valid() && NoneLost(w) && Enabled(w, e)
    ensures NoneLost(Next(w, e))
  {
    if e.Answers? {
      AnswerKeepsEdges(w, e.r);
    }
  }

  lemma {:induction false} RunKeepsEdges(w: World, changes: seq<Change>)
    requires w.c.Valid() && Possible(w, changes) && NoneLost(w)
    ensures NoneLost(Run(w, changes))
    decreases |changes|
  {
    if changes != [] {
      NextKeepsEdges(w, changes[0]);
      RunKeepsEdges(Next(w, changes[0]), changes[1..]);
    }
  }

  /** A call is answered with an error, or a read meets the end of the stream. */
  predicate Ends(w: World, e: Change) {
    e.Answers? && !w.c.pc.Idle? &&
      (e.r.Err? || (w.c.pc.Reading? && e.r.N? && w.fin && w.c.sk.rq == []))
  }

  ghost predicate NeverEnds(w: World, changes: seq<Change>)
    requires w.c.Valid() && Possible(w, changes)
    decreases |changes|
  {
    changes != [] ==> !Ends(w, changes[0]) && NeverEnds(Next(w, changes[0]), changes[1..])
  }

  lemma NextOpenIff(w: World, e: Change)
    requires w.c.Valid() && Enabled(w, e)
    ensures Next(w, e).c.sk.open <==> w.c.sk.open && !Ends(w, e)
  {
    if e.Answers? {
      StepOpenIff(Edge, w.c, e.r);
    }
  }

  /** In every run that the kernel may give, the connection is open at the end if and only if no call
      was answered with an error and no read met the end of the stream with the queue empty. */
  lemma {:induction false} RunOpenUnlessEnded(w: World, changes: seq<Change>)
    requires w.c.Valid() && Possible(w, changes)
    ensures Run(w, changes).c.sk.open <==> w.c.sk.open && NeverEnds(w, changes)
    decreases |changes|
  {
    if changes != [] {
      NextOpenIff(w, changes[0]);
      RunOpenUnlessEnded(Next(w, changes[0]), changes[1..]);
    }
  }

  /** Where no call failed and no end of stream was met, whenever the server waits with no edge raised, every byte that
      arrived has been read, and a pending remainder has no space to be written to. */
  lemma QuiescentIsDrained(space: nat, changes: seq<Change>)
    requires Possible(Start(space), changes) && NeverEnds(Start(space), changes)
    ensures var w := Run(Start(space), changes);
      && w.c.sk.open
      && (w.c.pc.Idle? && !w.edgeIn && !w.edgeOut ==>
            w.c.sk.rq == [] && (w.c.Pending() == [] || w.space == 0))
  {
    RunOpenUnlessEnded(Start(space), changes);
    RunKeepsEdges(Start(space), changes);
  }

  // ---------------------------------------------------------------- end of stream

  /** The answer to the next write of the handler. */
  function WriteAnswer(writes: seq<Ret>): Ret {
    if writes == [] then Again else writes[0]
  }

  /** The handler on a queue with the end of stream behind it, to which therefore nothing more can be
      added. Each read takes what the queue and the buffer allow; the writes are answered as given,
      and with EAGAIN from there on. */
  function DrainToEnd(c: Conn, writes: seq<Ret>): (c': Conn)
    requires c.Valid() && c.pc.Reading?
    ensures c'.Valid()
    decreases |c.sk.rq|
  {
    if c.sk.rq == [] then Step(Edge, c, N(0))
    else
      var d := Step(Edge, Step(Edge, c, N(BUF_SIZE)), WriteAnswer(writes));
      if d.pc.Reading? then DrainToEnd(d, if writes == [] then [] else writes[1..]) else d
  }

  /** One read and its write, however much of it is taken. */
  lemma RoundFacts(c: Conn, e: Conn, d: Conn, r: Ret)
    requires c.Valid() && c.pc.Reading? && c.sk.rq != [] && !r.Err?
    requires e == Step(Edge, c, N(BUF_SIZE)) && d == Step(Edge, e, r)
    ensures |d.sk.rq| == |c.sk.rq| - Min(BUF_SIZE, |c.sk.rq|) && d.sk.open == c.sk.open
    ensures d.pc == if |c.sk.rq| >= BUF_SIZE then Reading else Idle
    ensures |c.sk.rq| >= BUF_SIZE ==> |d.sk.rq| % BUF_SIZE == |c.sk.rq| % BUF_SIZE
    ensures |c.sk.rq| < BUF_SIZE ==> |c.sk.rq| % BUF_SIZE != 0
  {
  }

  /** The short-read shortcut sees an end of stream that is already queued if and only if the
      queue is a whole number of buffers; otherwise it stops before the read that reports it.
      Writes that stop short or find no room make no difference. */
  lemma {:induction false} EndSeenIff(c: Conn, writes: seq<Ret>)
    requires c.Valid() && c.pc.Reading? && forall r | r in writes :: !r.Err?
    ensures !DrainToEnd(c, writes).sk.open <==> |c.sk.rq| % BUF_SIZE == 0
    decreases |c.sk.rq|
  {
    if c.sk.rq != [] {
      var e := Step(Edge, c, N(BUF_SIZE));
      var d := Step(Edge, e, WriteAnswer(writes));
      var rest := if writes == [] then [] else writes[1..];
      RoundFacts(c, e, d, WriteAnswer(writes));
      if d.pc.Reading? {
        EndSeenIff(d, rest);
        assert DrainToEnd(c, writes) == DrainToEnd(d, rest);
      } else {
        assert DrainToEnd(c, writes) == d;
      }
    }
  }

  /** So QuiescentIsDrained does not extend to end of stream: one byte and the end of stream
      that arrive together leave the server waiting, with the end of stream never seen. */
  lemma EndCanBeMissed(b: byte)
    ensures var changes := [Arrives([b]), Finishes, Report(true, false),
                            Answers(N(BUF_SIZE)), Answers(N(BUF_SIZE))];
      && Possible(Start(1), changes)
      && var w := Run(Start(1), changes);
         w.fin && w.c.sk.open && w.c.pc.Idle? && !w.edgeIn && !w.edgeOut
  {
    var w0 := Start(1);
    var w1 := Next(w0, Arrives([b]));
    assert w1.c.sk.rq == [b];
    var w2 := Next(w1, Finishes);
    var w3 := Next(w2, Report(true, false));
    assert w3.c.pc == Reading && w3.c.sk.rq == [b];
    var w4 := Next(w3, Answers(N(BUF_SIZE)));
    assert w4.c.pc == Echoing([b]);
    var w5 := Next(w4, Answers(N(BUF_SIZE)));
    var last := Answers(N(BUF_SIZE));
    RunCons(w4, last, []);
    RunCons(w3, last, [last] + []);
    RunCons(w2, Report(true, false), [last] + ([last] + []));
    RunCons(w1, Finishes, [Report(true, false)] + ([last] + ([last] + [])));
    RunCons(w0, Arrives([b]), [Finishes] + ([Report(true, false)] + ([last] + ([last] + []))));
    assert [Arrives([b]), Finishes, Report(true, false), last, last]
        == [Arrives([b])] + ([Finishes] + ([Report(true, false)] + ([last] + ([last] + []))));
  }

  lemma RunCons(w: World, e: Change, rest: seq<Change>)
    requires w.c.Valid() && Enabled(w, e) && Possible(Next(w, e), rest)
    ensures Possible(w, [e] + rest) && Run(w, [e] + rest) == Run(Next(w, e), rest)
  {
    assert ([e] + rest)[1..] == rest;
  }
}
