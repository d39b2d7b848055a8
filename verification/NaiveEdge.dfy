/** server_epoll.c: the edge-triggered server that reads until EAGAIN and writes everything
    before it reads again. Unlike the short-read server it needs no assumption about how much
    one read returns, and it never misses an end of stream. */
module NaiveEdge {
  import opened Kernel
  import opened EchoLoop

  /** The read loop of the event handler. */
  method HandleClient(c0: Conn, rets: seq<Ret>) returns (c: Conn)
    requires c0.sk.open && c0.pc.Idle?
    ensures c == Serve(DrainAll, c0.Begin(), rets)
  {
    c := c0;
    var i := 0;
    var draining, disconnect := true, false;
    assert rets[0..] == rets;
    ghost var goal := Serve(DrainAll, c0.Begin(), rets);
    while draining && !disconnect
      invariant c.sk.open && c.pc.Idle? && i <= |rets|
      invariant goal == if disconnect then c.Close()
                        else Serve(DrainAll, if draining then c.Begin() else c, rets[i..])
      decreases |rets| - i, draining, !disconnect
    {
      var r := Reply(rets, i);
      ServeUnfolds(DrainAll, c.Begin(), rets, i);
      var bytesRead := if r.N? then c.sk.ReadCount(BUF_SIZE, r.n) else 0;
      if bytesRead == 0 {
        if r.Again? {
          draining := false;
          i := i + 1;
        } else {
          disconnect := true;
        }
      } else {
        var buf := c.sk.rq[..bytesRead];
        var sk, totalWritten;
        sk, totalWritten, i := WriteAll(DrainAll, c.sk.AfterRead(bytesRead), buf, rets, i + 1);
        c := Conn(sk, Idle);
        if totalWritten < bytesRead {
          disconnect := true;
        }
      }
    }
    if disconnect {
      c := c.Close();
    }
  }

  // ---------------------------------------------------------------- edges

  /** A connection, everything that ever arrived for it, whether the peer has finished, and the
      read edge raised and not yet reported. */
  datatype World = World(c: Conn, arrived: Bytes, fin: bool, edge: bool)

  datatype Change = Arrives(data: Bytes) | Finishes | Spurious | Report | Answers(r: Ret)

  function Start(): World {
    World(Accepted(), [], false, false)
  }

  predicate Readable(w: World) {
    w.c.sk.rq != [] || w.fin
  }

  /** A read may return any part of the queue; it reports end of stream only when the peer has
      finished and the queue is empty, and EAGAIN only when there is nothing to report. */
  predicate Enabled(w: World, e: Change) {
    e.Answers? && w.c.pc.Reading? ==>
      && (e.r.Again? ==> !Readable(w))
      && (e.r.N? && w.c.sk.ReadCount(BUF_SIZE, e.r.n) == 0 ==> w.fin && w.c.sk.rq == [])
  }

  function Next(w: World, e: Change): (w': World)
    requires w.c.Valid()
    ensures w'.c.Valid()
  {
    match e
    case Arrives(data) =>
      World(w.c.(sk := w.c.sk.Deliver(data)), w.arrived + data, w.fin, w.edge || data != [])
    case Finishes => w.(fin := true, edge := true)
    case Spurious => w.(edge := true)
    case Report => if w.c.pc.Idle? then w.(c := w.c.Begin(), edge := false) else w
    case Answers(r) => w.(c := Step(DrainAll, w.c, r))
  }

  function Run(w: World, changes: seq<Change>): (w': World)
    requires w.c.Valid()
    ensures w'.c.Valid()
    decreases |changes|
  {
    if changes == [] then w else Run(Next(w, changes[0]), changes[1..])
  }

  ghost predicate Possible(w: World, changes: seq<Change>)
    requires w.c.Valid()
    decreases |changes|
  {
    changes != [] ==> Enabled(w, changes[0]) && Possible(Next(w, changes[0]), changes[1..])
  }

  ghost predicate Inv(w: World)
    requires w.c.Valid()
  {
    && Echoes(w.c)
    && w.c.sk.taken + w.c.sk.rq == w.arrived
    && (w.c.sk.open && Readable(w) ==> w.edge || !w.c.pc.Idle?)
  }

  lemma NextInv(w: World, e: Change)
    requires w.c.Valid() && Inv(w) && Enabled(w, e)
    ensures Inv(Next(w, e))
  {
    match e
    case Arrives(data) =>
      assert w.c.sk.taken + (w.c.sk.rq + data) == w.arrived + data;
    case Answers(r) =>
      StepEchoes(DrainAll, w.c, r);
      if w.c.pc.Reading? && r.N? {
        ReadKeepsStream(w.c.sk, w.c.sk.ReadCount(BUF_SIZE, r.n));
      }
    case _ =>
  }

  lemma {:induction false} RunInv(w: World, changes: seq<Change>)
    requires w.c.Valid() && Inv(w) && Possible(w, changes)
    ensures Inv(Run(w, changes))
    decreases |changes|
  {
    if changes != [] {
      NextInv(w, changes[0]);
      RunInv(Next(w, changes[0]), changes[1..]);
    }
  }

  /** A call is answered with an error, or a read meets the end of the stream. */
  predicate Ends(w: World, e: Change) {
    e.Answers? && !w.c.pc.Idle? &&
      (e.r.Err? || (w.c.pc.Reading? && e.r.N? && w.fin && w.c.sk.rq == []))
  }

  ghost predicate NeverEnds(w: World, changes: seq<Change>)
    requires w.c.Valid()
    decreases |changes|
  {
    changes != [] ==> !Ends(w, changes[0]) && NeverEnds(Next(w, changes[0]), changes[1..])
  }

  lemma NextOpenIff(w: World, e: Change)
    requires w.c.Valid() && Enabled(w, e) && (!w.c.sk.open ==> w.c.pc.Idle?)
    ensures var w' := Next(w, e);
      && (w'.c.sk.open <==> w.c.sk.open && !Ends(w, e))
      && (!w'.c.sk.open ==> w'.c.pc.Idle?)
  {
    if e.Answers? && w.c.sk.open {
      StepOpenIff(DrainAll, w.c, e.r);
    }
  }

  /** In every run that the kernel may give, the connection is open at the end if and only if no call
      was answered with an error and no read met the end of the stream with the queue empty. In
      particular the EAGAIN that ends every drain leaves it open. */
  lemma {:induction false} RunOpenIff(w: World, changes: seq<Change>)
    requires w.c.Valid() && Possible(w, changes) && (!w.c.sk.open ==> w.c.pc.Idle?)
    ensures Run(w, changes).c.sk.open <==> w.c.sk.open && NeverEnds(w, changes)
    decreases |changes|
  {
    if changes != [] {
      NextOpenIff(w, changes[0]);
      RunOpenIff(Next(w, changes[0]), changes[1..]);
    }
  }

  /** The answers that a handler uses up, each as a move of the world. */
  function AnswersOf(c: Conn, rets: seq<Ret>): seq<Change>
    requires c.Valid()
    decreases |rets|
  {
    if c.pc.Idle? then []
    else if rets == [] then [Answers(Err)]
    else [Answers(rets[0])] + AnswersOf(Step(DrainAll, c, rets[0]), rets[1..])
  }

  /** A whole handler is a part of a run. */
  lemma {:induction false} ServeIsRun(w: World, rets: seq<Ret>)
    requires w.c.Valid()
    ensures Run(w, AnswersOf(w.c, rets)) == w.(c := Serve(DrainAll, w.c, rets))
    decreases |rets|
  {
    if !w.c.pc.Idle? {
      if rets == [] {
        assert [Answers(Err)][1..] == [];
        assert Run(Next(w, Answers(Err)), []) == Next(w, Answers(Err));
      } else {
        var d := Step(DrainAll, w.c, rets[0]);
        assert ([Answers(rets[0])] + AnswersOf(d, rets[1..]))[1..] == AnswersOf(d, rets[1..]);
        ServeIsRun(w.(c := d), rets[1..]);
      }
    }
  }

  /** Where no call failed and no end of stream was met, whenever the server waits with no edge raised
      it has echoed everything that ever arrived, and the peer has not finished. */
  lemma QuiescentHasEchoedAll(changes: seq<Change>)
    requires Possible(Start(), changes) && NeverEnds(Start(), changes)
    ensures var w := Run(Start(), changes);
      w.c.sk.open && (w.c.pc.Idle? && !w.edge ==> w.c.sk.out == w.arrived && !w.fin)
  {
    RunInv(Start(), changes);
    RunOpenIff(Start(), changes);
  }
}
