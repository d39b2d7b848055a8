/** Which structures server_uring.c holds, and for which descriptors, told from the completions it has
    processed: an accept makes one, at the address malloc gives, and only a result of nothing or an
    error of its own operation frees it. */
module UringConns {
  import opened Kernel
  import opened UringServer

  /** A completion with the address that malloc would give. */
  datatype Done = Done(c: Cqe, address: nat)

  function Seen(w: World, m: Move): seq<Done>
    requires Enabled(w, m)
  {
    if m.Process? then [Done(w.cq[0], m.address)] else []
  }

  /** The completions that a run processes, in order. */
  ghost function Processed(w: World, moves: seq<Move>): seq<Done>
    requires Possible(w, moves)
    decreases |moves|
  {
    if moves == [] then [] else Seen(w, moves[0]) + Processed(Next(w, moves[0]), moves[1..])
  }

  predicate Makes(d: Done, id: nat, fd: int) {
    d.c.op.Accept? && d.address == id && d.c.res == fd && fd >= 0
  }

  predicate Ends(d: Done, id: nat) {
    if d.c.op.Accept? then d.address == id && d.c.res >= 0 else d.c.op.id == id && d.c.res <= 0
  }

  /** The structure was made for the descriptor, and neither freed nor made again since. */
  ghost predicate Holds(log: seq<Done>, id: nat, fd: int) {
    exists i | 0 <= i < |log| :: Makes(log[i], id, fd) && NoneEnds(log[i + 1..], id)
  }

  ghost predicate NoneEnds(log: seq<Done>, id: nat) {
    forall j | 0 <= j < |log| :: !Ends(log[j], id)
  }

  lemma NoneEndsAppend(log: seq<Done>, d: Done, id: nat)
    ensures NoneEnds(log + [d], id) <==> NoneEnds(log, id) && !Ends(d, id)
  {
    var all := log + [d];
    assert all[|log|] == d && forall j | 0 <= j < |log| :: all[j] == log[j];
  }

  lemma HoldsAppend(log: seq<Done>, d: Done, id: nat, fd: int)
    ensures Holds(log + [d], id, fd) <==> Makes(d, id, fd) || (Holds(log, id, fd) && !Ends(d, id))
  {
    var all := log + [d];
    if Makes(d, id, fd) {
      assert all[|log|] == d && NoneEnds(all[|log| + 1..], id);
    }
    forall i | 0 <= i < |log|
      ensures NoneEnds(all[i + 1..], id) <==> NoneEnds(log[i + 1..], id) && !Ends(d, id)
      ensures all[i] == log[i]
    {
      assert all[i + 1..] == log[i + 1..] + [d];
      NoneEndsAppend(log[i + 1..], d, id);
    }
  }

  ghost predicate Has(u: User, id: nat, fd: int) {
    id in u.conns && u.conns[id].fd == fd
  }

  lemma HandleHasIff(u: User, c: Cqe, address: nat, id: nat, fd: int)
    requires IsFree(u, address)
    ensures Has(Handle(u, c, address), id, fd) <==>
            Makes(Done(c, address), id, fd) || (Has(u, id, fd) && !Ends(Done(c, address), id))
  {
  }

  /** The heap and the completions processed agree. */
  ghost predicate Agrees(u: User, log: seq<Done>) {
    forall id: nat, fd: int :: Has(u, id, fd) <==> Holds(log, id, fd)
  }

  lemma NextAgrees(w: World, m: Move, log: seq<Done>)
    requires Enabled(w, m) && Agrees(w.u, log)
    ensures Agrees(Next(w, m).u, log + Seen(w, m))
  {
    if m.Process? {
      ProcessNext(w, m.address);
      var d := Done(w.cq[0], m.address);
      forall id: nat, fd: int ensures Has(Next(w, m).u, id, fd) <==> Holds(log + [d], id, fd) {
        HandleHasIff(w.u, w.cq[0], m.address, id, fd);
        HoldsAppend(log, d, id, fd);
      }
    } else {
      assert log + [] == log;
      assert forall id: nat, fd: int :: Has(Next(w, m).u, id, fd) <==> Has(w.u, id, fd);
    }
  }

  lemma {:induction false} RunAgrees(w: World, moves: seq<Move>, log: seq<Done>)
    requires Possible(w, moves) && Agrees(w.u, log)
    ensures Agrees(Run(w, moves).u, log + Processed(w, moves))
    decreases |moves|
  {
    if moves == [] {
      assert log + [] == log;
    } else {
      NextAgrees(w, moves[0], log);
      RunAgrees(Next(w, moves[0]), moves[1..], log + Seen(w, moves[0]));
      assert log + Processed(w, moves) == (log + Seen(w, moves[0])) + Processed(Next(w, moves[0]), moves[1..]);
    }
  }

  /** From the start, over every run: a structure is live for a descriptor if and only if some processed
      accept returned that descriptor and made it there, and no completion since has freed it. */
  lemma LiveIff(moves: seq<Move>, id: nat, fd: int)
    requires Possible(Start(), moves)
    ensures Has(Run(Start(), moves).u, id, fd) <==> Holds(Processed(Start(), moves), id, fd)
  {
    RunAgrees(Start(), moves, []);
    assert [] + Processed(Start(), moves) == Processed(Start(), moves);
  }

  /** So whatever is in flight for a connection is for the descriptor that its own accept returned. */
  lemma InFlightOnOwn(moves: seq<Move>, op: Op)
    requires Possible(Start(), moves)
    requires var w := Run(Start(), moves); op in InFlight(w.u, w.cq) && op.Io?
    ensures var w := Run(Start(), moves);
      op.id in w.u.conns && Holds(Processed(Start(), moves), op.id, w.u.conns[op.id].fd)
  {
    OneOperationEach(moves);
    LiveIff(moves, op.id, Run(Start(), moves).u.conns[op.id].fd);
  }
}
