/** server_select.c: one pass over the descriptor set. The bound of the scan, max_fd, rises
    when a connection is accepted and falls when the highest one is closed, in the middle of
    the scan that it bounds. */
module SelectServer {
  import opened Kernel
  import opened EchoLoop

  const FD_SETSIZE: nat := 1024

  // ---------------------------------------------------------------- specification

  ghost predicate IsMax(m: int, s: set<int>) {
    m in s && forall x | x in s :: x <= m
  }

  /** Between passes: the master set is the listener and the open clients, all below FD_SETSIZE,
      and max_fd is exactly its maximum. */
  ghost predicate Inv(master: set<int>, maxFd: int, net: Net, listen: int) {
    && master == OpenSet(net) + {listen}
    && listen !in net
    && (forall fd | fd in master :: 0 <= fd < FD_SETSIZE)
    && IsMax(maxFd, master)
    && (forall fd | fd in net :: net[fd].pc.Idle?)
  }

  /** The highest member of a set that has one at or below m. */
  function HighestFrom(s: set<int>, m: nat): nat {
    if m in s || m == 0 then m else HighestFrom(s, m - 1)
  }

  lemma {:induction false} HighestIsMax(s: set<int>, m: nat, low: int)
    requires low in s && forall x | x in s :: 0 <= x <= m
    ensures IsMax(HighestFrom(s, m), s)
  {
    if m !in s {
      HighestIsMax(s, m - 1, low);
    }
  }

  /** A scan in progress. */
  datatype View = View(master: set<int>, maxFd: int, net: Net, served: seq<int>)

  /** One accepted descriptor: refused if select cannot watch it. */
  function Admit1(v: View, a: int): View {
    if a >= FD_SETSIZE then v
    else v.(master := v.master + {a}, maxFd := if a > v.maxFd then a else v.maxFd,
            net := v.net[a := Accepted()])
  }

  function Admit(v: View, acc: seq<int>): View {
    if acc == [] then v else Admit1(Admit(v, acc[..|acc| - 1]), acc[|acc| - 1])
  }

  /** The scan's treatment of descriptor i. */
  function VisitFd(v: View, ready: set<int>, i: nat, listen: int, io: int -> seq<Ret>, acc: seq<int>): View {
    if i !in ready then v
    else if i == listen then Admit(v, acc)
    else if i !in v.net || !v.net[i].Valid() then v
    else
      var c := Serve(OneRead, v.net[i].Begin(), io(i));
      var w := v.(net := v.net[i := c], served := v.served + [i]);
      if c.sk.open then w
      else
        var master := v.master - {i};
        w.(master := master, maxFd := if i == v.maxFd then HighestFrom(master, i) else v.maxFd)
  }

  function ScanTo(v0: View, ready: set<int>, listen: int, io: int -> seq<Ret>, acc: seq<int>, i: nat): View {
    if i == 0 then v0 else VisitFd(ScanTo(v0, ready, listen, io, acc, i - 1), ready, i - 1, listen, io, acc)
  }

  /** The ready clients below i, in ascending order, each once. */
  function ReadyBelow(ready: set<int>, listen: int, i: nat): seq<int> {
    if i == 0 then []
    else ReadyBelow(ready, listen, i - 1) + if i - 1 in ready && i - 1 != listen then [i - 1] else []
  }

  lemma {:induction false} ReadyBelowOnce(ready: set<int>, listen: int, i: nat)
    ensures var r := ReadyBelow(ready, listen, i);
      && (forall fd :: fd in r <==> 0 <= fd < i && fd in ready && fd != listen)
      && (forall j, k | 0 <= j < k < |r| :: r[j] < r[k])
  {
    if i > 0 {
      ReadyBelowOnce(ready, listen, i - 1);
      var init := ReadyBelow(ready, listen, i - 1);
      assert forall k | 0 <= k < |init| :: init[k] in init;
    }
  }

  /** Descriptors that accept may hand out when the scan reaches the listener: not open then,
      and each once. A descriptor closed earlier in the same scan may come back. */
  ghost predicate FreshFds(acc: seq<int>, v0: View, ready: set<int>, listen: int, io: int -> seq<Ret>)
    requires listen >= 0
  {
    && (forall a | a in acc :: a >= 0 && a !in ScanTo(v0, ready, listen, io, acc, listen).master)
    && (forall j, k | 0 <= j < k < |acc| :: acc[j] != acc[k])
  }

  /** What holds before descriptor i is looked at. */
  ghost predicate ScanFacts(v0: View, ready: set<int>, listen: int, io: int -> seq<Ret>, acc: seq<int>,
                            i: nat, v: View)
  {
    && Inv(v.master, v.maxFd, v.net, listen)
    && (forall fd | fd in ready && i <= fd ::
          fd in v.master && (fd != listen ==> fd in v0.net && v.net[fd] == v0.net[fd]))
    && v.served == v0.served + ReadyBelow(ready, listen, i)
  }

  lemma {:induction false} AdmitFacts(v: View, acc: seq<int>, listen: int)
    requires Inv(v.master, v.maxFd, v.net, listen) && forall a | a in acc :: a >= 0 && a !in v.master
    ensures var w := Admit(v, acc);
      && Inv(w.master, w.maxFd, w.net, listen) && w.served == v.served && v.master <= w.master
      && (forall fd | fd !in acc :: (fd in w.net <==> fd in v.net) && (fd in v.net ==> w.net[fd] == v.net[fd]))
  {
    if acc != [] {
      var init, a := acc[..|acc| - 1], acc[|acc| - 1];
      assert a in acc && listen in v.master;
      assert forall x | x in init :: x in acc;
      AdmitFacts(v, init, listen);
      AdmitOneFacts(Admit(v, init), a, listen);
    }
  }

  /** Exactly the accepted descriptors that select can watch become new connections. */
  lemma {:induction false} AdmitNet(v: View, acc: seq<int>)
    ensures var w := Admit(v, acc);
      && (forall a | a in acc && a < FD_SETSIZE :: a in w.net && w.net[a] == Accepted())
      && (forall fd | fd in v.net && !(fd in acc && fd < FD_SETSIZE) :: fd in w.net && w.net[fd] == v.net[fd])
  {
    if acc != [] {
      var init, a := acc[..|acc| - 1], acc[|acc| - 1];
      assert forall x :: x in acc <==> x in init || x == a;
      AdmitNet(v, init);
    }
  }

  lemma AdmitOneFacts(v: View, a: int, listen: int)
    requires Inv(v.master, v.maxFd, v.net, listen) && a >= 0 && a != listen
    ensures var w := Admit1(v, a); Inv(w.master, w.maxFd, w.net, listen)
  {
    var w := Admit1(v, a);
    if a < FD_SETSIZE {
      assert OpenSet(w.net) == OpenSet(v.net) + {a};
    }
  }

  lemma VisitListener(v0: View, ready: set<int>, listen: int, io: int -> seq<Ret>, acc: seq<int>, v: View)
    requires listen >= 0 && listen in ready && FreshFds(acc, v0, ready, listen, io)
    requires v == ScanTo(v0, ready, listen, io, acc, listen)
    requires ScanFacts(v0, ready, listen, io, acc, listen, v)
    ensures ScanFacts(v0, ready, listen, io, acc, listen + 1, VisitFd(v, ready, listen, listen, io, acc))
  {
    AdmitFacts(v, acc, listen);
  }

  lemma VisitClient(v0: View, ready: set<int>, listen: int, io: int -> seq<Ret>, acc: seq<int>, i: nat, v: View)
    requires i in ready && i != listen && ScanFacts(v0, ready, listen, io, acc, i, v)
    ensures ScanFacts(v0, ready, listen, io, acc, i + 1, VisitFd(v, ready, i, listen, io, acc))
  {
    assert i in OpenSet(v.net);
    ServeIdle(v.net[i].Begin(), io(i));
    var w := VisitFd(v, ready, i, listen, io, acc);
    if w.net[i].sk.open {
      assert OpenSet(w.net) == OpenSet(v.net);
    } else {
      assert OpenSet(w.net) == OpenSet(v.net) - {i};
      assert w.master == OpenSet(w.net) + {listen};
      if i == v.maxFd {
        HighestIsMax(w.master, i, listen);
      }
    }
  }

  lemma FactsSkip(v0: View, ready: set<int>, listen: int, io: int -> seq<Ret>, acc: seq<int>, i: nat, v: View)
    requires i !in ready && ScanFacts(v0, ready, listen, io, acc, i, v)
    ensures ScanFacts(v0, ready, listen, io, acc, i + 1, v)
  {
    assert ReadyBelow(ready, listen, i + 1) == ReadyBelow(ready, listen, i);
  }

  /** Whatever the order of closes and accepts, the scan keeps the invariant and visits the
      ready descriptors in order, as they were when select returned. */
  lemma {:induction false} ScanToFacts(v0: View, ready: set<int>, listen: int, io: int -> seq<Ret>,
                                       acc: seq<int>, i: nat)
    requires Inv(v0.master, v0.maxFd, v0.net, listen) && ready <= v0.master
    requires FreshFds(acc, v0, ready, listen, io)
    ensures ScanFacts(v0, ready, listen, io, acc, i, ScanTo(v0, ready, listen, io, acc, i))
  {
    if i == 0 {
      assert forall fd | fd in ready && fd != listen :: fd in OpenSet(v0.net);
    } else {
      ScanToFacts(v0, ready, listen, io, acc, i - 1);
      FactsVisit(v0, ready, listen, io, acc, i - 1, ScanTo(v0, ready, listen, io, acc, i - 1));
    }
  }

  lemma FactsVisit(v0: View, ready: set<int>, listen: int, io: int -> seq<Ret>, acc: seq<int>, i: nat, v: View)
    requires listen >= 0 && FreshFds(acc, v0, ready, listen, io)
    requires v == ScanTo(v0, ready, listen, io, acc, i) && ScanFacts(v0, ready, listen, io, acc, i, v)
    ensures ScanFacts(v0, ready, listen, io, acc, i + 1, VisitFd(v, ready, i, listen, io, acc))
  {
    if i !in ready {
      FactsSkip(v0, ready, listen, io, acc, i, v);
    } else if i == listen {
      VisitListener(v0, ready, listen, io, acc, v);
    } else {
      VisitClient(v0, ready, listen, io, acc, i, v);
    }
  }

  /** Above max_fd there is nothing left to visit, so that stopping there loses nothing even
      though max_fd moved during the scan. */
  lemma {:induction false} NothingAbove(v0: View, ready: set<int>, listen: int, io: int -> seq<Ret>,
                                        acc: seq<int>, i: nat, n: nat)
    requires Inv(v0.master, v0.maxFd, v0.net, listen) && ready <= v0.master
    requires FreshFds(acc, v0, ready, listen, io)
    requires i <= n && ScanTo(v0, ready, listen, io, acc, i).maxFd < i
    ensures ScanTo(v0, ready, listen, io, acc, n) == ScanTo(v0, ready, listen, io, acc, i)
    decreases n
  {
    if i < n {
      NothingAbove(v0, ready, listen, io, acc, i, n - 1);
      ScanToFacts(v0, ready, listen, io, acc, i);
    }
  }

  /** How each connection leaves the scan. */
  ghost predicate NetFacts(v0: View, ready: set<int>, listen: int, io: int -> seq<Ret>, acc: seq<int>,
                           i: nat, v: View)
  {
    var took := if listen in ready && listen < i then acc else [];
    && (forall a | a in took && a < FD_SETSIZE :: a in v.net && v.net[a] == Accepted())
    && (forall fd | fd in v0.net && !(fd in took && fd < FD_SETSIZE) :: fd in v.net &&
          v.net[fd] == if 0 <= fd < i && fd in ready && v0.net[fd].Valid()
                       then Serve(OneRead, v0.net[fd].Begin(), io(fd)) else v0.net[fd])
  }

  /** Each ready client is served once, from the state it had before the pass; what is accepted
      during the scan is not touched by it; every other connection is as it was. */
  lemma {:induction false} ScanNet(v0: View, ready: set<int>, listen: int, io: int -> seq<Ret>,
                                   acc: seq<int>, i: nat)
    requires Inv(v0.master, v0.maxFd, v0.net, listen) && ready <= v0.master
    requires FreshFds(acc, v0, ready, listen, io)
    ensures NetFacts(v0, ready, listen, io, acc, i, ScanTo(v0, ready, listen, io, acc, i))
  {
    if i > 0 {
      ScanNet(v0, ready, listen, io, acc, i - 1);
      NetVisit(v0, ready, listen, io, acc, i - 1, ScanTo(v0, ready, listen, io, acc, i - 1));
    }
  }

  lemma NetVisit(v0: View, ready: set<int>, listen: int, io: int -> seq<Ret>, acc: seq<int>, i: nat, v: View)
    requires Inv(v0.master, v0.maxFd, v0.net, listen) && ready <= v0.master
    requires FreshFds(acc, v0, ready, listen, io)
    requires v == ScanTo(v0, ready, listen, io, acc, i) && NetFacts(v0, ready, listen, io, acc, i, v)
    ensures NetFacts(v0, ready, listen, io, acc, i + 1, VisitFd(v, ready, i, listen, io, acc))
  {
    if i !in ready {
      NetSkip(v0, ready, listen, io, acc, i, v);
    } else if i == listen {
      NetAfterListener(v0, ready, listen, io, acc, v);
    } else {
      AcceptedStayUnvisited(v0, ready, listen, io, acc, i);
      NetAfterClient(v0, ready, listen, io, acc, i, v);
    }
  }

  lemma NetAfterListener(v0: View, ready: set<int>, listen: int, io: int -> seq<Ret>, acc: seq<int>, v: View)
    requires listen >= 0 && listen in ready && listen !in v0.net
    requires NetFacts(v0, ready, listen, io, acc, listen, v)
    ensures NetFacts(v0, ready, listen, io, acc, listen + 1, VisitFd(v, ready, listen, listen, io, acc))
  {
    AdmitNet(v, acc);
  }

  lemma NetSkip(v0: View, ready: set<int>, listen: int, io: int -> seq<Ret>, acc: seq<int>, i: nat, v: View)
    requires i !in ready && NetFacts(v0, ready, listen, io, acc, i, v)
    ensures NetFacts(v0, ready, listen, io, acc, i + 1, v)
  {
  }

  lemma NetAfterClient(v0: View, ready: set<int>, listen: int, io: int -> seq<Ret>, acc: seq<int>, i: nat, v: View)
    requires i in ready && i != listen && (listen in ready && listen < i ==> i !in acc)
    requires i in v0.net && i in v.net && v.net[i] == v0.net[i] && v0.net[i].Valid()
    requires NetFacts(v0, ready, listen, io, acc, i, v)
    ensures NetFacts(v0, ready, listen, io, acc, i + 1, VisitFd(v, ready, i, listen, io, acc))
  {
    var w := VisitFd(v, ready, i, listen, io, acc);
    assert w.net == v.net[i := Serve(OneRead, v0.net[i].Begin(), io(i))];
  }

  /** A ready client not visited yet is as select found it, and is not a descriptor accepted
      in this scan. */
  lemma AcceptedStayUnvisited(v0: View, ready: set<int>, listen: int, io: int -> seq<Ret>, acc: seq<int>, i: nat)
    requires Inv(v0.master, v0.maxFd, v0.net, listen) && ready <= v0.master
    requires FreshFds(acc, v0, ready, listen, io) && i in ready && i != listen
    ensures listen < i ==> i !in acc
    ensures var v := ScanTo(v0, ready, listen, io, acc, i);
      i in v0.net && i in v.net && v.net[i] == v0.net[i] && v0.net[i].Valid()
  {
    ScanToFacts(v0, ready, listen, io, acc, i);
    assert i in OpenSet(v0.net);
    if listen < i {
      ScanToFacts(v0, ready, listen, io, acc, listen);
    }
  }

  // ---------------------------------------------------------------- the program

  class Server {
    const master_set: array<bool>
    var max_fd: int
    const listen_fd: int
    var net: Net
    var served: seq<int>

    ghost function Master(): set<int>
      reads master_set
    {
      set fd | 0 <= fd < master_set.Length && master_set[fd]
    }

    ghost function Seen(): View
      reads this, master_set
    {
      View(Master(), max_fd, net, served)
    }

    ghost predicate Valid()
      reads this, master_set
    {
      master_set.Length == FD_SETSIZE && Inv(Master(), max_fd, net, listen_fd)
    }

    constructor (listen_fd: int)
      requires 0 <= listen_fd < FD_SETSIZE
      ensures Valid() && fresh(master_set) && this.listen_fd == listen_fd && Master() == {listen_fd}
    {
      this.listen_fd := listen_fd;
      master_set := new bool[FD_SETSIZE](fd => fd == listen_fd);
      max_fd, net, served := listen_fd, map[], [];
      new;
      assert Master() == {listen_fd};
      assert OpenSet(net) == {};
    }

    /** FD_SET or FD_CLR. */
    method SetBit(fd: int, on: bool)
      requires 0 <= fd < master_set.Length
      modifies master_set
      ensures Master() == if on then old(Master()) + {fd} else old(Master()) - {fd}
    {
      master_set[fd] := on;
    }

    /** The accept loop. */
    method AcceptAll(acc: seq<int>)
      requires master_set.Length == FD_SETSIZE && forall a | a in acc :: a >= 0
      modifies `max_fd, `net, master_set
      ensures Seen() == Admit(old(Seen()), acc)
    {
      ghost var v0 := Seen();
      assert acc[..0] == [];
      for k := 0 to |acc|
        invariant Seen() == Admit(v0, acc[..k])
      {
        var client_fd := acc[k];
        assert client_fd in acc;
        assert acc[..k + 1][..k] == acc[..k] && acc[..k + 1][k] == client_fd;
        if client_fd >= FD_SETSIZE {
          continue;
        }
        SetBit(client_fd, true);
        if client_fd > max_fd {
          max_fd := client_fd;
        }
        net := net[client_fd := Accepted()];
      }
      assert acc[..|acc|] == acc;
    }

    /** Closes a client: its bit is cleared, and max_fd walks down if it was the highest. */
    method CloseClient(i: nat)
      requires i < master_set.Length
      modifies `max_fd, master_set
      ensures Master() == old(Master()) - {i}
      ensures max_fd == if i == old(max_fd) then HighestFrom(Master(), i) else old(max_fd)
    {
      SetBit(i, false);
      if i == max_fd {
        ghost var master := Master();
        while max_fd > 0 && !master_set[max_fd]
          invariant 0 <= max_fd <= i && Master() == master
          invariant HighestFrom(master, i) == HighestFrom(master, max_fd)
        {
          assert max_fd !in master;
          max_fd := max_fd - 1;
        }
      }
    }

    /** The client branch up to its end. */
    method ServeClient(i: nat, rets: seq<Ret>) returns (closed: bool)
      requires i in net && net[i].sk.open && net[i].pc.Idle?
      modifies `net, `served
      ensures net == old(net)[i := Serve(OneRead, old(net)[i].Begin(), rets)]
      ensures served == old(served) + [i] && closed == !net[i].sk.open
    {
      var c := ServeOnce(net[i], rets);
      net := net[i := c];
      served := served + [i];
      closed := !c.sk.open;
    }

    /** The scan's treatment of one descriptor. */
    method Visit(i: nat, isSet: bool, io: int -> seq<Ret>, acc: seq<int>, ghost ready: set<int>)
      requires master_set.Length == FD_SETSIZE && i < FD_SETSIZE && isSet == (i in ready)
      requires listen_fd in Master() && forall a | a in acc :: a >= 0
      requires IsMax(max_fd, Master()) && (forall fd | fd in Master() :: fd >= 0)
      requires isSet && i != listen_fd ==> i in net && net[i].sk.open && net[i].pc.Idle?
      modifies this, master_set
      ensures Seen() == VisitFd(old(Seen()), ready, i, listen_fd, io, acc)
    {
      if !isSet {
        return;
      }
      if i == listen_fd {
        AcceptAll(acc);
      } else {
        var closed := ServeClient(i, io(i));
        if closed {
          CloseClient(i);
        }
      }
    }

    /** One pass after select has returned with the bits of readfds. */
    method Pass(readfds: seq<bool>, io: int -> seq<Ret>, acc: seq<int>, ghost v0: View, ghost ready: set<int>)
      requires Valid() && v0 == Seen() && |readfds| == FD_SETSIZE && (forall a | a in acc :: a >= 0)
      requires ready == (set fd | 0 <= fd < FD_SETSIZE && readfds[fd]) && ready <= Master()
      requires FreshFds(acc, v0, ready, listen_fd, io)
      modifies this, master_set
      ensures Valid()
      ensures Seen() == ScanTo(v0, ready, listen_fd, io, acc, FD_SETSIZE)
      ensures served == v0.served + ReadyBelow(ready, listen_fd, FD_SETSIZE)
      ensures OpenSet(net) == OpenAfter(v0, ready, listen_fd, io, acc)
      ensures forall fd | fd in OpenSet(v0.net) && !(listen_fd in ready && fd in acc) :: fd in net &&
                if fd in ready then Outcome(v0.net[fd], io(fd), net[fd]) else net[fd] == v0.net[fd]
    {
      var i := 0;
      ScanToFacts(v0, ready, listen_fd, io, acc, 0);
      while i <= max_fd
        invariant i <= FD_SETSIZE && Valid()
        invariant Seen() == ScanTo(v0, ready, listen_fd, io, acc, i)
        decreases FD_SETSIZE - i
      {
        SlotReady(v0, ready, listen_fd, io, acc, i);
        Visit(i, readfds[i], io, acc, ready);
        i := i + 1;
        ScanToFacts(v0, ready, listen_fd, io, acc, i);
      }
      NothingAbove(v0, ready, listen_fd, io, acc, i, FD_SETSIZE);
      ScanToFacts(v0, ready, listen_fd, io, acc, FD_SETSIZE);
      PassOutcome(v0, ready, listen_fd, io, acc);
    }
  }

  // ---------------------------------------------------------------- who is open after a pass

  /** What the pass accepts: nothing if the listener is not ready, and no descriptor that select cannot
      watch. */
  ghost function Admitted(ready: set<int>, listen: int, acc: seq<int>): set<int> {
    if listen in ready then set a | a in acc && a < FD_SETSIZE else {}
  }

  /** The open clients: those before and those accepted, less those served whose answers close them. */
  ghost function OpenAfter(v0: View, ready: set<int>, listen: int, io: int -> seq<Ret>, acc: seq<int>): set<int> {
    (OpenSet(v0.net) - Lost(ReadyBelow(ready, listen, FD_SETSIZE), v0.net, io)) + Admitted(ready, listen, acc)
  }

  lemma {:induction false} AdmitKeys(v: View, acc: seq<int>)
    ensures forall fd | fd in Admit(v, acc).net :: fd in v.net || (fd in acc && fd < FD_SETSIZE)
  {
    if acc != [] {
      var init := acc[..|acc| - 1];
      assert forall x | x in init :: x in acc;
      AdmitKeys(v, init);
    }
  }

  /** No other connections come into being. */
  lemma {:induction false} ScanKeys(v0: View, ready: set<int>, listen: int, io: int -> seq<Ret>, acc: seq<int>, i: nat)
    ensures forall fd | fd in ScanTo(v0, ready, listen, io, acc, i).net ::
              fd in v0.net || fd in Admitted(ready, listen, acc)
  {
    if i > 0 {
      ScanKeys(v0, ready, listen, io, acc, i - 1);
      AdmitKeys(ScanTo(v0, ready, listen, io, acc, i - 1), acc);
    }
  }

  lemma PassOne(v0: View, ready: set<int>, listen: int, io: int -> seq<Ret>, acc: seq<int>, fd: int)
    requires Inv(v0.master, v0.maxFd, v0.net, listen) && ready <= v0.master
    requires FreshFds(acc, v0, ready, listen, io) && fd in OpenSet(v0.net)
    ensures var net := ScanTo(v0, ready, listen, io, acc, FD_SETSIZE).net;
      fd in net && if fd in Admitted(ready, listen, acc) then net[fd] == Accepted()
                   else if fd in ready then Outcome(v0.net[fd], io(fd), net[fd]) else net[fd] == v0.net[fd]
  {
    ScanNet(v0, ready, listen, io, acc, FD_SETSIZE);
    ServeOutcome(v0.net[fd], io(fd));
    assert fd in v0.master;
  }

  /** A descriptor that is accepted was not open when the pass began, or was served and closed. */
  lemma PassOutcome(v0: View, ready: set<int>, listen: int, io: int -> seq<Ret>, acc: seq<int>)
    requires Inv(v0.master, v0.maxFd, v0.net, listen) && ready <= v0.master
    requires FreshFds(acc, v0, ready, listen, io)
    ensures var net := ScanTo(v0, ready, listen, io, acc, FD_SETSIZE).net;
      && OpenSet(net) == OpenAfter(v0, ready, listen, io, acc)
      && forall fd | fd in OpenSet(v0.net) && !(listen in ready && fd in acc) :: fd in net &&
           if fd in ready then Outcome(v0.net[fd], io(fd), net[fd]) else net[fd] == v0.net[fd]
  {
    var net := ScanTo(v0, ready, listen, io, acc, FD_SETSIZE).net;
    ScanKeys(v0, ready, listen, io, acc, FD_SETSIZE);
    ScanNet(v0, ready, listen, io, acc, FD_SETSIZE);
    ReadyBelowOnce(ready, listen, FD_SETSIZE);
    forall fd | fd in OpenSet(v0.net)
      ensures fd in net && if fd in Admitted(ready, listen, acc) then net[fd] == Accepted()
                           else if fd in ready then Outcome(v0.net[fd], io(fd), net[fd]) else net[fd] == v0.net[fd]
    {
      PassOne(v0, ready, listen, io, acc, fd);
    }
  }

  lemma SlotReady(v0: View, ready: set<int>, listen: int, io: int -> seq<Ret>, acc: seq<int>, i: nat)
    requires Inv(v0.master, v0.maxFd, v0.net, listen) && ready <= v0.master
    requires FreshFds(acc, v0, ready, listen, io)
    ensures var v := ScanTo(v0, ready, listen, io, acc, i);
      && v.maxFd < FD_SETSIZE
      && (i in ready && i != listen ==> i in v.net && v.net[i].sk.open && v.net[i].pc.Idle?)
  {
    ScanToFacts(v0, ready, listen, io, acc, i);
    var v := ScanTo(v0, ready, listen, io, acc, i);
    if i in ready && i != listen {
      assert i in OpenSet(v.net);
    }
  }

  // ---------------------------------------------------------------- runs

  /** What the kernel decides for one turn of the main loop. */
  datatype Turn = Turn(arrived: map<int, Bytes>, ready: set<int>, io: int -> seq<Ret>, acc: seq<int>)

  function Before(v: View, t: Turn): View {
    v.(net := Arrive(v.net, t.arrived))
  }

  ghost function AfterTurn(v: View, listen: int, t: Turn): View {
    ScanTo(Before(v, t), t.ready, listen, t.io, t.acc, FD_SETSIZE)
  }

  ghost predicate Legal(v: View, listen: nat, turns: seq<Turn>)
    decreases |turns|
  {
    |turns| > 0 ==>
      && turns[0].ready <= v.master && FreshFds(turns[0].acc, Before(v, turns[0]), turns[0].ready, listen, turns[0].io)
      && Legal(AfterTurn(v, listen, turns[0]), listen, turns[1..])
  }

  ghost function RunTurns(v: View, listen: nat, turns: seq<Turn>): View
    requires Legal(v, listen, turns)
    decreases |turns|
  {
    if |turns| == 0 then v else RunTurns(AfterTurn(v, listen, turns[0]), listen, turns[1..])
  }

  lemma {:induction false} AdmitEchoes(v: View, acc: seq<int>)
    requires AllEcho(v.net)
    ensures AllEcho(Admit(v, acc).net)
  {
    if acc != [] {
      AdmitEchoes(v, acc[..|acc| - 1]);
    }
  }

  lemma {:induction false} ScanEchoes(v0: View, ready: set<int>, listen: int, io: int -> seq<Ret>,
                                      acc: seq<int>, i: nat)
    requires AllEcho(v0.net)
    ensures AllEcho(ScanTo(v0, ready, listen, io, acc, i).net)
  {
    if i > 0 {
      ScanEchoes(v0, ready, listen, io, acc, i - 1);
      var v := ScanTo(v0, ready, listen, io, acc, i - 1);
      AdmitEchoes(v, acc);
      if i - 1 in v.net {
        ServedEchoes(v.net[i - 1], io(i - 1));
      }
    }
  }

  /** Over every run of the server: max_fd is exactly the maximum of the master set, which is the
      listener and the open clients, and every connection has echoed exactly what it consumed. */
  lemma {:induction false} RunKeeps(v: View, listen: nat, turns: seq<Turn>)
    requires Inv(v.master, v.maxFd, v.net, listen) && AllEcho(v.net) && Legal(v, listen, turns)
    ensures var w := RunTurns(v, listen, turns); Inv(w.master, w.maxFd, w.net, listen) && AllEcho(w.net)
    decreases |turns|
  {
    if |turns| > 0 {
      var t, b := turns[0], Before(v, turns[0]);
      assert OpenSet(b.net) == OpenSet(v.net);
      ScanToFacts(b, t.ready, listen, t.io, t.acc, FD_SETSIZE);
      ScanEchoes(b, t.ready, listen, t.io, t.acc, FD_SETSIZE);
      RunKeeps(AfterTurn(v, listen, t), listen, turns[1..]);
    }
  }
}
