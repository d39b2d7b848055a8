/** server_poll.c: one pass over the pollfd array, which grows while it is scanned, has
    entries knocked out of it, and is compacted in place at the end. */
module PollServer {
  import opened Kernel
  import opened EchoLoop

  const INITIAL_POLL_CAP: nat := 1024

  /** POLLIN, POLLERR or POLLHUP make a client readable; other bits are reported but ignored. */
  datatype Revents = Quiet | Readable | OtherBits

  datatype PollFd = PollFd(fd: int, revents: Revents)

  // ---------------------------------------------------------------- specification

  /** The order-preserving filter of entries still in use. */
  function Keep(s: seq<PollFd>): seq<PollFd> {
    if s == [] then []
    else (if s[0].fd == -1 then [] else [s[0]]) + Keep(s[1..])
  }

  lemma {:induction false} KeepConcat(a: seq<PollFd>, b: seq<PollFd>)
    ensures Keep(a + b) == Keep(a) + Keep(b)
  {
    if a == [] {
      assert a + b == b;
    } else {
      assert (a + b)[0] == a[0] && (a + b)[1..] == a[1..] + b;
      KeepConcat(a[1..], b);
    }
  }

  lemma {:induction false} KeepAll(s: seq<PollFd>)
    requires forall k | 0 <= k < |s| :: s[k].fd != -1
    ensures Keep(s) == s
  {
    if s != [] {
      KeepAll(s[1..]);
    }
  }

  /** Dropping one unused entry does not change what the filter keeps. */
  lemma KeepWithout(s: seq<PollFd>, i: nat)
    requires i < |s| && s[i].fd == -1
    ensures Keep(s[..i] + s[i + 1..]) == Keep(s)
  {
    assert s == s[..i] + ([s[i]] + s[i + 1..]);
    KeepConcat(s[..i], [s[i]] + s[i + 1..]);
    KeepConcat([s[i]], s[i + 1..]);
    KeepConcat(s[..i], s[i + 1..]);
  }

  /** The descriptors of some entries. */
  ghost function FdSet(s: seq<PollFd>): set<int> {
    set k | 0 <= k < |s| :: s[k].fd
  }

  ghost predicate Distinct(s: seq<PollFd>) {
    forall j, k | 0 <= j < k < |s| :: s[j].fd != s[k].fd
  }

  lemma FdSetConcat(a: seq<PollFd>, b: seq<PollFd>)
    ensures FdSet(a + b) == FdSet(a) + FdSet(b)
  {
    forall fd | fd in FdSet(a) + FdSet(b)
      ensures fd in FdSet(a + b)
    {
      if fd in FdSet(a) {
        var k :| 0 <= k < |a| && a[k].fd == fd;
        assert (a + b)[k].fd == fd;
      } else {
        var k :| 0 <= k < |b| && b[k].fd == fd;
        assert (a + b)[|a| + k].fd == fd;
      }
    }
  }

  lemma DistinctConcat(a: seq<PollFd>, b: seq<PollFd>)
    requires Distinct(a) && Distinct(b) && FdSet(a) !! FdSet(b)
    ensures Distinct(a + b)
  {
    forall j, k | 0 <= j < k < |a + b|
      ensures (a + b)[j].fd != (a + b)[k].fd
    {
      if j < |a| <= k {
        assert a[j].fd in FdSet(a) && b[k - |a|].fd in FdSet(b);
      }
    }
  }

  /** How a connection leaves the pass: served if its entry was readable. */
  function After(e: PollFd, net: Net, io: int -> seq<Ret>): Conn
    requires e.fd in net && net[e.fd].Valid()
  {
    if e.revents.Readable? then Serve(OneRead, net[e.fd].Begin(), io(e.fd)) else net[e.fd]
  }

  /** An entry whose connection was closed is knocked out. */
  function Mark(e: PollFd, net: Net, io: int -> seq<Ret>): PollFd
    requires e.fd in net && net[e.fd].Valid()
  {
    if After(e, net, io).sk.open then e else e.(fd := -1)
  }

  /** Between passes: slot 0 is the listener, the other slots are exactly the open clients, and
      no descriptor appears twice. */
  ghost predicate Inv(es: seq<PollFd>, net: Net, listen: int) {
    && |es| >= 1 && es[0].fd == listen && listen >= 0 && listen !in net
    && FdSet(es[1..]) == OpenSet(net)
    && Distinct(es[1..])
    && (forall fd | fd in net :: fd >= 0 && net[fd].pc.Idle?)
  }

  lemma InvAt(es: seq<PollFd>, net: Net, listen: int)
    requires Inv(es, net, listen)
    ensures Known(es[1..], net)
    ensures forall k | 1 <= k < |es| :: es[k].fd in net && es[k].fd in OpenSet(net)
  {
    forall k | 1 <= k < |es|
      ensures es[k].fd in OpenSet(net)
    {
      assert es[1..][k - 1].fd in FdSet(es[1..]);
    }
  }

  /** Descriptors that accept may hand out: new ones, each once. */
  ghost predicate FreshFds(acc: seq<int>, net: Net, listen: int) {
    && (forall a | a in acc :: a >= 0 && a != listen && a !in OpenSet(net))
    && (forall j, k | 0 <= j < k < |acc| :: acc[j] != acc[k])
  }

  /** Every entry stands for a known connection. */
  ghost predicate Known(es: seq<PollFd>, net: Net) {
    forall k | 0 <= k < |es| :: es[k].fd in net && net[es[k].fd].Valid()
  }

  ghost function MarkAll(es: seq<PollFd>, net: Net, io: int -> seq<Ret>): (r: seq<PollFd>)
    requires Known(es, net)
    ensures |r| == |es| && forall k | 0 <= k < |es| :: r[k] == Mark(es[k], net, io)
  {
    if es == [] then [] else [Mark(es[0], net, io)] + MarkAll(es[1..], net, io)
  }

  function Opened(acc: seq<int>): (r: seq<PollFd>)
    ensures |r| == |acc| && forall k | 0 <= k < |acc| :: r[k] == PollFd(acc[k], Quiet)
  {
    seq(|acc|, k requires 0 <= k < |acc| => PollFd(acc[k], Quiet))
  }

  /** What a pass accepts: nothing if the listener was not reported. */
  function Taken(es: seq<PollFd>, acc: seq<int>): seq<int>
    requires |es| >= 1
  {
    if es[0].revents.Quiet? then [] else acc
  }

  /** The descriptors of the clients that were reported readable, in array order. */
  function Ready(es: seq<PollFd>): seq<int> {
    if es == [] then []
    else (if es[0].revents.Readable? then [es[0].fd] else []) + Ready(es[1..])
  }

  lemma {:induction false} ReadyConcat(a: seq<PollFd>, b: seq<PollFd>)
    ensures Ready(a + b) == Ready(a) + Ready(b)
  {
    if a == [] {
      assert a + b == b;
    } else {
      var ab, rest := a + b, a[1..] + b;
      assert ab[0] == a[0] && ab[1..] == rest;
      ReadyConcat(a[1..], b);
      var head := if a[0].revents.Readable? then [a[0].fd] else [];
      assert Ready(a) == head + Ready(a[1..]) && Ready(ab) == head + Ready(rest);
    }
  }

  /** The array after a pass. */
  ghost function PassEntries(es: seq<PollFd>, net: Net, io: int -> seq<Ret>, acc: seq<int>): seq<PollFd>
    requires |es| >= 1 && Known(es[1..], net)
  {
    [es[0]] + Keep(MarkAll(es[1..], net, io)) + Opened(Taken(es, acc))
  }

  /** The connections after a pass. */
  ghost predicate PassNet(es: seq<PollFd>, net: Net, io: int -> seq<Ret>, acc: seq<int>, net': Net)
    requires |es| >= 1 && Known(es[1..], net)
  {
    && net'.Keys == net.Keys + (set a | a in Taken(es, acc))
    && (forall a | a in Taken(es, acc) :: net'[a] == Accepted())
    && Served(es[1..], net, io, net')
    && (forall fd | fd in net && fd !in Taken(es, acc) && fd !in FdSet(es[1..]) :: net'[fd] == net[fd])
  }

  ghost predicate Served(es: seq<PollFd>, net: Net, io: int -> seq<Ret>, net': Net)
    requires Known(es, net)
  {
    forall k | 0 <= k < |es| :: es[k].fd in net' && net'[es[k].fd] == After(es[k], net, io)
  }

  /** Accepted connections join the net. */
  function Admit(net: Net, acc: seq<int>): (r: Net)
    ensures r.Keys == net.Keys + (set a | a in acc)
    ensures forall fd | fd in r :: r[fd] == if fd in acc then Accepted() else net[fd]
  {
    map fd | fd in net.Keys + (set a | a in acc) :: if fd in acc then Accepted() else net[fd]
  }

  lemma AdmitOne(net: Net, acc: seq<int>, k: nat)
    requires k < |acc|
    ensures Admit(net, acc[..k + 1]) == Admit(net, acc[..k])[acc[k] := Accepted()]
    ensures Opened(acc[..k + 1]) == Opened(acc[..k]) + [PollFd(acc[k], Quiet)]
  {
    assert acc[..k + 1] == acc[..k] + [acc[k]];
  }

  // ---------------------------------------------------------------- the scan

  /** The state of a scan before entry i: earlier entries are marked, later ones untouched,
      and the accepted ones are appended once the listener's slot is passed. */
  ghost predicate Scanned(es: seq<PollFd>, net0: Net, io: int -> seq<Ret>, took: seq<int>,
                          i: nat, now: seq<PollFd>, net: Net)
  {
    var tk := if i == 0 then [] else took;
    && i <= |es| && |now| == |es| + |tk|
    && (|es| > 0 ==> Known(es[1..], net0))
    && (forall k | 1 <= k < |es| :: es[k].fd in net0 && net0[es[k].fd].Valid())
    && (forall k | 1 <= k < i :: now[k] == Mark(es[k], net0, io))
    && (forall k | i <= k < |es| || (k == 0 && |es| > 0) :: now[k] == es[k])
    && (forall k | |es| <= k < |now| :: now[k] == PollFd(tk[k - |es|], Quiet))
    && net.Keys == net0.Keys + (set a | a in tk)
    && (forall a | a in tk :: net[a] == Accepted())
    && (forall k | 1 <= k < |es| ::
          net[es[k].fd] == if k < i then After(es[k], net0, io) else net0[es[k].fd])
    && (forall fd | fd in net0 && fd !in tk && (|es| > 0 ==> fd !in FdSet(es[1..])) :: net[fd] == net0[fd])
  }

  /** No entry below slot i is knocked out. */
  ghost predicate NoneClosed(es: seq<PollFd>, net0: Net, io: int -> seq<Ret>, i: nat) {
    i <= |es| && forall k | 1 <= k < i :: es[k].fd in net0 && net0[es[k].fd].Valid() && Mark(es[k], net0, io) == es[k]
  }

  /** The clients reported readable below slot i. */
  function ReadyBefore(es: seq<PollFd>, i: nat): seq<int>
    requires i <= |es|
  {
    if i == 0 then [] else Ready(es[1..i])
  }

  lemma ReadyNext(es: seq<PollFd>, i: nat)
    requires i < |es|
    ensures ReadyBefore(es, i + 1) ==
            ReadyBefore(es, i) + if i > 0 && es[i].revents.Readable? then [es[i].fd] else []
  {
    if i > 0 {
      assert es[1..i + 1] == es[1..i] + [es[i]];
      ReadyConcat(es[1..i], [es[i]]);
    }
  }

  /** A scan in progress: the array and the connections as they are, the clients served so far,
      and whether an entry was knocked out. */
  datatype View = View(now: seq<PollFd>, net: Net, served: seq<int>, compress: bool)

  /** The scan's treatment of slot i. */
  function VisitSlot(v: View, i: nat, listen: int, io: int -> seq<Ret>, acc: seq<int>): View {
    if i >= |v.now| || v.now[i].revents.Quiet? then v
    else
      var fd := v.now[i].fd;
      if fd == listen then v.(now := v.now + Opened(acc), net := Admit(v.net, acc))
      else if v.now[i].revents.OtherBits? || fd !in v.net || !v.net[fd].Valid() then v
      else
        var c := Serve(OneRead, v.net[fd].Begin(), io(fd));
        View(if c.sk.open then v.now else v.now[i := v.now[i].(fd := -1)],
             v.net[fd := c], v.served + [fd], v.compress || !c.sk.open)
  }

  function ScanTo(es: seq<PollFd>, net0: Net, listen: int, io: int -> seq<Ret>, acc: seq<int>, i: nat): View {
    if i == 0 then View(es, net0, [], false)
    else VisitSlot(ScanTo(es, net0, listen, io, acc, i - 1), i - 1, listen, io, acc)
  }

  ghost predicate ScanFacts(es: seq<PollFd>, net0: Net, io: int -> seq<Ret>, acc: seq<int>, i: nat, v: View)
    requires 1 <= |es|
  {
    && Scanned(es, net0, io, Taken(es, acc), i, v.now, v.net)
    && v.served == ReadyBefore(es, i)
    && (!v.compress ==> NoneClosed(es, net0, io, i))
  }

  /** Every slot of the polled array is visited once, as it was polled; nothing appended is. */
  lemma {:induction false} ScanToFacts(es: seq<PollFd>, net0: Net, listen: int, io: int -> seq<Ret>,
                                       acc: seq<int>, i: nat)
    requires Inv(es, net0, listen) && FreshFds(acc, net0, listen) && i <= |es|
    ensures ScanFacts(es, net0, io, acc, i, ScanTo(es, net0, listen, io, acc, i))
  {
    InvAt(es, net0, listen);
    if i > 0 {
      ScanToFacts(es, net0, listen, io, acc, i - 1);
      var v := ScanTo(es, net0, listen, io, acc, i - 1);
      if i == 1 {
        VisitListener(es, net0, listen, io, acc, v);
      } else {
        VisitClient(es, net0, listen, io, acc, i - 1, v);
      }
    }
  }

  /** A slot not visited yet holds the listener or an open, idle client. */
  lemma SlotReady(es: seq<PollFd>, net0: Net, listen: int, io: int -> seq<Ret>, acc: seq<int>, i: nat)
    requires Inv(es, net0, listen) && FreshFds(acc, net0, listen) && i < |es|
    ensures var v := ScanTo(es, net0, listen, io, acc, i);
      && i < |v.now|
      && (v.now[i].fd != listen ==>
            v.now[i].fd in v.net && v.now[i].fd >= 0 && v.net[v.now[i].fd].sk.open && v.net[v.now[i].fd].pc.Idle?)
  {
    InvAt(es, net0, listen);
    ScanToFacts(es, net0, listen, io, acc, i);
  }

  lemma VisitListener(es: seq<PollFd>, net0: Net, listen: int, io: int -> seq<Ret>, acc: seq<int>, v: View)
    requires Inv(es, net0, listen) && FreshFds(acc, net0, listen) && v == View(es, net0, [], false)
    ensures ScanFacts(es, net0, io, acc, 1, VisitSlot(v, 0, listen, io, acc))
  {
    InvAt(es, net0, listen);
    ReadyNext(es, 0);
    assert forall k | 1 <= k < |es| :: es[k].fd !in acc;
  }

  lemma VisitClient(es: seq<PollFd>, net0: Net, listen: int, io: int -> seq<Ret>, acc: seq<int>,
                    i: nat, v: View)
    requires Inv(es, net0, listen) && FreshFds(acc, net0, listen) && 1 <= i < |es|
    requires ScanFacts(es, net0, io, acc, i, v)
    ensures ScanFacts(es, net0, io, acc, i + 1, VisitSlot(v, i, listen, io, acc))
  {
    InvAt(es, net0, listen);
    ReadyNext(es, i);
    assert es[1..][i - 1] == es[i];
    forall k | 1 <= k < |es| && k != i
      ensures es[k].fd != es[i].fd
    {
      assert es[1..][k - 1] == es[k];
    }
    VisitClientSlot(es, net0, listen, io, acc, i, v);
  }

  lemma VisitClientSlot(es: seq<PollFd>, net0: Net, listen: int, io: int -> seq<Ret>, acc: seq<int>,
                        i: nat, v: View)
    requires 1 <= i < |es| && ScanFacts(es, net0, io, acc, i, v)
    requires es[i].fd in OpenSet(net0) && es[i].fd != listen && es[i].fd !in Taken(es, acc)
    requires es[i].fd in FdSet(es[1..])
    requires forall k | 1 <= k < |es| && k != i :: es[k].fd != es[i].fd
    ensures var v' := VisitSlot(v, i, listen, io, acc);
      && Scanned(es, net0, io, Taken(es, acc), i + 1, v'.now, v'.net)
      && (!v'.compress ==> NoneClosed(es, net0, io, i + 1))
      && v'.served == v.served + if es[i].revents.Readable? then [es[i].fd] else []
  {
    assert v.now[i] == es[i] && v.net[es[i].fd] == net0[es[i].fd];
    var v' := VisitSlot(v, i, listen, io, acc);
    assert es[i].revents.Readable? ==> v'.net == v.net[es[i].fd := After(es[i], net0, io)];
    assert v'.now == v.now[i := Mark(es[i], net0, io)];
  }

  lemma ScanDone(es: seq<PollFd>, net0: Net, io: int -> seq<Ret>, acc: seq<int>,
                 now: seq<PollFd>, net: Net)
    requires |es| >= 1 && Scanned(es, net0, io, Taken(es, acc), |es|, now, net)
    ensures Known(es[1..], net0)
    ensures now == [es[0]] + MarkAll(es[1..], net0, io) + Opened(Taken(es, acc))
    ensures PassNet(es, net0, io, acc, net)
  {
    var took := Taken(es, acc);
    var r := [es[0]] + MarkAll(es[1..], net0, io) + Opened(took);
    forall k | 0 <= k < |now|
      ensures now[k] == r[k]
    {
    }
  }

  lemma ScanKeptAll(es: seq<PollFd>, net0: Net, io: int -> seq<Ret>, acc: seq<int>,
                    now: seq<PollFd>, net: Net, listen: int)
    requires Inv(es, net0, listen) && FreshFds(acc, net0, listen)
    requires Scanned(es, net0, io, Taken(es, acc), |es|, now, net) && NoneClosed(es, net0, io, |es|)
    ensures Keep(now) == now
  {
    InvAt(es, net0, listen);
    forall k | 0 <= k < |now|
      ensures now[k].fd != -1
    {
      if k < |es| {
        assert 1 <= k ==> es[k].fd in OpenSet(net0);
      } else {
        assert Taken(es, acc)[k - |es|] in acc;
      }
    }
    KeepAll(now);
  }

  lemma ShiftedOver(was: seq<PollFd>, now: seq<PollFd>, i: nat)
    requires i < |was| && |now| == |was| - 1
    requires forall k | 0 <= k < i :: now[k] == was[k]
    requires forall k | i <= k < |now| :: now[k] == was[k + 1]
    ensures now == was[..i] + was[i + 1..]
  {
    var r := was[..i] + was[i + 1..];
    assert |now| == |r| && forall k | 0 <= k < |now| :: now[k] == r[k];
  }

  // ---------------------------------------------------------------- the program

  class Server {
    var fds: array<PollFd>
    var nfds: nat
    var poll_cap: nat
    const listen_fd: int
    var net: Net

    ghost predicate Valid()
      reads this, fds
    {
      && fds.Length == poll_cap && 1 <= nfds <= poll_cap
      && Inv(fds[..nfds], net, listen_fd)
    }

    constructor (listen_fd: int)
      requires listen_fd >= 0
      ensures Valid() && fresh(fds) && nfds == 1 && poll_cap == INITIAL_POLL_CAP
      ensures this.listen_fd == listen_fd
    {
      this.listen_fd := listen_fd;
      fds := new PollFd[INITIAL_POLL_CAP](_ => PollFd(listen_fd, Quiet));
      nfds, poll_cap, net := 1, INITIAL_POLL_CAP, map[];
    }

    /** The accept loop: appends every connection, doubling the array when it is full. */
    method AcceptAll(acc: seq<int>)
      requires fds.Length == poll_cap && 1 <= nfds <= poll_cap
      modifies this, fds
      ensures fds.Length == poll_cap && (fds == old(fds) || fresh(fds))
      ensures nfds == old(nfds) + |acc| <= poll_cap
      ensures fds[..nfds] == old(fds[..nfds]) + Opened(acc)
      ensures net == Admit(old(net), acc)
    {
      ghost var start, net0 := fds[..nfds], net;
      assert acc[..0] == [] && start + Opened([]) == start;
      for k := 0 to |acc|
        invariant fds.Length == poll_cap && (fds == old(fds) || fresh(fds))
        invariant nfds == |start| + k && 1 <= nfds <= poll_cap
        invariant fds[..nfds] == start + Opened(acc[..k])
        invariant net == Admit(net0, acc[..k])
      {
        AcceptOne(acc[k]);
        AdmitOne(net0, acc, k);
      }
      assert acc[..|acc|] == acc;
    }

    /** One turn of the accept loop. */
    method AcceptOne(client_fd: int)
      requires fds.Length == poll_cap && 1 <= nfds <= poll_cap
      modifies this, fds
      ensures fds.Length == poll_cap && (fds == old(fds) || fresh(fds))
      ensures nfds == old(nfds) + 1 <= poll_cap
      ensures fds[..nfds] == old(fds[..nfds]) + [PollFd(client_fd, Quiet)]
      ensures net == old(net)[client_fd := Accepted()]
    {
      if nfds >= poll_cap {
        Grow();
      }
      AppendOne(client_fd);
    }

    /** Fills the first unused slot. */
    method AppendOne(client_fd: int)
      requires nfds < fds.Length
      modifies `nfds, `net, fds
      ensures nfds == old(nfds) + 1
      ensures fds[..nfds] == old(fds[..nfds]) + [PollFd(client_fd, Quiet)]
      ensures net == old(net)[client_fd := Accepted()]
    {
      fds[nfds] := PollFd(client_fd, Quiet);
      nfds := nfds + 1;
      net := net[client_fd := Accepted()];
    }

    /** realloc to twice the size. */
    method Grow()
      requires fds.Length == poll_cap && 1 <= nfds <= poll_cap
      modifies `fds, `poll_cap
      ensures fresh(fds) && fds.Length == poll_cap == 2 * old(poll_cap)
      ensures fds[..nfds] == old(fds[..nfds])
    {
      poll_cap := poll_cap * 2;
      var new_fds := new PollFd[poll_cap](_ => PollFd(-1, Quiet));
      forall k | 0 <= k < nfds {
        new_fds[k] := fds[k];
      }
      fds := new_fds;
    }

    /** The nested compaction: an unused entry is shifted over, and the entry that took its
        place is looked at next. */
    method Compact()
      requires nfds <= fds.Length
      modifies `nfds, fds
      ensures nfds <= old(nfds) && fds[..nfds] == Keep(old(fds[..nfds]))
    {
      var i: int := 0;
      while i < nfds
        invariant 0 <= i <= nfds <= old(nfds)
        invariant Keep(fds[..nfds]) == Keep(old(fds[..nfds]))
        invariant forall k | 0 <= k < i :: fds[k].fd != -1
        decreases nfds - i
      {
        if fds[i].fd == -1 {
          Remove(i);
          i := i - 1;
        }
        i := i + 1;
      }
      KeepAll(fds[..nfds]);
    }

    /** An unused entry is dropped; what is kept is the same. */
    method Remove(i: nat)
      requires i < nfds <= fds.Length && fds[i].fd == -1
      modifies `nfds, fds
      ensures nfds == old(nfds) - 1 && Keep(fds[..nfds]) == Keep(old(fds[..nfds]))
      ensures forall k | 0 <= k < i :: fds[k] == old(fds[k])
    {
      ghost var was := fds[..nfds];
      KeepWithout(was, i);
      ShiftOver(i);
      nfds := nfds - 1;
      assert forall k | 0 <= k < i :: fds[..nfds][k] == was[k];
    }

    /** The inner loop of the compaction. */
    method ShiftOver(i: nat)
      requires i < nfds <= fds.Length
      modifies fds
      ensures fds[..nfds - 1] == old(fds[..nfds])[..i] + old(fds[..nfds])[i + 1..]
    {
      ghost var was := fds[..nfds];
      var j := i;
      while j < nfds - 1
        invariant i <= j <= nfds - 1
        invariant forall k | 0 <= k < i || j <= k < nfds :: fds[k] == was[k]
        invariant forall k | i <= k < j :: fds[k] == was[k + 1]
      {
        fds[j] := fds[j + 1];
        j := j + 1;
      }
      ShiftedOver(was, fds[..nfds - 1], i);
    }

    /** Serves the client of one readable entry, knocking the entry out if it was closed. */
    method ServeEntry(i: nat, rets: seq<Ret>) returns (closed: bool)
      requires i < fds.Length && fds[i].fd in net && fds[i].fd >= 0
      requires net[fds[i].fd].sk.open && net[fds[i].fd].pc.Idle?
      modifies fds, `net
      ensures net == old(net)[old(fds[i].fd) := Serve(OneRead, old(net)[old(fds[i].fd)].Begin(), rets)]
      ensures closed == !net[old(fds[i].fd)].sk.open
      ensures fds[i] == if closed then old(fds[i]).(fd := -1) else old(fds[i])
      ensures forall k | 0 <= k < fds.Length && k != i :: fds[k] == old(fds[k])
    {
      var c := ServeOnce(net[fds[i].fd], rets);
      net := net[fds[i].fd := c];
      closed := !c.sk.open;
      if closed {
        fds[i] := fds[i].(fd := -1);
      }
    }

    ghost function Seen(served: seq<int>, compress: bool): View
      reads this, fds
      requires nfds <= fds.Length
    {
      View(fds[..nfds], net, served, compress)
    }

    /** One entry of the scan: the listener accepts, a readable client is served. */
    method Visit(i: nat, io: int -> seq<Ret>, acc: seq<int>, served0: seq<int>, compress0: bool)
      returns (served: seq<int>, compress: bool)
      requires i < nfds <= poll_cap == fds.Length
      requires fds[i].fd != listen_fd ==>
                 fds[i].fd in net && fds[i].fd >= 0 && net[fds[i].fd].sk.open && net[fds[i].fd].pc.Idle?
      modifies this, fds
      ensures old(nfds) <= nfds <= poll_cap == fds.Length && (fds == old(fds) || fresh(fds))
      ensures Seen(served, compress) == VisitSlot(old(Seen(served0, compress0)), i, listen_fd, io, acc)
    {
      served, compress := served0, compress0;
      if fds[i].revents == Quiet {
        return;
      }
      if fds[i].fd == listen_fd {
        AcceptAll(acc);
      } else if fds[i].revents == Readable {
        ghost var now := fds[..nfds];
        served := served + [fds[i].fd];
        var closed := ServeEntry(i, io(fds[i].fd));
        compress := compress || closed;
        assert fds[..nfds] == if closed then now[i := now[i].(fd := -1)] else now;
      }
    }

    /** The next entry, in a state that the scan has reached. */
    method VisitNext(i: nat, io: int -> seq<Ret>, acc: seq<int>, served0: seq<int>, compress0: bool,
                     ghost es: seq<PollFd>, ghost net0: Net)
      returns (served: seq<int>, compress: bool)
      requires i < |es| <= nfds <= poll_cap == fds.Length
      requires Inv(es, net0, listen_fd) && FreshFds(acc, net0, listen_fd)
      requires Seen(served0, compress0) == ScanTo(es, net0, listen_fd, io, acc, i)
      modifies this, fds
      ensures |es| <= nfds <= poll_cap == fds.Length && (fds == old(fds) || fresh(fds))
      ensures Seen(served, compress) == ScanTo(es, net0, listen_fd, io, acc, i + 1)
    {
      SlotReady(es, net0, listen_fd, io, acc, i);
      served, compress := Visit(i, io, acc, served0, compress0);
    }

    /** The scan over the entries that were polled; what is accepted meanwhile is appended
        behind them and not visited. */
    method Scan(io: int -> seq<Ret>, acc: seq<int>, ghost es: seq<PollFd>, ghost net0: Net)
      returns (served: seq<int>, compress: bool)
      requires Valid() && fds[..nfds] == es && net == net0 && FreshFds(acc, net0, listen_fd)
      modifies this, fds
      ensures |es| <= nfds <= poll_cap == fds.Length && (fds == old(fds) || fresh(fds))
      ensures Seen(served, compress) == ScanTo(es, net0, listen_fd, io, acc, |es|)
    {
      var current_nfds := nfds;
      served, compress := [], false;
      var i := 0;
      while i < current_nfds
        invariant 0 <= i <= current_nfds == |es| <= nfds <= poll_cap == fds.Length
        invariant fds == old(fds) || fresh(fds)
        invariant Seen(served, compress) == ScanTo(es, net0, listen_fd, io, acc, i)
      {
        served, compress := VisitNext(i, io, acc, served, compress, es, net0);
        i := i + 1;
      }
    }

    /** One iteration of the server's main loop, after poll has filled in the events. */
    method Pass(io: int -> seq<Ret>, acc: seq<int>, ghost es: seq<PollFd>, ghost net0: Net)
      returns (served: seq<int>)
      requires Valid() && fds[..nfds] == es && net == net0 && FreshFds(acc, net0, listen_fd)
      modifies this, fds
      ensures Valid() && Known(es[1..], net0)
      ensures fds[..nfds] == PassEntries(es, net0, io, acc)
      ensures PassNet(es, net0, io, acc, net)
      ensures served == Ready(es[1..])
      ensures OpenSet(net) == (OpenSet(net0) - Lost(served, net0, io)) + (set a | a in Taken(es, acc))
      ensures net0.Keys <= net.Keys && ServedOnly(served, net0, io, net)
    {
      var compress;
      served, compress := Scan(io, acc, es, net0);
      WholePass(es, net0, listen_fd, io, acc);
      PassOutcome(es, net0, io, acc, net, listen_fd);
      if compress {
        Compact();
      }
    }
  }

  // ---------------------------------------------------------------- what a pass keeps

  /** The state after the scan, and after the compaction that follows it. */
  lemma WholePass(es: seq<PollFd>, net0: Net, listen: int, io: int -> seq<Ret>, acc: seq<int>)
    requires Inv(es, net0, listen) && FreshFds(acc, net0, listen)
    ensures Known(es[1..], net0)
    ensures var v := ScanTo(es, net0, listen, io, acc, |es|);
      && Keep(v.now) == PassEntries(es, net0, io, acc)
      && (!v.compress ==> Keep(v.now) == v.now)
      && PassNet(es, net0, io, acc, v.net) && v.served == Ready(es[1..])
      && Inv(PassEntries(es, net0, io, acc), v.net, listen)
  {
    var v := ScanTo(es, net0, listen, io, acc, |es|);
    WholeScan(es, net0, listen, io, acc);
    KeepPass(es, net0, io, acc, v.now);
    PassInv(es, net0, io, acc, v.net, listen);
  }

  lemma WholeScan(es: seq<PollFd>, net0: Net, listen: int, io: int -> seq<Ret>, acc: seq<int>)
    requires Inv(es, net0, listen) && FreshFds(acc, net0, listen)
    ensures Known(es[1..], net0)
    ensures var v := ScanTo(es, net0, listen, io, acc, |es|);
      && v.now == [es[0]] + MarkAll(es[1..], net0, io) + Opened(Taken(es, acc))
      && (!v.compress ==> Keep(v.now) == v.now)
      && PassNet(es, net0, io, acc, v.net) && v.served == Ready(es[1..])
  {
    var v := ScanTo(es, net0, listen, io, acc, |es|);
    ScanToFacts(es, net0, listen, io, acc, |es|);
    assert es[1..|es|] == es[1..];
    ScanDone(es, net0, io, acc, v.now, v.net);
    if !v.compress {
      ScanKeptAll(es, net0, io, acc, v.now, v.net, listen);
    }
  }

  lemma KeepPass(es: seq<PollFd>, net: Net, io: int -> seq<Ret>, acc: seq<int>, all: seq<PollFd>)
    requires |es| >= 1 && es[0].fd >= 0 && Known(es[1..], net)
    requires forall a | a in acc :: a >= 0
    requires all == [es[0]] + MarkAll(es[1..], net, io) + Opened(Taken(es, acc))
    ensures Keep(all) == PassEntries(es, net, io, acc)
  {
    var marked, added := MarkAll(es[1..], net, io), Opened(Taken(es, acc));
    KeepConcat([es[0]] + marked, added);
    KeepConcat([es[0]], marked);
    forall k | 0 <= k < |added|
      ensures added[k].fd != -1
    {
      assert Taken(es, acc)[k] in acc;
    }
    KeepAll(added);
    KeepAll([es[0]]);
  }

  lemma DistinctHead(es: seq<PollFd>)
    requires es != [] && Distinct(es)
    ensures es[0].fd !in FdSet(es[1..])
  {
    forall k | 0 <= k < |es[1..]| ensures es[1..][k].fd != es[0].fd {
      assert es[1..][k] == es[k + 1];
    }
  }

  /** The kept entries are those whose connection survived, each once. */
  lemma {:induction false} KeptMembers(es: seq<PollFd>, net: Net, io: int -> seq<Ret>, net': Net)
    requires Known(es, net) && Distinct(es) && Served(es, net, io, net')
    requires forall fd | fd in net :: fd >= 0
    ensures var r := Keep(MarkAll(es, net, io));
      FdSet(r) == (set fd | fd in FdSet(es) && net'[fd].sk.open) && Distinct(r)
  {
    if es != [] {
      var head, rest := Mark(es[0], net, io), Keep(MarkAll(es[1..], net, io));
      KeptMembers(es[1..], net, io, net');
      assert MarkAll(es, net, io)[1..] == MarkAll(es[1..], net, io);
      assert es == [es[0]] + es[1..];
      FdSetConcat([es[0]], es[1..]);
      assert FdSet([es[0]]) == {es[0].fd};
      assert net'[es[0].fd] == After(es[0], net, io);
      if head.fd != -1 {
        FdSetConcat([head], rest);
        assert FdSet([head]) == {head.fd};
        DistinctHead(es);
        DistinctConcat([head], rest);
      } else {
        assert [] + rest == rest;
      }
    }
  }

  lemma PassInv(es: seq<PollFd>, net: Net, io: int -> seq<Ret>, acc: seq<int>, net': Net, listen: int)
    requires Inv(es, net, listen) && FreshFds(acc, net, listen) && Known(es[1..], net)
    requires PassNet(es, net, io, acc, net')
    ensures Inv(PassEntries(es, net, io, acc), net', listen)
  {
    PassClients(es, net, io, acc, net', listen);
    PassIdle(es, net, io, acc, net', listen);
  }

  lemma PassClients(es: seq<PollFd>, net: Net, io: int -> seq<Ret>, acc: seq<int>, net': Net, listen: int)
    requires Inv(es, net, listen) && FreshFds(acc, net, listen) && Known(es[1..], net)
    requires PassNet(es, net, io, acc, net')
    ensures var clients := PassEntries(es, net, io, acc)[1..];
      FdSet(clients) == OpenSet(net') && Distinct(clients)
  {
    var kept, added := Keep(MarkAll(es[1..], net, io)), Opened(Taken(es, acc));
    assert PassEntries(es, net, io, acc)[1..] == kept + added;
    PassKept(es, net, io, acc, net', listen);
    FdSetConcat(kept, added);
    DistinctConcat(kept, added);
    PassOpen(es, net, io, acc, net', listen);
  }

  lemma PassKept(es: seq<PollFd>, net: Net, io: int -> seq<Ret>, acc: seq<int>, net': Net, listen: int)
    requires Inv(es, net, listen) && FreshFds(acc, net, listen) && Known(es[1..], net)
    requires PassNet(es, net, io, acc, net')
    ensures var kept, added := Keep(MarkAll(es[1..], net, io)), Opened(Taken(es, acc));
      && FdSet(kept) == (set fd | fd in FdSet(es[1..]) && net'[fd].sk.open)
      && FdSet(added) == (set a | a in Taken(es, acc))
      && Distinct(kept) && Distinct(added) && FdSet(kept) !! FdSet(added)
  {
    KeptMembers(es[1..], net, io, net');
    OpenedMembers(Taken(es, acc));
  }

  lemma OpenedMembers(acc: seq<int>)
    requires forall j, k | 0 <= j < k < |acc| :: acc[j] != acc[k]
    ensures FdSet(Opened(acc)) == (set a | a in acc) && Distinct(Opened(acc))
  {
    forall a | a in acc
      ensures a in FdSet(Opened(acc))
    {
      var k :| 0 <= k < |acc| && acc[k] == a;
      assert Opened(acc)[k].fd == a;
    }
  }

  lemma PassIdle(es: seq<PollFd>, net: Net, io: int -> seq<Ret>, acc: seq<int>, net': Net, listen: int)
    requires Inv(es, net, listen) && FreshFds(acc, net, listen) && Known(es[1..], net)
    requires PassNet(es, net, io, acc, net')
    ensures listen !in net' && forall fd | fd in net' :: fd >= 0 && net'[fd].pc.Idle?
  {
    forall fd | fd in net'
      ensures fd >= 0 && net'[fd].pc.Idle?
    {
      if fd !in Taken(es, acc) && fd in FdSet(es[1..]) {
        var k :| 0 <= k < |es[1..]| && es[1..][k].fd == fd;
        ServeIdle(net[fd].Begin(), io(fd));
      }
    }
  }

  /** A connection is open after a pass if it was accepted, or listed before and survived. */
  lemma PassOpen(es: seq<PollFd>, net: Net, io: int -> seq<Ret>, acc: seq<int>, net': Net, listen: int)
    requires Inv(es, net, listen) && FreshFds(acc, net, listen) && Known(es[1..], net)
    requires PassNet(es, net, io, acc, net')
    ensures OpenSet(net') == (set fd | fd in FdSet(es[1..]) && net'[fd].sk.open)
                             + (set a | a in Taken(es, acc))
  {
    forall fd | fd in OpenSet(net') && fd !in Taken(es, acc)
      ensures fd in FdSet(es[1..])
    {
    }
    forall fd | fd in FdSet(es[1..])
      ensures fd in net'
    {
    }
  }

  lemma {:induction false} ReadyMembers(es: seq<PollFd>, k: nat)
    requires k < |es| && Distinct(es)
    ensures es[k].fd in Ready(es) <==> es[k].revents.Readable?
    ensures forall fd | fd in Ready(es) :: fd in FdSet(es)
  {
    var rest := es[1..];
    assert forall j | 0 <= j < |rest| :: rest[j] == es[j + 1];
    assert forall fd | fd in FdSet(rest) :: fd in FdSet(es);
    DistinctHead(es);
    if rest == [] {
      assert Ready(rest) == [];
    } else {
      ReadyMembers(rest, if k > 0 then k - 1 else 0);
    }
  }

  /** A client that was open is served if it was readable, and is otherwise as it was. */
  lemma PassOne(es: seq<PollFd>, net: Net, io: int -> seq<Ret>, acc: seq<int>, net': Net, listen: int, fd: int)
    requires Inv(es, net, listen) && FreshFds(acc, net, listen) && Known(es[1..], net)
    requires PassNet(es, net, io, acc, net') && fd in OpenSet(net)
    ensures fd in net'
    ensures if fd in Ready(es[1..]) then Outcome(net[fd], io(fd), net'[fd]) else net'[fd] == net[fd]
  {
    assert fd in FdSet(es[1..]);
    var k :| 0 <= k < |es[1..]| && es[1..][k].fd == fd;
    ReadyMembers(es[1..], k);
    if fd in Ready(es[1..]) {
      ServeOutcome(net[fd], io(fd));
    }
  }

  /** The open clients after a pass: those before it and those accepted, less those served whose answers
      close them; and what became of each. */
  lemma PassOutcome(es: seq<PollFd>, net: Net, io: int -> seq<Ret>, acc: seq<int>, net': Net, listen: int)
    requires Inv(es, net, listen) && FreshFds(acc, net, listen) && Known(es[1..], net)
    requires PassNet(es, net, io, acc, net')
    ensures var served := Ready(es[1..]);
      && OpenSet(net') == (OpenSet(net) - Lost(served, net, io)) + (set a | a in Taken(es, acc))
      && net.Keys <= net'.Keys && ServedOnly(served, net, io, net')
  {
    var served := Ready(es[1..]);
    PassOpen(es, net, io, acc, net', listen);
    forall fd | fd in OpenSet(net)
      ensures fd in net'
      ensures if fd in served then Outcome(net[fd], io(fd), net'[fd]) else net'[fd] == net[fd]
    {
      PassOne(es, net, io, acc, net', listen, fd);
    }
  }

  // ---------------------------------------------------------------- runs

  /** What the kernel decides for one turn of the main loop: the bytes that arrive, the events
      poll reports, the answers to reads and writes, and the descriptors accepted. */
  datatype Turn = Turn(arrived: map<int, Bytes>, revents: seq<Revents>, io: int -> seq<Ret>, acc: seq<int>)

  function Polled(es: seq<PollFd>, revents: seq<Revents>): (r: seq<PollFd>)
    requires |revents| == |es|
    ensures |r| == |es| && forall k | 0 <= k < |es| :: r[k] == es[k].(revents := revents[k])
  {
    seq(|es|, k requires 0 <= k < |es| => es[k].(revents := revents[k]))
  }

  /** The array and the connections after a turn. */
  ghost function AfterTurn(es: seq<PollFd>, net: Net, listen: int, t: Turn): (seq<PollFd>, Net)
    requires |t.revents| == |es|
  {
    var v := ScanTo(Polled(es, t.revents), Arrive(net, t.arrived), listen, t.io, t.acc, |es|);
    (Keep(v.now), v.net)
  }

  ghost predicate Legal(es: seq<PollFd>, net: Net, listen: int, turns: seq<Turn>)
    decreases |turns|
  {
    |turns| > 0 ==>
      && |turns[0].revents| == |es| && FreshFds(turns[0].acc, net, listen)
      && var (es', net') := AfterTurn(es, net, listen, turns[0]); Legal(es', net', listen, turns[1..])
  }

  ghost function RunTurns(es: seq<PollFd>, net: Net, listen: int, turns: seq<Turn>): (seq<PollFd>, Net)
    requires Legal(es, net, listen, turns)
    decreases |turns|
  {
    if |turns| == 0 then (es, net)
    else var (es', net') := AfterTurn(es, net, listen, turns[0]); RunTurns(es', net', listen, turns[1..])
  }

  /** The kernel's part of a turn disturbs nothing. */
  lemma PolledInv(es: seq<PollFd>, net: Net, listen: int, t: Turn)
    requires Inv(es, net, listen) && |t.revents| == |es| && FreshFds(t.acc, net, listen)
    ensures Inv(Polled(es, t.revents), Arrive(net, t.arrived), listen)
    ensures FreshFds(t.acc, Arrive(net, t.arrived), listen)
  {
    var es', net' := Polled(es, t.revents), Arrive(net, t.arrived);
    assert OpenSet(net') == OpenSet(net);
    SameFds(es[1..], es'[1..]);
  }

  lemma SameFds(a: seq<PollFd>, b: seq<PollFd>)
    requires |a| == |b| && forall k | 0 <= k < |a| :: a[k].fd == b[k].fd
    ensures FdSet(a) == FdSet(b) && (Distinct(a) ==> Distinct(b))
  {
    forall fd ensures fd in FdSet(a) <==> fd in FdSet(b) {
      if fd in FdSet(a) {
        var k :| 0 <= k < |a| && a[k].fd == fd;
        assert b[k].fd == fd;
      }
      if fd in FdSet(b) {
        var k :| 0 <= k < |b| && b[k].fd == fd;
        assert a[k].fd == fd;
      }
    }
  }

  lemma PassEchoes(es: seq<PollFd>, net: Net, io: int -> seq<Ret>, acc: seq<int>, net': Net)
    requires |es| >= 1 && Known(es[1..], net) && PassNet(es, net, io, acc, net') && AllEcho(net)
    ensures AllEcho(net')
  {
    forall fd | fd in net' ensures net'[fd].Valid() && Echoes(net'[fd]) && net'[fd].pc.Idle? {
      if fd !in Taken(es, acc) && fd in FdSet(es[1..]) {
        var k :| 0 <= k < |es[1..]| && es[1..][k].fd == fd;
        ServedEchoes(net[fd], io(fd));
      }
    }
  }

  lemma TurnKeeps(es: seq<PollFd>, net: Net, listen: int, t: Turn)
    requires Inv(es, net, listen) && AllEcho(net) && |t.revents| == |es| && FreshFds(t.acc, net, listen)
    ensures var (es', net') := AfterTurn(es, net, listen, t); Inv(es', net', listen) && AllEcho(net')
  {
    var polled, net0 := Polled(es, t.revents), Arrive(net, t.arrived);
    PolledInv(es, net, listen, t);
    WholePass(polled, net0, listen, t.io, t.acc);
    assert AllEcho(net0);
    PassEchoes(polled, net0, t.io, t.acc, ScanTo(polled, net0, listen, t.io, t.acc, |polled|).net);
  }

  /** Over every run of the server: the array is the listener and exactly the open clients, each
      once, and every connection has echoed exactly what it consumed. */
  lemma {:induction false} RunKeeps(es: seq<PollFd>, net: Net, listen: int, turns: seq<Turn>)
    requires Inv(es, net, listen) && AllEcho(net) && Legal(es, net, listen, turns)
    ensures var (es', net') := RunTurns(es, net, listen, turns); Inv(es', net', listen) && AllEcho(net')
    decreases |turns|
  {
    if |turns| > 0 {
      var (es', net') := AfterTurn(es, net, listen, turns[0]);
      TurnKeeps(es, net, listen, turns[0]);
      RunKeeps(es', net', listen, turns[1..]);
    }
  }
}
