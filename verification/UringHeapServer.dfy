/** server_uring.c as it runs: heap structures reached through the pointers that completions carry,
    and a submission queue filled in place. */
module UringHeapServer {
  import opened Kernel
  import opened UringServer

  /** struct conn_info. */
  class ConnInfo {
    var fd: int
    var kind: Kind
    var len: nat

    ghost function Value(): Conn
      reads this
    {
      Conn(fd, kind, len)
    }

    constructor (fd: int)
      ensures this.fd == fd && kind == Read && len == 0
    {
      this.fd, kind, len := fd, Read, 0;
    }
  }

  /** A batch of completions, each with the address malloc would return during its treatment. */
  datatype Event = Event(cqe: Cqe, address: nat)

  function Cqes(events: seq<Event>): seq<Cqe> {
    if events == [] then [] else [events[0].cqe] + Cqes(events[1..])
  }

  /** malloc never returns the address of a live structure. */
  ghost predicate AllFree(u: User, events: seq<Event>)
    decreases |events|
  {
    events != [] ==>
      IsFree(u, events[0].address) && AllFree(Handle(u, events[0].cqe, events[0].address), events[1..])
  }

  ghost predicate Ready(u: User, events: seq<Event>) {
    Sound(u, Cqes(events)) && AllFree(u, events)
  }

  /** Part of what is in flight is as sound as all of it. */
  lemma SoundPart(u: User, cq: seq<Cqe>, n: nat)
    requires Sound(u, cq) && n <= |cq|
    ensures Sound(u.(armed := []), cq[..n])
  {
    var v := u.(armed := []);
    assert cq == cq[..n] + cq[n..];
    CqOpsConcat(cq[..n], cq[n..]);
    KeysConcat(CqOps(cq[..n]), CqOps(cq[n..]));
    FlightSum(u, cq);
    FlightSum(v, cq[..n]);
    assert Owners(v) == Owners(u);
  }

  lemma Advance(u: User, events: seq<Event>)
    requires Ready(u, events) && events != []
    ensures events[0].cqe.op.Io? ==> events[0].cqe.op.id in u.conns
    ensures Ready(Handle(u, events[0].cqe, events[0].address), events[1..])
  {
    var cq := Cqes(events);
    assert cq[0] == events[0].cqe && cq[1..] == Cqes(events[1..]);
    Popped(u, cq);
    ProcessSound(u, cq, events[0].address);
  }

  ghost function HandleAll(u: User, events: seq<Event>): User
    requires Ready(u, events)
    decreases |events|
  {
    if events == [] then u
    else
      Advance(u, events);
      HandleAll(Handle(u, events[0].cqe, events[0].address), events[1..])
  }

  class Server {
    var table: map<nat, ConnInfo>
    var sq: seq<Op>

    /** No two addresses lead to the same structure. */
    ghost predicate Valid()
      reads this
    {
      forall a, b | a in table && b in table && a != b :: table[a] != table[b]
    }

    ghost function View(): User
      reads this, table.Values
    {
      User(map id | id in table :: table[id].Value(), sq, [])
    }

    constructor ()
      ensures Valid() && View() == User(map[], [Accept], [])
    {
      table, sq := map[], [Accept];
    }

    method AddAccept()
      requires Valid()
      modifies this`sq
      ensures Valid() && View() == old(View()).Push(Accept)
    {
      if |sq| < ENTRIES {
        sq := sq + [Accept];
      }
    }

    method AddRead(id: nat)
      requires Valid() && id in table
      modifies this`sq, table[id]
      ensures Valid() && View() == old(View()).AddRead(id)
    {
      if |sq| >= ENTRIES {
        return;
      }
      table[id].kind := Read;
      sq := sq + [Io(id, Read)];
    }

    method AddWrite(id: nat, len: nat)
      requires Valid() && id in table
      modifies this`sq, table[id]
      ensures Valid() && View() == old(View()).AddWrite(id, len)
    {
      if |sq| >= ENTRIES {
        return;
      }
      table[id].kind := Write;
      table[id].len := len;
      sq := sq + [Io(id, Write)];
    }

    method Free(id: nat)
      requires Valid() && id in table
      modifies this`table
      ensures Valid() && View() == old(View()).Free(id) && table.Values <= old(table.Values)
    {
      table := table - {id};
    }

    method Malloc(fd: int, address: nat)
      requires Valid() && address !in table
      modifies this`table
      ensures Valid() && address in table && fresh(table[address]) && fresh(table.Values - old(table.Values))
      ensures View() == old(View()).(conns := old(View()).conns[address := Conn(fd, Read, 0)])
    {
      var client := new ConnInfo(fd);
      var was := table;
      table := was[address := client];
      assert client !in was.Values;
      assert forall id | id in was :: was[id] in was.Values;
    }

    method OnAccept(res: int, address: nat)
      requires Valid() && IsFree(View(), address)
      modifies this
      ensures Valid() && View() == Handle(old(View()), Cqe(Accept, res), address)
      ensures fresh(table.Values - old(table.Values))
    {
      if res >= 0 {
        Malloc(res, address);
        AddRead(address);
      }
      AddAccept();
    }

    method OnIo(id: nat, ghost kind: Kind, res: int, ghost address: nat)
      requires Valid() && id in table && IsFree(View(), address)
      modifies this, table.Values
      ensures Valid() && View() == Handle(old(View()), Cqe(Io(id, kind), res), address)
      ensures table.Values <= old(table.Values)
    {
      if res <= 0 {
        Free(id);
      } else if table[id].kind.Read? {
        AddWrite(id, res);
      } else {
        AddRead(id);
      }
    }

    method Dispatch(c: Cqe, address: nat)
      requires Valid() && IsFree(View(), address) && (c.op.Io? ==> c.op.id in table)
      modifies this, table.Values
      ensures Valid() && View() == Handle(old(View()), c, address)
      ensures fresh(table.Values - old(table.Values))
    {
      match c.op {
        case Accept => OnAccept(c.res, address);
        case Io(id, kind) => OnIo(id, kind, c.res, address);
      }
    }

    /** The first completion of what is left of a batch. */
    method TakeFirst(events: seq<Event>)
      requires Valid() && Ready(View(), events) && events != []
      modifies this, table.Values
      ensures Valid() && fresh(table.Values - old(table.Values))
      ensures Ready(View(), events[1..]) && HandleAll(View(), events[1..]) == HandleAll(old(View()), events)
    {
      Advance(View(), events);
      Dispatch(events[0].cqe, events[0].address);
    }

    /** io_uring_submit. */
    method Submit() returns (handed: seq<Op>)
      modifies this`sq
      ensures handed == old(View()).sq && View() == old(View()).(sq := [])
    {
      handed := sq;
      sq := [];
      assert View().conns == old(View()).conns;
    }

    /** Every completion of a batch. No pointer is checked before it is followed; that each leads
        to a live structure is what having at most one operation in flight gives. */
    method TakeAll(events: seq<Event>)
      requires Valid() && Ready(View(), events)
      modifies this, table.Values
      ensures Valid() && View() == HandleAll(old(View()), events)
    {
      ghost var goal := HandleAll(View(), events);
      var k := 0;
      while k < |events|
        invariant 0 <= k <= |events|
        invariant Valid() && fresh(table.Values - old(table.Values))
        invariant Ready(View(), events[k..]) && HandleAll(View(), events[k..]) == goal
      {
        assert events[k..][1..] == events[k + 1..];
        TakeFirst(events[k..]);
        k := k + 1;
      }
    }

    /** One turn of the loop: every completion of the batch, then one submit. */
    method Batch(events: seq<Event>) returns (handed: seq<Op>)
      requires Valid() && Ready(View(), events)
      modifies this, table.Values
      ensures Valid()
      ensures handed == HandleAll(old(View()), events).sq
      ensures View() == HandleAll(old(View()), events).(sq := [])
    {
      TakeAll(events);
      handed := Submit();
    }
  }
}
