/** epoll_lt_lean_server.c as it runs: a table of pointers, null except where a remainder is
    pending, with the structure allocated by a partial write and freed when it is out. */
module LeanServer {
  import opened Kernel
  import Full = BufferedEcho
  import opened LeanEcho

  lemma HandleUnfolds(c: Conn, rets: seq<Ret>, i: nat)
    requires c.Valid() && !c.pc.Idle?
    ensures Handle(c, Remaining(rets, i)) == Handle(Step(c, Answer(rets, i)), Remaining(rets, i + 1))
  {
    if i < |rets| {
      assert rets[i..][0] == rets[i] && rets[i..][1..] == rets[i + 1..];
    }
  }

  class PendingWrite {
    const buf: array<byte>
    var len: nat
    var offset: nat

    ghost predicate Valid()
      reads this
    {
      buf.Length == len <= BUF_SIZE && offset < len
    }

    ghost function Value(): Remainder
      reads this, buf
    {
      Remainder(buf[..], len, offset)
    }

    /** malloc and memcpy. */
    constructor (rest: Bytes)
      requires 0 < |rest| <= BUF_SIZE
      ensures Valid() && fresh(buf) && Value() == Remainder(rest, |rest|, 0)
    {
      buf := new byte[|rest|](k requires 0 <= k < |rest| => rest[k]);
      len, offset := |rest|, 0;
      new;
      assert buf[..] == rest;
    }
  }

  /** One entry of pending_writes[], with the kernel's side of its descriptor, the connection's
      share of the STATS counters, and the structures allocated and freed for it. */
  class Slot {
    var pw: PendingWrite?
    var sk: Sock
    var interest: Full.Interest
    var events: nat
    var requests: nat
    ghost var mallocs: nat
    ghost var frees: nat

    ghost predicate Valid()
      reads this, pw
    {
      && (pw != null ==> pw.Valid())
      && (!sk.open ==> pw == null)
    }

    ghost function State(pc: Full.Pc): (c: Conn)
      reads this, pw, if pw == null then {} else {pw.buf}
      requires Valid()
    {
      Conn(sk, if pw == null then None else Some(pw.Value()), interest, pc, events, requests, mallocs, frees)
    }

    constructor ()
      ensures Valid() && State(Full.Idle) == LeanEcho.Accepted()
    {
      pw, sk, interest, events, requests := null, Fresh(), Full.In, 0, 0;
      mallocs, frees := 0, 0;
    }

    /** free of the structure and its buffer. */
    method Free()
      requires pw != null
      modifies `pw, `frees
      ensures pw == null && frees == old(frees) + 1
    {
      pw := null;
      frees := frees + 1;
    }

    /** malloc of a structure for what a write left over. */
    method Allocate(rest: Bytes)
      requires 0 < |rest| <= BUF_SIZE
      modifies `pw, `mallocs
      ensures pw != null && fresh(pw) && fresh(pw.buf) && pw.Valid() && pw.Value() == Remainder(rest, |rest|, 0)
      ensures mallocs == old(mallocs) + 1
    {
      pw := new PendingWrite(rest);
      mallocs := mallocs + 1;
    }

    method Close()
      requires Valid()
      modifies this
      ensures Valid() && State(Full.Idle) == old(State(Full.Idle)).Close() && pw == null
    {
      sk := sk.Closed();
      if pw != null {
        Free();
      }
    }

    /** The state once the structure that pw points to is freed. */
    ghost function Freed(): Conn
      reads this
    {
      Conn(sk, None, interest, Full.Idle, events, requests, mallocs, frees + 1)
    }

    /** What the flush loop has reached: an error, EAGAIN, more to write, or everything out. */
    ghost function FlushProgress(thenRead: bool, blocked: bool, error: bool): (c: Conn)
      reads this, pw, if pw == null then {} else {pw.buf}
      requires pw != null && pw.buf.Length == pw.len <= BUF_SIZE && sk.open
      requires pw.offset <= pw.len && (blocked || error ==> pw.offset < pw.len)
      ensures c.Valid()
    {
      if error then Freed().Close()
      else if blocked then State(Full.Idle).EnterRead(thenRead)
      else if pw.offset < pw.len then State(Full.Flushing(thenRead))
      else Freed().Drained().EnterRead(thenRead)
    }

    /** One write of the flush loop. */
    method WriteChunk(ghost thenRead: bool, r: Ret) returns (blocked: bool, error: bool)
      requires Valid() && sk.open && pw != null
      modifies `sk, pw
      ensures pw.buf.Length == pw.len <= BUF_SIZE && pw.offset <= pw.len && sk.open
      ensures blocked == r.Again? && error == r.Err? && (blocked || error ==> pw.offset < pw.len)
      ensures FlushProgress(thenRead, blocked, error) == StepFlush(old(State(Full.Flushing(thenRead))), r)
    {
      blocked, error := r.Again?, r.Err?;
      if r.N? {
        var n := Min(r.n, pw.len - pw.offset);
        assert pw.buf[..][pw.offset..pw.offset + n] == pw.buf[pw.offset..pw.offset + n];
        sk := sk.AfterWrite(pw.buf[pw.offset..pw.offset + n]);
        pw.offset := pw.offset + n;
      }
    }

    /** Writes the remainder until it is out, EAGAIN or an error. */
    method FlushLoop(thenRead: bool, rets: seq<Ret>) returns (blocked: bool, error: bool, i: nat)
      requires Valid() && sk.open && pw != null
      modifies `sk, pw
      ensures pw.buf.Length == pw.len <= BUF_SIZE && pw.offset <= pw.len && sk.open
      ensures (blocked || error || pw.offset == pw.len) && (blocked || error ==> pw.offset < pw.len)
      ensures Handle(old(State(Full.Flushing(thenRead))), rets) ==
              Handle(FlushProgress(thenRead, blocked, error), Remaining(rets, i))
    {
      blocked, error, i := false, false, 0;
      ghost var goal := Handle(FlushProgress(thenRead, false, false), rets);
      assert Remaining(rets, 0) == rets;
      while pw.offset < pw.len && !blocked && !error
        invariant pw.buf.Length == pw.len <= BUF_SIZE && pw.offset <= pw.len && sk.open
        invariant (blocked || error ==> pw.offset < pw.len) && (!blocked ==> i <= |rets|)
        invariant goal == Handle(FlushProgress(thenRead, blocked, error), Remaining(rets, i))
        decreases |rets| - i, !blocked
      {
        HandleUnfolds(State(Full.Flushing(thenRead)), rets, i);
        blocked, error := WriteChunk(thenRead, Answer(rets, i));
        i := i + 1;
      }
    }

    /** The remainder is out: it is freed and EPOLLOUT no longer asked for. */
    method BackToInput()
      requires sk.open && pw != null
      modifies this
      ensures Valid() && pw == null && sk.open
      ensures State(Full.Idle) == old(Freed()).Drained()
    {
      Free();
      interest := Full.In;
      requests := requests + 1;
    }

    /** The write branch: nothing without a remainder; otherwise the flush loop, and the
        remainder freed by an error or once it is out. */
    method FlushPending(thenRead: bool, rets: seq<Ret>) returns (error: bool, i: nat)
      requires Valid() && sk.open
      modifies this, pw
      ensures Valid() && sk.open == !error
      ensures Handle(old(State(Full.Idle)).Begin(true, thenRead), rets) ==
              Handle(if error then State(Full.Idle) else State(Full.Idle).EnterRead(thenRead),
                     Remaining(rets, i))
    {
      error, i := false, 0;
      assert Remaining(rets, 0) == rets;
      if pw != null {
        var blocked;
        blocked, error, i := FlushLoop(thenRead, rets);
        if error {
          sk := sk.Closed();
          Free();
        } else if pw.offset == pw.len {
          BackToInput();
        }
      }
    }

    /** A read that moves n bytes. */
    method Take(n: nat) returns (data: Bytes)
      requires Valid() && sk.open && 0 < n <= |sk.rq| && n <= BUF_SIZE
      modifies this
      ensures Valid() && sk.open && pw == old(pw) && data == old(sk.rq)[..n]
      ensures State(Full.Echoing(data)) == old(State(Full.Reading)).(
                sk := old(sk).AfterRead(n), pc := Full.Echoing(data), events := old(events) + 1)
    {
      data := sk.rq[..n];
      sk := sk.AfterRead(n);
      events := events + 1;
    }

    /** The read branch: exactly one read, its echo, and a remainder allocated if the write
        stops short, whether or not an older one is still there. */
    method ReadOnce(rets: seq<Ret>, i: nat)
      requires Valid() && sk.open
      modifies this
      ensures Valid()
      ensures State(Full.Idle) == Handle(old(State(Full.Reading)), Remaining(rets, i))
    {
      var r := Answer(rets, i);
      HandleUnfolds(State(Full.Reading), rets, i);
      var bytesRead := if r.N? then sk.ReadCount(BUF_SIZE, r.n) else 0;
      if bytesRead == 0 {
        if !r.Again? {
          Close();
        }
      } else {
        var data := Take(bytesRead);
        HandleUnfolds(State(Full.Echoing(data)), rets, i + 1);
        Echo(data, Answer(rets, i + 1));
      }
    }

    method Echo(data: Bytes, r: Ret)
      requires Valid() && sk.open && 0 < |data| <= BUF_SIZE
      modifies this
      ensures Valid()
      ensures State(Full.Idle) == Step(old(State(Full.Echoing(data))), r)
    {
      if r.Err? {
        Close();
        return;
      }
      var n := if r.N? then Min(r.n, |data|) else 0;
      sk := sk.AfterWrite(data[..n]);
      if n < |data| {
        Allocate(data[n..]);
        interest := Full.InOut;
      } else {
        requests := requests + 1;
      }
    }

    /** The body of the event loop for one client event. */
    method HandleEvent(out: bool, in_: bool, rets: seq<Ret>)
      requires Valid() && sk.open
      modifies this, pw
      ensures Valid()
      ensures State(Full.Idle) == Handle(old(State(Full.Idle)).Begin(out, in_), rets)
    {
      var i := 0;
      assert Remaining(rets, 0) == rets;
      if out {
        var error;
        error, i := FlushPending(in_, rets);
        if error {
          return;
        }
      }
      if in_ {
        ReadOnce(rets, i);
      }
    }
  }
}
