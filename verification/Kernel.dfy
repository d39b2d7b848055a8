/** The kernel as every server and the load generator see it: byte streams, and the
    answer that one system call gives.

    A socket is modelled by the bytes still to be read, together with the history of
    what was read from it and written to it. Chunking is the kernel's choice: a call is
    answered by a number, and the call moves that many bytes or as many as there are. */
module Kernel {

  newtype byte = x: int | 0 <= x < 256

  type Bytes = seq<byte>

  const BUF_SIZE: nat := 4096

  /** The answer to one read or write: a byte count the kernel would accept, EAGAIN, or
      any other error. A read that moves no byte reports end of stream. */
  datatype Ret = N(n: nat) | Again | Err

  /** The kernel's side of one connection: the bytes queued for reading, and the histories
      of all bytes read and written so far. */
  datatype Sock = Sock(open: bool, rq: Bytes, taken: Bytes, out: Bytes) {

    /** The number of bytes a read into a buffer of the given size moves. */
    function ReadCount(size: nat, n: nat): (k: nat)
      ensures k <= |rq| && k <= size && k <= n
      ensures k == |rq| || k == size || k == n
    {
      Min(n, Min(size, |rq|))
    }

    function AfterRead(k: nat): Sock
      requires k <= |rq|
    {
      this.(rq := rq[k..], taken := taken + rq[..k])
    }

    function AfterWrite(data: Bytes): Sock {
      this.(out := out + data)
    }

    function Deliver(data: Bytes): Sock {
      this.(rq := rq + data)
    }

    function Closed(): Sock {
      this.(open := false)
    }
  }

  /** A read only moves bytes from the queue to the history. */
  lemma ReadKeepsStream(sk: Sock, k: nat)
    requires k <= |sk.rq|
    ensures sk.AfterRead(k).taken + sk.AfterRead(k).rq == sk.taken + sk.rq
  {
    assert sk.rq == sk.rq[..k] + sk.rq[k..];
  }

  function One(b: bool): nat {
    if b then 1 else 0
  }

  /** The answer to call number i of a handler that stops at EAGAIN. */
  function Answer(rets: seq<Ret>, i: nat): Ret {
    if i < |rets| then rets[i] else Again
  }

  /** The answers from call number i on. */
  function Remaining(rets: seq<Ret>, i: nat): seq<Ret> {
    if i <= |rets| then rets[i..] else []
  }

  function Without<T>(s: seq<T>, i: nat): seq<T>
    requires i < |s|
  {
    s[..i] + s[i + 1..]
  }

  /** A sequence around one of its elements. */
  lemma Around<T>(s: seq<T>, i: nat)
    requires i < |s|
    ensures s == s[..i] + [s[i]] + s[i + 1..]
  {
  }

  lemma ConcatHead<T>(a: seq<T>, b: seq<T>)
    requires a != []
    ensures (a + b)[0] == a[0] && (a + b)[1..] == a[1..] + b
  {
  }

  function Fresh(): Sock {
    Sock(true, [], [], [])
  }

  function Min(a: nat, b: nat): nat {
    if a <= b then a else b
  }

  /** The bytes that a step of a connection added to its output stream. */
  function Emitted(before: Sock, after: Sock): Bytes
    requires before.out <= after.out
  {
    after.out[|before.out|..]
  }
}
