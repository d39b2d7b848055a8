/** The provided-buffer ring of io_uring_opt_server.c: 8192 slots, a 16-bit tail that the server
    advances and a 16-bit head that the kernel advances, both masked into the slots.

    The ring is proved to be a FIFO queue of buffer ids, across any number of wraparounds. */
module BufferRing {

  const BUF_RING_ENTRIES: nat := 8192
  const WRAP: nat := 0x1_0000

  /** The slot of a 16-bit position: position & mask. */
  function Slot(position: nat): (k: nat)
    ensures k < BUF_RING_ENTRIES
  {
    position % BUF_RING_ENTRIES
  }

  /** A ring as a value: its slots and the two 16-bit positions. */
  datatype Ring = Ring(slots: seq<nat>, head: nat, tail: nat) {
    predicate Valid() {
      |slots| == BUF_RING_ENTRIES && head < WRAP && tail < WRAP
    }

    /** 16-bit distance from head to tail. */
    function Count(): (n: nat)
      ensures n < WRAP
    {
      (tail - head) % WRAP
    }

    /** The ids the kernel has not taken yet, oldest first. */
    function Fifo(): (q: seq<nat>)
      requires Valid()
      ensures |q| == Count()
      ensures forall k | 0 <= k < |q| :: q[k] == slots[Slot(head + k)]
    {
      seq(Count(), k requires 0 <= k < Count() => slots[Slot(head + k)])
    }

    /** io_uring_buf_ring_add at offset 0, then io_uring_buf_ring_advance by 1. */
    function Returned(bid: nat): (r: Ring)
      requires Valid()
      ensures r.Valid()
    {
      Ring(slots[Slot(tail) := bid], head, (tail + 1) % WRAP)
    }

    /** The kernel takes the oldest id. */
    function Taken(): (r: Ring)
      requires Valid()
      ensures r.Valid()
    {
      this.(head := (head + 1) % WRAP)
    }
  }

  lemma SlotWraps(position: nat)
    ensures Slot(position % WRAP) == Slot(position)
  {
    assert WRAP == 8 * BUF_RING_ENTRIES;
    assert position == WRAP * (position / WRAP) + position % WRAP;
    assert position == BUF_RING_ENTRIES * (8 * (position / WRAP)) + position % WRAP;
  }

  /** Positions less than one ring apart use different slots. */
  lemma SlotsDiffer(a: nat, b: nat)
    requires a < b < a + BUF_RING_ENTRIES
    ensures Slot(a) != Slot(b)
  {
  }

  lemma TailPosition(r: Ring)
    requires r.Valid()
    ensures Slot(r.tail) == Slot(r.head + r.Count())
  {
    assert (r.head + r.Count()) % WRAP == r.tail;
    SlotWraps(r.head + r.Count());
  }

  lemma ReturnWithRoom(r: Ring, bid: nat)
    requires r.Valid() && r.Count() < BUF_RING_ENTRIES
    ensures r.Returned(bid).Fifo() == r.Fifo() + [bid]
  {
    var s := r.Returned(bid);
    TailPosition(r);
    assert s.Count() == r.Count() + 1;
    forall k | 0 <= k < s.Count()
      ensures s.Fifo()[k] == (r.Fifo() + [bid])[k]
    {
      if k < r.Count() {
        SlotsDiffer(r.head + k, r.head + r.Count());
      }
    }
  }

  lemma ReturnWhenFull(r: Ring, bid: nat)
    requires r.Valid() && r.Count() == BUF_RING_ENTRIES && bid !in r.Fifo()
    ensures r.Returned(bid).Fifo() != r.Fifo() + [bid]
  {
    var s := r.Returned(bid);
    TailPosition(r);
    assert s.Count() == r.Count() + 1;
    assert Slot(r.head + BUF_RING_ENTRIES) == Slot(r.head);
    assert s.Fifo()[0] == bid;
    assert (r.Fifo() + [bid])[0] == r.Fifo()[0];
    assert r.Fifo()[0] in r.Fifo();
  }

  /** A buffer that is not in the ring is returned behind all others, and nothing that waits is
      overwritten, exactly if the ring is not full. */
  lemma ReturnAppendsIff(r: Ring, bid: nat)
    requires r.Valid() && r.Count() <= BUF_RING_ENTRIES && bid !in r.Fifo()
    ensures r.Returned(bid).Fifo() == r.Fifo() + [bid] <==> r.Count() < BUF_RING_ENTRIES
  {
    if r.Count() < BUF_RING_ENTRIES {
      ReturnWithRoom(r, bid);
    } else {
      ReturnWhenFull(r, bid);
    }
  }

  /** Taking removes the oldest id and no other. */
  lemma TakeRemovesOldest(r: Ring)
    requires r.Valid() && r.Count() > 0
    ensures r.Fifo()[0] == r.slots[Slot(r.head)]
    ensures r.Taken().Fifo() == r.Fifo()[1..]
  {
    var s := r.Taken();
    assert s.Count() == r.Count() - 1;
    forall k | 0 <= k < s.Count()
      ensures s.Fifo()[k] == r.Fifo()[k + 1]
    {
      SlotWraps(r.head + 1 + k);
      SlotWraps(s.head + k);
      assert (s.head + k) % WRAP == (r.head + 1 + k) % WRAP;
    }
  }

  datatype RingOp = Return(bid: nat) | Take

  /** What a queue of ids does, without positions: an id comes in only while it is out and there
      is room for it. */
  predicate Allowed(q: seq<nat>, op: RingOp) {
    if op.Return? then |q| < BUF_RING_ENTRIES && op.bid !in q else q != []
  }

  function QueueStep(q: seq<nat>, op: RingOp): seq<nat>
    requires Allowed(q, op)
  {
    if op.Return? then q + [op.bid] else q[1..]
  }

  ghost predicate AllAllowed(q: seq<nat>, ops: seq<RingOp>)
    decreases |ops|
  {
    ops != [] ==> Allowed(q, ops[0]) && AllAllowed(QueueStep(q, ops[0]), ops[1..])
  }

  ghost function QueueRun(q: seq<nat>, ops: seq<RingOp>): seq<nat>
    requires AllAllowed(q, ops)
    decreases |ops|
  {
    if ops == [] then q else QueueRun(QueueStep(q, ops[0]), ops[1..])
  }

  function RingRun(r: Ring, ops: seq<RingOp>): (r': Ring)
    requires r.Valid()
    ensures r'.Valid()
    decreases |ops|
  {
    if ops == [] then r
    else RingRun(if ops[0].Return? then r.Returned(ops[0].bid) else r.Taken(), ops[1..])
  }

  /** Refinement over whole runs, however often head and tail wrap. */
  lemma {:induction false} RingRefinesQueue(r: Ring, ops: seq<RingOp>)
    requires r.Valid() && AllAllowed(r.Fifo(), ops)
    ensures RingRun(r, ops).Fifo() == QueueRun(r.Fifo(), ops)
    decreases |ops|
  {
    if ops != [] {
      if ops[0].Return? {
        ReturnAppendsIff(r, ops[0].bid);
        RingRefinesQueue(r.Returned(ops[0].bid), ops[1..]);
      } else {
        TakeRemovesOldest(r);
        RingRefinesQueue(r.Taken(), ops[1..]);
      }
    }
  }

  /** All buffer ids, as the ring is filled at start. */
  function AllBids(): (q: seq<nat>)
    ensures |q| == BUF_RING_ENTRIES && forall k | 0 <= k < BUF_RING_ENTRIES :: q[k] == k
  {
    seq(BUF_RING_ENTRIES, k => k)
  }

  /** struct io_uring_buf_ring: the slots and the tail are shared with the kernel, which keeps
      the head. */
  class BufRing {
    const bids: array<nat>
    var tail: nat
    var head: nat

    ghost predicate Valid()
      reads this
    {
      bids.Length == BUF_RING_ENTRIES && head < WRAP && tail < WRAP
    }

    ghost function Value(): (r: Ring)
      reads this, bids
      requires Valid()
      ensures r.Valid()
    {
      Ring(bids[..], head, tail)
    }

    /** io_uring_buf_ring_add */
    method Add(bid: nat, offset: nat)
      requires Valid()
      modifies bids
      ensures bids[..] == old(bids[..])[Slot(tail + offset) := bid]
    {
      bids[(tail + offset) % BUF_RING_ENTRIES] := bid;
    }

    /** io_uring_buf_ring_advance */
    method Advance(count: nat)
      requires Valid()
      modifies `tail
      ensures Valid() && tail == (old(tail) + count) % WRAP
    {
      tail := (tail + count) % WRAP;
    }

    /** Setup: every buffer is added at its own offset, then all are published at once. */
    constructor ()
      ensures Valid() && fresh(bids) && Value().Fifo() == AllBids()
    {
      bids := new nat[BUF_RING_ENTRIES](_ => 0);
      tail, head := 0, 0;
      new;
      for i := 0 to BUF_RING_ENTRIES
        invariant Valid() && tail == 0 && head == 0 && fresh(bids)
        invariant forall k | 0 <= k < i :: bids[k] == k
      {
        Add(i, i);
        assert forall k | 0 <= k < i :: bids[k] == bids[..][k];
        assert bids[i] == bids[..][i];
      }
      Advance(BUF_RING_ENTRIES);
      assert forall k | 0 <= k < BUF_RING_ENTRIES :: Value().Fifo()[k] == AllBids()[k];
    }

    /** return_buffer */
    method ReturnBuffer(bid: nat)
      requires Valid() && Value().Count() < BUF_RING_ENTRIES && bid !in Value().Fifo()
      modifies this, bids
      ensures Valid() && Value().Fifo() == old(Value().Fifo()) + [bid]
    {
      ReturnAppendsIff(Value(), bid);
      Add(bid, 0);
      Advance(1);
    }

    /** The kernel's side: a receive takes the buffer at the head. */
    method Take() returns (bid: nat)
      requires Valid() && Value().Count() > 0
      modifies `head
      ensures Valid() && bid == old(Value().Fifo())[0] && Value().Fifo() == old(Value().Fifo())[1..]
    {
      TakeRemovesOldest(Value());
      bid := bids[head % BUF_RING_ENTRIES];
      assert bid == bids[..][Slot(head)];
      head := (head + 1) % WRAP;
    }
  }
}
