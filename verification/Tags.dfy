/** The user_data tags of io_uring_opt_server.c: type, descriptor and buffer id packed into 64
    bits, once as bits and once as the number the server model carries. */
module Tags {

  // MAKE_TAG, TAG_TYPE, TAG_BID and TAG_FD on machine words.

  function MakeBits(kind: bv64, fd: bv64, bid: bv64): bv64 {
    (kind << 48) | (bid << 32) | (fd & 0xFFFF_FFFF)
  }

  function TypeBits(tag: bv64): bv64 {
    tag >> 48
  }

  function BidBits(tag: bv64): bv64 {
    (tag >> 32) & 0xFFFF
  }

  function FdBits(tag: bv64): bv64 {
    tag & 0xFFFF_FFFF
  }

  /** The fields do not overlap: each comes back. */
  lemma BitsRoundTrip(kind: bv64, fd: bv64, bid: bv64)
    requires kind <= 0xFFFF && bid <= 0xFFFF && fd <= 0x7FFF_FFFF
    ensures var tag := MakeBits(kind, fd, bid);
      TypeBits(tag) == kind && BidBits(tag) == bid && FdBits(tag) == fd
  {
  }

  // The same on unbounded integers.

  const P16: nat := 0x1_0000
  const P32: nat := 0x1_0000_0000
  const P48: nat := 0x1_0000_0000_0000

  function MakeTag(kind: nat, fd: nat, bid: nat): nat {
    kind * P48 + bid * P32 + fd % P32
  }

  function TagType(tag: nat): nat {
    tag / P48
  }

  function TagBid(tag: nat): nat {
    tag / P32 % P16
  }

  function TagFd(tag: nat): nat {
    tag % P32
  }

  lemma TagRoundTrip(kind: nat, fd: nat, bid: nat)
    requires fd < P32 && bid < P16
    ensures var tag := MakeTag(kind, fd, bid);
      TagType(tag) == kind && TagFd(tag) == fd && TagBid(tag) == bid
  {
    var tag := MakeTag(kind, fd, bid);
    var high := kind * P16 + bid;
    assert tag == high * P32 + fd;
    assert tag / P32 == high && tag % P32 == fd;
    assert high / P16 == kind && high % P16 == bid;
    assert tag / P48 == kind by {
      assert tag == kind * P48 + (bid * P32 + fd);
      assert bid * P32 + fd < P48;
    }
  }

  /** Two operations with the same tag are the same operation. */
  lemma TagsInjective(k1: nat, f1: nat, b1: nat, k2: nat, f2: nat, b2: nat)
    requires f1 < P32 && f2 < P32 && b1 < P16 && b2 < P16
    requires MakeTag(k1, f1, b1) == MakeTag(k2, f2, b2)
    ensures k1 == k2 && f1 == f2 && b1 == b2
  {
    TagRoundTrip(k1, f1, b1);
    TagRoundTrip(k2, f2, b2);
  }
}
