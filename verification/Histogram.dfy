/** The load generator's latencies (loadgen.c): a histogram per worker with one bucket for each
    microsecond below a second, the merge of the workers' histograms, and the scan that reads
    three percentiles off the merged one.

    Every claim about the scan is made against sorting the latencies themselves. */
module Histogram {
  const BUCKETS: nat := 1_000_000
  const UINT32: nat := 0x1_0000_0000

  // ---------------------------------------------------------------- counting and sorting

  function Count(xs: seq<int>, b: int): (n: nat)
    ensures n <= |xs|
  {
    if xs == [] then 0 else (if xs[0] == b then 1 else 0) + Count(xs[1..], b)
  }

  /** How many are less than b. */
  function Below(xs: seq<int>, b: int): (n: nat)
    ensures n <= |xs|
  {
    if xs == [] then 0 else (if xs[0] < b then 1 else 0) + Below(xs[1..], b)
  }

  lemma {:induction false} BelowNext(xs: seq<int>, b: int)
    ensures Below(xs, b + 1) == Below(xs, b) + Count(xs, b)
  {
    if xs != [] {
      BelowNext(xs[1..], b);
    }
  }

  lemma {:induction false} BelowNone(xs: seq<int>, b: int)
    requires forall i | 0 <= i < |xs| :: b <= xs[i]
    ensures Below(xs, b) == 0
  {
    if xs != [] {
      BelowNone(xs[1..], b);
    }
  }

  lemma {:induction false} CountConcat(xs: seq<int>, ys: seq<int>, b: int)
    ensures Count(xs + ys, b) == Count(xs, b) + Count(ys, b)
  {
    if xs == [] {
      assert xs + ys == ys;
    } else {
      assert (xs + ys)[0] == xs[0] && (xs + ys)[1..] == xs[1..] + ys;
      CountConcat(xs[1..], ys, b);
    }
  }

  lemma {:induction false} BelowConcat(xs: seq<int>, ys: seq<int>, b: int)
    ensures Below(xs + ys, b) == Below(xs, b) + Below(ys, b)
  {
    if xs == [] {
      assert xs + ys == ys;
    } else {
      assert (xs + ys)[0] == xs[0] && (xs + ys)[1..] == xs[1..] + ys;
      BelowConcat(xs[1..], ys, b);
    }
  }

  predicate Ascending(xs: seq<int>) {
    forall i, j | 0 <= i < j < |xs| :: xs[i] <= xs[j]
  }

  function Insert(x: int, xs: seq<int>): seq<int> {
    if xs == [] || x <= xs[0] then [x] + xs else [xs[0]] + Insert(x, xs[1..])
  }

  function Sorted(xs: seq<int>): seq<int> {
    if xs == [] then [] else Insert(xs[0], Sorted(xs[1..]))
  }

  lemma {:induction false} InsertBag(x: int, xs: seq<int>)
    ensures multiset(Insert(x, xs)) == multiset(xs) + multiset{x}
  {
    if xs != [] && x > xs[0] {
      InsertBag(x, xs[1..]);
      assert xs == [xs[0]] + xs[1..];
    }
  }

  lemma {:induction false} InsertAscending(x: int, xs: seq<int>)
    requires Ascending(xs)
    ensures Ascending(Insert(x, xs)) && (Insert(x, xs)[0] == x || (xs != [] && Insert(x, xs)[0] == xs[0]))
  {
    if xs != [] && x > xs[0] {
      InsertAscending(x, xs[1..]);
    }
  }

  lemma {:induction false} SortedAscending(xs: seq<int>)
    ensures Ascending(Sorted(xs))
  {
    if xs != [] {
      SortedAscending(xs[1..]);
      InsertAscending(xs[0], Sorted(xs[1..]));
    }
  }

  lemma {:induction false} SortedBag(xs: seq<int>)
    ensures multiset(Sorted(xs)) == multiset(xs)
  {
    if xs != [] {
      SortedBag(xs[1..]);
      InsertBag(xs[0], Sorted(xs[1..]));
      assert xs == [xs[0]] + xs[1..];
    }
  }

  /** The reference: the same values in ascending order. */
  lemma SortedFacts(xs: seq<int>)
    ensures Ascending(Sorted(xs)) && multiset(Sorted(xs)) == multiset(xs) && |Sorted(xs)| == |xs|
  {
    SortedAscending(xs);
    SortedBag(xs);
    assert |multiset(Sorted(xs))| == |multiset(xs)|;
  }

  lemma {:induction false} InsertBelow(x: int, xs: seq<int>, b: int)
    ensures Below(Insert(x, xs), b) == Below(xs, b) + (if x < b then 1 else 0)
  {
    if xs != [] && x > xs[0] {
      InsertBelow(x, xs[1..], b);
    }
  }

  lemma {:induction false} SortedBelow(xs: seq<int>, b: int)
    ensures Below(Sorted(xs), b) == Below(xs, b)
  {
    if xs != [] {
      SortedBelow(xs[1..], b);
      InsertBelow(xs[0], Sorted(xs[1..]), b);
    }
  }

  /** In ascending order the values less than b come first, so counting them locates b. */
  lemma {:induction false} RankInSorted(ys: seq<int>, b: int, k: nat)
    requires Ascending(ys) && k < |ys|
    ensures ys[k] < b <==> k < Below(ys, b)
  {
    if k > 0 {
      RankInSorted(ys[1..], b, k - 1);
    } else if ys[0] >= b {
      BelowNone(ys, b);
    }
  }

  // ---------------------------------------------------------------- the scan

  function Prefix(h: seq<nat>, b: nat): nat
    requires b <= |h|
  {
    if b == 0 then 0 else Prefix(h, b - 1) + h[b - 1]
  }

  function Mass(h: seq<nat>): nat {
    Prefix(h, |h|)
  }

  lemma {:induction false} PrefixGrows(h: seq<nat>, a: nat, b: nat)
    requires a <= b <= |h|
    ensures Prefix(h, a) <= Prefix(h, b)
  {
    if a < b {
      PrefixGrows(h, a, b - 1);
    }
  }

  /** b is the first bucket at which at least c latencies have been seen. */
  predicate Reaches(h: seq<nat>, c: nat, b: nat) {
    b < |h| && c <= Prefix(h, b + 1) && (b > 0 ==> Prefix(h, b) < c)
  }

  /** A percentile as the scan leaves it: the bucket found, or nothing and zero. */
  predicate Outcome(h: seq<nat>, c: nat, found: bool, p: nat) {
    (found <==> c <= Mass(h)) && (if found then Reaches(h, c, p) else p == 0)
  }

  /** The percentile loop with its early exit. That the exit loses nothing is the point: when the
      last percentile is found the other two have been found already. */
  method Scan(h: array<nat>, c50: nat, c99: nat, c999: nat)
    returns (p50: nat, found50: bool, p99: nat, found99: bool, p999: nat, found999: bool)
    requires h.Length > 0 && c50 <= c99 <= c999
    ensures Outcome(h[..], c50, found50, p50)
    ensures Outcome(h[..], c99, found99, p99)
    ensures Outcome(h[..], c999, found999, p999)
  {
    p50, p99, p999 := 0, 0, 0;
    found50, found99, found999 := false, false, false;
    var running := 0;
    ghost var s := h[..];
    var b := 0;
    while b < h.Length
      invariant b <= h.Length && running == Prefix(s, b) && !found999
      invariant Sofar(s, b, c50, found50, p50)
      invariant Sofar(s, b, c99, found99, p99)
      invariant Sofar(s, b, c999, found999, p999)
    {
      running := running + h[b];
      assert running == Prefix(s, b + 1);
      if !found50 && running >= c50 {
        p50, found50 := b, true;
      }
      if !found99 && running >= c99 {
        p99, found99 := b, true;
      }
      if !found999 && running >= c999 {
        p999, found999 := b, true;
        break;
      }
      b := b + 1;
    }
    ghost var seen := if found999 then b + 1 else b;
    SofarOutcome(s, seen, c50, found50, p50);
    SofarOutcome(s, seen, c99, found99, p99);
    SofarOutcome(s, seen, c999, found999, p999);
  }

  /** A percentile after b buckets. */
  predicate Sofar(h: seq<nat>, b: nat, c: nat, found: bool, p: nat)
    requires b <= |h|
  {
    if found then Reaches(h, c, p) && p < b else p == 0 && (b > 0 ==> Prefix(h, b) < c)
  }

  lemma SofarOutcome(h: seq<nat>, b: nat, c: nat, found: bool, p: nat)
    requires 0 < b <= |h| && Sofar(h, b, c, found, p) && (found || b == |h|)
    ensures Outcome(h, c, found, p)
  {
    if found {
      PrefixGrows(h, p + 1, |h|);
    }
  }

  /** The first bucket to reach a count is no later than the first to reach a larger one. */
  lemma ReachesMonotone(h: seq<nat>, c: nat, b: nat, c': nat, b': nat)
    requires Reaches(h, c, b) && Reaches(h, c', b') && c <= c'
    ensures b <= b'
  {
    if b' < b {
      PrefixGrows(h, b' + 1, b);
    }
  }

  // ---------------------------------------------------------------- order statistics

  /** A histogram of the given values, with nothing kept of those past the last bucket. */
  predicate HistogramOf(h: seq<nat>, xs: seq<int>) {
    && (forall i | 0 <= i < |xs| :: 0 <= xs[i])
    && (forall b | 0 <= b < |h| :: h[b] == Count(xs, b))
  }

  lemma {:induction false} PrefixIsBelow(h: seq<nat>, xs: seq<int>, b: nat)
    requires HistogramOf(h, xs) && b <= |h|
    ensures Prefix(h, b) == Below(xs, b)
  {
    if b == 0 {
      BelowNone(xs, 0);
    } else {
      PrefixIsBelow(h, xs, b - 1);
      BelowNext(xs, b - 1);
    }
  }

  /** The scan agrees with sorting: for a rank c from 1 to the number of values, a bucket is found
      exactly when element c - 1 in ascending order falls within the histogram, and the bucket is
      that element. */
  lemma OrderStatistic(h: seq<nat>, xs: seq<int>, c: nat, found: bool, p: nat)
    requires HistogramOf(h, xs) && Outcome(h, c, found, p) && 1 <= c <= |xs|
    ensures |Sorted(xs)| == |xs|
    ensures found <==> Sorted(xs)[c - 1] < |h|
    ensures found ==> p == Sorted(xs)[c - 1]
  {
    SortedFacts(xs);
    var ys := Sorted(xs);
    SortedBelow(xs, |h|);
    PrefixIsBelow(h, xs, |h|);
    RankInSorted(ys, |h|, c - 1);
    if found {
      SortedBelow(xs, p + 1);
      PrefixIsBelow(h, xs, p + 1);
      RankInSorted(ys, p + 1, c - 1);
      SortedBelow(xs, p);
      PrefixIsBelow(h, xs, p);
      RankInSorted(ys, p, c - 1);
    }
  }

  // ---------------------------------------------------------------- ranks

  function Rank50(total: nat): (c: nat)
    ensures 100 * c <= 50 * total < 100 * (c + 1)
  {
    (total * 50) / 100
  }

  function Rank99(total: nat): (c: nat)
    ensures 100 * c <= 99 * total < 100 * (c + 1)
  {
    (total * 99) / 100
  }

  function Rank999(total: nat): (c: nat)
    ensures 1000 * c <= 999 * total < 1000 * (c + 1)
  {
    (total * 999) / 1000
  }

  /** b is the first bucket with which more than share / whole latencies, less one, have been seen. */
  predicate FirstAt(h: seq<nat>, share: nat, whole: nat, b: nat) {
    && b < |h| && share < whole * (Prefix(h, b + 1) + 1)
    && (b > 0 ==> whole * (Prefix(h, b) + 1) <= share)
  }

  /** To reach a rank is to reach the share it was rounded down from. */
  lemma ReachesIff(h: seq<nat>, c: nat, share: nat, whole: nat, b: nat)
    requires b < |h| && whole > 0 && whole * c <= share < whole * (c + 1)
    ensures Reaches(h, c, b) <==> FirstAt(h, share, whole, b)
    ensures c <= Mass(h) <==> share < whole * (Mass(h) + 1)
  {
    RankAtMost(c, share, whole, Prefix(h, b + 1));
    RankAtMost(c, share, whole, Prefix(h, b));
    RankAtMost(c, share, whole, Mass(h));
  }

  lemma RankAtMost(c: nat, share: nat, whole: nat, n: nat)
    requires whole > 0 && whole * c <= share < whole * (c + 1)
    ensures c <= n <==> share < whole * (n + 1)
  {
    if c <= n {
      assert whole * (c + 1) <= whole * (n + 1);
    } else {
      assert whole * (n + 1) <= whole * c;
    }
  }

  lemma RanksAscend(total: nat)
    ensures Rank50(total) <= Rank99(total) <= Rank999(total) <= total
  {
  }

  /** The ranks are ranks, that is not zero, exactly when there are two requests or more. */
  lemma RanksPositiveIff(total: nat)
    ensures total >= 2 <==> 1 <= Rank50(total)
    ensures total >= 2 <==> 1 <= Rank99(total)
    ensures total >= 2 <==> 1 <= Rank999(total)
  {
  }
}
