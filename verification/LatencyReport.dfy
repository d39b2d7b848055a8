/** From latencies to the three reported percentiles (loadgen.c, worker_thread and main): the
    record a worker keeps, the merge of all records, and the report. A latency is a real number
    of microseconds. */
module LatencyReport {
  import opened Histogram

  /** What percentile is reported for latencies of a second or more. */
  const OVERFLOWED: nat := 1_000_000

  /** The whole microseconds of the latencies that are not negative. */
  function Floors(samples: seq<real>): seq<int> {
    if samples == [] then [] else Kept(samples[0]) + Floors(samples[1..])
  }

  function Kept(x: real): seq<int> {
    if x >= 0.0 then [x.Floor] else []
  }

  lemma {:induction false} FloorsAppend(s: seq<real>, x: real)
    ensures Floors(s + [x]) == Floors(s) + Kept(x)
  {
    if s == [] {
      assert s + [x] == [x] && [x][1..] == [];
    } else {
      var t := s + [x];
      assert t[0] == s[0] && t[1..] == s[1..] + [x];
      FloorsAppend(s[1..], x);
    }
  }

  lemma {:induction false} FloorsNonNegative(s: seq<real>)
    ensures forall i | 0 <= i < |Floors(s)| :: 0 <= Floors(s)[i]
    ensures |Floors(s)| <= |s|
  {
    if s != [] {
      FloorsNonNegative(s[1..]);
    }
  }

  /** What a worker hands over. A worker that could not allocate its histogram hands over none. */
  datatype Output = Output(histogram: seq<nat>, overflow: nat, completed: nat) {
    predicate Valid() {
      |histogram| == BUCKETS || histogram == []
    }
  }

  /** The buckets are 32 bits wide. */
  predicate Describes(o: Output, samples: seq<real>) {
    && |o.histogram| == BUCKETS
    && (forall b | 0 <= b < BUCKETS :: o.histogram[b] == Count(Floors(samples), b) % UINT32)
    && o.overflow == |Floors(samples)| - Below(Floors(samples), BUCKETS)
    && o.completed == |samples|
  }

  /** A bucket is exact unless it was hit 2^32 times. */
  lemma ExactIff(o: Output, samples: seq<real>)
    requires Describes(o, samples)
    ensures HistogramOf(o.histogram, Floors(samples)) <==>
            forall b | 0 <= b < BUCKETS :: Count(Floors(samples), b) < UINT32
  {
    FloorsNonNegative(samples);
    if HistogramOf(o.histogram, Floors(samples)) {
      forall b | 0 <= b < BUCKETS ensures Count(Floors(samples), b) < UINT32 {
        assert o.histogram[b] == Count(Floors(samples), b);
      }
    } else {
      var b :| 0 <= b < BUCKETS && o.histogram[b] != Count(Floors(samples), b);
      assert Count(Floors(samples), b) >= UINT32;
    }
  }

  /** The part of struct worker_arg that measures. */
  class Worker {
    const histogram: array<nat>
    var overflow: nat
    var completed: nat
    ghost var samples: seq<real>

    ghost function Result(): Output
      reads this, histogram
    {
      Output(histogram[..], overflow, completed)
    }

    ghost predicate Valid()
      reads this, histogram
    {
      Describes(Result(), samples)
    }

    constructor ()
      ensures Valid() && samples == [] && fresh(histogram)
    {
      histogram := new nat[BUCKETS](_ => 0);
      overflow, completed, samples := 0, 0, [];
    }

    /** An echo was complete and correct. */
    method Record(latency: real)
      requires Valid()
      modifies this, histogram
      ensures Valid() && samples == old(samples) + [latency]
    {
      ghost var was := Result();
      FloorsAppend(samples, latency);
      completed := completed + 1;
      if latency >= 0.0 {
        var i := latency.Floor;
        if i < BUCKETS {
          histogram[i] := (histogram[i] + 1) % UINT32;
        } else {
          overflow := overflow + 1;
        }
        assert Result().histogram == if i < BUCKETS
          then was.histogram[i := (was.histogram[i] + 1) % UINT32] else was.histogram;
        RecordDescribed(was, Result(), samples, latency);
      } else {
        assert Floors(samples) + [] == Floors(samples);
      }
      samples := samples + [latency];
    }
  }

  lemma CountAdded(xs: seq<int>, i: int, b: int)
    ensures Count(xs + [i], b) == Count(xs, b) + (if i == b then 1 else 0)
    ensures Below(xs + [i], b) == Below(xs, b) + (if i < b then 1 else 0)
  {
    CountConcat(xs, [i], b);
    BelowConcat(xs, [i], b);
    assert [i][1..] == [];
  }

  lemma RecordDescribed(o: Output, o': Output, samples: seq<real>, x: real)
    requires Describes(o, samples) && x >= 0.0
    requires o'.completed == o.completed + 1
    requires o'.overflow == o.overflow + (if x.Floor < BUCKETS then 0 else 1)
    requires o'.histogram == if x.Floor < BUCKETS
                             then o.histogram[x.Floor := (o.histogram[x.Floor] + 1) % UINT32] else o.histogram
    ensures Describes(o', samples + [x])
  {
    var xs, i := Floors(samples), x.Floor;
    FloorsAppend(samples, x);
    assert Floors(samples + [x]) == xs + [i];
    CountAdded(xs, i, BUCKETS);
    forall b | 0 <= b < BUCKETS ensures o'.histogram[b] == Count(xs + [i], b) % UINT32 {
      CountAdded(xs, i, b);
      WrapStep(Count(xs, b));
      assert o'.histogram[b] == if b == i then (o.histogram[b] + 1) % UINT32 else o.histogram[b];
    }
  }

  lemma WrapStep(n: nat)
    ensures (n % UINT32 + 1) % UINT32 == (n + 1) % UINT32
  {
  }

  // ---------------------------------------------------------------- merging

  /** Bucket b over all workers. */
  function SumAt(args: seq<Output>, b: nat): nat {
    if args == [] then 0
    else SumAt(args[..|args| - 1], b) + At(args[|args| - 1], b)
  }

  function At(o: Output, b: nat): nat {
    if b < |o.histogram| then o.histogram[b] else 0
  }

  function Completed(args: seq<Output>): nat {
    if args == [] then 0 else Completed(args[..|args| - 1]) + args[|args| - 1].completed
  }

  function Overflow(args: seq<Output>): nat {
    if args == [] then 0 else Overflow(args[..|args| - 1]) + args[|args| - 1].overflow
  }

  ghost function Merged(args: seq<Output>): (h: seq<nat>)
    ensures |h| == BUCKETS
    ensures forall b | 0 <= b < BUCKETS :: h[b] == SumAt(args, b)
  {
    seq(BUCKETS, (b: nat) => SumAt(args, b))
  }

  method AddHistogram(merged: array<nat>, h: seq<nat>)
    requires merged.Length == BUCKETS == |h|
    modifies merged
    ensures forall b | 0 <= b < BUCKETS :: merged[b] == old(merged[b]) + h[b]
  {
    for b := 0 to BUCKETS
      invariant forall k | 0 <= k < b :: merged[k] == old(merged[k]) + h[k]
      invariant forall k | b <= k < BUCKETS :: merged[k] == old(merged[k])
    {
      merged[b] := merged[b] + h[b];
    }
  }

  method Merge(args: seq<Output>) returns (merged: array<nat>, completed: nat, overflow: nat)
    requires forall o | o in args :: o.Valid()
    ensures fresh(merged) && merged[..] == Merged(args)
    ensures completed == Completed(args) && overflow == Overflow(args)
  {
    merged := new nat[BUCKETS](_ => 0);
    completed, overflow := 0, 0;
    for i := 0 to |args|
      invariant forall b | 0 <= b < BUCKETS :: merged[b] == SumAt(args[..i], b)
      invariant completed == Completed(args[..i]) && overflow == Overflow(args[..i])
    {
      assert args[..i + 1][..i] == args[..i];
      var o := args[i];
      assert o in args;
      completed := completed + o.completed;
      if o.histogram != [] {
        AddHistogram(merged, o.histogram);
      }
      overflow := overflow + o.overflow;
    }
    assert args[..|args|] == args;
  }

  // ---------------------------------------------------------------- reporting

  datatype Report = Report(p50: nat, p99: nat, p999: nat)

  /** Each percentile is the bucket where its share of the requests is reached, 50 and 99 of 100 and
      999 of 1000; where the histogram ends before that, zero is reported, except that the last
      percentile tells of overflow. */
  ghost predicate IsReport(h: seq<nat>, total: nat, overflow: nat, r: Report) {
    if total == 0 then r == Report(0, 0, 0)
    else
      && (if 50 * total < 100 * (Mass(h) + 1) then FirstAt(h, 50 * total, 100, r.p50) else r.p50 == 0)
      && (if 99 * total < 100 * (Mass(h) + 1) then FirstAt(h, 99 * total, 100, r.p99) else r.p99 == 0)
      && (if 999 * total < 1000 * (Mass(h) + 1) then FirstAt(h, 999 * total, 1000, r.p999)
          else r.p999 == if overflow > 0 then OVERFLOWED else 0)
  }

  /** A percentile in terms of its rank. */
  lemma OutcomeAt(h: seq<nat>, c: nat, share: nat, whole: nat, found: bool, p: nat)
    requires |h| > 0 && whole > 0 && whole * c <= share < whole * (c + 1) && Outcome(h, c, found, p)
    ensures found <==> share < whole * (Mass(h) + 1)
    ensures if found then FirstAt(h, share, whole, p) else p == 0
  {
    if found {
      ReachesIff(h, c, share, whole, p);
    } else {
      ReachesIff(h, c, share, whole, 0);
    }
  }

  /** The same read backwards. */
  lemma ReportReaches(h: seq<nat>, total: nat, overflow: nat, r: Report)
    requires IsReport(h, total, overflow, r) && total > 0 && |h| > 0
    ensures if Rank50(total) <= Mass(h) then Reaches(h, Rank50(total), r.p50) else r.p50 == 0
    ensures if Rank99(total) <= Mass(h) then Reaches(h, Rank99(total), r.p99) else r.p99 == 0
    ensures if Rank999(total) <= Mass(h) then Reaches(h, Rank999(total), r.p999)
            else r.p999 == if overflow > 0 then OVERFLOWED else 0
  {
    RankReaches(h, Rank50(total), 50 * total, 100, r.p50);
    RankReaches(h, Rank99(total), 99 * total, 100, r.p99);
    RankReaches(h, Rank999(total), 999 * total, 1000, r.p999);
  }

  lemma RankReaches(h: seq<nat>, c: nat, share: nat, whole: nat, p: nat)
    requires |h| > 0 && whole > 0 && whole * c <= share < whole * (c + 1)
    ensures c <= Mass(h) <==> share < whole * (Mass(h) + 1)
    ensures FirstAt(h, share, whole, p) ==> Reaches(h, c, p)
  {
    ReachesIff(h, c, share, whole, if p < |h| then p else 0);
  }

  method Summarize(args: seq<Output>) returns (r: Report)
    requires forall o | o in args :: o.Valid()
    ensures IsReport(Merged(args), Completed(args), Overflow(args), r)
  {
    var h, total, overflow := Merge(args);
    var p50, p99, p999 := 0, 0, 0;
    if total > 0 {
      RanksAscend(total);
      var found50, found99, found999;
      p50, found50, p99, found99, p999, found999 := Scan(h, Rank50(total), Rank99(total), Rank999(total));
      OutcomeAt(h[..], Rank50(total), 50 * total, 100, found50, p50);
      OutcomeAt(h[..], Rank99(total), 99 * total, 100, found99, p99);
      OutcomeAt(h[..], Rank999(total), 999 * total, 1000, found999, p999);
      if !found999 && overflow > 0 {
        p999 := OVERFLOWED;
      }
    }
    r := Report(p50, p99, p999);
  }

  // ---------------------------------------------------------------- what is reported

  function AllFloors(samples: seq<seq<real>>): seq<int> {
    if samples == [] then [] else AllFloors(samples[..|samples| - 1]) + Floors(samples[|samples| - 1])
  }

  function Total(samples: seq<seq<real>>): nat {
    if samples == [] then 0 else Total(samples[..|samples| - 1]) + |samples[|samples| - 1]|
  }

  /** Every worker's output describes its latencies, and no bucket of it has wrapped. */
  ghost predicate Described(args: seq<Output>, samples: seq<seq<real>>) {
    && |args| == |samples|
    && forall i | 0 <= i < |args| ::
         Describes(args[i], samples[i]) && HistogramOf(args[i].histogram, Floors(samples[i]))
  }

  lemma {:induction false} MergedCounts(args: seq<Output>, samples: seq<seq<real>>, b: nat)
    requires Described(args, samples) && b < BUCKETS
    ensures SumAt(args, b) == Count(AllFloors(samples), b)
  {
    if args != [] {
      var n := |args| - 1;
      MergedCounts(args[..n], samples[..n], b);
      CountConcat(AllFloors(samples[..n]), Floors(samples[n]), b);
    }
  }

  lemma {:induction false} MergedTotals(args: seq<Output>, samples: seq<seq<real>>)
    requires Described(args, samples)
    ensures Completed(args) == Total(samples)
    ensures Overflow(args) == |AllFloors(samples)| - Below(AllFloors(samples), BUCKETS)
    ensures |AllFloors(samples)| <= Total(samples)
    ensures forall i | 0 <= i < |AllFloors(samples)| :: 0 <= AllFloors(samples)[i]
  {
    if args != [] {
      var n := |args| - 1;
      MergedTotals(args[..n], samples[..n]);
      BelowConcat(AllFloors(samples[..n]), Floors(samples[n]), BUCKETS);
      FloorsNonNegative(samples[n]);
    }
  }

  lemma MergedIsHistogram(args: seq<Output>, samples: seq<seq<real>>)
    requires Described(args, samples)
    ensures HistogramOf(Merged(args), AllFloors(samples))
  {
    MergedTotals(args, samples);
    forall b | 0 <= b < BUCKETS ensures Merged(args)[b] == Count(AllFloors(samples), b) {
      MergedCounts(args, samples, b);
    }
  }

  predicate NonNegative(s: seq<real>) {
    forall k | 0 <= k < |s| :: s[k] >= 0.0
  }

  /** What a monotone clock gives: no latency is negative. */
  predicate Monotone(samples: seq<seq<real>>) {
    forall i | 0 <= i < |samples| :: NonNegative(samples[i])
  }

  lemma {:induction false} FloorsKeepAllIff(s: seq<real>)
    ensures |Floors(s)| <= |s|
    ensures |Floors(s)| == |s| <==> NonNegative(s)
  {
    if s != [] {
      FloorsKeepAllIff(s[1..]);
      assert NonNegative(s) <==> s[0] >= 0.0 && NonNegative(s[1..]) by {
        if s[0] >= 0.0 && NonNegative(s[1..]) {
          forall k | 0 <= k < |s| ensures s[k] >= 0.0 {
            assert k > 0 ==> s[k] == s[1..][k - 1];
          }
        }
      }
    }
  }

  lemma {:induction false} AllKeptIff(samples: seq<seq<real>>)
    ensures |AllFloors(samples)| <= Total(samples)
    ensures |AllFloors(samples)| == Total(samples) <==> Monotone(samples)
  {
    if samples != [] {
      var n := |samples| - 1;
      AllKeptIff(samples[..n]);
      FloorsKeepAllIff(samples[n]);
      assert Monotone(samples) <==> Monotone(samples[..n]) && NonNegative(samples[n]);
    }
  }

  /** A negative latency is a completed request that is neither in the histogram nor counted as
      overflow; there is no other loss. */
  lemma Accounting(args: seq<Output>, samples: seq<seq<real>>)
    requires Described(args, samples)
    ensures Mass(Merged(args)) + Overflow(args) == |AllFloors(samples)|
    ensures Completed(args) == Mass(Merged(args)) + Overflow(args) <==> Monotone(samples)
  {
    AllKeptIff(samples);
    MergedTotals(args, samples);
    MergedIsHistogram(args, samples);
    PrefixIsBelow(Merged(args), AllFloors(samples), BUCKETS);
  }

  /** Element c - 1 of all latencies in ascending order, in whole microseconds. */
  function Ranked(samples: seq<seq<real>>, c: nat): int
    requires 1 <= c <= |AllFloors(samples)|
  {
    SortedFacts(AllFloors(samples));
    Sorted(AllFloors(samples))[c - 1]
  }

  lemma ReportedIsRanked(args: seq<Output>, samples: seq<seq<real>>, c: nat, p: nat)
    requires Described(args, samples) && 1 <= c <= |AllFloors(samples)|
    ensures c <= Mass(Merged(args)) <==> Ranked(samples, c) < BUCKETS
    ensures c <= Mass(Merged(args)) && Reaches(Merged(args), c, p) ==> p == Ranked(samples, c)
  {
    MergedIsHistogram(args, samples);
    var h, xs := Merged(args), AllFloors(samples);
    if c <= Mass(h) {
      var q := FirstReaching(h, c);
      OrderStatistic(h, xs, c, true, q);
      if Reaches(h, c, p) {
        OrderStatistic(h, xs, c, true, p);
      }
    } else {
      OrderStatistic(h, xs, c, false, 0);
    }
  }

  lemma {:induction false} FirstReaching(h: seq<nat>, c: nat) returns (b: nat)
    requires |h| > 0 && c <= Mass(h)
    ensures Reaches(h, c, b)
  {
    b := |h| - 1;
    while b > 0 && Prefix(h, b) >= c
      invariant b < |h| && c <= Prefix(h, b + 1)
    {
      b := b - 1;
    }
  }

  /** With two requests or more and a monotone clock, each reported percentile is an element of
      the sorted latencies; where that latency is a second or more, the report says zero, for the
      last percentile a million. */
  lemma ReportIsOrderStatistic(args: seq<Output>, samples: seq<seq<real>>, r: Report)
    requires Described(args, samples) && Monotone(samples) && Total(samples) >= 2
    requires IsReport(Merged(args), Completed(args), Overflow(args), r)
    ensures |AllFloors(samples)| == Total(samples)
    ensures var n := Total(samples);
      && 1 <= Rank50(n) <= Rank99(n) <= Rank999(n) <= n
      && var v50, v99, v999 := Ranked(samples, Rank50(n)), Ranked(samples, Rank99(n)), Ranked(samples, Rank999(n));
      && r.p50 == (if v50 < BUCKETS then v50 else 0)
      && r.p99 == (if v99 < BUCKETS then v99 else 0)
      && r.p999 == (if v999 < BUCKETS then v999 else OVERFLOWED)
  {
    var n := Total(samples);
    AllKeptIff(samples);
    RanksAscend(n);
    RanksPositiveIff(n);
    MergedTotals(args, samples);
    Accounting(args, samples);
    ReportReaches(Merged(args), n, Overflow(args), r);
    ReportedIsRanked(args, samples, Rank50(n), r.p50);
    ReportedIsRanked(args, samples, Rank99(n), r.p99);
    ReportedIsRanked(args, samples, Rank999(n), r.p999);
  }

  /** p splits the values at a share of them: with those below it and itself the share is not passed,
      with all up to it and one more it is. */
  predicate Splits(xs: seq<int>, share: nat, whole: nat, p: int) {
    whole * (Below(xs, p) + 1) <= share < whole * (Below(xs, p + 1) + 1)
  }

  /** The element of a rank, in terms of the share that the rank was rounded down from. */
  lemma RankedSplits(xs: seq<int>, c: nat, share: nat, whole: nat, p: int)
    requires whole > 0 && whole * c <= share < whole * (c + 1)
    requires 1 <= c <= |xs| == |Sorted(xs)| && Sorted(xs)[c - 1] == p
    ensures p < BUCKETS <==> share < whole * (Below(xs, BUCKETS) + 1)
    ensures p >= 0 ==> Splits(xs, share, whole, p)
  {
    LocatesRank(xs, c, p);
    RankAtMost(c, share, whole, Below(xs, p));
    RankAtMost(c, share, whole, Below(xs, p + 1));
    RankAtMost(c, share, whole, Below(xs, BUCKETS));
  }

  lemma LocatesRank(xs: seq<int>, c: nat, p: int)
    requires 1 <= c <= |xs| == |Sorted(xs)| && Sorted(xs)[c - 1] == p
    ensures Below(xs, p) < c <= Below(xs, p + 1)
    ensures p < BUCKETS <==> c <= Below(xs, BUCKETS)
  {
    SortedFacts(xs);
    SortedBelow(xs, p);
    SortedBelow(xs, p + 1);
    SortedBelow(xs, BUCKETS);
    RankInSorted(Sorted(xs), p, c - 1);
    RankInSorted(Sorted(xs), p + 1, c - 1);
    RankInSorted(Sorted(xs), BUCKETS, c - 1);
  }

  /** One reported number. */
  predicate IsShare(xs: seq<int>, share: nat, whole: nat, p: nat, otherwise: nat) {
    if share < whole * (Below(xs, BUCKETS) + 1) then Splits(xs, share, whole, p) else p == otherwise
  }

  lemma RankedShare(samples: seq<seq<real>>, c: nat, share: nat, whole: nat, p: nat, otherwise: nat)
    requires whole > 0 && whole * c <= share < whole * (c + 1) && 1 <= c <= |AllFloors(samples)|
    requires p == if Ranked(samples, c) < BUCKETS then Ranked(samples, c) else otherwise
    ensures IsShare(AllFloors(samples), share, whole, p, otherwise)
  {
    SortedFacts(AllFloors(samples));
    RankedSplits(AllFloors(samples), c, share, whole, Ranked(samples, c));
  }

  /** What the three numbers are, in terms of the latencies and nothing else: of n of them, p50 has so
      many below it that with it they are no more than n * 50 / 100, and so many up to it that with one
      more they would be; and so on for 99 of 100 and 999 of 1000. Where that needs a latency of a
      second or more, zero, or a million, is reported instead. */
  lemma ReportedShares(args: seq<Output>, samples: seq<seq<real>>, r: Report)
    requires Described(args, samples) && Monotone(samples) && Total(samples) >= 2
    requires IsReport(Merged(args), Completed(args), Overflow(args), r)
    ensures var n, xs := Total(samples), AllFloors(samples);
      && |xs| == n && IsShare(xs, 50 * n, 100, r.p50, 0)
      && IsShare(xs, 99 * n, 100, r.p99, 0) && IsShare(xs, 999 * n, 1000, r.p999, OVERFLOWED)
  {
    var n := Total(samples);
    ReportIsOrderStatistic(args, samples, r);
    RankedShare(samples, Rank50(n), 50 * n, 100, r.p50, 0);
    RankedShare(samples, Rank99(n), 99 * n, 100, r.p99, 0);
    RankedShare(samples, Rank999(n), 999 * n, 1000, r.p999, OVERFLOWED);
  }

  /** The reported percentiles ascend from the second to the third; from the first to the second
      exactly when the latency of rank 99 is below a second, or that of rank 50 is below a
      microsecond or not below a second. */
  lemma ReportAscendsIff(args: seq<Output>, samples: seq<seq<real>>, r: Report)
    requires Described(args, samples) && Monotone(samples) && Total(samples) >= 2
    requires IsReport(Merged(args), Completed(args), Overflow(args), r)
    ensures r.p99 <= r.p999
    ensures var n := Total(samples);
      && 1 <= Rank50(n) <= Rank99(n) <= |AllFloors(samples)|
      && var v50, v99 := Ranked(samples, Rank50(n)), Ranked(samples, Rank99(n));
      && (r.p50 <= r.p99 <==> v50 == 0 || v50 >= BUCKETS || v99 < BUCKETS)
  {
    ReportIsOrderStatistic(args, samples, r);
    var n := Total(samples);
    RankedAscends(samples, Rank50(n), Rank99(n));
    RankedAscends(samples, Rank99(n), Rank999(n));
  }

  lemma RankedAscends(samples: seq<seq<real>>, c: nat, c': nat)
    requires 1 <= c <= c' <= |AllFloors(samples)|
    ensures Ranked(samples, c) <= Ranked(samples, c')
  {
    SortedFacts(AllFloors(samples));
  }

  /** With a single request the ranks round down to zero, and zero is reported whatever its
      latency was. */
  lemma SingleRequestReportsZero(h: seq<nat>, overflow: nat, r: Report)
    requires IsReport(h, 1, overflow, r)
    ensures r == Report(0, 0, 0)
  {
    assert Rank50(1) == 0 && Rank99(1) == 0 && Rank999(1) == 0;
  }

  /** The output that describes a worker's latencies. */
  ghost function Describe(samples: seq<real>): (o: Output)
    ensures Describes(o, samples)
  {
    var xs := Floors(samples);
    Output(seq(BUCKETS, (b: nat) => Count(xs, b) % UINT32), |xs| - Below(xs, BUCKETS), |samples|)
  }

  function SlowTail(): seq<real> {
    [1.0, 1_000_000.0, 1_000_000.0]
  }

  lemma SlowTailFloors()
    ensures AllFloors([SlowTail()]) == [1, 1_000_000, 1_000_000] == Sorted([1, 1_000_000, 1_000_000])
  {
    var s := SlowTail();
    assert s[1..] == [1_000_000.0, 1_000_000.0] && s[1..][1..] == [1_000_000.0] && s[1..][1..][1..] == [];
    assert Floors([1_000_000.0]) == [1_000_000];
    assert Floors(s[1..]) == [1_000_000, 1_000_000];
    assert Floors(s) == [1, 1_000_000, 1_000_000];
    var none: seq<seq<real>> := [];
    assert [s][..0] == none && AllFloors(none) == [];
    var xs: seq<int> := [1, 1_000_000, 1_000_000];
    assert xs[1..] == [1_000_000, 1_000_000] && xs[1..][1..] == [1_000_000] && xs[1..][1..][1..] == [];
    assert Sorted([1_000_000]) == [1_000_000];
    assert Sorted(xs[1..]) == [1_000_000, 1_000_000];
  }

  /** The median can be reported above the 99th percentile: for one worker that measured a
      microsecond, a second and a second, the report says 1, 0 and a million. */
  lemma MedianAboveP99(r: Report)
    requires var args := [Describe(SlowTail())];
      IsReport(Merged(args), Completed(args), Overflow(args), r)
    ensures r == Report(1, 0, 1_000_000)
  {
    SlowTailFloors();
    SlowTailDescribed();
    ReportIsOrderStatistic([Describe(SlowTail())], [SlowTail()], r);
    SlowTailRanked();
  }

  lemma SlowTailDescribed()
    ensures Described([Describe(SlowTail())], [SlowTail()])
    ensures Monotone([SlowTail()]) && Total([SlowTail()]) == 3
  {
    ExactIff(Describe(SlowTail()), SlowTail());
    var samples := [SlowTail()];
    assert |Floors(SlowTail())| <= 3 by { FloorsKeepAllIff(SlowTail()); }
    assert samples[..0] == [] && Total(samples[..0]) == 0;
  }

  lemma SlowTailRanked()
    ensures Rank50(3) == 1 && Rank99(3) == 2 && Rank999(3) == 2
    ensures |AllFloors([SlowTail()])| == 3
    ensures Ranked([SlowTail()], 1) == 1 && Ranked([SlowTail()], 2) == 1_000_000
  {
    SlowTailFloors();
  }
}
