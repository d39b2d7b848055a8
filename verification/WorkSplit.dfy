/** How main of loadgen.c divides connections and cores among worker threads. The totals come from
    atoi and may be negative; C's division truncates towards zero. */
module WorkSplit {
  import opened Division

  function Quotient(a: int, n: nat): int
    requires n > 0
  {
    if a >= 0 then a / n else -((-a) / n)
  }

  function Remainder(a: int, n: nat): int
    requires n > 0
  {
    a - Quotient(a, n) * n
  }

  /** The share of thread i in a total. */
  function Share(total: int, threads: nat, i: nat): int
    requires threads > 0
  {
    Quotient(total, threads) + (if i < Remainder(total, threads) then 1 else 0)
  }

  /** The fields of struct worker_arg that main fills in from the totals. */
  datatype Arg = Arg(threadId: nat, coreId: int, conns: int, active: int)

  method Split(totalConns: int, wantedActive: int, wantedThreads: int, cores: seq<int>) returns (args: seq<Arg>)
    ensures |args| == if wantedThreads < 1 then 1 else wantedThreads
    ensures var active := if wantedActive > totalConns then totalConns else wantedActive;
      forall i | 0 <= i < |args| ::
        args[i] == Arg(i, if |cores| > 0 then cores[i % |cores|] else -1,
                       Share(totalConns, |args|, i), Share(active, |args|, i))
  {
    var active := if wantedActive > totalConns then totalConns else wantedActive;
    var threads := if wantedThreads < 1 then 1 else wantedThreads;
    var baseConns, remConns := Quotient(totalConns, threads), Remainder(totalConns, threads);
    var baseActive, remActive := Quotient(active, threads), Remainder(active, threads);
    args := [];
    for i := 0 to threads
      invariant |args| == i
      invariant forall k | 0 <= k < i ::
        args[k] == Arg(k, if |cores| > 0 then cores[k % |cores|] else -1,
                       Share(totalConns, threads, k), Share(active, threads, k))
    {
      args := args + [Arg(i, if |cores| > 0 then cores[i % |cores|] else -1,
                          baseConns + (if i < remConns then 1 else 0),
                          baseActive + (if i < remActive then 1 else 0))];
    }
  }

  /** The shares of the first k threads. */
  function Shares(total: int, threads: nat, k: nat): int
    requires threads > 0
  {
    if k == 0 then 0 else Shares(total, threads, k - 1) + Share(total, threads, k - 1)
  }

  lemma DivisionFacts(a: int, n: nat)
    requires n > 0
    ensures a >= 0 ==> 0 <= Remainder(a, n) < n
    ensures a < 0 ==> 0 <= -Remainder(a, n) < n
  {
  }

  lemma {:induction false} SharesPrefix(total: int, threads: nat, k: nat)
    requires threads > 0
    ensures Shares(total, threads, k) ==
            Quotient(total, threads) * k
            + (var r := Remainder(total, threads); if r < 0 then 0 else if k < r then k else r)
  {
    if k > 0 {
      SharesPrefix(total, threads, k - 1);
      var q := Quotient(total, threads);
      assert q * k == q * (k - 1) + q;
    }
  }

  /** The shares make up the total exactly when the total is not negative or divides evenly. */
  lemma SharesSumIff(total: int, threads: nat)
    requires threads > 0
    ensures Shares(total, threads, threads) == total <==> total >= 0 || Remainder(total, threads) == 0
  {
    SharesPrefix(total, threads, threads);
    DivisionFacts(total, threads);
  }

  /** Of minus three connections two threads are given minus two. */
  lemma NegativeNotShared()
    ensures Shares(-3, 2, 2) == -2
  {
    assert Quotient(-3, 2) == -1 && Remainder(-3, 2) == -1;
    SharesPrefix(-3, 2, 2);
  }

  lemma SharesEven(total: int, threads: nat, i: nat, j: nat)
    requires threads > 0 && i <= j
    ensures Share(total, threads, j) <= Share(total, threads, i) <= Share(total, threads, j) + 1
  {
  }

  lemma DivMonotone(a: nat, b: nat, n: nat)
    requires n > 0 && a <= b
    ensures a / n <= b / n
  {
    QuotientBound(n, a / n, a % n, b / n, b % n);
  }

  lemma QuotientMonotone(a: int, b: int, n: nat)
    requires n > 0 && a <= b
    ensures Quotient(a, n) <= Quotient(b, n)
  {
    if a >= 0 {
      DivMonotone(a, b, n);
    } else if b < 0 {
      DivMonotone(-b, -a, n);
    } else {
      DivMonotone(0, -a, n);
      DivMonotone(0, b, n);
    }
  }

  /** No thread is given more active connections than connections, whatever the totals. */
  lemma ActiveFits(total: int, active: int, threads: nat, i: nat)
    requires threads > 0 && active <= total
    ensures Share(active, threads, i) <= Share(total, threads, i)
  {
    QuotientMonotone(active, total, threads);
    DivisionFacts(active, threads);
    DivisionFacts(total, threads);
  }
}
