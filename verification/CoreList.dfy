/** parse_core_list of loadgen.c: a comma-separated list of cores and ranges of cores. Strings are
    sequences of characters without the terminator. */
module CoreList {

  // ---------------------------------------------------------------- the C library

  function SkipCommas(s: string): (r: string)
    ensures |r| <= |s| && (r != [] ==> r[0] != ',')
  {
    if s != [] && s[0] == ',' then SkipCommas(s[1..]) else s
  }

  /** The characters before the first one equal to c, or all of them. */
  function Until(s: string, c: char): (k: nat)
    ensures k <= |s| && (k < |s| ==> s[k] == c)
    ensures forall i | 0 <= i < k :: s[i] != c
  {
    if s == [] || s[0] == c then 0 else 1 + Until(s[1..], c)
  }

  predicate IsDigit(c: char) {
    '0' <= c <= '9'
  }

  predicate IsSpace(c: char) {
    c == ' ' || '\t' <= c <= '\r'
  }

  /** The value of the digits at the beginning, continuing from acc. */
  function Digits(s: string, acc: nat): nat {
    if s == [] || !IsDigit(s[0]) then acc
    else Digits(s[1..], 10 * acc + (s[0] as int - '0' as int))
  }

  function SkipSpaces(s: string): string {
    if s != [] && IsSpace(s[0]) then SkipSpaces(s[1..]) else s
  }

  function Atoi(s: string): int {
    var t := SkipSpaces(s);
    if t != [] && t[0] == '-' then 0 - Digits(t[1..], 0) as int
    else if t != [] && t[0] == '+' then Digits(t[1..], 0)
    else Digits(t, 0)
  }

  // ---------------------------------------------------------------- what is parsed

  /** What repeated strtok calls give. */
  function Tokens(s: string): seq<string>
    decreases |s|
  {
    var t := SkipCommas(s);
    if t == [] then [] else [t[..Until(t, ',')]] + Tokens(t[Until(t, ',')..])
  }

  function Range(a: int, b: int): seq<int>
    decreases b - a + 1
  {
    if a > b then [] else [a] + Range(a + 1, b)
  }

  function Expand(token: string): seq<int> {
    var k := Until(token, '-');
    if k < |token| then Range(Atoi(token[..k]), Atoi(token[k + 1..])) else [Atoi(token)]
  }

  function ExpandAll(tokens: seq<string>): seq<int> {
    if tokens == [] then [] else Expand(tokens[0]) + ExpandAll(tokens[1..])
  }

  function Take(n: nat, s: seq<int>): seq<int> {
    if |s| <= n then s else s[..n]
  }

  /** The inner loop: a range, as far as there is room. */
  method AddRange(cores: array<int>, max: nat, n0: nat, start: int, end: int) returns (n: nat)
    requires n0 <= max <= cores.Length
    modifies cores
    ensures n0 <= n <= max && cores[..n] == Take(max, old(cores[..n0]) + Range(start, end))
    ensures cores[n..] == old(cores[..])[n..]
  {
    n := n0;
    var c := start;
    ghost var goal := Take(max, cores[..n0] + Range(start, end));
    while c <= end && n < max
      invariant n0 <= n <= max && Take(max, cores[..n] + Range(c, end)) == goal
      invariant cores[n..] == old(cores[..])[n..]
      decreases end - c
    {
      ghost var before := cores[..n];
      cores[n] := c;
      assert before + Range(c, end) == cores[..n + 1] + Range(c + 1, end);
      n, c := n + 1, c + 1;
    }
  }

  /** One token: a range where it holds a dash, else a core. */
  method AddToken(cores: array<int>, max: nat, n0: nat, token: string) returns (n: nat)
    requires n0 < max <= cores.Length
    modifies cores
    ensures n0 <= n <= max && cores[..n] == Take(max, old(cores[..n0]) + Expand(token))
    ensures cores[n..] == old(cores[..])[n..]
  {
    var dash := Until(token, '-');
    if dash < |token| {
      n := AddRange(cores, max, n0, Atoi(token[..dash]), Atoi(token[dash + 1..]));
    } else {
      cores[n0] := Atoi(token);
      n := n0 + 1;
      assert cores[..n] == old(cores[..n0]) + [Atoi(token)];
    }
  }

  method ParseCoreList(str: string, cores: array<int>, max: nat) returns (n: nat)
    requires max <= cores.Length
    modifies cores
    ensures n <= max && cores[..n] == Take(max, ExpandAll(Tokens(str)))
    ensures cores[n..] == old(cores[..])[n..]
  {
    n := 0;
    ghost var goal := Take(max, ExpandAll(Tokens(str)));
    var rest := SkipCommas(str);
    TokensSkipped(str);
    assert cores[..0] + ExpandAll(Tokens(str)) == ExpandAll(Tokens(str));
    while rest != [] && n < max
      invariant n <= max && (rest != [] ==> rest[0] != ',')
      invariant Take(max, cores[..n] + ExpandAll(Tokens(rest))) == goal
      invariant cores[n..] == old(cores[..])[n..]
      decreases |rest|
    {
      n, rest := AddFirst(cores, max, n, rest);
    }
    assert rest == [] ==> cores[..n] + ExpandAll(Tokens(rest)) == cores[..n];
  }

  /** One turn of the outer loop. */
  method AddFirst(cores: array<int>, max: nat, n0: nat, rest: string) returns (n: nat, after: string)
    requires n0 < max <= cores.Length && rest != [] && rest[0] != ','
    modifies cores
    ensures n0 <= n <= max && |after| < |rest| && (after != [] ==> after[0] != ',')
    ensures Take(max, cores[..n] + ExpandAll(Tokens(after))) == Take(max, old(cores[..n0]) + ExpandAll(Tokens(rest)))
    ensures cores[n..] == old(cores[..])[n..]
  {
    var token;
    token, after := NextToken(rest);
    OneToken(max, cores[..n0], rest, token, after);
    n := AddToken(cores, max, n0, token);
  }

  /** strtok. */
  method NextToken(rest: string) returns (token: string, after: string)
    requires rest != [] && rest[0] != ','
    ensures token != [] && |after| < |rest| && (after != [] ==> after[0] != ',')
    ensures Tokens(rest) == [token] + Tokens(after)
  {
    token := rest[..Until(rest, ',')];
    after := SkipCommas(rest[|token|..]);
    TokensSkipped(rest[|token|..]);
  }

  lemma {:induction false} TokensSkipped(s: string)
    ensures Tokens(SkipCommas(s)) == Tokens(s)
  {
    assert SkipCommas(SkipCommas(s)) == SkipCommas(s);
  }

  lemma OneToken(max: nat, got: seq<int>, rest: string, token: string, after: string)
    requires Tokens(rest) == [token] + Tokens(after)
    ensures Take(max, Take(max, got + Expand(token)) + ExpandAll(Tokens(after)))
         == Take(max, got + ExpandAll(Tokens(rest)))
  {
    ExpandFirst(token, Tokens(after));
    TakeFirst(max, got, Expand(token), ExpandAll(Tokens(after)));
  }

  lemma ExpandFirst(token: string, later: seq<string>)
    ensures ExpandAll([token] + later) == Expand(token) + ExpandAll(later)
  {
    assert ([token] + later)[1..] == later;
  }

  lemma TakeFirst(max: nat, got: seq<int>, a: seq<int>, b: seq<int>)
    ensures Take(max, Take(max, got + a) + b) == Take(max, got + (a + b))
  {
    TakeNested(max, got + a, b);
    assert got + (a + b) == (got + a) + b;
  }

  lemma TakeNested(n: nat, a: seq<int>, b: seq<int>)
    ensures Take(n, Take(n, a) + b) == Take(n, a + b)
  {
  }

  // ---------------------------------------------------------------- round trip

  /** An entry of a core list, and how it is written. */
  datatype Entry = Core(core: nat) | Cores(first: nat, last: nat)

  function Decimal(n: nat): (s: string)
    ensures s != []
  {
    if n < 10 then ['0' + (n as char)] else Decimal(n / 10) + ['0' + ((n % 10) as char)]
  }

  function Written(e: Entry): string {
    match e
    case Core(n) => Decimal(n)
    case Cores(a, b) => Decimal(a) + "-" + Decimal(b)
  }

  function Joined(es: seq<Entry>): string {
    if es == [] then "" else if |es| == 1 then Written(es[0]) else Written(es[0]) + "," + Joined(es[1..])
  }

  function Meant(es: seq<Entry>): seq<int> {
    if es == [] then []
    else MeantBy(es[0]) + Meant(es[1..])
  }

  predicate AllDigits(s: string) {
    forall i | 0 <= i < |s| :: IsDigit(s[i])
  }

  lemma {:induction false} DecimalDigits(n: nat)
    ensures AllDigits(Decimal(n))
  {
    if n >= 10 {
      DecimalDigits(n / 10);
    }
  }

  lemma {:induction false} DigitsAppend(s: string, c: char, acc: nat)
    requires AllDigits(s) && IsDigit(c)
    ensures Digits(s + [c], acc) == 10 * Digits(s, acc) + (c as int - '0' as int)
  {
    if s == [] {
      assert [c][1..] == [];
    } else {
      assert (s + [c])[0] == s[0] && (s + [c])[1..] == s[1..] + [c];
      DigitsAppend(s[1..], c, 10 * acc + (s[0] as int - '0' as int));
    }
  }

  lemma {:induction false} AtoiDecimal(n: nat)
    ensures Atoi(Decimal(n)) == Digits(Decimal(n), 0) == n
  {
    DecimalDigits(n);
    assert IsDigit(Decimal(n)[0]);
    if n >= 10 {
      AtoiDecimal(n / 10);
      DecimalDigits(n / 10);
      DigitsAppend(Decimal(n / 10), '0' + ((n % 10) as char), 0);
    }
  }

  lemma {:induction false} UntilNone(s: string, c: char)
    requires forall i | 0 <= i < |s| :: s[i] != c
    ensures Until(s, c) == |s|
  {
  }

  lemma UntilFirst(s: string, c: char, rest: string)
    requires forall i | 0 <= i < |s| :: s[i] != c
    ensures Until(s + [c] + rest, c) == |s|
  {
    var k := Until(s + [c] + rest, c);
    assert (s + [c] + rest)[|s|] == c;
  }

  lemma CoreMeans(n: nat)
    ensures Expand(Decimal(n)) == [n]
  {
    DecimalDigits(n);
    AtoiDecimal(n);
    UntilNone(Decimal(n), '-');
  }

  lemma CoresMean(a: nat, b: nat)
    ensures Expand(Decimal(a) + "-" + Decimal(b)) == Range(a, b)
  {
    var x, y := Decimal(a), Decimal(b);
    DecimalDigits(a);
    AtoiDecimal(a);
    AtoiDecimal(b);
    UntilFirst(x, '-', y);
    var s := x + ['-'] + y;
    assert "-" == ['-'];
    assert s[..|x|] == x && s[|x| + 1..] == y;
  }

  function MeantBy(e: Entry): seq<int> {
    match e
    case Core(n) => [n]
    case Cores(a, b) => Range(a, b)
  }

  lemma WrittenMeans(e: Entry)
    ensures Expand(Written(e)) == MeantBy(e)
  {
    match e
    case Core(n) => CoreMeans(n);
    case Cores(a, b) => CoresMean(a, b);
  }

  lemma WrittenPlain(e: Entry)
    ensures Written(e) != [] && forall i | 0 <= i < |Written(e)| :: Written(e)[i] != ','
  {
    match e
    case Core(n) => DecimalDigits(n);
    case Cores(a, b) =>
      DecimalDigits(a);
      DecimalDigits(b);
      var s := Decimal(a) + "-" + Decimal(b);
      assert forall i | 0 <= i < |s| :: IsDigit(s[i]) || s[i] == '-';
  }

  lemma TokensLast(w: string)
    requires w != [] && forall i | 0 <= i < |w| :: w[i] != ','
    ensures Tokens(w) == [w]
  {
    UntilNone(w, ',');
    assert SkipCommas(w) == w && w[..|w|] == w && w[|w|..] == [];
    assert Tokens([]) == [];
  }

  lemma TokensFirst(w: string, rest: string)
    requires w != [] && forall i | 0 <= i < |w| :: w[i] != ','
    ensures Tokens(w + "," + rest) == [w] + Tokens(rest)
  {
    var s := w + [','] + rest;
    assert "," == [','];
    UntilFirst(w, ',', rest);
    assert s[0] == w[0] && SkipCommas(s) == s;
    assert s[..|w|] == w && s[|w|..] == [','] + rest;
    CommaSkipped(rest);
  }

  /** Writing a list of cores and ranges and parsing it gives the cores meant. */
  lemma {:induction false} ParseJoined(es: seq<Entry>)
    ensures ExpandAll(Tokens(Joined(es))) == Meant(es)
  {
    if es != [] {
      WrittenMeans(es[0]);
      WrittenPlain(es[0]);
      var w, rest := Written(es[0]), Joined(es[1..]);
      ParseJoined(es[1..]);
      if |es| == 1 {
        TokensLast(w);
        assert [w][1..] == [];
      } else {
        TokensFirst(w, rest);
        assert ([w] + Tokens(rest))[1..] == Tokens(rest);
      }
    }
  }

  lemma CommaSkipped(s: string)
    ensures Tokens([','] + s) == Tokens(s)
  {
    assert ([','] + s)[1..] == s;
  }

  /** The benchmark scripts pass the cores 1 to n joined by commas; all are used up to the size of
      the table. */
  lemma ScriptList(n: nat, max: nat)
    ensures Take(max, ExpandAll(Tokens(Joined(Cores1(n))))) == Range(1, if n <= max then n else max)
  {
    ParseJoined(Cores1(n));
    MeantCores(1, n);
    TakeRange(1, n, max);
  }

  function Cores1(n: nat): seq<Entry> {
    CoresFrom(1, n)
  }

  function CoresFrom(a: nat, n: nat): seq<Entry>
    decreases n - a + 1
  {
    if a > n then [] else [Core(a)] + CoresFrom(a + 1, n)
  }

  lemma {:induction false} MeantCores(a: nat, n: nat)
    ensures Meant(CoresFrom(a, n)) == Range(a, n)
    decreases n - a + 1
  {
    if a <= n {
      MeantCores(a + 1, n);
    }
  }

  lemma {:induction false} TakeRange(a: int, b: int, max: nat)
    ensures Take(max, Range(a, b)) == Range(a, if b - a + 1 <= max then b else a + max - 1)
    decreases b - a + 1
  {
    if a <= b && max > 0 {
      TakeRange(a + 1, b, max - 1);
    }
  }
}
