/** The accept loops of epoll_et_server.c and server_epoll.c against the kernel's edges. An edge of
    the listener is reported once; the loop accepts until EAGAIN, but any other error of accept ends
    it as well. */
module ListenerEdge {

  /** The answer of one accept: a descriptor, EAGAIN, or another error, which may have used up the
      connection it was about (ECONNABORTED) or not (EMFILE). */
  datatype Answer = Got(fd: nat) | Empty | Fails(used: bool)

  /** Connections waiting to be accepted, whether an edge is raised and not reported yet, and whether
      the loop is running. */
  datatype World = World(backlog: nat, edge: bool, running: bool)

  datatype Change = Connects | Spurious | Report | Accepts(a: Answer)

  function Start(): World {
    World(0, false, false)
  }

  predicate Enabled(w: World, e: Change) {
    match e
    case Accepts(Got(_)) => w.running && w.backlog > 0
    case Accepts(Empty) => w.running && w.backlog == 0
    case Accepts(Fails(used)) => w.running && (used ==> w.backlog > 0)
    case _ => true
  }

  function Next(w: World, e: Change): World
    requires Enabled(w, e)
  {
    match e
    case Connects => w.(backlog := w.backlog + 1, edge := true)
    case Spurious => w.(edge := true)
    case Report => if w.running then w else w.(edge := false, running := true)
    case Accepts(Got(_)) => w.(backlog := w.backlog - 1)
    case Accepts(Empty) => w.(running := false)
    case Accepts(Fails(used)) => w.(backlog := if used then w.backlog - 1 else w.backlog, running := false)
  }

  ghost predicate Possible(w: World, changes: seq<Change>)
    decreases |changes|
  {
    changes != [] ==> Enabled(w, changes[0]) && Possible(Next(w, changes[0]), changes[1..])
  }

  ghost function Run(w: World, changes: seq<Change>): World
    requires Possible(w, changes)
    decreases |changes|
  {
    if changes == [] then w else Run(Next(w, changes[0]), changes[1..])
  }

  // ---------------------------------------------------------------- one run of the loop

  /** What the loop asks of accept, given the answers waiting for it (EAGAIN once they run out): it
      stops at the first answer that is no connection. */
  function LoopCalls(answers: seq<Answer>): (calls: seq<Answer>)
    ensures calls != [] && AllGot(calls[..|calls| - 1]) && !calls[|calls| - 1].Got?
    ensures calls <= answers + [Empty]
  {
    if answers == [] then [Empty]
    else if answers[0].Got? then [answers[0]] + LoopCalls(answers[1..])
    else [answers[0]]
  }

  ghost predicate AllGot(calls: seq<Answer>) {
    forall a | a in calls :: a.Got?
  }

  /** The calls among the changes. */
  function Calls(changes: seq<Change>): seq<Answer> {
    if changes == [] then []
    else (if changes[0].Accepts? then [changes[0].a] else []) + Calls(changes[1..])
  }

  function Arrivals(changes: seq<Change>): nat {
    if changes == [] then 0
    else (if changes[0].Connects? then 1 else 0) + Arrivals(changes[1..])
  }

  /** An edge is raised among the changes. */
  predicate Edged(changes: seq<Change>) {
    changes != [] && (changes[0].Connects? || changes[0].Spurious? || Edged(changes[1..]))
  }

  /** The connections that an error of accept took with it. */
  function Used(a: Answer): nat {
    if a.Fails? && a.used then 1 else 0
  }

  /** While the loop runs it takes one connection a call, and edges raised meanwhile stay raised. */
  lemma {:induction false} LoopCounts(w: World, during: seq<Change>)
    requires w.running && Possible(w, during) && AllGot(Calls(during))
    ensures var w' := Run(w, during);
      && w'.running && w'.edge == (w.edge || Edged(during))
      && w'.backlog == w.backlog + Arrivals(during) - |Calls(during)|
    ensures !Edged(during) ==> Arrivals(during) == 0
    decreases |during|
  {
    if during != [] {
      var rest := Calls(during[1..]);
      assert forall a | a in rest :: a in Calls(during);
      if during[0].Accepts? {
        assert during[0].a in Calls(during);
      }
      LoopCounts(Next(w, during[0]), during[1..]);
    }
  }

  /** One event of the listener: the edge is reported, the loop takes connections while the kernel
      goes on, and the last answer ends it. */
  ghost predicate PossibleLoop(w: World, during: seq<Change>, last: Answer) {
    && !w.running && !last.Got? && AllGot(Calls(during))
    && Possible(Next(w, Report), during)
    && Enabled(Run(Next(w, Report), during), Accepts(last))
  }

  ghost function AfterLoop(w: World, during: seq<Change>, last: Answer): World
    requires PossibleLoop(w, during, last)
  {
    Next(Run(Next(w, Report), during), Accepts(last))
  }

  /** A waiting connection has an edge coming or the loop running. */
  predicate NoneForgotten(w: World) {
    w.backlog > 0 ==> w.edge || w.running
  }

  /** The loop met EAGAIN, or an edge was raised while it ran, or it used up all that were waiting
      when its edge was reported. */
  predicate Drained(w: World, during: seq<Change>, last: Answer) {
    last.Empty? || Edged(during) || w.backlog == |Calls(during)| + Used(last)
  }

  /** A run of the loop forgets nobody exactly in these cases, whatever it started from. */
  lemma LoopForgetsNoneIff(w: World, during: seq<Change>, last: Answer)
    requires PossibleLoop(w, during, last)
    ensures var w' := AfterLoop(w, during, last);
      && !w'.running && w'.edge == Edged(during)
      && w'.backlog == w.backlog + Arrivals(during) - |Calls(during)| - Used(last)
      && (NoneForgotten(w') <==> Drained(w, during, last))
  {
    LoopCounts(Next(w, Report), during);
  }

  /** The same in terms of the answers that the loop is given. */
  lemma AnswersForgetNoneIff(w: World, during: seq<Change>, answers: seq<Answer>)
    requires var calls := LoopCalls(answers);
      Calls(during) == calls[..|calls| - 1] && PossibleLoop(w, during, calls[|calls| - 1])
    ensures var calls := LoopCalls(answers); var last := calls[|calls| - 1];
      NoneForgotten(AfterLoop(w, during, last)) <==>
      last.Empty? || Edged(during) || w.backlog == |calls| - 1 + Used(last)
  {
    var calls := LoopCalls(answers);
    LoopForgetsNoneIff(w, during, calls[|calls| - 1]);
  }

  // ---------------------------------------------------------------- whole runs

  /** What the kernel does while the loop is not running, and the event that follows. */
  datatype Round = Round(before: seq<Change>, during: seq<Change>, last: Answer)

  ghost predicate KernelOnly(changes: seq<Change>) {
    forall e | e in changes :: e.Connects? || e.Spurious?
  }

  ghost predicate PossibleRounds(w: World, rounds: seq<Round>)
    decreases |rounds|
  {
    rounds != [] ==>
      && KernelOnly(rounds[0].before) && Possible(w, rounds[0].before)
      && PossibleLoop(Run(w, rounds[0].before), rounds[0].during, rounds[0].last)
      && PossibleRounds(AfterRound(w, rounds[0]), rounds[1..])
  }

  ghost function AfterRound(w: World, r: Round): World
    requires Possible(w, r.before) && PossibleLoop(Run(w, r.before), r.during, r.last)
  {
    AfterLoop(Run(w, r.before), r.during, r.last)
  }

  ghost function AfterRounds(w: World, rounds: seq<Round>): World
    requires PossibleRounds(w, rounds)
    decreases |rounds|
  {
    if rounds == [] then w else AfterRounds(AfterRound(w, rounds[0]), rounds[1..])
  }

  /** Whenever the loop is left, and before it first runs, no connection is forgotten. */
  ghost predicate NeverForgets(w: World, rounds: seq<Round>)
    requires PossibleRounds(w, rounds)
    decreases |rounds|
  {
    NoneForgotten(w) && (rounds != [] ==> NeverForgets(AfterRound(w, rounds[0]), rounds[1..]))
  }

  ghost predicate AllDrained(w: World, rounds: seq<Round>)
    requires PossibleRounds(w, rounds)
    decreases |rounds|
  {
    rounds != [] ==>
      && Drained(Run(w, rounds[0].before), rounds[0].during, rounds[0].last)
      && AllDrained(AfterRound(w, rounds[0]), rounds[1..])
  }

  /** No connection is ever forgotten exactly in the runs where each loop that an error of accept
      ends has used up all that were waiting or saw another edge. */
  lemma {:induction false} NoneForgottenIff(w: World, rounds: seq<Round>)
    requires PossibleRounds(w, rounds) && NoneForgotten(w)
    ensures NeverForgets(w, rounds) <==> AllDrained(w, rounds)
    decreases |rounds|
  {
    if rounds != [] {
      var r := rounds[0];
      LoopForgetsNoneIff(Run(w, r.before), r.during, r.last);
      if Drained(Run(w, r.before), r.during, r.last) {
        NoneForgottenIff(AfterRound(w, r), rounds[1..]);
      }
    }
  }

  lemma {:induction false} NeverForgetsEnd(w: World, rounds: seq<Round>)
    requires PossibleRounds(w, rounds) && NeverForgets(w, rounds)
    ensures NoneForgotten(AfterRounds(w, rounds))
    decreases |rounds|
  {
    if rounds != [] {
      NeverForgetsEnd(AfterRound(w, rounds[0]), rounds[1..]);
    }
  }

  /** The kernel alone forgets nobody: each connection raises the edge. */
  lemma {:induction false} KernelKeeps(w: World, changes: seq<Change>)
    requires Possible(w, changes) && KernelOnly(changes) && NoneForgotten(w)
    ensures NoneForgotten(Run(w, changes)) && Run(w, changes).running == w.running
    decreases |changes|
  {
    if changes != [] {
      assert changes[0] in changes;
      KernelKeeps(Next(w, changes[0]), changes[1..]);
    }
  }

  /** Then a listener that waits with no edge raised has no connection waiting. */
  lemma QuiescentHasNone(rounds: seq<Round>, since: seq<Change>)
    requires PossibleRounds(Start(), rounds) && AllDrained(Start(), rounds)
    requires KernelOnly(since) && Possible(AfterRounds(Start(), rounds), since)
    ensures var w := Run(AfterRounds(Start(), rounds), since); !w.running && !w.edge ==> w.backlog == 0
  {
    NoneForgottenIff(Start(), rounds);
    NeverForgetsEnd(Start(), rounds);
    KernelKeeps(AfterRounds(Start(), rounds), since);
  }

  /** One failing accept is enough to forget a connection until another one comes. */
  lemma CanForget()
    ensures var r := Round([Connects], [], Fails(false));
      PossibleRounds(Start(), [r]) && AfterRounds(Start(), [r]) == World(1, false, false)
  {
    var r := Round([Connects], [], Fails(false));
    var w := Next(Start(), Connects);
    assert Possible(w, []) && Run(w, []) == w;
    assert [Connects][1..] == [] && Possible(Start(), [Connects]) && Run(Start(), [Connects]) == w;
    var w' := AfterLoop(w, [], Fails(false));
    assert w' == World(1, false, false) && AfterRound(Start(), r) == w';
    assert [r][1..] == [] && PossibleRounds(w', []) && AfterRounds(w', []) == w';
  }
}
