/** Two connections per ingest over one pool. A request takes a first connection, holds it to its end,
    and while holding it takes and returns a second one some number of times: never for a
    201, once for a replay found by the pre-check or a re-raised conflict, twice for a
    replayed conflict. A request that waits may be timed out; the timeout of a first connection stands
    for the last of its retries. */
module Pool {

  /** Where a request stands; `uses` is how often it still takes the second connection. */
  datatype Conn =
    | Queued(uses: nat)    // waits for its first connection
    | Holding(uses: nat)   // holds one
    | Waiting(uses: nat)   // holds one, waits for a second
    | Both(uses: nat)      // holds two
    | Released             // finished
    | TimedOut             // gave up waiting and returned what it held

  /** A step of request i, or the expiry of its pool_timeout. */
  datatype Turn = Go(i: nat) | Expire(i: nat)

  function Held(c: Conn): nat {
    match c
    case Queued(_) => 0
    case Holding(_) => 1
    case Waiting(_) => 1
    case Both(_) => 2
    case Released => 0
    case TimedOut => 0
  }

  function InUse(reqs: seq<Conn>): nat {
    if reqs == [] then 0 else InUse(reqs[..|reqs| - 1]) + Held(reqs[|reqs| - 1])
  }

  /** The next step of a request; None while the pool has nothing for it, and when it is done. */
  function Next(c: Conn, free: bool): Conn {
    match c
    case Queued(u) => if free then Holding(u) else c
    case Holding(u) => if u > 0 then Waiting(u) else Released
    case Waiting(u) => if free then Both(u) else c
    case Both(u) => Holding(if u > 0 then u - 1 else 0)
    case Released => c
    case TimedOut => c
  }

  /** A request only waits, and only then times out, while the pool has nothing for it. */
  function Expired(c: Conn, free: bool): Conn {
    if !free && (c.Queued? || c.Waiting?) then TimedOut else c
  }

  function Taken(c: Conn, turn: Turn, free: bool): Conn {
    if turn.Go? then Next(c, free) else Expired(c, free)
  }

  function Move(reqs: seq<Conn>, capacity: nat, turn: Turn): seq<Conn> {
    if turn.i < |reqs| then reqs[turn.i := Taken(reqs[turn.i], turn, InUse(reqs) < capacity)] else reqs
  }

  function Run(reqs: seq<Conn>, capacity: nat, turns: seq<Turn>): seq<Conn>
    decreases |turns|
  {
    if turns == [] then reqs else Run(Move(reqs, capacity, turns[0]), capacity, turns[1..])
  }

  /** `plan[i]` is how often request i takes the second connection. */
  function Start(plan: seq<nat>): seq<Conn> {
    seq(|plan|, i requires 0 <= i < |plan| => Queued(plan[i]))
  }

  predicate Over(c: Conn) {
    c == Released || c == TimedOut
  }

  /** Some request is unfinished and none can take a step: only a timeout gets it any further. */
  ghost predicate Deadlock(reqs: seq<Conn>, capacity: nat) {
    && (exists i :: 0 <= i < |reqs| && !Over(reqs[i]))
    && (forall i :: 0 <= i < |reqs| ==> Move(reqs, capacity, Go(i)) == reqs)
  }

  /** How many requests of the plan ever take a second connection. */
  function Takers(plan: seq<nat>): nat {
    if plan == [] then 0 else Takers(plan[..|plan| - 1]) + (if plan[|plan| - 1] > 0 then 1 else 0)
  }

  // ----- what every run keeps -----

  ghost predicate StageFits(c: Conn, uses: nat) {
    match c
    case Queued(u) => u == uses
    case Holding(u) => u <= uses
    case Waiting(u) => 1 <= u <= uses
    case Both(u) => 1 <= u <= uses
    case Released => true
    case TimedOut => true
  }

  /** The pool is never overdrawn, and only takers wait for or hold a second connection. */
  ghost predicate Fits(reqs: seq<Conn>, plan: seq<nat>, capacity: nat) {
    && |reqs| == |plan| && InUse(reqs) <= capacity
    && forall i :: 0 <= i < |reqs| ==> StageFits(reqs[i], plan[i])
  }

  lemma {:induction false} InUseUpdate(reqs: seq<Conn>, i: nat, c: Conn)
    requires i < |reqs|
    ensures InUse(reqs[i := c]) == InUse(reqs) - Held(reqs[i]) + Held(c)
    decreases |reqs|
  {
    var n := |reqs| - 1;
    if i < n {
      InUseUpdate(reqs[..n], i, c);
      assert reqs[i := c][..n] == reqs[..n][i := c];
    } else {
      assert reqs[i := c][..n] == reqs[..n];
    }
  }

  lemma MoveFits(reqs: seq<Conn>, plan: seq<nat>, capacity: nat, turn: Turn)
    requires Fits(reqs, plan, capacity)
    ensures Fits(Move(reqs, capacity, turn), plan, capacity)
  {
    if turn.i < |reqs| {
      InUseUpdate(reqs, turn.i, Taken(reqs[turn.i], turn, InUse(reqs) < capacity));
    }
  }

  lemma {:induction false} StartFits(plan: seq<nat>, capacity: nat)
    ensures Fits(Start(plan), plan, capacity) && InUse(Start(plan)) == 0
    decreases |plan|
  {
    if plan != [] {
      var n := |plan| - 1;
      StartFits(plan[..n], capacity);
      assert Start(plan)[..n] == Start(plan[..n]);
    }
  }

  lemma {:induction false} RunFits(reqs: seq<Conn>, plan: seq<nat>, capacity: nat, turns: seq<Turn>)
    requires Fits(reqs, plan, capacity)
    ensures Fits(Run(reqs, capacity, turns), plan, capacity)
    decreases |turns|
  {
    if turns != [] {
      MoveFits(reqs, plan, capacity, turns[0]);
      RunFits(Move(reqs, capacity, turns[0]), plan, capacity, turns[1..]);
    }
  }

  // ----- when nothing moves -----

  /** In a deadlock every request is queued, waiting for its second connection, or done. */
  predicate Blocked(c: Conn) {
    c.Queued? || c.Waiting? || Over(c)
  }

  lemma DeadlockBlocks(reqs: seq<Conn>, capacity: nat, i: nat)
    requires Deadlock(reqs, capacity) && i < |reqs|
    ensures Blocked(reqs[i]) && InUse(reqs) >= capacity
  {
    assert Move(reqs, capacity, Go(i))[i] == reqs[i];
    var j :| 0 <= j < |reqs| && !Over(reqs[j]);
    assert Move(reqs, capacity, Go(j))[j] == reqs[j];
  }

  /** Blocked requests hold one connection each, and only takers hold one. */
  lemma {:induction false} BlockedHoldTakers(reqs: seq<Conn>, plan: seq<nat>)
    requires |reqs| == |plan| && forall i :: 0 <= i < |reqs| ==> Blocked(reqs[i]) && StageFits(reqs[i], plan[i])
    ensures InUse(reqs) <= Takers(plan)
    decreases |reqs|
  {
    if reqs != [] {
      BlockedHoldTakers(reqs[..|reqs| - 1], plan[..|plan| - 1]);
    }
  }

  lemma DeadlockNeedsTakers(reqs: seq<Conn>, plan: seq<nat>, capacity: nat)
    requires Fits(reqs, plan, capacity) && Deadlock(reqs, capacity)
    ensures Takers(plan) >= capacity
  {
    forall i | 0 <= i < |reqs| ensures Blocked(reqs[i]) && InUse(reqs) >= capacity {
      DeadlockBlocks(reqs, capacity, i);
    }
    BlockedHoldTakers(reqs, plan);
  }

  // ----- the run that blocks -----

  lemma {:induction false} RunAppend(reqs: seq<Conn>, capacity: nat, xs: seq<Turn>, ys: seq<Turn>)
    ensures Run(reqs, capacity, xs + ys) == Run(Run(reqs, capacity, xs), capacity, ys)
    decreases |xs|
  {
    if xs == [] {
      assert xs + ys == ys;
    } else {
      assert (xs + ys)[1..] == xs[1..] + ys;
      RunAppend(Move(reqs, capacity, xs[0]), capacity, xs[1..], ys);
    }
  }

  /** The takers among the first `n` requests hold one connection and wait for the second, as
      long as the pool lasts; everybody else is still queued. */
  function Hogged(plan: seq<nat>, n: nat, capacity: nat): seq<Conn>
    requires n <= |plan|
  {
    seq(|plan|, i requires 0 <= i < |plan| =>
      if i < n && plan[i] > 0 && Takers(plan[..i]) < capacity then Waiting(plan[i]) else Queued(plan[i]))
  }

  function Min(a: nat, b: nat): nat {
    if a < b then a else b
  }

  lemma {:induction false} HoggedInUse(plan: seq<nat>, n: nat, m: nat, capacity: nat)
    requires n <= m <= |plan|
    ensures InUse(Hogged(plan, n, capacity)[..m]) == Min(capacity, Takers(plan[..n]))
    decreases m
  {
    if m > 0 {
      assert Hogged(plan, n, capacity)[..m][..m - 1] == Hogged(plan, n, capacity)[..m - 1];
      if m > n {
        HoggedInUse(plan, n, m - 1, capacity);
      } else {
        HoggedInUse(plan, n - 1, m - 1, capacity);
        assert Hogged(plan, n, capacity)[..m - 1] == Hogged(plan, n - 1, capacity)[..m - 1];
        assert plan[..n][..n - 1] == plan[..n - 1];
      }
    }
  }

  lemma TakeAndWait(reqs: seq<Conn>, capacity: nat, i: nat)
    requires i < |reqs| && reqs[i].Queued? && reqs[i].uses > 0 && InUse(reqs) < capacity
    ensures Run(reqs, capacity, [Go(i), Go(i)]) == reqs[i := Waiting(reqs[i].uses)]
  {
    var g := Go(i);
    var one := Move(reqs, capacity, g);
    assert [g, g][1..] == [g] && [g][1..] == [];
    assert Run(reqs, capacity, [g, g]) == Run(one, capacity, [g]) == Move(one, capacity, g);
  }

  /** The n-th request takes its first connection and waits for the second, if the pool allows. */
  lemma HogOne(plan: seq<nat>, n: nat, capacity: nat) returns (turns: seq<Turn>)
    requires 1 <= n <= |plan|
    ensures Run(Hogged(plan, n - 1, capacity), capacity, turns) == Hogged(plan, n, capacity)
  {
    var reqs := Hogged(plan, n - 1, capacity);
    if plan[n - 1] > 0 && Takers(plan[..n - 1]) < capacity {
      HoggedInUse(plan, n - 1, |plan|, capacity);
      assert reqs[..|plan|] == reqs;
      turns := [Go(n - 1), Go(n - 1)];
      TakeAndWait(reqs, capacity, n - 1);
      assert reqs[n - 1 := Waiting(plan[n - 1])] == Hogged(plan, n, capacity);
    } else {
      turns := [];
      assert reqs == Hogged(plan, n, capacity);
    }
  }

  lemma {:induction false} HoggingRun(plan: seq<nat>, n: nat, capacity: nat) returns (turns: seq<Turn>)
    requires n <= |plan|
    ensures Run(Start(plan), capacity, turns) == Hogged(plan, n, capacity)
    decreases n
  {
    if n == 0 {
      turns := [];
      assert Start(plan) == Hogged(plan, 0, capacity);
    } else {
      var before := HoggingRun(plan, n - 1, capacity);
      var step := HogOne(plan, n, capacity);
      RunAppend(Start(plan), capacity, before, step);
      turns := before + step;
    }
  }

  lemma {:induction false} TakersBounded(plan: seq<nat>)
    ensures Takers(plan) <= |plan|
    decreases |plan|
  {
    if plan != [] { TakersBounded(plan[..|plan| - 1]); }
  }

  /** With any number of ingests in flight, timeouts included, the pool can get into a state from which only
      a timeout leads on exactly when at least as many of them take a second connection as the pool has
      connections. With fewer requests than connections it never does. */
  lemma DeadlockExactly(plan: seq<nat>, capacity: nat)
    requires plan != []
    ensures (exists turns :: Deadlock(Run(Start(plan), capacity, turns), capacity)) <==> Takers(plan) >= capacity
    ensures |plan| < capacity ==> Takers(plan) < capacity
  {
    TakersBounded(plan);
    StartFits(plan, capacity);
    if turns :| Deadlock(Run(Start(plan), capacity, turns), capacity) {
      RunFits(Start(plan), plan, capacity, turns);
      DeadlockNeedsTakers(Run(Start(plan), capacity, turns), plan, capacity);
    }
    if Takers(plan) >= capacity {
      var turns := HoggingRun(plan, |plan|, capacity);
      HoggedInUse(plan, |plan|, |plan|, capacity);
      var reqs := Hogged(plan, |plan|, capacity);
      assert plan[..|plan|] == plan && reqs[..|plan|] == reqs;
      assert !Over(reqs[0]);
      assert forall i :: 0 <= i < |reqs| ==> Move(reqs, capacity, Go(i)) == reqs;
      assert Deadlock(Run(Start(plan), capacity, turns), capacity);
    }
  }

  // ----- how often a request takes its second connection -----

  /** How often request `i` gets its second connection in a run. */
  function Uses(reqs: seq<Conn>, capacity: nat, turns: seq<Turn>, i: nat): nat
    requires i < |reqs|
    decreases |turns|
  {
    if turns == [] then 0
    else
      var next := Move(reqs, capacity, turns[0]);
      (if next[i].Both? && !reqs[i].Both? then 1 else 0) + Uses(next, capacity, turns[1..], i)
  }

  /** How often a request still gets it, unless it is timed out. */
  function Due(c: Conn): nat {
    match c
    case Queued(u) => u
    case Holding(u) => u
    case Waiting(u) => u
    case Both(u) => if u > 0 then u - 1 else 0
    case Released => 0
    case TimedOut => 0
  }

  lemma {:induction false} TimedOutStays(reqs: seq<Conn>, capacity: nat, turns: seq<Turn>, i: nat)
    requires i < |reqs|
    ensures |Run(reqs, capacity, turns)| == |reqs|
    ensures reqs[i] == TimedOut ==> Run(reqs, capacity, turns)[i] == TimedOut
    decreases |turns|
  {
    if turns != [] { TimedOutStays(Move(reqs, capacity, turns[0]), capacity, turns[1..], i); }
  }

  lemma {:induction false} UsesAddUp(reqs: seq<Conn>, plan: seq<nat>, capacity: nat, turns: seq<Turn>, i: nat)
    requires Fits(reqs, plan, capacity) && i < |reqs|
    ensures |Run(reqs, capacity, turns)| == |reqs|
    ensures var end := Run(reqs, capacity, turns)[i];
      && Uses(reqs, capacity, turns, i) + Due(end) <= Due(reqs[i])
      && (end != TimedOut ==> Uses(reqs, capacity, turns, i) + Due(end) == Due(reqs[i]))
    decreases |turns|
  {
    if turns != [] {
      MoveFits(reqs, plan, capacity, turns[0]);
      UsesAddUp(Move(reqs, capacity, turns[0]), plan, capacity, turns[1..], i);
      TimedOutStays(Move(reqs, capacity, turns[0]), capacity, turns[1..], i);
    }
  }

  /** In every run a request takes its second connection exactly as often as planned before it is released,
      and never more often. */
  lemma UsesAsPlanned(plan: seq<nat>, capacity: nat, turns: seq<Turn>, i: nat)
    requires i < |plan|
    ensures var end := Run(Start(plan), capacity, turns);
      && |end| == |plan| && Uses(Start(plan), capacity, turns, i) <= plan[i]
      && (end[i] == Released ==> Uses(Start(plan), capacity, turns, i) == plan[i])
  {
    StartFits(plan, capacity);
    UsesAddUp(Start(plan), plan, capacity, turns, i);
  }

  // ----- when nobody is timed out -----

  /** A request that waits leaves one connection of what all of them may hold. */
  lemma {:induction false} WaitingLeavesOne(reqs: seq<Conn>, plan: seq<nat>, i: nat)
    requires |reqs| == |plan| && forall j :: 0 <= j < |reqs| ==> StageFits(reqs[j], plan[j])
    ensures InUse(reqs) <= |plan| + Takers(plan)
    ensures i < |reqs| && (reqs[i].Queued? || reqs[i].Waiting?) ==> InUse(reqs) < |plan| + Takers(plan)
    decreases |reqs|
  {
    if reqs != [] {
      var n := |reqs| - 1;
      WaitingLeavesOne(reqs[..n], plan[..n], i);
    }
  }

  ghost predicate NoneTimedOut(reqs: seq<Conn>) {
    forall i :: 0 <= i < |reqs| ==> reqs[i] != TimedOut
  }

  lemma MoveTimesNobodyOut(reqs: seq<Conn>, plan: seq<nat>, capacity: nat, turn: Turn)
    requires Fits(reqs, plan, capacity) && |plan| + Takers(plan) <= capacity && NoneTimedOut(reqs)
    ensures NoneTimedOut(Move(reqs, capacity, turn))
  {
    WaitingLeavesOne(reqs, plan, turn.i);
  }

  lemma {:induction false} RunTimesNobodyOut(reqs: seq<Conn>, plan: seq<nat>, capacity: nat, turns: seq<Turn>)
    requires Fits(reqs, plan, capacity) && |plan| + Takers(plan) <= capacity && NoneTimedOut(reqs)
    ensures NoneTimedOut(Run(reqs, capacity, turns))
    decreases |turns|
  {
    if turns != [] {
      MoveFits(reqs, plan, capacity, turns[0]);
      MoveTimesNobodyOut(reqs, plan, capacity, turns[0]);
      RunTimesNobodyOut(Move(reqs, capacity, turns[0]), plan, capacity, turns[1..]);
    }
  }

  /** With one connection for every request and one more for every taker, no run times anybody out. */
  lemma RoomForAll(plan: seq<nat>, capacity: nat, turns: seq<Turn>)
    requires |plan| + Takers(plan) <= capacity
    ensures NoneTimedOut(Run(Start(plan), capacity, turns))
  {
    StartFits(plan, capacity);
    RunTimesNobodyOut(Start(plan), plan, capacity, turns);
  }

  // ----- without a deadlock everybody finishes -----

  /** Steps a request has left. */
  function Left(c: Conn): nat {
    match c
    case Queued(u) => 3 * u + 2
    case Holding(u) => 3 * u + 1
    case Waiting(u) => 3 * u
    case Both(u) => if u > 0 then 3 * u - 1 else 2
    case Released => 0
    case TimedOut => 0
  }

  function AllLeft(reqs: seq<Conn>): nat {
    if reqs == [] then 0 else AllLeft(reqs[..|reqs| - 1]) + Left(reqs[|reqs| - 1])
  }

  lemma {:induction false} AllLeftUpdate(reqs: seq<Conn>, i: nat, c: Conn)
    requires i < |reqs|
    ensures AllLeft(reqs[i := c]) == AllLeft(reqs) - Left(reqs[i]) + Left(c)
    decreases |reqs|
  {
    var n := |reqs| - 1;
    if i < n {
      AllLeftUpdate(reqs[..n], i, c);
      assert reqs[i := c][..n] == reqs[..n][i := c];
    } else {
      assert reqs[i := c][..n] == reqs[..n];
    }
  }

  ghost predicate AllOver(reqs: seq<Conn>) {
    forall i :: 0 <= i < |reqs| ==> Over(reqs[i])
  }

  /** A turn that changes anything is a step towards the end. */
  lemma MoveShortens(reqs: seq<Conn>, plan: seq<nat>, capacity: nat, turn: Turn)
    requires Fits(reqs, plan, capacity) && Move(reqs, capacity, turn) != reqs
    ensures AllLeft(Move(reqs, capacity, turn)) < AllLeft(reqs)
  {
    AllLeftUpdate(reqs, turn.i, Taken(reqs[turn.i], turn, InUse(reqs) < capacity));
  }

  /** How many turns of a run change anything. */
  function Effective(reqs: seq<Conn>, capacity: nat, turns: seq<Turn>): nat
    decreases |turns|
  {
    if turns == [] then 0
    else
      var next := Move(reqs, capacity, turns[0]);
      (if next == reqs then 0 else 1) + Effective(next, capacity, turns[1..])
  }

  lemma {:induction false} EffectiveBounded(reqs: seq<Conn>, plan: seq<nat>, capacity: nat, turns: seq<Turn>)
    requires Fits(reqs, plan, capacity)
    ensures Effective(reqs, capacity, turns) + AllLeft(Run(reqs, capacity, turns)) <= AllLeft(reqs)
    decreases |turns|
  {
    if turns != [] {
      var next := Move(reqs, capacity, turns[0]);
      if next != reqs { MoveShortens(reqs, plan, capacity, turns[0]); }
      MoveFits(reqs, plan, capacity, turns[0]);
      EffectiveBounded(next, plan, capacity, turns[1..]);
    }
  }

  /** No schedule keeps the requests busy for ever: only so many turns of any run change anything. */
  lemma EveryRunSettles(plan: seq<nat>, capacity: nat, turns: seq<Turn>)
    ensures Effective(Start(plan), capacity, turns) <= AllLeft(Start(plan))
  {
    StartFits(plan, capacity);
    EffectiveBounded(Start(plan), plan, capacity, turns);
  }

  /** While somebody is unfinished some turn changes something, and with fewer takers than
      connections a step does. */
  lemma SomebodyMoves(reqs: seq<Conn>, plan: seq<nat>, capacity: nat) returns (turn: Turn)
    requires Fits(reqs, plan, capacity) && !AllOver(reqs)
    ensures Move(reqs, capacity, turn) != reqs && (Takers(plan) < capacity ==> turn.Go?)
  {
    if i: nat :| i < |reqs| && Move(reqs, capacity, Go(i)) != reqs {
      turn := Go(i);
    } else {
      var k: nat :| k < |reqs| && !Over(reqs[k]);
      assert Deadlock(reqs, capacity);
      DeadlockNeedsTakers(reqs, plan, capacity);
      DeadlockBlocks(reqs, capacity, k);
      turn := Expire(k);
      assert Move(reqs, capacity, turn)[k] == TimedOut;
    }
  }

  lemma {:induction false} Finish(reqs: seq<Conn>, plan: seq<nat>, capacity: nat) returns (more: seq<Turn>)
    requires Fits(reqs, plan, capacity)
    ensures AllOver(Run(reqs, capacity, more))
    ensures Takers(plan) < capacity ==> forall t :: t in more ==> t.Go?
    decreases AllLeft(reqs)
  {
    if AllOver(reqs) {
      more := [];
      assert Run(reqs, capacity, more) == reqs;
    } else {
      var turn := SomebodyMoves(reqs, plan, capacity);
      MoveFits(reqs, plan, capacity, turn);
      MoveShortens(reqs, plan, capacity, turn);
      var rest := Finish(Move(reqs, capacity, turn), plan, capacity);
      more := [turn] + rest;
      assert more[1..] == rest && more[0] == turn;
      assert Run(reqs, capacity, more) == Run(Move(reqs, capacity, turn), capacity, rest);
    }
  }

  lemma {:induction false} OverHoldNothing(reqs: seq<Conn>)
    requires AllOver(reqs)
    ensures InUse(reqs) == 0
    decreases |reqs|
  {
    if reqs != [] { OverHoldNothing(reqs[..|reqs| - 1]); }
  }

  /** Steps time nobody out. */
  lemma {:induction false} StepsTimeNobodyOut(reqs: seq<Conn>, capacity: nat, turns: seq<Turn>, i: nat)
    requires i < |reqs| && (forall t :: t in turns ==> t.Go?)
    ensures |Run(reqs, capacity, turns)| == |reqs|
    ensures Run(reqs, capacity, turns)[i] == TimedOut ==> reqs[i] == TimedOut
    decreases |turns|
  {
    if turns != [] {
      assert turns[0].Go?;
      StepsTimeNobodyOut(Move(reqs, capacity, turns[0]), capacity, turns[1..], i);
    }
  }

  /** From every reachable state of any pool all requests can still end and return their connections. With
      more connections than takers nobody needs to be timed out for it. */
  lemma EverybodyCanFinish(plan: seq<nat>, capacity: nat, turns: seq<Turn>) returns (more: seq<Turn>)
    ensures var before, after := Run(Start(plan), capacity, turns), Run(Start(plan), capacity, turns + more);
      && |before| == |after| == |plan| && AllOver(after) && InUse(after) == 0
      && (Takers(plan) < capacity ==> forall i :: 0 <= i < |plan| && before[i] != TimedOut ==> after[i] == Released)
  {
    StartFits(plan, capacity);
    RunFits(Start(plan), plan, capacity, turns);
    var before := Run(Start(plan), capacity, turns);
    more := Finish(before, plan, capacity);
    RunAppend(Start(plan), capacity, turns, more);
    RunFits(before, plan, capacity, more);
    OverHoldNothing(Run(before, capacity, more));
    if Takers(plan) < capacity {
      forall i | 0 <= i < |plan| && before[i] != TimedOut ensures Run(before, capacity, more)[i] == Released {
        StepsTimeNobodyOut(before, capacity, more, i);
      }
    }
  }
}
