/** Bounded connection acquisition. What the database and the random generator do is a script:
    the outcome of each attempt and the jitter drawn after it. Seconds are real numbers. */
module Retry {
  import opened Basics

  /** What one attempt meets: success, an exception the policy retries or one it does not,
      raised by `connect` or by the liveness probe on the open connection. */
  datatype Attempt = Works | ConnectFails | ProbeFails | ConnectRaises | ProbeRaises

  datatype Result = Connected | PoolExhausted | Raised

  datatype Policy = Policy(initial: real, maxAttempts: int, jitter: real)

  /** Everything an acquisition does: how it ends, how many connects, opens and closes it makes, and
      the pauses it sleeps. */
  datatype Trace = Trace(result: Result, connects: nat, opens: nat, closes: nat, sleeps: seq<real>)

  function Pow2(n: nat): (p: real)
    ensures p >= 1.0
  {
    if n == 0 then 1.0 else 2.0 * Pow2(n - 1)
  }

  /** `compute_backoff`; `draw` is what `uniform(-jitter, jitter)` returns. */
  function ComputeBackoff(attempt: nat, policy: Policy, draw: real): real {
    var base := policy.initial * Pow2(attempt);
    if policy.jitter <= 0.0 then base
    else if base + draw > 0.0 then base + draw else 0.0
  }

  predicate Opens(a: Attempt) {
    a == Works || a == ProbeFails || a == ProbeRaises
  }

  predicate Retryable(a: Attempt) {
    a == ConnectFails || a == ProbeFails
  }

  /** The pause after attempt `k`: none after the last. */
  function PauseAfter(draws: nat -> real, policy: Policy, k: nat): seq<real> {
    if k < policy.maxAttempts - 1 then [ComputeBackoff(k, policy, draws(k))] else []
  }

  /** The acquisition from attempt `k` on, as a plain recursion over the attempts. */
  function Acquire(script: nat -> Attempt, draws: nat -> real, policy: Policy, k: nat): Trace
    decreases policy.maxAttempts - k
  {
    if k >= policy.maxAttempts then Trace(PoolExhausted, 0, 0, 0, [])
    else match script(k)
      case Works => Trace(Connected, 1, 1, 0, [])
      case ConnectRaises => Trace(Raised, 1, 0, 0, [])
      case ProbeRaises => Trace(Raised, 1, 1, 0, [])
      case _ =>
        var rest := Acquire(script, draws, policy, k + 1);
        var open := if script(k) == ProbeFails then 1 else 0;
        Trace(rest.result, rest.connects + 1, rest.opens + open, rest.closes + open,
              PauseAfter(draws, policy, k) + rest.sleeps)
  }

  // ----- the pauses -----

  /** A pause moves off its base by exactly its draw, as far as it stays positive; without jitter it is
      the base. */
  ghost predicate FollowsDraw(pause: real, base: real, draw: real, jitter: real) {
    && (jitter <= 0.0 ==> pause == base)
    && (jitter > 0.0 && base + draw >= 0.0 ==> pause - base == draw)
    && (jitter > 0.0 && base + draw <= 0.0 ==> pause == 0.0)
  }

  /** The base of the first pause is the initial backoff, and each one is twice the one before. */
  function Base(policy: Policy, attempt: nat): real {
    policy.initial * Pow2(attempt)
  }

  lemma BaseDoubles(policy: Policy, attempt: nat)
    ensures Base(policy, 0) == policy.initial && Base(policy, attempt + 1) == 2.0 * Base(policy, attempt)
  {
  }

  /** The jitter is used, whole and once: two draws that leave a pause positive change it by their difference, a
      zero draw pauses for the base, and a draw that would make it negative for nothing. */
  lemma PausesFollowDraws(attempt: nat, policy: Policy, d: real, e: real)
    ensures var base := Base(policy, attempt);
      && FollowsDraw(ComputeBackoff(attempt, policy, d), base, d, policy.jitter)
      && (policy.jitter > 0.0 && base + d >= 0.0 && base + e >= 0.0 ==>
            ComputeBackoff(attempt, policy, d) - ComputeBackoff(attempt, policy, e) == d - e)
      && (base >= 0.0 ==> ComputeBackoff(attempt, policy, 0.0) == base)
  {
  }

  // ----- how it ends -----

  /** How many of the attempts from `k` up to `n` get as far as an open connection, and how many of those
      fail their liveness probe with a retryable exception. */
  function OpensAmong(script: nat -> Attempt, k: nat, n: nat): nat
    decreases n - k
  {
    if k >= n then 0
    else (if script(k) in {Works, ProbeFails, ProbeRaises} then 1 else 0) + OpensAmong(script, k + 1, n)
  }

  function FailedProbesAmong(script: nat -> Attempt, k: nat, n: nat): nat
    decreases n - k
  {
    if k >= n then 0 else (if script(k) == ProbeFails then 1 else 0) + FailedProbesAmong(script, k + 1, n)
  }

  /** The first `n` attempts all meet a retryable exception. */
  ghost predicate AllRetryable(script: nat -> Attempt, n: nat) {
    forall i :: 0 <= i < n ==> script(i) in {ConnectFails, ProbeFails}
  }

  /** The run of attempts from `k` on: where it stops decides everything else. */
  lemma {:induction false} AcquireFrom(script: nat -> Attempt, draws: nat -> real, policy: Policy, k: nat, stop: nat)
    requires k <= stop <= policy.maxAttempts
    requires forall i :: k <= i < stop ==> Retryable(script(i))
    requires stop < policy.maxAttempts ==> !Retryable(script(stop))
    ensures var t := Acquire(script, draws, policy, k);
      && t.result == (if stop == policy.maxAttempts then PoolExhausted
                      else if script(stop) == Works then Connected else Raised)
      && t.connects == stop - k + (if stop < policy.maxAttempts then 1 else 0)
      && t.opens - t.closes == (if stop < policy.maxAttempts && Opens(script(stop)) then 1 else 0)
      && t.opens == OpensAmong(script, k, k + t.connects) && t.closes == FailedProbesAmong(script, k, k + t.connects)
      && |t.sleeps| == (if stop == policy.maxAttempts && stop > k then stop - k - 1 else stop - k)
      && forall i :: 0 <= i < |t.sleeps| ==> t.sleeps[i] == ComputeBackoff(k + i, policy, draws(k + i))
    decreases stop - k
  {
    if k < stop {
      AcquireFrom(script, draws, policy, k + 1, stop);
      var t, rest := Acquire(script, draws, policy, k), Acquire(script, draws, policy, k + 1);
      forall i | 0 <= i < |t.sleeps| ensures t.sleeps[i] == ComputeBackoff(k + i, policy, draws(k + i)) {
        if i > 0 { assert t.sleeps[i] == rest.sleeps[i - 1]; }
      }
    }
  }

  /** Where the attempts of a script stop. */
  lemma {:induction false} StopExists(script: nat -> Attempt, n: nat) returns (stop: nat)
    ensures stop <= n && AllRetryable(script, stop) && (stop < n ==> !Retryable(script(stop)))
    decreases n
  {
    if n == 0 {
      stop := 0;
    } else {
      stop := StopExists(script, n - 1);
      if stop == n - 1 && Retryable(script(n - 1)) { stop := n; }
    }
  }

  function Bound(policy: Policy): nat {
    if policy.maxAttempts < 0 then 0 else policy.maxAttempts
  }

  /** For every script: the acquisition connects at most max_attempts times and never sleeps after
      the last; it is exhausted exactly when every attempt met a retryable exception, and then
      it slept once between any two attempts; it connects exactly when the first attempt that did
      not is a success, and then it slept once per failure. Each pause follows its draw, every connection
      that was opened is counted, and those that failed their probe were closed. */
  lemma AcquireIsBounded(script: nat -> Attempt, draws: nat -> real, policy: Policy)
    ensures var t := Acquire(script, draws, policy, 0); var n := Bound(policy);
      && t.connects <= n && |t.sleeps| <= (if n == 0 then 0 else n - 1)
      && (t.result == PoolExhausted <==> AllRetryable(script, n))
      && (t.result == PoolExhausted ==> t.connects == n && |t.sleeps| == (if n == 0 then 0 else n - 1))
      && (t.result == Connected <==> exists k :: 0 <= k < n && AllRetryable(script, k) && script(k) == Works)
      && (t.result != PoolExhausted ==> |t.sleeps| == t.connects - 1)
      && (forall i :: 0 <= i < |t.sleeps| ==> t.sleeps[i] == ComputeBackoff(i, policy, draws(i)))
      && (forall i :: 0 <= i < |t.sleeps| ==> FollowsDraw(t.sleeps[i], Base(policy, i), draws(i), policy.jitter))
      && t.opens == OpensAmong(script, 0, t.connects) && t.closes == FailedProbesAmong(script, 0, t.connects)
  {
    forall i: nat { PausesFollowDraws(i, policy, draws(i), draws(i)); }
    var stop := StopExists(script, Bound(policy));
    if policy.maxAttempts >= 0 { AcquireFrom(script, draws, policy, 0, stop); }
    if k :| 0 <= k < Bound(policy) && AllRetryable(script, k) && script(k) == Works {
      assert k <= stop;
      assert stop <= k;
    }
  }

  /** Connections: an acquisition hands over exactly one open connection when it returns and none when
      it is exhausted. When another exception escapes, one is left open exactly when the liveness
      probe raised it: that path does not close. */
  lemma ConnectionsAreConserved(script: nat -> Attempt, draws: nat -> real, policy: Policy)
    ensures var t := Acquire(script, draws, policy, 0);
      && (t.result == Connected ==> t.opens - t.closes == 1)
      && (t.result == PoolExhausted ==> t.opens - t.closes == 0)
      && (t.result == Raised ==> t.connects >= 1)
      && (t.result == Raised ==> t.opens - t.closes == (if script(t.connects - 1) == ProbeRaises then 1 else 0))
  {
    var stop := StopExists(script, Bound(policy));
    if policy.maxAttempts >= 0 { AcquireFrom(script, draws, policy, 0, stop); }
  }

  // ----- how long it sleeps -----

  function Sum(xs: seq<real>): real {
    if xs == [] then 0.0 else Sum(xs[..|xs| - 1]) + xs[|xs| - 1]
  }

  /** The least the first `m` pauses can add up to. */
  function LeastSleep(policy: Policy, m: nat): real {
    if m == 0 then 0.0 else
      var low := policy.initial * Pow2(m - 1) - policy.jitter;
      LeastSleep(policy, m - 1) + (if low > 0.0 then low else 0.0)
  }

  /** The geometric sum and all the jitter. */
  function MostSleep(policy: Policy, m: nat): real {
    policy.initial * (Pow2(m) - 1.0) + (m as real) * policy.jitter
  }

  ghost predicate DrawsInRange(draws: nat -> real, policy: Policy) {
    forall i :: -policy.jitter <= draws(i) <= policy.jitter
  }

  lemma NonNegative(a: real, b: real)
    requires a >= 0.0 && b >= 0.0
    ensures a * b >= 0.0
  {
  }

  lemma Clamped(base: real, draw: real, jitter: real)
    requires base >= 0.0 && -jitter <= draw <= jitter
    ensures base + draw > 0.0 ==> base - jitter <= base + draw <= base + jitter
    ensures base + draw <= 0.0 ==> base - jitter <= 0.0 <= base + jitter
  {
  }

  lemma BackoffBounds(attempt: nat, policy: Policy, draw: real)
    requires policy.initial >= 0.0 && policy.jitter >= 0.0 && -policy.jitter <= draw <= policy.jitter
    ensures var base := policy.initial * Pow2(attempt); var b := ComputeBackoff(attempt, policy, draw);
      && 0.0 <= b && base - policy.jitter <= b <= base + policy.jitter
  {
    var base := policy.initial * Pow2(attempt);
    NonNegative(policy.initial, Pow2(attempt));
    Clamped(base, draw, policy.jitter);
  }

  lemma GeometricStep(initial: real, p: real, k: real, jitter: real)
    ensures initial * (2.0 * p - 1.0) + (k + 1.0) * jitter == initial * (p - 1.0) + k * jitter + initial * p + jitter
  {
    assert initial * (2.0 * p - 1.0) == initial * (p - 1.0) + initial * p;
    assert (k + 1.0) * jitter == k * jitter + jitter;
  }

  lemma MostSleepGrows(policy: Policy, m: nat)
    ensures MostSleep(policy, m + 1) == MostSleep(policy, m) + policy.initial * Pow2(m) + policy.jitter
  {
    assert Pow2(m + 1) == 2.0 * Pow2(m);
    assert (m + 1) as real == m as real + 1.0;
    GeometricStep(policy.initial, Pow2(m), m as real, policy.jitter);
  }

  /** One more pause within its bounds keeps the sum within its bounds. */
  lemma OneMorePause(policy: Policy, m: nat, sum: real, pause: real)
    requires LeastSleep(policy, m) <= sum <= MostSleep(policy, m)
    requires 0.0 <= pause
    requires policy.initial * Pow2(m) - policy.jitter <= pause <= policy.initial * Pow2(m) + policy.jitter
    ensures LeastSleep(policy, m + 1) <= sum + pause <= MostSleep(policy, m + 1)
  {
    MostSleepGrows(policy, m);
  }

  lemma NothingSlept(policy: Policy)
    ensures LeastSleep(policy, 0) == 0.0 == MostSleep(policy, 0)
  {
  }

  lemma {:induction false} PausesAddUp(sleeps: seq<real>, draws: nat -> real, policy: Policy)
    requires policy.initial >= 0.0 && policy.jitter >= 0.0 && DrawsInRange(draws, policy)
    requires forall i :: 0 <= i < |sleeps| ==> sleeps[i] == ComputeBackoff(i, policy, draws(i))
    ensures LeastSleep(policy, |sleeps|) <= Sum(sleeps) <= MostSleep(policy, |sleeps|)
    decreases |sleeps|
  {
    if sleeps == [] {
      NothingSlept(policy);
    } else {
      var m := |sleeps| - 1;
      PausesAddUp(sleeps[..m], draws, policy);
      BackoffBounds(m, policy, draws(m));
      OneMorePause(policy, m, Sum(sleeps[..m]), sleeps[m]);
    }
  }

  lemma {:induction false} MostSleepMonotone(policy: Policy, m: nat, n: nat)
    requires policy.initial >= 0.0 && policy.jitter >= 0.0 && m <= n
    ensures MostSleep(policy, m) <= MostSleep(policy, n)
    decreases n
  {
    if m < n {
      MostSleepMonotone(policy, m, n - 1);
      MostSleepGrows(policy, n - 1);
      assert policy.initial * Pow2(n - 1) >= 0.0;
    }
  }

  lemma SleepsOf(script: nat -> Attempt, draws: nat -> real, policy: Policy)
    requires policy.maxAttempts >= 1
    ensures var t := Acquire(script, draws, policy, 0);
      && |t.sleeps| <= policy.maxAttempts - 1
      && (t.result == PoolExhausted ==> |t.sleeps| == policy.maxAttempts - 1)
      && (forall i :: 0 <= i < |t.sleeps| ==> t.sleeps[i] == ComputeBackoff(i, policy, draws(i)))
  {
    AcquireIsBounded(script, draws, policy);
  }

  /** The acquisition never hangs: for every script and every draw the pauses add up to at least the
      backoffs less their jitter and at most the geometric sum of the policy and all its jitter. */
  lemma TotalSleepIsBounded(script: nat -> Attempt, draws: nat -> real, policy: Policy)
    requires policy.initial >= 0.0 && policy.jitter >= 0.0 && DrawsInRange(draws, policy) && policy.maxAttempts >= 1
    ensures var t := Acquire(script, draws, policy, 0);
      && LeastSleep(policy, |t.sleeps|) <= Sum(t.sleeps) <= MostSleep(policy, |t.sleeps|)
      && Sum(t.sleeps) <= MostSleep(policy, policy.maxAttempts - 1)
      && (t.result == PoolExhausted ==> LeastSleep(policy, policy.maxAttempts - 1) <= Sum(t.sleeps))
  {
    SleepsOf(script, draws, policy);
    var t := Acquire(script, draws, policy, 0);
    PausesAddUp(t.sleeps, draws, policy);
    MostSleepMonotone(policy, |t.sleeps|, policy.maxAttempts - 1);
  }

  lemma PauseJoins(before: seq<real>, pause: seq<real>, rest: seq<real>)
    ensures before + (pause + rest) == before + pause + rest
  {
  }

  // ----- the code -----

  /** The engine, with what its pool and the sleep function have been asked for. */
  class Engine {
    const script: nat -> Attempt
    const draws: nat -> real
    var connects: nat
    var opens: nat
    var closes: nat
    var sleeps: seq<real>

    constructor (script: nat -> Attempt, draws: nat -> real)
      ensures this.script == script && this.draws == draws
      ensures connects == 0 && opens == 0 && closes == 0 && sleeps == []
    {
      this.script, this.draws := script, draws;
      connects, opens, closes, sleeps := 0, 0, 0, [];
    }

    /** Connections taken from the pool and not given back. */
    function Open(): int
      reads this
    {
      opens - closes
    }

    /** What was done since the old state is `t`. */
    twostate predicate Did(t: Trace)
      reads this
    {
      && connects == old(connects) + t.connects && opens == old(opens) + t.opens
      && closes == old(closes) + t.closes && sleeps == old(sleeps) + t.sleeps
    }

    /** What was done since the old state is the part of `t` before `rest`. */
    twostate predicate DidFirst(t: Trace, rest: Trace)
      reads this
    {
      && t.result == rest.result
      && connects + rest.connects == old(connects) + t.connects && opens + rest.opens == old(opens) + t.opens
      && closes + rest.closes == old(closes) + t.closes && sleeps + rest.sleeps == old(sleeps) + t.sleeps
    }

    /** One pass of the loop: None to go on, otherwise how it ends. */
    method Try(policy: Policy, attempt: nat) returns (end: Option<Result>)
      requires attempt < policy.maxAttempts
      modifies this
      ensures match end
        case Some(result) =>
          Did(Acquire(script, draws, policy, attempt)) && result == Acquire(script, draws, policy, attempt).result
        case None => DidFirst(Acquire(script, draws, policy, attempt), Acquire(script, draws, policy, attempt + 1))
    {
      connects := connects + 1;
      var outcome := script(attempt);
      if Opens(outcome) {
        opens := opens + 1;
      }
      if outcome == Works {
        return Some(Connected);
      }
      if !Retryable(outcome) {
        return Some(Raised);
      }
      if outcome == ProbeFails {
        closes := closes + 1;
      }
      PauseJoins(sleeps, PauseAfter(draws, policy, attempt), Acquire(script, draws, policy, attempt + 1).sleeps);
      if attempt < policy.maxAttempts - 1 {
        sleeps := sleeps + [ComputeBackoff(attempt, policy, draws(attempt))];
      } else {
        assert sleeps + [] == sleeps;
      }
      end := None;
    }

    /** `acquire_with_retry` does exactly what the recursion says. */
    method AcquireWithRetry(policy: Policy) returns (result: Result)
      modifies this
      ensures Did(Acquire(script, draws, policy, 0)) && result == Acquire(script, draws, policy, 0).result
      ensures forall i :: |old(sleeps)| <= i < |sleeps| ==> var k := i - |old(sleeps)|;
        FollowsDraw(sleeps[i], Base(policy, k), draws(k), policy.jitter)
    {
      AcquireIsBounded(script, draws, policy);
      var attempt := 0;
      while attempt < policy.maxAttempts
        invariant 0 <= attempt
        invariant DidFirst(Acquire(script, draws, policy, 0), Acquire(script, draws, policy, attempt))
        decreases policy.maxAttempts - attempt
      {
        var end := Try(policy, attempt);
        if end.Some? {
          return end.value;
        }
        attempt := attempt + 1;
      }
      assert sleeps + [] == sleeps;
      return PoolExhausted;
    }

    method Close()
      modifies this`closes
      ensures closes == old(closes) + 1
    {
      closes := closes + 1;
    }

    ghost predicate LeaksOnProbe(policy: Policy) {
      var t := Acquire(script, draws, policy, 0);
      t.result == Raised && t.connects >= 1 && script(t.connects - 1) == ProbeRaises
    }

    /** `retry_acquire` around a body that may itself raise: whatever happens, every connection it took
        is given back, unless the liveness probe raised a non-retryable exception. */
    method RetryAcquire(policy: Policy, bodyRaises: bool) returns (result: Result, ran: bool)
      modifies this
      ensures ran <==> Acquire(script, draws, policy, 0).result == Connected
      ensures !ran ==> result == Acquire(script, draws, policy, 0).result
      ensures ran ==> result == if bodyRaises then Raised else Connected
      ensures Open() == old(Open()) + (if LeaksOnProbe(policy) then 1 else 0)
      ensures connects == old(connects) + Acquire(script, draws, policy, 0).connects
      ensures sleeps == old(sleeps) + Acquire(script, draws, policy, 0).sleeps
    {
      ConnectionsAreConserved(script, draws, policy);
      result := AcquireWithRetry(policy);
      ran := result == Connected;
      if ran {
        if bodyRaises { result := Raised; }
        closes := closes + 1;
      }
    }

    /** `probe_database`. */
    method ProbeDatabase(policy: Policy) returns (result: Result)
      modifies this
      ensures result == Acquire(script, draws, policy, 0).result
      ensures Open() == old(Open()) + (if LeaksOnProbe(policy) then 1 else 0)
      ensures connects == old(connects) + Acquire(script, draws, policy, 0).connects
      ensures sleeps == old(sleeps) + Acquire(script, draws, policy, 0).sleeps
    {
      ConnectionsAreConserved(script, draws, policy);
      result := AcquireWithRetry(policy);
      if result == Connected {
        closes := closes + 1;
      }
    }
  }
}
