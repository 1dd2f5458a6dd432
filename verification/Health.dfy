/** The health check: a command retried with a pause between attempts until it passes or time is up. */
module Health {
  /** One run of the command: how long it takes, and whether it exits with 0. */
  datatype Attempt = Attempt(duration: nat, passes: bool)

  datatype Outcome = Passed | TimedOut | Cancelled

  const SECOND: nat := 1_000_000_000

  function Max(a: int, b: int): int {
    if a < b then b else a
  }

  /** The pause between two attempts; a negative one is none. */
  function Pause(interval: int): (pause: nat)
    ensures pause == Max(interval, 0)
  {
    Max(interval, 0)
  }

  /** How long a single run may take before it is cut off. */
  function Limit(interval: int): (limit: nat)
    ensures limit == Max(interval + 5 * SECOND, 0)
  {
    Max(interval + 5 * SECOND, 0)
  }

  /** Runs as the machine allows them: each is cut off at the limit, and without time none can start, let alone pass. */
  ghost predicate Feasible(interval: int, script: nat -> Attempt) {
    forall k :: script(k).duration <= Limit(interval) && (interval + 5 * SECOND <= 0 ==> !script(k).passes)
  }

  /** The time at the end of attempt number `n`. */
  function Elapsed(interval: int, script: nat -> Attempt, n: nat): nat {
    if n == 0 then 0
    else (if n == 1 then 0 else Elapsed(interval, script, n - 1) + Pause(interval)) + script(n - 1).duration
  }

  /** The first `n` attempts all failed, and none of them ended after the timeout. */
  predicate StillTrying(interval: int, timeout: int, script: nat -> Attempt, n: nat) {
    forall k: nat :: k < n ==> !script(k).passes && Elapsed(interval, script, k + 1) <= timeout
  }

  /** There is a pause, or no run is instantaneous. */
  ghost predicate TimePasses(interval: int, script: nat -> Attempt) {
    interval > 0 || forall k :: script(k).duration > 0
  }

  /** At most one failure for every interval in the timeout, and one more; or one for every unit of it. */
  predicate FailuresBounded(interval: int, timeout: int, n: nat) {
    n == 0 || (timeout >= 0 && if interval > 0 then n <= timeout / interval + 1 else n <= timeout)
  }

  /** Among the runs before the context ends there is one that passes after only failing ones in time. */
  ghost predicate SomeRunPasses(interval: int, timeout: int, script: nat -> Attempt, cancelledAfter: nat) {
    exists n: nat :: n < Max(cancelledAfter, 1) && StillTrying(interval, timeout, script, n) && script(n).passes
  }

  /**
    The retry loop with its times in nanoseconds, for any interval and timeout. `script` gives the
    runs in order; `cancelledAfter` is the number of attempts after which the context ends.
   */
  method Healthcheck(interval: int, timeout: int, script: nat -> Attempt, cancelledAfter: nat)
    returns (outcome: Outcome, attempts: nat, elapsed: nat)
    requires Feasible(interval, script)
    ensures 1 <= attempts <= Max(cancelledAfter, 1) && StillTrying(interval, timeout, script, attempts - 1)
    ensures elapsed == Elapsed(interval, script, attempts)
    ensures outcome.Passed? <==> script(attempts - 1).passes
    ensures outcome.Passed? <==> SomeRunPasses(interval, timeout, script, cancelledAfter)
    ensures outcome.TimedOut? ==> elapsed > timeout
    ensures outcome.Cancelled? ==> attempts >= cancelledAfter && StillTrying(interval, timeout, script, attempts)
    ensures TimePasses(interval, script) ==> FailuresBounded(interval, timeout, attempts - 1)
    ensures elapsed <= Max(timeout, 0) + Pause(interval) + Limit(interval)
  {
    var now := 0;
    attempts := 0;
    while true
      invariant attempts == 0 || attempts < cancelledAfter
      invariant now == if attempts == 0 then 0 else Elapsed(interval, script, attempts) + Pause(interval)
      invariant now <= Max(timeout, 0) + Pause(interval)
      invariant StillTrying(interval, timeout, script, attempts)
      decreases Max(cancelledAfter, 1) - attempts
    {
      if TimePasses(interval, script) { AttemptsAreBounded(interval, timeout, script, attempts); }
      var run := script(attempts);
      attempts := attempts + 1;
      now := now + run.duration;
      if run.passes { return Passed, attempts, now; }
      if now > timeout {
        NonePasses(interval, timeout, script, cancelledAfter, attempts);
        return TimedOut, attempts, now;
      }
      TriesOn(interval, timeout, script, attempts - 1);
      if attempts >= cancelledAfter {
        NonePasses(interval, timeout, script, cancelledAfter, attempts);
        return Cancelled, attempts, now;
      }
      now := now + Pause(interval);
    }
  }

  /** When the loop has given up, no later run would have counted. */
  lemma {:induction false} NonePasses(interval: int, timeout: int, script: nat -> Attempt, cancelledAfter: nat, n: nat)
    requires n >= 1 && StillTrying(interval, timeout, script, n - 1) && !script(n - 1).passes
    requires Elapsed(interval, script, n) > timeout || n >= cancelledAfter
    ensures !SomeRunPasses(interval, timeout, script, cancelledAfter)
  {
    forall m: nat | m < Max(cancelledAfter, 1) && StillTrying(interval, timeout, script, m)
      ensures !script(m).passes
    {
      if Elapsed(interval, script, n) > timeout { TimeIsUp(interval, timeout, script, n, m); }
    }
  }

  lemma {:induction false} TimeIsUp(interval: int, timeout: int, script: nat -> Attempt, n: nat, m: nat)
    requires n >= 1 && Elapsed(interval, script, n) > timeout
    ensures StillTrying(interval, timeout, script, m) ==> m < n
  {
    var last: nat := n - 1;
    assert script(last).passes || Elapsed(interval, script, last + 1) > timeout;
  }

  // ---- the check within a deploy ----

  /** What the machine makes of the command, run after run, until the context ends. */
  type Attempts = runs: seq<Attempt> | |runs| >= 1 witness [Attempt(0, false)]

  /** A run that takes longer than its limit is cut off, and without time none starts. */
  function CutOff(interval: int, run: Attempt): Attempt {
    if interval + 5 * SECOND > 0 && run.duration <= Limit(interval) then run else Attempt(Limit(interval), false)
  }

  function Script(interval: int, runs: Attempts): nat -> Attempt {
    (k: nat) => CutOff(interval, runs[if k < |runs| then k else |runs| - 1])
  }

  lemma ScriptIsFeasible(interval: int, runs: Attempts)
    ensures Feasible(interval, Script(interval, runs))
  {
    var script := Script(interval, runs);
    forall k: nat
      ensures script(k).duration <= Limit(interval) && (interval + 5 * SECOND <= 0 ==> !script(k).passes)
    {
      assert script(k) == CutOff(interval, runs[if k < |runs| then k else |runs| - 1]);
    }
  }

  /** How many runs a check made, and how long it took. */
  datatype Effort = Effort(attempts: nat, elapsed: nat)

  const NO_EFFORT := Effort(0, 0)

  /** What a check costs: there is a last run to it, at most a pause and a limit after the timeout. */
  ghost predicate Bounded(interval: int, timeout: int, runs: Attempts, effort: Effort) {
    && 1 <= effort.attempts <= |runs|
    && effort.elapsed == Elapsed(interval, Script(interval, runs), effort.attempts)
    && effort.elapsed <= Max(timeout, 0) + Pause(interval) + Limit(interval)
    && (TimePasses(interval, Script(interval, runs)) ==> FailuresBounded(interval, timeout, effort.attempts - 1))
  }

  /** The check passes, whoever waits for it. */
  ghost predicate Passes(interval: int, timeout: int, runs: Attempts) {
    SomeRunPasses(interval, timeout, Script(interval, runs), |runs|)
  }

  /** With a negative timeout the first failing run ends the check. */
  lemma NegativeTimeoutTriesOnce(interval: int, timeout: int, script: nat -> Attempt, n: nat)
    requires timeout < 0
    ensures StillTrying(interval, timeout, script, n) <==> n == 0
  {
    if n > 0 {
      var first := script(0);
      assert Elapsed(interval, script, 0 + 1) == first.duration;
    }
  }

  lemma {:induction false} PausesAddUp(interval: nat, script: nat -> Attempt, n: nat)
    requires n >= 1
    ensures (n - 1) * interval <= Elapsed(interval, script, n)
  {
    if n > 1 {
      PausesAddUp(interval, script, n - 1);
      assert (n - 1) * interval == (n - 2) * interval + interval;
    }
  }

  lemma {:induction false} DurationsAddUp(interval: int, script: nat -> Attempt, n: nat)
    requires forall k :: script(k).duration > 0
    ensures n <= Elapsed(interval, script, n)
  {
    if n > 1 { DurationsAddUp(interval, script, n - 1); }
  }

  lemma TriesOn(interval: int, timeout: int, script: nat -> Attempt, n: nat)
    requires StillTrying(interval, timeout, script, n)
    requires !script(n).passes && Elapsed(interval, script, n + 1) <= timeout
    ensures StillTrying(interval, timeout, script, n + 1)
  {
    forall k: nat | k < n + 1 ensures !script(k).passes && Elapsed(interval, script, k + 1) <= timeout {
      if k == n { assert Elapsed(interval, script, k + 1) == Elapsed(interval, script, n + 1); }
    }
  }

  /** As long as the loop is trying, the attempts so far are bounded. */
  lemma AttemptsAreBounded(interval: int, timeout: int, script: nat -> Attempt, n: nat)
    requires TimePasses(interval, script) && StillTrying(interval, timeout, script, n)
    ensures FailuresBounded(interval, timeout, n)
  {
    if n > 0 {
      assert !script(n - 1).passes && Elapsed(interval, script, n) <= timeout;
      if interval > 0 {
        PausesAddUp(interval, script, n);
        QuotientBound(n - 1, interval, timeout);
      } else {
        DurationsAddUp(interval, script, n);
      }
    }
  }

  lemma QuotientBound(a: nat, interval: nat, timeout: nat)
    requires interval > 0 && a * interval <= timeout
    ensures a <= timeout / interval
  {
    var q := timeout / interval;
    assert timeout < q * interval + interval == (q + 1) * interval;
    if a >= q + 1 { MulMonotone(a, q + 1, interval); }
  }

  lemma MulMonotone(a: nat, b: nat, c: nat)
    requires b <= a
    ensures b * c <= a * c
  {
  }

  /**
    Without a pause only the duration of the runs bounds their number: for every timeout and
    every `n` there are runs, short ones, after `n` of which the loop is still trying.
   */
  lemma NoPauseIsUnbounded(interval: int, timeout: nat, n: nat)
    requires interval <= 0
    ensures exists script: nat -> Attempt :: Feasible(interval, script) && StillTrying(interval, timeout, script, n)
  {
    var script := (k: nat) => Attempt(0, false);
    forall k: nat | k < n ensures !script(k).passes && Elapsed(interval, script, k + 1) <= timeout {
      NoTimePasses(interval, script, k + 1);
    }
    assert Feasible(interval, script) && StillTrying(interval, timeout, script, n);
  }

  lemma {:induction false} NoTimePasses(interval: int, script: nat -> Attempt, n: nat)
    requires interval <= 0 && forall k :: script(k).duration == 0
    ensures Elapsed(interval, script, n) == 0
  {
    if n > 1 { NoTimePasses(interval, script, n - 1); }
  }
}
