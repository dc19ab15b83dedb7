/** The retry loop for one webhook message, with the result of every publish attempt, the
    cancellation of the route and the clock as inputs. */
module RetryDelays {

  const SECOND := 1_000_000_000
  const DEFAULT_MAX_RETRIES := 10

  function Pow2(n: nat): nat {
    if n == 0 then 1 else 2 * Pow2(n - 1)
  }

  /** A 64-bit signed result. */
  function Wrap64(x: int): int {
    (x + 0x8000_0000_0000_0000) % 0x1_0000_0000_0000_0000 - 0x8000_0000_0000_0000
  }

  /** The delay in nanoseconds scheduled before attempt `run`. */
  function Delay(algorithm: string, run: nat): int {
    if algorithm == "linear" then SECOND else Wrap64(SECOND * Wrap64(Pow2(run)))
  }

  /** The limit as configured, at most ten. */
  function Limit(maxRetries: int): int {
    if maxRetries < DEFAULT_MAX_RETRIES then maxRetries else DEFAULT_MAX_RETRIES
  }

  /** The attempts that a run makes at most: the first one is made whatever the limit says. */
  function MaxAttempts(maxRetries: int): (m: nat)
    ensures 1 <= m <= DEFAULT_MAX_RETRIES
  {
    if Limit(maxRetries) < 1 then 1 else Limit(maxRetries)
  }

  /** A policy of `n` retries allows `n` attempts, but at least one and at most ten. */
  lemma AttemptsAllowed(maxRetries: int)
    ensures 1 <= maxRetries <= 10 ==> MaxAttempts(maxRetries) == maxRetries
    ensures maxRetries < 1 ==> MaxAttempts(maxRetries) == 1
    ensures maxRetries > 10 ==> MaxAttempts(maxRetries) == 10
  {
  }

  /** The delays before the attempts 2, 3, ..., `m`. */
  function Schedule(algorithm: string, m: nat): (delays: seq<int>)
    ensures m <= 1 ==> delays == []
    ensures m >= 1 ==> |delays| == m - 1
  {
    if m <= 1 then [] else Schedule(algorithm, m - 1) + [Delay(algorithm, m)]
  }

  datatype Outcome = Published | Exhausted | Cancelled

  class RetryMessage {
    var currentRun: nat
    var retryAt: int

    constructor (now: int)
      ensures currentRun == 1 && retryAt == now
    {
      currentRun, retryAt := 1, now;
    }
  }

  /** `published(k)` is the result of attempt `k`, counted from 0; `stopped(k)` says that the
      route is found cancelled before it; `clock(k)` is read after it failed. */
  method Retry(message: RetryMessage, maxRetries: int, algorithm: string,
               published: nat -> bool, stopped: nat -> bool, clock: nat -> int)
    returns (outcome: Outcome, attempts: nat, delays: seq<int>)
    requires message.currentRun == 1
    modifies message
    ensures attempts <= MaxAttempts(maxRetries)
    ensures forall k: nat :: k < attempts ==> (published(k) <==> outcome.Published? && k == attempts - 1)
    ensures outcome.Cancelled? ==> stopped(attempts)
    ensures outcome.Published? ==> attempts >= 1
    ensures outcome.Exhausted? ==> attempts == MaxAttempts(maxRetries)
    ensures message.currentRun == |delays| + 1
    ensures delays == Schedule(algorithm, message.currentRun)
    ensures message.currentRun == if outcome.Cancelled? then attempts + 1 else attempts
    ensures delays != [] ==> message.retryAt == clock(|delays| - 1) + delays[|delays| - 1]
  {
    var limit := Limit(maxRetries);
    attempts, delays := 0, [];
    while true
      invariant message.currentRun == attempts + 1 == |delays| + 1
      invariant attempts < MaxAttempts(maxRetries)
      invariant forall k: nat :: k < attempts ==> !published(k)
      invariant delays == Schedule(algorithm, attempts + 1)
      invariant delays != [] ==> message.retryAt == clock(|delays| - 1) + delays[|delays| - 1]
      decreases MaxAttempts(maxRetries) - attempts
    {
      if stopped(attempts) {
        return Cancelled, attempts, delays;
      }
      attempts := attempts + 1;
      if published(attempts - 1) {
        return Published, attempts, delays;
      }
      if message.currentRun >= limit {
        return Exhausted, attempts, delays;
      }
      message.currentRun := message.currentRun + 1;
      var delay := Delay(algorithm, message.currentRun);
      message.retryAt := clock(attempts - 1) + delay;
      delays := delays + [delay];
    }
  }

  function Sum(delays: seq<int>): int {
    if delays == [] then 0 else Sum(delays[..|delays| - 1]) + delays[|delays| - 1]
  }

  lemma {:induction false} Pow2AtMost(n: nat)
    requires n <= DEFAULT_MAX_RETRIES
    ensures Pow2(n) <= 1024
    ensures n < DEFAULT_MAX_RETRIES ==> Pow2(n) <= 512
  {
    assert Pow2(10) == 1024 && Pow2(9) == 512;
    Pow2Grows(n, 10);
    if n < 10 {
      Pow2Grows(n, 9);
    }
  }

  lemma {:induction false} Pow2Grows(m: nat, n: nat)
    requires m <= n
    ensures Pow2(m) <= Pow2(n)
  {
    if m < n {
      Pow2Grows(m, n - 1);
    }
  }

  lemma WrapFits(x: int)
    requires 0 <= x <= 0x7FFF_FFFF_FFFF_FFFF
    ensures Wrap64(x) == x
  {
  }

  /** No delay that the loop schedules overflows 64-bit nanoseconds. */
  lemma DelayIsExact(algorithm: string, run: nat)
    requires run <= DEFAULT_MAX_RETRIES
    ensures Delay(algorithm, run) == if algorithm == "linear" then SECOND else SECOND * Pow2(run)
  {
    Pow2AtMost(run);
    WrapFits(Pow2(run));
    WrapFits(SECOND * Pow2(run));
  }

  /** An exhausted run schedules 2^(m+1)-4 seconds of exponential delay, at most 2044, or m-1
      seconds of linear delay. */
  lemma {:induction false} ExhaustedDelay(algorithm: string, m: nat)
    requires 1 <= m <= DEFAULT_MAX_RETRIES
    ensures Sum(Schedule(algorithm, m)) ==
            if algorithm == "linear" then SECOND * (m - 1) else SECOND * (Pow2(m + 1) - 4)
    ensures 0 <= Sum(Schedule(algorithm, m)) <= SECOND * 2044
  {
    if m == 1 {
      assert Pow2(2) == 4;
    } else {
      ExhaustedDelay(algorithm, m - 1);
      DelayIsExact(algorithm, m);
      var all := Schedule(algorithm, m);
      assert all[..|all| - 1] == Schedule(algorithm, m - 1);
      assert Pow2(m + 1) == 2 * Pow2(m);
    }
    Pow2AtMost(m);
    Pow2Grows(2, m + 1);
    assert Pow2(2) == 4 && Pow2(m + 1) == 2 * Pow2(m);
  }
}
