/** Waiting in the request queue until the request may start or its time is up. */
module QueueWait {
  import opened Words

  // Durations and instants are in nanoseconds.
  const MILLISECOND: int := 1_000_000
  const SECOND: int := 1_000_000_000
  const DEFAULT_QUEUE_TIME: int := 10 * SECOND

  /** The queue time of a request: the smaller of the configured positive ones. */
  function MaxQueueTime(user: int, clusterUser: int): (d: int)
    ensures d > 0
    ensures (user > 0 && d == user) || (clusterUser > 0 && d == clusterUser) ||
            (user <= 0 && clusterUser <= 0 && d == 10_000_000_000)
    ensures (user > 0 ==> d <= user) && (clusterUser > 0 ==> d <= clusterUser)
  {
    var d := if user <= 0 || (clusterUser > 0 && clusterUser < user) then clusterUser else user;
    if d <= 0 then DEFAULT_QUEUE_TIME else d
  }

  function Clamp(x: int, lo: int, hi: int): int {
    if x < lo then lo else if x > hi then hi else x
  }

  /** A tenth of the queue time, between a millisecond and a second. */
  function SleepTime(d: int): (s: int)
    requires d > 0
    ensures d < 10_000_000 ==> s == 1_000_000
    ensures 10_000_000 <= d < 10_000_000_000 ==> 10 * s <= d < 10 * (s + 1)
    ensures 10_000_000_000 <= d ==> s == 1_000_000_000
  {
    Clamp(d / 10, MILLISECOND, SECOND)
  }

  function CeilDiv(a: nat, b: nat): nat
    requires b > 0
  {
    (a + b - 1) / b
  }

  lemma BelowCeil(k: nat, a: nat, b: nat)
    requires b > 0 && k * b < a
    ensures k + 1 <= CeilDiv(a, b)
  {
    var q, r := CeilDiv(a, b), (a + b - 1) % b;
    assert a + b - 1 == q * b + r;
    MulAtLeast(q - k, b);
    assert (q - k) * b == q * b - k * b;
  }

  lemma AboveCeil(k: nat, a: nat, b: nat)
    requires b > 0 && k * b >= a
    ensures k >= CeilDiv(a, b)
  {
    var q, r := CeilDiv(a, b), (a + b - 1) % b;
    assert a + b - 1 == q * b + r;
    MulAtLeast(q - k, b);
    assert (q - k) * b == q * b - k * b;
  }

  /** How much time the first `n` attempts and the oversleeping behind them take. */
  function Delays(lag: nat -> nat, oversleep: nat -> nat, n: nat): nat {
    if n == 0 then 0 else Delays(lag, oversleep, n - 1) + lag(n - 1) + oversleep(n - 1)
  }

  /** Attempts and sleeps take no longer than asked. */
  ghost predicate Prompt(lag: nat -> nat, oversleep: nat -> nat) {
    forall i :: lag(i) == 0 && oversleep(i) == 0
  }

  /** When the k-th attempt begins in that case: after k sleeps, but no later than the deadline. */
  function PromptStart(start: int, d: int, k: nat): int
    requires d > 0
  {
    if k * SleepTime(d) < d then start + k * SleepTime(d) else start + d
  }

  /** Attempts to start the request until one succeeds or the deadline has passed.
      `verdict` says how the attempts end, `lag` how long each takes, and `oversleep` how much
      later than asked each sleep ends. */
  method WaitUntilAllowStart(start: int, d: int, verdict: nat -> bool, lag: nat -> nat, oversleep: nat -> nat)
    returns (admitted: bool, attempts: nat, now: int)
    requires d > 0
    ensures 1 <= attempts <= CeilDiv(d, SleepTime(d)) + 1
    ensures admitted <==> verdict(attempts - 1)
    ensures forall i :: 0 <= i < attempts - 1 ==> !verdict(i)
    ensures !admitted ==> now >= start + d
    ensures var delays := Delays(lag, oversleep, attempts - 1) + lag(attempts - 1);
            delays <= now - start <= delays + (attempts - 1) * SleepTime(d)
    ensures Prompt(lag, oversleep) ==> now == PromptStart(start, d, attempts - 1)
    ensures Prompt(lag, oversleep) && !admitted ==> attempts == CeilDiv(d, SleepTime(d)) + 1
  {
    var sleep, deadline := SleepTime(d), start + d;
    now, attempts := start, 0;
    while true
      invariant attempts <= CeilDiv(d, sleep)
      invariant now >= deadline || now >= start + attempts * sleep
      invariant forall i :: 0 <= i < attempts ==> !verdict(i)
      invariant var delays := Delays(lag, oversleep, attempts);
                delays <= now - start <= delays + attempts * sleep
      invariant Prompt(lag, oversleep) ==> now == PromptStart(start, d, attempts)
      decreases CeilDiv(d, sleep) + 1 - attempts
    {
      admitted := verdict(attempts);
      now := now + lag(attempts);
      attempts := attempts + 1;
      if admitted {
        return;
      }
      var left := deadline - now;
      if left <= 0 {
        if Prompt(lag, oversleep) {
          AboveCeil(attempts - 1, d, sleep);
        }
        return;
      }
      assert (attempts - 1) * sleep == attempts * sleep - sleep;
      BelowCeil(attempts - 1, d, sleep);
      now := now + (if sleep > left then left else sleep) + oversleep(attempts - 1);
    }
  }

  /** Up to the default queue time that is a dozen attempts at most. */
  lemma DozenAttempts(d: int)
    requires 0 < d <= DEFAULT_QUEUE_TIME
    ensures CeilDiv(d, SleepTime(d)) + 1 <= 12
  {
    var s := SleepTime(d);
    var q, r := CeilDiv(d, s), (d + s - 1) % s;
    assert d + s - 1 == q * s + r;
    MulAtLeast(q - 12, s);
    assert (q - 12) * s == q * s - 12 * s;
  }
}
