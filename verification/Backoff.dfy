/** The two retry delays, in nanoseconds, with int64 wrap-around written out. */
module Backoff {
  import opened Tasks
  import L = Lease

  const SECOND: int := 1000000000
  const HOUR: int := 3600 * SECOND

  const TWO63: int := 0x8000_0000_0000_0000
  const TWO64: int := 0x1_0000_0000_0000_0000

  function Pow2(n: nat): nat {
    if n == 0 then 1 else 2 * Pow2(n - 1)
  }

  function Min(x: int, y: int): int {
    if x <= y then x else y
  }

  /** int64 arithmetic */
  function Wrap64(x: int): int {
    (x + TWO63) % TWO64 - TWO63
  }

  function Doubled(base: nat, n: nat): nat {
    if n == 0 then base else 2 * Doubled(base, n - 1)
  }

  lemma {:induction false} DoubledIsPower(base: nat, n: nat)
    ensures Doubled(base, n) == base * Pow2(n)
  {
    if n <= 0 {
    } else {
      DoubledIsPower(base, n - 1);
      assert base * Pow2(n) == 2 * (base * Pow2(n - 1));
    }
  }

  lemma WrapShifts(x: int, k: int)
    ensures Wrap64(x - k * TWO64) == Wrap64(x)
  {
    var y := x + TWO63;
    var q, q' := y / TWO64, (y - k * TWO64) / TWO64;
    assert y == TWO64 * q + y % TWO64;
    assert y - k * TWO64 == TWO64 * q' + (y - k * TWO64) % TWO64;
    assert q' == q - k;
  }

  /** Wrapping in between does not matter to a doubling. */
  lemma DoublingCommutes(base: nat, n: nat)
    ensures Wrap64(2 * Wrap64(Doubled(base, n))) == Wrap64(Doubled(base, n + 1))
  {
    var x := Doubled(base, n);
    var q := (x + TWO63) / TWO64;
    assert Wrap64(x) == x - q * TWO64;
    assert 2 * Wrap64(x) == 2 * x - (2 * q) * TWO64;
    WrapShifts(2 * x, 2 * q);
  }

  /** Some doubling up to the n-th comes out at an hour or more. */
  predicate ReachesHour(base: nat, n: nat) {
    exists i: nat :: 1 <= i <= n && Wrap64(Doubled(base, i)) >= HOUR
  }

  /** What the loop computes in int64 arithmetic: n doublings, stopped at an hour. */
  function Backed(base: nat, n: nat): int {
    if ReachesHour(base, n) then HOUR else Min(Wrap64(Doubled(base, n)), HOUR)
  }

  lemma HourIsKept(base: nat, m: nat, n: nat)
    requires m <= n && ReachesHour(base, m)
    ensures ReachesHour(base, n)
  {
    var i: nat :| 1 <= i <= m && Wrap64(Doubled(base, i)) >= HOUR;
    assert 1 <= i <= n && Wrap64(Doubled(base, i)) >= HOUR;
  }

  /** Below 2^62 nothing wraps before the hour is reached. */
  lemma {:induction false} SmallBaseIsExact(base: nat, n: nat)
    requires base < 0x4000_0000_0000_0000
    ensures ReachesHour(base, n) ==> Doubled(base, n) >= HOUR
    ensures !ReachesHour(base, n) ==>
              Wrap64(Doubled(base, n)) == Doubled(base, n) && (n == 0 || Doubled(base, n) < HOUR)
  {
    if n == 0 {
    } else {
      SmallBaseIsExact(base, n - 1);
      if ReachesHour(base, n - 1) {
        HourIsKept(base, n - 1, n);
      } else if !ReachesHour(base, n) {
        assert Wrap64(Doubled(base, n)) < HOUR;
      }
    }
  }

  /** So the result is the doubling capped at an hour. */
  lemma SmallBaseIsCapped(base: nat, n: nat)
    requires base < 0x4000_0000_0000_0000
    ensures Backed(base, n) == Min(Doubled(base, n), HOUR)
  {
    SmallBaseIsExact(base, n);
  }

  /** For an int64 base, webhookRetryDelay is base * 2^(n-1) capped at one hour, for every
      n, while base is below 2^62 or nothing is doubled. From 2^62 on the doublings wrap:
      the result is one hour if some wrapped doubling reaches it, and otherwise the last of
      them, which may be zero or negative and is negative for n = 2. */
  method WebhookRetryDelay(base: nat, attempts: int) returns (delay: int)
    requires base < 0x8000_0000_0000_0000
    ensures base < 0x4000_0000_0000_0000 || attempts < 2 ==>
              delay == Min(base * Pow2(if attempts < 1 then 0 else attempts - 1), HOUR)
    ensures attempts >= 2 ==>
              delay == if ReachesHour(base, attempts - 1) then HOUR else Wrap64(Doubled(base, attempts - 1))
    ensures base >= 0x4000_0000_0000_0000 && attempts == 2 ==> delay < 0
  {
    var attemptsMade := attempts;
    if attemptsMade < 1 { attemptsMade := 1; }
    delay := base;
    var i := 1;
    while i < attemptsMade
      invariant 1 <= i <= attemptsMade
      invariant delay == Wrap64(Doubled(base, i - 1)) && !ReachesHour(base, i - 1)
    {
      DoublingCommutes(base, i - 1);
      delay := Wrap64(2 * delay);
      assert delay == Wrap64(Doubled(base, i));
      if delay >= HOUR {
        delay := HOUR;
        assert ReachesHour(base, attemptsMade - 1);
        break;
      }
      i := i + 1;
    }
    if delay > HOUR {
      delay := HOUR;
    }
    if base < 0x4000_0000_0000_0000 { SmallBaseIsCapped(base, attemptsMade - 1); }
    DoubledIsPower(base, attemptsMade - 1);
    if attempts == 2 { OneDoubling(base); }
  }

  lemma OneDoubling(base: nat)
    requires base < 0x8000_0000_0000_0000
    ensures base >= 0x4000_0000_0000_0000 ==> !ReachesHour(base, 1) && Wrap64(Doubled(base, 1)) < 0
  {
    assert Doubled(base, 1) == 2 * Doubled(base, 0) == 2 * base;
  }

  // ---- worker.go: retryDelay ----

  datatype Kind = Exponential | Linear | Other

  function Capped(retryCount: nat): int {
    Min(30 * SECOND * Pow2(retryCount), HOUR)
  }

  /** `random` is what rand.Int63n(delay / 2) returned. */
  function RetryDelay(kind: Kind, retryCount: nat, random: int): int {
    match kind
    case Exponential => Capped(retryCount) + (random - Capped(retryCount) / 4)
    case Linear => 30 * SECOND * (retryCount + 1)
    case Other => 30 * SECOND
  }

  lemma {:induction false} CappedIsWhole(retryCount: nat)
    ensures 30 * SECOND <= Capped(retryCount) <= HOUR && Capped(retryCount) % 4 == 0
  {
    if retryCount <= 0 {
    } else {
      CappedIsWhole(retryCount - 1);
    }
    assert 30 * SECOND * Pow2(retryCount) == 30000000000 * Pow2(retryCount);
  }

  /** 30 s, doubled up to six times, and one hour from the seventh retry on. */
  lemma {:induction false} CappedInNumbers(retryCount: nat)
    ensures Capped(retryCount) == if retryCount >= 7 then 3_600_000_000_000 else 30_000_000_000 * Pow2(retryCount)
    ensures retryCount == 0 ==> Capped(retryCount) == 30_000_000_000
    ensures retryCount == 6 ==> Capped(retryCount) == 1_920_000_000_000
    ensures retryCount > 0 ==>
              Capped(retryCount) == if retryCount >= 7 then 3_600_000_000_000 else 2 * Capped(retryCount - 1)
  {
    if retryCount == 0 {
    } else {
      CappedInNumbers(retryCount - 1);
      PowerIsLarge(retryCount);
    }
  }

  lemma {:induction false} PowerIsLarge(n: nat)
    ensures n >= 7 ==> Pow2(n) >= 128
    ensures n <= 6 ==> Pow2(n) <= 64
    ensures n == 6 ==> Pow2(n) == 64
  {
    if n == 0 {
    } else {
      PowerIsLarge(n - 1);
      if n <= 6 { assert Pow2(6) == 64 && Pow2(5) == 32 && Pow2(4) == 16 && Pow2(3) == 8; }
      if n == 7 { assert Pow2(6) == 64; }
    }
  }

  /** The delay is asked for only below the retry budget, so for a budget of at most 20 it
      is positive, fits an int64, and its exponential form stays within a quarter of the
      capped doubling. */
  lemma RetryDelayInRange(k: Tasks.Kind, res: L.Result, retry: nat, maxRetries: nat, kind: Kind, random: int)
    requires maxRetries <= 20 && L.Decide(k, res, retry, maxRetries) == L.Retry
    requires 0 <= random < Capped(retry) / 2
    ensures retry <= 19
    ensures 0 < RetryDelay(kind, retry, random) < 0x8000_0000_0000_0000
    ensures kind.Exponential? ==> 3 * Capped(retry) <= 4 * RetryDelay(kind, retry, random) < 5 * Capped(retry)
    ensures kind.Linear? ==> RetryDelay(kind, retry, random) == 30_000_000_000 * (retry + 1)
    ensures kind.Other? ==> RetryDelay(kind, retry, random) == 30_000_000_000
    ensures Capped(retry) == if retry >= 7 then 3_600_000_000_000 else 30_000_000_000 * Pow2(retry)
  {
    CappedIsWhole(retry);
    CappedInNumbers(retry);
  }
}
