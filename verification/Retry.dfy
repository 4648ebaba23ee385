/** The exponential backoff policy of app/jobs/retry.py. */
module Retry {
  function Pow3(n: nat): (p: real)
    ensures p >= 1.0
  {
    if n == 0 then 1.0 else 3.0 * Pow3(n - 1)
  }

  /** The source raises ValueError for attempt <= 0, so a caller must have started an attempt. */
  function RetryDelay(attempt: nat, base: real): (delay: real)
    requires attempt > 0
    ensures base >= 0.0 ==> delay >= base
  {
    base * Pow3(attempt - 1)
  }

  /** When an attempt that failed at `now` is due again: base times three to the attempts before it. */
  function Due(now: real, base: real, attempts: nat): real {
    now + base * Pow3(if attempts == 0 then 0 else attempts - 1)
  }

  lemma DueIsDelay(now: real, base: real, attempts: nat)
    requires attempts > 0
    ensures Due(now, base, attempts) == now + RetryDelay(attempts, base)
  {
  }

  /** The delays that separate `n` attempts, added up. */
  function TotalDelay(n: nat, base: real): real {
    if n <= 1 then 0.0 else TotalDelay(n - 1, base) + RetryDelay(n - 1, base)
  }

  lemma {:induction false} TotalDelayClosedForm(n: nat, base: real)
    requires n > 0
    ensures TotalDelay(n, base) == base * (Pow3(n - 1) - 1.0) / 2.0
  {
    if n > 1 {
      TotalDelayClosedForm(n - 1, base);
      assert Pow3(n - 1) == 3.0 * Pow3(n - 2);
    }
  }
}
