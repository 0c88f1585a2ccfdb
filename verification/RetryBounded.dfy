/** The bounded retry loop that opens the renderer. The injected clock is a
    sequence of readings, numbered in the order the loop takes them: reading 0 at
    the start, then for attempt k reading 3k+1 before it, 3k+2 after it and 3k+3
    after the wait that follows a failure. */
module RetryBounded {
  import opened Machine

  /** `saturating_duration_since(started_at)` of the i-th reading. */
  function Elapsed(clock: nat -> nat, i: nat): nat { SatSub(clock(i), clock(0)) }

  /** The budget handed to attempt k. */
  function BudgetAt(clock: nat -> nat, budget: nat, k: nat): nat
  {
    SatSub(budget, Elapsed(clock, 3 * k + 1))
  }

  /** The wait requested after attempt k fails. */
  function WaitAt(clock: nat -> nat, budget: nat, interval: nat, k: nat): nat
  {
    Min(interval, SatSub(budget, Elapsed(clock, 3 * k + 2)))
  }

  function TotalWait(clock: nat -> nat, budget: nat, interval: nat, k: nat): nat
  {
    if k == 0 then 0 else TotalWait(clock, budget, interval, k - 1) + WaitAt(clock, budget, interval, k - 1)
  }

  /** A monotonic clock, and waits that take at least as long as requested. */
  ghost predicate HonestClock(clock: nat -> nat, budget: nat, interval: nat)
  {
    (forall i: nat, k: nat :: i <= k ==> Elapsed(clock, i) <= Elapsed(clock, k)) &&
    (forall i: nat :: clock(0) <= clock(i)) &&
    forall k: nat {:trigger WaitAt(clock, budget, interval, k)} ::
      Elapsed(clock, 3 * k + 3) >= Elapsed(clock, 3 * k + 2) + WaitAt(clock, budget, interval, k)
  }

  /** Attempt k failed with budget left, and there was still budget left after the wait. */
  ghost predicate GoesOn<T, E>(clock: nat -> nat, budget: nat, attempt: (nat, nat) -> Result<T, E>, k: nat)
  {
    attempt(k, BudgetAt(clock, budget, k)).Err? &&
    Elapsed(clock, 3 * k + 2) < budget && Elapsed(clock, 3 * k + 3) < budget
  }

  ghost predicate AllGoOn<T, E>(clock: nat -> nat, budget: nat, attempt: (nat, nat) -> Result<T, E>, n: nat)
  {
    forall k :: 0 <= k < n ==> GoesOn(clock, budget, attempt, k)
  }

  /** The waits requested after n failures, and the one that a further failure
      within budget requests, stay inside the budget. */
  ghost predicate WaitsFit(clock: nat -> nat, budget: nat, interval: nat, n: nat)
  {
    TotalWait(clock, budget, interval, n) <= budget &&
    (Elapsed(clock, 3 * n + 2) < budget ==> TotalWait(clock, budget, interval, n + 1) <= budget)
  }

  /** The loop ends: it makes at most max(1, ceil(budget / interval)) attempts,
      repeats only after failures that leave budget, hands each attempt the
      remaining budget, keeps the requested waits within it, and gives up only once it has
      elapsed. */
  method Retry<T, E>(budget: nat, interval: nat, clock: nat -> nat, attempt: (nat, nat) -> Result<T, E>)
    returns (result: Result<T, E>, attempts: nat, elapsed: nat)
    requires interval > 0 && HonestClock(clock, budget, interval)
    ensures 1 <= attempts <= Max(1, (budget + interval - 1) / interval)
    ensures AllGoOn(clock, budget, attempt, attempts - 1)
    ensures result == attempt(attempts - 1, BudgetAt(clock, budget, attempts - 1))
    ensures result.Ok? ==> elapsed == Elapsed(clock, 3 * (attempts - 1) + 2)
    ensures result.Err? ==> elapsed >= budget
    ensures WaitsFit(clock, budget, interval, attempts - 1)
  {
    hide HonestClock;
    var failed := 0;
    while true
      invariant AllGoOn(clock, budget, attempt, failed)
      decreases SatSub(budget, Elapsed(clock, 3 * failed))
    {
      var remaining := SatSub(budget, Elapsed(clock, 3 * failed + 1));
      result := attempt(failed, remaining);
      elapsed := Elapsed(clock, 3 * failed + 2);
      if result.Ok? || elapsed >= budget {
        break;
      }
      // `wait` runs between these two readings
      WaitAdvances(clock, budget, interval, failed);
      elapsed := Elapsed(clock, 3 * failed + 3);
      if elapsed >= budget {
        break;
      }
      assert GoesOn(clock, budget, attempt, failed);
      failed := failed + 1;
    }
    attempts := failed + 1;
    AttemptsBounded(clock, budget, interval, attempt, failed);
    WaitsBounded(clock, budget, interval, attempt, failed);
  }

  lemma WaitAdvances(clock: nat -> nat, budget: nat, interval: nat, k: nat)
    requires interval > 0 && HonestClock(clock, budget, interval) && Elapsed(clock, 3 * k + 2) < budget
    ensures Elapsed(clock, 3 * k) <= Elapsed(clock, 3 * k + 2)
    ensures Elapsed(clock, 3 * k + 2) + WaitAt(clock, budget, interval, k) <= Elapsed(clock, 3 * k + 3)
    ensures WaitAt(clock, budget, interval, k) > 0
    ensures Elapsed(clock, 3 * k + 3) < budget ==> WaitAt(clock, budget, interval, k) == interval
  {
  }

  lemma {:induction false} WaitsPassTime<T, E>(clock: nat -> nat, budget: nat, interval: nat,
                                               attempt: (nat, nat) -> Result<T, E>, n: nat)
    requires interval > 0 && HonestClock(clock, budget, interval)
    requires AllGoOn(clock, budget, attempt, n)
    ensures TotalWait(clock, budget, interval, n) <= Elapsed(clock, 3 * n)
    ensures n > 0 ==> Elapsed(clock, 3 * n) < budget
  {
    if n > 0 {
      WaitsPassTime(clock, budget, interval, attempt, n - 1);
      assert GoesOn(clock, budget, attempt, n - 1);
      WaitAdvances(clock, budget, interval, n - 1);
      assert 3 * n == 3 * (n - 1) + 3;
    }
  }

  /** Every wait that does not end the loop is a full interval. */
  lemma {:induction false} WaitsAreFull<T, E>(clock: nat -> nat, budget: nat, interval: nat,
                                              attempt: (nat, nat) -> Result<T, E>, n: nat)
    requires interval > 0 && HonestClock(clock, budget, interval)
    requires AllGoOn(clock, budget, attempt, n)
    ensures TotalWait(clock, budget, interval, n) == n * interval
  {
    if n > 0 {
      WaitsAreFull(clock, budget, interval, attempt, n - 1);
      assert GoesOn(clock, budget, attempt, n - 1);
      WaitAdvances(clock, budget, interval, n - 1);
      OneMore(n, interval);
    }
  }

  lemma OneMore(n: nat, d: nat)
    requires n > 0
    ensures n * d == (n - 1) * d + d
  {
  }

  lemma FullIntervals(n: nat, interval: nat, budget: nat)
    requires interval > 0 && n * interval < budget
    ensures n + 1 <= (budget + interval - 1) / interval
  {
    assert (n + 1) * interval <= budget + interval - 1;
  }

  /** After n continued attempts, n full intervals lie strictly inside the budget:
      the loop makes at most max(1, ceil(budget / interval)) attempts. */
  lemma AttemptsBounded<T, E>(clock: nat -> nat, budget: nat, interval: nat,
                              attempt: (nat, nat) -> Result<T, E>, n: nat)
    requires interval > 0 && HonestClock(clock, budget, interval)
    requires AllGoOn(clock, budget, attempt, n)
    ensures n == 0 || n * interval < budget
    ensures n + 1 <= Max(1, (budget + interval - 1) / interval)
  {
    WaitsPassTime(clock, budget, interval, attempt, n);
    WaitsAreFull(clock, budget, interval, attempt, n);
    if n > 0 {
      FullIntervals(n, interval, budget);
    }
  }

  /** The waits requested so far, plus the one after a further failure, fit the budget. */
  lemma WaitsBounded<T, E>(clock: nat -> nat, budget: nat, interval: nat,
                           attempt: (nat, nat) -> Result<T, E>, n: nat)
    requires interval > 0 && HonestClock(clock, budget, interval)
    requires AllGoOn(clock, budget, attempt, n)
    ensures WaitsFit(clock, budget, interval, n)
  {
    WaitsPassTime(clock, budget, interval, attempt, n);
    assert Elapsed(clock, 3 * n) <= Elapsed(clock, 3 * n + 2);
  }

  /** Later attempts never get more time than earlier ones. */
  lemma {:induction false} BudgetsNeverIncrease(clock: nat -> nat, budget: nat, interval: nat, k: nat, m: nat)
    requires HonestClock(clock, budget, interval) && k <= m
    ensures BudgetAt(clock, budget, m) <= BudgetAt(clock, budget, k)
    decreases m
  {
    if k < m {
      BudgetsNeverIncrease(clock, budget, interval, k, m - 1);
      var i := 3 * m - 2;
      assert Elapsed(clock, i) <= Elapsed(clock, i + 1) <= Elapsed(clock, i + 2) <= Elapsed(clock, i + 3);
    }
  }
}
