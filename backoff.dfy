/**
 * The reconnect policy shared by `ConnectionManager.connectionManager` and
 * `MacroPadApp.connectionManager`: the retry interval starts at 2 seconds, doubles
 * after each failed attempt up to 60 seconds, and returns to 2 after a success.
 */
module Backoff {
  import opened Events

  const RetryFloor: nat := 2
  const RetryCap: nat := 60

  /** `min(retry_interval * 2, max_interval)`. */
  function NextRetry(r: nat): nat {
    if r * 2 < RetryCap then r * 2 else RetryCap
  }

  /** What one pass of the supervision loop found. */
  datatype Cycle = AlreadyConnected | Connected(port: string) | Failed

  /** The retry interval after one pass. */
  function StepRetry(r: nat, c: Cycle): nat {
    match c
    case AlreadyConnected => r
    case Connected(_) => RetryFloor
    case Failed => NextRetry(r)
  }

  /** The retry interval after a run of passes. */
  function RetryAfter(r: nat, cycles: seq<Cycle>): nat
    decreases cycles
  {
    if cycles == [] then r else RetryAfter(StepRetry(r, cycles[0]), cycles[1..])
  }

  /** The sleep one pass takes when the interval is `r`: 2 seconds while connected, `r` after a
      failed attempt, none after a success. */
  function CycleSleep(r: nat, c: Cycle): seq<real> {
    match c
    case AlreadyConnected => [2.0]
    case Connected(_) => []
    case Failed => [r as real]
  }

  /** The sleeps taken during a run of passes. */
  function SleepsDuring(r: nat, cycles: seq<Cycle>): seq<real>
    decreases cycles
  {
    if cycles == [] then []
    else CycleSleep(r, cycles[0]) + SleepsDuring(StepRetry(r, cycles[0]), cycles[1..])
  }

  function Failures(n: nat): (f: seq<Cycle>)
    ensures |f| == n && forall k :: 0 <= k < n ==> f[k] == Failed
  {
    seq(n, _ => Failed)
  }

  function Pow2(n: nat): nat {
    if n == 0 then 1 else 2 * Pow2(n - 1)
  }

  function Min(a: int, b: int): int {
    if a < b then a else b
  }

  lemma {:induction false} RetryAfterSnoc(r: nat, cycles: seq<Cycle>, c: Cycle)
    ensures RetryAfter(r, cycles + [c]) == StepRetry(RetryAfter(r, cycles), c)
    decreases cycles
  {
    if cycles != [] {
      assert (cycles + [c])[1..] == cycles[1..] + [c];
      RetryAfterSnoc(StepRetry(r, cycles[0]), cycles[1..], c);
    }
  }

  lemma {:induction false} SleepsDuringSnoc(r: nat, cycles: seq<Cycle>, c: Cycle)
    ensures SleepsDuring(r, cycles + [c]) == SleepsDuring(r, cycles) + CycleSleep(RetryAfter(r, cycles), c)
    decreases cycles
  {
    if cycles == [] {
      assert SleepsDuring(StepRetry(r, c), []) == [];
    } else {
      assert (cycles + [c])[1..] == cycles[1..] + [c];
      SleepsDuringSnoc(StepRetry(r, cycles[0]), cycles[1..], c);
    }
  }

  /** Starting anywhere in [2, 60], the interval stays in [2, 60] whatever happens. */
  lemma {:induction false} RetryStaysInRange(r: nat, cycles: seq<Cycle>)
    requires RetryFloor <= r <= RetryCap
    ensures RetryFloor <= RetryAfter(r, cycles) <= RetryCap
    decreases cycles
  {
    if cycles != [] {
      RetryStaysInRange(StepRetry(r, cycles[0]), cycles[1..]);
    }
  }

  /** After n failures in a row the interval is `min(r * 2^n, 60)`. */
  lemma {:induction false} RetryAfterFailures(r: nat, n: nat)
    requires 1 <= r <= RetryCap
    ensures RetryAfter(r, Failures(n)) == Min(r * Pow2(n), RetryCap)
    decreases n
  {
    if n > 0 {
      assert Failures(n)[1..] == Failures(n - 1);
      RetryAfterFailures(NextRetry(r), n - 1);
      assert r * Pow2(n) == 2 * r * Pow2(n - 1);
      if r * 2 >= RetryCap {
        assert Pow2(n - 1) >= 1 by { PowPositive(n - 1); }
        assert NextRetry(r) * Pow2(n - 1) >= RetryCap;
      }
    }
  }

  lemma {:induction false} PowPositive(n: nat)
    ensures Pow2(n) >= 1
  {
    if n > 0 { PowPositive(n - 1); }
  }

  /** Consecutive failures from the floor sleep 2, 4, 8, ..., doubling up to and then staying at 60. */
  lemma {:induction false} FailureSleeps(r: nat, n: nat)
    requires 1 <= r <= RetryCap
    ensures |SleepsDuring(r, Failures(n))| == n
    ensures forall k :: 0 <= k < n ==> SleepsDuring(r, Failures(n))[k] == Min(r * Pow2(k), RetryCap) as real
    decreases n
  {
    if n > 0 {
      assert Failures(n)[1..] == Failures(n - 1);
      FailureSleeps(NextRetry(r), n - 1);
      var rest := SleepsDuring(NextRetry(r), Failures(n - 1));
      assert SleepsDuring(r, Failures(n)) == [r as real] + rest;
      forall k | 1 <= k < n
        ensures rest[k - 1] == Min(r * Pow2(k), RetryCap) as real
      {
        RetryAfterFailures(r, 1);
        assert Failures(1) == [Failed];
        RetryAfterFailures(NextRetry(r), k - 1);
        RetryAfterFailures(r, k);
        assert Failures(k) == [Failed] + Failures(k - 1);
      }
    }
  }

  /** From the floor, seven failures in a row sleep 2, 4, 8, 16, 32, 60, 60 seconds. */
  lemma FirstSevenFailures()
    ensures SleepsDuring(RetryFloor, Failures(7)) == [2.0, 4.0, 8.0, 16.0, 32.0, 60.0, 60.0]
  {
    FailureSleeps(RetryFloor, 7);
    assert Pow2(1) == 2 && Pow2(2) == 4 && Pow2(3) == 8 && Pow2(4) == 16 && Pow2(5) == 32 && Pow2(6) == 64;
  }

  lemma {:induction false} RetryAfterAppend(r: nat, a: seq<Cycle>, b: seq<Cycle>)
    ensures RetryAfter(r, a + b) == RetryAfter(RetryAfter(r, a), b)
    decreases a
  {
    if a == [] {
      assert a + b == b;
    } else {
      assert (a + b)[1..] == a[1..] + b;
      RetryAfterAppend(StepRetry(r, a[0]), a[1..], b);
    }
  }

  /** A success resets the interval: whatever came before, the passes after a success see the
      same intervals as a fresh start. */
  lemma SuccessResets(r: nat, before: seq<Cycle>, port: string, after: seq<Cycle>)
    ensures RetryAfter(r, before + [Connected(port)] + after) == RetryAfter(RetryFloor, after)
  {
    RetryAfterAppend(r, before + [Connected(port)], after);
    RetryAfterSnoc(r, before, Connected(port));
  }

  /** One more pass of a supervision loop whose trace so far slept as the policy prescribes:
      the new retry interval is the policy's, still within [2, 60], and the trace with the
      pass's events `step` still sleeps as prescribed. */
  lemma PassFacts(e0: seq<Event>, before: seq<Event>, step: seq<Event>, retry: nat, cycles: seq<Cycle>, cycle: Cycle)
    requires retry == RetryAfter(RetryFloor, cycles)
    requires Sleeps(before) == Sleeps(e0) + SleepsDuring(RetryFloor, cycles)
    requires Sleeps(step) == CycleSleep(retry, cycle)
    ensures StepRetry(retry, cycle) == RetryAfter(RetryFloor, cycles + [cycle])
    ensures RetryFloor <= StepRetry(retry, cycle) <= RetryCap
    ensures Sleeps(before + step) == Sleeps(e0) + SleepsDuring(RetryFloor, cycles + [cycle])
  {
    SleepsAppend(before, step);
    SleepsDuringSnoc(RetryFloor, cycles, cycle);
    RetryAfterSnoc(RetryFloor, cycles, cycle);
    RetryStaysInRange(RetryFloor, cycles + [cycle]);
  }
}
