/**
 The ideal fixed-window counter the rate limiter stands for. It is unbounded, never
 cleans up, and is read off the list of attempts alone: a window opens at the first
 attempt that finds no open window, stays open for the rule's length, and an attempt's
 count is the number of attempts on its key since its window opened.
 */
module FixedWindow {
  import opened Wrappers
  import opened RateLimitSpec

  /** When the window of `key` that is current after the first `n` attempts opened. */
  function WindowStart(attempts: seq<Attempt>, key: string, window: int, n: nat): Option<real>
    requires n <= |attempts|
  {
    if n == 0 then None
    else
      var start := WindowStart(attempts, key, window, n - 1);
      var a := attempts[n - 1];
      if a.key == key && (start.None? || start.value + window as real <= a.now) then Some(a.now) else start
  }

  /** How many of the first `n` attempts were on `key` at time `from` or later. */
  function CountSince(attempts: seq<Attempt>, key: string, from: real, n: nat): nat
    requires n <= |attempts|
  {
    if n == 0 then 0
    else
      CountSince(attempts, key, from, n - 1)
      + if attempts[n - 1].key == key && attempts[n - 1].now >= from then 1 else 0
  }

  /** The ideal count of attempt `i`, itself included. */
  function IdealCount(attempts: seq<Attempt>, window: int, i: nat): nat
    requires i < |attempts|
  {
    var start := WindowStart(attempts, attempts[i].key, window, i + 1);
    if start.None? then 0 else CountSince(attempts, attempts[i].key, start.value, i + 1)
  }

  /** The whole seconds until the window of attempt `i` ends, but at least one. */
  function IdealHint(attempts: seq<Attempt>, window: int, i: nat): int
    requires i < |attempts|
  {
    var start := WindowStart(attempts, attempts[i].key, window, i + 1);
    if start.None? then 1 else Max((start.value + window as real - attempts[i].now).Floor, 1)
  }

  /** Every attempt so far happened before the end of the current window, and opened it or came after. */
  lemma {:induction false} AttemptsPrecedeWindowEnd(attempts: seq<Attempt>, key: string, window: int, n: nat)
    requires n <= |attempts| && NonDecreasing(attempts) && window >= 1
    ensures WindowStart(attempts, key, window, n).None? ==>
              forall i :: 0 <= i < n ==> attempts[i].key != key
    ensures WindowStart(attempts, key, window, n).Some? ==>
              var start := WindowStart(attempts, key, window, n).value;
              && (exists i :: 0 <= i < n && attempts[i].key == key && attempts[i].now == start)
              && (forall i :: 0 <= i < n && attempts[i].key == key ==> attempts[i].now < start + window as real)
  {
    if n > 0 {
      AttemptsPrecedeWindowEnd(attempts, key, window, n - 1);
      var before := WindowStart(attempts, key, window, n - 1);
      var after := WindowStart(attempts, key, window, n);
      var a := attempts[n - 1];
      if a.key == key && after != before {
        assert after == Some(a.now);
        assert attempts[n - 1].key == key && attempts[n - 1].now == after.value;
      } else if before.Some? {
        var i :| 0 <= i < n - 1 && attempts[i].key == key && attempts[i].now == before.value;
        assert attempts[i].key == key && attempts[i].now == after.value;
      }
    }
  }

  lemma {:induction false} NoneSince(attempts: seq<Attempt>, key: string, from: real, n: nat)
    requires n <= |attempts|
    requires forall i :: 0 <= i < n && attempts[i].key == key ==> attempts[i].now < from
    ensures CountSince(attempts, key, from, n) == 0
  {
    if n > 0 {
      NoneSince(attempts, key, from, n - 1);
    }
  }

  /** How the ideal counter moves: an attempt opens a window with count 1 or adds one to the open window. */
  lemma {:induction false} IdealStep(attempts: seq<Attempt>, key: string, window: int, n: nat)
    requires 0 < n <= |attempts| && NonDecreasing(attempts) && window >= 1 && attempts[n - 1].key == key
    ensures var before := WindowStart(attempts, key, window, n - 1);
            var after := WindowStart(attempts, key, window, n);
            var a := attempts[n - 1];
            && after.Some?
            && CountSince(attempts, key, after.value, n) == IdealCount(attempts, window, n - 1)
            && if before.None? || before.value + window as real <= a.now
               then after.value == a.now && IdealCount(attempts, window, n - 1) == 1
               else after == before
                    && IdealCount(attempts, window, n - 1) == CountSince(attempts, key, before.value, n - 1) + 1
  {
    AttemptsPrecedeWindowEnd(attempts, key, window, n - 1);
    var before := WindowStart(attempts, key, window, n - 1);
    var a := attempts[n - 1];
    if before.None? || before.value + window as real <= a.now {
      NoneSince(attempts, key, a.now, n - 1);
    } else {
      var i :| 0 <= i < n - 1 && attempts[i].key == key && attempts[i].now == before.value;
      assert attempts[i].now <= a.now;
    }
  }

  // ---------------------------------------------------------------- the sliding-interval bound

  /** Attempts on `key` in [lo, lo + window) whose count is within the limit. */
  function Admitted(
      attempts: seq<Attempt>, counts: seq<int>, key: string, limit: int, window: int, lo: real, n: nat): nat
    requires n <= |attempts| && |counts| == |attempts|
  {
    if n == 0 then 0
    else
      Admitted(attempts, counts, key, limit, window, lo, n - 1)
      + if attempts[n - 1].key == key && lo <= attempts[n - 1].now < lo + window as real && counts[n - 1] <= limit
        then 1 else 0
  }

  ghost predicate IdealCounts(attempts: seq<Attempt>, counts: seq<int>, key: string, window: int) {
    && |counts| == |attempts|
    && forall i :: 0 <= i < |attempts| && attempts[i].key == key ==> counts[i] == IdealCount(attempts, window, i)
  }

  /** What may have been admitted, by where the current window opened relative to the interval. */
  function AdmittedBound(start: Option<real>, count: int, limit: int, window: int, lo: real): int {
    if start.None? then 0
    else if start.value < lo then (if count <= limit then count else limit) - 1
    else if start.value < lo + window as real then limit - 1 + (if count <= limit then count else limit)
    else 2 * limit - 1
  }

  lemma {:induction false} AdmittedWithinBound(
      attempts: seq<Attempt>, counts: seq<int>, key: string, limit: int, window: int, lo: real, n: nat)
    requires n <= |attempts| && NonDecreasing(attempts) && window >= 1 && limit >= 1
    requires IdealCounts(attempts, counts, key, window)
    ensures var start := WindowStart(attempts, key, window, n);
            var count := if start.None? then 0 else CountSince(attempts, key, start.value, n);
            && (start.Some? ==> count >= 1)
            && Admitted(attempts, counts, key, limit, window, lo, n) <= AdmittedBound(start, count, limit, window, lo)
    ensures n > 0 && attempts[n - 1].now < lo ==>
              Admitted(attempts, counts, key, limit, window, lo, n) == 0
  {
    if n > 0 {
      AdmittedWithinBound(attempts, counts, key, limit, window, lo, n - 1);
      if n > 1 {
        assert attempts[n - 2].now <= attempts[n - 1].now;
      }
      var before := WindowStart(attempts, key, window, n - 1);
      if attempts[n - 1].key == key {
        IdealStep(attempts, key, window, n);
        if before.Some? {
          AttemptsPrecedeWindowEnd(attempts, key, window, n - 1);
          var i :| 0 <= i < n - 1 && attempts[i].key == key && attempts[i].now == before.value;
          assert attempts[i].now <= attempts[n - 1].now;
        }
      }
    }
  }

  /**
   In any half-open interval as long as the window, at most 2 * limit - 1 attempts on one
   key pass. The interval meets at most two windows, and when it meets two of them the
   attempt that opened the first lies before the interval.
   */
  lemma {:induction false} SlidingIntervalBound(
      attempts: seq<Attempt>, counts: seq<int>, key: string, limit: int, window: int, lo: real)
    requires NonDecreasing(attempts) && window >= 1 && limit >= 1
    requires IdealCounts(attempts, counts, key, window)
    ensures Admitted(attempts, counts, key, limit, window, lo, |attempts|) <= 2 * limit - 1
  {
    AdmittedWithinBound(attempts, counts, key, limit, window, lo, |attempts|);
  }
}
