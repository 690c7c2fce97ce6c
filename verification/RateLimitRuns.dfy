/** Whole runs of the two counters, against the ideal fixed-window counter. */
module RateLimitRuns {
  import opened Wrappers
  import opened RateLimitSpec
  import opened FixedWindow
  import opened RedisCounter

  function Counts(outcomes: seq<Outcome>): (counts: seq<int>)
    ensures |counts| == |outcomes| && forall i :: 0 <= i < |counts| ==> counts[i] == outcomes[i].count
  {
    seq(|outcomes|, i requires 0 <= i < |outcomes| => outcomes[i].count)
  }

  // ---------------------------------------------------------------- the in-process map

  /** The map holds the ideal counter of `key`, or dropped it after its window ended. */
  ghost predicate Tracks(memory: map<string, Entry>, attempts: seq<Attempt>, key: string, window: int, n: nat)
    requires n <= |attempts|
  {
    var start := WindowStart(attempts, key, window, n);
    if key in memory
    then start.Some? && memory[key] == Entry(CountSince(attempts, key, start.value, n), start.value + window as real)
    else start.None? || (n > 0 && start.value + window as real <= attempts[n - 1].now)
  }

  lemma {:induction false} TracksAfterStep(
      s: State, o: Outcome, s': State, attempts: seq<Attempt>, key: string, window: int, n: nat)
    requires 0 < n <= |attempts| && NonDecreasing(attempts) && window >= 1 && UsesWindow(attempts, key, window)
    requires Step(s, attempts[n - 1], o, s') && o.evicted != Some(key)
    requires Tracks(s.memory, attempts, key, window, n - 1)
    ensures Tracks(s'.memory, attempts, key, window, n)
    ensures attempts[n - 1].key == key ==> o.count == IdealCount(attempts, window, n - 1)
  {
    var a := attempts[n - 1];
    if n > 1 {
      assert attempts[n - 2].now <= a.now;
    }
    if a.key == key {
      IdealStep(attempts, key, window, n);
    }
  }

  lemma {:induction false} MapTracksIdeal(
      states: seq<State>, attempts: seq<Attempt>, outcomes: seq<Outcome>, key: string, window: int, n: nat)
    requires Run(states, attempts, outcomes) && n <= |attempts|
    requires window >= 1 && UsesWindow(attempts, key, window) && Unevicted(outcomes, key)
    ensures Tracks(states[n].memory, attempts, key, window, n)
    ensures forall i :: 0 <= i < n && attempts[i].key == key ==>
                    outcomes[i].count == IdealCount(attempts, window, i)
  {
    if n > 0 {
      MapTracksIdeal(states, attempts, outcomes, key, window, n - 1);
      assert StepAt(states, attempts, outcomes, n - 1);
      TracksAfterStep(states[n - 1], outcomes[n - 1], states[n], attempts, key, window, n);
    }
  }

  /**
   The bounded, lazily reset, periodically cleaned map refines the ideal counter on every
   key that is not evicted, whatever was cleaned and when: every count it returned is the
   ideal count, and an entry it still holds counts the attempts since its expiry minus the window.
   */
  lemma {:induction false} MemoryRefinesIdealCounter(
      states: seq<State>, attempts: seq<Attempt>, outcomes: seq<Outcome>, key: string, window: int)
    requires Run(states, attempts, outcomes)
    requires window >= 1 && UsesWindow(attempts, key, window) && Unevicted(outcomes, key)
    ensures IdealCounts(attempts, Counts(outcomes), key, window)
    ensures forall n :: 0 <= n < |states| && key in states[n].memory ==>
                    var e := states[n].memory[key];
                    e.count == CountSince(attempts, key, e.expiresAt - window as real, n)
  {
    MapTracksIdeal(states, attempts, outcomes, key, window, |attempts|);
    forall n | 0 <= n < |states| && key in states[n].memory
      ensures var e := states[n].memory[key];
              e.count == CountSince(attempts, key, e.expiresAt - window as real, n)
    {
      MapTracksIdeal(states, attempts, outcomes, key, window, n);
    }
  }

  /** The hint of an increment is the ideal one. */
  lemma {:induction false} HintIsIdeal(
      states: seq<State>, attempts: seq<Attempt>, outcomes: seq<Outcome>, window: int, i: nat)
    requires Run(states, attempts, outcomes) && i < |attempts|
    requires window >= 1 && UsesWindow(attempts, attempts[i].key, window) && Unevicted(outcomes, attempts[i].key)
    ensures outcomes[i].retryAfter == IdealHint(attempts, window, i)
  {
    MapTracksIdeal(states, attempts, outcomes, attempts[i].key, window, i + 1);
    assert StepAt(states, attempts, outcomes, i);
  }

  lemma {:induction false} MemorySlidingBound(
      states: seq<State>, attempts: seq<Attempt>, outcomes: seq<Outcome>,
      key: string, limit: int, window: int, lo: real)
    requires Run(states, attempts, outcomes)
    requires window >= 1 && limit >= 1 && UsesWindow(attempts, key, window) && Unevicted(outcomes, key)
    ensures Admitted(attempts, Counts(outcomes), key, limit, window, lo, |attempts|) <= 2 * limit - 1
  {
    MemoryRefinesIdealCounter(states, attempts, outcomes, key, window);
    SlidingIntervalBound(attempts, Counts(outcomes), key, limit, window, lo);
  }

  /** So with at most ten thousand keys in use the map is the ideal counter for every one of them. */
  lemma {:induction false} FewKeysCountIdeally(
      states: seq<State>, attempts: seq<Attempt>, outcomes: seq<Outcome>,
      key: string, limit: int, window: int, lo: real)
    requires Run(states, attempts, outcomes) && |KeysUsed(attempts, |attempts|)| <= 10_000
    requires window >= 1 && limit >= 1 && UsesWindow(attempts, key, window)
    ensures IdealCounts(attempts, Counts(outcomes), key, window)
    ensures Admitted(attempts, Counts(outcomes), key, limit, window, lo, |attempts|) <= 2 * limit - 1
  {
    forall i | 0 <= i < |attempts|
      ensures outcomes[i].evicted == None
    {
      FewKeysStay(states, attempts, outcomes, i);
    }
    MemoryRefinesIdealCounter(states, attempts, outcomes, key, window);
    MemorySlidingBound(states, attempts, outcomes, key, limit, window, lo);
  }

  // ---------------------------------------------------------------- the shared counter

  ghost predicate RedisTracks(cells: map<string, Cell>, attempts: seq<Attempt>, key: string, window: int, n: nat)
    requires n <= |attempts|
  {
    var start := WindowStart(attempts, key, window, n);
    if key in cells
    then
      && start.Some? && cells[key].value >= 1
      && cells[key] == Cell(CountSince(attempts, key, start.value, n), Some(start.value + window as real))
    else start.None?
  }

  lemma {:induction false} RedisTracksAfterStep(
      cells: map<string, Cell>, attempts: seq<Attempt>, key: string, window: int, n: nat)
    requires 0 < n <= |attempts| && NonDecreasing(attempts) && window >= 1 && UsesWindow(attempts, key, window)
    requires RedisTracks(cells, attempts, key, window, n - 1)
    ensures var cells' := Script(cells, attempts[n - 1]);
            && RedisTracks(cells', attempts, key, window, n)
            && (attempts[n - 1].key == key ==> cells'[key].value == IdealCount(attempts, window, n - 1))
  {
    if attempts[n - 1].key == key {
      IdealStep(attempts, key, window, n);
      assert Present(cells, key, attempts[n - 1].now) <==>
             var before := WindowStart(attempts, key, window, n - 1);
             before.Some? && before.value + window as real > attempts[n - 1].now;
    }
  }

  lemma {:induction false} RedisTracksIdeal(
      states: seq<map<string, Cell>>, attempts: seq<Attempt>, counts: seq<int>, key: string, window: int, n: nat)
    requires RedisRun(states, attempts, counts) && n <= |attempts|
    requires window >= 1 && UsesWindow(attempts, key, window)
    ensures RedisTracks(states[n], attempts, key, window, n)
    ensures forall i :: 0 <= i < n && attempts[i].key == key ==> counts[i] == IdealCount(attempts, window, i)
  {
    if n > 0 {
      var i := n - 1;
      RedisTracksIdeal(states, attempts, counts, key, window, i);
      assert states[i + 1] == Script(states[i], attempts[i]);
      RedisTracksAfterStep(states[i], attempts, key, window, n);
    }
  }

  /** The script refines the same ideal counter, and never leaves a counter without a deadline. */
  lemma {:induction false} RedisRefinesIdealCounter(
      states: seq<map<string, Cell>>, attempts: seq<Attempt>, counts: seq<int>, key: string, window: int)
    requires RedisRun(states, attempts, counts)
    requires window >= 1 && UsesWindow(attempts, key, window)
    ensures IdealCounts(attempts, counts, key, window)
    ensures forall n :: 0 <= n < |states| && key in states[n] ==> states[n][key].deadline.Some?
  {
    RedisTracksIdeal(states, attempts, counts, key, window, |attempts|);
    forall n | 0 <= n < |states| && key in states[n]
      ensures states[n][key].deadline.Some?
    {
      RedisTracksIdeal(states, attempts, counts, key, window, n);
    }
  }

  lemma {:induction false} WindowsEndTogether(
      states: seq<State>, outcomes: seq<Outcome>, redis: seq<map<string, Cell>>, counts: seq<int>,
      attempts: seq<Attempt>, window: int, i: nat)
    requires Run(states, attempts, outcomes) && RedisRun(redis, attempts, counts) && i < |attempts|
    requires window >= 1 && UsesWindow(attempts, attempts[i].key, window) && Unevicted(outcomes, attempts[i].key)
    ensures var key := attempts[i].key;
            && key in states[i + 1].memory && key in redis[i + 1]
            && redis[i + 1][key].deadline == Some(states[i + 1].memory[key].expiresAt)
  {
    var key := attempts[i].key;
    RunKeepsBound(states, attempts, outcomes, i + 1);
    MapTracksIdeal(states, attempts, outcomes, key, window, i + 1);
    RedisTracksIdeal(redis, attempts, counts, key, window, i + 1);
  }

  /** Fed the same attempts, the two counters return the same counts and end the same windows on every unevicted key. */
  lemma {:induction false} CountersAgree(
      states: seq<State>, outcomes: seq<Outcome>, redis: seq<map<string, Cell>>, counts: seq<int>,
      attempts: seq<Attempt>, key: string, window: int)
    requires Run(states, attempts, outcomes) && RedisRun(redis, attempts, counts)
    requires window >= 1 && UsesWindow(attempts, key, window) && Unevicted(outcomes, key)
    ensures forall i :: 0 <= i < |attempts| && attempts[i].key == key ==>
              && outcomes[i].count == counts[i]
              && key in states[i + 1].memory && key in redis[i + 1]
              && redis[i + 1][key].deadline == Some(states[i + 1].memory[key].expiresAt)
  {
    MemoryRefinesIdealCounter(states, attempts, outcomes, key, window);
    RedisRefinesIdealCounter(redis, attempts, counts, key, window);
    forall i | 0 <= i < |attempts| && attempts[i].key == key
      ensures key in states[i + 1].memory && key in redis[i + 1]
      ensures redis[i + 1][key].deadline == Some(states[i + 1].memory[key].expiresAt)
    {
      WindowsEndTogether(states, outcomes, redis, counts, attempts, window, i);
    }
  }

  lemma {:induction false} RedisSlidingBound(
      states: seq<map<string, Cell>>, attempts: seq<Attempt>, counts: seq<int>,
      key: string, limit: int, window: int, lo: real)
    requires RedisRun(states, attempts, counts)
    requires window >= 1 && limit >= 1 && UsesWindow(attempts, key, window)
    ensures Admitted(attempts, counts, key, limit, window, lo, |attempts|) <= 2 * limit - 1
  {
    RedisRefinesIdealCounter(states, attempts, counts, key, window);
    SlidingIntervalBound(attempts, counts, key, limit, window, lo);
  }

  // ---------------------------------------------------------------- the bound is attained

  /** One attempt opens the window, the rest of the limit comes just before its end, a full limit right after it. */
  function Burst(key: string, limit: int, window: int): (attempts: seq<Attempt>)
    requires limit >= 1 && window >= 1
    ensures |attempts| == 2 * limit
  {
    seq(2 * limit, (i: int) =>
      Attempt(key, window,
              if i == 0 then 0.0 else if i < limit then window as real - 0.5 else window as real))
  }

  lemma {:induction false} BurstCounts(key: string, limit: int, window: int, n: nat)
    requires limit >= 1 && window >= 1 && n <= 2 * limit
    ensures var attempts := Burst(key, limit, window);
            && (0 < n <= limit ==>
                  && WindowStart(attempts, key, window, n) == Some(0.0)
                  && CountSince(attempts, key, 0.0, n) == n)
            && (limit < n ==>
                  && WindowStart(attempts, key, window, n) == Some(window as real)
                  && CountSince(attempts, key, window as real, n) == n - limit)
            && (n <= limit ==> CountSince(attempts, key, window as real, n) == 0)
  {
    if n > 0 {
      BurstCounts(key, limit, window, n - 1);
    }
  }

  lemma {:induction false} BurstAdmitted(key: string, limit: int, window: int, counts: seq<int>, n: nat)
    requires limit >= 1 && window >= 1 && n <= 2 * limit
    requires IdealCounts(Burst(key, limit, window), counts, key, window)
    ensures var attempts := Burst(key, limit, window);
            Admitted(attempts, counts, key, limit, window, window as real - 0.5, n) == if n == 0 then 0 else n - 1
  {
    if n > 0 {
      BurstAdmitted(key, limit, window, counts, n - 1);
      BurstCounts(key, limit, window, n);
      var attempts := Burst(key, limit, window);
      assert attempts[n - 1].key == key;
      assert counts[n - 1] == IdealCount(attempts, window, n - 1);
    }
  }

  /** A run of the map exists for every list of attempts on a single key, and evicts nothing. */
  lemma {:induction false} SingleKeyRun(attempts: seq<Attempt>, key: string, n: nat)
    returns (states: seq<State>, outcomes: seq<Outcome>)
    requires n <= |attempts| && forall i :: 0 <= i < |attempts| ==> attempts[i].key == key
    ensures Chain(states, attempts[..n], outcomes) && states[0] == EMPTY
    ensures Valid(states[n]) && states[n].memory.Keys <= {key} && Unevicted(outcomes, key)
  {
    if n == 0 {
      states, outcomes := [EMPTY], [];
    } else {
      var states0, outcomes0 := SingleKeyRun(attempts, key, n - 1);
      var s, a := states0[n - 1], attempts[n - 1];
      var o, s' := StepExists(s, a);
      StepKeepsBound(s, a, o, s');
      SubsetSize(s.memory.Keys, {key});
      EvictionIsJustified(s, a, o, s');
      assert o.evicted.None?;
      states, outcomes := states0 + [s'], outcomes0 + [o];
      forall i | 0 <= i < n
        ensures StepAt(states, attempts[..n], outcomes, i)
      {
        if i < n - 1 {
          assert StepAt(states0, attempts[..n - 1], outcomes0, i);
        }
      }
    }
  }

  /** For every limit and window some run of the map admits 2 * limit - 1 attempts in one interval. */
  lemma {:induction false} SlidingBoundAttained(key: string, limit: int, window: int)
    returns (states: seq<State>, attempts: seq<Attempt>, outcomes: seq<Outcome>, lo: real)
    requires limit >= 1 && window >= 1
    ensures Run(states, attempts, outcomes) && UsesWindow(attempts, key, window) && Unevicted(outcomes, key)
    ensures Admitted(attempts, Counts(outcomes), key, limit, window, lo, |attempts|) == 2 * limit - 1
  {
    attempts := Burst(key, limit, window);
    lo := window as real - 0.5;
    states, outcomes := SingleKeyRun(attempts, key, |attempts|);
    assert attempts[..|attempts|] == attempts;
    MemoryRefinesIdealCounter(states, attempts, outcomes, key, window);
    BurstAdmitted(key, limit, window, Counts(outcomes), |attempts|);
  }

  // ---------------------------------------------------------------- the retry hint

  ghost predicate NoAttemptBetween(attempts: seq<Attempt>, key: string, i: int, j: int)
    requires 0 <= i <= j <= |attempts|
  {
    forall m :: i < m < j ==> attempts[m].key != key
  }

  /** While nobody uses a key its entry can only disappear. */
  lemma {:induction false} IdleEntry(states: seq<State>, attempts: seq<Attempt>, outcomes: seq<Outcome>, i: nat, j: nat)
    requires Run(states, attempts, outcomes) && i < j <= |attempts|
    requires NoAttemptBetween(attempts, attempts[i].key, i, j)
    ensures var key := attempts[i].key;
            && key in states[i + 1].memory
            && (key in states[j].memory ==> states[j].memory[key] == states[i + 1].memory[key])
            && (key !in states[j].memory ==>
                  || states[i + 1].memory[key].expiresAt <= attempts[j - 1].now
                  || exists m :: i < m < j && outcomes[m].evicted == Some(key))
    decreases j
  {
    var key := attempts[i].key;
    if j == i + 1 {
      assert StepAt(states, attempts, outcomes, i);
    } else {
      IdleEntry(states, attempts, outcomes, i, j - 1);
      assert StepAt(states, attempts, outcomes, j - 1);
      assert attempts[j - 2].now <= attempts[j - 1].now;
      if key in states[j - 1].memory && key !in states[j].memory && outcomes[j - 1].evicted == Some(key) {
        assert i < j - 1 < j && outcomes[j - 1].evicted == Some(key);
      }
    }
  }

  /**
   What an attempt sees when the previous attempt on its key ended with entry expiry x:
   at x or later it opens a new window, even if the entry was evicted meanwhile; before x
   it counts on, unless the entry was evicted meanwhile.
   */
  lemma {:induction false} NextAttempt(
      states: seq<State>, attempts: seq<Attempt>, outcomes: seq<Outcome>, i: nat, j: nat)
    requires Run(states, attempts, outcomes) && i < j < |attempts|
    requires attempts[j].key == attempts[i].key && NoAttemptBetween(attempts, attempts[i].key, i, j)
    ensures attempts[i].key in states[i + 1].memory
    ensures var x := states[i + 1].memory[attempts[i].key].expiresAt;
            && outcomes[i].retryAfter == RetryAfter(x, attempts[i].now)
            && (attempts[j].now >= x ==> outcomes[j].count == 1)
            && (attempts[j].now < x && (forall m :: i < m < j ==> outcomes[m].evicted != Some(attempts[i].key)) ==>
                  outcomes[j].count == outcomes[i].count + 1)
  {
    var key := attempts[i].key;
    IdleEntry(states, attempts, outcomes, i, j);
    assert StepAt(states, attempts, outcomes, i);
    assert StepAt(states, attempts, outcomes, j);
    assert attempts[j - 1].now <= attempts[j].now;
    if key in states[j].memory {
      assert states[j].memory[key] == states[i + 1].memory[key];
    }
  }

  /** Waiting one second longer than a hint of at least the rule's own is enough for that rule. */
  lemma {:induction false} RetryHintSuffices(
      states: seq<State>, attempts: seq<Attempt>, outcomes: seq<Outcome>, i: nat, j: nat, hint: int)
    requires Run(states, attempts, outcomes) && i < j < |attempts|
    requires attempts[j].key == attempts[i].key && NoAttemptBetween(attempts, attempts[i].key, i, j)
    requires hint >= outcomes[i].retryAfter && attempts[j].now >= attempts[i].now + hint as real + 1.0
    ensures outcomes[j].count == 1
  {
    NextAttempt(states, attempts, outcomes, i, j);
  }

  /** The hint is not exaggerated: an attempt before it, and before the one-second floor, still counts on. */
  lemma {:induction false} RetryHintIsNeeded(
      states: seq<State>, attempts: seq<Attempt>, outcomes: seq<Outcome>, i: nat, j: nat)
    requires Run(states, attempts, outcomes) && i < j < |attempts|
    requires attempts[j].key == attempts[i].key && NoAttemptBetween(attempts, attempts[i].key, i, j)
    requires Unevicted(outcomes, attempts[i].key)
    requires outcomes[i].retryAfter > 1 && attempts[j].now < attempts[i].now + outcomes[i].retryAfter as real
    ensures outcomes[j].count == outcomes[i].count + 1
  {
    NextAttempt(states, attempts, outcomes, i, j);
  }

  /**
   Waiting exactly the hint is not always enough, because the hint is floored: it opens a
   new window if and only if the time that was left was a whole number of seconds or at most one.
   */
  lemma {:induction false} WaitingExactlyTheHint(
      states: seq<State>, attempts: seq<Attempt>, outcomes: seq<Outcome>, i: nat, j: nat)
    requires Run(states, attempts, outcomes) && i < j < |attempts|
    requires attempts[j].key == attempts[i].key && NoAttemptBetween(attempts, attempts[i].key, i, j)
    requires Unevicted(outcomes, attempts[i].key)
    requires attempts[j].now == attempts[i].now + outcomes[i].retryAfter as real
    ensures attempts[i].key in states[i + 1].memory
    ensures var left := states[i + 1].memory[attempts[i].key].expiresAt - attempts[i].now;
            outcomes[j].count == 1 <==> left <= 1.0 || left == left.Floor as real
  {
    NextAttempt(states, attempts, outcomes, i, j);
    RunKeepsBound(states, attempts, outcomes, i + 1);
    assert StepAt(states, attempts, outcomes, i);
  }

  // ---------------------------------------------------------------- the retry hint on the server

  lemma {:induction false} CellsHaveDeadlines(
      states: seq<map<string, Cell>>, attempts: seq<Attempt>, counts: seq<int>, n: nat)
    requires RedisRun(states, attempts, counts) && n <= |attempts|
    ensures forall k :: k in states[n] ==> states[n][k].value >= 1 && states[n][k].deadline.Some?
  {
    if n > 0 {
      CellsHaveDeadlines(states, attempts, counts, n - 1);
      assert states[n - 1 + 1] == Script(states[n - 1], attempts[n - 1]);
    }
  }

  lemma {:induction false} IdleCell(
      states: seq<map<string, Cell>>, attempts: seq<Attempt>, counts: seq<int>, i: nat, j: nat)
    requires RedisRun(states, attempts, counts) && i < j <= |attempts|
    requires NoAttemptBetween(attempts, attempts[i].key, i, j)
    ensures var key := attempts[i].key;
            key in states[i + 1] && key in states[j] && states[j][key] == states[i + 1][key]
    decreases j
  {
    if j == i + 1 {
      assert states[i + 1] == Script(states[i], attempts[i]);
    } else {
      IdleCell(states, attempts, counts, i, j - 1);
      assert states[j - 1 + 1] == Script(states[j - 1], attempts[j - 1]);
    }
  }

  /** On the server the next attempt on a key opens a new window exactly from the key's deadline on. */
  lemma {:induction false} NextOnServer(
      states: seq<map<string, Cell>>, attempts: seq<Attempt>, counts: seq<int>, i: nat, j: nat)
    requires RedisRun(states, attempts, counts) && i < j < |attempts|
    requires attempts[j].key == attempts[i].key && NoAttemptBetween(attempts, attempts[i].key, i, j)
    ensures attempts[i].key in states[i + 1] && states[i + 1][attempts[i].key].deadline.Some?
    ensures counts[j] == if attempts[j].now >= states[i + 1][attempts[i].key].deadline.value then 1 else counts[i] + 1
  {
    IdleCell(states, attempts, counts, i, j);
    CellsHaveDeadlines(states, attempts, counts, i + 1);
    assert states[i + 1] == Script(states[i], attempts[i]);
    assert states[j + 1] == Script(states[j], attempts[j]);
  }

  /**
   However the server rounds, waiting half a second longer than a hint of at least the key's
   own is enough; and an attempt more than half a second before a hint above 1 still counts on.
   */
  lemma {:induction false} ServerHintWithinHalfASecond(
      states: seq<map<string, Cell>>, attempts: seq<Attempt>, counts: seq<int>, round: Rounding,
      i: nat, j: nat, hint: int)
    requires RedisRun(states, attempts, counts) && IsRounding(round) && i < j < |attempts|
    requires attempts[j].key == attempts[i].key && NoAttemptBetween(attempts, attempts[i].key, i, j)
    requires attempts[i].key in states[i + 1]
    ensures var own := ServerHint(states[i + 1][attempts[i].key], attempts[i].now, round);
            && (hint >= own && attempts[j].now >= attempts[i].now + hint as real + 0.5 ==> counts[j] == 1)
            && (own > 1 && attempts[j].now < attempts[i].now + own as real - 0.5 ==> counts[j] == counts[i] + 1)
  {
    NextOnServer(states, attempts, counts, i, j);
    var left := states[i + 1][attempts[i].key].deadline.value - attempts[i].now;
    assert left - 0.5 <= round(left) as real <= left + 0.5;
  }

  /** Waiting exactly the hint opens a new window if and only if the time left was not rounded down below it. */
  lemma {:induction false} WaitingTheServerHint(
      states: seq<map<string, Cell>>, attempts: seq<Attempt>, counts: seq<int>, round: Rounding, i: nat, j: nat)
    requires RedisRun(states, attempts, counts) && i < j < |attempts|
    requires attempts[j].key == attempts[i].key && NoAttemptBetween(attempts, attempts[i].key, i, j)
    requires attempts[i].key in states[i + 1]
    requires attempts[j].now
             == attempts[i].now + ServerHint(states[i + 1][attempts[i].key], attempts[i].now, round) as real
    ensures states[i + 1][attempts[i].key].deadline.Some?
    ensures var left := states[i + 1][attempts[i].key].deadline.value - attempts[i].now;
            counts[j] == 1 <==> left <= 1.0 || left <= round(left) as real
  {
    NextOnServer(states, attempts, counts, i, j);
    CellsHaveDeadlines(states, attempts, counts, i + 1);
    assert states[i + 1] == Script(states[i], attempts[i]);
    CellsHaveDeadlines(states, attempts, counts, i);
  }
}
