/**
 What evictions cost the rate limit. An evicted key starts a new window at once, so each
 eviction inside an interval lets one more limit of attempts pass: with `e` of them at most
 (e + 2) * limit - 1 in an interval as long as the window, and some run reaches that number.
 */
module EvictionBound {
  import opened Wrappers
  import opened RateLimitSpec
  import opened FixedWindow
  import opened RateLimitRuns

  predicate InInterval(at: real, lo: real, window: int) {
    lo <= at < lo + window as real
  }

  /** How often `key` was evicted in the interval [lo, lo + window) during the first `n` attempts. */
  function Evictions(
      attempts: seq<Attempt>, outcomes: seq<Outcome>, key: string, window: int, lo: real, n: nat): nat
    requires n <= |attempts| && |outcomes| == |attempts|
  {
    if n == 0 then 0
    else
      Evictions(attempts, outcomes, key, window, lo, n - 1)
      + if outcomes[n - 1].evicted == Some(key) && InInterval(attempts[n - 1].now, lo, window) then 1 else 0
  }

  /** All of the windows that were evicted, and all but the opening attempt of the window before them. */
  function Quota(evictions: nat, limit: nat): nat
    requires limit >= 1
  {
    if evictions == 0 then limit - 1 else Quota(evictions - 1, limit) + limit
  }

  lemma {:induction false} QuotaIs(evictions: nat, limit: nat)
    requires limit >= 1
    ensures Quota(evictions, limit) == (evictions + 1) * limit - 1
  {
    if evictions > 0 {
      QuotaIs(evictions - 1, limit);
    }
  }

  /** What may have passed, by where the entry's window start relative to the interval. */
  ghost predicate WithinQuota(
      memory: map<string, Entry>, key: string, limit: nat, window: int, lo: real,
      passed: nat, evictions: nat, now: real)
    requires limit >= 1
  {
    if key !in memory then
      passed <= Quota(evictions, limit) + if now >= lo + window as real then limit else 0
    else
      var start, count := memory[key].expiresAt - window as real, memory[key].count;
      && count >= 1 && start <= now
      && if start < lo then evictions == 0 && passed <= (if count <= limit then count else limit) - 1
         else if start < lo + window as real
         then passed <= Quota(evictions, limit) + if count <= limit then count else limit
         else passed <= Quota(evictions, limit) + limit
  }

  lemma {:induction false} QuotaKept(
      s: State, a: Attempt, o: Outcome, s': State, key: string, limit: nat, window: int, lo: real,
      passed: nat, evictions: nat, before: real)
    requires Step(s, a, o, s') && limit >= 1 && window >= 1 && before <= a.now && (a.key == key ==> a.window == window)
    requires WithinQuota(s.memory, key, limit, window, lo, passed, evictions, before)
    requires a.now < lo ==> passed == evictions == 0
    ensures var passed' := passed + if a.key == key && InInterval(a.now, lo, window) && o.count <= limit then 1 else 0;
            var evictions' := evictions + if o.evicted == Some(key) && InInterval(a.now, lo, window) then 1 else 0;
            WithinQuota(s'.memory, key, limit, window, lo, passed', evictions', a.now)
  {
  }

  /** The tallies of a run so far are within the quota. */
  ghost predicate TalliesFit(
      states: seq<State>, attempts: seq<Attempt>, outcomes: seq<Outcome>,
      key: string, limit: nat, window: int, lo: real, n: nat, now: real)
    requires n <= |attempts| == |outcomes| && |states| == |attempts| + 1 && limit >= 1
  {
    var passed := Admitted(attempts, Counts(outcomes), key, limit, window, lo, n);
    var evictions := Evictions(attempts, outcomes, key, window, lo, n);
    && (now < lo ==> passed == evictions == 0)
    && WithinQuota(states[n].memory, key, limit, window, lo, passed, evictions, now)
  }

  lemma {:induction false} TalliesStep(
      states: seq<State>, attempts: seq<Attempt>, outcomes: seq<Outcome>,
      key: string, limit: nat, window: int, lo: real, n: nat, before: real)
    requires 0 < n <= |attempts| == |outcomes| && |states| == |attempts| + 1 && limit >= 1 && window >= 1
    requires Step(states[n - 1], attempts[n - 1], outcomes[n - 1], states[n]) && before <= attempts[n - 1].now
    requires attempts[n - 1].key == key ==> attempts[n - 1].window == window
    requires TalliesFit(states, attempts, outcomes, key, limit, window, lo, n - 1, before)
    ensures TalliesFit(states, attempts, outcomes, key, limit, window, lo, n, attempts[n - 1].now)
  {
    var passed := Admitted(attempts, Counts(outcomes), key, limit, window, lo, n - 1);
    var evictions := Evictions(attempts, outcomes, key, window, lo, n - 1);
    QuotaKept(states[n - 1], attempts[n - 1], outcomes[n - 1], states[n],
              key, limit, window, lo, passed, evictions, before);
  }

  lemma {:induction false} RunWithinQuota(
      states: seq<State>, attempts: seq<Attempt>, outcomes: seq<Outcome>,
      key: string, limit: nat, window: int, lo: real, n: nat)
    requires Run(states, attempts, outcomes) && 0 < n <= |attempts|
    requires window >= 1 && limit >= 1 && UsesWindow(attempts, key, window)
    ensures TalliesFit(states, attempts, outcomes, key, limit, window, lo, n, attempts[n - 1].now)
  {
    assert StepAt(states, attempts, outcomes, n - 1);
    if n > 1 {
      RunWithinQuota(states, attempts, outcomes, key, limit, window, lo, n - 1);
      assert attempts[n - 2].now <= attempts[n - 1].now;
      TalliesStep(states, attempts, outcomes, key, limit, window, lo, n, attempts[n - 2].now);
    } else {
      TalliesStep(states, attempts, outcomes, key, limit, window, lo, n, attempts[0].now);
    }
  }

  /** With `e` evictions of the key inside the interval at most (e + 2) * limit - 1 attempts pass in it. */
  lemma {:induction false} EvictionSlidingBound(
      states: seq<State>, attempts: seq<Attempt>, outcomes: seq<Outcome>,
      key: string, limit: nat, window: int, lo: real)
    requires Run(states, attempts, outcomes)
    requires window >= 1 && limit >= 1 && UsesWindow(attempts, key, window)
    ensures Admitted(attempts, Counts(outcomes), key, limit, window, lo, |attempts|)
            <= (Evictions(attempts, outcomes, key, window, lo, |attempts|) + 2) * limit - 1
  {
    var evictions := Evictions(attempts, outcomes, key, window, lo, |attempts|);
    if attempts != [] {
      RunWithinQuota(states, attempts, outcomes, key, limit, window, lo, |attempts|);
    }
    QuotaIs(evictions, limit);
    QuotaIs(evictions + 1, limit);
  }

  // ---------------------------------------------------------------- the bound is attained

  /** A run so far. */
  datatype Trial = Trial(states: seq<State>, attempts: seq<Attempt>, outcomes: seq<Outcome>) {
    ghost predicate IsRun(key: string, window: int) {
      Run(states, attempts, outcomes) && UsesWindow(attempts, key, window)
    }

    ghost predicate Until(t: real) {
      attempts != [] ==> attempts[|attempts| - 1].now <= t
    }

    function Passed(key: string, limit: int, window: int, lo: real): nat
      requires |outcomes| == |attempts|
    {
      Admitted(attempts, Counts(outcomes), key, limit, window, lo, |attempts|)
    }

    function Evicted(key: string, window: int, lo: real): nat
      requires |outcomes| == |attempts|
    {
      Evictions(attempts, outcomes, key, window, lo, |attempts|)
    }
  }

  lemma {:induction false} TallyPrefix(
      attempts: seq<Attempt>, outcomes: seq<Outcome>, a: Attempt, o: Outcome,
      key: string, limit: int, window: int, lo: real, n: nat)
    requires n <= |attempts| == |outcomes|
    ensures Admitted(attempts + [a], Counts(outcomes + [o]), key, limit, window, lo, n)
            == Admitted(attempts, Counts(outcomes), key, limit, window, lo, n)
    ensures Evictions(attempts + [a], outcomes + [o], key, window, lo, n)
            == Evictions(attempts, outcomes, key, window, lo, n)
  {
    if n > 0 {
      TallyPrefix(attempts, outcomes, a, o, key, limit, window, lo, n - 1);
    }
  }

  /** One more attempt, with an outcome it can have. */
  lemma {:induction false} Prolong(
      trial: Trial, a: Attempt, o: Outcome, s': State, key: string, limit: int, window: int, lo: real)
    returns (trial': Trial)
    requires trial.IsRun(key, window) && trial.Until(a.now) && (a.key == key ==> a.window == window)
    requires Step(trial.states[|trial.attempts|], a, o, s')
    ensures trial'.IsRun(key, window) && trial'.Until(a.now)
    ensures trial'.attempts == trial.attempts + [a] && trial'.states[|trial'.attempts|] == s'
    ensures trial'.Passed(key, limit, window, lo) == trial.Passed(key, limit, window, lo)
            + if a.key == key && InInterval(a.now, lo, window) && o.count <= limit then 1 else 0
    ensures trial'.Evicted(key, window, lo) == trial.Evicted(key, window, lo)
            + if o.evicted == Some(key) && InInterval(a.now, lo, window) then 1 else 0
  {
    var Trial(states, attempts, outcomes) := trial;
    trial' := Trial(states + [s'], attempts + [a], outcomes + [o]);
    ChainProlonged(states, attempts, outcomes, a, o, s');
    TallyPrefix(attempts, outcomes, a, o, key, limit, window, lo, |attempts|);
  }

  lemma {:induction false} ChainProlonged(
      states: seq<State>, attempts: seq<Attempt>, outcomes: seq<Outcome>, a: Attempt, o: Outcome, s': State)
    requires Chain(states, attempts, outcomes) && Step(states[|attempts|], a, o, s')
    ensures Chain(states + [s'], attempts + [a], outcomes + [o])
  {
    forall i | 0 <= i < |attempts| + 1
      ensures StepAt(states + [s'], attempts + [a], outcomes + [o], i)
    {
      if i < |attempts| {
        assert StepAt(states, attempts, outcomes, i);
      }
    }
  }

  /** The parameters of the attaining run: the key, its limit and window, and the other keys of the crowd. */
  datatype Setup = Setup(key: string, names: set<string>, limit: nat, window: int) {
    ghost predicate Valid() {
      limit >= 1 && window >= 1 && key !in names
    }

    /** The interval is [Lo(), Lo() + window); the first window ends inside it. */
    function Lo(): real {
      window as real - 0.5
    }

    /** Inside the interval, after the end of the first window. */
    ghost predicate Inside(t: real) {
      window as real <= t < 2.0 * window as real - 0.5
    }

    ghost predicate Draws(a: Attempt) {
      a.window == window && (a.key == key || a.key in names)
    }
  }

  /** Some run on these keys ends in `s` at `now`, after so many passed attempts and evictions in the interval. */
  ghost predicate Reached(x: Setup, s: State, now: real, passed: int, evicted: int) {
    exists trial: Trial :: IsWitness(x, trial, s, now, passed, evicted)
  }

  ghost predicate IsWitness(x: Setup, trial: Trial, s: State, now: real, passed: int, evicted: int) {
    && trial.IsRun(x.key, x.window) && trial.Until(now)
    && (forall i :: 0 <= i < |trial.attempts| ==> x.Draws(trial.attempts[i]))
    && trial.states[|trial.attempts|] == s
    && trial.Passed(x.key, x.limit, x.window, x.Lo()) == passed
    && trial.Evicted(x.key, x.window, x.Lo()) == evicted
  }

  /** Every further attempt on these keys has an outcome. */
  lemma {:induction false} ReachNext(x: Setup, s: State, now: real, passed: int, evicted: int, a: Attempt)
    returns (o: Outcome, s': State)
    requires Reached(x, s, now, passed, evicted) && x.Draws(a) && now <= a.now
    ensures Step(s, a, o, s') && |s.memory| <= MEMORY_MAX_ENTRIES
    ensures var inside := InInterval(a.now, x.Lo(), x.window);
            Reached(x, s', a.now, passed + if a.key == x.key && inside && o.count <= x.limit then 1 else 0,
                    evicted + if o.evicted == Some(x.key) && inside then 1 else 0)
  {
    var trial: Trial :| IsWitness(x, trial, s, now, passed, evicted);
    RunKeepsBound(trial.states, trial.attempts, trial.outcomes, |trial.attempts|);
    o, s' := StepExists(s, a);
    var trial' := Prolong(trial, a, o, s', x.key, x.limit, x.window, x.Lo());
    assert IsWitness(x, trial', s', a.now, trial'.Passed(x.key, x.limit, x.window, x.Lo()),
                     trial'.Evicted(x.key, x.window, x.Lo()));
  }

  lemma {:induction false} NothingExpired(s: State, now: real)
    requires forall k :: k in s.memory ==> s.memory[k].expiresAt > now
    ensures Maintained(s, now).memory == s.memory
  {
  }

  lemma {:induction false} SwapSize(m: map<string, Entry>, gone: string, k: string, e: Entry)
    requires gone in m && k !in m
    ensures |(m - {gone})[k := e]| == |m|
  {
    assert (m - {gone}).Keys == m.Keys - {gone};
    InsertSize(m - {gone}, k, e);
  }

  lemma {:induction false} Later(x: Setup, s: State, now: real, later: real, passed: int, evicted: int)
    requires Reached(x, s, now, passed, evicted) && now <= later
    ensures Reached(x, s, later, passed, evicted)
  {
    var trial: Trial :| IsWitness(x, trial, s, now, passed, evicted);
    assert IsWitness(x, trial, s, later, passed, evicted);
  }

  /**
   The map once the first window has ended: nothing in it expires inside the interval, `key`
   opened at `open`, and everybody else opened before that, or at `later`.
   */
  ghost predicate Crowd(x: Setup, m: map<string, Entry>, pool: set<string>, open: real, later: real) {
    && pool <= x.names && (forall k :: k in pool ==> k !in m)
    && (forall k :: k in m ==> IsPlaced(x, k, m[k].expiresAt, open, later))
  }

  predicate IsPlaced(x: Setup, k: string, expiresAt: real, open: real, later: real) {
    && expiresAt >= 2.0 * x.window as real
    && if k == x.key then expiresAt == open + x.window as real
       else expiresAt < open + x.window as real || expiresAt == later + x.window as real
  }

  /** Who expires before `key`. */
  function Ahead(x: Setup, m: map<string, Entry>, open: real): set<string> {
    set k | k in m && m[k].expiresAt < open + x.window as real
  }

  /** Whoever expires soonest is ahead of `key`, or is `key` if nobody is. */
  lemma {:induction false} WhoGoes(
      x: Setup, m: map<string, Entry>, gone: string, pool: set<string>, open: real, later: real)
    requires Crowd(x, m, pool, open, later) && x.key in m && open < later && SoonestExpiring(m, gone)
    ensures if Ahead(x, m, open) == {} then gone == x.key else gone in Ahead(x, m, open)
  {
    var ahead := Ahead(x, m, open);
    assert IsPlaced(x, gone, m[gone].expiresAt, open, later);
    assert IsPlaced(x, x.key, m[x.key].expiresAt, open, later);
    if ahead == {} {
      assert gone !in ahead && m[gone].expiresAt <= m[x.key].expiresAt;
    } else {
      var k :| k in ahead;
      assert m[gone].expiresAt <= m[k].expiresAt;
    }
  }

  /** Who goes when a new key comes: nobody while there is room, else one that expires soonest. */
  ghost predicate MakesRoom(m: map<string, Entry>, gone: Option<string>) {
    match gone
    case None => |m| < MEMORY_MAX_ENTRIES
    case Some(k) => |m| == MEMORY_MAX_ENTRIES && SoonestExpiring(m, k)
  }

  function Without(m: map<string, Entry>, gone: Option<string>): map<string, Entry> {
    if gone.Some? then m - {gone.value} else m
  }

  function With(m: map<string, Entry>, gone: Option<string>, k: string, e: Entry): map<string, Entry> {
    Without(m, gone)[k := e]
  }

  lemma {:induction false} RoomSize(m: map<string, Entry>, gone: Option<string>, k: string, e: Entry)
    requires MakesRoom(m, gone) && k !in m
    ensures |With(m, gone, k, e)| == if gone == None then |m| + 1 else |m|
  {
    if gone == None {
      InsertSize(m, k, e);
    } else {
      SwapSize(m, gone.value, k, e);
    }
  }

  /** A new key joins the run. */
  lemma {:induction false} ReachNewKey(x: Setup, s: State, now: real, passed: int, evicted: int, a: Attempt)
    returns (gone: Option<string>, s': State)
    requires Reached(x, s, now, passed, evicted) && x.Draws(a) && now <= a.now && x.Inside(a.now) && x.limit >= 1
    requires a.key !in s.memory && forall k :: k in s.memory ==> s.memory[k].expiresAt > a.now
    ensures MakesRoom(s.memory, gone)
    ensures s'.memory == With(s.memory, gone, a.key, Entry(1, a.now + a.window as real))
    ensures Reached(x, s', a.now, passed + if a.key == x.key then 1 else 0,
                    evicted + if gone == Some(x.key) then 1 else 0)
  {
    var o: Outcome;
    NothingExpired(s, a.now);
    o, s' := ReachNext(x, s, now, passed, evicted, a);
    gone := o.evicted;
  }

  /** `key`, whose window is open, counts once more. */
  lemma {:induction false} ReachCount(x: Setup, s: State, now: real, passed: int, evicted: int) returns (s': State)
    requires Reached(x, s, now, passed, evicted) && InInterval(now, x.Lo(), x.window)
    requires x.key in s.memory && s.memory[x.key].count < x.limit
    requires forall k :: k in s.memory ==> s.memory[k].expiresAt > now
    ensures s'.memory == s.memory[x.key := Entry(s.memory[x.key].count + 1, s.memory[x.key].expiresAt)]
    ensures Reached(x, s', now, passed + 1, evicted)
  {
    var o: Outcome;
    NothingExpired(s, now);
    o, s' := ReachNext(x, s, now, passed, evicted, Attempt(x.key, x.window, now));
  }

  /** `key` counts on until its limit. */
  lemma {:induction false} CountOn(x: Setup, s: State, now: real, passed: int, evicted: int) returns (s': State)
    requires x.Valid() && InInterval(now, x.Lo(), x.window) && Reached(x, s, now, passed, evicted)
    requires x.key in s.memory && 1 <= s.memory[x.key].count <= x.limit
    requires forall k :: k in s.memory ==> s.memory[k].expiresAt > now
    ensures Reached(x, s', now, passed + (x.limit - s.memory[x.key].count), evicted)
    ensures s'.memory == s.memory[x.key := Entry(x.limit, s.memory[x.key].expiresAt)]
    decreases x.limit - s.memory[x.key].count
  {
    s' := s;
    var Entry(count, expiresAt) := s.memory[x.key];
    if count < x.limit {
      s' := ReachCount(x, s, now, passed, evicted);
      s' := CountOn(x, s', now, passed + 1, evicted);
    }
  }

  /** How many newcomers it takes until `key` is evicted. */
  function ToGo(x: Setup, m: map<string, Entry>, open: real): int {
    MEMORY_MAX_ENTRIES - |m| + |Ahead(x, m, open)| + 1
  }

  /** A newcomer at `later` is behind `key`, whether or not somebody else goes. */
  lemma {:induction false} NewcomerBehind(
      x: Setup, m: map<string, Entry>, gone: Option<string>, pool: set<string>, k: string, open: real, later: real)
    requires x.Valid() && k in pool && Crowd(x, m, pool, open, later)
    requires x.window as real <= open < later
    ensures k !in m
    ensures var m' := With(m, gone, k, Entry(1, later + x.window as real));
            && Crowd(x, m', pool - {k}, open, later)
            && Ahead(x, m', open) == Ahead(x, m, open) - (if gone.Some? then {gone.value} else {})
  {
  }

  /** What one newcomer does to the count of those to come, and to `key` when it is the last of them. */
  lemma {:induction false} NewcomerArrives(
      x: Setup, m: map<string, Entry>, m': map<string, Entry>, gone: Option<string>, pool: set<string>, k: string,
      open: real, later: real)
    requires x.Valid() && k in pool && Crowd(x, m, pool, open, later) && x.key in m
    requires x.window as real <= open < later && MakesRoom(m, gone)
    requires m' == With(m, gone, k, Entry(1, later + x.window as real))
    ensures Crowd(x, m', pool - {k}, open, later)
    ensures gone == Some(x.key) <==> x.key !in m'
    ensures x.key in m' ==> 0 < ToGo(x, m', open) == ToGo(x, m, open) - 1
    ensures x.key !in m' ==> ToGo(x, m, open) == 1 && |m'| == MEMORY_MAX_ENTRIES && Ahead(x, m', open) == {}
  {
    NewcomerBehind(x, m, gone, pool, k, open, later);
    RoomSize(m, gone, k, Entry(1, later + x.window as real));
    if gone.Some? {
      WhoGoes(x, m, gone.value, pool, open, later);
      var ahead := Ahead(x, m, open);
      assert ahead != {} ==> |ahead - {gone.value}| == |ahead| - 1;
    }
  }

  /** One newcomer. */
  lemma {:induction false} AddNewcomer(
      x: Setup, s: State, now: real, passed: int, evicted: int, pool: set<string>, k: string, open: real, later: real)
    returns (s': State)
    requires x.Valid() && x.Inside(open) && x.Inside(later) && open < later && now <= later && k in pool
    requires Reached(x, s, now, passed, evicted) && Crowd(x, s.memory, pool, open, later) && x.key in s.memory
    ensures Crowd(x, s'.memory, pool - {k}, open, later)
    ensures Reached(x, s', later, passed, evicted + if x.key in s'.memory then 0 else 1)
    ensures x.key in s'.memory ==> 0 < ToGo(x, s'.memory, open) == ToGo(x, s.memory, open) - 1
    ensures x.key !in s'.memory ==>
              ToGo(x, s.memory, open) == 1 && |s'.memory| == MEMORY_MAX_ENTRIES && Ahead(x, s'.memory, open) == {}
  {
    LiveCrowd(x, s.memory, pool, open, later);
    var gone: Option<string>;
    gone, s' := ReachNewKey(x, s, now, passed, evicted, Attempt(k, x.window, later));
    NewcomerArrives(x, s.memory, s'.memory, gone, pool, k, open, later);
  }

  lemma {:induction false} LiveCrowd(x: Setup, m: map<string, Entry>, pool: set<string>, open: real, later: real)
    requires Crowd(x, m, pool, open, later)
    ensures forall k :: k in m ==> m[k].expiresAt >= 2.0 * x.window as real
  {
    forall k | k in m
      ensures m[k].expiresAt >= 2.0 * x.window as real
    {
      assert IsPlaced(x, k, m[k].expiresAt, open, later);
    }
  }

  /** Newcomers arrive until `key` is evicted. */
  lemma {:induction false} CrowdOut(
      x: Setup, s: State, now: real, passed: int, evicted: int, pool: set<string>, open: real, later: real)
    returns (s': State, pool': set<string>)
    requires x.Valid() && x.Inside(open) && x.Inside(later) && open < later && now <= later
    requires Reached(x, s, now, passed, evicted) && Crowd(x, s.memory, pool, open, later) && x.key in s.memory
    requires 0 < ToGo(x, s.memory, open) <= |pool|
    ensures Reached(x, s', later, passed, evicted + 1)
    ensures Crowd(x, s'.memory, pool', open, later) && |pool'| == |pool| - ToGo(x, s.memory, open)
    ensures x.key !in s'.memory && |s'.memory| == MEMORY_MAX_ENTRIES && Ahead(x, s'.memory, open) == {}
    decreases ToGo(x, s.memory, open)
  {
    var k :| k in pool;
    s' := AddNewcomer(x, s, now, passed, evicted, pool, k, open, later);
    pool' := pool - {k};
    if x.key in s'.memory {
      s', pool' := CrowdOut(x, s', later, passed, evicted, pool', open, later);
    }
  }

  /** Nobody knows yet when the next newcomers come. */
  ghost predicate Settled(x: Setup, m: map<string, Entry>, pool: set<string>, open: real) {
    x.key in m && Crowd(x, m, pool, open, open - 1.0) && Ahead(x, m, open) == m.Keys - {x.key}
  }

  /** Then they may come at any time after `open`. */
  lemma {:induction false} SettledCrowd(x: Setup, m: map<string, Entry>, pool: set<string>, open: real, later: real)
    requires Settled(x, m, pool, open)
    ensures Crowd(x, m, pool, open, later) && ToGo(x, m, open) == MEMORY_MAX_ENTRIES
  {
    forall k | k in m
      ensures IsPlaced(x, k, m[k].expiresAt, open, later)
    {
      assert k != x.key ==> k in Ahead(x, m, open);
    }
  }

  /** When `key` is gone and nobody was ahead of it, it comes back behind everybody, in somebody's place. */
  lemma {:induction false} KeyBehind(
      x: Setup, m: map<string, Entry>, m': map<string, Entry>, gone: Option<string>, pool: set<string>,
      open: real, later: real, again: real)
    requires x.Valid() && Crowd(x, m, pool, open, later) && x.key !in m
    requires Ahead(x, m, open) == {} && x.window as real <= open < later < again
    requires m' == With(m, gone, x.key, Entry(1, again + x.window as real))
    ensures Settled(x, m', pool, again) && m'[x.key].count == 1
  {
    forall k | k in m
      ensures m[k].expiresAt == later + x.window as real
    {
      assert k !in Ahead(x, m, open) && IsPlaced(x, k, m[k].expiresAt, open, later);
    }
  }

  lemma {:induction false} SettledCount(x: Setup, m: map<string, Entry>, pool: set<string>, open: real, count: int)
    requires Settled(x, m, pool, open)
    ensures Settled(x, m[x.key := Entry(count, m[x.key].expiresAt)], pool, open)
    ensures |m[x.key := Entry(count, m[x.key].expiresAt)]| == |m|
    ensures forall k :: k in m ==> m[k].expiresAt >= 2.0 * x.window as real
  {
    InsertSize(m, x.key, Entry(count, m[x.key].expiresAt));
    LiveCrowd(x, m, pool, open, open - 1.0);
    assert Ahead(x, m[x.key := Entry(count, m[x.key].expiresAt)], open) == Ahead(x, m, open);
  }

  lemma {:induction false} ReachKey(x: Setup, s: State, now: real, passed: int, evicted: int, again: real)
    returns (gone: Option<string>, s': State)
    requires Reached(x, s, now, passed, evicted) && now <= again && x.Inside(again) && x.limit >= 1
    requires x.key !in s.memory && |s.memory| == MEMORY_MAX_ENTRIES
    requires forall k :: k in s.memory ==> s.memory[k].expiresAt > again
    ensures s'.memory == With(s.memory, gone, x.key, Entry(1, again + x.window as real))
    ensures |s'.memory| == MEMORY_MAX_ENTRIES && Reached(x, s', again, passed + 1, evicted)
  {
    gone, s' := ReachNewKey(x, s, now, passed, evicted, Attempt(x.key, x.window, again));
    RoomSize(s.memory, gone, x.key, Entry(1, again + x.window as real));
  }

  /** `key` comes back. */
  lemma {:induction false} KeyReopens(
      x: Setup, s: State, passed: int, evicted: int, pool: set<string>, open: real, later: real, again: real)
    returns (s': State)
    requires x.Valid() && x.Inside(open) && x.Inside(again) && open < later < again
    requires Reached(x, s, later, passed, evicted) && Crowd(x, s.memory, pool, open, later)
    requires x.key !in s.memory && |s.memory| == MEMORY_MAX_ENTRIES && Ahead(x, s.memory, open) == {}
    ensures Reached(x, s', again, passed + 1, evicted)
    ensures Settled(x, s'.memory, pool, again) && |s'.memory| == MEMORY_MAX_ENTRIES
    ensures s'.memory[x.key].count == 1
  {
    var gone: Option<string>;
    LiveCrowd(x, s.memory, pool, open, later);
    gone, s' := ReachKey(x, s, later, passed, evicted, again);
    KeyBehind(x, s.memory, s'.memory, gone, pool, open, later, again);
  }

  /** `key` comes back and counts to its limit. */
  lemma {:induction false} KeyReturns(
      x: Setup, s: State, passed: int, evicted: int, pool: set<string>, open: real, later: real, again: real)
    returns (s': State)
    requires x.Valid() && x.Inside(open) && x.Inside(again) && open < later < again
    requires Reached(x, s, later, passed, evicted) && Crowd(x, s.memory, pool, open, later)
    requires x.key !in s.memory && |s.memory| == MEMORY_MAX_ENTRIES && Ahead(x, s.memory, open) == {}
    ensures Reached(x, s', again, passed + x.limit, evicted)
    ensures Settled(x, s'.memory, pool, again) && |s'.memory| == MEMORY_MAX_ENTRIES
  {
    s' := KeyReopens(x, s, passed, evicted, pool, open, later, again);
    SettledCount(x, s'.memory, pool, again, x.limit);
    s' := CountOn(x, s', again, passed + 1, evicted);
  }

  /** One round: the crowd evicts `key`, which comes back in what is left of the interval. */
  lemma {:induction false} Round(x: Setup, s: State, passed: int, evicted: int, pool: set<string>, open: real)
    returns (s': State, pool': set<string>, again: real)
    requires x.Valid() && x.Inside(open) && Reached(x, s, open, passed, evicted) && Settled(x, s.memory, pool, open)
    requires |s.memory| <= MEMORY_MAX_ENTRIES <= |pool|
    ensures x.Inside(again) && Reached(x, s', again, passed + x.limit, evicted + 1)
    ensures Settled(x, s'.memory, pool', again) && |s'.memory| == MEMORY_MAX_ENTRIES
    ensures |pool'| == |pool| - MEMORY_MAX_ENTRIES
  {
    var end := 2.0 * x.window as real - 0.5;
    var later := (open + end) / 2.0;
    again := (later + end) / 2.0;
    SettledCrowd(x, s.memory, pool, open, later);
    s', pool' := CrowdOut(x, s, open, passed, evicted, pool, open, later);
    s' := KeyReturns(x, s', passed, evicted + 1, pool', open, later, again);
  }

  lemma {:induction false} Rounds(
      x: Setup, s: State, passed: int, evicted: int, pool: set<string>, open: real, rounds: nat)
    returns (s': State, now: real)
    requires x.Valid() && x.Inside(open) && Reached(x, s, open, passed, evicted) && Settled(x, s.memory, pool, open)
    requires |s.memory| <= MEMORY_MAX_ENTRIES && MEMORY_MAX_ENTRIES * rounds <= |pool|
    ensures Reached(x, s', now, passed + rounds * x.limit, evicted + rounds)
    decreases rounds
  {
    s', now := s, open;
    if rounds > 0 {
      var pool': set<string>;
      s', pool', now := Round(x, s, passed, evicted, pool, open);
      s', now := Rounds(x, s', passed + x.limit, evicted + 1, pool', now, rounds - 1);
      assert rounds * x.limit == (rounds - 1) * x.limit + x.limit;
    }
  }

  /** The opening attempt lies before the interval. */
  lemma {:induction false} FirstAttempt(x: Setup) returns (s: State)
    requires x.Valid()
    ensures Reached(x, s, x.Lo(), 0, 0) && s.memory == map[x.key := Entry(1, x.window as real)]
  {
    var o: Outcome;
    assert IsWitness(x, Trial([EMPTY], [], []), EMPTY, 0.0, 0, 0);
    o, s := ReachNext(x, EMPTY, 0.0, 0, 0, Attempt(x.key, x.window, 0.0));
    Later(x, s, 0.0, x.Lo(), 0, 0);
  }

  /** At its end the first window makes place for the second. */
  lemma {:induction false} SecondOpens(x: Setup, s: State, passed: int) returns (s': State)
    requires x.Valid() && Reached(x, s, x.Lo(), passed, 0)
    requires s.memory == map[x.key := Entry(x.limit, x.window as real)]
    ensures Reached(x, s', x.window as real, passed + 1, 0)
    ensures s'.memory == map[x.key := Entry(1, 2.0 * x.window as real)]
  {
    var o: Outcome;
    o, s' := ReachNext(x, s, x.Lo(), passed, 0, Attempt(x.key, x.window, x.window as real));
  }

  /** The rest of the limit lies in it, and once the first window has ended, `key` counts to its limit again. */
  lemma {:induction false} SecondWindow(x: Setup) returns (s: State)
    requires x.Valid()
    ensures Reached(x, s, x.window as real, 2 * x.limit - 1, 0)
    ensures s.memory == map[x.key := Entry(x.limit, 2.0 * x.window as real)]
  {
    s := FirstAttempt(x);
    s := CountOn(x, s, x.Lo(), 0, 0);
    s := SecondOpens(x, s, x.limit - 1);
    s := CountOn(x, s, x.window as real, x.limit, 0);
  }

  /**
   For every number of evictions, key, limit and window, and any ten thousand other keys of
   the same window per eviction, some run on these keys lets (e + 2) * limit - 1 attempts pass.
   */
  lemma {:induction false} EvictionBoundAttained(x: Setup, evictions: nat) returns (trial: Trial)
    requires x.Valid() && |x.names| >= 10_000 * evictions
    ensures trial.IsRun(x.key, x.window)
    ensures forall i :: 0 <= i < |trial.attempts| ==> x.Draws(trial.attempts[i])
    ensures trial.Evicted(x.key, x.window, x.Lo()) == evictions
    ensures trial.Passed(x.key, x.limit, x.window, x.Lo()) == (evictions + 2) * x.limit - 1
  {
    var s := SecondWindow(x);
    var last, now := Rounds(x, s, 2 * x.limit - 1, 0, x.names, x.window as real, evictions);
    trial :| IsWitness(x, trial, last, now, 2 * x.limit - 1 + evictions * x.limit, evictions);
    assert 2 * x.limit - 1 + evictions * x.limit == (evictions + 2) * x.limit - 1;
  }
}
