/**
 The in-process counter map of the rate limiter, as values.

 `Step` relates the map before and after one locked increment. It is a relation,
 not a function, because the entry evicted from a full map may be any entry of
 minimal expiry. A `Run` is a sequence of such steps taken by any number of
 requests, at times that never decrease.
 */
module RateLimitSpec {
  import opened Wrappers

  const MEMORY_MAX_ENTRIES: nat := 10_000
  const MEMORY_CLEANUP_INTERVAL: nat := 128

  datatype Entry = Entry(count: int, expiresAt: real)

  datatype State = State(memory: map<string, Entry>, operations: nat)

  /** One call of the increment: which counter, the rule's window, and the clock. */
  datatype Attempt = Attempt(key: string, window: int, now: real)

  datatype Outcome = Outcome(count: int, retryAfter: int, evicted: Option<string>)

  const EMPTY: State := State(map[], 0)

  ghost predicate Valid(s: State) {
    && |s.memory| <= MEMORY_MAX_ENTRIES
    && s.operations < MEMORY_CLEANUP_INTERVAL
    && forall k <- s.memory :: s.memory[k].count >= 1
  }

  function Cleaned(m: map<string, Entry>, now: real): map<string, Entry> {
    map k | k in m && m[k].expiresAt > now :: m[k]
  }

  /** Every 128th increment, and every increment that finds the map full, cleans it. */
  function Maintained(s: State, now: real): State {
    if s.operations + 1 >= MEMORY_CLEANUP_INTERVAL || |s.memory| >= MEMORY_MAX_ENTRIES
    then State(Cleaned(s.memory, now), 0)
    else State(s.memory, s.operations + 1)
  }

  function Counted(m: map<string, Entry>, a: Attempt): Entry {
    if a.key !in m || m[a.key].expiresAt <= a.now
    then Entry(1, a.now + a.window as real)
    else Entry(m[a.key].count + 1, m[a.key].expiresAt)
  }

  function RetryAfter(expiresAt: real, now: real): int {
    Max((expiresAt - now).Floor, 1)
  }

  ghost predicate SoonestExpiring(m: map<string, Entry>, k: string) {
    k in m && forall j <- m :: m[k].expiresAt <= m[j].expiresAt
  }

  ghost predicate Step(s: State, a: Attempt, o: Outcome, s': State) {
    var maintained := Maintained(s, a.now);
    var m := maintained.memory;
    var entry := Counted(m, a);
    && o.count == entry.count
    && o.retryAfter == RetryAfter(entry.expiresAt, a.now)
    && match o.evicted
       case None =>
         && (a.key in m || |m| < MEMORY_MAX_ENTRIES)
         && s' == State(m[a.key := entry], maintained.operations)
       case Some(k) =>
         && a.key !in m && |m| >= MEMORY_MAX_ENTRIES
         && SoonestExpiring(m, k)
         && s' == State((m - {k})[a.key := entry], maintained.operations)
  }

  ghost predicate NonDecreasing(attempts: seq<Attempt>) {
    forall i, j :: 0 <= i <= j < |attempts| ==> attempts[i].now <= attempts[j].now
  }

  ghost predicate Chain(states: seq<State>, attempts: seq<Attempt>, outcomes: seq<Outcome>) {
    && |states| == |attempts| + 1 == |outcomes| + 1
    && forall i :: 0 <= i < |attempts| ==> StepAt(states, attempts, outcomes, i)
  }

  ghost predicate StepAt(states: seq<State>, attempts: seq<Attempt>, outcomes: seq<Outcome>, i: int) {
    && 0 <= i < |attempts| && i < |outcomes| && i + 1 < |states|
    && Step(states[i], attempts[i], outcomes[i], states[i + 1])
  }

  ghost predicate Run(states: seq<State>, attempts: seq<Attempt>, outcomes: seq<Outcome>) {
    Chain(states, attempts, outcomes) && states[0] == EMPTY && NonDecreasing(attempts)
  }

  ghost predicate Unevicted(outcomes: seq<Outcome>, key: string) {
    forall i :: 0 <= i < |outcomes| ==> outcomes[i].evicted != Some(key)
  }

  /** All attempts on a key come from one rule, so they share its window. */
  ghost predicate UsesWindow(attempts: seq<Attempt>, key: string, window: int) {
    forall i :: 0 <= i < |attempts| && attempts[i].key == key ==> attempts[i].window == window
  }

  // ---------------------------------------------------------------- the bounded map

  lemma {:induction false} CleanedIsSmaller(m: map<string, Entry>, now: real)
    ensures |Cleaned(m, now)| <= |m|
    ensures |Cleaned(m, now)| == |m| <==> Cleaned(m, now) == m
  {
    var c := Cleaned(m, now);
    assert c.Keys <= m.Keys;
    SubsetSize(c.Keys, m.Keys);
    if |c| == |m| {
      assert c.Keys == m.Keys;
      assert c == m;
    }
  }

  lemma {:induction false} SubsetSize<T>(a: set<T>, b: set<T>)
    requires a <= b
    ensures |a| <= |b|
    ensures |a| == |b| ==> a == b
  {
    assert b == a + (b - a);
  }

  lemma {:induction false} InsertSize(m: map<string, Entry>, k: string, e: Entry)
    ensures |m[k := e]| == if k in m then |m| else |m| + 1
  {
  }

  /** One increment keeps the map bounded and stores the incremented key. */
  lemma {:induction false} StepKeepsBound(s: State, a: Attempt, o: Outcome, s': State)
    requires Valid(s) && Step(s, a, o, s')
    ensures Valid(s') && |s'.memory| <= 10_000
    ensures a.key in s'.memory && s'.memory[a.key].count == o.count
  {
    CleanedIsSmaller(s.memory, a.now);
    var m := Maintained(s, a.now).memory;
    assert |m| <= MEMORY_MAX_ENTRIES;
    var entry := Counted(m, a);
    match o.evicted
    case None =>
      InsertSize(m, a.key, entry);
    case Some(k) =>
      assert (m - {k}).Keys == m.Keys - {k};
      InsertSize(m - {k}, a.key, entry);
  }

  /**
   An eviction is a last resort: the map was full before the increment, none of its
   entries had expired, the key is new, and no other entry would expire sooner.
   */
  lemma {:induction false} EvictionIsJustified(s: State, a: Attempt, o: Outcome, s': State)
    requires Valid(s) && Step(s, a, o, s')
    ensures o.evicted.Some? <==>
            && a.key !in s.memory
            && |s.memory| == 10_000
            && forall k <- s.memory :: s.memory[k].expiresAt > a.now
    ensures o.evicted.Some? ==>
              && SoonestExpiring(s.memory, o.evicted.value)
              && s'.memory.Keys == s.memory.Keys - {o.evicted.value} + {a.key}
    ensures o.evicted.None? ==>
              forall k :: k in s.memory && s.memory[k].expiresAt > a.now ==> k in s'.memory
  {
    CleanedIsSmaller(s.memory, a.now);
    var c := Cleaned(s.memory, a.now);
    if (forall k <- s.memory :: s.memory[k].expiresAt > a.now) {
      assert c == s.memory;
    }
    if c == s.memory {
      forall k | k in s.memory
        ensures s.memory[k].expiresAt > a.now
      {
        assert k in c;
      }
    }
  }

  lemma {:induction false} RunKeepsBound(states: seq<State>, attempts: seq<Attempt>, outcomes: seq<Outcome>, n: nat)
    requires Run(states, attempts, outcomes) && n < |states|
    ensures Valid(states[n]) && |states[n].memory| <= 10_000
    ensures n > 0 ==> attempts[n - 1].key in states[n].memory
    decreases n
  {
    if n > 0 {
      var i := n - 1;
      RunKeepsBound(states, attempts, outcomes, i);
      assert StepAt(states, attempts, outcomes, i);
      StepKeepsBound(states[i], attempts[i], outcomes[i], states[i + 1]);
    }
  }

  // ---------------------------------------------------------------- few keys

  function KeysUsed(attempts: seq<Attempt>, n: nat): set<string>
    requires n <= |attempts|
  {
    set i | 0 <= i < n :: attempts[i].key
  }

  lemma {:induction false} KeysUsedNext(attempts: seq<Attempt>, n: nat)
    requires 0 < n <= |attempts|
    ensures KeysUsed(attempts, n) == KeysUsed(attempts, n - 1) + {attempts[n - 1].key}
  {
  }

  lemma {:induction false} HoldsUsedKeys(states: seq<State>, attempts: seq<Attempt>, outcomes: seq<Outcome>, n: nat)
    requires Run(states, attempts, outcomes) && n < |states|
    ensures states[n].memory.Keys <= KeysUsed(attempts, n)
  {
    if n > 0 {
      HoldsUsedKeys(states, attempts, outcomes, n - 1);
      KeysUsedNext(attempts, n);
      assert StepAt(states, attempts, outcomes, n - 1);
    }
  }

  /** Nothing is ever evicted while the requests use at most ten thousand keys. */
  lemma {:induction false} FewKeysStay(states: seq<State>, attempts: seq<Attempt>, outcomes: seq<Outcome>, i: nat)
    requires Run(states, attempts, outcomes) && i < |attempts|
    requires |KeysUsed(attempts, |attempts|)| <= 10_000
    ensures outcomes[i].evicted == None
  {
    RunKeepsBound(states, attempts, outcomes, i);
    assert StepAt(states, attempts, outcomes, i);
    EvictionIsJustified(states[i], attempts[i], outcomes[i], states[i + 1]);
    if outcomes[i].evicted.Some? {
      HoldsUsedKeys(states, attempts, outcomes, i);
      var all := KeysUsed(attempts, |attempts|);
      SubsetSize(states[i].memory.Keys + {attempts[i].key}, all);
    }
  }

  // ---------------------------------------------------------------- periodic cleanup

  lemma {:induction false} EarlyStep(s: State, a: Attempt, o: Outcome, s': State)
    requires Step(s, a, o, s') && |s.memory| <= s.operations && s.operations + 1 < 128
    ensures s'.operations == s.operations + 1 && |s'.memory| <= s'.operations
    ensures s'.memory.Keys == s.memory.Keys + {a.key}
  {
    InsertSize(s.memory, a.key, Counted(s.memory, a));
  }

  lemma {:induction false} EarlyOperations(
      states: seq<State>, attempts: seq<Attempt>, outcomes: seq<Outcome>, n: nat)
    requires Run(states, attempts, outcomes) && n < |states| && n < 128
    ensures states[n].operations == n && |states[n].memory| <= n
    ensures n > 0 ==> states[n].memory.Keys == states[n - 1].memory.Keys + {attempts[n - 1].key}
    decreases n
  {
    if n > 0 {
      var i := n - 1;
      var s, s' := states[i], states[n];
      assert StepAt(states, attempts, outcomes, i);
      EarlyOperations(states, attempts, outcomes, i);
      EarlyStep(s, attempts[i], outcomes[i], s');
    }
  }

  /** The first 127 increments remove nothing, expired or not. */
  lemma {:induction false} NothingCleanedBefore128(
      states: seq<State>, attempts: seq<Attempt>, outcomes: seq<Outcome>, n: nat)
    requires Run(states, attempts, outcomes) && n < |states| && n < 128
    ensures states[n].memory.Keys == KeysUsed(attempts, n)
  {
    EarlyOperations(states, attempts, outcomes, n);
    if n > 0 {
      NothingCleanedBefore128(states, attempts, outcomes, n - 1);
      KeysUsedNext(attempts, n);
    }
  }

  /** The step loses an entry. */
  ghost predicate Drops(s: State, s': State) {
    exists k :: k in s.memory && k !in s'.memory
  }

  lemma {:induction false} DropResets(s: State, a: Attempt, o: Outcome, s': State)
    requires Step(s, a, o, s') && Drops(s, s')
    ensures s'.operations == 0
  {
  }

  lemma {:induction false} StepCounts(s: State, a: Attempt, o: Outcome, s': State)
    requires Step(s, a, o, s') && |s.memory| < 10_000 && s.operations + 1 < 128
    ensures s'.operations == s.operations + 1 && !Drops(s, s')
  {
  }

  /** The maps strictly between positions `i` and `n` are below capacity. */
  ghost predicate HasRoom(states: seq<State>, i: nat, n: nat)
    requires n <= |states|
  {
    forall m :: i < m < n ==> |states[m].memory| < 10_000
  }

  lemma {:induction false} OperationsSinceDrop(
      states: seq<State>, attempts: seq<Attempt>, outcomes: seq<Outcome>, i: nat, n: nat)
    requires Run(states, attempts, outcomes) && i < n < |states| && n <= i + 128
    requires Drops(states[i], states[i + 1]) && HasRoom(states, i, n)
    ensures states[n].operations == n - i - 1
    decreases n
  {
    var j := n - 1;
    var s, s' := states[j], states[n];
    assert StepAt(states, attempts, outcomes, j);
    if i < j {
      OperationsSinceDrop(states, attempts, outcomes, i, j);
      StepCounts(s, attempts[j], outcomes[j], s');
    } else {
      DropResets(s, attempts[j], outcomes[j], s');
    }
  }

  /** Below its capacity the map loses nothing in the 127 increments after one that lost something. */
  lemma {:induction false} CleanupsAreApart(
      states: seq<State>, attempts: seq<Attempt>, outcomes: seq<Outcome>, i: nat, j: nat)
    requires Run(states, attempts, outcomes) && i < j < |attempts| && j < i + 128
    requires Drops(states[i], states[i + 1]) && HasRoom(states, i, j + 1)
    ensures !Drops(states[j], states[j + 1])
  {
    OperationsSinceDrop(states, attempts, outcomes, i, j);
    assert StepAt(states, attempts, outcomes, j);
    StepCounts(states[j], attempts[j], outcomes[j], states[j + 1]);
  }

  /** An expired entry that nobody uses is gone after 128 more increments. */
  lemma {:induction false} ExpiredEntryGoes(
      states: seq<State>, attempts: seq<Attempt>, outcomes: seq<Outcome>, n: nat, key: string)
    requires Run(states, attempts, outcomes) && n + 128 <= |attempts|
    requires key in states[n].memory && states[n].memory[key].expiresAt <= attempts[n].now
    requires forall i :: n <= i < n + 128 ==> attempts[i].key != key
    ensures key !in states[n + 128].memory
  {
    GoneOrCounted(states, attempts, outcomes, n, key, n + 128);
    RunKeepsBound(states, attempts, outcomes, n + 128);
  }

  lemma {:induction false} GoneOrCounted(
      states: seq<State>, attempts: seq<Attempt>, outcomes: seq<Outcome>, n: nat, key: string, m: nat)
    requires Run(states, attempts, outcomes) && n <= m <= |attempts| && n < |attempts|
    requires key in states[n].memory && states[n].memory[key].expiresAt <= attempts[n].now
    requires forall i :: n <= i < m ==> attempts[i].key != key
    ensures key in states[m].memory ==>
              states[m].memory[key] == states[n].memory[key] && states[m].operations >= m - n
    decreases m
  {
    RunKeepsBound(states, attempts, outcomes, m);
    if m > n {
      GoneOrCounted(states, attempts, outcomes, n, key, m - 1);
      assert StepAt(states, attempts, outcomes, m - 1);
    }
  }

  /** From every valid map every increment has an outcome: the limiter never gets stuck. */
  lemma {:induction false} StepExists(s: State, a: Attempt) returns (o: Outcome, s': State)
    requires Valid(s)
    ensures Step(s, a, o, s')
  {
    CleanedIsSmaller(s.memory, a.now);
    var maintained := Maintained(s, a.now);
    var m := maintained.memory;
    var entry := Counted(m, a);
    var retry := RetryAfter(entry.expiresAt, a.now);
    if a.key in m || |m| < MEMORY_MAX_ENTRIES {
      o := Outcome(entry.count, retry, None);
      s' := State(m[a.key := entry], maintained.operations);
    } else {
      var k := SoonestExists(m, m.Keys);
      o := Outcome(entry.count, retry, Some(k));
      s' := State((m - {k})[a.key := entry], maintained.operations);
    }
  }

  lemma {:induction false} SoonestExists(m: map<string, Entry>, keys: set<string>) returns (k: string)
    requires keys <= m.Keys && keys != {}
    ensures k in keys && forall j <- keys :: m[k].expiresAt <= m[j].expiresAt
    decreases keys
  {
    k :| k in keys;
    if keys != {k} {
      var rest := SoonestExists(m, keys - {k});
      if m[rest].expiresAt < m[k].expiresAt {
        k := rest;
      }
    }
  }
}
