/** What a whole check means within the run of all increments that all requests make. */
module RateLimitChecks {
  import opened Wrappers
  import opened RateLimitSpec
  import opened RateLimiter
  import opened RateLimitRuns
  import opened FixedWindow
  import opened EvictionBound

  /** The service's six rules. */
  function RuleAt(settings: Settings, m: nat): Rule
    requires m < 6
  {
    (CredentialRules(settings) + ResetRules())[m]
  }

  /** Every increment is made for one of the service's six rules, by some caller. */
  ghost predicate FromRules(settings: Settings, attempts: seq<Attempt>) {
    forall i :: 0 <= i < |attempts| ==> FromSomeRule(settings, attempts[i])
  }

  ghost predicate FromSomeRule(settings: Settings, a: Attempt) {
    exists m: nat, caller: Caller :: m < 6 && IsOwn(settings, m, caller, a)
  }

  ghost predicate IsOwn(settings: Settings, m: nat, caller: Caller, a: Attempt)
    requires m < 6
  {
    a == OwnAttempt(RuleAt(settings, m), caller, a.now)
  }

  /** So all increments of a rule's key use that rule's window, as the counters' theorems ask. */
  lemma {:induction false} RulesFixWindows(settings: Settings, attempts: seq<Attempt>, m: nat, caller: Caller)
    requires FromRules(settings, attempts) && m < 6
    ensures var rule := RuleAt(settings, m);
            UsesWindow(attempts, RuleKey(rule, caller), rule.window)
  {
    var rules := CredentialRules(settings) + ResetRules();
    forall i | 0 <= i < |attempts| && attempts[i].key == RuleKey(rules[m], caller)
      ensures attempts[i].window == rules[m].window
    {
      var k: nat, other: Caller :| k < 6 && IsOwn(settings, k, other, attempts[i]);
      if k != m {
        NamesAreDistinct(settings, if k < m then k else m, if k < m then m else k);
        KeyInjective(rules[k].name, DigestOf(other, rules[k].dimension),
                     rules[m].name, DigestOf(caller, rules[m].dimension));
        assert false;
      }
    }
  }

  /** The check `c` took place within a run, its first increment being the run's `p`-th. */
  ghost predicate WithinRun(c: Check, rounds: seq<Round>, attempts: seq<Attempt>, outcomes: seq<Outcome>, p: nat)
    requires WellFormed(c) && |rounds| == |c.rules| && |outcomes| == |attempts|
  {
    var flat, results := FlatAttempts(c, |c.rules|), FlatOutcomes(rounds, |c.rules|);
    && p + |flat| <= |attempts| && |results| == |flat|
    && attempts[p..p + |flat|] == flat && outcomes[p..p + |flat|] == results
  }

  /**
   A caller whose check was rejected and who comes back more than `hint` seconds later, by
   at least one second, with the key unused in between, is counted 1 by every rule that had
   been exceeded, whether or not its entry was evicted meanwhile.
   */
  lemma {:induction false} RejectedCallerMayReturn(
      c: Check, rounds: seq<Round>, first: State, last: State, p: nat,
      states: seq<State>, attempts: seq<Attempt>, outcomes: seq<Outcome>, rule: nat, j: nat)
    requires Run(states, attempts, outcomes) && WellFormed(c)
    requires AreRounds(c, rounds, first, last, |c.rules|) && WithinRun(c, rounds, attempts, outcomes, p)
    requires rule < |c.rules| && rounds[rule].own.count > c.rules[rule].limit
    requires p + OwnAt(c, rule) < j < |attempts|
    requires attempts[j].key == RuleKey(c.rules[rule], c.caller)
    requires NoAttemptBetween(attempts, attempts[j].key, p + OwnAt(c, rule), j)
    requires attempts[j].now >= c.clock[rule] + LongestRetryAfter(c.rules, rounds, |c.rules|) as real + 1.0
    ensures outcomes[j].count == 1
  {
    OwnWithinRun(c, rounds, first, last, p, attempts, outcomes, rule);
    ExceededHint(c, rounds, first, last, rule);
    RetryHintSuffices(states, attempts, outcomes, p + OwnAt(c, rule), j, LongestRetryAfter(c.rules, rounds, |c.rules|));
  }

  lemma {:induction false} OwnWithinRun(
      c: Check, rounds: seq<Round>, first: State, last: State, p: nat,
      attempts: seq<Attempt>, outcomes: seq<Outcome>, rule: nat)
    requires WellFormed(c) && |outcomes| == |attempts| && rule < |c.rules|
    requires AreRounds(c, rounds, first, last, |c.rules|) && WithinRun(c, rounds, attempts, outcomes, p)
    ensures var i := p + OwnAt(c, rule);
            && i < |attempts|
            && attempts[i] == OwnAttempt(c.rules[rule], c.caller, c.clock[rule])
            && outcomes[i] == rounds[rule].own
  {
    OwnIncrements(c, rounds, first, last, |c.rules|, rule);
    var flat, results := FlatAttempts(c, |c.rules|), FlatOutcomes(rounds, |c.rules|);
    assert attempts[p..p + |flat|][OwnAt(c, rule)] == flat[OwnAt(c, rule)];
    assert outcomes[p..p + |flat|][OwnAt(c, rule)] == results[OwnAt(c, rule)];
  }

  lemma {:induction false} ExceededHint(c: Check, rounds: seq<Round>, first: State, last: State, rule: nat)
    requires WellFormed(c) && AreRounds(c, rounds, first, last, |c.rules|)
    requires rule < |c.rules| && rounds[rule].own.count > c.rules[rule].limit
    ensures rounds[rule].own.retryAfter <= LongestRetryAfter(c.rules, rounds, |c.rules|)
  {
    RoundsHintPositive(c, rounds, first, last);
    RejectionIsExact(c.rules, rounds, |c.rules|);
  }

  lemma {:induction false} RoundsHintPositive(c: Check, rounds: seq<Round>, first: State, last: State)
    requires WellFormed(c) && AreRounds(c, rounds, first, last, |c.rules|)
    ensures forall i :: 0 <= i < |c.rules| ==> rounds[i].own.retryAfter >= 1
  {
  }

  // ---------------------------------------------------------------- what a check decides

  /** Rejected if and only if an ideal count exceeds its limit, with the longest hint of those that do. */
  ghost predicate DecidesIdeally(
      attempts: seq<Attempt>, own: seq<nat>, limits: seq<int>, windows: seq<int>, rejected: Option<int>)
    requires |own| == |limits| == |windows| && forall m :: 0 <= m < |own| ==> own[m] < |attempts|
  {
    match rejected
    case None => forall m :: 0 <= m < |own| ==> IdealCount(attempts, windows[m], own[m]) <= limits[m]
    case Some(hint) =>
      && (forall m :: 0 <= m < |own| && IdealCount(attempts, windows[m], own[m]) > limits[m] ==>
            IdealHint(attempts, windows[m], own[m]) <= hint)
      && (exists m :: 0 <= m < |own| && IdealCount(attempts, windows[m], own[m]) > limits[m]
                      && IdealHint(attempts, windows[m], own[m]) == hint)
  }

  /** The check's own increments, in order, on these keys and with these windows. */
  ghost predicate AreOwn(
      attempts: seq<Attempt>, own: seq<nat>, keys: seq<string>, windows: seq<int>, clock: seq<real>)
  {
    && |own| == |keys| == |windows| == |clock|
    && (forall m :: 0 <= m < |own| ==>
          own[m] < |attempts| && attempts[own[m]] == Attempt(keys[m], windows[m], clock[m]))
    && (forall m, k :: 0 <= m < k < |own| ==> own[m] < own[k])
  }

  ghost predicate NoneEvicted(outcomes: seq<Outcome>, keys: seq<string>) {
    forall m :: 0 <= m < |keys| ==> Unevicted(outcomes, keys[m])
  }

  /** The increment at position `i` is this rule's, made at `at`, and this round's own. */
  ghost predicate IsOwnRound(
      attempts: seq<Attempt>, outcomes: seq<Outcome>, rule: Rule, caller: Caller, at: real, i: nat, r: Round)
  {
    i < |attempts| == |outcomes| && attempts[i] == OwnAttempt(rule, caller, at) && outcomes[i] == r.own
  }

  /** It gave the ideal results. */
  ghost predicate IsIdealRound(attempts: seq<Attempt>, rule: Rule, caller: Caller, at: real, i: nat, r: Round) {
    && i < |attempts| && attempts[i] == OwnAttempt(rule, caller, at)
    && r.own.count == IdealCount(attempts, rule.window, i)
    && r.own.retryAfter == IdealHint(attempts, rule.window, i)
  }

  /** All increments of the rule's key use its window, and its entry is never evicted. */
  ghost predicate CountsOn(attempts: seq<Attempt>, outcomes: seq<Outcome>, rule: Rule, caller: Caller) {
    && rule.window >= 1 && UsesWindow(attempts, RuleKey(rule, caller), rule.window)
    && Unevicted(outcomes, RuleKey(rule, caller))
  }

  /** An increment on a rule's key counts ideally. */
  lemma {:induction false} OwnIsIdeal(
      states: seq<State>, attempts: seq<Attempt>, outcomes: seq<Outcome>,
      rule: Rule, caller: Caller, at: real, i: nat, r: Round)
    requires Run(states, attempts, outcomes) && IsOwnRound(attempts, outcomes, rule, caller, at, i, r)
    requires CountsOn(attempts, outcomes, rule, caller)
    ensures IsIdealRound(attempts, rule, caller, at, i, r)
  {
    MapTracksIdeal(states, attempts, outcomes, RuleKey(rule, caller), rule.window, |attempts|);
    HintIsIdeal(states, attempts, outcomes, rule.window, i);
  }

  function KeysFor(rules: seq<Rule>, caller: Caller): seq<string> {
    seq(|rules|, m requires 0 <= m < |rules| => RuleKey(rules[m], caller))
  }

  function Limits(rules: seq<Rule>): seq<int> {
    seq(|rules|, m requires 0 <= m < |rules| => rules[m].limit)
  }

  function Windows(rules: seq<Rule>): seq<int> {
    seq(|rules|, m requires 0 <= m < |rules| => rules[m].window)
  }

  /** The first rounds' own increments are those at the positions `own`, in order. */
  ghost predicate AreOwnRounds(
      attempts: seq<Attempt>, outcomes: seq<Outcome>, c: Check, own: seq<nat>, rounds: seq<Round>)
    requires WellFormed(c)
  {
    && |own| <= |rounds| == |c.rules|
    && (forall m :: 0 <= m < |own| ==>
          IsOwnRound(attempts, outcomes, c.rules[m], c.caller, c.clock[m], own[m], rounds[m]))
    && (forall m, k :: 0 <= m < k < |own| ==> own[m] < own[k])
  }

  lemma {:induction false} OwnRound(
      attempts: seq<Attempt>, outcomes: seq<Outcome>,
      c: Check, rounds: seq<Round>, first: State, last: State, p: nat, m: nat)
    requires WellFormed(c) && m < |c.rules| && |outcomes| == |attempts|
    requires AreRounds(c, rounds, first, last, |c.rules|) && WithinRun(c, rounds, attempts, outcomes, p)
    ensures IsOwnRound(attempts, outcomes, c.rules[m], c.caller, c.clock[m], p + OwnAt(c, m), rounds[m])
    ensures m > 0 ==> OwnAt(c, m - 1) < OwnAt(c, m)
  {
    OwnWithinRun(c, rounds, first, last, p, attempts, outcomes, m);
    if m > 0 {
      OwnIncrements(c, rounds, first, last, |c.rules|, m - 1);
    }
  }

  lemma {:induction false} OwnAppend(
      attempts: seq<Attempt>, outcomes: seq<Outcome>, c: Check, own: seq<nat>, rounds: seq<Round>, i: nat)
    requires WellFormed(c) && AreOwnRounds(attempts, outcomes, c, own, rounds) && |own| < |c.rules|
    requires IsOwnRound(attempts, outcomes, c.rules[|own|], c.caller, c.clock[|own|], i, rounds[|own|])
    requires own != [] ==> own[|own| - 1] < i
    ensures AreOwnRounds(attempts, outcomes, c, own + [i], rounds)
  {
  }

  lemma {:induction false} OwnRounds(
      attempts: seq<Attempt>, outcomes: seq<Outcome>,
      c: Check, rounds: seq<Round>, first: State, last: State, p: nat, n: nat)
    returns (own: seq<nat>)
    requires WellFormed(c) && |outcomes| == |attempts| && n <= |c.rules|
    requires AreRounds(c, rounds, first, last, |c.rules|) && WithinRun(c, rounds, attempts, outcomes, p)
    ensures AreOwnRounds(attempts, outcomes, c, own, rounds)
    ensures |own| == n && (n > 0 ==> own[n - 1] == p + OwnAt(c, n - 1))
  {
    own := [];
    if n > 0 {
      own := OwnRounds(attempts, outcomes, c, rounds, first, last, p, n - 1);
      OwnRound(attempts, outcomes, c, rounds, first, last, p, n - 1);
      OwnAppend(attempts, outcomes, c, own, rounds, p + OwnAt(c, n - 1));
      own := own + [p + OwnAt(c, n - 1)];
    }
  }

  /** The rounds decide by the ideal counts of their rules' keys. */
  lemma {:induction false} RoundsDecideIdeally(
      states: seq<State>, attempts: seq<Attempt>, outcomes: seq<Outcome>,
      c: Check, own: seq<nat>, rounds: seq<Round>, rejected: Option<int>)
    requires Run(states, attempts, outcomes) && WellFormed(c)
    requires AreOwnRounds(attempts, outcomes, c, own, rounds) && |own| == |c.rules|
    requires Decides(c.rules, rounds, rejected)
    requires forall m :: 0 <= m < |c.rules| ==> CountsOn(attempts, outcomes, c.rules[m], c.caller)
    ensures AreOwn(attempts, own, KeysFor(c.rules, c.caller), Windows(c.rules), c.clock)
    ensures DecidesIdeally(attempts, own, Limits(c.rules), Windows(c.rules), rejected)
  {
    forall m | 0 <= m < |own|
      ensures IsIdealRound(attempts, c.rules[m], c.caller, c.clock[m], own[m], rounds[m])
    {
      OwnIsIdeal(states, attempts, outcomes, c.rules[m], c.caller, c.clock[m], own[m], rounds[m]);
    }
    if rejected.Some? {
      var m :| 0 <= m < |c.rules| && rounds[m].own.count > c.rules[m].limit
               && rounds[m].own.retryAfter == rejected.value;
      assert IsIdealRound(attempts, c.rules[m], c.caller, c.clock[m], own[m], rounds[m]);
      assert IdealCount(attempts, Windows(c.rules)[m], own[m]) > Limits(c.rules)[m];
    }
  }

  /** Any check within a run decides by the ideal counts of its rules' keys. */
  lemma {:induction false} CheckDecidesIdeally(
      states: seq<State>, attempts: seq<Attempt>, outcomes: seq<Outcome>,
      c: Check, rounds: seq<Round>, first: State, last: State, p: nat, rejected: Option<int>)
    returns (own: seq<nat>)
    requires Run(states, attempts, outcomes) && WellFormed(c)
    requires AreRounds(c, rounds, first, last, |c.rules|) && WithinRun(c, rounds, attempts, outcomes, p)
    requires Decides(c.rules, rounds, rejected)
    requires forall m :: 0 <= m < |c.rules| ==> CountsOn(attempts, outcomes, c.rules[m], c.caller)
    ensures AreOwn(attempts, own, KeysFor(c.rules, c.caller), Windows(c.rules), c.clock)
    ensures DecidesIdeally(attempts, own, Limits(c.rules), Windows(c.rules), rejected)
  {
    own := OwnRounds(attempts, outcomes, c, rounds, first, last, p, |c.rules|);
    RoundsDecideIdeally(states, attempts, outcomes, c, own, rounds, rejected);
  }

  lemma {:induction false} RuleCounts(
      settings: Settings, attempts: seq<Attempt>, outcomes: seq<Outcome>, k: nat, caller: Caller)
    requires ValidSettings(settings) && FromRules(settings, attempts) && k < 6
    requires Unevicted(outcomes, RuleKey(RuleAt(settings, k), caller))
    ensures CountsOn(attempts, outcomes, RuleAt(settings, k), caller)
  {
    RulesFixWindows(settings, attempts, k, caller);
  }

  /** The keys a credential check counts on. */
  function CredentialKeys(caller: Caller): seq<string> {
    [ KeyOf("ip-burst", caller.ipDigest), KeyOf("ip-minute", caller.ipDigest),
      KeyOf("ip-fifteen-minutes", caller.ipDigest), KeyOf("email-fifteen-minutes", caller.emailDigest) ]
  }

  /** The keys a password-reset start counts on. */
  function ResetKeys(caller: Caller): seq<string> {
    [ KeyOf("password-reset-ip-minute", caller.ipDigest), KeyOf("password-reset-email-15min", caller.emailDigest) ]
  }

  lemma {:induction false} CredentialTable(settings: Settings, caller: Caller)
    ensures var rules := CredentialRules(settings);
            && KeysFor(rules, caller) == CredentialKeys(caller)
            && Windows(rules) == [settings.ipBurstWindow, 60, 900, 900]
            && Limits(rules)
               == [settings.ipBurst, settings.ipPerMinute, settings.ipPer15Minutes, settings.emailPer15Minutes]
  {
  }

  lemma {:induction false} ResetTable(caller: Caller)
    ensures KeysFor(ResetRules(), caller) == ResetKeys(caller)
    ensures Windows(ResetRules()) == [60, 900] && Limits(ResetRules()) == [3, 5]
  {
  }

  /**
   A credential check within any run of the service's increments, told from the attempts
   alone: its four increments, and that it is rejected if and only if one of the four ideal
   counts exceeds its limit. The run may evict other keys.
   */
  lemma {:induction false} CredentialCheckDecides(
      settings: Settings, states: seq<State>, attempts: seq<Attempt>, outcomes: seq<Outcome>,
      c: Check, rounds: seq<Round>, first: State, last: State, p: nat, rejected: Option<int>)
    returns (own: seq<nat>)
    requires ValidSettings(settings) && Run(states, attempts, outcomes) && FromRules(settings, attempts)
    requires WellFormed(c) && c.rules == CredentialRules(settings)
    requires AreRounds(c, rounds, first, last, |c.rules|) && WithinRun(c, rounds, attempts, outcomes, p)
    requires Decides(c.rules, rounds, rejected) && NoneEvicted(outcomes, CredentialKeys(c.caller))
    ensures var windows := [settings.ipBurstWindow, 60, 900, 900];
            var limits := [settings.ipBurst, settings.ipPerMinute, settings.ipPer15Minutes, settings.emailPer15Minutes];
            && AreOwn(attempts, own, CredentialKeys(c.caller), windows, c.clock)
            && DecidesIdeally(attempts, own, limits, windows, rejected)
  {
    CredentialTable(settings, c.caller);
    forall m: nat | m < 4
      ensures CountsOn(attempts, outcomes, c.rules[m], c.caller)
    {
      assert RuleKey(RuleAt(settings, m), c.caller) == KeysFor(c.rules, c.caller)[m];
      RuleCounts(settings, attempts, outcomes, m, c.caller);
    }
    own := CheckDecidesIdeally(states, attempts, outcomes, c, rounds, first, last, p, rejected);
  }

  /** Likewise for a password-reset start: three a minute for an address, five in fifteen minutes for an email. */
  lemma {:induction false} ResetCheckDecides(
      settings: Settings, states: seq<State>, attempts: seq<Attempt>, outcomes: seq<Outcome>,
      c: Check, rounds: seq<Round>, first: State, last: State, p: nat, rejected: Option<int>)
    returns (own: seq<nat>)
    requires ValidSettings(settings) && Run(states, attempts, outcomes) && FromRules(settings, attempts)
    requires WellFormed(c) && c.rules == ResetRules()
    requires AreRounds(c, rounds, first, last, |c.rules|) && WithinRun(c, rounds, attempts, outcomes, p)
    requires Decides(c.rules, rounds, rejected) && NoneEvicted(outcomes, ResetKeys(c.caller))
    ensures AreOwn(attempts, own, ResetKeys(c.caller), [60, 900], c.clock)
    ensures DecidesIdeally(attempts, own, [3, 5], [60, 900], rejected)
  {
    ResetTable(c.caller);
    forall m: nat | m < 2
      ensures CountsOn(attempts, outcomes, c.rules[m], c.caller)
    {
      assert RuleKey(RuleAt(settings, m + 4), c.caller) == KeysFor(c.rules, c.caller)[m];
      RuleCounts(settings, attempts, outcomes, m + 4, c.caller);
    }
    own := CheckDecidesIdeally(states, attempts, outcomes, c, rounds, first, last, p, rejected);
  }

  // ---------------------------------------------------------------- how many checks pass

  /** The bounds the settings are validated against. */
  predicate ValidSettings(s: Settings) {
    && s.ipBurst >= 1 && s.ipBurstWindow >= 1 && s.ipPerMinute >= 1
    && s.ipPer15Minutes >= 1 && s.emailPer15Minutes >= 1
  }

  /**
   A check that was not rejected: it took place within the run, its first increment being the
   run's `start`-th and its increment for its `i`-th rule the run's `own`-th, at `at`.
   */
  datatype Pass = Pass(
    check: Check, rounds: seq<Round>, first: State, last: State, start: nat, i: nat, own: nat, at: real)

  /** It passed all of its rules, `rule` among them, for this caller. */
  ghost predicate IsPass(p: Pass, rule: Rule, caller: Caller, attempts: seq<Attempt>, outcomes: seq<Outcome>)
    requires |outcomes| == |attempts|
  {
    var c := p.check;
    && WellFormed(c) && p.i < |c.rules| && c.rules[p.i] == rule
    && DigestOf(c.caller, rule.dimension) == DigestOf(caller, rule.dimension)
    && AreRounds(c, p.rounds, p.first, p.last, |c.rules|) && WithinRun(c, p.rounds, attempts, outcomes, p.start)
    && Decides(c.rules, p.rounds, None)
    && p.own == p.start + OwnAt(c, p.i) && p.at == c.clock[p.i]
  }

  /** The increment of a check that passed is admitted. */
  lemma {:induction false} PassIsAdmitted(
      p: Pass, rule: Rule, caller: Caller, attempts: seq<Attempt>, outcomes: seq<Outcome>)
    requires |outcomes| == |attempts| && IsPass(p, rule, caller, attempts, outcomes)
    ensures p.own < |attempts| && attempts[p.own] == Attempt(RuleKey(rule, caller), rule.window, p.at)
    ensures outcomes[p.own].count <= rule.limit
  {
    OwnWithinRun(p.check, p.rounds, p.first, p.last, p.start, attempts, outcomes, p.i);
  }

  /** Positions that are all admitted are no more than the admitted attempts. */
  lemma {:induction false} AdmittedPositions(
      attempts: seq<Attempt>, counts: seq<int>, key: string, limit: int, window: int, lo: real,
      n: nat, positions: set<nat>)
    requires n <= |attempts| == |counts|
    requires forall i :: i in positions ==>
               i < n && attempts[i].key == key && lo <= attempts[i].now < lo + window as real && counts[i] <= limit
    ensures |positions| <= Admitted(attempts, counts, key, limit, window, lo, n)
  {
    if n > 0 {
      var rest := positions - {n - 1};
      AdmittedPositions(attempts, counts, key, limit, window, lo, n - 1, rest);
      assert positions == if n - 1 in positions then rest + {n - 1} else rest;
    } else {
      assert positions == {};
    }
  }

  function OwnOf(passes: seq<Pass>): set<nat> {
    set i | 0 <= i < |passes| :: passes[i].own
  }

  lemma {:induction false} DistinctCount(passes: seq<Pass>)
    requires forall i, j :: 0 <= i < j < |passes| ==> passes[i].own != passes[j].own
    ensures |OwnOf(passes)| == |passes|
  {
    if passes != [] {
      var n := |passes| - 1;
      var rest := passes[..n];
      DistinctCount(rest);
      forall x
        ensures x in OwnOf(passes) <==> x in OwnOf(rest) + {passes[n].own}
      {
        if x in OwnOf(rest) {
          var i :| 0 <= i < n && rest[i].own == x;
          assert passes[i].own == x;
        }
      }
      assert OwnOf(passes) == OwnOf(rest) + {passes[n].own};
    }
  }

  /** Different checks of one caller that passed, with their increments for `rule` in the interval from `lo`. */
  ghost predicate ArePasses(
      passes: seq<Pass>, rule: Rule, caller: Caller, lo: real, attempts: seq<Attempt>, outcomes: seq<Outcome>)
    requires |outcomes| == |attempts|
  {
    && (forall i :: 0 <= i < |passes| ==>
          IsPass(passes[i], rule, caller, attempts, outcomes) && InInterval(passes[i].at, lo, rule.window))
    && (forall i, j :: 0 <= i < j < |passes| ==> passes[i].own != passes[j].own)
  }

  lemma {:induction false} PassesAdmitted(
      attempts: seq<Attempt>, outcomes: seq<Outcome>, rule: Rule, caller: Caller, lo: real, passes: seq<Pass>)
    requires |outcomes| == |attempts| && ArePasses(passes, rule, caller, lo, attempts, outcomes)
    ensures |passes| <= Admitted(
                          attempts, Counts(outcomes), RuleKey(rule, caller), rule.limit, rule.window, lo, |attempts|)
  {
    DistinctCount(passes);
    forall k | k in OwnOf(passes)
      ensures k < |attempts| && attempts[k].key == RuleKey(rule, caller)
      ensures lo <= attempts[k].now < lo + rule.window as real && Counts(outcomes)[k] <= rule.limit
    {
      var i :| 0 <= i < |passes| && passes[i].own == k;
      PassIsAdmitted(passes[i], rule, caller, attempts, outcomes);
    }
    AdmittedPositions(attempts, Counts(outcomes), RuleKey(rule, caller), rule.limit, rule.window, lo, |attempts|,
                      OwnOf(passes));
  }

  /**
   Checks of one caller that pass, with their increment for one of the rules in an interval
   as long as the rule's window: at most 2 * limit - 1 of them while the rule's key is not
   evicted, and at most one limit more for every eviction of it in the interval.
   */
  lemma {:induction false} PassingChecksBound(
      settings: Settings, states: seq<State>, attempts: seq<Attempt>, outcomes: seq<Outcome>,
      m: nat, caller: Caller, lo: real, passes: seq<Pass>)
    requires ValidSettings(settings) && Run(states, attempts, outcomes) && FromRules(settings, attempts)
    requires m < 6 && ArePasses(passes, RuleAt(settings, m), caller, lo, attempts, outcomes)
    ensures var rule := RuleAt(settings, m);
            var key := RuleKey(rule, caller);
            && |passes| <= (Evictions(attempts, outcomes, key, rule.window, lo, |attempts|) + 2) * rule.limit - 1
            && (Unevicted(outcomes, key) ==> |passes| <= 2 * rule.limit - 1)
  {
    var rule := RuleAt(settings, m);
    var key := RuleKey(rule, caller);
    RulesFixWindows(settings, attempts, m, caller);
    PassesAdmitted(attempts, outcomes, rule, caller, lo, passes);
    EvictionSlidingBound(states, attempts, outcomes, key, rule.limit, rule.window, lo);
    if Unevicted(outcomes, key) {
      MemorySlidingBound(states, attempts, outcomes, key, rule.limit, rule.window, lo);
    }
  }

  // ---------------------------------------------------------------- evictions by the service's own rules

  function KeysOf(name: string, digests: set<string>): set<string> {
    set d | d in digests :: KeyOf(name, d)
  }

  lemma {:induction false} NameIsPlain(settings: Settings, m: nat)
    requires m < 6
    ensures ':' !in RuleAt(settings, m).name
  {
    var other := if m == 0 then 1 else 0;
    NamesAreDistinct(settings, if m < other then m else other, if m < other then other else m);
  }

  lemma {:induction false} KeysCount(name: string, digests: set<string>)
    requires ':' !in name
    ensures |KeysOf(name, digests)| == |digests|
    decreases digests
  {
    if digests != {} {
      var d :| d in digests;
      KeysCount(name, digests - {d});
      forall other | other in digests - {d}
        ensures KeyOf(name, other) != KeyOf(name, d)
      {
        KeyInjective(name, other, name, d);
      }
      assert KeysOf(name, digests) == KeysOf(name, digests - {d}) + {KeyOf(name, d)};
    }
  }

  /**
   The bound with evictions is reached by increments the service itself makes: for each of
   its rules and every caller, and ten thousand other callers per eviction, whose entries for
   the same rule crowd the map.
   */
  lemma {:induction false} RulesReachEvictionBound(
      settings: Settings, m: nat, caller: Caller, digests: set<string>, evictions: nat)
    returns (trial: Trial, lo: real)
    requires ValidSettings(settings) && m < 6
    requires var rule := RuleAt(settings, m);
             DigestOf(caller, rule.dimension) !in digests && |digests| >= 10_000 * evictions
    ensures FromRules(settings, trial.attempts)
    ensures var rule := RuleAt(settings, m);
            var key := RuleKey(rule, caller);
            && trial.IsRun(key, rule.window)
            && trial.Evicted(key, rule.window, lo) == evictions
            && trial.Passed(key, rule.limit, rule.window, lo) == (evictions + 2) * rule.limit - 1
  {
    var rule := RuleAt(settings, m);
    var key := RuleKey(rule, caller);
    NameIsPlain(settings, m);
    KeysCount(rule.name, digests);
    forall d | d in digests
      ensures KeyOf(rule.name, d) != key
    {
      KeyInjective(rule.name, d, rule.name, DigestOf(caller, rule.dimension));
    }
    var x := Setup(key, KeysOf(rule.name, digests), rule.limit, rule.window);
    lo := x.Lo();
    trial := EvictionBoundAttained(x, evictions);
    forall i | 0 <= i < |trial.attempts|
      ensures FromSomeRule(settings, trial.attempts[i])
    {
      var a := trial.attempts[i];
      assert x.Draws(a);
      if a.key == key {
        assert IsOwn(settings, m, caller, a);
      } else {
        var d :| d in digests && a.key == KeyOf(rule.name, d);
        assert IsOwn(settings, m, Caller(d, d), a);
      }
    }
  }
}
