/**
 The limiter object: its counter map is updated in place, and a credential or reset check
 is a loop over rules during which other requests may increment counters too.
 */
module RateLimiter {
  import opened Wrappers
  import opened RateLimitSpec

  datatype Dimension = Ip | Email

  datatype Rule = Rule(name: string, limit: int, window: int, dimension: Dimension)

  /** The limits an operator configures; the fields are at least 1. */
  datatype Settings = Settings(
    ipBurst: int, ipBurstWindow: int, ipPerMinute: int, ipPer15Minutes: int, emailPer15Minutes: int)

  function CredentialRules(s: Settings): seq<Rule> {
    [ Rule("ip-burst", s.ipBurst, s.ipBurstWindow, Ip),
      Rule("ip-minute", s.ipPerMinute, 60, Ip),
      Rule("ip-fifteen-minutes", s.ipPer15Minutes, 15 * 60, Ip),
      Rule("email-fifteen-minutes", s.emailPer15Minutes, 15 * 60, Email) ]
  }

  function ResetRules(): seq<Rule> {
    [ Rule("password-reset-ip-minute", 3, 60, Ip),
      Rule("password-reset-email-15min", 5, 15 * 60, Email) ]
  }

  const KEY_PREFIX: string := "ouros:auth:rate-limit:"

  /** The digests of the caller's address and normalized email. */
  datatype Caller = Caller(ipDigest: string, emailDigest: string)

  function DigestOf(caller: Caller, dimension: Dimension): string {
    match dimension
    case Ip => caller.ipDigest
    case Email => caller.emailDigest
  }

  function KeyOf(name: string, digest: string): string {
    KEY_PREFIX + (name + (":" + digest))
  }

  function RuleKey(rule: Rule, caller: Caller): string {
    KeyOf(rule.name, DigestOf(caller, rule.dimension))
  }

  // ---------------------------------------------------------------- keys

  /** Two rule names without a colon never share a counter, and one name never mixes two digests. */
  lemma {:induction false} KeyInjective(n1: string, d1: string, n2: string, d2: string)
    requires ':' !in n1 && ':' !in n2
    ensures KeyOf(n1, d1) == KeyOf(n2, d2) <==> n1 == n2 && d1 == d2
  {
    var t1 := n1 + (":" + d1);
    var t2 := n2 + (":" + d2);
    PrefixCancels(KEY_PREFIX, t1, t2);
    assert t1[|n1|] == ':' && t2[|n2|] == ':';
    assert forall i :: 0 <= i < |n1| ==> t1[i] == n1[i];
    assert forall i :: 0 <= i < |n2| ==> t2[i] == n2[i];
    if t1 == t2 {
      assert n1 == t1[..|n1|] && n2 == t2[..|n2|];
      assert d1 == t1[|n1| + 1..] && d2 == t2[|n2| + 1..];
    }
  }

  /** The key as the server sees it, the same for every replica of the service. */
  lemma {:induction false} KeyText(name: string, digest: string)
    ensures KeyOf(name, digest) == "ouros:auth:rate-limit:" + name + ":" + digest
  {
    assert "ouros:auth:rate-limit:" + (name + (":" + digest)) == "ouros:auth:rate-limit:" + name + ":" + digest;
  }

  /** Distinct rules of one check, and any rules of two different checks, count on distinct keys. */
  lemma {:induction false} ChecksShareNoKey(settings: Settings, caller: Caller, other: Caller, i: nat, j: nat)
    ensures i < |CredentialRules(settings)| && j < |ResetRules()| ==>
              RuleKey(CredentialRules(settings)[i], caller) != RuleKey(ResetRules()[j], other)
    ensures i < j < |CredentialRules(settings)| ==>
              RuleKey(CredentialRules(settings)[i], caller) != RuleKey(CredentialRules(settings)[j], other)
    ensures i < j < |ResetRules()| ==>
              RuleKey(ResetRules()[i], caller) != RuleKey(ResetRules()[j], other)
  {
    var all := CredentialRules(settings) + ResetRules();
    forall m, k | 0 <= m < k < |all|
      ensures RuleKey(all[m], caller) != RuleKey(all[k], other)
    {
      NamesAreDistinct(settings, m, k);
      KeyInjective(all[m].name, DigestOf(caller, all[m].dimension), all[k].name, DigestOf(other, all[k].dimension));
    }
    if i < |CredentialRules(settings)| && j < |ResetRules()| {
      assert all[i] == CredentialRules(settings)[i] && all[4 + j] == ResetRules()[j];
    }
    if i < j < |CredentialRules(settings)| {
      assert all[i] == CredentialRules(settings)[i] && all[j] == CredentialRules(settings)[j];
    }
    if i < j < |ResetRules()| {
      assert all[4 + i] == ResetRules()[i] && all[4 + j] == ResetRules()[j];
    }
  }

  lemma {:induction false} NamesAreDistinct(settings: Settings, i: nat, j: nat)
    requires i < j < 6
    ensures var all := CredentialRules(settings) + ResetRules();
            ':' !in all[i].name && ':' !in all[j].name && all[i].name != all[j].name
  {
    var all := CredentialRules(settings) + ResetRules();
    var lengths := [8, 9, 18, 21, 24, 26];
    forall m: nat | m < 6
      ensures ':' !in all[m].name && |all[m].name| == lengths[m]
    {
      RuleNames(settings, m);
      NameHasNoColon(m);
    }
  }

  function RuleName(m: nat): string
    requires m < 6
  {
    match m
    case 0 => "ip-burst"
    case 1 => "ip-minute"
    case 2 => "ip-fifteen-minutes"
    case 3 => "email-fifteen-minutes"
    case 4 => "password-reset-ip-minute"
    case _ => "password-reset-email-15min"
  }

  lemma {:induction false} RuleNames(settings: Settings, m: nat)
    requires m < 6
    ensures (CredentialRules(settings) + ResetRules())[m].name == RuleName(m)
  {
  }

  lemma {:induction false} NameHasNoColon(m: nat)
    requires m < 6
    ensures ':' !in RuleName(m) && |RuleName(m)| == [8, 9, 18, 21, 24, 26][m]
  {
    match m
    case 0 =>
    case 1 =>
    case 2 =>
    case 3 =>
    case 4 =>
    case _ =>
  }

  // ---------------------------------------------------------------- one check

  /**
   One round of a check: the maps before, between and after the increments of that round, what
   they returned, and the outcome of the check's own increment, which is the last of the round.
   */
  datatype Round = Round(states: seq<State>, outcomes: seq<Outcome>, own: Outcome)

  function OwnAttempt(rule: Rule, caller: Caller, now: real): Attempt {
    Attempt(RuleKey(rule, caller), rule.window, now)
  }

  ghost predicate IsRound(r: Round, rule: Rule, caller: Caller, now: real, others: seq<Attempt>) {
    && Chain(r.states, others + [OwnAttempt(rule, caller, now)], r.outcomes)
    && r.own == r.outcomes[|others|] && r.own.retryAfter >= 1
  }

  /** The largest hint among the first `n` rules whose limit was exceeded; 0 if there is none. */
  function LongestRetryAfter(rules: seq<Rule>, rounds: seq<Round>, n: nat): int
    requires n <= |rules| && n <= |rounds|
  {
    if n == 0 then 0
    else
      var longest := LongestRetryAfter(rules, rounds, n - 1);
      if rounds[n - 1].own.count > rules[n - 1].limit then Max(longest, rounds[n - 1].own.retryAfter) else longest
  }

  /**
   A check rejects (a positive hint) exactly when some rule's count exceeded its limit, and
   then the hint is the largest one among the exceeded rules. It relies on every increment
   returning a hint of at least 1.
   */
  lemma {:induction false} RejectionIsExact(rules: seq<Rule>, rounds: seq<Round>, n: nat)
    requires n <= |rules| && n <= |rounds|
    requires forall i :: 0 <= i < n ==> rounds[i].own.retryAfter >= 1
    ensures LongestRetryAfter(rules, rounds, n) > 0 <==> exists i :: 0 <= i < n && rounds[i].own.count > rules[i].limit
    ensures forall i :: 0 <= i < n && rounds[i].own.count > rules[i].limit ==>
                    rounds[i].own.retryAfter <= LongestRetryAfter(rules, rounds, n)
    ensures LongestRetryAfter(rules, rounds, n) > 0 ==>
              exists i :: 0 <= i < n && rounds[i].own.count > rules[i].limit
                          && rounds[i].own.retryAfter == LongestRetryAfter(rules, rounds, n)
    ensures LongestRetryAfter(rules, rounds, n) >= 0
  {
    if n > 0 {
      RejectionIsExact(rules, rounds, n - 1);
    }
  }

  /** The inputs of one check: its rules, the caller, the clock per round, and the others' increments per round. */
  datatype Check = Check(rules: seq<Rule>, caller: Caller, clock: seq<real>, others: seq<seq<Attempt>>)

  ghost predicate WellFormed(c: Check) {
    |c.clock| == |c.rules| == |c.others|
  }

  /** The first `n` rounds of a check, each starting from the map the previous one left. */
  ghost predicate AreRounds(c: Check, rounds: seq<Round>, first: State, last: State, n: nat)
    requires WellFormed(c) && n <= |c.rules|
  {
    && |rounds| == n
    && (forall i :: 0 <= i < n ==> IsRound(rounds[i], c.rules[i], c.caller, c.clock[i], c.others[i]))
    && (forall i :: 0 < i < n ==> rounds[i].states[0] == rounds[i - 1].states[|c.others[i - 1]| + 1])
    && (if n == 0 then first == last
        else rounds[0].states[0] == first && rounds[n - 1].states[|c.others[n - 1]| + 1] == last)
  }

  class Limiter {
    var memory: map<string, Entry>
    var operations: nat

    ghost function Contents(): State
      reads this
    {
      State(memory, operations)
    }

    const settings: Settings

    constructor (settings: Settings)
      ensures Contents() == EMPTY && this.settings == settings
    {
      memory, operations := map[], 0;
      this.settings := settings;
    }

    method CleanupMemory(now: real)
      modifies this`memory
      ensures memory == Cleaned(old(memory), now)
    {
      var expired := set k | k in memory && memory[k].expiresAt <= now;
      ghost var removed := {};
      while expired != {}
        invariant removed + expired == set k | k in old(memory) && old(memory)[k].expiresAt <= now
        invariant memory == old(memory) - removed
        decreases expired
      {
        var k :| k in expired;
        memory := memory - {k};
        expired, removed := expired - {k}, removed + {k};
      }
    }

    method EvictSoonestExpiringEntry() returns (evicted: Option<string>)
      modifies this`memory
      ensures evicted.None? <==> old(memory) == map[]
      ensures evicted.None? ==> memory == old(memory)
      ensures evicted.Some? ==> SoonestExpiring(old(memory), evicted.value) && memory == old(memory) - {evicted.value}
    {
      if memory == map[] {
        return None;
      }
      var keyToEvict :| keyToEvict in memory;
      var rest := memory.Keys - {keyToEvict};
      while rest != {}
        invariant rest <= memory.Keys && keyToEvict in memory
        invariant forall j :: j in memory && j !in rest ==> memory[keyToEvict].expiresAt <= memory[j].expiresAt
        decreases rest
      {
        var k :| k in rest;
        if memory[k].expiresAt < memory[keyToEvict].expiresAt {
          keyToEvict := k;
        }
        rest := rest - {k};
      }
      memory := memory - {keyToEvict};
      evicted := Some(keyToEvict);
    }

    /** The locked part of one increment; nothing else touches the map while it runs. */
    method Increment(
        key: string, window: int, now: real) returns (count: int, retryAfter: int, ghost evicted: Option<string>)
      requires Valid(Contents())
      modifies this
      ensures Step(old(Contents()), Attempt(key, window, now), Outcome(count, retryAfter, evicted), Contents())
      ensures Valid(Contents()) && count >= 1 && retryAfter >= 1
    {
      operations := operations + 1;
      if operations >= MEMORY_CLEANUP_INTERVAL || |memory| >= MEMORY_MAX_ENTRIES {
        CleanupMemory(now);
        operations := 0;
      }
      CleanedIsSmaller(old(memory), now);
      assert State(memory, operations) == Maintained(old(Contents()), now);
      ghost var maintained := memory;
      var expiresAt: real;
      if key !in memory || memory[key].expiresAt <= now {
        count := 1;
        expiresAt := now + window as real;
      } else {
        count := memory[key].count + 1;
        expiresAt := memory[key].expiresAt;
      }
      evicted := None;
      if key !in memory && |memory| >= MEMORY_MAX_ENTRIES {
        var victim := EvictSoonestExpiringEntry();
        evicted := victim;
      }
      memory := memory[key := Entry(count, expiresAt)];
      retryAfter := Max((expiresAt - now).Floor, 1);
      assert Counted(maintained, Attempt(key, window, now)) == Entry(count, expiresAt);
      StepKeepsBound(old(Contents()), Attempt(key, window, now), Outcome(count, retryAfter, evicted), Contents());
    }

    /** Increments that other requests make while this one waits. */
    method OtherRequests(others: seq<Attempt>)
      returns (ghost states: seq<State>, ghost outcomes: seq<Outcome>)
      requires Valid(Contents())
      modifies this
      ensures Chain(states, others, outcomes) && states[0] == old(Contents()) && states[|others|] == Contents()
      ensures Valid(Contents())
    {
      states, outcomes := [Contents()], [];
      for n := 0 to |others|
        invariant |states| == n + 1 == |outcomes| + 1
        invariant states[0] == old(Contents()) && states[n] == Contents() && Valid(Contents())
        invariant forall i :: 0 <= i < n ==> StepAt(states, others, outcomes, i)
      {
        ghost var before, outcomesBefore := states, outcomes;
        var count, retry, evicted := Increment(others[n].key, others[n].window, others[n].now);
        states, outcomes := states + [Contents()], outcomes + [Outcome(count, retry, evicted)];
        forall i | 0 <= i <= n
          ensures StepAt(states, others, outcomes, i)
        {
          if i < n {
            assert StepAt(before, others, outcomesBefore, i);
          }
        }
      }
    }

    /** One round of a check: what other requests do first, and then the rule's own increment. */
    method ConsumeRule(rule: Rule, caller: Caller, now: real, others: seq<Attempt>)
      returns (count: int, retryAfter: int, ghost round: Round)
      requires Valid(Contents())
      modifies this
      ensures IsRound(round, rule, caller, now, others)
      ensures round.states[0] == old(Contents()) && round.states[|others| + 1] == Contents()
      ensures round.own.count == count && round.own.retryAfter == retryAfter
      ensures Valid(Contents())
    {
      ghost var states, outcomes := OtherRequests(others);
      ghost var before := Contents();
      var c, r, evicted := Increment(RuleKey(rule, caller), rule.window, now);
      count, retryAfter := c, r;
      ghost var own := Outcome(count, retryAfter, evicted);
      ghost var last := [before, Contents()];
      assert StepAt(last, [OwnAttempt(rule, caller, now)], [own], 0);
      ChainAppend(states, others, outcomes, last, [OwnAttempt(rule, caller, now)], [own]);
      round := Round(states + last[1..], outcomes + [own], own);
    }

    /**
     The loop of one check. `c.clock[i]` is read for rule i, and `c.others[i]` are the
     increments of other requests that land before the check's own i-th increment.
     */
    method ConsumeRules(c: Check) returns (longest: int, ghost rounds: seq<Round>)
      requires WellFormed(c) && Valid(Contents())
      modifies this
      ensures AreRounds(c, rounds, old(Contents()), Contents(), |c.rules|)
      ensures longest == LongestRetryAfter(c.rules, rounds, |c.rules|)
      ensures Valid(Contents())
    {
      longest, rounds := 0, [];
      for n := 0 to |c.rules|
        invariant AreRounds(c, rounds, old(Contents()), Contents(), n)
        invariant Valid(Contents())
        invariant longest == LongestRetryAfter(c.rules, rounds, n)
      {
        ghost var before := Contents();
        var count, retryAfter, round := ConsumeRule(c.rules[n], c.caller, c.clock[n], c.others[n]);
        RoundsExtend(c, rounds, round, old(Contents()), before, Contents(), n);
        LongestExtend(c.rules, rounds, round, n);
        rounds := rounds + [round];
        if count > c.rules[n].limit {
          longest := Max(longest, retryAfter);
        }
      }
    }

    /** A rejected credential attempt gets `Some(seconds to wait)`. */
    method CheckCredentialsAttempt(caller: Caller, clock: seq<real>, others: seq<seq<Attempt>>)
      returns (rejected: Option<int>, ghost rounds: seq<Round>)
      requires |clock| == |others| == 4 && Valid(Contents())
      modifies this
      ensures Valid(Contents())
      ensures AreRounds(Check(CredentialRules(settings), caller, clock, others), rounds, old(Contents()), Contents(), 4)
      ensures Decides(CredentialRules(settings), rounds, rejected)
    {
      var longest;
      longest, rounds := ConsumeRules(Check(CredentialRules(settings), caller, clock, others));
      RejectionIsExact(CredentialRules(settings), rounds, 4);
      rejected := if longest > 0 then Some(longest) else None;
    }

    /** A rejected password-reset start gets `Some(seconds to wait)`. */
    method CheckPasswordResetAttempt(caller: Caller, clock: seq<real>, others: seq<seq<Attempt>>)
      returns (rejected: Option<int>, ghost rounds: seq<Round>)
      requires |clock| == |others| == 2 && Valid(Contents())
      modifies this
      ensures Valid(Contents())
      ensures AreRounds(Check(ResetRules(), caller, clock, others), rounds, old(Contents()), Contents(), 2)
      ensures Decides(ResetRules(), rounds, rejected)
    {
      var longest;
      longest, rounds := ConsumeRules(Check(ResetRules(), caller, clock, others));
      RejectionIsExact(ResetRules(), rounds, 2);
      rejected := if longest > 0 then Some(longest) else None;
    }
  }

  /** Rejected if and only if a limit was exceeded, with the largest hint of the exceeded rules. */
  ghost predicate Decides(rules: seq<Rule>, rounds: seq<Round>, rejected: Option<int>)
    requires |rounds| == |rules|
  {
    match rejected
    case None => forall i :: 0 <= i < |rules| ==> rounds[i].own.count <= rules[i].limit
    case Some(hint) =>
      && (forall i :: 0 <= i < |rules| && rounds[i].own.count > rules[i].limit ==> rounds[i].own.retryAfter <= hint)
      && (exists i :: 0 <= i < |rules| && rounds[i].own.count > rules[i].limit && rounds[i].own.retryAfter == hint)
  }

  lemma {:induction false} RoundsExtend(
      c: Check, rounds: seq<Round>, round: Round, first: State, middle: State, last: State, n: nat)
    requires WellFormed(c) && n < |c.rules| && AreRounds(c, rounds, first, middle, n)
    requires IsRound(round, c.rules[n], c.caller, c.clock[n], c.others[n])
    requires round.states[0] == middle && round.states[|c.others[n]| + 1] == last
    ensures AreRounds(c, rounds + [round], first, last, n + 1)
  {
    var all := rounds + [round];
    forall i | 0 <= i < n + 1
      ensures IsRound(all[i], c.rules[i], c.caller, c.clock[i], c.others[i])
    {
      if i < n {
        assert all[i] == rounds[i];
      }
    }
  }

  lemma {:induction false} LongestExtend(rules: seq<Rule>, rounds: seq<Round>, round: Round, n: nat)
    requires n < |rules| && |rounds| == n
    ensures LongestRetryAfter(rules, rounds + [round], n + 1)
            == if round.own.count > rules[n].limit
               then Max(LongestRetryAfter(rules, rounds, n), round.own.retryAfter)
               else LongestRetryAfter(rules, rounds, n)
  {
    LongestPrefix(rules, rounds, rounds + [round], n);
  }

  lemma {:induction false} LongestPrefix(rules: seq<Rule>, a: seq<Round>, b: seq<Round>, n: nat)
    requires n <= |rules| && n <= |a| && n <= |b|
    requires forall i :: 0 <= i < n ==> a[i] == b[i]
    ensures LongestRetryAfter(rules, a, n) == LongestRetryAfter(rules, b, n)
  {
    if n > 0 {
      LongestPrefix(rules, a, b, n - 1);
    }
  }

  lemma {:induction false} ChainAppend(states: seq<State>, attempts: seq<Attempt>, outcomes: seq<Outcome>,
                    states': seq<State>, attempts': seq<Attempt>, outcomes': seq<Outcome>)
    requires Chain(states, attempts, outcomes) && Chain(states', attempts', outcomes')
    requires states[|attempts|] == states'[0]
    ensures Chain(states + states'[1..], attempts + attempts', outcomes + outcomes')
  {
    var all := states + states'[1..];
    forall i | 0 <= i < |attempts| + |attempts'|
      ensures StepAt(all, attempts + attempts', outcomes + outcomes', i)
    {
      if i < |attempts| {
        assert StepAt(states, attempts, outcomes, i);
      } else {
        var j := i - |attempts|;
        assert StepAt(states', attempts', outcomes', j);
      }
    }
  }

  // ---------------------------------------------------------------- a check within a run

  /** The increments made during the first `n` rounds, and the maps and results they gave. */
  function FlatAttempts(c: Check, n: nat): seq<Attempt>
    requires WellFormed(c) && n <= |c.rules|
  {
    if n == 0 then []
    else FlatAttempts(c, n - 1) + (c.others[n - 1] + [OwnAttempt(c.rules[n - 1], c.caller, c.clock[n - 1])])
  }

  function FlatOutcomes(rounds: seq<Round>, n: nat): seq<Outcome>
    requires n <= |rounds|
  {
    if n == 0 then [] else FlatOutcomes(rounds, n - 1) + rounds[n - 1].outcomes
  }

  function FlatStates(rounds: seq<Round>, first: State, n: nat): seq<State>
    requires n <= |rounds| && forall i :: 0 <= i < n ==> rounds[i].states != []
  {
    if n == 0 then [first] else FlatStates(rounds, first, n - 1) + rounds[n - 1].states[1..]
  }

  lemma {:induction false} RoundsFormChain(c: Check, rounds: seq<Round>, first: State, last: State, n: nat)
    requires WellFormed(c) && n <= |c.rules| && AreRounds(c, rounds, first, last, |c.rules|)
    ensures var states := FlatStates(rounds, first, n);
            && Chain(states, FlatAttempts(c, n), FlatOutcomes(rounds, n))
            && states[0] == first
            && states[|states| - 1] == (if n == |c.rules| then last else rounds[n].states[0])
  {
    if n > 0 {
      RoundsFormChain(c, rounds, first, last, n - 1);
      var r := rounds[n - 1];
      assert IsRound(r, c.rules[n - 1], c.caller, c.clock[n - 1], c.others[n - 1]);
      ChainAppend(FlatStates(rounds, first, n - 1), FlatAttempts(c, n - 1), FlatOutcomes(rounds, n - 1),
                  r.states, c.others[n - 1] + [OwnAttempt(c.rules[n - 1], c.caller, c.clock[n - 1])], r.outcomes);
    }
  }

  /** Where the check's own increment for rule `i` lies among all increments made meanwhile. */
  function OwnAt(c: Check, i: nat): nat
    requires WellFormed(c) && i < |c.rules|
  {
    |FlatAttempts(c, i)| + |c.others[i]|
  }

  lemma {:induction false} OwnIncrements(c: Check, rounds: seq<Round>, first: State, last: State, n: nat, i: nat)
    requires WellFormed(c) && i < n <= |c.rules| && AreRounds(c, rounds, first, last, |c.rules|)
    ensures |FlatAttempts(c, n)| == |FlatOutcomes(rounds, n)| > OwnAt(c, i)
    ensures FlatAttempts(c, n)[OwnAt(c, i)] == OwnAttempt(c.rules[i], c.caller, c.clock[i])
    ensures FlatOutcomes(rounds, n)[OwnAt(c, i)] == rounds[i].own
    ensures i + 1 < n ==> OwnAt(c, i) < OwnAt(c, i + 1)
  {
    RoundsFormChain(c, rounds, first, last, n - 1);
    assert IsRound(rounds[n - 1], c.rules[n - 1], c.caller, c.clock[n - 1], c.others[n - 1]);
    if i < n - 1 {
      OwnIncrements(c, rounds, first, last, n - 1, i);
    }
  }
}
