/** What holds of every behaviour of the protocol, stated about its trace. */
module ResetTheorems {
  import opened Wrappers
  import opened ChallengeSpec
  import opened Reservations
  import opened ResetProtocol
  import opened ResetHistory
  import opened ResetInvariant

  // ---------------------------------------------------------------- one challenge

  /**
   Every verification answers exactly what the history of its challenge rules: accepted if
   and only if the challenge is open and unexpired and email and code are right, "attempts
   exceeded" if and only if it is the failure that uses up the last attempt, else "invalid".
   */
  lemma {:induction false} VerdictByHistory(cfg: Config, states: seq<State>, actions: seq<Action>, n: nat, k: nat)
    requires Behaviour(cfg, states, actions) && n < |states|
    requires k < |states[n].trace| && states[n].trace[k].Judged?
    ensures Answers(states[n].trace[k].verdict, RulingAt(states[n].trace, k, cfg.maxAttempts), states[n].trace[k].cid)
  {
    Reachable(cfg, states, actions, n);
  }

  /** What ends a challenge: success, exhaustion, a failed delivery, or its expiry being noticed. */
  predicate Ends(e: Event, cid: string) {
    || (e.Judged? && e.cid == cid && (e.verdict.Verified? || e.verdict.AttemptsExceeded?))
    || (e.DeliveryFailed? && e.cid == cid)
    || (e.Lapsed? && e.cid == cid)
    || (e.Probed? && e.cid == cid && e.removed)
  }

  lemma {:induction false} EndCloses(cfg: Config, trace: seq<Event>, k: nat, cid: string)
    requires k < |trace| && cfg.maxAttempts >= 1 && Ends(trace[k], cid)
    requires VerdictInv(trace, cfg.maxAttempts) && LapseInv(trace, cfg.maxAttempts) && StartInv(trace, cfg.normalize)
    ensures StandingAt(trace, k + 1, cid, cfg.maxAttempts).Closed?
  {
    OpenWasStarted(trace, k, cid, cfg.maxAttempts);
    if trace[k].DeliveryFailed? {
      assert StartedBefore(trace, k, cid);
    }
  }

  lemma {:induction false} EndedForGood(cfg: Config, trace: seq<Event>, k: nat, m: nat, cid: string)
    requires k < m <= |trace| && cfg.maxAttempts >= 1 && Ends(trace[k], cid)
    requires VerdictInv(trace, cfg.maxAttempts) && LapseInv(trace, cfg.maxAttempts) && StartInv(trace, cfg.normalize)
    ensures StandingAt(trace, m, cid, cfg.maxAttempts).Closed?
  {
    EndCloses(cfg, trace, k, cid);
    ClosedForGood(trace, k + 1, m, cid, cfg.maxAttempts);
  }

  /** Nothing brings an ended challenge back: no later verification of it is anything but invalid. */
  lemma {:induction false} NoResurrection(
      cfg: Config, states: seq<State>, actions: seq<Action>, n: nat, cid: string, k: nat, later: nat)
    requires Behaviour(cfg, states, actions) && n < |states|
    requires k < later < |states[n].trace| && Ends(states[n].trace[k], cid)
    requires states[n].trace[later].Judged? && states[n].trace[later].cid == cid
    ensures states[n].trace[later].verdict == Invalid
    ensures cid !in states[n].challenges
  {
    var s, max := states[n], cfg.maxAttempts;
    VerdictByHistory(cfg, states, actions, n, later);
    assert Inv(s, cfg) by {
      Reachable(cfg, states, actions, n);
    }
    EndedForGood(cfg, s.trace, k, later, cid);
    EndedForGood(cfg, s.trace, k, |s.trace|, cid);
    assert InStep(StandingAt(s.trace, |s.trace|, cid, max), cid, Lookup(s.challenges, cid));
  }

  lemma {:induction false} SuccessIsUnique(trace: seq<Event>, max: int, k: nat, later: nat)
    requires max >= 1 && VerdictInv(trace, max) && StartsAreFresh(trace)
    requires k < later < |trace| && trace[k].Judged? && trace[later].Judged?
    requires trace[k].verdict.Verified? && trace[later].verdict.Verified?
    ensures trace[k].cid != trace[later].cid
  {
    var cid := trace[k].cid;
    assert Answers(trace[k].verdict, RulingAt(trace, k, max), cid);
    ClosedForGood(trace, k + 1, later, cid, max);
    assert Answers(trace[later].verdict, RulingAt(trace, later, max), trace[later].cid);
  }

  /** Of any verifications of one challenge, however many run at once, at most one succeeds. */
  lemma {:induction false} ChallengeIsUsedOnce(
      cfg: Config, states: seq<State>, actions: seq<Action>, n: nat, k: nat, m: nat)
    requires Behaviour(cfg, states, actions) && n < |states|
    requires k < |states[n].trace| && m < |states[n].trace|
    requires states[n].trace[k].Judged? && states[n].trace[k].verdict.Verified?
    requires states[n].trace[m].Judged? && states[n].trace[m].verdict.Verified?
    requires states[n].trace[k].cid == states[n].trace[m].cid
    ensures k == m
  {
    Reachable(cfg, states, actions, n);
    if k < m {
      SuccessIsUnique(states[n].trace, cfg.maxAttempts, k, m);
    } else if m < k {
      SuccessIsUnique(states[n].trace, cfg.maxAttempts, m, k);
    }
  }

  // ---------------------------------------------------------------- the attempt budget

  /** A failed try on a challenge that was open and unexpired. */
  predicate FailedComparison(trace: seq<Event>, k: nat, cid: string, max: int)
    requires k < |trace|
  {
    var standing := StandingAt(trace, k, cid, max);
    && standing.Open? && IsWrongTry(trace[k], standing.issue, cid)
    && standing.issue.expiresAt > Seconds(trace[k].readAt)
  }

  function FailedComparisons(trace: seq<Event>, n: nat, cid: string, max: int): nat
    requires n <= |trace|
  {
    if n == 0 then 0
    else FailedComparisons(trace, n - 1, cid, max) + if FailedComparison(trace, n - 1, cid, max) then 1 else 0
  }

  lemma {:induction false} BudgetFollowsHistory(trace: seq<Event>, n: nat, cid: string, max: int)
    requires n <= |trace| && max >= 1 && StartsAreFresh(trace)
    ensures var standing := StandingAt(trace, n, cid, max);
            && (standing.Unknown? ==> FailedComparisons(trace, n, cid, max) == 0)
            && (standing.Open? ==> FailedComparisons(trace, n, cid, max) == standing.failures < max)
            && FailedComparisons(trace, n, cid, max) <= max
  {
    if n > 0 {
      BudgetFollowsHistory(trace, n - 1, cid, max);
      OpenWasStarted(trace, n - 1, cid, max);
    }
  }

  /**
   The attempt budget under any interleaving: a stored challenge counts exactly the tries
   that failed, login verifications under its key included, and is below the maximum; at most
   `maxAttempts` ever fail; and a reset verification is answered "attempts exceeded" if and
   only if it is the last of them.
   */
  lemma {:induction false} AttemptBudget(cfg: Config, states: seq<State>, actions: seq<Action>, n: nat, cid: string)
    requires Behaviour(cfg, states, actions) && n < |states|
    ensures var s, max := states[n], cfg.maxAttempts;
            var failed := FailedComparisons(s.trace, |s.trace|, cid, max);
            && failed <= max
            && (cid in s.challenges ==> s.challenges[cid].attempts == Int(failed) && failed < max)
            && (forall k: nat :: k < |s.trace| && s.trace[k].Judged? && s.trace[k].cid == cid ==>
                  (s.trace[k].verdict == AttemptsExceeded <==>
                     FailedComparison(s.trace, k, cid, max) && FailedComparisons(s.trace, k, cid, max) == max - 1))
  {
    var s, max := states[n], cfg.maxAttempts;
    Reachable(cfg, states, actions, n);
    BudgetFollowsHistory(s.trace, |s.trace|, cid, max);
    assert InStep(StandingAt(s.trace, |s.trace|, cid, max), cid, Lookup(s.challenges, cid));
    forall k: nat | k < |s.trace| && s.trace[k].Judged? && s.trace[k].cid == cid
      ensures s.trace[k].verdict == AttemptsExceeded <==>
              FailedComparison(s.trace, k, cid, max) && FailedComparisons(s.trace, k, cid, max) == max - 1
    {
      assert Answers(s.trace[k].verdict, RulingAt(s.trace, k, max), cid);
      BudgetFollowsHistory(s.trace, k, cid, max);
    }
  }

  // ---------------------------------------------------------------- completeness

  lemma {:induction false} StaysOpen(trace: seq<Event>, issue: Issue, cid: string, now: real, max: int, n: nat)
    requires max >= 1 && StartsAreFresh(trace) && VerdictInv(trace, max) && ClockInv(trace, now) && LapseInv(trace, max)
    requires IsIssue(trace, cid, issue) && issue.started < n <= |trace|
    requires Seconds(now) < issue.expiresAt
    requires forall k :: issue.started < k < n ==>
               !(trace[k].DeliveryFailed? && trace[k].cid == cid)
               && !(trace[k].Judged? && trace[k].cid == cid && Matches(issue, trace[k].email, trace[k].code))
    requires WrongTries(trace, issue, cid, issue.started + 1, n) < max
    ensures StandingAt(trace, n, cid, max) == Open(issue, WrongTries(trace, issue, cid, issue.started + 1, n))
  {
    if n > issue.started + 1 {
      StaysOpen(trace, issue, cid, now, max, n - 1);
      var e := trace[n - 1];
      if e.Judged? || e.Probed? || e.Lapsed? {
        assert Seconds(if e.Lapsed? then e.at else e.readAt) <= Seconds(now);
      }
    }
  }

  /**
   Nobody else's activity keeps a legitimate user out: before its expiry, after fewer than
   `maxAttempts` wrong tries and no right one, and unless its delivery failed, the issued
   code submitted with an equivalent email is accepted, for the account the start found. A
   login verification that names the challenge is a wrong try; no other login counts.
   */
  lemma {:induction false} IssuedCodeIsAccepted(
      cfg: Config, states: seq<State>, actions: seq<Action>, n: nat, cid: string, j: nat, email: string, readAt: real)
    requires Behaviour(cfg, states, actions) && n < |states|
    requires var trace := states[n].trace;
             && j < |trace| && trace[j].Started? && trace[j].cid == cid
             && Seconds(states[n].now) < trace[j].expiresAt && readAt <= states[n].now
             && cfg.normalize(email) == trace[j].email
             && (forall k :: j < k < |trace| ==>
                   && !(trace[k].DeliveryFailed? && trace[k].cid == cid)
                   && !(trace[k].Judged? && trace[k].cid == cid
                        && trace[k].email == trace[j].email && trace[k].code == trace[j].code))
             && WrongTries(trace, IssueAt(trace, j), cid, j + 1, |trace|) < cfg.maxAttempts
    ensures var (left, verdict) := Decision(cfg, states[n], cid, email, states[n].trace[j].code, readAt);
            left == None && verdict.Verified? && verdict.record.account == Some(states[n].trace[j].account)
  {
    var s, max := states[n], cfg.maxAttempts;
    var issue := IssueAt(s.trace, j);
    Reachable(cfg, states, actions, n);
    StaysOpen(s.trace, issue, cid, s.now, max, |s.trace|);
    DecisionIsRuling(cfg, s, cid, email, issue.code, readAt);
    assert Seconds(readAt) <= Seconds(s.now);
  }

  function IssueAt(trace: seq<Event>, j: nat): Issue
    requires j < |trace| && trace[j].Started?
  {
    Issue(j, trace[j].email, trace[j].account, trace[j].code, trace[j].expiresAt)
  }

  // ---------------------------------------------------------------- provenance

  /** Start, successful verification and minting behind one token, in this order. */
  ghost predicate Lineage(cfg: Config, trace: seq<Event>, claims: Claims, j: nat, k: nat, m: nat) {
    && j < k < m < |trace|
    && trace[j].Started? && trace[k].Judged? && trace[m] == Minted(claims, k)
    && (exists i: nat :: FoundFor(trace[j], i, cfg.normalize)) && trace[j].account == claims.account
    && trace[k].cid == trace[j].cid && trace[k].verdict.Verified?
    && trace[k].email == trace[j].email == claims.email && trace[k].code == trace[j].code
    && Seconds(trace[k].readAt) < trace[j].expiresAt
    && FailedComparisons(trace, k, trace[k].cid, cfg.maxAttempts) < cfg.maxAttempts
  }

  lemma {:induction false} TokenHasLineage(cfg: Config, trace: seq<Event>, jti: Jti, token: Token)
    returns (j: nat, k: nat)
    requires cfg.maxAttempts >= 1 && VerdictInv(trace, cfg.maxAttempts) && StartInv(trace, cfg.normalize)
    requires IsToken(jti, token, trace)
    ensures Lineage(cfg, trace, token.claims, j, k, token.minted)
  {
    var max := cfg.maxAttempts;
    k := trace[token.minted].judged;
    var cid := trace[k].cid;
    assert Answers(trace[k].verdict, RulingAt(trace, k, max), cid);
    var Accept(issue, failures) := RulingAt(trace, k, max);
    OpenWasStarted(trace, k, cid, max);
    BudgetFollowsHistory(trace, k, cid, max);
    j := issue.started;
    assert IsGenuineStart(trace[j], cfg.normalize);
  }

  /**
   Every update call carries the account of the unique resettable identity a start found,
   never an administrator's. That start sent the code to this identity's email, in normal
   form, and a timely successful verification of its challenge, with this email, the right
   code and fewer than `maxAttempts` failures before it, came between. The token was
   presented before it expired.
   */
  lemma {:induction false} CallProvenance(cfg: Config, states: seq<State>, actions: seq<Action>, n: nat, i: nat)
    returns (j: nat, k: nat, m: nat)
    requires Behaviour(cfg, states, actions) && n < |states|
    requires i < |states[n].trace| && states[n].trace[i].Called?
    ensures m < i && Lineage(cfg, states[n].trace, states[n].trace[i].claims, j, k, m)
    ensures states[n].trace[i].claims.account.accountType != Admin
    ensures states[n].trace[i].checkedAt < states[n].trace[i].claims.exp as real
  {
    var s := states[n];
    Reachable(cfg, states, actions, n);
    var claims := s.trace[i].claims;
    assert IsCall(s.trace[i], i, s.tokens);
    assert IsToken(claims.jti, s.tokens[claims.jti], s.trace);
    m := s.tokens[claims.jti].minted;
    j, k := TokenHasLineage(cfg, s.trace, claims.jti, s.tokens[claims.jti]);
  }

  // ---------------------------------------------------------------- at most once

  lemma {:induction false} AckedHolder(s: State, i: nat)
    requires AckInv(s.confirms, s.trace) && ConfirmInv(s.confirms, s.tokens, s.now)
    requires i < |s.trace| && s.trace[i].Acked? && s.trace[i].timely
    ensures var e := s.trace[i];
            && e.task in s.confirms && Holds(s.confirms[e.task]) && s.confirms[e.task].claims == e.claims
            && IssuedClaims(e.claims, s.tokens)
  {
    assert IsAck(s.trace[i], s.confirms);
    assert PhaseInv(s.confirms[s.trace[i].task], s.tokens, s.now);
  }

  /** Of all confirmations of one token that reserve before its expiry, at most one is acknowledged. */
  lemma {:induction false} TokenAcknowledgedOnce(
      cfg: Config, states: seq<State>, actions: seq<Action>, n: nat, i: nat, j: nat)
    requires Behaviour(cfg, states, actions) && n < |states|
    requires var trace := states[n].trace;
             && i < |trace| && j < |trace| && trace[i].Acked? && trace[j].Acked?
             && trace[i].timely && trace[j].timely && trace[i].claims.jti == trace[j].claims.jti
    ensures i == j
  {
    Reachable(cfg, states, actions, n);
    AckedHolder(states[n], i);
    AckedHolder(states[n], j);
  }

  /** Every acknowledged update, timely or not, goes back to a start, a success and a minting. */
  lemma {:induction false} AckHasLineage(cfg: Config, states: seq<State>, actions: seq<Action>, n: nat, i: nat)
    returns (j: nat, k: nat, m: nat)
    requires Behaviour(cfg, states, actions) && n < |states|
    requires i < |states[n].trace| && states[n].trace[i].Acked?
    ensures Lineage(cfg, states[n].trace, states[n].trace[i].claims, j, k, m)
  {
    var s := states[n];
    Reachable(cfg, states, actions, n);
    var claims := s.trace[i].claims;
    assert IsAck(s.trace[i], s.confirms);
    assert PhaseInv(s.confirms[s.trace[i].task], s.tokens, s.now);
    assert IsToken(claims.jti, s.tokens[claims.jti], s.trace);
    m := s.tokens[claims.jti].minted;
    j, k := TokenHasLineage(cfg, s.trace, claims.jti, s.tokens[claims.jti]);
  }

  /** Timely acknowledgements of tokens minted for successes on one challenge are one. */
  lemma {:induction false} MintedForOneChallenge(
      cfg: Config, states: seq<State>, actions: seq<Action>, n: nat, a1: nat, m1: nat, a2: nat, m2: nat)
    requires Behaviour(cfg, states, actions) && n < |states|
    requires var trace := states[n].trace;
             && a1 < |trace| && trace[a1].Acked? && trace[a1].timely
             && a2 < |trace| && trace[a2].Acked? && trace[a2].timely
             && m1 < |trace| && trace[m1].Minted? && trace[m1].claims == trace[a1].claims && trace[m1].judged < m1
             && m2 < |trace| && trace[m2].Minted? && trace[m2].claims == trace[a2].claims && trace[m2].judged < m2
             && trace[trace[m1].judged].Judged? && trace[trace[m2].judged].Judged?
             && trace[trace[m1].judged].cid == trace[trace[m2].judged].cid
    ensures a1 == a2
  {
    var s := states[n];
    Reachable(cfg, states, actions, n);
    var t1, t2 := s.trace[m1].claims.jti, s.trace[m2].claims.jti;
    assert s.tokens[t1] == Token(s.trace[m1].claims, m1) && s.tokens[t2] == Token(s.trace[m2].claims, m2);
    assert IsToken(t1, s.tokens[t1], s.trace) && IsToken(t2, s.tokens[t2], s.trace);
    ChallengeIsUsedOnce(cfg, states, actions, n, s.trace[m1].judged, s.trace[m2].judged);
    assert t1 == t2;
    TokenAcknowledgedOnce(cfg, states, actions, n, a1, a2);
  }

  /**
   End to end: one started challenge leads to at most one acknowledged password update,
   counting confirmations that reserve before their token's expiry. A challenge succeeds
   once, a success mints once, and a minted token is acknowledged once.
   */
  lemma {:induction false} ChallengeAcknowledgedOnce(
      cfg: Config, states: seq<State>, actions: seq<Action>, n: nat,
      a1: nat, j1: nat, k1: nat, m1: nat, a2: nat, j2: nat, k2: nat, m2: nat)
    requires Behaviour(cfg, states, actions) && n < |states|
    requires var trace := states[n].trace;
             && a1 < |trace| && trace[a1].Acked? && trace[a1].timely
             && Lineage(cfg, trace, trace[a1].claims, j1, k1, m1)
             && a2 < |trace| && trace[a2].Acked? && trace[a2].timely
             && Lineage(cfg, trace, trace[a2].claims, j2, k2, m2)
             && trace[j1].cid == trace[j2].cid
    ensures a1 == a2
  {
    MintedForOneChallenge(cfg, states, actions, n, a1, m1, a2, m2);
  }

  // ---------------------------------------------------------------- retry

  /**
   A failed update can be retried: whatever the update call answers but 200, its reservation
   is then released, and before the token's expiry a new confirmation of the token gets
   through to the update call.
   */
  lemma {:induction false} FailedUpdateCanBeRetried(
      cfg: Config, states: seq<State>, actions: seq<Action>, n: nat, task: nat, status: Option<int>, again: nat)
    requires Behaviour(cfg, states, actions) && n < |states|
    requires task in states[n].confirms && states[n].confirms[task].Calling? && status != Some(200)
    requires again !in states[n].confirms && states[n].now < states[n].confirms[task].claims.exp as real
    ensures StepEnabled(states[n], task, UpdateReply(status))
    ensures var s, claims := DoConfirm(states[n], task, UpdateReply(status)), states[n].confirms[task].claims;
            && s.trace == states[n].trace && StepEnabled(s, task, ReleaseToken)
            && var s1 := DoConfirm(s, task, ReleaseToken);
            && s1.reservations == s.reservations - {claims.jti}
            && StepEnabled(s1, again, CheckToken(claims.jti, true))
            && var s2 := DoConfirm(s1, again, CheckToken(claims.jti, true));
            && StepEnabled(s2, again, ComputeTtl)
            && var s3 := DoConfirm(s2, again, ComputeTtl);
            && StepEnabled(s3, again, Reserve(false))
            && DoConfirm(s3, again, Reserve(false)).confirms[again] == Calling(claims, true)
  {
    var s := states[n];
    Reachable(cfg, states, actions, n);
    var claims := s.confirms[task].claims;
    assert PhaseInv(s.confirms[task], s.tokens, s.now);
    assert IsToken(claims.jti, s.tokens[claims.jti], s.trace);
    TokenIsNoAdmins(cfg, s.trace, claims.jti, s.tokens[claims.jti]);
  }

  /** Tokens are never minted for an administrator. */
  lemma {:induction false} TokenIsNoAdmins(cfg: Config, trace: seq<Event>, jti: Jti, token: Token)
    requires cfg.maxAttempts >= 1 && VerdictInv(trace, cfg.maxAttempts) && StartInv(trace, cfg.normalize)
    requires IsToken(jti, token, trace)
    ensures token.claims.account.accountType != Admin
  {
    var j, k := TokenHasLineage(cfg, trace, jti, token);
    var i: nat :| FoundFor(trace[j], i, cfg.normalize);
  }
}
