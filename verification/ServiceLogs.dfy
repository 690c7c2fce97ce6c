/**
 What the log of a service promises: each challenge succeeds once, each token and each
 challenge is acknowledged once, and every update call and acknowledgement goes back to a
 start, a success and a minting that the log shows before it.
 */
module ServiceLogs {
  import opened Wrappers
  import opened ChallengeSpec
  import opened ResetProtocol
  import opened ResetHistory
  import opened ResetInvariant
  import opened ResetTheorems
  import opened ResetSteps
  import opened ServiceRuns

  ghost predicate UsesChallengesOnce(log: seq<Event>) {
    forall i, j :: 0 <= i < j < |log| && IsSuccess(log[i]) && IsSuccess(log[j]) ==> log[i].cid != log[j].cid
  }

  predicate IsSuccess(e: Event) {
    e.Judged? && e.verdict.Verified?
  }

  predicate IsTimelyAck(e: Event) {
    e.Acked? && e.timely
  }

  ghost predicate AcknowledgesTokensOnce(log: seq<Event>) {
    forall i, j :: 0 <= i < j < |log| && IsTimelyAck(log[i]) && IsTimelyAck(log[j]) ==>
      log[i].claims.jti != log[j].claims.jti
  }

  /** A start, a success on its challenge and a minting in the log lead to these claims. */
  ghost predicate HasLineage(cfg: Config, log: seq<Event>, claims: Claims, before: nat) {
    exists j: nat, k: nat, m: nat :: m < before && Lineage(cfg, log, claims, j, k, m)
  }

  /** Every update call has a lineage before it, is for no administrator, and came of a token presented in time. */
  ghost predicate CallsAreFounded(cfg: Config, log: seq<Event>) {
    forall i :: 0 <= i < |log| && log[i].Called? ==>
      && HasLineage(cfg, log, log[i].claims, i)
      && log[i].claims.account.accountType != Admin && log[i].checkedAt < log[i].claims.exp as real
  }

  ghost predicate AcksAreFounded(cfg: Config, log: seq<Event>) {
    forall i :: 0 <= i < |log| && log[i].Acked? ==> HasLineage(cfg, log, log[i].claims, |log|)
  }

  /** Timely acknowledgements with lineages of one challenge are one. */
  ghost predicate AcknowledgesChallengesOnce(cfg: Config, log: seq<Event>) {
    forall a1, a2, j1: nat, k1: nat, m1: nat, j2: nat, k2: nat, m2: nat ::
      && 0 <= a1 < |log| && 0 <= a2 < |log| && IsTimelyAck(log[a1]) && IsTimelyAck(log[a2])
      && Lineage(cfg, log, log[a1].claims, j1, k1, m1) && Lineage(cfg, log, log[a2].claims, j2, k2, m2)
      && log[j1].cid == log[j2].cid
      ==> a1 == a2
  }

  /** What the log of a service promises. */
  ghost predicate IsSound(cfg: Config, log: seq<Event>) {
    && UsesChallengesOnce(log) && AcknowledgesTokensOnce(log)
    && CallsAreFounded(cfg, log) && AcksAreFounded(cfg, log) && AcknowledgesChallengesOnce(cfg, log)
  }

  // ---------------------------------------------------------------- once

  lemma {:induction false} SuccessesAndAcksOnce(cfg: Config, states: seq<State>, actions: seq<Action>)
    requires Behaviour(cfg, states, actions)
    ensures var log := Visible(states[|actions|].trace); UsesChallengesOnce(log) && AcknowledgesTokensOnce(log)
  {
    var trace := states[|actions|].trace;
    var log := Visible(trace);
    forall i, j | 0 <= i < j < |log| && IsSuccess(log[i]) && IsSuccess(log[j])
      ensures log[i].cid != log[j].cid
    {
      var k := Origin(trace, i, |trace|);
      var m := Origin(trace, j, |trace|);
      if log[i].cid == log[j].cid {
        ChallengeIsUsedOnce(cfg, states, actions, |actions|, k, m);
      }
    }
    forall i, j | 0 <= i < j < |log| && IsTimelyAck(log[i]) && IsTimelyAck(log[j])
      ensures log[i].claims.jti != log[j].claims.jti
    {
      var k := Origin(trace, i, |trace|);
      var m := Origin(trace, j, |trace|);
      if log[i].claims.jti == log[j].claims.jti {
        TokenAcknowledgedOnce(cfg, states, actions, |actions|, k, m);
      }
    }
  }

  /** The minting behind a lineage in the log, and the success it refers to, are those of the trace. */
  lemma {:induction false} MintingShown(
      cfg: Config, states: seq<State>, actions: seq<Action>, claims: Claims, j: nat, k: nat, m: nat)
    returns (minted: nat)
    requires Behaviour(cfg, states, actions)
    requires Lineage(cfg, Visible(states[|actions|].trace), claims, j, k, m)
    ensures var trace := states[|actions|].trace;
            && minted < |trace| && trace[minted].Minted? && trace[minted].claims == claims
            && trace[minted].judged < minted && trace[trace[minted].judged].Judged?
            && trace[trace[minted].judged].cid == Visible(trace)[j].cid
  {
    var s := states[|actions|];
    var trace := s.trace;
    assert TokenInv(s.tokens, trace) && MintInv(s.tokens, trace) by {
      Reachable(cfg, states, actions, |actions|);
    }
    minted := Origin(trace, m, |trace|);
    assert IsToken(trace[minted].claims.jti, s.tokens[trace[minted].claims.jti], trace);
    ShownAt(trace, trace[minted].judged, |trace|);
  }

  lemma {:induction false} ChallengesAcknowledgedOnce(cfg: Config, states: seq<State>, actions: seq<Action>)
    requires Behaviour(cfg, states, actions)
    ensures AcknowledgesChallengesOnce(cfg, Visible(states[|actions|].trace))
  {
    var trace := states[|actions|].trace;
    var log := Visible(trace);
    forall a1, a2, j1: nat, k1: nat, m1: nat, j2: nat, k2: nat, m2: nat
      | && 0 <= a1 < |log| && 0 <= a2 < |log| && IsTimelyAck(log[a1]) && IsTimelyAck(log[a2])
        && Lineage(cfg, log, log[a1].claims, j1, k1, m1) && Lineage(cfg, log, log[a2].claims, j2, k2, m2)
        && log[j1].cid == log[j2].cid
      ensures a1 == a2
    {
      AcksCoincide(cfg, states, actions, a1, j1, k1, m1, a2, j2, k2, m2);
    }
  }

  lemma {:induction false} AcksCoincide(
      cfg: Config, states: seq<State>, actions: seq<Action>,
      a1: nat, j1: nat, k1: nat, m1: nat, a2: nat, j2: nat, k2: nat, m2: nat)
    requires Behaviour(cfg, states, actions)
    requires var log := Visible(states[|actions|].trace);
             && a1 < |log| && a2 < |log| && IsTimelyAck(log[a1]) && IsTimelyAck(log[a2])
             && Lineage(cfg, log, log[a1].claims, j1, k1, m1) && Lineage(cfg, log, log[a2].claims, j2, k2, m2)
             && log[j1].cid == log[j2].cid
    ensures a1 == a2
  {
    var trace := states[|actions|].trace;
    var log := Visible(trace);
    var t1 := MintingShown(cfg, states, actions, log[a1].claims, j1, k1, m1);
    var t2 := MintingShown(cfg, states, actions, log[a2].claims, j2, k2, m2);
    var b1 := Origin(trace, a1, |trace|);
    var b2 := Origin(trace, a2, |trace|);
    MintedForOneChallenge(cfg, states, actions, |actions|, b1, t1, b2, t2);
  }

  // ---------------------------------------------------------------- lineages

  function Moved(trace: seq<Event>, standing: Standing): Standing {
    match standing
    case Open(issue, failures) =>
      Open(issue.(started := if issue.started <= |trace| then Seen(trace, issue.started) else 0), failures)
    case _ => standing
  }

  ghost predicate NoLapse(trace: seq<Event>, n: nat, cid: string)
    requires n <= |trace|
  {
    forall k :: 0 <= k < n && trace[k].Lapsed? ==> trace[k].cid != cid
  }

  /** As long as a challenge has not lapsed, the log tells the same of it as the trace. */
  lemma {:induction false} SameStanding(trace: seq<Event>, n: nat, cid: string, max: int)
    requires n <= |trace| && NoLapse(trace, n, cid)
    ensures Seen(trace, n) <= |Visible(trace)|
    ensures StandingAt(Visible(trace), Seen(trace, n), cid, max) == Moved(trace, StandingAt(trace, n, cid, max))
  {
    SeenGrows(trace, n, |trace|);
    if n > 0 {
      SameStanding(trace, n - 1, cid, max);
      if !trace[n - 1].Lapsed? {
        ShownAt(trace, n - 1, |trace|);
      }
    }
  }

  lemma {:induction false} SameFailedComparisons(trace: seq<Event>, n: nat, cid: string, max: int)
    requires n <= |trace| && NoLapse(trace, n, cid)
    ensures Seen(trace, n) <= |Visible(trace)|
    ensures FailedComparisons(Visible(trace), Seen(trace, n), cid, max) == FailedComparisons(trace, n, cid, max)
  {
    SeenGrows(trace, n, |trace|);
    if n > 0 {
      SameFailedComparisons(trace, n - 1, cid, max);
      SameStanding(trace, n - 1, cid, max);
      if !trace[n - 1].Lapsed? {
        ShownAt(trace, n - 1, |trace|);
      }
    }
  }

  /** A challenge that succeeds has not lapsed before. */
  lemma {:induction false} SuccessHasNoLapse(cfg: Config, s: State, k: nat)
    requires VerdictInv(s.trace, cfg.maxAttempts) && LapseInv(s.trace, cfg.maxAttempts)
    requires StartInv(s.trace, cfg.normalize) && cfg.maxAttempts >= 1
    requires k < |s.trace| && IsSuccess(s.trace[k])
    ensures NoLapse(s.trace, k, s.trace[k].cid)
  {
    var trace, cid := s.trace, s.trace[k].cid;
    assert Answers(trace[k].verdict, RulingAt(trace, k, cfg.maxAttempts), cid);
    forall l | 0 <= l < k && trace[l].Lapsed?
      ensures trace[l].cid != cid
    {
      if trace[l].cid == cid {
        EndedForGood(cfg, trace, l, k, cid);
      }
    }
  }

  /** The log shows a lineage of the trace. */
  lemma {:induction false} LineageShown(cfg: Config, s: State, claims: Claims, j: nat, k: nat, m: nat)
    requires VerdictInv(s.trace, cfg.maxAttempts) && LapseInv(s.trace, cfg.maxAttempts)
    requires StartInv(s.trace, cfg.normalize) && cfg.maxAttempts >= 1
    requires Lineage(cfg, s.trace, claims, j, k, m)
    ensures Lineage(cfg, Visible(s.trace), claims, Seen(s.trace, j), Seen(s.trace, k), Seen(s.trace, m))
  {
    var trace := s.trace;
    ShownAt(trace, j, |trace|);
    ShownAt(trace, k, |trace|);
    ShownAt(trace, m, |trace|);
    SeenGrows(trace, j, k);
    SeenGrows(trace, k, m);
    SuccessHasNoLapse(cfg, s, k);
    SameStanding(trace, k, trace[k].cid, cfg.maxAttempts);
    SameFailedComparisons(trace, k, trace[k].cid, cfg.maxAttempts);
  }

  lemma {:induction false} CallsAndAcksFounded(cfg: Config, states: seq<State>, actions: seq<Action>)
    requires Behaviour(cfg, states, actions)
    ensures var log := Visible(states[|actions|].trace); CallsAreFounded(cfg, log) && AcksAreFounded(cfg, log)
  {
    var s := states[|actions|];
    var log := Visible(s.trace);
    assert ChallengeInv(s.challenges, s.trace, s.now, cfg) by {
      Reachable(cfg, states, actions, |actions|);
    }
    forall i | 0 <= i < |log| && log[i].Called?
      ensures HasLineage(cfg, log, log[i].claims, i)
      ensures log[i].claims.account.accountType != Admin && log[i].checkedAt < log[i].claims.exp as real
    {
      var at := Origin(s.trace, i, |s.trace|);
      var j, k, m := CallProvenance(cfg, states, actions, |actions|, at);
      LineageShown(cfg, s, log[i].claims, j, k, m);
      SeenGrows(s.trace, m, at);
    }
    forall i | 0 <= i < |log| && log[i].Acked?
      ensures HasLineage(cfg, log, log[i].claims, |log|)
    {
      var at := Origin(s.trace, i, |s.trace|);
      var j, k, m := AckHasLineage(cfg, states, actions, |actions|, at);
      LineageShown(cfg, s, log[i].claims, j, k, m);
    }
  }

  lemma {:induction false} LogIsSound(cfg: Config, states: seq<State>, actions: seq<Action>)
    requires Behaviour(cfg, states, actions)
    ensures IsSound(cfg, Visible(states[|actions|].trace))
  {
    SuccessesAndAcksOnce(cfg, states, actions);
    CallsAndAcksFounded(cfg, states, actions);
    ChallengesAcknowledgedOnce(cfg, states, actions);
  }

  // ---------------------------------------------------------------- issued codes

  /** A verification is logged as a success, and its task may have a token for this account minted. */
  ghost predicate AnswersWith<S, L>(p: Service<S>, r: Request<L>, p': Service<S>, account: Account)
    requires r.VerifyReset?
  {
    && |p'.log| == |p.log| + 1 && p'.log[|p.log|].Judged? && p'.log[|p.log|].cid == r.cid
    && p'.log[|p.log|].verdict.Verified?
    && r.task in p'.pending && p'.pending[r.task].record.account == Some(account)
  }

  /** A start is logged exactly when all identities but one are administrators', and issues the code to that one. */
  ghost predicate CreatesExactly<S, L>(cfg: Config, p: Service<S>, r: Request<L>, p': Service<S>)
    requires r.StartReset?
  {
    && (p' == p <==> !exists k: nat :: OnlyNonAdmin(r.identities, k))
    && forall k: nat :: OnlyNonAdmin(r.identities, k) ==>
         p'.log == p.log + [
           Started(r.cid, r.identities, cfg.normalize(r.identities[k].email), r.identities[k].account, r.code,
                   r.readAt.Floor + cfg.ttl)]
  }

  /** The log shows the same wrong tries as the trace. */
  lemma {:induction false} SameWrongTries(trace: seq<Event>, issue: Issue, shown: Issue, cid: string, k: nat, n: nat)
    requires k < n <= |trace| && !trace[k].Lapsed? && shown == issue.(started := shown.started)
    ensures Seen(trace, k) < Seen(trace, n) <= |Visible(trace)|
    ensures WrongTries(Visible(trace), shown, cid, Seen(trace, k) + 1, Seen(trace, n))
            == WrongTries(trace, issue, cid, k + 1, n)
    decreases n
  {
    SeenGrows(trace, k, n);
    SeenGrows(trace, n, |trace|);
    if k + 1 < n {
      SameWrongTries(trace, issue, shown, cid, k, n - 1);
      if !trace[n - 1].Lapsed? {
        ShownAt(trace, n - 1, |trace|);
      }
    }
  }

  lemma {:induction false} UsableInTrace(cfg: Config, trace: seq<Event>, j: nat) returns (k: nat)
    requires StillUsable(cfg, Visible(trace), j)
    ensures StillUsable(cfg, trace, k) && trace[k] == Visible(trace)[j]
  {
    var log := Visible(trace);
    k := Origin(trace, j, |trace|);
    SameWrongTries(trace, IssueAt(trace, k), IssueAt(log, j), trace[k].cid, k, |trace|);
    forall m | k < m < |trace| && (trace[m].DeliveryFailed? || trace[m].Judged?)
      ensures j < Seen(trace, m) < |log| && log[Seen(trace, m)] == trace[m]
    {
      ShownAt(trace, m, |trace|);
      SeenGrows(trace, k, m);
    }
  }

  /** The machine accepts an issued code that by the log is still usable. */
  lemma {:induction false} LogAcceptsIssuedCode<S>(
      cfg: Config, p: Service<S>, s: State, j: nat, email: string, readAt: real)
    requires Together(cfg, p, s) && StillUsable(cfg, p.log, j) && readAt <= p.now
    requires Seconds(p.now) < p.log[j].expiresAt && cfg.normalize(email) == p.log[j].email
    ensures var verdict := Decision(cfg, s, p.log[j].cid, email, p.log[j].code, readAt).1;
            verdict.Verified? && verdict.record.account == Some(p.log[j].account)
  {
    var states: seq<State>, actions: seq<Action> :| Behaviour(cfg, states, actions) && states[|actions|] == s;
    var k := UsableInTrace(cfg, s.trace, j);
    IssuedCodeIsAccepted(cfg, states, actions, |actions|, s.trace[k].cid, k, email, readAt);
  }
}
