/**
 What each step of a behaviour does, told from its action alone: when a challenge is created,
 a token minted and admitted, an update called and acknowledged. And that a request which does
 everything in time gets through, from the issued code to the acknowledged update.
 */
module ResetSteps {
  import opened Wrappers
  import opened ChallengeSpec
  import opened Reservations
  import opened ResetProtocol
  import opened ResetHistory
  import opened ResetInvariant
  import opened ResetTheorems

  // ---------------------------------------------------------------- acknowledgements

  /** A step that turns `trace` into `trace'` adds an acknowledgement of this task. */
  ghost predicate AddsAck(trace: seq<Event>, trace': seq<Event>, task: nat) {
    exists k :: |trace| <= k < |trace'| && trace'[k].Acked? && trace'[k].task == task
  }

  /** It adds an update call of this task. */
  ghost predicate AddsCall(trace: seq<Event>, trace': seq<Event>, task: nat) {
    exists k :: |trace| <= k < |trace'| && trace'[k].Called? && trace'[k].task == task
  }

  /** The trace only grows, by one event at most. */
  lemma {:induction false} TraceGrows(cfg: Config, states: seq<State>, actions: seq<Action>, i: nat)
    requires Behaviour(cfg, states, actions) && i < |actions|
    ensures states[i].trace <= states[i + 1].trace && |states[i + 1].trace| <= |states[i].trace| + 1
  {
    assert Leads(cfg, states[i], actions[i], states[i + 1]);
  }

  /** A step acknowledges a task's update if and only if the update call of this task answers 200. */
  lemma {:induction false} AckedExactly(cfg: Config, states: seq<State>, actions: seq<Action>, i: nat, task: nat)
    requires Behaviour(cfg, states, actions) && i < |actions|
    ensures AddsAck(states[i].trace, states[i + 1].trace, task) <==> actions[i] == Confirm(task, UpdateReply(Some(200)))
  {
    var s, s' := states[i], states[i + 1];
    assert Leads(cfg, s, actions[i], s');
    TraceGrows(cfg, states, actions, i);
    if actions[i] == Confirm(task, UpdateReply(Some(200))) {
      assert s'.trace[|s.trace|] == Acked(task, s.confirms[task].claims, s.confirms[task].timely);
    }
  }

  /** Any other answer, or none, adds nothing to the trace, and leaves the reservation to be released. */
  lemma {:induction false} OtherAnswersRelease(
      cfg: Config, states: seq<State>, actions: seq<Action>, i: nat, task: nat, status: Option<int>)
    requires Behaviour(cfg, states, actions) && i < |actions|
    requires actions[i] == Confirm(task, UpdateReply(status)) && status != Some(200)
    ensures task in states[i].confirms
    ensures var s, s' := states[i], states[i + 1];
            && s'.trace == s.trace && s'.reservations == s.reservations
            && StepEnabled(s', task, ReleaseToken)
            && DoConfirm(s', task, ReleaseToken).reservations == s.reservations - {s.confirms[task].claims.jti}
  {
    assert Leads(cfg, states[i], actions[i], states[i + 1]);
  }

  /** The id is reserved at this moment. */
  predicate IsHeld(s: State, jti: Jti) {
    jti in s.reservations && s.reservations[jti] > s.now
  }

  /** A task calls if and only if its reservation finds the id free, and it gets to know. */
  lemma {:induction false} CalledExactly(cfg: Config, states: seq<State>, actions: seq<Action>, i: nat, task: nat)
    requires Behaviour(cfg, states, actions) && i < |actions|
    ensures AddsCall(states[i].trace, states[i + 1].trace, task) <==>
            actions[i] == Confirm(task, Reserve(false)) && !IsHeld(states[i], states[i].confirms[task].claims.jti)
  {
    var s, s' := states[i], states[i + 1];
    assert Leads(cfg, s, actions[i], s');
    TraceGrows(cfg, states, actions, i);
    if actions[i] == Confirm(task, Reserve(false)) && |s'.trace| > |s.trace| {
      assert s'.trace[|s.trace|].Called?;
    }
  }

  /** Nothing further happens in this task. */
  ghost predicate IsOver(s: State, task: nat) {
    forall step: ConfirmStep :: !StepEnabled(s, task, step)
  }

  /**
   When a confirmation is over: its token was refused, its id was held or the reply to its
   reservation lost, its update acknowledged, its reservation released, or it was abandoned.
   */
  lemma {:induction false} OverExactly(
      cfg: Config, states: seq<State>, actions: seq<Action>, i: nat, task: nat, step: ConfirmStep)
    requires Behaviour(cfg, states, actions) && i < |actions| && actions[i] == Confirm(task, step)
    ensures StepEnabled(states[i], task, step)
    ensures var s := states[i];
            IsOver(states[i + 1], task) <==>
            match step
            case CheckToken(jti, strongPassword) => !strongPassword || s.now >= s.tokens[jti].claims.exp as real
            case ComputeTtl => false
            case Reserve(replyLost) => replyLost || IsHeld(s, s.confirms[task].claims.jti)
            case UpdateReply(status) => status == Some(200)
            case ReleaseToken => true
            case Abandon => true
  {
    var s, s' := states[i], states[i + 1];
    assert Leads(cfg, s, actions[i], s');
    if step.CheckToken? {
      AdmittedExactly(cfg, states, actions, i, task, step.jti, step.strongPassword);
    }
    assert StepEnabled(s', task, ComputeTtl) || StepEnabled(s', task, Reserve(false))
           || StepEnabled(s', task, ReleaseToken) || StepEnabled(s', task, Abandon) || IsOver(s', task);
  }

  /**
   The reservations change in three ways only: a free id is reserved, until its token's expiry
   or longer, whether or not the reply arrives; a failed call gives its own id back; and a
   reservation that has run out lapses.
   */
  lemma {:induction false} ReservationsExactly(cfg: Config, states: seq<State>, actions: seq<Action>, i: nat)
    requires Behaviour(cfg, states, actions) && i < |actions|
    ensures var s, s' := states[i], states[i + 1];
            match actions[i]
            case Confirm(task, Reserve(_)) =>
              var claims := s.confirms[task].claims;
              if IsHeld(s, claims.jti) then s'.reservations == s.reservations
              else
                && claims.jti in s'.reservations && s'.reservations[claims.jti] >= claims.exp as real
                && s'.reservations - {claims.jti} == s.reservations - {claims.jti}
            case Confirm(task, ReleaseToken) => s'.reservations == s.reservations - {s.confirms[task].claims.jti}
            case LapseReservation(jti) => s'.reservations == s.reservations - {jti} && !IsHeld(s, jti)
            case _ => s'.reservations == s.reservations
  {
    var s := states[i];
    assert Leads(cfg, s, actions[i], states[i + 1]);
    if actions[i].Confirm? && actions[i].step.Reserve? {
      assert PhaseInv(s.confirms[actions[i].task], s.tokens, s.now) by {
        Reachable(cfg, states, actions, i);
      }
    }
  }

  // ---------------------------------------------------------------- starts

  /**
   A start creates a challenge if and only if all identities but one are administrators', and
   then for that one's account and email; the challenge expires `ttl` seconds after its clock.
   */
  lemma {:induction false} StartedExactly(
      cfg: Config, states: seq<State>, actions: seq<Action>, i: nat,
      identities: seq<Identity>, cid: string, code: string, readAt: real)
    requires Behaviour(cfg, states, actions) && i < |actions|
    requires actions[i] == Start(identities, cid, code, readAt)
    ensures cid !in states[i].challenges
    ensures cid in states[i + 1].challenges <==> exists k: nat :: OnlyNonAdmin(identities, k)
    ensures forall k: nat :: OnlyNonAdmin(identities, k) ==>
              states[i + 1].trace == states[i].trace + [
                Started(cid, identities, cfg.normalize(identities[k].email), identities[k].account, code,
                        readAt.Floor + cfg.ttl)]
    ensures cid !in states[i + 1].challenges ==> states[i + 1] == states[i]
  {
    var s := states[i];
    assert Leads(cfg, s, actions[i], states[i + 1]);
    UniqueIsOnlyNonAdmin(identities);
    assert cid !in s.challenges by {
      Reachable(cfg, states, actions, i);
      OpenWasStarted(s.trace, |s.trace|, cid, cfg.maxAttempts);
      assert InStep(StandingAt(s.trace, |s.trace|, cid, cfg.maxAttempts), cid, Lookup(s.challenges, cid));
    }
  }

  /** A failed delivery withdraws the challenge. */
  lemma {:induction false} FailedDeliveryWithdraws(
      cfg: Config, states: seq<State>, actions: seq<Action>, i: nat, cid: string, n: nat)
    requires Behaviour(cfg, states, actions) && i < n < |states| && actions[i] == FailDelivery(cid)
    ensures cid !in states[n].challenges
  {
    var s := states[i];
    assert Leads(cfg, s, actions[i], states[i + 1]);
    TracePrefix(cfg, states, actions, i + 1, n);
    assert states[n].trace[|s.trace|] == DeliveryFailed(cid);
    assert Inv(states[n], cfg) by {
      Reachable(cfg, states, actions, n);
    }
    EndedForGood(cfg, states[n].trace, |s.trace|, |states[n].trace|, cid);
    assert InStep(StandingAt(states[n].trace, |states[n].trace|, cid, cfg.maxAttempts), cid,
                  Lookup(states[n].challenges, cid));
  }

  lemma {:induction false} TracePrefix(cfg: Config, states: seq<State>, actions: seq<Action>, m: nat, n: nat)
    requires Behaviour(cfg, states, actions) && m <= n < |states|
    ensures states[m].trace <= states[n].trace
    decreases n
  {
    if m < n {
      var i := n - 1;
      TracePrefix(cfg, states, actions, m, i);
      TraceGrows(cfg, states, actions, i);
    }
  }

  /** The action behind a start in the trace. */
  lemma {:induction false} StartAction(cfg: Config, states: seq<State>, actions: seq<Action>, n: nat, j: nat)
    returns (i: nat)
    requires Behaviour(cfg, states, actions) && n < |states| && j < |states[n].trace| && states[n].trace[j].Started?
    ensures var e := states[n].trace[j];
            && i < n && |states[i].trace| == j
            && actions[i].Start? && actions[i].cid == e.cid && actions[i].code == e.code
            && e.expiresAt == actions[i].readAt.Floor + cfg.ttl
    decreases n
  {
    TraceGrows(cfg, states, actions, n - 1);
    if j < |states[n - 1].trace| {
      i := StartAction(cfg, states, actions, n - 1, j);
    } else {
      i := n - 1;
      assert Leads(cfg, states[i], actions[i], states[n]);
    }
  }

  /** No verification of a challenge succeeds `ttl` seconds after its start, or later. */
  lemma {:induction false} AcceptedWithinTtl(
      cfg: Config, states: seq<State>, actions: seq<Action>, n: nat, k: nat)
    returns (i: nat)
    requires Behaviour(cfg, states, actions) && n < |states|
    requires k < |states[n].trace| && states[n].trace[k].Judged? && states[n].trace[k].verdict.Verified?
    ensures var e := states[n].trace[k];
            && i < n && actions[i].Start? && actions[i].cid == e.cid && actions[i].code == e.code
            && e.readAt < actions[i].readAt + cfg.ttl as real
  {
    var trace, max := states[n].trace, cfg.maxAttempts;
    VerdictByHistory(cfg, states, actions, n, k);
    var Accept(issue, _) := RulingAt(trace, k, max);
    OpenWasStarted(trace, k, trace[k].cid, max);
    i := StartAction(cfg, states, actions, n, issue.started);
  }

  // ---------------------------------------------------------------- tokens

  lemma {:induction false} TokenStays(cfg: Config, states: seq<State>, actions: seq<Action>, m: nat, n: nat, jti: Jti)
    requires Behaviour(cfg, states, actions) && m <= n < |states| && jti in states[m].tokens
    ensures jti in states[n].tokens && states[n].tokens[jti] == states[m].tokens[jti]
    decreases n
  {
    if m < n {
      TokenStays(cfg, states, actions, m, n - 1, jti);
      assert Leads(cfg, states[n - 1], actions[n - 1], states[n]);
    }
  }

  lemma {:induction false} MintedToken(
      cfg: Config, states: seq<State>, actions: seq<Action>, i: nat, task: nat, jti: Jti)
    requires Behaviour(cfg, states, actions) && i < |actions| && actions[i] == Mint(task, jti)
    ensures jti in states[i + 1].tokens
    ensures var claims := states[i + 1].tokens[jti].claims;
            && claims.issuedAt == states[i].now.Floor && claims.exp == claims.issuedAt + cfg.tokenTtl
  {
    assert Leads(cfg, states[i], actions[i], states[i + 1]);
  }

  /** A presented token is admitted if and only if it has not expired and the password is strong. */
  lemma {:induction false} AdmittedExactly(
      cfg: Config, states: seq<State>, actions: seq<Action>, i: nat, task: nat, jti: Jti, strongPassword: bool)
    requires Behaviour(cfg, states, actions) && i < |actions|
    requires actions[i] == Confirm(task, CheckToken(jti, strongPassword))
    ensures jti in states[i].tokens
    ensures var s, claims := states[i], states[i].tokens[jti].claims;
            states[i + 1] == s.(confirms := s.confirms[task :=
              if s.now < claims.exp as real && strongPassword then Checked(claims, s.now) else Refused(claims)])
  {
    var s := states[i];
    assert Leads(cfg, s, actions[i], states[i + 1]);
    NoTokenIsAdmins(cfg, states, actions, i, jti);
    assert s.trace + [] == s.trace;
  }

  lemma {:induction false} NoTokenIsAdmins(cfg: Config, states: seq<State>, actions: seq<Action>, n: nat, jti: Jti)
    requires Behaviour(cfg, states, actions) && n < |states| && jti in states[n].tokens
    ensures states[n].tokens[jti].claims.account.accountType != Admin && states[n].tokens[jti].claims.jti == jti
  {
    var s := states[n];
    Reachable(cfg, states, actions, n);
    assert IsToken(jti, s.tokens[jti], s.trace);
    TokenIsNoAdmins(cfg, s.trace, jti, s.tokens[jti]);
  }

  /** With a strong password a token is admitted until a second before `tokenTtl` is over, and never after. */
  lemma {:induction false} TokenLifetime(
      cfg: Config, states: seq<State>, actions: seq<Action>, i: nat, j: nat, task: nat, jti: Jti, confirmer: nat)
    requires Behaviour(cfg, states, actions) && i < j < |actions|
    requires actions[i] == Mint(task, jti) && actions[j] == Confirm(confirmer, CheckToken(jti, true))
    ensures confirmer in states[j + 1].confirms
    ensures states[j].now <= states[i].now + cfg.tokenTtl as real - 1.0 ==> states[j + 1].confirms[confirmer].Checked?
    ensures states[j].now >= states[i].now + cfg.tokenTtl as real ==> states[j + 1].confirms[confirmer].Refused?
  {
    MintedToken(cfg, states, actions, i, task, jti);
    TokenStays(cfg, states, actions, i + 1, j, jti);
    AdmittedExactly(cfg, states, actions, j, confirmer, jti, true);
  }

  // ---------------------------------------------------------------- strong passwords

  ghost predicate ChecksAt(
      states: seq<State>, actions: seq<Action>, i: nat, task: nat, claims: Claims, checkedAt: real)
  {
    && i < |actions| && i < |states| && actions[i] == Confirm(task, CheckToken(claims.jti, true))
    && states[i].now == checkedAt && checkedAt < claims.exp as real
  }

  /** One of the first `n` steps presented the token with a strong password, in time. */
  ghost predicate WasChecked(
      states: seq<State>, actions: seq<Action>, n: nat, task: nat, claims: Claims, checkedAt: real)
  {
    exists i: nat :: i < n && ChecksAt(states, actions, i, task, claims, checkedAt)
  }

  lemma {:induction false} AdmittedWereChecked(
      cfg: Config, states: seq<State>, actions: seq<Action>, n: nat, task: nat)
    requires Behaviour(cfg, states, actions) && n < |states| && task in states[n].confirms
    requires states[n].confirms[task].Checked? || states[n].confirms[task].Timed?
    ensures var p := states[n].confirms[task]; WasChecked(states, actions, n, task, p.claims, p.checkedAt)
    decreases n
  {
    var i := n - 1;
    var s, p := states[i], states[n].confirms[task];
    assert Leads(cfg, s, actions[i], states[n]);
    if task in s.confirms && (s.confirms[task].Checked? || s.confirms[task].Timed?) {
      AdmittedWereChecked(cfg, states, actions, i, task);
      var m: nat :| m < i && ChecksAt(states, actions, m, task, p.claims, p.checkedAt);
      assert m < n;
    } else {
      assert actions[i].Confirm? && actions[i].task == task && actions[i].step.CheckToken?;
      NoTokenIsAdmins(cfg, states, actions, i, actions[i].step.jti);
      assert ChecksAt(states, actions, i, task, p.claims, p.checkedAt);
    }
  }

  /** No account is updated unless its token was presented, before it expired, with a strong password. */
  lemma {:induction false} CallHadStrongPassword(
      cfg: Config, states: seq<State>, actions: seq<Action>, n: nat, k: nat)
    requires Behaviour(cfg, states, actions) && n < |states| && k < |states[n].trace| && states[n].trace[k].Called?
    ensures var e := states[n].trace[k]; WasChecked(states, actions, n, e.task, e.claims, e.checkedAt)
    decreases n
  {
    var i := n - 1;
    var s, e := states[i], states[n].trace[k];
    TraceGrows(cfg, states, actions, i);
    if k < |s.trace| {
      CallHadStrongPassword(cfg, states, actions, i, k);
    } else {
      assert Leads(cfg, s, actions[i], states[n]);
      AdmittedWereChecked(cfg, states, actions, i, e.task);
    }
    var m: nat :| m < i && ChecksAt(states, actions, m, e.task, e.claims, e.checkedAt);
    assert m < n;
  }

  // ---------------------------------------------------------------- getting through

  // ---------------------------------------------------------------- getting through

  /** Only minted ids are ever reserved. */
  lemma {:induction false} ReservedAreMinted(cfg: Config, states: seq<State>, actions: seq<Action>, n: nat)
    requires Behaviour(cfg, states, actions) && n < |states|
    ensures states[n].reservations.Keys <= states[n].tokens.Keys
    decreases n
  {
    if n > 0 {
      var i := n - 1;
      ReservedAreMinted(cfg, states, actions, i);
      var s := states[i];
      assert Leads(cfg, s, actions[i], states[n]);
      if actions[i].Confirm? && actions[i].step.Reserve? {
        assert PhaseInv(s.confirms[actions[i].task], s.tokens, s.now) by {
          Reachable(cfg, states, actions, i);
        }
      }
    }
  }

  /** Nobody has used up the challenge started at `j`, and its delivery has not failed. */
  ghost predicate StillUsable(cfg: Config, trace: seq<Event>, j: nat) {
    && j < |trace| && trace[j].Started?
    && (forall k :: j < k < |trace| ==>
          && !(trace[k].DeliveryFailed? && trace[k].cid == trace[j].cid)
          && !(trace[k].Judged? && trace[k].cid == trace[j].cid
               && trace[k].email == trace[j].email && trace[k].code == trace[j].code))
    && WrongTries(trace, IssueAt(trace, j), trace[j].cid, j + 1, |trace|) < cfg.maxAttempts
  }

  /** The challenge that the start at step `i` created, as the trace shows it later. */
  lemma {:induction false} StartInTrace(
      cfg: Config, states: seq<State>, actions: seq<Action>, i: nat, n: nat, k: nat)
    requires Behaviour(cfg, states, actions) && i < n < |states| && actions[i].Start?
    requires OnlyNonAdmin(actions[i].identities, k)
    ensures var Start(identities, cid, code, readAt) := actions[i];
            && |states[i].trace| < |states[n].trace|
            && states[n].trace[|states[i].trace|]
               == Started(cid, identities, cfg.normalize(identities[k].email), identities[k].account, code,
                          readAt.Floor + cfg.ttl)
  {
    var Start(identities, cid, code, readAt) := actions[i];
    StartedExactly(cfg, states, actions, i, identities, cid, code, readAt);
    TracePrefix(cfg, states, actions, i + 1, n);
  }

  /** Until a second before `ttl` is over the issued code is accepted. */
  lemma {:induction false} AcceptedUntilTtl(
      cfg: Config, states: seq<State>, actions: seq<Action>, i: nat, n: nat, k: nat, email: string)
    requires Behaviour(cfg, states, actions) && i < n < |states| && actions[i].Start?
    requires OnlyNonAdmin(actions[i].identities, k) && StillUsable(cfg, states[n].trace, |states[i].trace|)
    requires cfg.normalize(email) == cfg.normalize(actions[i].identities[k].email)
    requires states[n].now <= actions[i].readAt + cfg.ttl as real - 1.0
    ensures var s := states[n];
            var (_, verdict) := Decision(cfg, s, actions[i].cid, email, actions[i].code, s.now);
            && verdict.Verified? && verdict.record.account == Some(actions[i].identities[k].account)
            && verdict.record.email == Some(cfg.normalize(email))
  {
    StartInTrace(cfg, states, actions, i, n, k);
    IssuedCodeIsAccepted(cfg, states, actions, n, actions[i].cid, |states[i].trace|, email, states[n].now);
  }

  /** Nothing but its expiry keeps a free token of no administrator from an acknowledged update. */
  lemma {:induction false} ConfirmationGoesThrough(
      cfg: Config, states: seq<State>, actions: seq<Action>, task: nat, jti: Jti)
    returns (states': seq<State>, actions': seq<Action>)
    requires Behaviour(cfg, states, actions)
    requires var s := states[|actions|];
             && jti in s.tokens && jti !in s.reservations && task !in s.confirms
             && s.now < s.tokens[jti].claims.exp as real
    ensures Behaviour(cfg, states', actions')
    ensures actions' == actions + [Confirm(task, CheckToken(jti, true)), Confirm(task, ComputeTtl),
                                   Confirm(task, Reserve(false)), Confirm(task, UpdateReply(Some(200)))]
    ensures var s, claims := states[|actions|], states[|actions|].tokens[jti].claims;
            states'[|actions'|].trace == s.trace + [Called(task, claims, s.now, true), Acked(task, claims, true)]
  {
    var s, claims := states[|actions|], states[|actions|].tokens[jti].claims;
    NoTokenIsAdmins(cfg, states, actions, |actions|, jti);
    states', actions' := Extend(cfg, states, actions, Confirm(task, CheckToken(jti, true)));
    assert states'[|actions'|] == s.(confirms := s.confirms[task := Checked(claims, s.now)]);
    states', actions' := Extend(cfg, states', actions', Confirm(task, ComputeTtl));
    states', actions' := CallIsAcknowledged(cfg, states', actions', task);
  }

  lemma {:induction false} CallIsAcknowledged(cfg: Config, states: seq<State>, actions: seq<Action>, task: nat)
    returns (states': seq<State>, actions': seq<Action>)
    requires Behaviour(cfg, states, actions)
    requires var s := states[|actions|];
             && task in s.confirms && s.confirms[task].Timed?
             && s.confirms[task].claims.jti !in s.reservations && s.now < s.confirms[task].claims.exp as real
    ensures Behaviour(cfg, states', actions')
    ensures actions' == actions + [Confirm(task, Reserve(false)), Confirm(task, UpdateReply(Some(200)))]
    ensures var s, p := states[|actions|], states[|actions|].confirms[task];
            states'[|actions'|].trace
            == s.trace + [Called(task, p.claims, p.checkedAt, true), Acked(task, p.claims, true)]
  {
    states', actions' := Extend(cfg, states, actions, Confirm(task, Reserve(false)));
    states', actions' := Extend(cfg, states', actions', Confirm(task, UpdateReply(Some(200))));
  }

  /**
   The way through, from anywhere: while the challenge is usable and a second before its time
   is over, verifying the issued code with an equivalent email, minting, and confirming with a
   strong password leads to an update of exactly the account the start found, and its
   acknowledgement. Whatever anybody else has done so far does not matter.
   */
  lemma {:induction false} IssuedCodeResetsPassword(
      cfg: Config, states: seq<State>, actions: seq<Action>, i: nat, k: nat, email: string,
      task: nat, jti: Jti, confirmer: nat)
    returns (states': seq<State>, actions': seq<Action>, claims: Claims)
    requires Behaviour(cfg, states, actions) && i < |actions| && actions[i].Start? && cfg.tokenTtl >= 1
    requires OnlyNonAdmin(actions[i].identities, k)
    requires cfg.normalize(email) == cfg.normalize(actions[i].identities[k].email)
    requires var s := states[|actions|];
             && StillUsable(cfg, s.trace, |states[i].trace|) && s.now <= actions[i].readAt + cfg.ttl as real - 1.0
             && task !in s.pending && jti !in s.tokens && confirmer !in s.confirms
    ensures Behaviour(cfg, states', actions')
    ensures actions' == actions + [
              Verify(task, actions[i].cid, email, actions[i].code, states[|actions|].now), Mint(task, jti),
              Confirm(confirmer, CheckToken(jti, true)), Confirm(confirmer, ComputeTtl),
              Confirm(confirmer, Reserve(false)), Confirm(confirmer, UpdateReply(Some(200)))]
    ensures var trace := states'[|actions'|].trace;
            && |trace| >= 2 && trace[|trace| - 1] == Acked(confirmer, claims, true)
            && trace[|trace| - 2] == Called(confirmer, claims, states[|actions|].now, true)
    ensures claims.account == actions[i].identities[k].account && claims.email == cfg.normalize(email)
    ensures claims.jti == jti
  {
    var s := states[|actions|];
    ReservedAreMinted(cfg, states, actions, |actions|);
    states', actions' := TokenForIssuedCode(cfg, states, actions, i, k, email, task, jti);
    claims := states'[|actions'|].tokens[jti].claims;
    states', actions' := ConfirmationGoesThrough(cfg, states', actions', confirmer, jti);
  }

  lemma {:induction false} TokenForIssuedCode(
      cfg: Config, states: seq<State>, actions: seq<Action>, i: nat, k: nat, email: string, task: nat, jti: Jti)
    returns (states': seq<State>, actions': seq<Action>)
    requires Behaviour(cfg, states, actions) && i < |actions| && actions[i].Start?
    requires OnlyNonAdmin(actions[i].identities, k)
    requires cfg.normalize(email) == cfg.normalize(actions[i].identities[k].email)
    requires var s := states[|actions|];
             && StillUsable(cfg, s.trace, |states[i].trace|) && s.now <= actions[i].readAt + cfg.ttl as real - 1.0
             && task !in s.pending && jti !in s.tokens
    ensures Behaviour(cfg, states', actions')
    ensures actions' == actions + [
              Verify(task, actions[i].cid, email, actions[i].code, states[|actions|].now), Mint(task, jti)]
    ensures var s, s' := states[|actions|], states'[|actions'|];
            && s'.now == s.now && s'.confirms == s.confirms && s'.reservations == s.reservations
            && jti in s'.tokens
            && s'.tokens[jti].claims == Claims(cfg.normalize(email), actions[i].identities[k].account, jti,
                                               s.now.Floor, s.now.Floor + cfg.tokenTtl)
  {
    var s := states[|actions|];
    AcceptedUntilTtl(cfg, states, actions, i, |actions|, k, email);
    states', actions' := Extend(cfg, states, actions, Verify(task, actions[i].cid, email, actions[i].code, s.now));
    states', actions' := Extend(cfg, states', actions', Mint(task, jti));
  }
}
