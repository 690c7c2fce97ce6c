/** What every action of the protocol keeps. Each part speaks of the fields it needs only. */
module ResetInvariant {
  import opened Wrappers
  import opened ChallengeSpec
  import opened Reservations
  import opened ResetProtocol
  import opened ResetHistory

  /** The store holds exactly the open challenges, each with the count the history gives it. */
  ghost predicate StoreInv(challenges: map<string, Record>, trace: seq<Event>, max: int) {
    forall cid: string :: InStep(StandingAt(trace, |trace|, cid, max), cid, Lookup(challenges, cid))
  }

  /** What is stored for a challenge of this standing: its record while it is open, nothing otherwise. */
  ghost predicate InStep(standing: Standing, cid: string, stored: Option<Record>) {
    match standing
    case Open(issue, failures) => stored == Some(RecordOf(cid, issue, failures))
    case _ => stored == None
  }

  /** Every verification so far answered what the history rules. */
  ghost predicate VerdictInv(trace: seq<Event>, max: int) {
    && (forall k :: 0 <= k < |trace| && trace[k].Judged? ==>
          Answers(trace[k].verdict, RulingAt(trace, k, max), trace[k].cid))
    && (forall k :: 0 <= k < |trace| && trace[k].Probed? ==>
          (trace[k].removed <==> Exhausts(StandingAt(trace, k, trace[k].cid, max), trace[k].readAt, max)))
  }

  /** The start found this identity, alone but for administrators', and issued a code for its email and account. */
  ghost predicate FoundFor(e: Event, i: nat, normalize: string -> string)
    requires e.Started?
  {
    OnlyNonAdmin(e.identities, i) && e.identities[i].account == e.account && normalize(e.identities[i].email) == e.email
  }

  ghost predicate IsGenuineStart(e: Event, normalize: string -> string) {
    e.Started? ==> ':' !in e.cid && ':' !in e.code && exists i: nat :: FoundFor(e, i, normalize)
  }

  ghost predicate StartedBefore(trace: seq<Event>, k: nat, cid: string)
    requires k <= |trace|
  {
    exists j :: 0 <= j < k && trace[j].Started? && trace[j].cid == cid
  }

  ghost predicate StartInv(trace: seq<Event>, normalize: string -> string) {
    && StartsAreFresh(trace)
    && (forall k :: 0 <= k < |trace| ==> IsGenuineStart(trace[k], normalize))
    && (forall k :: 0 <= k < |trace| && trace[k].DeliveryFailed? ==> StartedBefore(trace, k, trace[k].cid))
  }

  /** A challenge lapses, or is seen to have expired, only when the clock has reached its expiry. */
  ghost predicate ClockInv(trace: seq<Event>, now: real) {
    forall k :: 0 <= k < |trace| ==>
      && (trace[k].Judged? || trace[k].Probed? ==> trace[k].readAt <= now)
      && (trace[k].Lapsed? ==> trace[k].at <= now)
  }

  ghost predicate LapseInv(trace: seq<Event>, max: int) {
    forall k :: 0 <= k < |trace| && trace[k].Lapsed? ==>
      var standing := StandingAt(trace, k, trace[k].cid, max);
      standing.Open? && standing.issue.expiresAt <= Seconds(trace[k].at)
  }

  ghost predicate SucceededAt(trace: seq<Event>, k: nat, record: Record) {
    k < |trace| && trace[k].Judged? && trace[k].verdict == Verified(record)
  }

  /** A pending verification and a token each stem from a successful verification of their own. */
  ghost predicate PendingInv(pending: map<nat, Pending>, trace: seq<Event>) {
    && (forall t :: t in pending ==> SucceededAt(trace, pending[t].judged, pending[t].record))
    && (forall t, u :: t in pending && u in pending && t != u ==> pending[t].judged != pending[u].judged)
  }

  ghost predicate IsToken(jti: Jti, token: Token, trace: seq<Event>) {
    && token.minted < |trace| && trace[token.minted].Minted? && trace[token.minted].claims == token.claims
    && token.claims.jti == jti
    && trace[token.minted].judged < token.minted
    && var e := trace[trace[token.minted].judged];
       && e.Judged? && e.verdict.Verified?
       && e.verdict.record.email == Some(token.claims.email) && e.verdict.record.account == Some(token.claims.account)
  }

  ghost predicate TokenInv(tokens: map<Jti, Token>, trace: seq<Event>) {
    forall j :: j in tokens ==> IsToken(j, tokens[j], trace)
  }

  ghost predicate OwnOrigins(pending: map<nat, Pending>, tokens: map<Jti, Token>, trace: seq<Event>)
    requires TokenInv(tokens, trace)
  {
    && (forall t, j :: t in pending && j in tokens ==> pending[t].judged != trace[tokens[j].minted].judged)
    && (forall i, j :: i in tokens && j in tokens && i != j ==>
          trace[tokens[i].minted].judged != trace[tokens[j].minted].judged)
  }

  ghost predicate IssuedClaims(claims: Claims, tokens: map<Jti, Token>) {
    claims.jti in tokens && tokens[claims.jti].claims == claims
  }

  /** No two mintings share an id. */
  ghost predicate MintInv(tokens: map<Jti, Token>, trace: seq<Event>) {
    forall m :: 0 <= m < |trace| && trace[m].Minted? ==>
      trace[m].claims.jti in tokens && tokens[trace[m].claims.jti] == Token(trace[m].claims, m)
  }

  ghost predicate PhaseInv(p: Phase, tokens: map<Jti, Token>, now: real) {
    && IssuedClaims(p.claims, tokens)
    && (p.Checked? || p.Timed? || p.Calling? ==> p.claims.account.accountType != Admin)
    && (p.Checked? || p.Timed? ==> p.checkedAt <= now && p.checkedAt < p.claims.exp as real)
    && (p.Timed? ==> p.ttl >= 1 && p.ttl >= p.claims.exp - Seconds(now))
    && (InFlight(p) && !p.timely ==> now >= p.claims.exp as real)
  }

  ghost predicate ConfirmInv(confirms: map<nat, Phase>, tokens: map<Jti, Token>, now: real) {
    forall t :: t in confirms ==> PhaseInv(confirms[t], tokens, now)
  }

  predicate InFlight(p: Phase) {
    p.Calling? || p.CallFailed? || p.Acknowledged? || p.Abandoned?
  }

  /** Made its reservation before the token's expiry, and has not given it back. */
  predicate Holds(p: Phase) {
    InFlight(p) && p.timely
  }

  /** Until the token's expiry its reservation stands. */
  ghost predicate Secured(claims: Claims, reservations: map<Jti, real>, now: real) {
    now < claims.exp as real ==> claims.jti in reservations && reservations[claims.jti] >= claims.exp as real
  }

  /** At most one confirmation holds an id, and its reservation stands. */
  ghost predicate HoldInv(confirms: map<nat, Phase>, reservations: map<Jti, real>, now: real) {
    && (forall t, u :: t in confirms && u in confirms && t != u && Holds(confirms[t]) && Holds(confirms[u]) ==>
          confirms[t].claims.jti != confirms[u].claims.jti)
    && (forall t :: t in confirms && Holds(confirms[t]) ==> Secured(confirms[t].claims, reservations, now))
  }

  ghost predicate IsCall(e: Event, i: nat, tokens: map<Jti, Token>) {
    e.Called? ==>
      && IssuedClaims(e.claims, tokens) && tokens[e.claims.jti].minted < i
      && e.claims.account.accountType != Admin && e.checkedAt < e.claims.exp as real
  }

  ghost predicate CallInv(tokens: map<Jti, Token>, trace: seq<Event>) {
    forall i :: 0 <= i < |trace| ==> IsCall(trace[i], i, tokens)
  }

  ghost predicate IsAck(e: Event, confirms: map<nat, Phase>) {
    e.Acked? ==> e.task in confirms && confirms[e.task] == Acknowledged(e.claims, e.timely)
  }

  ghost predicate AckInv(confirms: map<nat, Phase>, trace: seq<Event>) {
    && (forall i :: 0 <= i < |trace| ==> IsAck(trace[i], confirms))
    && (forall i, j :: 0 <= i < j < |trace| && trace[i].Acked? && trace[j].Acked? ==> trace[i].task != trace[j].task)
  }

  ghost predicate Inv(s: State, cfg: Config) {
    && ChallengeInv(s.challenges, s.trace, s.now, cfg)
    && PendingInv(s.pending, s.trace)
    && TokenInv(s.tokens, s.trace)
    && OwnOrigins(s.pending, s.tokens, s.trace)
    && MintInv(s.tokens, s.trace)
    && ConfirmInv(s.confirms, s.tokens, s.now)
    && HoldInv(s.confirms, s.reservations, s.now)
    && CallInv(s.tokens, s.trace)
    && AckInv(s.confirms, s.trace)
  }

  // ---------------------------------------------------------------- challenges

  ghost predicate ChallengeInv(challenges: map<string, Record>, trace: seq<Event>, now: real, cfg: Config) {
    && StoreInv(challenges, trace, cfg.maxAttempts) && VerdictInv(trace, cfg.maxAttempts)
    && StartInv(trace, cfg.normalize) && ClockInv(trace, now) && LapseInv(trace, cfg.maxAttempts)
  }

  /** An event that does not concern a challenge leaves the histories as they were. */
  lemma {:induction false} QuietEvent(
      challenges: map<string, Record>, trace: seq<Event>, e: Event, now: real, cfg: Config)
    requires ChallengeInv(challenges, trace, now, cfg)
    requires e.Minted? || e.Called? || e.Acked?
    ensures ChallengeInv(challenges, trace + [e], now, cfg)
  {
    var max := cfg.maxAttempts;
    HistoryKept(trace, e, max);
    StartsKept(trace, e, cfg.normalize);
    forall cid: string
      ensures StandingAt(trace + [e], |trace| + 1, cid, max) == StandingAt(trace, |trace|, cid, max)
    {
      StandingAppend(trace, e, cid, max);
    }
  }

  lemma {:induction false} StartsKept(trace: seq<Event>, e: Event, normalize: string -> string)
    requires StartInv(trace, normalize) && IsGenuineStart(e, normalize)
    requires e.Started? ==> !HasStarted(trace, e.cid)
    requires e.DeliveryFailed? ==> HasStarted(trace, e.cid)
    ensures StartInv(trace + [e], normalize)
  {
    var trace' := trace + [e];
    forall k | 0 <= k < |trace'| && trace'[k].DeliveryFailed?
      ensures StartedBefore(trace', k, trace'[k].cid)
    {
      var j :| 0 <= j < |trace| && j < k && trace[j].Started? && trace[j].cid == trace'[k].cid;
      assert trace'[j] == trace[j];
    }
  }

  /** Earlier verdicts, probes and lapses are not affected by what comes after them. */
  lemma {:induction false} HistoryKept(trace: seq<Event>, e: Event, max: int)
    requires VerdictInv(trace, max) && LapseInv(trace, max)
    ensures forall k :: 0 <= k < |trace| && trace[k].Judged? ==>
              Answers((trace + [e])[k].verdict, RulingAt(trace + [e], k, max), (trace + [e])[k].cid)
    ensures forall k :: 0 <= k < |trace| && trace[k].Probed? ==>
              (trace[k].removed <==> Exhausts(StandingAt(trace + [e], k, trace[k].cid, max), trace[k].readAt, max))
    ensures forall k :: 0 <= k < |trace| && trace[k].Lapsed? ==>
              var standing := StandingAt(trace + [e], k, trace[k].cid, max);
              standing.Open? && standing.issue.expiresAt <= Seconds(trace[k].at)
  {
    forall k | 0 <= k < |trace| && (trace[k].Judged? || trace[k].Probed? || trace[k].Lapsed?)
      ensures StandingAt(trace + [e], k, trace[k].cid, max) == StandingAt(trace, k, trace[k].cid, max)
    {
      StandingPrefix(trace, e, k, trace[k].cid, max);
    }
  }

  /** A challenge event at `cid` keeps the store in step when the slot follows the history. */
  lemma {:induction false} SlotFollows(
      challenges: map<string, Record>, challenges': map<string, Record>, trace: seq<Event>, e: Event,
      cid: string, max: int)
    requires StoreInv(challenges, trace, max) && Concerns(e, cid)
    requires forall c :: c != cid ==> Lookup(challenges', c) == Lookup(challenges, c)
    requires InStep(Next(StandingAt(trace, |trace|, cid, max), |trace|, e, max), cid, Lookup(challenges', cid))
    ensures StoreInv(challenges', trace + [e], max)
  {
    forall c: string
      ensures InStep(StandingAt(trace + [e], |trace| + 1, c, max), c, Lookup(challenges', c))
    {
      StandingAppend(trace, e, c, max);
      if c != cid {
        assert !Concerns(e, c);
      }
    }
  }

  lemma {:induction false} StartKeepsChallenges(cfg: Config, s: State, a: Action)
    requires a.Start? && Enabled(s, a) && ChallengeInv(s.challenges, s.trace, s.now, cfg)
    ensures var s' := Apply(cfg, s, a); ChallengeInv(s'.challenges, s'.trace, s'.now, cfg)
  {
    var s' := Apply(cfg, s, a);
    var found := Resettable(a.identities);
    if |found| == 1 {
      var e := s'.trace[|s.trace|];
      HistoryKept(s.trace, e, cfg.maxAttempts);
      SlotFollows(s.challenges, s'.challenges, s.trace, e, a.cid, cfg.maxAttempts);
      var i := ResettableIsOnlyNonAdmin(a.identities);
      assert FoundFor(e, i, cfg.normalize);
      StartsKept(s.trace, e, cfg.normalize);
    }
  }

  lemma {:induction false} RemovalKeepsChallenges(cfg: Config, s: State, a: Action)
    requires (a.FailDelivery? || a.LapseChallenge?) && Enabled(s, a)
    requires ChallengeInv(s.challenges, s.trace, s.now, cfg)
    ensures var s' := Apply(cfg, s, a); ChallengeInv(s'.challenges, s'.trace, s'.now, cfg)
  {
    var s' := Apply(cfg, s, a);
    var e := s'.trace[|s.trace|];
    HistoryKept(s.trace, e, cfg.maxAttempts);
    StartsKept(s.trace, e, cfg.normalize);
    SlotFollows(s.challenges, s'.challenges, s.trace, e, a.cid, cfg.maxAttempts);
    StandingPrefix(s.trace, e, |s.trace|, a.cid, cfg.maxAttempts);
  }

  /** A login verification under a challenge's key does to its record what the history says. */
  lemma {:induction false} ProbeFollowsHistory(cfg: Config, s: State, cid: string, readAt: real)
    requires StoreInv(s.challenges, s.trace, cfg.maxAttempts) && cfg.maxAttempts >= 1
    ensures var (left, removed) := Probe(Lookup(s.challenges, cid), readAt, cfg.maxAttempts);
            var standing := StandingAt(s.trace, |s.trace|, cid, cfg.maxAttempts);
            && (removed <==> Exhausts(standing, readAt, cfg.maxAttempts))
            && InStep(Next(standing, |s.trace|, Probed(cid, readAt, removed), cfg.maxAttempts), cid, left)
  {
    var standing := StandingAt(s.trace, |s.trace|, cid, cfg.maxAttempts);
    assert InStep(standing, cid, Lookup(s.challenges, cid));
  }

  lemma {:induction false} ProbeKeepsChallenges(cfg: Config, s: State, a: Action)
    requires a.MarkedLogin? && Enabled(s, a) && cfg.maxAttempts >= 1
    requires ChallengeInv(s.challenges, s.trace, s.now, cfg)
    ensures var s' := Apply(cfg, s, a); ChallengeInv(s'.challenges, s'.trace, s'.now, cfg)
  {
    var s' := Apply(cfg, s, a);
    var e := s'.trace[|s.trace|];
    ProbeFollowsHistory(cfg, s, a.cid, a.readAt);
    HistoryKept(s.trace, e, cfg.maxAttempts);
    StartsKept(s.trace, e, cfg.normalize);
    SlotFollows(s.challenges, s'.challenges, s.trace, e, a.cid, cfg.maxAttempts);
    StandingPrefix(s.trace, e, |s.trace|, a.cid, cfg.maxAttempts);
  }

  /** On an open challenge's record the script decides as the locked branch would, and as the history rules. */
  lemma {:induction false} JudgeIsRuling(
      cid: string, issue: Issue, failures: nat, email: string, code: string, readAt: real, max: int, i: nat)
    requires failures < max
    ensures var record := RecordOf(cid, issue, failures);
            var (left, verdict) := Judge(Some(record), email, CodeDigest(cid, code), Seconds(readAt), max);
            && Answers(verdict, Rule(Open(issue, failures), email, code, readAt, max), cid)
            && InStep(Next(Open(issue, failures), i, Judged(cid, email, code, readAt, verdict), max), cid, left)
  {
    SameOnWholeNumbers(RecordOf(cid, issue, failures), email, CodeDigest(cid, code), readAt, max);
    DigestDecidesCode(cid, issue.code, code);
  }

  /** The decision about the stored record is the ruling of the history. */
  lemma {:induction false} DecisionIsRuling(
      cfg: Config, s: State, cid: string, email: string, code: string, readAt: real)
    requires StoreInv(s.challenges, s.trace, cfg.maxAttempts) && cfg.maxAttempts >= 1
    ensures var (left, verdict) := Decision(cfg, s, cid, email, code, readAt);
            var standing := StandingAt(s.trace, |s.trace|, cid, cfg.maxAttempts);
            var e := Judged(cid, cfg.normalize(email), code, readAt, verdict);
            && Answers(verdict, Rule(standing, cfg.normalize(email), code, readAt, cfg.maxAttempts), cid)
            && InStep(Next(standing, |s.trace|, e, cfg.maxAttempts), cid, left)
  {
    var standing := StandingAt(s.trace, |s.trace|, cid, cfg.maxAttempts);
    assert InStep(standing, cid, Lookup(s.challenges, cid));
    if standing.Open? {
      OpenWasStarted(s.trace, |s.trace|, cid, cfg.maxAttempts);
      JudgeIsRuling(cid, standing.issue, standing.failures, cfg.normalize(email), code, readAt,
                    cfg.maxAttempts, |s.trace|);
    }
  }

  lemma {:induction false} VerifyKeepsChallenges(cfg: Config, s: State, a: Action)
    requires a.Verify? && Enabled(s, a) && ChallengeInv(s.challenges, s.trace, s.now, cfg) && cfg.maxAttempts >= 1
    ensures var s' := Apply(cfg, s, a); ChallengeInv(s'.challenges, s'.trace, s'.now, cfg)
  {
    var s' := Apply(cfg, s, a);
    var e := s'.trace[|s.trace|];
    DecisionIsRuling(cfg, s, a.cid, a.email, a.code, a.readAt);
    HistoryKept(s.trace, e, cfg.maxAttempts);
    StartsKept(s.trace, e, cfg.normalize);
    SlotFollows(s.challenges, s'.challenges, s.trace, e, a.cid, cfg.maxAttempts);
    StandingPrefix(s.trace, e, |s.trace|, a.cid, cfg.maxAttempts);
  }

  lemma {:induction false} ChallengesKept(cfg: Config, s: State, a: Action)
    requires Enabled(s, a) && cfg.maxAttempts >= 1 && ChallengeInv(s.challenges, s.trace, s.now, cfg)
    ensures var s' := Apply(cfg, s, a); ChallengeInv(s'.challenges, s'.trace, s'.now, cfg)
  {
    var s' := Apply(cfg, s, a);
    if a.Start? {
      StartKeepsChallenges(cfg, s, a);
    } else if a.FailDelivery? || a.LapseChallenge? {
      RemovalKeepsChallenges(cfg, s, a);
    } else if a.MarkedLogin? {
      ProbeKeepsChallenges(cfg, s, a);
    } else if a.Verify? {
      VerifyKeepsChallenges(cfg, s, a);
    } else if s'.trace != s.trace {
      assert a.Confirm? ==> |StepEffect(s, a.task, a.step).events| <= 1;
      assert s'.trace == s.trace + [s'.trace[|s.trace|]];
      QuietEvent(s.challenges, s.trace, s'.trace[|s.trace|], s.now, cfg);
    }
  }

  // ---------------------------------------------------------------- tokens

  ghost predicate OriginInv(pending: map<nat, Pending>, tokens: map<Jti, Token>, trace: seq<Event>) {
    PendingInv(pending, trace) && TokenInv(tokens, trace) && OwnOrigins(pending, tokens, trace)
  }

  lemma {:induction false} OriginsSurvive(
      pending: map<nat, Pending>, tokens: map<Jti, Token>, trace: seq<Event>, e: Event)
    requires OriginInv(pending, tokens, trace)
    ensures OriginInv(pending, tokens, trace + [e])
  {
  }

  /** Minting turns the pending verification of `task` into the token `jti`. */
  lemma {:induction false} MintMovesOrigin(
      pending: map<nat, Pending>, tokens: map<Jti, Token>, trace: seq<Event>, task: nat, jti: Jti, token: Token)
    requires OriginInv(pending, tokens, trace) && task in pending && jti !in tokens
    requires IsToken(jti, token, trace) && trace[token.minted].judged == pending[task].judged
    ensures OriginInv(pending - {task}, tokens[jti := token], trace)
  {
    var pending', tokens' := pending - {task}, tokens[jti := token];
    forall j | j in tokens'
      ensures IsToken(j, tokens'[j], trace)
    {
      if j != jti {
        assert IsToken(j, tokens[j], trace);
      }
    }
    forall i, j | i in tokens' && j in tokens' && i != j
      ensures trace[tokens'[i].minted].judged != trace[tokens'[j].minted].judged
    {
      if i == jti {
        assert tokens'[j] == tokens[j];
      } else if j == jti {
        assert tokens'[i] == tokens[i];
      }
    }
  }

  lemma {:induction false} MintKeepsOrigins(cfg: Config, s: State, a: Action)
    requires a.Mint? && Enabled(s, a) && OriginInv(s.pending, s.tokens, s.trace)
    ensures var s' := Apply(cfg, s, a); OriginInv(s'.pending, s'.tokens, s'.trace)
  {
    var s' := Apply(cfg, s, a);
    OriginsSurvive(s.pending, s.tokens, s.trace, s'.trace[|s.trace|]);
    assert SucceededAt(s.trace, s.pending[a.task].judged, s.pending[a.task].record);
    MintMovesOrigin(s.pending, s.tokens, s'.trace, a.task, a.jti, s'.tokens[a.jti]);
  }

  /** A success that nobody has turned into a pending verification or a token yet becomes one. */
  lemma {:induction false} VerifyAddsOrigin(
      pending: map<nat, Pending>, tokens: map<Jti, Token>, trace: seq<Event>, e: Event, task: nat)
    requires OriginInv(pending, tokens, trace) && e.Judged? && e.verdict.Verified?
    ensures OriginInv(pending[task := Pending(e.verdict.record, |trace|)], tokens, trace + [e])
  {
    OriginsSurvive(pending, tokens, trace, e);
    var pending' := pending[task := Pending(e.verdict.record, |trace|)];
    forall t, j | t in pending' && j in tokens
      ensures pending'[t].judged != (trace + [e])[tokens[j].minted].judged
    {
      assert IsToken(j, tokens[j], trace);
      assert t != task ==> t in pending;
    }
    forall t | t in pending'
      ensures SucceededAt(trace + [e], pending'[t].judged, pending'[t].record)
    {
      assert t != task ==> SucceededAt(trace, pending[t].judged, pending[t].record);
    }
    forall t | t in pending
      ensures pending[t].judged < |trace|
    {
      assert SucceededAt(trace, pending[t].judged, pending[t].record);
    }
  }

  lemma {:induction false} VerifyKeepsOrigins(cfg: Config, s: State, a: Action)
    requires a.Verify? && Enabled(s, a) && OriginInv(s.pending, s.tokens, s.trace)
    ensures var s' := Apply(cfg, s, a); OriginInv(s'.pending, s'.tokens, s'.trace)
  {
    var (left, verdict) := Decision(cfg, s, a.cid, a.email, a.code, a.readAt);
    var e := Judged(a.cid, cfg.normalize(a.email), a.code, a.readAt, verdict);
    if verdict.Verified? {
      VerifyAddsOrigin(s.pending, s.tokens, s.trace, e, a.task);
    } else {
      OriginsSurvive(s.pending, s.tokens, s.trace, e);
    }
  }

  lemma {:induction false} OriginsKept(cfg: Config, s: State, a: Action)
    requires Enabled(s, a) && OriginInv(s.pending, s.tokens, s.trace)
    ensures var s' := Apply(cfg, s, a); OriginInv(s'.pending, s'.tokens, s'.trace)
  {
    var s' := Apply(cfg, s, a);
    if a.Mint? {
      MintKeepsOrigins(cfg, s, a);
    } else if a.Verify? {
      VerifyKeepsOrigins(cfg, s, a);
    } else if s'.trace != s.trace {
      assert a.Confirm? ==> |StepEffect(s, a.task, a.step).events| <= 1;
      assert s'.trace == s.trace + [s'.trace[|s.trace|]];
      OriginsSurvive(s.pending, s.tokens, s.trace, s'.trace[|s.trace|]);
    }
  }

  lemma {:induction false} MintsKept(cfg: Config, s: State, a: Action)
    requires Enabled(s, a) && MintInv(s.tokens, s.trace)
    ensures var s' := Apply(cfg, s, a); MintInv(s'.tokens, s'.trace)
  {
  }

  // ---------------------------------------------------------------- confirmations

  lemma {:induction false} PhasesSurvive(
      confirms: map<nat, Phase>, tokens: map<Jti, Token>, tokens': map<Jti, Token>, now: real, now': real)
    requires ConfirmInv(confirms, tokens, now) && now <= now'
    requires forall j :: j in tokens ==> j in tokens' && tokens'[j] == tokens[j]
    ensures ConfirmInv(confirms, tokens', now')
  {
  }

  lemma {:induction false} ReservedPhase(s: State, task: nat, replyLost: bool, outcome: (map<Jti, real>, bool))
    requires task in s.confirms && s.confirms[task].Timed? && PhaseInv(s.confirms[task], s.tokens, s.now)
    ensures PhaseInv(ReserveEffect(s, task, replyLost, outcome).phase, s.tokens, s.now)
  {
  }

  lemma {:induction false} TimedPhase(p: Phase, tokens: map<Jti, Token>, now: real)
    requires p.Checked? && PhaseInv(p, tokens, now)
    ensures PhaseInv(Timed(p.claims, p.checkedAt, RemainingTtl(p.claims.exp, now)), tokens, now)
  {
  }

  /** The next phase of a confirmation is sound. */
  lemma {:induction false} NextPhase(s: State, task: nat, step: ConfirmStep)
    requires StepEnabled(s, task, step) && TokenInv(s.tokens, s.trace) && ConfirmInv(s.confirms, s.tokens, s.now)
    ensures PhaseInv(StepEffect(s, task, step).phase, s.tokens, s.now)
  {
    if step.CheckToken? {
      assert IsToken(step.jti, s.tokens[step.jti], s.trace);
    } else if step.Reserve? {
      assert PhaseInv(s.confirms[task], s.tokens, s.now);
      var Timed(claims, _, ttl) := s.confirms[task];
      ReservedPhase(s, task, step.replyLost, RedisReserve(s.reservations, claims.jti, ttl, s.now));
    } else if step.ComputeTtl? {
      assert PhaseInv(s.confirms[task], s.tokens, s.now);
      TimedPhase(s.confirms[task], s.tokens, s.now);
    } else {
      assert PhaseInv(s.confirms[task], s.tokens, s.now);
    }
  }

  lemma {:induction false} ConfirmsKept(cfg: Config, s: State, a: Action)
    requires Enabled(s, a) && TokenInv(s.tokens, s.trace) && ConfirmInv(s.confirms, s.tokens, s.now)
    ensures var s' := Apply(cfg, s, a); ConfirmInv(s'.confirms, s'.tokens, s'.now)
  {
    var s' := Apply(cfg, s, a);
    if a.Confirm? {
      NextPhase(s, a.task, a.step);
    } else {
      PhasesSurvive(s.confirms, s.tokens, s'.tokens, s.now, s'.now);
    }
  }

  lemma {:induction false} SameClaims(confirms: map<nat, Phase>, tokens: map<Jti, Token>, now: real, t: nat, u: nat)
    requires ConfirmInv(confirms, tokens, now) && t in confirms && u in confirms
    requires confirms[t].claims.jti == confirms[u].claims.jti
    ensures confirms[t].claims == confirms[u].claims
  {
  }

  /** A change of phase that gives nobody a new hold keeps the holds. */
  lemma {:induction false} PhaseKeepsHolds(
      confirms: map<nat, Phase>, task: nat, p: Phase, reservations: map<Jti, real>, now: real)
    requires HoldInv(confirms, reservations, now)
    requires Holds(p) ==> task in confirms && Holds(confirms[task]) && confirms[task].claims == p.claims
    ensures HoldInv(confirms[task := p], reservations, now)
  {
  }

  /**
   A successful reservation before the token's expiry finds no holder: a holder's
   reservation would still stand, and would have refused it.
   */
  lemma {:induction false} ReserveKeepsHolds(
      confirms: map<nat, Phase>, tokens: map<Jti, Token>, task: nat, p: Phase, reservations: map<Jti, real>, now: real)
    requires ConfirmInv(confirms, tokens, now) && HoldInv(confirms, reservations, now)
    requires task in confirms && confirms[task].Timed? && InFlight(p) && p.claims == confirms[task].claims
    requires p.timely <==> now < p.claims.exp as real
    requires RedisReserve(reservations, p.claims.jti, confirms[task].ttl, now).1
    ensures HoldInv(confirms[task := p], RedisReserve(reservations, p.claims.jti, confirms[task].ttl, now).0, now)
  {
    var claims := p.claims;
    var reservations' := RedisReserve(reservations, claims.jti, confirms[task].ttl, now).0;
    var after := confirms[task := p];
    assert PhaseInv(confirms[task], tokens, now);
    forall u | u in confirms && Holds(confirms[u]) && confirms[u].claims.jti == claims.jti
      ensures now >= claims.exp as real
    {
      SameClaims(confirms, tokens, now, u, task);
      assert Secured(confirms[u].claims, reservations, now);
    }
    forall t | t in after && Holds(after[t])
      ensures Secured(after[t].claims, reservations', now)
    {
      if t != task {
        assert Secured(confirms[t].claims, reservations, now);
        if confirms[t].claims.jti == claims.jti {
          SameClaims(confirms, tokens, now, t, task);
        }
      }
    }
  }

  /** A release before the token's expiry gives back the releaser's own reservation. */
  lemma {:induction false} ReleaseKeepsHolds(
      confirms: map<nat, Phase>, tokens: map<Jti, Token>, task: nat, reservations: map<Jti, real>, now: real)
    requires ConfirmInv(confirms, tokens, now) && HoldInv(confirms, reservations, now)
    requires task in confirms && confirms[task].CallFailed?
    ensures var claims := confirms[task].claims;
            HoldInv(confirms[task := Released(claims)], Release(reservations, claims.jti), now)
  {
    var claims := confirms[task].claims;
    var after := confirms[task := Released(claims)];
    assert PhaseInv(confirms[task], tokens, now);
    forall t | t in after && Holds(after[t])
      ensures Secured(after[t].claims, Release(reservations, claims.jti), now)
    {
      assert t != task && Secured(confirms[t].claims, reservations, now);
      if confirms[t].claims.jti == claims.jti {
        SameClaims(confirms, tokens, now, t, task);
        assert !confirms[task].timely;
      }
    }
  }

  lemma {:induction false} ClockKeepsHolds(
      confirms: map<nat, Phase>, reservations: map<Jti, real>, reservations': map<Jti, real>, now: real, now': real)
    requires HoldInv(confirms, reservations, now) && now <= now'
    requires forall j :: j in reservations && reservations[j] > now ==>
               j in reservations' && reservations'[j] == reservations[j]
    ensures HoldInv(confirms, reservations', now')
  {
  }

  lemma {:induction false} StepKeepsHolds(s: State, task: nat, step: ConfirmStep)
    requires StepEnabled(s, task, step)
    requires ConfirmInv(s.confirms, s.tokens, s.now) && HoldInv(s.confirms, s.reservations, s.now)
    ensures var effect := StepEffect(s, task, step);
            HoldInv(s.confirms[task := effect.phase], effect.reservations, s.now)
  {
    var effect := StepEffect(s, task, step);
    match step
    case Reserve(_) =>
      if RedisReserve(s.reservations, s.confirms[task].claims.jti, s.confirms[task].ttl, s.now).1 {
        ReserveKeepsHolds(s.confirms, s.tokens, task, effect.phase, s.reservations, s.now);
      } else {
        PhaseKeepsHolds(s.confirms, task, effect.phase, s.reservations, s.now);
      }
    case ReleaseToken => ReleaseKeepsHolds(s.confirms, s.tokens, task, s.reservations, s.now);
    case _ => PhaseKeepsHolds(s.confirms, task, effect.phase, s.reservations, s.now);
  }

  lemma {:induction false} HoldsKept(cfg: Config, s: State, a: Action)
    requires Enabled(s, a)
    requires ConfirmInv(s.confirms, s.tokens, s.now) && HoldInv(s.confirms, s.reservations, s.now)
    ensures var s' := Apply(cfg, s, a); HoldInv(s'.confirms, s'.reservations, s'.now)
  {
    var s' := Apply(cfg, s, a);
    if a.Confirm? {
      StepKeepsHolds(s, a.task, a.step);
    } else {
      ClockKeepsHolds(s.confirms, s.reservations, s'.reservations, s.now, s'.now);
    }
  }

  lemma {:induction false} CallsSurvive(
      tokens: map<Jti, Token>, tokens': map<Jti, Token>, trace: seq<Event>, more: seq<Event>)
    requires CallInv(tokens, trace)
    requires forall j :: j in tokens ==> j in tokens' && tokens'[j] == tokens[j]
    requires |more| <= 1 && forall i :: 0 <= i < |more| ==> IsCall(more[i], |trace|, tokens')
    ensures CallInv(tokens', trace + more)
  {
  }

  lemma {:induction false} StepCalls(s: State, task: nat, step: ConfirmStep)
    requires StepEnabled(s, task, step) && TokenInv(s.tokens, s.trace) && ConfirmInv(s.confirms, s.tokens, s.now)
    ensures var events := StepEffect(s, task, step).events;
            |events| <= 1 && forall i :: 0 <= i < |events| ==> IsCall(events[i], |s.trace|, s.tokens)
  {
    if step.Reserve? {
      var claims := s.confirms[task].claims;
      assert PhaseInv(s.confirms[task], s.tokens, s.now);
      assert IsToken(claims.jti, s.tokens[claims.jti], s.trace);
    }
  }

  lemma {:induction false} CallsKept(cfg: Config, s: State, a: Action)
    requires Enabled(s, a) && TokenInv(s.tokens, s.trace) && ConfirmInv(s.confirms, s.tokens, s.now)
    requires CallInv(s.tokens, s.trace)
    ensures var s' := Apply(cfg, s, a); CallInv(s'.tokens, s'.trace)
  {
    var s' := Apply(cfg, s, a);
    if a.Confirm? {
      StepCalls(s, a.task, a.step);
      CallsSurvive(s.tokens, s.tokens, s.trace, StepEffect(s, a.task, a.step).events);
    } else {
      var more := if |s'.trace| > |s.trace| then [s'.trace[|s.trace|]] else [];
      assert s'.trace == s.trace + more;
      CallsSurvive(s.tokens, s'.tokens, s.trace, more);
    }
  }

  lemma {:induction false} AcksKept(cfg: Config, s: State, a: Action)
    requires Enabled(s, a) && AckInv(s.confirms, s.trace)
    ensures var s' := Apply(cfg, s, a); AckInv(s'.confirms, s'.trace)
  {
  }

  // ---------------------------------------------------------------- whole runs

  lemma {:induction false} InvKept(cfg: Config, s: State, a: Action)
    requires Enabled(s, a) && cfg.maxAttempts >= 1 && Inv(s, cfg)
    ensures Inv(Apply(cfg, s, a), cfg)
  {
    ChallengesKept(cfg, s, a);
    OriginsKept(cfg, s, a);
    MintsKept(cfg, s, a);
    ConfirmsKept(cfg, s, a);
    HoldsKept(cfg, s, a);
    CallsKept(cfg, s, a);
    AcksKept(cfg, s, a);
  }

  lemma {:induction false} InitInv(cfg: Config, now: real)
    ensures Inv(Init(now), cfg)
  {
    var s := Init(now);
    assert StoreInv(s.challenges, s.trace, cfg.maxAttempts);
  }

  lemma {:induction false} LeadsKeepsInv(cfg: Config, s: State, a: Action, s': State)
    requires cfg.maxAttempts >= 1 && Leads(cfg, s, a, s') && Inv(s, cfg)
    ensures Inv(s', cfg)
  {
    InvKept(cfg, s, a);
  }

  lemma {:induction false} Reachable(cfg: Config, states: seq<State>, actions: seq<Action>, n: nat)
    requires Behaviour(cfg, states, actions) && n < |states|
    ensures Inv(states[n], cfg)
  {
    if n == 0 {
      InitInv(cfg, states[0].now);
    } else {
      var s, s' := states[n - 1], states[n];
      assert Leads(cfg, s, actions[n - 1], s');
      Reachable(cfg, states, actions, n - 1);
      LeadsKeepsInv(cfg, s, actions[n - 1], s');
    }
  }

  lemma {:induction false} ReachedInv(cfg: Config, s: State)
    requires CanReach(cfg, s)
    ensures Inv(s, cfg) && cfg.maxAttempts >= 1
  {
    var states: seq<State>, actions: seq<Action> :| Behaviour(cfg, states, actions) && states[|actions|] == s;
    Reachable(cfg, states, actions, |actions|);
  }

  /** A record as the service issues it: whole numbers, and the digest of its own id with some code. */
  ghost predicate IsGenuine(cid: string, r: Record) {
    && ':' !in cid && r.email.Some? && r.attempts.Int? && r.expiresAt.Int? && r.purpose == Some(RESET_PURPOSE)
    && exists code: string :: ':' !in code && r.codeDigest == Some(CodeDigest(cid, code))
  }

  ghost predicate AllGenuine(challenges: map<string, Record>) {
    forall cid :: cid in challenges ==> IsGenuine(cid, challenges[cid])
  }

  lemma {:induction false} StoredAreGenuine(cfg: Config, s: State)
    requires Inv(s, cfg) && cfg.maxAttempts >= 1
    ensures AllGenuine(s.challenges)
  {
    forall cid | cid in s.challenges
      ensures IsGenuine(cid, s.challenges[cid])
    {
      var standing := StandingAt(s.trace, |s.trace|, cid, cfg.maxAttempts);
      assert InStep(standing, cid, Lookup(s.challenges, cid));
      OpenWasStarted(s.trace, |s.trace|, cid, cfg.maxAttempts);
      assert IsGenuineStart(s.trace[standing.issue.started], cfg.normalize);
    }
  }

  lemma {:induction false} AreGenuine(cfg: Config, s: State)
    requires CanReach(cfg, s)
    ensures AllGenuine(s.challenges)
  {
    ReachedInv(cfg, s);
    StoredAreGenuine(cfg, s);
  }
}
