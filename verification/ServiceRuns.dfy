/**
 The service itself, over a store of its own kind: its clock, the reservations, what its
 requests hold between two steps, and a log of what it did and answered. `Follows` relates it
 to the protocol machine, whose trace shows the log once the lapses are left out.
 */
module ServiceRuns {
  import opened Wrappers
  import opened ChallengeSpec
  import opened Reservations
  import opened ResetProtocol
  import opened ResetHistory
  import opened ResetInvariant

  /** A pending verification knows its position in the log. */
  datatype Service<S> = Service(
    now: real, store: S, reservations: map<Jti, real>, pending: map<nat, Pending>, tokens: map<Jti, Claims>,
    confirms: map<nat, Phase>, log: seq<Event>)

  /** The next step of some request. `L` is what login requests do to the store. */
  datatype Request<L> =
    | Tick(to: real)
    | StartReset(identities: seq<Identity>, cid: string, code: string, readAt: real)
    | DeliveryFails(cid: string)
    | VerifyReset(task: nat, cid: string, email: string, code: string, readAt: real)
    | MintToken(task: nat, jti: Jti)
    | Confirming(task: nat, step: ConfirmStep)
    | LoginRequest(login: L)

  function Fresh<S>(now: real, store: S): Service<S> {
    Service(now, store, map[], map[], map[], map[], [])
  }

  /** What a confirmation step looks at. */
  function View<S>(p: Service<S>): State {
    State(p.now, map[], map[], map jti | jti in p.tokens :: Token(p.tokens[jti], 0), p.reservations, p.confirms, [])
  }

  ghost predicate Allowed<S, L>(p: Service<S>, r: Request<L>) {
    match r
    case Tick(to) => p.now <= to
    case StartReset(_, cid, code, readAt) =>
      !HasStarted(p.log, cid) && ':' !in cid && ':' !in code && readAt <= p.now
    case DeliveryFails(cid) => HasStarted(p.log, cid)
    case VerifyReset(task, _, _, _, readAt) => task !in p.pending && readAt <= p.now
    case MintToken(task, jti) => task in p.pending && jti !in p.tokens && CanMint(p.pending[task].record)
    case Confirming(task, step) => StepEnabled(View(p), task, step)
    case LoginRequest(_) => true
  }

  // ---------------------------------------------------------------- steps, whatever the store

  function AfterVerdict<S>(cfg: Config, p: Service<S>, store: S, verdict: Verdict,
                           task: nat, cid: string, email: string, code: string, readAt: real): Service<S>
  {
    p.(store := store,
       pending := if verdict.Verified? then p.pending[task := Pending(verdict.record, |p.log|)] else p.pending,
       log := p.log + [Judged(cid, cfg.normalize(email), code, readAt, verdict)])
  }

  function AfterMint<S>(cfg: Config, p: Service<S>, task: nat, jti: Jti): Service<S>
    requires task in p.pending && CanMint(p.pending[task].record)
  {
    var claims := ClaimsFor(cfg, p.pending[task].record, jti, p.now);
    p.(pending := p.pending - {task}, tokens := p.tokens[jti := claims],
       log := p.log + [Minted(claims, p.pending[task].judged)])
  }

  function AfterEffect<S>(p: Service<S>, task: nat, effect: Effect): Service<S> {
    p.(confirms := p.confirms[task := effect.phase], reservations := effect.reservations, log := p.log + effect.events)
  }

  // ---------------------------------------------------------------- the relation to the machine

  /** How many of the first `n` events the log shows: all but the lapses. */
  function Seen(trace: seq<Event>, n: nat): nat
    requires n <= |trace|
  {
    if n == 0 then 0 else Seen(trace, n - 1) + if trace[n - 1].Lapsed? then 0 else 1
  }

  /** What the log shows of the event at position `k`: a minting refers to a position in the log. */
  function Show(trace: seq<Event>, k: nat): Event
    requires k < |trace|
  {
    if trace[k].Minted? && trace[k].judged <= k then trace[k].(judged := Seen(trace, trace[k].judged)) else trace[k]
  }

  function Shown(trace: seq<Event>, n: nat): (log: seq<Event>)
    requires n <= |trace|
    ensures |log| == Seen(trace, n)
  {
    if n == 0 then [] else Shown(trace, n - 1) + if trace[n - 1].Lapsed? then [] else [Show(trace, n - 1)]
  }

  function Visible(trace: seq<Event>): seq<Event> {
    Shown(trace, |trace|)
  }

  lemma {:induction false} SeenPrefix(trace: seq<Event>, e: Event, n: nat)
    requires n <= |trace|
    ensures Seen(trace + [e], n) == Seen(trace, n)
  {
    if n > 0 {
      SeenPrefix(trace, e, n - 1);
    }
  }

  lemma {:induction false} ShownPrefix(trace: seq<Event>, e: Event, n: nat)
    requires n <= |trace|
    ensures Shown(trace + [e], n) == Shown(trace, n)
  {
    if n > 0 {
      ShownPrefix(trace, e, n - 1);
      if trace[n - 1].Minted? && trace[n - 1].judged <= n - 1 {
        SeenPrefix(trace, e, trace[n - 1].judged);
      }
    }
  }

  lemma {:induction false} VisibleAppend(trace: seq<Event>, e: Event)
    requires e.Minted? ==> e.judged <= |trace|
    ensures Visible(trace + [e]) == Visible(trace)
            + if e.Lapsed? then [] else if e.Minted? then [e.(judged := Seen(trace, e.judged))] else [e]
    ensures forall k :: 0 <= k <= |trace| ==> Seen(trace + [e], k) == Seen(trace, k)
  {
    ShownPrefix(trace, e, |trace|);
    forall k | 0 <= k <= |trace|
      ensures Seen(trace + [e], k) == Seen(trace, k)
    {
      SeenPrefix(trace, e, k);
    }
  }

  lemma {:induction false} SeenGrows(trace: seq<Event>, k: nat, m: nat)
    requires k <= m <= |trace|
    ensures Seen(trace, k) <= Seen(trace, m)
    ensures k < m && !trace[k].Lapsed? ==> Seen(trace, k) < Seen(trace, m)
    decreases m
  {
    if k < m {
      SeenGrows(trace, k, m - 1);
    }
  }

  /** Where the log shows an event. */
  lemma {:induction false} ShownAt(trace: seq<Event>, k: nat, n: nat)
    requires k < n <= |trace| && !trace[k].Lapsed?
    ensures Seen(trace, k) < |Shown(trace, n)| && Shown(trace, n)[Seen(trace, k)] == Show(trace, k)
    decreases n
  {
    if k < n - 1 {
      ShownAt(trace, k, n - 1);
    }
  }

  /** Every event of the log is shown of one of the trace. */
  lemma {:induction false} Origin(trace: seq<Event>, i: nat, n: nat) returns (k: nat)
    requires n <= |trace| && i < |Shown(trace, n)|
    ensures k < n && !trace[k].Lapsed? && Seen(trace, k) == i && Shown(trace, n)[i] == Show(trace, k)
    decreases n
  {
    if i == Seen(trace, n - 1) {
      k := n - 1;
    } else {
      k := Origin(trace, i, n - 1);
    }
  }

  lemma {:induction false} StartsAreVisible(trace: seq<Event>, cid: string)
    ensures HasStarted(Visible(trace), cid) <==> HasStarted(trace, cid)
  {
    var log := Visible(trace);
    if k :| 0 <= k < |trace| && trace[k].Started? && trace[k].cid == cid {
      ShownAt(trace, k, |trace|);
      assert log[Seen(trace, k)].Started? && log[Seen(trace, k)].cid == cid;
    }
    if i :| 0 <= i < |log| && log[i].Started? && log[i].cid == cid {
      var k := Origin(trace, i, |trace|);
      assert trace[k].Started? && trace[k].cid == cid;
    }
  }

  function PendingShown(trace: seq<Event>, pending: map<nat, Pending>): map<nat, Pending> {
    map t | t in pending ::
      Pending(pending[t].record, if pending[t].judged <= |trace| then Seen(trace, pending[t].judged) else 0)
  }

  function TokenClaims(tokens: map<Jti, Token>): map<Jti, Claims> {
    map j | j in tokens :: tokens[j].claims
  }

  ghost predicate Follows<S>(p: Service<S>, s: State) {
    && p.now == s.now && p.reservations == s.reservations && p.confirms == s.confirms
    && p.pending == PendingShown(s.trace, s.pending) && p.tokens == TokenClaims(s.tokens)
    && p.log == Visible(s.trace)
    && forall t :: t in s.pending ==> s.pending[t].judged <= |s.trace|
  }

  /** The same requests are allowed as actions of the machine are enabled. */
  lemma {:induction false} AllowedIsEnabled<S, L>(p: Service<S>, r: Request<L>, s: State)
    requires Follows(p, s) && Allowed(p, r)
    ensures r.Tick? ==> Enabled(s, Advance(r.to))
    ensures r.StartReset? ==> Enabled(s, Start(r.identities, r.cid, r.code, r.readAt))
    ensures r.DeliveryFails? ==> Enabled(s, FailDelivery(r.cid))
    ensures r.VerifyReset? ==> Enabled(s, Verify(r.task, r.cid, r.email, r.code, r.readAt))
    ensures r.MintToken? ==> Enabled(s, Mint(r.task, r.jti))
    ensures r.Confirming? ==> Enabled(s, Confirm(r.task, r.step))
  {
    if r.StartReset? || r.DeliveryFails? {
      StartsAreVisible(s.trace, r.cid);
    }
  }

  lemma {:induction false} PendingAppend(trace: seq<Event>, e: Event, pending: map<nat, Pending>)
    requires forall t :: t in pending ==> pending[t].judged <= |trace|
    ensures PendingShown(trace + [e], pending) == PendingShown(trace, pending)
  {
    forall t | t in pending
      ensures Seen(trace + [e], pending[t].judged) == Seen(trace, pending[t].judged)
    {
      SeenPrefix(trace, e, pending[t].judged);
    }
  }

  lemma {:induction false} VerdictFollows<S>(
      cfg: Config, p: Service<S>, store: S, verdict: Verdict, s: State,
      task: nat, cid: string, email: string, code: string, readAt: real)
    requires Follows(p, s) && verdict == Decision(cfg, s, cid, email, code, readAt).1
    ensures Follows(AfterVerdict(cfg, p, store, verdict, task, cid, email, code, readAt),
                    DoVerify(cfg, s, task, cid, email, code, readAt))
  {
    var e := Judged(cid, cfg.normalize(email), code, readAt, verdict);
    VisibleAppend(s.trace, e);
    PendingAppend(s.trace, e, s.pending);
    var s' := DoVerify(cfg, s, task, cid, email, code, readAt);
    assert s'.trace == s.trace + [e];
    if verdict.Verified? {
      assert PendingShown(s'.trace, s'.pending)
             == PendingShown(s'.trace, s.pending)[task := Pending(verdict.record, |p.log|)];
    }
  }

  lemma {:induction false} MintFollows<S>(cfg: Config, p: Service<S>, s: State, task: nat, jti: Jti)
    requires Follows(p, s) && task in s.pending && CanMint(s.pending[task].record)
    ensures Follows(AfterMint(cfg, p, task, jti), DoMint(cfg, s, task, jti))
  {
    var e := Minted(ClaimsFor(cfg, s.pending[task].record, jti, s.now), s.pending[task].judged);
    VisibleAppend(s.trace, e);
    PendingAppend(s.trace, e, s.pending - {task});
    assert PendingShown(s.trace, s.pending - {task}) == PendingShown(s.trace, s.pending) - {task};
    assert DoMint(cfg, s, task, jti).trace == s.trace + [e];
  }

  predicate ShowsAll(effect: Effect) {
    || effect.events == []
    || (|effect.events| == 1 && !effect.events[0].Lapsed? && !effect.events[0].Minted?)
  }

  /** A confirmation step depends on what the service and the machine share. */
  lemma {:induction false} SameEffect<S>(p: Service<S>, s: State, task: nat, step: ConfirmStep)
    requires Follows(p, s) && StepEnabled(s, task, step)
    ensures StepEnabled(View(p), task, step) && StepEffect(View(p), task, step) == StepEffect(s, task, step)
    ensures ShowsAll(StepEffect(s, task, step))
  {
    match step
    case CheckToken(jti, strongPassword) =>
      assert View(p).tokens[jti].claims == s.tokens[jti].claims;
    case _ =>
  }

  lemma {:induction false} EffectFollows<S>(p: Service<S>, s: State, task: nat, effect: Effect)
    requires Follows(p, s) && ShowsAll(effect)
    ensures Follows(AfterEffect(p, task, effect), WithEffect(s, task, effect))
  {
    if effect.events == [] {
      assert s.trace + effect.events == s.trace;
    } else {
      assert effect.events == [effect.events[0]];
      VisibleAppend(s.trace, effect.events[0]);
      PendingAppend(s.trace, effect.events[0], s.pending);
    }
  }

  lemma {:induction false} StartIsReached(cfg: Config, now: real)
    requires cfg.maxAttempts >= 1
    ensures CanReach(cfg, Init(now))
  {
    var states, actions: seq<Action> := [Init(now)], [];
    assert Behaviour(cfg, states, actions) && states[|actions|] == Init(now);
  }

  // ---------------------------------------------------------------- lapses

  /** What the machine reaches by letting challenges lapse. */
  ghost predicate LapsedOnly(s: State, s': State) {
    && s' == s.(challenges := s'.challenges, trace := s'.trace)
    && Visible(s'.trace) == Visible(s.trace) && |s.trace| <= |s'.trace|
    && forall k :: 0 <= k <= |s.trace| ==> Seen(s'.trace, k) == Seen(s.trace, k)
  }

  lemma {:induction false} LapseOne(cfg: Config, s: State, cid: string)
    requires CanReach(cfg, s) && Enabled(s, LapseChallenge(cid))
    ensures var s' := Apply(cfg, s, LapseChallenge(cid));
            CanReach(cfg, s') && LapsedOnly(s, s') && s'.challenges == s.challenges - {cid}
  {
    ReachNext(cfg, s, LapseChallenge(cid));
    VisibleAppend(s.trace, Lapsed(cid, s.now));
  }

  lemma {:induction false} LapseChallenges(cfg: Config, s: State, cids: set<string>) returns (s': State)
    requires CanReach(cfg, s)
    requires forall cid :: cid in cids ==> cid in s.challenges && !Alive(s.challenges[cid], s.now)
    ensures CanReach(cfg, s') && LapsedOnly(s, s') && s'.challenges == s.challenges - cids
    decreases cids
  {
    s' := s;
    if cids != {} {
      var cid :| cid in cids;
      var s1 := LapseChallenges(cfg, s, cids - {cid});
      LapseOne(cfg, s1, cid);
      s' := Apply(cfg, s1, LapseChallenge(cid));
      assert s.challenges - cids == s.challenges - (cids - {cid}) - {cid};
    }
  }

  lemma {:induction false} LapseReservations(cfg: Config, s: State, jtis: set<Jti>) returns (s': State)
    requires CanReach(cfg, s)
    requires forall jti :: jti in jtis ==> jti in s.reservations && s.reservations[jti] <= s.now
    ensures CanReach(cfg, s') && s' == s.(reservations := s.reservations - jtis)
    decreases jtis
  {
    s' := s;
    if jtis != {} {
      var jti :| jti in jtis;
      var s1 := LapseReservations(cfg, s, jtis - {jti});
      ReachNext(cfg, s1, LapseReservation(jti));
      s' := Apply(cfg, s1, LapseReservation(jti));
      assert s.reservations - jtis == s.reservations - (jtis - {jti}) - {jti};
    }
  }

  /** Lapses are nothing to the service. */
  lemma {:induction false} LapsedFollows<S>(p: Service<S>, s: State, s': State)
    requires Follows(p, s) && LapsedOnly(s, s')
    ensures Follows(p, s')
  {
    assert PendingShown(s'.trace, s'.pending) == PendingShown(s.trace, s.pending);
  }

  // ---------------------------------------------------------------- moving together

  /** The service and the machine are at the same point, and the machine can get there. */
  ghost predicate Together<S>(cfg: Config, p: Service<S>, s: State) {
    CanReach(cfg, s) && Follows(p, s)
  }

  lemma {:induction false} MoveLapses<S>(cfg: Config, p: Service<S>, s: State, cids: set<string>) returns (s': State)
    requires Together(cfg, p, s)
    requires forall cid :: cid in cids ==> cid in s.challenges && !Alive(s.challenges[cid], s.now)
    ensures Together(cfg, p, s') && s'.now == s.now && s'.challenges == s.challenges - cids
  {
    s' := LapseChallenges(cfg, s, cids);
    LapsedFollows(p, s, s');
  }

  lemma {:induction false} MoveClock<S>(cfg: Config, p: Service<S>, s: State, to: real) returns (s': State)
    requires Together(cfg, p, s) && s.now <= to
    ensures Together(cfg, p.(now := to), s') && s'.now == to && s'.challenges == s.challenges
  {
    ReachNext(cfg, s, Advance(to));
    s' := s.(now := to);
  }

  /** An event about challenges is logged. */
  lemma {:induction false} LoggedFollows<S>(p: Service<S>, s: State, s': State, e: Event)
    requires Follows(p, s) && !e.Lapsed? && !e.Minted?
    requires s' == s.(challenges := s'.challenges, trace := s.trace + [e])
    ensures Follows(p.(log := p.log + [e]), s')
  {
    VisibleAppend(s.trace, e);
    PendingAppend(s.trace, e, s.pending);
  }

  lemma {:induction false} MoveStart<S>(
      cfg: Config, p: Service<S>, s: State, identities: seq<Identity>, cid: string, code: string, readAt: real)
    returns (s': State)
    requires Together(cfg, p, s) && Enabled(s, Start(identities, cid, code, readAt)) && |Resettable(identities)| == 1
    ensures var found := Resettable(identities)[0];
            && Together(cfg, p.(log := p.log + [StartOf(cfg, found, identities, cid, code, readAt)]), s')
            && s'.now == s.now && s'.challenges == s.challenges[cid := IssuedRecord(cfg, found, cid, code, readAt)]
  {
    s' := DoStart(cfg, s, identities, cid, code, readAt);
    ReachNext(cfg, s, Start(identities, cid, code, readAt));
    LoggedFollows(p, s, s', StartOf(cfg, Resettable(identities)[0], identities, cid, code, readAt));
  }

  lemma {:induction false} MoveDelivery<S>(cfg: Config, p: Service<S>, s: State, cid: string) returns (s': State)
    requires Together(cfg, p, s) && Enabled(s, FailDelivery(cid))
    ensures Together(cfg, p.(log := p.log + [DeliveryFailed(cid)]), s')
    ensures s'.now == s.now && s'.challenges == s.challenges - {cid}
  {
    s' := Apply(cfg, s, FailDelivery(cid));
    ReachNext(cfg, s, FailDelivery(cid));
    LoggedFollows(p, s, s', DeliveryFailed(cid));
  }

  lemma {:induction false} MoveProbe<S>(cfg: Config, p: Service<S>, s: State, cid: string, readAt: real)
    returns (s': State)
    requires Together(cfg, p, s) && readAt <= s.now
    ensures var (left, removed) := Probe(Lookup(s.challenges, cid), readAt, cfg.maxAttempts);
            && Together(cfg, p.(log := p.log + [Probed(cid, readAt, removed)]), s')
            && s'.now == s.now && s'.challenges == Put(s.challenges, cid, left)
  {
    s' := DoMarkedLogin(cfg, s, cid, readAt);
    ReachNext(cfg, s, MarkedLogin(cid, readAt));
    LoggedFollows(p, s, s', Probed(cid, readAt, Probe(Lookup(s.challenges, cid), readAt, cfg.maxAttempts).1));
  }

  lemma {:induction false} MoveVerdict<S>(
      cfg: Config, p: Service<S>, s: State, store: S, task: nat, cid: string, email: string, code: string, readAt: real)
    returns (s': State)
    requires Together(cfg, p, s) && Enabled(s, Verify(task, cid, email, code, readAt))
    ensures var (left, verdict) := Decision(cfg, s, cid, email, code, readAt);
            && Together(cfg, AfterVerdict(cfg, p, store, verdict, task, cid, email, code, readAt), s')
            && s'.now == s.now && s'.challenges == Put(s.challenges, cid, left)
  {
    s' := DoVerify(cfg, s, task, cid, email, code, readAt);
    ReachNext(cfg, s, Verify(task, cid, email, code, readAt));
    VerdictFollows(cfg, p, store, Decision(cfg, s, cid, email, code, readAt).1, s, task, cid, email, code, readAt);
  }

  lemma {:induction false} MoveMint<S>(cfg: Config, p: Service<S>, s: State, task: nat, jti: Jti) returns (s': State)
    requires Together(cfg, p, s) && Enabled(s, Mint(task, jti))
    ensures task in p.pending && CanMint(p.pending[task].record)
    ensures Together(cfg, AfterMint(cfg, p, task, jti), s') && s'.now == s.now && s'.challenges == s.challenges
  {
    s' := DoMint(cfg, s, task, jti);
    ReachNext(cfg, s, Mint(task, jti));
    MintFollows(cfg, p, s, task, jti);
  }

  lemma {:induction false} MoveConfirm<S>(cfg: Config, p: Service<S>, s: State, task: nat, step: ConfirmStep)
    returns (s': State)
    requires Together(cfg, p, s) && StepEnabled(s, task, step)
    ensures Together(cfg, AfterEffect(p, task, StepEffect(s, task, step)), s')
    ensures s'.now == s.now && s'.challenges == s.challenges
  {
    s' := DoConfirm(s, task, step);
    ReachNext(cfg, s, Confirm(task, step));
    SameEffect(p, s, task, step);
    EffectFollows(p, s, task, StepEffect(s, task, step));
  }
}
