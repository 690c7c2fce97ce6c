/**
 The password-reset protocol as a state machine: start, code verification, token, reservation,
 update call, and what becomes of the reservation. Any number of requests run concurrently;
 every action is one step between two points where a request can be suspended. `Advance`
 moves the shared clock; clock readings an action uses may be older than the clock.

 Reclaiming of expired challenges and reservations, which both backends do at times of their
 own, are actions too (`LapseChallenge`, `LapseReservation`). So is a login verification that
 names a reset challenge (`MarkedLogin`), which reaches it in the dictionary both kinds of
 challenge share in process. `trace` records what happened.
 */
module ResetProtocol {
  import opened Wrappers
  import opened ChallengeSpec
  import opened Reservations

  /** `normalize` trims and lower-cases an email. */
  datatype Config = Config(ttl: int, maxAttempts: int, tokenTtl: int, normalize: string -> string)

  datatype Identity = Identity(account: Account, email: string)

  datatype Claims = Claims(email: string, account: Account, jti: Jti, issuedAt: int, exp: int)

  /**
   One confirmation request. `checkedAt`: when its token was found valid. `timely`: its
   reservation was made before the token's expiry.
   */
  datatype Phase =
    | Checked(claims: Claims, checkedAt: real)
    | Timed(claims: Claims, checkedAt: real, ttl: int)
    | Calling(claims: Claims, timely: bool)
    | CallFailed(claims: Claims, timely: bool)
    | Acknowledged(claims: Claims, timely: bool)
    | Abandoned(claims: Claims, timely: bool)
    | Released(claims: Claims)
    | Refused(claims: Claims)

  /** `judged` and `minted` are positions in the trace. */
  datatype Pending = Pending(record: Record, judged: nat)

  datatype Token = Token(claims: Claims, minted: nat)

  datatype Event =
    | Started(cid: string, identities: seq<Identity>, email: string, account: Account, code: string, expiresAt: int)
    | DeliveryFailed(cid: string)
    | Lapsed(cid: string, at: real)
    | Probed(cid: string, readAt: real, removed: bool)
    | Judged(cid: string, email: string, code: string, readAt: real, verdict: Verdict)
    | Minted(claims: Claims, judged: nat)
    | Called(task: nat, claims: Claims, checkedAt: real, timely: bool)
    | Acked(task: nat, claims: Claims, timely: bool)

  datatype State = State(
    now: real, challenges: map<string, Record>, pending: map<nat, Pending>, tokens: map<Jti, Token>,
    reservations: map<Jti, real>, confirms: map<nat, Phase>, trace: seq<Event>)

  datatype Action =
    | Advance(to: real)
    | Start(identities: seq<Identity>, cid: string, code: string, readAt: real)
    | FailDelivery(cid: string)
    | LapseChallenge(cid: string)
    | MarkedLogin(cid: string, readAt: real)
    | Verify(task: nat, cid: string, email: string, code: string, readAt: real)
    | Mint(task: nat, jti: Jti)
    | LapseReservation(jti: Jti)
    | Confirm(task: nat, step: ConfirmStep)

  /** The steps of one confirmation request. */
  datatype ConfirmStep =
    | CheckToken(jti: Jti, strongPassword: bool)
    | ComputeTtl
    | Reserve(replyLost: bool)
    | UpdateReply(status: Option<int>)
    | ReleaseToken
    | Abandon

  /** What a confirmation step leaves behind: its own phase, the reservations, and what it adds to the trace. */
  datatype Effect = Effect(phase: Phase, reservations: map<Jti, real>, events: seq<Event>)

  function Init(now: real): State {
    State(now, map[], map[], map[], map[], map[], [])
  }

  predicate MayReset(accountType: AccountType) {
    accountType == FarmOwner || accountType == CompanyEmployee
  }

  function Resettable(identities: seq<Identity>): seq<Identity> {
    if identities == [] then []
    else (if MayReset(identities[0].account.accountType) then [identities[0]] else []) + Resettable(identities[1..])
  }

  /** All the other identities are administrators', and this one is not. */
  predicate OnlyNonAdmin(identities: seq<Identity>, i: nat) {
    && i < |identities| && identities[i].account.accountType != Admin
    && forall k :: 0 <= k < |identities| && k != i ==> identities[k].account.accountType == Admin
  }

  lemma {:induction false} NoneResettable(identities: seq<Identity>)
    ensures Resettable(identities) == []
            <==> forall k :: 0 <= k < |identities| ==> identities[k].account.accountType == Admin
  {
    if identities != [] {
      NoneResettable(identities[1..]);
      assert forall k :: 1 <= k < |identities| ==> identities[k] == identities[1..][k - 1];
    }
  }

  lemma {:induction false} OnlyNonAdminIsResettable(identities: seq<Identity>, i: nat)
    requires OnlyNonAdmin(identities, i)
    ensures Resettable(identities) == [identities[i]]
  {
    var rest := identities[1..];
    assert forall k :: 0 <= k < |rest| ==> rest[k] == identities[k + 1];
    if i == 0 {
      NoneResettable(rest);
    } else {
      OnlyNonAdminIsResettable(rest, i - 1);
    }
  }

  lemma {:induction false} ResettableIsOnlyNonAdmin(identities: seq<Identity>) returns (i: nat)
    requires |Resettable(identities)| == 1
    ensures OnlyNonAdmin(identities, i) && Resettable(identities) == [identities[i]]
  {
    var rest := identities[1..];
    assert forall k :: 0 <= k < |rest| ==> rest[k] == identities[k + 1];
    if MayReset(identities[0].account.accountType) {
      i := 0;
      NoneResettable(rest);
    } else {
      var j := ResettableIsOnlyNonAdmin(rest);
      i := j + 1;
    }
  }

  /** Exactly one identity may be reset if and only if all but one are administrators'. */
  lemma {:induction false} UniqueIsOnlyNonAdmin(identities: seq<Identity>)
    ensures |Resettable(identities)| == 1 <==> exists i: nat :: OnlyNonAdmin(identities, i)
    ensures forall i: nat :: OnlyNonAdmin(identities, i) ==> Resettable(identities) == [identities[i]]
  {
    forall i: nat | OnlyNonAdmin(identities, i)
      ensures Resettable(identities) == [identities[i]]
    {
      OnlyNonAdminIsResettable(identities, i);
    }
    if |Resettable(identities)| == 1 {
      var i := ResettableIsOnlyNonAdmin(identities);
    }
  }

  ghost predicate HasStarted(trace: seq<Event>, cid: string) {
    exists i :: 0 <= i < |trace| && trace[i].Started? && trace[i].cid == cid
  }

  function Lookup<K, V>(m: map<K, V>, k: K): Option<V> {
    if k in m then Some(m[k]) else None
  }

  /** Issued ids and codes are fresh letters, digits, dashes and underscores, and six digits. */
  ghost predicate Enabled(s: State, a: Action) {
    match a
    case Advance(to) => s.now <= to
    case Start(identities, cid, code, readAt) =>
      !HasStarted(s.trace, cid) && ':' !in cid && ':' !in code && readAt <= s.now
    case FailDelivery(cid) => HasStarted(s.trace, cid)
    case LapseChallenge(cid) => cid in s.challenges && !Alive(s.challenges[cid], s.now)
    case MarkedLogin(cid, readAt) => readAt <= s.now
    case Verify(task, cid, email, code, readAt) => task !in s.pending && readAt <= s.now
    case Mint(task, jti) => task in s.pending && jti !in s.tokens && CanMint(s.pending[task].record)
    case LapseReservation(jti) => jti in s.reservations && s.reservations[jti] <= s.now
    case Confirm(task, step) => StepEnabled(s, task, step)
  }

  predicate StepEnabled(s: State, task: nat, step: ConfirmStep) {
    match step
    case CheckToken(jti, strongPassword) => task !in s.confirms && jti in s.tokens
    case ComputeTtl => task in s.confirms && s.confirms[task].Checked?
    case Reserve(replyLost) => task in s.confirms && s.confirms[task].Timed?
    case UpdateReply(status) => task in s.confirms && s.confirms[task].Calling?
    case ReleaseToken => task in s.confirms && s.confirms[task].CallFailed?
    case Abandon => task in s.confirms && (s.confirms[task].Calling? || s.confirms[task].CallFailed?)
  }

  function IssuedRecord(cfg: Config, found: Identity, cid: string, code: string, readAt: real): Record {
    ResetRecord(cid, cfg.normalize(found.email), found.account, code, cfg.ttl, readAt)
  }

  function StartOf(
      cfg: Config, found: Identity, identities: seq<Identity>, cid: string, code: string, readAt: real): Event
  {
    Started(cid, identities, cfg.normalize(found.email), found.account, code, Seconds(readAt) + cfg.ttl)
  }

  /** A start that does not find exactly one resettable identity creates nothing. */
  function DoStart(cfg: Config, s: State, identities: seq<Identity>, cid: string, code: string, readAt: real): State {
    var found := Resettable(identities);
    if |found| != 1 then s
    else
      s.(challenges := s.challenges[cid := IssuedRecord(cfg, found[0], cid, code, readAt)],
         trace := s.trace + [StartOf(cfg, found[0], identities, cid, code, readAt)])
  }

  /** The atomic verification, for the challenge as it is stored. */
  function Decision(cfg: Config, s: State, cid: string, email: string, code: string, readAt: real)
    : (Option<Record>, Verdict)
  {
    Judge(Lookup(s.challenges, cid), cfg.normalize(email), CodeDigest(cid, code), Seconds(readAt), cfg.maxAttempts)
  }

  function DoVerify(cfg: Config, s: State, task: nat, cid: string, email: string, code: string, readAt: real): State {
    var (left, verdict) := Decision(cfg, s, cid, email, code, readAt);
    s.(challenges := Put(s.challenges, cid, left),
       pending := if verdict.Verified? then s.pending[task := Pending(verdict.record, |s.trace|)] else s.pending,
       trace := s.trace + [Judged(cid, cfg.normalize(email), code, readAt, verdict)])
  }

  /**
   A login verification under the reset key. Its digest is of another challenge's id, so it
   never matches: it removes a spent challenge and counts a failure on any other.
   */
  function Probe(raw: Option<Record>, readAt: real, max: int): (Option<Record>, bool) {
    if raw.None? then (None, false)
    else
      var r := raw.value;
      if !WellTyped(r) || !Alive(r, readAt) || PyInt(r.attempts).value + 1 >= max then (None, true)
      else (Some(Failed(r)), false)
  }

  function DoMarkedLogin(cfg: Config, s: State, cid: string, readAt: real): State {
    var (left, removed) := Probe(Lookup(s.challenges, cid), readAt, cfg.maxAttempts);
    s.(challenges := Put(s.challenges, cid, left), trace := s.trace + [Probed(cid, readAt, removed)])
  }

  predicate CanMint(r: Record) {
    r.email.Some? && r.account.Some?
  }

  function ClaimsFor(cfg: Config, r: Record, jti: Jti, now: real): Claims
    requires CanMint(r)
  {
    Claims(r.email.value, r.account.value, jti, Seconds(now), Seconds(now) + cfg.tokenTtl)
  }

  function DoMint(cfg: Config, s: State, task: nat, jti: Jti): State
    requires task in s.pending && CanMint(s.pending[task].record)
  {
    var claims := ClaimsFor(cfg, s.pending[task].record, jti, s.now);
    s.(pending := s.pending - {task},
       tokens := s.tokens[jti := Token(claims, |s.trace|)],
       trace := s.trace + [Minted(claims, s.pending[task].judged)])
  }

  /** Token, password and account type are checked before anything is reserved. */
  function CheckedPhase(s: State, claims: Claims, strongPassword: bool): Phase {
    if s.now < claims.exp as real && strongPassword && MayReset(claims.account.accountType)
    then Checked(claims, s.now) else Refused(claims)
  }

  /** The reservation and, unless its reply is lost, the call that follows it at once. */
  function ReserveEffect(s: State, task: nat, replyLost: bool, outcome: (map<Jti, real>, bool)): Effect
    requires task in s.confirms && s.confirms[task].Timed?
  {
    var Timed(claims, checkedAt, ttl) := s.confirms[task];
    var timely := s.now < claims.exp as real;
    if !outcome.1 then Effect(Refused(claims), outcome.0, [])
    else if replyLost then Effect(Abandoned(claims, timely), outcome.0, [])
    else Effect(Calling(claims, timely), outcome.0, [Called(task, claims, checkedAt, timely)])
  }

  /**
   Only a 200 acknowledges the update; every other status and every network failure is a
   failed call, after which the reservation is released. A request that is cancelled during
   its call, or whose release fails, is abandoned and leaves its reservation.
   */
  function StepEffect(s: State, task: nat, step: ConfirmStep): Effect
    requires StepEnabled(s, task, step)
  {
    match step
    case CheckToken(jti, strongPassword) =>
      Effect(CheckedPhase(s, s.tokens[jti].claims, strongPassword), s.reservations, [])
    case ComputeTtl =>
      var Checked(claims, checkedAt) := s.confirms[task];
      Effect(Timed(claims, checkedAt, RemainingTtl(claims.exp, s.now)), s.reservations, [])
    case Reserve(replyLost) =>
      var Timed(claims, _, ttl) := s.confirms[task];
      ReserveEffect(s, task, replyLost, RedisReserve(s.reservations, claims.jti, ttl, s.now))
    case UpdateReply(status) =>
      var Calling(claims, timely) := s.confirms[task];
      if status == Some(200) then Effect(Acknowledged(claims, timely), s.reservations, [Acked(task, claims, timely)])
      else Effect(CallFailed(claims, timely), s.reservations, [])
    case ReleaseToken =>
      var claims := s.confirms[task].claims;
      Effect(Released(claims), Release(s.reservations, claims.jti), [])
    case Abandon =>
      Effect(Abandoned(s.confirms[task].claims, s.confirms[task].timely), s.reservations, [])
  }

  function WithEffect(s: State, task: nat, effect: Effect): State {
    s.(confirms := s.confirms[task := effect.phase],
       reservations := effect.reservations,
       trace := s.trace + effect.events)
  }

  function DoConfirm(s: State, task: nat, step: ConfirmStep): State
    requires StepEnabled(s, task, step)
  {
    WithEffect(s, task, StepEffect(s, task, step))
  }

  ghost function Apply(cfg: Config, s: State, a: Action): State
    requires Enabled(s, a)
  {
    match a
    case Advance(to) => s.(now := to)
    case Start(identities, cid, code, readAt) => DoStart(cfg, s, identities, cid, code, readAt)
    case FailDelivery(cid) => s.(challenges := s.challenges - {cid}, trace := s.trace + [DeliveryFailed(cid)])
    case LapseChallenge(cid) => s.(challenges := s.challenges - {cid}, trace := s.trace + [Lapsed(cid, s.now)])
    case MarkedLogin(cid, readAt) => DoMarkedLogin(cfg, s, cid, readAt)
    case Verify(task, cid, email, code, readAt) => DoVerify(cfg, s, task, cid, email, code, readAt)
    case Mint(task, jti) => DoMint(cfg, s, task, jti)
    case LapseReservation(jti) => s.(reservations := s.reservations - {jti})
    case Confirm(task, step) => DoConfirm(s, task, step)
  }

  ghost predicate Leads(cfg: Config, s: State, a: Action, s': State) {
    Enabled(s, a) && s' == Apply(cfg, s, a)
  }

  ghost predicate Behaviour(cfg: Config, states: seq<State>, actions: seq<Action>) {
    && |states| == |actions| + 1
    && states[0] == Init(states[0].now)
    && cfg.maxAttempts >= 1
    && forall i :: 0 <= i < |actions| ==> Leads(cfg, states[i], actions[i], states[i + 1])
  }

  /** Every enabled action extends a behaviour. */
  lemma {:induction false} Extend(cfg: Config, states: seq<State>, actions: seq<Action>, a: Action)
    returns (states': seq<State>, actions': seq<Action>)
    requires Behaviour(cfg, states, actions) && Enabled(states[|actions|], a)
    ensures Behaviour(cfg, states', actions') && actions' == actions + [a]
    ensures states' == states + [Apply(cfg, states[|actions|], a)]
  {
    states', actions' := states + [Apply(cfg, states[|actions|], a)], actions + [a];
    forall i | 0 <= i < |actions'|
      ensures Leads(cfg, states'[i], actions'[i], states'[i + 1])
    {
      if i < |actions| {
        assert Leads(cfg, states[i], actions[i], states[i + 1]);
      }
    }
  }

  ghost predicate CanReach(cfg: Config, s: State) {
    exists states: seq<State>, actions: seq<Action> ::
      Behaviour(cfg, states, actions) && states[|actions|] == s
  }

  lemma {:induction false} ReachNext(cfg: Config, s: State, a: Action)
    requires CanReach(cfg, s) && Enabled(s, a)
    ensures CanReach(cfg, Apply(cfg, s, a))
  {
    var states: seq<State>, actions: seq<Action> :| Behaviour(cfg, states, actions) && states[|actions|] == s;
    var states', actions' := Extend(cfg, states, actions, a);
  }
}
