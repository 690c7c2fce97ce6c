/**
 Whole runs of the service on the shared server, with deadlines that pass while the clock
 runs and any login traffic under the login keys: each is a behaviour of the protocol machine
 with the same log.
 */
module ServerRuns {
  import opened Wrappers
  import opened ChallengeSpec
  import opened Reservations
  import opened ResetProtocol
  import opened ResetInvariant
  import opened ResetRefinement
  import opened ServiceRuns
  import opened ServiceLogs
  import opened ResetSteps

  type Server = Service<map<string, Cell>>

  /** Login requests leave the server's contents like this. */
  datatype KeyspaceLogin = Leaves(cells: map<string, Cell>)

  ghost predicate SameResetKeys(cells: map<string, Cell>, cells': map<string, Cell>) {
    forall cid: string ::
      && (RedisKey(Reset(cid)) in cells' <==> RedisKey(Reset(cid)) in cells)
      && (RedisKey(Reset(cid)) in cells ==> cells'[RedisKey(Reset(cid))] == cells[RedisKey(Reset(cid))])
  }

  ghost predicate ServerAllows(q: Server, r: Request<KeyspaceLogin>) {
    Allowed(q, r) && (r.LoginRequest? ==> SameResetKeys(q.store, r.login.cells))
  }

  /** So it is for every command a login request sends. */
  lemma {:induction false} LoginCommandsLeaveResetKeys(
      cells: map<string, Cell>, id: string, r: Record, ttl: int, at: real)
    ensures SameResetKeys(cells, RedisSave(cells, Login(id), r, ttl, at))
    ensures SameResetKeys(cells, cells - {RedisKey(Login(id))})
  {
    forall cid: string
      ensures RedisKey(Reset(cid)) != RedisKey(Login(id))
    {
      RedisKeysDistinct(Reset(cid), Login(id));
    }
  }

  ghost function ServerStep(cfg: Config, q: Server, r: Request<KeyspaceLogin>): Server
    requires ServerAllows(q, r)
  {
    match r
    case Tick(to) => q.(now := to)
    case StartReset(identities, cid, code, readAt) =>
      var found := Resettable(identities);
      if |found| != 1 then q
      else
        q.(store := RedisSave(q.store, Reset(cid), IssuedRecord(cfg, found[0], cid, code, readAt), cfg.ttl, q.now),
           log := q.log + [StartOf(cfg, found[0], identities, cid, code, readAt)])
    case DeliveryFails(cid) => q.(store := q.store - {RedisKey(Reset(cid))}, log := q.log + [DeliveryFailed(cid)])
    case VerifyReset(task, cid, email, code, readAt) =>
      var (store, verdict) :=
        ScriptVerify(q.store, cid, cfg.normalize(email), code, cfg.maxAttempts, Seconds(readAt), q.now);
      AfterVerdict(cfg, q, store, verdict, task, cid, email, code, readAt)
    case MintToken(task, jti) => AfterMint(cfg, q, task, jti)
    case Confirming(task, step) => AfterEffect(q, task, StepEffect(View(q), task, step))
    case LoginRequest(login) => q.(store := login.cells)
  }

  ghost predicate ServerLeads(cfg: Config, q: Server, r: Request<KeyspaceLogin>, q': Server) {
    ServerAllows(q, r) && q' == ServerStep(cfg, q, r)
  }

  ghost predicate ServerRun(cfg: Config, qs: seq<Server>, rs: seq<Request<KeyspaceLogin>>) {
    && |qs| == |rs| + 1 && cfg.maxAttempts >= 1
    && qs[0] == Fresh(qs[0].now, map[])
    && forall i :: 0 <= i < |rs| ==> ServerLeads(cfg, qs[i], rs[i], qs[i + 1])
  }

  /** The service on the server and the machine are at the same point, and the machine can get there. */
  ghost predicate ServerAt(cfg: Config, q: Server, s: State) {
    Together(cfg, q, s) && ServerIs(q.store, s.challenges, q.now)
  }

  // ---------------------------------------------------------------- one request

  /** The challenges whose keys are gone by `to`. */
  function Passed(cells: map<string, Cell>, challenges: map<string, Record>, to: real): set<string> {
    set cid | cid in challenges && OnServer(cells, cid, to) == None
  }

  lemma {:induction false} ServerLater(
      cells: map<string, Cell>, challenges: map<string, Record>, before: real, to: real)
    requires ServerIs(cells, challenges, before) && before <= to
    ensures ServerIs(cells, challenges - Passed(cells, challenges, to), to)
  {
    forall cid: string
      ensures OnServer(cells, cid, to) == Lookup(challenges - Passed(cells, challenges, to), cid)
    {
      assert OnServer(cells, cid, before) == Lookup(challenges, cid);
    }
  }

  /** While the clock runs, passing deadlines are lapses. */
  lemma {:induction false} TickFollows(cfg: Config, q: Server, s: State, to: real) returns (s': State)
    requires ServerAt(cfg, q, s) && q.now <= to
    ensures ServerAt(cfg, q.(now := to), s')
  {
    ServerLater(q.store, s.challenges, q.now, to);
    s' := MoveClock(cfg, q, s, to);
    forall cid | cid in Passed(q.store, s.challenges, to)
      ensures !Alive(s'.challenges[cid], s'.now)
    {
      DeadlineIsLapse(q.store, s', q.now, cid);
    }
    s' := MoveLapses(cfg, q.(now := to), s', Passed(q.store, s.challenges, to));
  }

  lemma {:induction false} StartFollows(cfg: Config, q: Server, s: State, r: Request<KeyspaceLogin>)
    returns (s': State)
    requires r.StartReset? && ServerAt(cfg, q, s) && ServerAllows(q, r)
    ensures ServerAt(cfg, ServerStep(cfg, q, r), s')
  {
    var found := Resettable(r.identities);
    s' := s;
    if |found| == 1 {
      var record := IssuedRecord(cfg, found[0], r.cid, r.code, r.readAt);
      ServerStartRefines(q.store, s.challenges, r.cid, record, cfg.ttl, q.now);
      AllowedIsEnabled(q, r, s);
      s' := MoveStart(cfg, q, s, r.identities, r.cid, r.code, r.readAt);
    }
  }

  lemma {:induction false} VerifyFollows(cfg: Config, q: Server, s: State, r: Request<KeyspaceLogin>)
    returns (s': State)
    requires r.VerifyReset? && ServerAt(cfg, q, s) && ServerAllows(q, r)
    ensures ServerAt(cfg, ServerStep(cfg, q, r), s')
  {
    AreGenuine(cfg, s);
    ScriptRefines(cfg, q.store, s, r.cid, r.email, r.code, r.readAt);
    AllowedIsEnabled(q, r, s);
    s' := MoveVerdict(cfg, q, s, ServerStep(cfg, q, r).store, r.task, r.cid, r.email, r.code, r.readAt);
  }

  lemma {:induction false} LoginFollows(cfg: Config, q: Server, s: State, cells: map<string, Cell>)
    requires ServerAt(cfg, q, s) && SameResetKeys(q.store, cells)
    ensures ServerAt(cfg, q.(store := cells), s)
  {
    forall cid: string
      ensures OnServer(cells, cid, q.now) == Lookup(s.challenges, cid)
    {
      assert OnServer(q.store, cid, q.now) == Lookup(s.challenges, cid);
    }
  }

  lemma {:induction false} DeliveryFollows(cfg: Config, q: Server, s: State, r: Request<KeyspaceLogin>)
    returns (s': State)
    requires r.DeliveryFails? && ServerAt(cfg, q, s) && ServerAllows(q, r)
    ensures ServerAt(cfg, ServerStep(cfg, q, r), s')
  {
    AllowedIsEnabled(q, r, s);
    ServerDeleteRefines(q.store, s.challenges, r.cid, q.now);
    s' := MoveDelivery(cfg, q, s, r.cid);
  }

  lemma {:induction false} ConfirmFollows(cfg: Config, q: Server, s: State, task: nat, step: ConfirmStep)
    returns (s': State)
    requires ServerAt(cfg, q, s) && StepEnabled(View(q), task, step)
    ensures ServerAt(cfg, AfterEffect(q, task, StepEffect(View(q), task, step)), s')
  {
    SameEffect(q, s, task, step);
    s' := MoveConfirm(cfg, q, s, task, step);
  }

  // ---------------------------------------------------------------- whole runs

  lemma {:induction false} RequestFollows(cfg: Config, q: Server, s: State, r: Request<KeyspaceLogin>)
    returns (s': State)
    requires ServerAt(cfg, q, s) && ServerAllows(q, r)
    ensures ServerAt(cfg, ServerStep(cfg, q, r), s')
  {
    match r
    case Tick(to) => s' := TickFollows(cfg, q, s, to);
    case StartReset(_, _, _, _) => s' := StartFollows(cfg, q, s, r);
    case DeliveryFails(_) => s' := DeliveryFollows(cfg, q, s, r);
    case VerifyReset(_, _, _, _, _) => s' := VerifyFollows(cfg, q, s, r);
    case MintToken(task, jti) =>
      AllowedIsEnabled(q, r, s);
      s' := MoveMint(cfg, q, s, task, jti);
    case Confirming(task, step) => s' := ConfirmFollows(cfg, q, s, task, step);
    case LoginRequest(login) =>
      LoginFollows(cfg, q, s, login.cells);
      s' := s;
  }

  lemma {:induction false} ServerReaches(cfg: Config, qs: seq<Server>, rs: seq<Request<KeyspaceLogin>>, n: nat)
    returns (s: State)
    requires ServerRun(cfg, qs, rs) && n < |qs|
    ensures ServerAt(cfg, qs[n], s)
  {
    if n == 0 {
      s := Init(qs[0].now);
      StartIsReached(cfg, qs[0].now);
    } else {
      s := ServerReaches(cfg, qs, rs, n - 1);
      assert ServerLeads(cfg, qs[n - 1], rs[n - 1], qs[n]);
      s := RequestFollows(cfg, qs[n - 1], s, rs[n - 1]);
    }
  }

  /**
   Every run on the server is a behaviour of the machine: with the same verdicts, calls and
   acknowledgements in the same order, and the same challenges and reservations.
   */
  lemma {:induction false} ServerRunIsBehaviour(
      cfg: Config, qs: seq<Server>, rs: seq<Request<KeyspaceLogin>>, n: nat)
    returns (states: seq<State>, actions: seq<Action>)
    requires ServerRun(cfg, qs, rs) && n < |qs|
    ensures Behaviour(cfg, states, actions)
    ensures var s := states[|actions|];
            && qs[n].log == Visible(s.trace) && qs[n].reservations == s.reservations && qs[n].confirms == s.confirms
            && ServerIs(qs[n].store, s.challenges, qs[n].now)
  {
    var s := ServerReaches(cfg, qs, rs, n);
    states, actions :| Behaviour(cfg, states, actions) && states[|actions|] == s;
  }

  /** So in the log of every run all that the machine promises holds. */
  lemma {:induction false} ServerRunLogIsSound(
      cfg: Config, qs: seq<Server>, rs: seq<Request<KeyspaceLogin>>, n: nat)
    requires ServerRun(cfg, qs, rs) && n < |qs|
    ensures IsSound(cfg, qs[n].log)
  {
    var states, actions := ServerRunIsBehaviour(cfg, qs, rs, n);
    LogIsSound(cfg, states, actions);
  }

  /** A verification that submits a code which by the log is still usable is answered with the account it is for. */
  lemma {:induction false} ServerAcceptsIssuedCode(
      cfg: Config, qs: seq<Server>, rs: seq<Request<KeyspaceLogin>>, n: nat, j: nat)
    requires ServerRun(cfg, qs, rs) && n < |rs| && rs[n].VerifyReset? && StillUsable(cfg, qs[n].log, j)
    requires var e := qs[n].log[j];
             && rs[n].cid == e.cid && rs[n].code == e.code && cfg.normalize(rs[n].email) == e.email
             && Seconds(qs[n].now) < e.expiresAt
    ensures AnswersWith(qs[n], rs[n], qs[n + 1], qs[n].log[j].account)
  {
    var q, r := qs[n], rs[n];
    assert ServerLeads(cfg, q, r, qs[n + 1]);
    var s := ServerReaches(cfg, qs, rs, n);
    AreGenuine(cfg, s);
    ScriptRefines(cfg, q.store, s, r.cid, r.email, r.code, r.readAt);
    LogAcceptsIssuedCode(cfg, q, s, j, r.email, r.readAt);
  }

  /** An update is acknowledged by the step in which its call answers 200, and by no other. */
  lemma {:induction false} ServerAcksExactly(
      cfg: Config, qs: seq<Server>, rs: seq<Request<KeyspaceLogin>>, n: nat, task: nat)
    requires ServerRun(cfg, qs, rs) && n < |rs|
    ensures AddsAck(qs[n].log, qs[n + 1].log, task) <==> rs[n] == Confirming(task, UpdateReply(Some(200)))
  {
    var q, q' := qs[n], qs[n + 1];
    assert ServerLeads(cfg, q, rs[n], q');
    if rs[n] == Confirming(task, UpdateReply(Some(200))) {
      assert q'.log[|q.log|].Acked?;
    }
  }

  /** A start creates a challenge if and only if all identities but one are administrators', for that one. */
  lemma {:induction false} ServerStartsExactly(
      cfg: Config, qs: seq<Server>, rs: seq<Request<KeyspaceLogin>>, n: nat)
    requires ServerRun(cfg, qs, rs) && n < |rs| && rs[n].StartReset?
    ensures CreatesExactly(cfg, qs[n], rs[n], qs[n + 1])
  {
    assert ServerLeads(cfg, qs[n], rs[n], qs[n + 1]);
    UniqueIsOnlyNonAdmin(rs[n].identities);
  }
}
