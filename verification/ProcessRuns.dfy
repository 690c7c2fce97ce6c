/**
 Whole runs of the service on the in-process tables, login traffic on the shared dictionary
 included: each is a behaviour of the protocol machine with the same log.
 */
module ProcessRuns {
  import opened Wrappers
  import opened ChallengeSpec
  import opened Reservations
  import Serial = BackendSimulation
  import opened ResetProtocol
  import opened ResetInvariant
  import opened ResetRefinement
  import opened ServiceRuns
  import opened ServiceLogs
  import opened ResetSteps

  type Process = Service<map<string, Record>>

  /** What login requests do to the dictionary. A verification reads the clock three times. */
  datatype DictionaryLogin =
    | SaveLogin(id: string, record: Record)
    | DeleteLogin(id: string)
    | VerifyLogin(id: string, email: string, code: string, readAt: real, saveAt: real)

  /**
   The locked verification reads the clock itself. Starting and withdrawing login challenges
   uses issued ids; what a verification submits is free.
   */
  ghost predicate ProcessAllows(p: Process, r: Request<DictionaryLogin>) {
    && Allowed(p, r)
    && (r.VerifyReset? ==> r.readAt == p.now)
    && (r.LoginRequest? ==>
          match r.login
          case SaveLogin(id, _) => ':' !in id
          case DeleteLogin(id) => ':' !in id
          case VerifyLogin(_, _, _, readAt, saveAt) => p.now <= readAt <= saveAt)
  }

  function AfterLogin(cfg: Config, p: Process, login: DictionaryLogin): Process {
    match login
    case SaveLogin(id, record) => p.(store := MemorySave(p.store, Login(id), record, p.now))
    case DeleteLogin(id) => p.(store := p.store - {MemKey(Login(id))})
    case VerifyLogin(id, email, code, readAt, saveAt) =>
      var store := MemoryLogin(p.store, id, email, code, cfg.maxAttempts, p.now, readAt, saveAt).0;
      var key := MemKey(Login(id));
      p.(now := saveAt, store := store,
         log := p.log + if IsMarked(id)
                        then [Probed(MarkedCid(id), readAt, key in Cleaned(p.store, p.now) && key !in store)] else [])
  }

  function ProcessEffect(p: Process, task: nat, step: ConfirmStep): Effect
    requires StepEnabled(View(p), task, step)
  {
    match step
    case Reserve(replyLost) =>
      var Timed(claims, _, ttl) := p.confirms[task];
      ReserveEffect(View(p), task, replyLost, MemoryReserve(p.reservations, claims.jti, ttl, p.now))
    case _ => StepEffect(View(p), task, step)
  }

  ghost function ProcessStep(cfg: Config, p: Process, r: Request<DictionaryLogin>): Process
    requires ProcessAllows(p, r)
  {
    match r
    case Tick(to) => p.(now := to)
    case StartReset(identities, cid, code, readAt) =>
      var found := Resettable(identities);
      if |found| != 1 then p
      else
        p.(store := MemorySave(p.store, Reset(cid), IssuedRecord(cfg, found[0], cid, code, readAt), p.now),
           log := p.log + [StartOf(cfg, found[0], identities, cid, code, readAt)])
    case DeliveryFails(cid) => p.(store := p.store - {MemKey(Reset(cid))}, log := p.log + [DeliveryFailed(cid)])
    case VerifyReset(task, cid, email, code, readAt) =>
      var (store, verdict) := MemoryVerify(p.store, cid, cfg.normalize(email), code, cfg.maxAttempts, p.now);
      AfterVerdict(cfg, p, store, verdict, task, cid, email, code, readAt)
    case MintToken(task, jti) => AfterMint(cfg, p, task, jti)
    case Confirming(task, step) => AfterEffect(p, task, ProcessEffect(p, task, step))
    case LoginRequest(login) => AfterLogin(cfg, p, login)
  }

  ghost predicate ProcessRun(cfg: Config, ps: seq<Process>, rs: seq<Request<DictionaryLogin>>) {
    && |ps| == |rs| + 1 && cfg.maxAttempts >= 1
    && ps[0] == Fresh(ps[0].now, map[])
    && forall i :: 0 <= i < |rs| ==> ProcessLeads(cfg, ps[i], rs[i], ps[i + 1])
  }

  ghost predicate ProcessLeads(cfg: Config, p: Process, r: Request<DictionaryLogin>, p': Process) {
    ProcessAllows(p, r) && p' == ProcessStep(cfg, p, r)
  }

  /** The process and the machine are at the same point, and the machine can get there. */
  ghost predicate ProcessIs(cfg: Config, p: Process, s: State) {
    Together(cfg, p, s) && MemoryIs(p.store, s.challenges)
  }

  // ---------------------------------------------------------------- one request

  /** The machine lets everything lapse that a cleanup at its clock removes. */
  lemma {:induction false} Sweep(cfg: Config, p: Process, s: State) returns (s': State)
    requires Together(cfg, p, s)
    ensures Together(cfg, p, s') && s'.now == s.now && s'.challenges == AllLapsed(s.challenges, s.now)
  {
    var expired := set cid | cid in s.challenges && !Alive(s.challenges[cid], s.now);
    s' := MoveLapses(cfg, p, s, expired);
    assert s.challenges - expired == AllLapsed(s.challenges, s.now);
  }

  lemma {:induction false} StartFollows(cfg: Config, p: Process, s: State, r: Request<DictionaryLogin>)
    returns (s': State)
    requires r.StartReset? && ProcessIs(cfg, p, s) && ProcessAllows(p, r)
    ensures ProcessIs(cfg, ProcessStep(cfg, p, r), s')
  {
    var found := Resettable(r.identities);
    s' := s;
    if |found| == 1 {
      InProcessStartRefines(p.store, s.challenges, r.cid, IssuedRecord(cfg, found[0], r.cid, r.code, r.readAt), p.now);
      var s1 := Sweep(cfg, p, s);
      AllowedIsEnabled(p, r, s1);
      s' := MoveStart(cfg, p, s1, r.identities, r.cid, r.code, r.readAt);
    }
  }

  lemma {:induction false} DeliveryFollows(cfg: Config, p: Process, s: State, r: Request<DictionaryLogin>)
    returns (s': State)
    requires r.DeliveryFails? && ProcessIs(cfg, p, s) && ProcessAllows(p, r)
    ensures ProcessIs(cfg, ProcessStep(cfg, p, r), s')
  {
    AllowedIsEnabled(p, r, s);
    InProcessDeleteRefines(p.store, s.challenges, r.cid);
    s' := MoveDelivery(cfg, p, s, r.cid);
  }

  /** The locked verification is the machine's, once what has expired has lapsed. */
  lemma {:induction false} SameVerdict(cfg: Config, p: Process, s: State, s1: State, r: Request<DictionaryLogin>)
    requires r.VerifyReset? && r.readAt == p.now == s.now && MemoryIs(p.store, s.challenges)
    requires s1.challenges == AllLapsed(s.challenges, s.now) && AllGenuine(s.challenges)
    ensures var (store, verdict) :=
              MemoryVerify(p.store, r.cid, cfg.normalize(r.email), r.code, cfg.maxAttempts, p.now);
            var (left, answer) := Decision(cfg, s1, r.cid, r.email, r.code, r.readAt);
            verdict == answer && MemoryIs(store, Put(s1.challenges, r.cid, left))
  {
    InProcessVerifyRefines(cfg, p.store, s, r.cid, r.email, r.code);
  }

  lemma {:induction false} VerifyFollows(cfg: Config, p: Process, s: State, r: Request<DictionaryLogin>)
    returns (s': State)
    requires r.VerifyReset? && ProcessIs(cfg, p, s) && ProcessAllows(p, r)
    ensures ProcessIs(cfg, ProcessStep(cfg, p, r), s')
  {
    AreGenuine(cfg, s);
    var s1 := Sweep(cfg, p, s);
    SameVerdict(cfg, p, s, s1, r);
    AllowedIsEnabled(p, r, s1);
    s' := MoveVerdict(cfg, p, s1, ProcessStep(cfg, p, r).store, r.task, r.cid, r.email, r.code, r.readAt);
  }

  /** Sweeping the reservations is a lapse of each one that ran out. */
  lemma {:induction false} SweepReservations(cfg: Config, p: Process, s: State) returns (s': State)
    requires ProcessIs(cfg, p, s)
    ensures ProcessIs(cfg, p.(reservations := Swept(p.reservations, p.now)), s')
    ensures s' == s.(reservations := Swept(s.reservations, s.now))
  {
    var ranOut := set jti | jti in s.reservations && s.reservations[jti] <= s.now;
    s' := LapseReservations(cfg, s, ranOut);
    assert s'.reservations == Swept(s.reservations, s.now);
  }

  /** From swept reservations the in-process reservation is the machine's. */
  lemma {:induction false} SameReservation(p: Process, s: State, s1: State, task: nat, replyLost: bool)
    requires Follows(p, s) && ConfirmInv(s.confirms, s.tokens, s.now)
    requires s1 == s.(reservations := Swept(s.reservations, s.now))
    requires StepEnabled(View(p), task, Reserve(replyLost))
    ensures StepEnabled(s1, task, Reserve(replyLost)) && ShowsAll(StepEffect(s1, task, Reserve(replyLost)))
    ensures ProcessEffect(p, task, Reserve(replyLost)) == StepEffect(s1, task, Reserve(replyLost))
  {
    assert PhaseInv(s.confirms[task], s.tokens, s.now);
    InProcessReserveRefines(s, s.confirms[task].claims.jti, s.confirms[task].ttl);
  }

  lemma {:induction false} ReserveFollows(cfg: Config, p: Process, s: State, task: nat, replyLost: bool)
    returns (s': State)
    requires ProcessIs(cfg, p, s) && StepEnabled(View(p), task, Reserve(replyLost))
    ensures ProcessIs(cfg, AfterEffect(p, task, ProcessEffect(p, task, Reserve(replyLost))), s')
  {
    var s1 := SweepReservations(cfg, p, s);
    assert ConfirmInv(s.confirms, s.tokens, s.now) by {
      ReachedInv(cfg, s);
    }
    SameReservation(p, s, s1, task, replyLost);
    s' := MoveConfirm(cfg, p.(reservations := s1.reservations), s1, task, Reserve(replyLost));
  }

  lemma {:induction false} ConfirmFollows(cfg: Config, p: Process, s: State, task: nat, step: ConfirmStep)
    returns (s': State)
    requires ProcessIs(cfg, p, s) && StepEnabled(View(p), task, step)
    ensures ProcessIs(cfg, AfterEffect(p, task, ProcessEffect(p, task, step)), s')
  {
    if step.Reserve? {
      s' := ReserveFollows(cfg, p, s, task, step.replyLost);
    } else {
      SameEffect(p, s, task, step);
      s' := MoveConfirm(cfg, p, s, task, step);
    }
  }

  // ---------------------------------------------------------------- login requests

  lemma {:induction false} UnmarkedLoginFollows(cfg: Config, p: Process, s: State, login: DictionaryLogin)
    returns (s': State)
    requires ProcessIs(cfg, p, s) && login.VerifyLogin? && !IsMarked(login.id)
    requires p.now <= login.readAt <= login.saveAt
    ensures ProcessIs(cfg, AfterLogin(cfg, p, login), s')
  {
    var VerifyLogin(id, email, code, readAt, saveAt) := login;
    UnmarkedLoginIsLapses(p.store, s.challenges, id, email, code, cfg.maxAttempts, p.now, readAt, saveAt);
    s' := Sweep(cfg, p, s);
    s' := MoveClock(cfg, p, s', saveAt);
    if SweptUntil(p.store, id, email, code, cfg.maxAttempts, p.now, readAt, saveAt) != p.now {
      SweptTwice(s.challenges, p.now, saveAt);
      s' := Sweep(cfg, p.(now := saveAt), s');
    }
  }

  /** Everything else that a cleanup at the machine's clock removes, while one challenge is being saved. */
  lemma {:induction false} SweepOthers(
      cfg: Config, p: Process, s: State, challenges: map<string, Record>, cid: string, r: Record)
    returns (s': State)
    requires Together(cfg, p, s) && s.challenges == challenges[cid := r]
    ensures Together(cfg, p, s') && s'.now == s.now && s'.challenges == AllLapsed(challenges, s.now)[cid := r]
  {
    var expired := set c | c in s.challenges && c != cid && !Alive(s.challenges[c], s.now);
    s' := MoveLapses(cfg, p, s, expired);
    assert s.challenges - expired == AllLapsed(challenges, s.now)[cid := r];
  }

  /** What a marked login leaves in the dictionary and in the log. */
  lemma {:induction false} AfterMarkedLogin(cfg: Config, p: Process, s: State, login: DictionaryLogin)
    requires MemoryIs(p.store, s.challenges) && AllGenuine(s.challenges)
    requires login.VerifyLogin? && IsMarked(login.id) && p.now <= login.readAt <= login.saveAt
    ensures var cid, swept := MarkedCid(login.id), AllLapsed(s.challenges, p.now);
            var (left, removed) := Probe(Lookup(swept, cid), login.readAt, cfg.maxAttempts);
            var p' := AfterLogin(cfg, p, login);
            && p' == p.(now := login.saveAt, store := p'.store,
                        log := p.log + [Probed(cid, login.readAt, removed)])
            && MemoryIs(p'.store, Put(if left.Some? then AllLapsed(s.challenges, login.saveAt) else swept, cid, left))
  {
    var VerifyLogin(id, email, code, readAt, saveAt) := login;
    assert id == "reset:" + MarkedCid(id);
    MarkedLoginRefines(cfg, p.store, s.challenges, MarkedCid(id), email, code, p.now, readAt, saveAt);
  }

  /** The machine's part of a marked login: the first sweep, the probe, and the sweep before a save. */
  lemma {:induction false} MoveMarkedLogin(
      cfg: Config, p: Process, s: State, cid: string, readAt: real, saveAt: real)
    returns (s': State)
    requires Together(cfg, p, s) && p.now <= readAt <= saveAt
    ensures var swept := AllLapsed(s.challenges, p.now);
            var (left, removed) := Probe(Lookup(swept, cid), readAt, cfg.maxAttempts);
            && Together(cfg, p.(now := saveAt, log := p.log + [Probed(cid, readAt, removed)]), s')
            && s'.challenges == Put(if left.Some? then AllLapsed(s.challenges, saveAt) else swept, cid, left)
  {
    var swept := AllLapsed(s.challenges, p.now);
    s' := Sweep(cfg, p, s);
    s' := MoveClock(cfg, p, s', saveAt);
    s' := MoveProbe(cfg, p.(now := saveAt), s', cid, readAt);
    var (left, removed) := Probe(Lookup(swept, cid), readAt, cfg.maxAttempts);
    if left.Some? {
      SweptTwice(s.challenges, p.now, saveAt);
      var logged := p.(now := saveAt, log := p.log + [Probed(cid, readAt, removed)]);
      s' := SweepOthers(cfg, logged, s', swept, cid, left.value);
    }
  }

  lemma {:induction false} MarkedLoginFollows(cfg: Config, p: Process, s: State, login: DictionaryLogin)
    returns (s': State)
    requires ProcessIs(cfg, p, s) && login.VerifyLogin? && IsMarked(login.id)
    requires p.now <= login.readAt <= login.saveAt
    ensures ProcessIs(cfg, AfterLogin(cfg, p, login), s')
  {
    AreGenuine(cfg, s);
    AfterMarkedLogin(cfg, p, s, login);
    s' := MoveMarkedLogin(cfg, p, s, MarkedCid(login.id), login.readAt, login.saveAt);
  }

  lemma {:induction false} LoginFollows(cfg: Config, p: Process, s: State, r: Request<DictionaryLogin>)
    returns (s': State)
    requires r.LoginRequest? && ProcessIs(cfg, p, s) && ProcessAllows(p, r)
    ensures ProcessIs(cfg, ProcessStep(cfg, p, r), s')
  {
    match r.login
    case SaveLogin(id, record) =>
      IssuedIdsAreUnmarked(id);
      LoginSaveIsLapses(p.store, s.challenges, id, record, p.now);
      s' := Sweep(cfg, p, s);
    case DeleteLogin(id) =>
      IssuedIdsAreUnmarked(id);
      LoginDeleteIsNothing(p.store, s.challenges, id);
      s' := s;
    case VerifyLogin(id, _, _, _, _) =>
      if IsMarked(id) {
        s' := MarkedLoginFollows(cfg, p, s, r.login);
      } else {
        s' := UnmarkedLoginFollows(cfg, p, s, r.login);
      }
  }

  // ---------------------------------------------------------------- whole runs

  lemma {:induction false} RequestFollows(cfg: Config, p: Process, s: State, r: Request<DictionaryLogin>)
    returns (s': State)
    requires ProcessIs(cfg, p, s) && ProcessAllows(p, r)
    ensures ProcessIs(cfg, ProcessStep(cfg, p, r), s')
  {
    match r
    case Tick(to) => s' := MoveClock(cfg, p, s, to);
    case StartReset(_, _, _, _) => s' := StartFollows(cfg, p, s, r);
    case DeliveryFails(_) => s' := DeliveryFollows(cfg, p, s, r);
    case VerifyReset(_, _, _, _, _) => s' := VerifyFollows(cfg, p, s, r);
    case MintToken(task, jti) =>
      AllowedIsEnabled(p, r, s);
      s' := MoveMint(cfg, p, s, task, jti);
    case Confirming(task, step) => s' := ConfirmFollows(cfg, p, s, task, step);
    case LoginRequest(_) => s' := LoginFollows(cfg, p, s, r);
  }

  lemma {:induction false} ProcessReaches(
      cfg: Config, ps: seq<Process>, rs: seq<Request<DictionaryLogin>>, n: nat) returns (s: State)
    requires ProcessRun(cfg, ps, rs) && n < |ps|
    ensures ProcessIs(cfg, ps[n], s)
  {
    if n == 0 {
      s := Init(ps[0].now);
      StartIsReached(cfg, ps[0].now);
    } else {
      s := ProcessReaches(cfg, ps, rs, n - 1);
      assert ProcessLeads(cfg, ps[n - 1], rs[n - 1], ps[n]);
      s := RequestFollows(cfg, ps[n - 1], s, rs[n - 1]);
    }
  }

  /**
   Every run on the in-process tables is a behaviour of the machine: with the same verdicts,
   calls and acknowledgements in the same order, and the same challenges and reservations.
   */
  lemma {:induction false} ProcessRunIsBehaviour(
      cfg: Config, ps: seq<Process>, rs: seq<Request<DictionaryLogin>>, n: nat)
    returns (states: seq<State>, actions: seq<Action>)
    requires ProcessRun(cfg, ps, rs) && n < |ps|
    ensures Behaviour(cfg, states, actions)
    ensures var s := states[|actions|];
            && ps[n].log == Visible(s.trace) && ps[n].reservations == s.reservations && ps[n].confirms == s.confirms
            && MemoryIs(ps[n].store, s.challenges)
  {
    var s := ProcessReaches(cfg, ps, rs, n);
    states, actions :| Behaviour(cfg, states, actions) && states[|actions|] == s;
  }

  /** So in the log of every run all that the machine promises holds. */
  lemma {:induction false} ProcessRunLogIsSound(
      cfg: Config, ps: seq<Process>, rs: seq<Request<DictionaryLogin>>, n: nat)
    requires ProcessRun(cfg, ps, rs) && n < |ps|
    ensures IsSound(cfg, ps[n].log)
  {
    var states, actions := ProcessRunIsBehaviour(cfg, ps, rs, n);
    LogIsSound(cfg, states, actions);
  }

  lemma {:induction false} StoreAcceptsIssuedCode(
      cfg: Config, p: Process, s: State, r: Request<DictionaryLogin>, j: nat)
    requires ProcessIs(cfg, p, s) && ProcessAllows(p, r) && r.VerifyReset? && StillUsable(cfg, p.log, j)
    requires var e := p.log[j];
             && r.cid == e.cid && r.code == e.code && cfg.normalize(r.email) == e.email
             && Seconds(p.now) < e.expiresAt
    ensures var verdict := MemoryVerify(p.store, r.cid, cfg.normalize(r.email), r.code, cfg.maxAttempts, p.now).1;
            verdict.Verified? && verdict.record.account == Some(p.log[j].account)
  {
    AreGenuine(cfg, s);
    var s1 := Sweep(cfg, p, s);
    SameVerdict(cfg, p, s, s1, r);
    LogAcceptsIssuedCode(cfg, p, s1, j, r.email, r.readAt);
  }

  /** A verification that submits a code which by the log is still usable is answered with the account it is for. */
  lemma {:induction false} ProcessAcceptsIssuedCode(
      cfg: Config, ps: seq<Process>, rs: seq<Request<DictionaryLogin>>, n: nat, j: nat)
    requires ProcessRun(cfg, ps, rs) && n < |rs| && rs[n].VerifyReset? && StillUsable(cfg, ps[n].log, j)
    requires var e := ps[n].log[j];
             && rs[n].cid == e.cid && rs[n].code == e.code && cfg.normalize(rs[n].email) == e.email
             && Seconds(ps[n].now) < e.expiresAt
    ensures AnswersWith(ps[n], rs[n], ps[n + 1], ps[n].log[j].account)
  {
    assert ProcessLeads(cfg, ps[n], rs[n], ps[n + 1]);
    var s := ProcessReaches(cfg, ps, rs, n);
    StoreAcceptsIssuedCode(cfg, ps[n], s, rs[n], j);
  }

  /** An update is acknowledged by the step in which its call answers 200, and by no other. */
  lemma {:induction false} ProcessAcksExactly(
      cfg: Config, ps: seq<Process>, rs: seq<Request<DictionaryLogin>>, n: nat, task: nat)
    requires ProcessRun(cfg, ps, rs) && n < |rs|
    ensures AddsAck(ps[n].log, ps[n + 1].log, task) <==> rs[n] == Confirming(task, UpdateReply(Some(200)))
  {
    var p, p' := ps[n], ps[n + 1];
    assert ProcessLeads(cfg, p, rs[n], p');
    if rs[n] == Confirming(task, UpdateReply(Some(200))) {
      assert p'.log[|p.log|].Acked?;
    }
  }

  /** A start creates a challenge if and only if all identities but one are administrators', for that one. */
  lemma {:induction false} ProcessStartsExactly(
      cfg: Config, ps: seq<Process>, rs: seq<Request<DictionaryLogin>>, n: nat)
    requires ProcessRun(cfg, ps, rs) && n < |rs| && rs[n].StartReset?
    ensures CreatesExactly(cfg, ps[n], rs[n], ps[n + 1])
  {
    assert ProcessLeads(cfg, ps[n], rs[n], ps[n + 1]);
    UniqueIsOnlyNonAdmin(rs[n].identities);
  }

  // ---------------------------------------------------------------- the dictionary of a run

  /** The calls of the challenge store that a request makes. */
  function OpsOf(cfg: Config, p: Process, r: Request<DictionaryLogin>): seq<Serial.Op> {
    match r
    case StartReset(identities, cid, code, readAt) =>
      var found := Resettable(identities);
      if |found| != 1 then []
      else [Serial.Save(Reset(cid), IssuedRecord(cfg, found[0], cid, code, readAt), cfg.ttl, p.now)]
    case DeliveryFails(cid) => [Serial.Delete(Reset(cid), p.now)]
    case VerifyReset(_, cid, email, code, readAt) => [Serial.VerifyReset(cid, cfg.normalize(email), code, p.now)]
    case LoginRequest(SaveLogin(id, record)) => [Serial.Save(Login(id), record, cfg.ttl, p.now)]
    case LoginRequest(DeleteLogin(id)) => [Serial.Delete(Login(id), p.now)]
    case LoginRequest(VerifyLogin(id, email, code, readAt, saveAt)) =>
      [Serial.VerifyLogin(id, email, code, p.now, readAt, saveAt)]
    case _ => []
  }

  function OpsUntil(cfg: Config, ps: seq<Process>, rs: seq<Request<DictionaryLogin>>, n: nat): seq<Serial.Op>
    requires n <= |rs| < |ps|
  {
    if n == 0 then [] else OpsUntil(cfg, ps, rs, n - 1) + OpsOf(cfg, ps[n - 1], rs[n - 1])
  }

  /** One more call, if any. */
  lemma {:induction false} MemoryAppend(ops: seq<Serial.Op>, more: seq<Serial.Op>, max: int)
    requires |more| <= 1
    ensures Serial.MemoryAfter(ops + more, max, |ops + more|)
            == var m := Serial.MemoryAfter(ops, max, |ops|);
               if more == [] then m else Serial.MemoryExec(m, more[0], max).0
  {
    MemoryPrefix(ops, more, max, |ops|);
    if more == [] {
      assert ops + more == ops;
    } else {
      assert (ops + more)[|ops|] == more[0];
    }
  }

  lemma {:induction false} MemoryPrefix(ops: seq<Serial.Op>, more: seq<Serial.Op>, max: int, n: nat)
    requires n <= |ops|
    ensures Serial.MemoryAfter(ops + more, max, n) == Serial.MemoryAfter(ops, max, n)
  {
    if n > 0 {
      MemoryPrefix(ops, more, max, n - 1);
    }
  }

  lemma {:induction false} StepIsSerial(cfg: Config, p: Process, r: Request<DictionaryLogin>)
    requires ProcessAllows(p, r)
    ensures var more := OpsOf(cfg, p, r);
            && |more| <= 1
            && ProcessStep(cfg, p, r).store
               == if more == [] then p.store else Serial.MemoryExec(p.store, more[0], cfg.maxAttempts).0
  {
  }

  /** A run leaves in the dictionary what the store's serial runs leave, whose theorems so hold of its calls. */
  lemma {:induction false} ProcessStoreIsSerial(
      cfg: Config, ps: seq<Process>, rs: seq<Request<DictionaryLogin>>, n: nat)
    requires ProcessRun(cfg, ps, rs) && n <= |rs|
    ensures var ops := OpsUntil(cfg, ps, rs, n); ps[n].store == Serial.MemoryAfter(ops, cfg.maxAttempts, |ops|)
    decreases n
  {
    if n > 0 {
      var i := n - 1;
      ProcessStoreIsSerial(cfg, ps, rs, i);
      assert ProcessLeads(cfg, ps[i], rs[i], ps[n]);
      StepIsSerial(cfg, ps[i], rs[i]);
      MemoryAppend(OpsUntil(cfg, ps, rs, i), OpsOf(cfg, ps[i], rs[i]), cfg.maxAttempts);
    }
  }
}
