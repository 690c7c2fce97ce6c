/**
 The protocol's steps, as the two backends perform them. The server's keys hold exactly the
 machine's challenges until their deadlines, which it reclaims as lapses. The in-process
 dictionary reclaims whatever has expired, which is a lapse for each, and then does the
 machine's step. Login verifications share that dictionary: they are lapses at most, unless
 they name a reset challenge, when they are the machine's `MarkedLogin`.
 */
module ResetRefinement {
  import opened Wrappers
  import opened ChallengeSpec
  import opened Reservations
  import opened BackendSimulation
  import opened ResetProtocol
  import opened ResetInvariant

  // ---------------------------------------------------------------- the dictionary

  /** The dictionary's entries under reset keys are the machine's challenges. */
  ghost predicate MemoryIs(m: map<string, Record>, challenges: map<string, Record>) {
    forall cid: string :: Lookup(m, MemKey(Reset(cid))) == Lookup(challenges, cid)
  }

  /** The challenges after every one that has expired by `t` has lapsed. */
  function AllLapsed(challenges: map<string, Record>, t: real): map<string, Record> {
    map cid | cid in challenges && Alive(challenges[cid], t) :: challenges[cid]
  }

  lemma {:induction false} CleanupIsLapses(m: map<string, Record>, challenges: map<string, Record>, t: real)
    requires MemoryIs(m, challenges)
    ensures MemoryIs(Cleaned(m, t), AllLapsed(challenges, t))
  {
    forall cid: string
      ensures Lookup(Cleaned(m, t), MemKey(Reset(cid))) == Lookup(AllLapsed(challenges, t), cid)
    {
      assert Lookup(m, MemKey(Reset(cid))) == Lookup(challenges, cid);
    }
  }

  lemma {:induction false} SlotUpdated(
      m: map<string, Record>, m': map<string, Record>, challenges: map<string, Record>, cid: string)
    requires MemoryIs(m, challenges)
    requires forall k :: k != MemKey(Reset(cid)) ==> Lookup(m', k) == Lookup(m, k)
    ensures MemoryIs(m', Put(challenges, cid, Lookup(m', MemKey(Reset(cid)))))
  {
    var challenges' := Put(challenges, cid, Lookup(m', MemKey(Reset(cid))));
    forall c: string
      ensures Lookup(m', MemKey(Reset(c))) == Lookup(challenges', c)
    {
      PrefixCancels("reset:", c, cid);
      assert Lookup(m, MemKey(Reset(c))) == Lookup(challenges, c);
    }
  }

  /** A key that is no reset key does not matter. */
  lemma {:induction false} OtherKeyUpdated(
      m: map<string, Record>, m': map<string, Record>, challenges: map<string, Record>, key: string)
    requires MemoryIs(m, challenges) && !IsMarked(key)
    requires forall k :: k != key ==> Lookup(m', k) == Lookup(m, k)
    ensures MemoryIs(m', challenges)
  {
    forall c: string
      ensures Lookup(m', MemKey(Reset(c))) == Lookup(challenges, c)
    {
      assert MemKey(Reset(c)) == "reset:" + c;
      assert Lookup(m, MemKey(Reset(c))) == Lookup(challenges, c);
    }
  }

  // ---------------------------------------------------------------- reset operations in process

  /** The locked in-process verification is a lapse of all that expired, then the machine's step. */
  lemma {:induction false} InProcessVerifyRefines(
      cfg: Config, m: map<string, Record>, s: State, cid: string, email: string, code: string)
    requires MemoryIs(m, s.challenges) && AllGenuine(s.challenges)
    ensures var swept := s.(challenges := AllLapsed(s.challenges, s.now));
            var (left, verdict) := Decision(cfg, swept, cid, email, code, s.now);
            var (m', answer) := MemoryVerify(m, cid, cfg.normalize(email), code, cfg.maxAttempts, s.now);
            answer == verdict && MemoryIs(m', Put(swept.challenges, cid, left))
  {
    CleanupIsLapses(m, s.challenges, s.now);
    var c := Cleaned(m, s.now);
    var swept := s.(challenges := AllLapsed(s.challenges, s.now));
    var (m', answer) := MemoryVerify(m, cid, cfg.normalize(email), code, cfg.maxAttempts, s.now);
    assert Lookup(c, MemKey(Reset(cid))) == Lookup(swept.challenges, cid);
    if cid in swept.challenges {
      assert IsGenuine(cid, s.challenges[cid]);
      SameOnWholeNumbers(s.challenges[cid], cfg.normalize(email), CodeDigest(cid, code), s.now, cfg.maxAttempts);
    }
    SlotUpdated(c, m', swept.challenges, cid);
    assert Lookup(m', MemKey(Reset(cid))) == Decision(cfg, swept, cid, email, code, s.now).0;
  }

  lemma {:induction false} InProcessStartRefines(
      m: map<string, Record>, challenges: map<string, Record>, cid: string, record: Record, at: real)
    requires MemoryIs(m, challenges)
    ensures MemoryIs(MemorySave(m, Reset(cid), record, at), AllLapsed(challenges, at)[cid := record])
  {
    CleanupIsLapses(m, challenges, at);
    var m' := MemorySave(m, Reset(cid), record, at);
    SlotUpdated(Cleaned(m, at), m', AllLapsed(challenges, at), cid);
    assert Lookup(m', MemKey(Reset(cid))) == Some(record);
  }

  lemma {:induction false} InProcessDeleteRefines(m: map<string, Record>, challenges: map<string, Record>, cid: string)
    requires MemoryIs(m, challenges)
    ensures MemoryIs(m - {MemKey(Reset(cid))}, challenges - {cid})
  {
    SlotUpdated(m, m - {MemKey(Reset(cid))}, challenges, cid);
  }

  // ---------------------------------------------------------------- login operations in process

  /** A login id that is the key of a reset challenge, in the shared dictionary. */
  predicate IsMarked(id: string) {
    "reset:" <= id
  }

  /** The challenge whose key it is. */
  function MarkedCid(id: string): (cid: string)
    requires IsMarked(id)
    ensures MemKey(Login(id)) == MemKey(Reset(cid))
  {
    id[6..]
  }

  lemma {:induction false} IssuedIdsAreUnmarked(id: string)
    requires ':' !in id
    ensures !IsMarked(id)
  {
    assert "reset:"[5] == ':';
  }

  /** Starting a login challenge is a lapse of all that expired, and nothing else to the reset challenges. */
  lemma {:induction false} LoginSaveIsLapses(
      m: map<string, Record>, challenges: map<string, Record>, id: string, r: Record, at: real)
    requires MemoryIs(m, challenges) && !IsMarked(id)
    ensures MemoryIs(MemorySave(m, Login(id), r, at), AllLapsed(challenges, at))
  {
    CleanupIsLapses(m, challenges, at);
    OtherKeyUpdated(Cleaned(m, at), MemorySave(m, Login(id), r, at), AllLapsed(challenges, at), id);
  }

  lemma {:induction false} LoginDeleteIsNothing(m: map<string, Record>, challenges: map<string, Record>, id: string)
    requires MemoryIs(m, challenges) && !IsMarked(id)
    ensures MemoryIs(m - {MemKey(Login(id))}, challenges)
  {
    OtherKeyUpdated(m, m - {MemKey(Login(id))}, challenges, id);
  }

  /** The clock reading up to which a login verification has cleaned up: it saves only a failure with attempts left. */
  function SweptUntil(
      m: map<string, Record>, id: string, email: string, code: string, max: int,
      loadAt: real, readAt: real, saveAt: real): real
  {
    if MemKey(Login(id)) in MemoryLogin(m, id, email, code, max, loadAt, readAt, saveAt).0 then saveAt else loadAt
  }

  /** Apart from its own key, a login verification only cleans up. */
  lemma {:induction false} LoginKeepsOthers(
      m: map<string, Record>, id: string, email: string, code: string, max: int,
      loadAt: real, readAt: real, saveAt: real, k: string)
    requires loadAt <= readAt <= saveAt && k != MemKey(Login(id))
    ensures Lookup(MemoryLogin(m, id, email, code, max, loadAt, readAt, saveAt).0, k)
            == Lookup(Cleaned(m, SweptUntil(m, id, email, code, max, loadAt, readAt, saveAt)), k)
  {
    assert Seconds(loadAt) <= Seconds(saveAt);
  }

  /** A login verification under any other id is a lapse of what has expired, and nothing else. */
  lemma {:induction false} UnmarkedLoginIsLapses(
      m: map<string, Record>, challenges: map<string, Record>, id: string, email: string, code: string, max: int,
      loadAt: real, readAt: real, saveAt: real)
    requires MemoryIs(m, challenges) && !IsMarked(id) && loadAt <= readAt <= saveAt
    ensures MemoryIs(MemoryLogin(m, id, email, code, max, loadAt, readAt, saveAt).0,
                     AllLapsed(challenges, SweptUntil(m, id, email, code, max, loadAt, readAt, saveAt)))
  {
    var t := SweptUntil(m, id, email, code, max, loadAt, readAt, saveAt);
    var m' := MemoryLogin(m, id, email, code, max, loadAt, readAt, saveAt).0;
    CleanupIsLapses(m, challenges, t);
    forall k | k != id
      ensures Lookup(m', k) == Lookup(Cleaned(m, t), k)
    {
      LoginKeepsOthers(m, id, email, code, max, loadAt, readAt, saveAt, k);
    }
    OtherKeyUpdated(Cleaned(m, t), m', AllLapsed(challenges, t), id);
  }

  lemma {:induction false} SweptTwice(challenges: map<string, Record>, t: real, t': real)
    requires t <= t'
    ensures AllLapsed(AllLapsed(challenges, t), t') == AllLapsed(challenges, t')
  {
    assert Seconds(t) <= Seconds(t');
  }

  /** No code submitted under a reset key has the digest of a code the service issued. */
  lemma {:induction false} MarkedDigestDiffers(cid: string, issued: string, code: string)
    requires ':' !in cid && ':' !in issued
    ensures CodeDigest("reset:" + cid, code) != CodeDigest(cid, issued)
  {
    var p1, p2 := ("reset:" + cid) + (":" + code), cid + (":" + issued);
    assert p1[5] == ':' && p1[6 + |cid|] == ':' && p2[|cid|] == ':';
    assert forall i :: 0 <= i < |p2| && i != |cid| ==> p2[i] == if i < |cid| then cid[i] else issued[i - |cid| - 1];
  }

  /**
   A login verification under a reset key is never accepted; it is a lapse of what has
   expired and the machine's `MarkedLogin`, which costs the challenge an attempt.
   */
  lemma {:induction false} MarkedLoginRefines(
      cfg: Config, m: map<string, Record>, challenges: map<string, Record>, cid: string, email: string, code: string,
      loadAt: real, readAt: real, saveAt: real)
    requires MemoryIs(m, challenges) && AllGenuine(challenges) && loadAt <= readAt <= saveAt
    ensures var (m', accepted) := MemoryLogin(m, "reset:" + cid, email, code, cfg.maxAttempts, loadAt, readAt, saveAt);
            var swept := AllLapsed(challenges, loadAt);
            var (left, removed) := Probe(Lookup(swept, cid), readAt, cfg.maxAttempts);
            && !accepted
            && (removed <==> MemKey(Reset(cid)) in Cleaned(m, loadAt) && MemKey(Reset(cid)) !in m')
            && MemoryIs(m', Put(if left.Some? then AllLapsed(challenges, saveAt) else swept, cid, left))
  {
    var c, key := Cleaned(m, loadAt), MemKey(Reset(cid));
    var swept := AllLapsed(challenges, loadAt);
    var (m', accepted) := MemoryLogin(m, "reset:" + cid, email, code, cfg.maxAttempts, loadAt, readAt, saveAt);
    var (left, _) := Probe(Lookup(swept, cid), readAt, cfg.maxAttempts);
    CleanupIsLapses(m, challenges, loadAt);
    assert Lookup(c, key) == Lookup(swept, cid);
    if cid in swept {
      assert IsGenuine(cid, challenges[cid]);
      var issued: string :| ':' !in issued && challenges[cid].codeDigest == Some(CodeDigest(cid, issued));
      MarkedDigestDiffers(cid, issued, code);
    }
    if left.Some? {
      CleanupIsLapses(c, swept, saveAt);
      SweptTwice(challenges, loadAt, saveAt);
      SlotUpdated(Cleaned(c, saveAt), m', AllLapsed(challenges, saveAt), cid);
    } else {
      SlotUpdated(c, m', swept, cid);
    }
    assert Lookup(m', key) == left;
  }

  // ---------------------------------------------------------------- challenges on the server

  function OnServer(cells: map<string, Cell>, cid: string, t: real): Option<Record> {
    var key := RedisKey(Reset(cid));
    if Present(cells, key, t) then Some(cells[key].record) else None
  }

  /** The server's reset keys are the machine's challenges, with deadlines that reach their expiry. */
  ghost predicate ServerIs(cells: map<string, Cell>, challenges: map<string, Record>, t: real) {
    && (forall cid: string :: OnServer(cells, cid, t) == Lookup(challenges, cid))
    && (forall cid: string :: RedisKey(Reset(cid)) in cells ==>
          Reaches(cells[RedisKey(Reset(cid))].record, cells[RedisKey(Reset(cid))].deadline))
  }

  /** When deadlines pass, the machine's lapses of those challenges are enabled. */
  lemma {:induction false} DeadlineIsLapse(cells: map<string, Cell>, s: State, before: real, cid: string)
    requires ServerIs(cells, s.challenges, before) && before <= s.now
    requires cid in s.challenges && OnServer(cells, cid, s.now) == None
    ensures Enabled(s, LapseChallenge(cid))
  {
    assert OnServer(cells, cid, before) == Lookup(s.challenges, cid);
  }

  /** One reset key is written; the others stay. */
  lemma {:induction false} ServerUpdated(
      cells: map<string, Cell>, cells': map<string, Cell>, challenges: map<string, Record>, cid: string, t: real)
    requires ServerIs(cells, challenges, t)
    requires forall c: string :: c != cid ==>
               (RedisKey(Reset(c)) in cells' <==> RedisKey(Reset(c)) in cells)
               && (RedisKey(Reset(c)) in cells ==> cells'[RedisKey(Reset(c))] == cells[RedisKey(Reset(c))])
    requires RedisKey(Reset(cid)) in cells' ==>
               Reaches(cells'[RedisKey(Reset(cid))].record, cells'[RedisKey(Reset(cid))].deadline)
    ensures ServerIs(cells', Put(challenges, cid, OnServer(cells', cid, t)), t)
  {
    forall c: string
      ensures OnServer(cells', c, t) == Lookup(Put(challenges, cid, OnServer(cells', cid, t)), c)
    {
      assert OnServer(cells, c, t) == Lookup(challenges, c);
    }
  }

  lemma {:induction false} ResetKeysApart(cid: string)
    ensures forall c: string :: c != cid ==> RedisKey(Reset(c)) != RedisKey(Reset(cid))
  {
    forall c: string | c != cid
      ensures RedisKey(Reset(c)) != RedisKey(Reset(cid))
    {
      RedisKeysDistinct(Reset(c), Reset(cid));
    }
  }

  /** The script, run with a clock argument that may be old, is the machine's verification. */
  lemma {:induction false} ScriptRefines(
      cfg: Config, cells: map<string, Cell>, s: State, cid: string, email: string, code: string, readAt: real)
    requires ServerIs(cells, s.challenges, s.now) && AllGenuine(s.challenges)
    ensures var (left, verdict) := Decision(cfg, s, cid, email, code, readAt);
            var (cells', answer) :=
              ScriptVerify(cells, cid, cfg.normalize(email), code, cfg.maxAttempts, Seconds(readAt), s.now);
            answer == verdict && ServerIs(cells', Put(s.challenges, cid, left), s.now)
  {
    var key := RedisKey(Reset(cid));
    var (left, verdict) := Decision(cfg, s, cid, email, code, readAt);
    var (cells', answer) :=
      ScriptVerify(cells, cid, cfg.normalize(email), code, cfg.maxAttempts, Seconds(readAt), s.now);
    assert OnServer(cells, cid, s.now) == Lookup(s.challenges, cid);
    ResetKeysApart(cid);
    if cid in s.challenges {
      assert IsGenuine(cid, s.challenges[cid]);
      WholeNumbersStay(s.challenges[cid].attempts.n);
      WholeNumbersStay(s.challenges[cid].expiresAt.n);
    }
    ServerUpdated(cells, cells', s.challenges, cid, s.now);
    assert OnServer(cells', cid, s.now) == left;
  }

  lemma {:induction false} ServerStartRefines(
      cells: map<string, Cell>, challenges: map<string, Record>, cid: string, record: Record, ttl: int, at: real)
    requires ServerIs(cells, challenges, at) && Reaches(record, at + Max(ttl, 1) as real)
    ensures ServerIs(RedisSave(cells, Reset(cid), record, ttl, at), challenges[cid := record], at)
  {
    ResetKeysApart(cid);
    ServerUpdated(cells, RedisSave(cells, Reset(cid), record, ttl, at), challenges, cid, at);
  }

  lemma {:induction false} ServerDeleteRefines(
      cells: map<string, Cell>, challenges: map<string, Record>, cid: string, at: real)
    requires ServerIs(cells, challenges, at)
    ensures ServerIs(cells - {RedisKey(Reset(cid))}, challenges - {cid}, at)
  {
    ResetKeysApart(cid);
    ServerUpdated(cells, cells - {RedisKey(Reset(cid))}, challenges, cid, at);
  }

  // ---------------------------------------------------------------- reservations

  /** The in-process reservation is a lapse of all that expired, then the machine's reservation. */
  lemma {:induction false} InProcessReserveRefines(s: State, jti: Jti, ttl: int)
    requires ttl >= 1
    ensures MemoryReserve(s.reservations, jti, ttl, s.now)
            == RedisReserve(Swept(s.reservations, s.now), jti, ttl, s.now)
    ensures forall k :: k in s.reservations && k !in Swept(s.reservations, s.now) ==> Enabled(s, LapseReservation(k))
  {
  }
}
