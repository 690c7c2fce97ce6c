/**
 The reset service over the in-process backends: the three entry points as one caller runs
 them, each in terms of what it does to the two tables they share with all other callers.
 */
module PasswordResetService {
  import opened Wrappers
  import opened ChallengeSpec
  import opened ChallengeStores
  import opened Reservations
  import opened ResetProtocol

  datatype ConfirmResult = Updated | TokenInvalid | Unavailable

  /** A held id stays in the table through other callers' activity that ends before it runs out. */
  lemma {:induction false} HeldSurvives(r: map<Jti, real>, jti: Jti, ops: seq<Op>, n: nat)
    requires n <= |ops| && jti in r && forall i :: 0 <= i < n ==> ops[i].jti != jti && ops[i].at < r[jti]
    ensures jti in After(r, ops, n) && After(r, ops, n)[jti] == r[jti]
  {
    if n > 0 {
      HeldSurvives(r, jti, ops, n - 1);
    }
  }

  class Service {
    const store: InProcessStore
    const table: ReservationTable
    const cfg: Config

    constructor (store: InProcessStore, table: ReservationTable, cfg: Config)
      ensures this.store == store && this.table == table && this.cfg == cfg
    {
      this.store, this.table, this.cfg := store, table, cfg;
    }

    /**
     Answers with a challenge id in any case. Only an identity that is the only one but for
     administrators' gets a challenge, while the challenge service is ready; everybody else
     gets an id that belongs to none.
     */
    method StartReset(ready: bool, identities: seq<Identity>, dummyId: string, newId: string, code: string,
                      readAt: real, at: real)
      returns (challengeId: string)
      requires store.Valid()
      modifies store`memory
      ensures store.Valid()
      ensures forall i: nat :: ready && OnlyNonAdmin(identities, i) ==>
                && challengeId == newId
                && store.Contents()
                   == MemorySave(old(store.Contents()), Reset(newId), ResetRecord(
                                 newId, cfg.normalize(identities[i].email), identities[i].account, code, cfg.ttl,
                                 readAt), at)
      ensures !(ready && exists i: nat :: OnlyNonAdmin(identities, i)) ==>
                challengeId == dummyId && store.Contents() == old(store.Contents())
    {
      var found := Resettable(identities);
      UniqueIsOnlyNonAdmin(identities);
      if |found| != 1 || !ready {
        return dummyId;
      }
      var record := new StoredRecord(
        ResetRecord(newId, cfg.normalize(found[0].email), found[0].account, code, cfg.ttl, readAt));
      store.Save(Reset(newId), record, at);
      return newId;
    }

    /**
     A successful verification uses up the challenge and yields the claims of a new token.
     While the challenge service is not ready there is no verdict and nothing changes.
     */
    method VerifyCode(ready: bool, cid: string, email: string, code: string, at: real, jti: Jti, mintAt: real)
      returns (verdict: Option<Verdict>, claims: Option<Claims>)
      requires store.Valid()
      modifies store`memory, store.memory.Values
      ensures store.Valid()
      ensures verdict.Some? <==> ready
      ensures !ready ==> store.Contents() == old(store.Contents())
      ensures ready ==>
                var (after, answer) :=
                  MemoryVerify(old(store.Contents()), cid, cfg.normalize(email), code, store.maxAttempts, at);
                store.Contents() == after && verdict == Some(answer)
      ensures claims.Some? <==> ready && verdict.value.Verified? && verdict.value.record.account.Some?
      ensures claims.Some? ==>
                && MemKey(Reset(cid)) !in store.Contents()
                && claims.value.email == cfg.normalize(email)
                && Some(claims.value.account) == old(store.Contents())[MemKey(Reset(cid))].account
                && claims.value.jti == jti
                && mintAt + cfg.tokenTtl as real - 1.0 < claims.value.exp as real <= mintAt + cfg.tokenTtl as real
                && mintAt - 1.0 < claims.value.issuedAt as real <= mintAt
    {
      verdict, claims := None, None;
      if !ready {
        return;
      }
      var answer := store.VerifyPasswordReset(cid, cfg.normalize(email), code, at);
      verdict := Some(answer);
      if answer.Verified? && answer.record.account.Some? {
        var issuedAt := Seconds(mintAt);
        claims := Some(
          Claims(answer.record.email.value, answer.record.account.value, jti, issuedAt, issuedAt + cfg.tokenTtl));
      }
    }

    /** What other callers do to the reservations while this one awaits its update call. */
    method OtherCallers(ops: seq<Op>)
      modifies table
      ensures table.blacklist == After(old(table.blacklist), ops, |ops|)
    {
      for n := 0 to |ops|
        invariant table.blacklist == After(old(table.blacklist), ops, n)
      {
        match ops[n] {
          case Take(jti, ttl, at) =>
            var reserved := table.ReserveToken(jti, ttl, at);
          case Free(jti, at) =>
            table.ReleaseToken(jti);
        }
      }
    }

    /**
     One confirmation: the token is checked at `checkAt`, its remaining time computed at
     `readAt`, its id reserved at `at`, and the update call answers `status` (`None`: it timed
     out) at `doneAt`, after other callers have done `others`. When others leave the id alone,
     a failed update leaves the reservations as if this call had never run, and a successful
     one keeps the id reserved at least until the token expires.
     */
    method ConfirmReset(claims: Claims, strongPassword: bool, checkAt: real, readAt: real, at: real,
                        status: Option<int>, others: seq<Op>, doneAt: real) returns (result: ConfirmResult)
      requires checkAt <= readAt <= at && Timely(others, at, doneAt)
      modifies table
      ensures var before := old(table.blacklist);
              var admitted := checkAt < claims.exp as real && strongPassword && claims.account.accountType != Admin;
              var (reserved, free) := MemoryReserve(before, claims.jti, RemainingTtl(claims.exp, readAt), at);
              && (result == Updated <==> admitted && free && status == Some(200))
              && (result == Unavailable <==> admitted && free && status !in {Some(200), Some(400), Some(404)})
              && (!admitted ==> table.blacklist == before)
              && (admitted && !free ==> SameView(table.blacklist, before, at))
              && (admitted && free && (forall i :: 0 <= i < |others| ==> others[i].jti != claims.jti) ==>
                    && (result != Updated ==> SameView(table.blacklist, After(before, others, |others|), doneAt)
                                              && claims.jti !in table.blacklist)
                    && (result == Updated && doneAt < claims.exp as real ==>
                          claims.jti in table.blacklist && table.blacklist[claims.jti] >= claims.exp as real))
    {
      if !(checkAt < claims.exp as real) || !strongPassword || !MayReset(claims.account.accountType) {
        return TokenInvalid;
      }
      var ttl := RemainingTtl(claims.exp, readAt);
      var free := table.ReserveToken(claims.jti, ttl, at);
      if !free {
        SweptLater(old(table.blacklist), at, at);
        return TokenInvalid;
      }
      OtherCallers(others);
      ghost var before := old(table.blacklist);
      ghost var leftAlone := forall i :: 0 <= i < |others| ==> others[i].jti != claims.jti;
      if status == Some(200) {
        if leftAlone && doneAt < claims.exp as real {
          ReservationOutlivesToken(claims.exp, readAt, at);
          HeldSurvives(MemoryReserve(before, claims.jti, ttl, at).0, claims.jti, others, |others|);
        }
        return Updated;
      }
      table.ReleaseToken(claims.jti);
      if leftAlone {
        FailedUpdateLeavesNoTrace(before, claims.jti, ttl, at, others, doneAt);
      }
      return if status == Some(404) || status == Some(400) then TokenInvalid else Unavailable;
    }
  }
}
