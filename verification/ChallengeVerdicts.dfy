/**
 What a verification answers and leaves for any record whatsoever, malformed ones included,
 told from the types and values of its fields: the script, the locked branch, and the login
 verification. And how long the server keeps what is saved.
 */
module ChallengeVerdicts {
  import opened Wrappers
  import opened ChallengeSpec
  import opened BackendSimulation
  import LoginRuns

  /** A number for the script: a boolean is none. */
  predicate IsNumber(f: Field, x: real) {
    (f.Int? && x == f.n as real) || f == Float(x)
  }

  /** An integer for the service: a boolean is one, a fraction is none. */
  predicate IsInteger(f: Field, n: int) {
    f == Int(n) || (f == Bool(true) && n == 1) || (f == Bool(false) && n == 0)
  }

  predicate IsRight(r: Record, email: string, digest: Digest) {
    r.email == Some(email) && r.codeDigest == Some(digest)
  }

  /** The record has an email and a digest and is for resetting a password. */
  predicate IsForReset(r: Record) {
    r.email.Some? && r.codeDigest.Some? && r.purpose == Some("password_reset")
  }

  /** The same record but for its two numbers. */
  predicate SameTexts(r: Record, left: Record) {
    left == r.(attempts := left.attempts, expiresAt := left.expiresAt)
  }

  // ---------------------------------------------------------------- reset challenges

  /** The script on a valid, unexpired record with `a` attempts that expires at `e`. */
  lemma {:induction false} ScriptVerdict(r: Record, email: string, digest: Digest, now: int, max: int, a: real, e: real)
    requires IsForReset(r) && IsNumber(r.attempts, a) && IsNumber(r.expiresAt, e) && e > now as real
    ensures var (left, verdict) := Judge(Some(r), email, digest, now, max);
            if a >= max as real then (left, verdict) == (None, AttemptsExceeded)
            else if IsRight(r, email, digest) then (left, verdict) == (None, Verified(r))
            else if a + 1.0 >= max as real then (left, verdict) == (None, AttemptsExceeded)
            else
              && verdict == Invalid && left.Some? && SameTexts(r, left.value)
              && IsNumber(left.value.attempts, a + 1.0) && IsNumber(left.value.expiresAt, e)
  {
    assert forall x: real :: x == x.Floor as real ==> IsNumber(Encoded(x), x);
  }

  /** Every other record is removed. */
  lemma {:induction false} ScriptRefuses(raw: Option<Record>, email: string, digest: Digest, now: int, max: int)
    requires raw.Some? ==>
               !(IsForReset(raw.value)
                 && exists a: real, e: real ::
                      IsNumber(raw.value.attempts, a) && IsNumber(raw.value.expiresAt, e) && e > now as real)
    ensures Judge(raw, email, digest, now, max) == (None, Invalid)
  {
    if raw.Some? && ScriptTyped(raw.value) {
      var a, e := LuaNumber(raw.value.attempts).value, LuaNumber(raw.value.expiresAt).value;
      assert IsNumber(raw.value.attempts, a) && IsNumber(raw.value.expiresAt, e);
    }
  }

  /** The locked branch, cleanup included, on a valid, unexpired record. */
  lemma {:induction false} ServiceVerdict(r: Record, email: string, digest: Digest, at: real, max: int, a: int, e: int)
    requires IsForReset(r) && IsInteger(r.attempts, a) && IsInteger(r.expiresAt, e) && e > at.Floor
    ensures DecideAt(r, email, digest, at, max)
            == if a >= max then (None, AttemptsExceeded)
               else if IsRight(r, email, digest) then (None, Verified(r))
               else if a + 1 >= max then (None, AttemptsExceeded)
               else (Some(r.(attempts := Int(a + 1))), Invalid)
  {
  }

  lemma {:induction false} ServiceRefuses(r: Record, email: string, digest: Digest, at: real, max: int)
    requires !(IsForReset(r)
               && exists a: int, e: int :: IsInteger(r.attempts, a) && IsInteger(r.expiresAt, e) && e > at.Floor)
    ensures DecideAt(r, email, digest, at, max) == (None, Invalid)
  {
    if WellTyped(r) {
      assert IsInteger(r.attempts, PyInt(r.attempts).value) && IsInteger(r.expiresAt, PyInt(r.expiresAt).value);
    }
  }

  // ---------------------------------------------------------------- login challenges

  /**
   A login verification that loaded a well-typed record with `a` attempts that expires at `e`,
   against whatever the server holds by then. A counted failure is kept until the expiry, and
   less than a second and the delay of the save longer.
   */
  lemma {:induction false} LoginVerdict(
      cells: map<string, Cell>, id: string, r: Record, email: string, code: string, max: int,
      readAt: real, saveAt: real, a: int, e: int)
    requires r.email.Some? && r.codeDigest.Some? && IsInteger(r.attempts, a) && IsInteger(r.expiresAt, e)
    ensures var (cells', accepted) := FinishLogin(cells, id, Some(r), email, code, max, readAt, saveAt);
            var key, right := "ouros:auth:email-otp:" + id, IsRight(r, email, CodeDigest(id, code));
            && (accepted <==> right && a < max && e > readAt.Floor)
            && cells' - {key} == cells - {key}
            && if !right && a + 1 < max && e > readAt.Floor
               then
                 && key in cells' && cells'[key].record == r.(attempts := Int(a + 1))
                 && e as real + (saveAt - readAt) <= cells'[key].deadline < e as real + (saveAt - readAt) + 1.0
               else key !in cells'
  {
  }

  /** A malformed record is removed, and nothing is found under a missing key. */
  lemma {:induction false} LoginRefuses(
      cells: map<string, Cell>, id: string, raw: Option<Record>, email: string, code: string, max: int,
      readAt: real, saveAt: real)
    requires raw.Some? ==>
               !(raw.value.email.Some? && raw.value.codeDigest.Some?
                 && exists a: int, e: int :: IsInteger(raw.value.attempts, a) && IsInteger(raw.value.expiresAt, e))
    ensures FinishLogin(cells, id, raw, email, code, max, readAt, saveAt)
            == (if raw.None? then cells else cells - {"ouros:auth:email-otp:" + id}, false)
  {
    if raw.Some? && WellTyped(raw.value) {
      assert IsInteger(raw.value.attempts, PyInt(raw.value.attempts).value)
             && IsInteger(raw.value.expiresAt, PyInt(raw.value.expiresAt).value);
    }
  }

  // ---------------------------------------------------------------- how long records stay

  /** A started challenge stays until its expiry, and less than a second and the delay of its save longer. */
  lemma {:induction false} StartStaysUntilExpiry(
      cells: map<string, Cell>, id: string, email: string, account: Account, code: string, ttl: int,
      readAt: real, at: real)
    requires ttl >= 1
    ensures var login := LoginRecord(id, email, code, ttl, readAt);
            var reset := ResetRecord(id, email, account, code, ttl, readAt);
            var afterLogin, afterReset :=
              RedisSave(cells, Login(id), login, ttl, at), RedisSave(cells, Reset(id), reset, ttl, at);
            var l, r := "ouros:auth:email-otp:" + id, "ouros:auth:password-reset-otp:" + id;
            && l in afterLogin && afterLogin[l].record == login && login.expiresAt == Int(readAt.Floor + ttl)
            && r in afterReset && afterReset[r].record == reset && reset.expiresAt == Int(readAt.Floor + ttl)
            && afterLogin[l].deadline == at + ttl as real == afterReset[r].deadline
  {
  }

  lemma {:induction false} StaysDeleted(ops: seq<Op>, max: int, i: nat, n: nat)
    requires ProperRun(ops) && i < n <= |ops| && ops[i].Delete?
    requires forall k :: i < k < n && SlotOf(ops[k]) == ops[i].slot ==> !ops[k].Save?
    ensures MemKey(ops[i].slot) !in MemoryAfter(ops, max, n)
    decreases n
  {
    if n > i + 1 {
      StaysDeleted(ops, max, i, n - 1);
      assert Proper(ops[i]);
      if SlotOf(ops[n - 1]) != ops[i].slot {
        LoginRuns.OtherSlotUntouched(MemoryAfter(ops, max, n - 1), ops[n - 1], max, ops[i].slot);
      }
    }
  }

  /** After a delete both backends refuse every verification of the challenge, until it is started again. */
  lemma {:induction false} DeletedIsRefused(ops: seq<Op>, max: int, i: nat, j: nat)
    requires ProperRun(ops) && i < j < |ops| && ops[i].Delete? && SlotOf(ops[j]) == ops[i].slot
    requires forall k :: i < k < j && SlotOf(ops[k]) == ops[i].slot ==> !ops[k].Save?
    ensures ops[j].VerifyLogin? ==> MemoryReply(ops, max, j) == RedisReply(ops, max, j) == LoginReply(false)
    ensures ops[j].VerifyReset? ==> MemoryReply(ops, max, j) == RedisReply(ops, max, j) == ResetReply(Invalid)
  {
    StaysDeleted(ops, max, i, j);
    BackendsAgree(ops, max);
  }
}
