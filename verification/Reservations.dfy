/**
 Reserving a reset token's id before the password update and releasing it when the update
 fails: the in-process dictionary with its sweep, and the server's `SET NX EX`. What matters
 of either is its live view, the reservations whose expiry has not passed.
 */
module Reservations {
  import opened Wrappers

  type Jti = string

  function Swept(r: map<Jti, real>, t: real): map<Jti, real> {
    map k | k in r && r[k] > t :: r[k]
  }

  /** The in-process reservation at time `at`; `None` is the answer "already used". */
  function MemoryReserve(r: map<Jti, real>, jti: Jti, ttl: int, at: real): (map<Jti, real>, bool) {
    var live := Swept(r, at);
    if jti in live then (live, false) else (live[jti := at + ttl as real], true)
  }

  /** `SET key 1 NX EX ttl` at time `at`. */
  function RedisReserve(r: map<Jti, real>, jti: Jti, ttl: int, at: real): (map<Jti, real>, bool) {
    if jti in r && r[jti] > at then (r, false) else (r[jti := at + Max(ttl, 1) as real], true)
  }

  function Release(r: map<Jti, real>, jti: Jti): map<Jti, real> {
    r - {jti}
  }

  /** The seconds a token still has, from a clock read before the reservation, and at least one. */
  function RemainingTtl(exp: int, readAt: real): int {
    Max(exp - Seconds(readAt), 1)
  }

  class ReservationTable {
    var blacklist: map<Jti, real>

    constructor ()
      ensures blacklist == map[]
    {
      blacklist := map[];
    }

    method CleanupBlacklist(now: real)
      modifies this
      ensures blacklist == Swept(old(blacklist), now)
    {
      var expired := set k | k in blacklist && blacklist[k] <= now;
      ghost var all, removed := expired, {};
      while expired != {}
        invariant removed + expired == all
        invariant blacklist == old(blacklist) - removed
        decreases expired
      {
        var k :| k in expired;
        blacklist := blacklist - {k};
        expired, removed := expired - {k}, removed + {k};
      }
    }

    method ReserveToken(jti: Jti, ttl: int, now: real) returns (reserved: bool)
      modifies this
      ensures blacklist == MemoryReserve(old(blacklist), jti, ttl, now).0
      ensures reserved == MemoryReserve(old(blacklist), jti, ttl, now).1
    {
      CleanupBlacklist(now);
      if jti in blacklist {
        return false;
      }
      blacklist := blacklist[jti := now + ttl as real];
      return true;
    }

    method ReleaseToken(jti: Jti)
      modifies this
      ensures blacklist == Release(old(blacklist), jti)
    {
      blacklist := blacklist - {jti};
    }
  }

  // ---------------------------------------------------------------- clock arithmetic

  /**
   A reservation made with a remaining time computed earlier lasts until the token's own
   expiry: the floors and the delay only make it longer.
   */
  lemma {:induction false} ReservationOutlivesToken(exp: int, readAt: real, at: real)
    requires readAt <= at
    ensures at + RemainingTtl(exp, readAt) as real >= exp as real
    ensures RemainingTtl(exp, readAt) >= 1
    ensures at < exp as real ==> at + RemainingTtl(exp, readAt) as real < exp as real + (at - readAt) + 1.0
  {
  }

  // ---------------------------------------------------------------- two backends, one view

  ghost predicate SameView(memory: map<Jti, real>, redis: map<Jti, real>, t: real) {
    Swept(memory, t) == Swept(redis, t)
  }

  lemma {:induction false} SweptLater(r: map<Jti, real>, t: real, t': real)
    requires t <= t'
    ensures Swept(r, t') == Swept(Swept(r, t), t')
  {
  }

  /** Both backends answer alike and keep the same live view, for every positive remaining time. */
  lemma {:induction false} ReserveAgrees(
      memory: map<Jti, real>, redis: map<Jti, real>, jti: Jti, ttl: int, t: real, at: real)
    requires SameView(memory, redis, t) && t <= at && ttl >= 1
    ensures MemoryReserve(memory, jti, ttl, at).1 == RedisReserve(redis, jti, ttl, at).1
    ensures SameView(MemoryReserve(memory, jti, ttl, at).0, RedisReserve(redis, jti, ttl, at).0, at)
  {
    SweptLater(memory, t, at);
    SweptLater(redis, t, at);
    assert jti in Swept(memory, at) <==> jti in Swept(redis, at);
    var m, s := MemoryReserve(memory, jti, ttl, at).0, RedisReserve(redis, jti, ttl, at).0;
    forall k
      ensures k in Swept(m, at) <==> k in Swept(s, at)
      ensures k in Swept(m, at) ==> Swept(m, at)[k] == Swept(s, at)[k]
    {
      assert k in Swept(memory, at) <==> k in Swept(redis, at);
    }
  }

  lemma {:induction false} ReleaseAgrees(memory: map<Jti, real>, redis: map<Jti, real>, jti: Jti, t: real)
    requires SameView(memory, redis, t)
    ensures SameView(Release(memory, jti), Release(redis, jti), t)
  {
    var m, s := Release(memory, jti), Release(redis, jti);
    forall k
      ensures k in Swept(m, t) <==> k in Swept(s, t)
      ensures k in Swept(m, t) ==> Swept(m, t)[k] == Swept(s, t)[k]
    {
      assert k in Swept(memory, t) <==> k in Swept(redis, t);
      assert k in Swept(memory, t) ==> Swept(memory, t)[k] == Swept(redis, t)[k];
    }
  }

  // ---------------------------------------------------------------- a failed update leaves no trace

  datatype Op = Take(jti: Jti, ttl: int, at: real) | Free(jti: Jti, at: real)

  function Exec(r: map<Jti, real>, op: Op): (map<Jti, real>, bool) {
    match op
    case Take(jti, ttl, at) => MemoryReserve(r, jti, ttl, at)
    case Free(jti, _) => (Release(r, jti), true)
  }

  function After(r: map<Jti, real>, ops: seq<Op>, n: nat): map<Jti, real>
    requires n <= |ops|
  {
    if n == 0 then r else Exec(After(r, ops, n - 1), ops[n - 1]).0
  }

  /** The maps with and without a pending reservation of `jti` differ in that reservation only. */
  ghost predicate DiffersOnly(with: map<Jti, real>, without: map<Jti, real>, jti: Jti) {
    with - {jti} == without - {jti}
  }

  lemma {:induction false} ExecAlike(with: map<Jti, real>, without: map<Jti, real>, jti: Jti, op: Op)
    requires DiffersOnly(with, without, jti) && op.jti != jti
    ensures Exec(with, op).1 == Exec(without, op).1
    ensures DiffersOnly(Exec(with, op).0, Exec(without, op).0, jti)
  {
    forall k | k != jti
      ensures k in with <==> k in without
      ensures k in with ==> with[k] == without[k]
    {
      assert k in with - {jti} <==> k in without - {jti};
      if k in with {
        assert (with - {jti})[k] == (without - {jti})[k];
      }
    }
    var w, o := Exec(with, op).0, Exec(without, op).0;
    forall k
      ensures k in w - {jti} <==> k in o - {jti}
      ensures k in w - {jti} ==> (w - {jti})[k] == (o - {jti})[k]
    {
    }
  }

  lemma {:induction false} AfterAlike(with: map<Jti, real>, without: map<Jti, real>, jti: Jti, ops: seq<Op>, n: nat)
    requires DiffersOnly(with, without, jti) && n <= |ops|
    requires forall i :: 0 <= i < n ==> ops[i].jti != jti
    ensures DiffersOnly(After(with, ops, n), After(without, ops, n), jti)
  {
    if n > 0 {
      AfterAlike(with, without, jti, ops, n - 1);
      ExecAlike(After(with, ops, n - 1), After(without, ops, n - 1), jti, ops[n - 1]);
    }
  }

  ghost predicate Timely(ops: seq<Op>, from: real, to: real) {
    && from <= to
    && (forall i :: 0 <= i < |ops| ==> from <= ops[i].at <= to)
    && (forall i, j :: 0 <= i <= j < |ops| ==> ops[i].at <= ops[j].at)
  }

  /** Sweeping now does not change any later answer or any later live view. */
  lemma {:induction false} SweepIsInvisible(r: map<Jti, real>, ops: seq<Op>, from: real, to: real, n: nat, t: real)
    requires Timely(ops, from, to) && n <= |ops|
    requires if n == 0 then from <= t else ops[n - 1].at <= t
    ensures SameView(After(Swept(r, from), ops, n), After(r, ops, n), t)
    ensures n > 0 ==>
              Exec(After(Swept(r, from), ops, n - 1), ops[n - 1]).1 == Exec(After(r, ops, n - 1), ops[n - 1]).1
    decreases n
  {
    if n == 0 {
      SweptLater(r, from, t);
    } else {
      var op := ops[n - 1];
      assert n > 1 ==> ops[n - 2].at <= op.at;
      SweepIsInvisible(r, ops, from, to, n - 1, op.at);
      var a, b := After(Swept(r, from), ops, n - 1), After(r, ops, n - 1);
      match op
      case Take(jti, ttl, at) =>
      case Free(jti, at) =>
        ReleaseAgrees(a, b, jti, at);
        SweptLater(Release(a, jti), at, t);
        SweptLater(Release(b, jti), at, t);
    }
  }

  lemma {:induction false} IdUntouched(r: map<Jti, real>, jti: Jti, ops: seq<Op>, n: nat)
    requires n <= |ops| && jti !in r && forall i :: 0 <= i < n ==> ops[i].jti != jti
    ensures jti !in After(r, ops, n)
  {
    if n > 0 {
      IdUntouched(r, jti, ops, n - 1);
    }
  }

  /** Meanwhile others cannot tell from their answers whether the reservation is there. */
  lemma {:induction false} OthersAnswerAlike(
      r: map<Jti, real>, jti: Jti, ttl: int, at: real, ops: seq<Op>, t: real, i: nat)
    requires MemoryReserve(r, jti, ttl, at).1 && Timely(ops, at, t) && i < |ops|
    requires forall m :: 0 <= m < |ops| ==> ops[m].jti != jti
    ensures Exec(After(MemoryReserve(r, jti, ttl, at).0, ops, i), ops[i]).1 == Exec(After(r, ops, i), ops[i]).1
  {
    var reserved := MemoryReserve(r, jti, ttl, at).0;
    AfterAlike(reserved, Swept(r, at), jti, ops, i);
    ExecAlike(After(reserved, ops, i), After(Swept(r, at), ops, i), jti, ops[i]);
    SweepIsInvisible(r, ops, at, t, i + 1, t);
  }

  /**
   A confirmation that reserves an id, meets a failing update and releases it, with any
   activity on other ids in between, leaves the same live reservations as if it had never run.
   */
  lemma {:induction false} FailedUpdateLeavesNoTrace(
      r: map<Jti, real>, jti: Jti, ttl: int, at: real, ops: seq<Op>, t: real)
    requires MemoryReserve(r, jti, ttl, at).1 && Timely(ops, at, t)
    requires forall i :: 0 <= i < |ops| ==> ops[i].jti != jti
    ensures var reserved := MemoryReserve(r, jti, ttl, at).0;
            && SameView(Release(After(reserved, ops, |ops|), jti), After(r, ops, |ops|), t)
            && jti !in Release(After(reserved, ops, |ops|), jti)
  {
    var reserved := MemoryReserve(r, jti, ttl, at).0;
    AfterAlike(reserved, Swept(r, at), jti, ops, |ops|);
    IdUntouched(Swept(r, at), jti, ops, |ops|);
    SweepIsInvisible(r, ops, at, t, |ops|, t);
    var a, b := After(reserved, ops, |ops|), After(Swept(r, at), ops, |ops|);
    assert Release(a, jti) == b - {jti} == b;
  }
}
