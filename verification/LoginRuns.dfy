/**
 Login challenges over whole runs of calls that do not overlap: exactly which verification
 is accepted, told from the calls alone. By the simulation it holds on either backend.
 */
module LoginRuns {
  import opened Wrappers
  import opened ChallengeSpec
  import opened BackendSimulation

  /** How a login challenge was started. */
  datatype Issue = Issue(id: string, email: string, code: string, ttl: int, readAt: real)

  function Expiry(c: Issue): int {
    Seconds(c.readAt) + c.ttl
  }

  function FirstRecord(c: Issue): Record {
    LoginRecord(c.id, c.email, c.code, c.ttl, c.readAt)
  }

  predicate IsCall(op: Op, c: Issue) {
    op.VerifyLogin? && op.id == c.id
  }

  predicate IsRight(op: Op, c: Issue) {
    IsCall(op, c) && op.email == c.email && op.code == c.code
  }

  function WrongCalls(ops: seq<Op>, c: Issue, s: nat, n: nat): nat
    requires n <= |ops|
  {
    if n <= s then 0
    else WrongCalls(ops, c, s, n - 1) + if IsCall(ops[n - 1], c) && !IsRight(ops[n - 1], c) then 1 else 0
  }

  function RightCalls(ops: seq<Op>, c: Issue, s: nat, n: nat): nat
    requires n <= |ops|
  {
    if n <= s then 0
    else RightCalls(ops, c, s, n - 1) + if IsRight(ops[n - 1], c) then 1 else 0
  }

  /** The challenge is started by call `s`; its fresh id is never saved or deleted by a later start. */
  ghost predicate Started(ops: seq<Op>, c: Issue, s: nat) {
    && s < |ops|
    && ops[s].Save? && ops[s].slot == Login(c.id) && ops[s].record == FirstRecord(c)
    && c.readAt <= ops[s].at
    && forall i :: s < i < |ops| && SlotOf(ops[i]) == Login(c.id) ==> ops[i].VerifyLogin?
  }

  predicate Accepted(ops: seq<Op>, max: int, i: nat)
    requires i < |ops|
  {
    MemoryReply(ops, max, i) == LoginReply(true)
  }

  /** A call on another slot leaves the challenge's record, if it is still live afterwards. */
  lemma {:induction false} OtherSlotUntouched(m: map<string, Record>, op: Op, max: int, slot: Slot)
    requires Proper(op) && ':' !in slot.id && SlotOf(op) != slot
    ensures var m' := MemoryExec(m, op, max).0;
            && (MemKey(slot) in m' ==> MemKey(slot) in m && m'[MemKey(slot)] == m[MemKey(slot)])
            && (MemKey(slot) in m && Alive(m[MemKey(slot)], End(op)) ==> MemKey(slot) in m')
  {
    MemKeysDistinct(SlotOf(op), slot);
    if MemKey(slot) in m && Alive(m[MemKey(slot)], End(op)) {
      assert Seconds(Begin(op)) <= Seconds(End(op));
    }
  }

  /** Whatever happens, the stored record keeps the expiry it was issued with. */
  lemma {:induction false} DeadlineNeverMoves(ops: seq<Op>, max: int, c: Issue, s: nat, n: nat)
    requires ProperRun(ops) && Started(ops, c, s) && s < n <= |ops| && ':' !in c.id
    ensures var m := MemoryAfter(ops, max, n);
            c.id in m ==> m[c.id].expiresAt == Int(Expiry(c))
  {
    if n > s + 1 {
      DeadlineNeverMoves(ops, max, c, s, n - 1);
      if SlotOf(ops[n - 1]) != Login(c.id) {
        OtherSlotUntouched(MemoryAfter(ops, max, n - 1), ops[n - 1], max, Login(c.id));
      }
    }
  }

  /** Before its expiry the stored record is determined by the calls made so far. */
  ghost predicate Holds(ops: seq<Op>, max: int, c: Issue, s: nat, n: nat)
    requires s < n <= |ops|
  {
    var m := MemoryAfter(ops, max, n);
    var wrong := WrongCalls(ops, c, s, n);
    if RightCalls(ops, c, s, n) > 0 || wrong >= max
    then c.id !in m
    else c.id in m && m[c.id] == FirstRecord(c).(attempts := Int(wrong))
  }

  lemma {:induction false} RecordFollowsCalls(ops: seq<Op>, max: int, c: Issue, s: nat, n: nat)
    requires ProperRun(ops) && Started(ops, c, s) && s < n <= |ops| && ':' !in c.id && max >= 1
    requires n > s + 1 ==> Seconds(End(ops[n - 1])) < Expiry(c)
    ensures Holds(ops, max, c, s, n)
  {
    if n == s + 1 {
      assert !IsCall(ops[s], c) && WrongCalls(ops, c, s, n) == RightCalls(ops, c, s, n) == 0;
      assert MemoryAfter(ops, max, n)[c.id] == FirstRecord(c);
    } else {
      var op := ops[n - 1];
      assert Seconds(Begin(op)) <= Seconds(End(op));
      if n > s + 2 {
        assert End(ops[n - 2]) <= Begin(op);
        assert Seconds(End(ops[n - 2])) <= Seconds(Begin(op));
      }
      RecordFollowsCalls(ops, max, c, s, n - 1);
      if SlotOf(op) != Login(c.id) {
        OtherSlotUntouched(MemoryAfter(ops, max, n - 1), op, max, Login(c.id));
      } else {
        assert IsCall(op, c);
        CallFollows(ops, max, c, s, n);
      }
    }
  }

  lemma {:induction false} CallFollows(ops: seq<Op>, max: int, c: Issue, s: nat, n: nat)
    requires ProperRun(ops) && Started(ops, c, s) && s + 1 < n <= |ops| && ':' !in c.id && max >= 1
    requires IsCall(ops[n - 1], c) && Holds(ops, max, c, s, n - 1)
    requires Seconds(End(ops[n - 1])) < Expiry(c)
    ensures Holds(ops, max, c, s, n)
  {
    var op := ops[n - 1];
    var m := MemoryAfter(ops, max, n - 1);
    assert Seconds(op.loadAt) <= Seconds(op.readAt) <= Seconds(op.saveAt);
    DigestDecidesCode(c.id, c.code, op.code);
  }

  /**
   A login verification is accepted if and only if it is the first right one, fewer than
   `max` wrong ones came before it, and the clock it reads has not reached the expiry.
   */
  lemma {:induction false} AcceptedExactly(ops: seq<Op>, max: int, c: Issue, s: nat, j: nat)
    requires ProperRun(ops) && Started(ops, c, s) && s < j < |ops| && ':' !in c.id && max >= 1
    requires IsCall(ops[j], c)
    ensures Accepted(ops, max, j) <==>
            && IsRight(ops[j], c)
            && RightCalls(ops, c, s, j) == 0
            && WrongCalls(ops, c, s, j) < max
            && Seconds(ops[j].readAt) < Expiry(c)
  {
    var op := ops[j];
    assert Proper(op);
    assert Seconds(op.loadAt) <= Seconds(op.readAt);
    DeadlineNeverMoves(ops, max, c, s, j);
    DigestDecidesCode(c.id, c.code, op.code);
    if Seconds(op.readAt) < Expiry(c) {
      if j > s + 1 {
        assert End(ops[j - 1]) <= Begin(op);
        assert Seconds(End(ops[j - 1])) <= Seconds(Begin(op));
      }
      RecordFollowsCalls(ops, max, c, s, j);
    }
  }

  lemma {:induction false} RightCallsGrow(ops: seq<Op>, c: Issue, s: nat, i: nat, j: nat)
    requires s < i < j <= |ops| && IsRight(ops[i], c)
    ensures RightCalls(ops, c, s, j) > 0
    decreases j
  {
    if j > i + 1 {
      RightCallsGrow(ops, c, s, i, j - 1);
    }
  }

  /** A code is accepted at most once, by either backend. */
  lemma {:induction false} AcceptedAtMostOnce(ops: seq<Op>, max: int, c: Issue, s: nat, i: nat, j: nat)
    requires ProperRun(ops) && Started(ops, c, s) && s < i < |ops| && s < j < |ops| && max >= 1
    requires IsCall(ops[i], c) && IsCall(ops[j], c)
    requires RedisReply(ops, max, i) == LoginReply(true) && RedisReply(ops, max, j) == LoginReply(true)
    ensures i == j
    ensures Accepted(ops, max, i)
  {
    assert Proper(ops[i]);
    BackendsAgree(ops, max);
    AcceptedExactly(ops, max, c, s, i);
    AcceptedExactly(ops, max, c, s, j);
    if i < j {
      RightCallsGrow(ops, c, s, i, j);
    } else if j < i {
      RightCallsGrow(ops, c, s, j, i);
    }
  }

  /**
   The deadline in real time, despite both floors: acceptance happens less than `ttl`
   seconds after the start, and until `ttl - 1` seconds after it expiry refuses nothing.
   */
  lemma {:induction false} AcceptanceWindow(ops: seq<Op>, max: int, c: Issue, s: nat, j: nat)
    requires ProperRun(ops) && Started(ops, c, s) && s < j < |ops| && ':' !in c.id && max >= 1
    requires IsCall(ops[j], c)
    ensures Accepted(ops, max, j) ==> ops[j].readAt < c.readAt + c.ttl as real
    ensures ops[j].readAt <= c.readAt + (c.ttl - 1) as real
            && IsRight(ops[j], c) && RightCalls(ops, c, s, j) == 0 && WrongCalls(ops, c, s, j) < max
            ==> Accepted(ops, max, j)
  {
    AcceptedExactly(ops, max, c, s, j);
    var whole := (c.readAt + (c.ttl - 1) as real).Floor;
    assert whole == Seconds(c.readAt) + c.ttl - 1;
  }
}
