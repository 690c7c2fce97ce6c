/**
 The two backends of the challenge store, run side by side on the same calls. They are
 related by equality of live records: those whose own expiry has not passed.
 */
module BackendSimulation {
  import opened Wrappers
  import opened ChallengeSpec

  datatype Op =
    | Save(slot: Slot, record: Record, ttl: int, at: real)
    | Delete(slot: Slot, at: real)
    | VerifyReset(id: string, email: string, code: string, at: real)
    | VerifyLogin(id: string, email: string, code: string, loadAt: real, readAt: real, saveAt: real)

  datatype Reply = Done | ResetReply(verdict: Verdict) | LoginReply(accepted: bool)

  function Begin(op: Op): real {
    if op.VerifyLogin? then op.loadAt else op.at
  }

  function End(op: Op): real {
    if op.VerifyLogin? then op.saveAt else op.at
  }

  function SlotOf(op: Op): Slot {
    match op
    case Save(slot, _, _, _) => slot
    case Delete(slot, _) => slot
    case VerifyReset(id, _, _, _) => Reset(id)
    case VerifyLogin(id, _, _, _, _, _) => Login(id)
  }

  function MemoryExec(m: map<string, Record>, op: Op, max: int): (map<string, Record>, Reply) {
    match op
    case Save(slot, r, ttl, at) => (MemorySave(m, slot, r, at), Done)
    case Delete(slot, at) => (m - {MemKey(slot)}, Done)
    case VerifyReset(id, email, code, at) =>
      var (m', v) := MemoryVerify(m, id, email, code, max, at);
      (m', ResetReply(v))
    case VerifyLogin(id, email, code, loadAt, readAt, saveAt) =>
      var (m', accepted) := MemoryLogin(m, id, email, code, max, loadAt, readAt, saveAt);
      (m', LoginReply(accepted))
  }

  function RedisExec(cells: map<string, Cell>, op: Op, max: int): (map<string, Cell>, Reply) {
    match op
    case Save(slot, r, ttl, at) => (RedisSave(cells, slot, r, ttl, at), Done)
    case Delete(slot, at) => (cells - {RedisKey(slot)}, Done)
    case VerifyReset(id, email, code, at) =>
      var (cells', v) := ScriptVerify(cells, id, email, code, max, Seconds(at), at);
      (cells', ResetReply(v))
    case VerifyLogin(id, email, code, loadAt, readAt, saveAt) =>
      var (cells', accepted) := RedisLogin(cells, id, email, code, max, loadAt, readAt, saveAt);
      (cells', LoginReply(accepted))
  }

  /**
   Ids as the service issues them, clocks that move forward, a TTL that reaches the record's
   expiry, and reset records that both backends would accept or neither.
   */
  ghost predicate Proper(op: Op) {
    && ':' !in SlotOf(op).id
    && (op.VerifyLogin? ==> op.loadAt <= op.readAt <= op.saveAt)
    && (op.Save? ==> Reaches(op.record, op.at + Max(op.ttl, 1) as real))
    && (op.Save? && op.slot.Reset? ==> Unambiguous(op.record, op.at))
  }

  /** Not before the record's own expiry. */
  predicate Reaches(r: Record, deadline: real) {
    PyInt(r.expiresAt).Some? ==> PyInt(r.expiresAt).value as real <= deadline
  }

  predicate Unambiguous(r: Record, t: real) {
    ServiceAccepts(r, Seconds(t)) <==> ScriptAccepts(r, Seconds(t))
  }

  /** The saves that start a challenge are proper: the expiry is counted from an earlier, floored clock. */
  lemma {:induction false} StartsAreProper(
      id: string, email: string, account: Account, code: string, ttl: int, readAt: real, at: real)
    requires ':' !in id && readAt <= at
    ensures Proper(Save(Login(id), LoginRecord(id, email, code, ttl, readAt), ttl, at))
    ensures Proper(Save(Reset(id), ResetRecord(id, email, account, code, ttl, readAt), ttl, at))
  {
  }

  // ---------------------------------------------------------------- the relation

  function LiveInMemory(m: map<string, Record>, slot: Slot, t: real): Option<Record> {
    if MemKey(slot) in m && Alive(m[MemKey(slot)], t) then Some(m[MemKey(slot)]) else None
  }

  function LiveInRedis(cells: map<string, Cell>, slot: Slot, t: real): Option<Record> {
    if Present(cells, RedisKey(slot), t) && Alive(cells[RedisKey(slot)].record, t)
    then Some(cells[RedisKey(slot)].record) else None
  }

  /** The server's deadline never comes before the expiry written in the record. */
  ghost predicate Covered(cells: map<string, Cell>) {
    forall k :: k in cells ==> Reaches(cells[k].record, cells[k].deadline)
  }

  ghost predicate Related(m: map<string, Record>, cells: map<string, Cell>, t: real) {
    && Covered(cells)
    && (forall slot: Slot :: ':' !in slot.id ==> LiveInMemory(m, slot, t) == LiveInRedis(cells, slot, t))
    && (forall id: string :: RedisKey(Reset(id)) in cells ==> Unambiguous(cells[RedisKey(Reset(id))].record, t))
  }

  /** So the deadline never removes a live record. */
  lemma {:induction false} DeadlineCoversLife(cells: map<string, Cell>, key: string, t: real)
    requires Covered(cells) && key in cells && Alive(cells[key].record, t)
    ensures Present(cells, key, t)
  {
  }

  lemma {:induction false} RelatedLater(m: map<string, Record>, cells: map<string, Cell>, t: real, t': real)
    requires Related(m, cells, t) && t <= t'
    ensures Related(m, cells, t')
  {
    forall id: string | RedisKey(Reset(id)) in cells
      ensures Unambiguous(cells[RedisKey(Reset(id))].record, t')
    {
      AgreementLasts(cells[RedisKey(Reset(id))].record, Seconds(t), Seconds(t'));
    }
  }

  /** Changing one slot on both sides, to equally live records, keeps the relation. */
  lemma {:induction false} RelatedUpdate(
      m: map<string, Record>, cells: map<string, Cell>, m': map<string, Record>, cells': map<string, Cell>,
      slot: Slot, t: real)
    requires Related(m, cells, t) && Covered(cells') && ':' !in slot.id
    requires LiveInMemory(m', slot, t) == LiveInRedis(cells', slot, t)
    requires slot.Reset? && RedisKey(slot) in cells' ==> Unambiguous(cells'[RedisKey(slot)].record, t)
    requires forall k :: k != MemKey(slot) && k in m' ==> k in m && m'[k] == m[k]
    requires forall k :: k != MemKey(slot) && k in m && Alive(m[k], t) ==> k in m'
    requires forall k :: k != RedisKey(slot) ==> (k in cells' <==> k in cells)
    requires forall k :: k != RedisKey(slot) && k in cells ==> cells'[k] == cells[k]
    ensures Related(m', cells', t)
  {
    forall s: Slot | ':' !in s.id
      ensures LiveInMemory(m', s, t) == LiveInRedis(cells', s, t)
    {
      MemKeysDistinct(s, slot);
      RedisKeysDistinct(s, slot);
      assert LiveInMemory(m, s, t) == LiveInRedis(cells, s, t);
    }
    forall id: string | RedisKey(Reset(id)) in cells'
      ensures Unambiguous(cells'[RedisKey(Reset(id))].record, t)
    {
      RedisKeysDistinct(Reset(id), slot);
    }
  }

  lemma {:induction false} SaveSimulates(m: map<string, Record>, cells: map<string, Cell>, op: Op, max: int)
    requires op.Save? && Proper(op) && Related(m, cells, op.at)
    ensures Related(MemoryExec(m, op, max).0, RedisExec(cells, op, max).0, op.at)
  {
    RelatedUpdate(m, cells, MemoryExec(m, op, max).0, RedisExec(cells, op, max).0, op.slot, op.at);
  }

  lemma {:induction false} DeleteSimulates(m: map<string, Record>, cells: map<string, Cell>, op: Op, max: int)
    requires op.Delete? && Proper(op) && Related(m, cells, op.at)
    ensures Related(MemoryExec(m, op, max).0, RedisExec(cells, op, max).0, op.at)
  {
    RelatedUpdate(m, cells, MemoryExec(m, op, max).0, RedisExec(cells, op, max).0, op.slot, op.at);
  }

  /** What the script makes of an unambiguous cell is what the locked branch does, and stays unambiguous. */
  lemma {:induction false} JudgeSimulates(cell: Cell, email: string, digest: Digest, at: real, max: int)
    requires Reaches(cell.record, cell.deadline) && Unambiguous(cell.record, at)
    ensures var (left, verdict) := Judge(Some(cell.record), email, digest, Seconds(at), max);
            && (left, verdict) == DecideAt(cell.record, email, digest, at, max)
            && (left.Some? ==>
                  Reaches(left.value, cell.deadline) && Unambiguous(left.value, at) && Alive(left.value, at))
    ensures Alive(cell.record, at) ==> cell.deadline > at
  {
    SameOutcomeExactly(cell.record, email, digest, at, max);
  }

  lemma {:induction false} VerifyResetSimulates(m: map<string, Record>, cells: map<string, Cell>, op: Op, max: int)
    requires op.VerifyReset? && Proper(op) && Related(m, cells, op.at)
    ensures MemoryExec(m, op, max).1 == RedisExec(cells, op, max).1
    ensures Related(MemoryExec(m, op, max).0, RedisExec(cells, op, max).0, op.at)
  {
    var slot, key := Reset(op.id), RedisKey(Reset(op.id));
    var m', cells' := MemoryExec(m, op, max).0, RedisExec(cells, op, max).0;
    assert LiveInMemory(m, slot, op.at) == LiveInRedis(cells, slot, op.at);
    if key in cells {
      assert Unambiguous(cells[key].record, op.at);
      JudgeSimulates(cells[key], op.email, CodeDigest(op.id, op.code), op.at, max);
    }
    assert LiveInMemory(m', slot, op.at) == LiveInRedis(cells', slot, op.at);
    assert forall k :: k in cells' && k != key ==> k in cells && cells'[k] == cells[k];
    assert Covered(cells');
    RelatedUpdate(m, cells, m', cells', slot, op.at);
  }

  lemma {:induction false} CleanupSimulates(m: map<string, Record>, cells: map<string, Cell>, t: real, t': real)
    requires Related(m, cells, t) && t <= t'
    ensures Related(Cleaned(m, t), cells, t')
  {
    forall slot: Slot | ':' !in slot.id
      ensures LiveInMemory(Cleaned(m, t), slot, t) == LiveInRedis(cells, slot, t)
    {
      assert LiveInMemory(m, slot, t) == LiveInRedis(cells, slot, t);
    }
    RelatedLater(Cleaned(m, t), cells, t, t');
  }

  lemma {:induction false} VerifyLoginSimulates(m: map<string, Record>, cells: map<string, Cell>, op: Op, max: int)
    requires op.VerifyLogin? && Proper(op) && Related(m, cells, op.loadAt)
    ensures MemoryExec(m, op, max).1 == RedisExec(cells, op, max).1
    ensures Related(MemoryExec(m, op, max).0, RedisExec(cells, op, max).0, op.saveAt)
  {
    var slot := Login(op.id);
    var m', cells' := MemoryExec(m, op, max).0, RedisExec(cells, op, max).0;
    assert LiveInMemory(m, slot, op.loadAt) == LiveInRedis(cells, slot, op.loadAt);
    assert Seconds(op.loadAt) <= Seconds(op.readAt) <= Seconds(op.saveAt);
    CleanupSimulates(m, cells, op.loadAt, op.saveAt);
    assert LiveInMemory(m', slot, op.saveAt) == LiveInRedis(cells', slot, op.saveAt);
    RelatedUpdate(Cleaned(m, op.loadAt), cells, m', cells', slot, op.saveAt);
  }

  // ---------------------------------------------------------------- whole runs

  ghost predicate ProperRun(ops: seq<Op>) {
    && (forall i :: 0 <= i < |ops| ==> Proper(ops[i]))
    && (forall i, j :: 0 <= i < j < |ops| ==> End(ops[i]) <= Begin(ops[j]))
  }

  function MemoryAfter(ops: seq<Op>, max: int, n: nat): map<string, Record>
    requires n <= |ops|
  {
    if n == 0 then map[] else MemoryExec(MemoryAfter(ops, max, n - 1), ops[n - 1], max).0
  }

  function RedisAfter(ops: seq<Op>, max: int, n: nat): map<string, Cell>
    requires n <= |ops|
  {
    if n == 0 then map[] else RedisExec(RedisAfter(ops, max, n - 1), ops[n - 1], max).0
  }

  function MemoryReply(ops: seq<Op>, max: int, i: nat): Reply
    requires i < |ops|
  {
    MemoryExec(MemoryAfter(ops, max, i), ops[i], max).1
  }

  function RedisReply(ops: seq<Op>, max: int, i: nat): Reply
    requires i < |ops|
  {
    RedisExec(RedisAfter(ops, max, i), ops[i], max).1
  }

  lemma {:induction false} StepSimulates(m: map<string, Record>, cells: map<string, Cell>, op: Op, max: int)
    requires Proper(op) && Related(m, cells, Begin(op))
    ensures MemoryExec(m, op, max).1 == RedisExec(cells, op, max).1
    ensures Related(MemoryExec(m, op, max).0, RedisExec(cells, op, max).0, End(op))
  {
    match op
    case Save(_, _, _, _) => SaveSimulates(m, cells, op, max);
    case Delete(_, _) => DeleteSimulates(m, cells, op, max);
    case VerifyReset(_, _, _, _) => VerifyResetSimulates(m, cells, op, max);
    case VerifyLogin(_, _, _, _, _, _) => VerifyLoginSimulates(m, cells, op, max);
  }

  lemma {:induction false} RunsStayRelated(ops: seq<Op>, max: int, n: nat)
    requires ProperRun(ops) && n <= |ops|
    ensures n > 0 ==> Related(MemoryAfter(ops, max, n), RedisAfter(ops, max, n), End(ops[n - 1]))
    ensures forall i :: 0 <= i < n ==> MemoryReply(ops, max, i) == RedisReply(ops, max, i)
  {
    if n > 0 {
      RunsStayRelated(ops, max, n - 1);
      var m, cells := MemoryAfter(ops, max, n - 1), RedisAfter(ops, max, n - 1);
      if n > 1 {
        RelatedLater(m, cells, End(ops[n - 2]), Begin(ops[n - 1]));
      }
      StepSimulates(m, cells, ops[n - 1], max);
    }
  }

  /**
   The same calls get the same answers from both backends. A record may lack fields or hold
   any type in them, as long as not just one of the two backends would accept it.
   */
  lemma {:induction false} BackendsAgree(ops: seq<Op>, max: int)
    requires ProperRun(ops)
    ensures forall i :: 0 <= i < |ops| ==> MemoryReply(ops, max, i) == RedisReply(ops, max, i)
    ensures Covered(RedisAfter(ops, max, |ops|))
  {
    RunsStayRelated(ops, max, |ops|);
  }
}
