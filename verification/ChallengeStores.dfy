/**
 The two backends of the challenge service. In process, records are mutable dictionaries:
 a reset verification counts a failure by writing into the stored record, while saving and
 loading copy, so that a caller's record and a stored one are never the same object.
 */
module ChallengeStores {
  import opened Wrappers
  import opened ChallengeSpec

  class StoredRecord {
    var fields: Record

    constructor (fields: Record)
      ensures this.fields == fields
    {
      this.fields := fields;
    }
  }

  class InProcessStore {
    var memory: map<string, StoredRecord>
    const maxAttempts: int

    /** No record is stored under two keys, so writing into one changes one challenge. */
    ghost predicate Valid()
      reads this
    {
      forall j, k :: j in memory && k in memory && j != k ==> memory[j] != memory[k]
    }

    ghost function Contents(): map<string, Record>
      reads this, memory.Values
    {
      map k | k in memory :: memory[k].fields
    }

    constructor (maxAttempts: int)
      ensures Valid() && Contents() == map[] && this.maxAttempts == maxAttempts
    {
      memory := map[];
      this.maxAttempts := maxAttempts;
    }

    method CleanupMemory(now: real)
      requires Valid()
      modifies this`memory
      ensures Valid() && Contents() == Cleaned(old(Contents()), now)
      ensures forall k :: k in memory ==> k in old(memory) && memory[k] == old(memory)[k]
    {
      var expired := set k | k in memory && !Alive(memory[k].fields, now);
      ghost var all, removed := expired, {};
      while expired != {}
        invariant removed + expired == all
        invariant memory == old(memory) - removed
        decreases expired
      {
        var k :| k in expired;
        memory := memory - {k};
        expired, removed := expired - {k}, removed + {k};
      }
      assert Contents() == Cleaned(old(Contents()), now);
    }

    /** Stores a copy: whatever the caller does to `record` later, the store keeps these fields. */
    method Save(slot: Slot, record: StoredRecord, now: real)
      requires Valid()
      modifies this`memory
      ensures Valid() && Contents() == MemorySave(old(Contents()), slot, record.fields, now)
      ensures MemKey(slot) in memory && fresh(memory[MemKey(slot)])
      ensures forall k :: k in memory && k != MemKey(slot) ==> k in old(memory) && memory[k] == old(memory)[k]
    {
      CleanupMemory(now);
      var copy := new StoredRecord(record.fields);
      memory := memory[MemKey(slot) := copy];
    }

    /** Returns a copy: whatever the caller does to it, the store does not change. */
    method Load(slot: Slot, now: real) returns (record: StoredRecord?)
      requires Valid()
      modifies this`memory
      ensures Valid() && Contents() == Cleaned(old(Contents()), now)
      ensures record == null <==> MemKey(slot) !in Contents()
      ensures record != null ==> fresh(record) && record.fields == Contents()[MemKey(slot)]
      ensures forall k :: k in memory ==> k in old(memory) && memory[k] == old(memory)[k]
    {
      CleanupMemory(now);
      if MemKey(slot) in memory {
        record := new StoredRecord(memory[MemKey(slot)].fields);
      } else {
        record := null;
      }
    }

    method Delete(slot: Slot)
      requires Valid()
      modifies this`memory
      ensures Valid() && Contents() == old(Contents()) - {MemKey(slot)}
      ensures memory == old(memory) - {MemKey(slot)}
    {
      memory := memory - {MemKey(slot)};
    }

    /** The locked reset verification. */
    method VerifyPasswordReset(id: string, email: string, code: string, now: real) returns (verdict: Verdict)
      requires Valid()
      modifies this`memory, memory.Values
      ensures Valid()
      ensures Contents() == MemoryVerify(old(Contents()), id, email, code, maxAttempts, now).0
      ensures verdict == MemoryVerify(old(Contents()), id, email, code, maxAttempts, now).1
      ensures forall k :: k in memory ==> k in old(memory) && memory[k] == old(memory)[k]
    {
      CleanupMemory(now);
      if MemKey(Reset(id)) in memory {
        verdict := DecideStored(id, email, code);
      } else {
        verdict := Invalid;
      }
    }

    /** Decides about the stored record; a failure is written into it in place. */
    method DecideStored(id: string, email: string, code: string) returns (verdict: Verdict)
      requires Valid() && MemKey(Reset(id)) in memory
      modifies this`memory, memory[MemKey(Reset(id))]
      ensures Valid()
      ensures var key := MemKey(Reset(id));
              var (left, answer) := Decide(old(Contents())[key], email, CodeDigest(id, code), maxAttempts);
              Contents() == Put(old(Contents()), key, left) && verdict == answer
      ensures memory == old(memory) || memory == old(memory) - {MemKey(Reset(id))}
    {
      var key := MemKey(Reset(id));
      var record := memory[key];
      if !WellTyped(record.fields) || record.fields.purpose != Some(RESET_PURPOSE) {
        Delete(Reset(id));
        return Invalid;
      }
      var attempts := PyInt(record.fields.attempts).value;
      if attempts >= maxAttempts {
        Delete(Reset(id));
        return AttemptsExceeded;
      }
      if record.fields.email != Some(email) || record.fields.codeDigest != Some(CodeDigest(id, code)) {
        record.fields := record.fields.(attempts := Int(attempts + 1));
        if attempts + 1 >= maxAttempts {
          Delete(Reset(id));
          assert Contents() == old(Contents()) - {key};
          return AttemptsExceeded;
        }
        return Invalid;
      }
      Delete(Reset(id));
      return Verified(record.fields);
    }

    /** The login verification: it counts a failure on its own copy and saves that. */
    method VerifyLogin(id: string, email: string, code: string, loadAt: real, readAt: real, saveAt: real)
      returns (accepted: bool)
      requires Valid()
      modifies this`memory
      ensures Valid()
      ensures Contents() == MemoryLogin(old(Contents()), id, email, code, maxAttempts, loadAt, readAt, saveAt).0
      ensures accepted == MemoryLogin(old(Contents()), id, email, code, maxAttempts, loadAt, readAt, saveAt).1
    {
      var record := Load(Login(id), loadAt);
      if record == null {
        return false;
      }
      if !WellTyped(record.fields) {
        Delete(Login(id));
        return false;
      }
      var attempts := PyInt(record.fields.attempts).value;
      if PyInt(record.fields.expiresAt).value <= Seconds(readAt) || attempts >= maxAttempts {
        Delete(Login(id));
        return false;
      }
      if record.fields.email != Some(email) || record.fields.codeDigest != Some(CodeDigest(id, code)) {
        attempts := attempts + 1;
        if attempts >= maxAttempts {
          Delete(Login(id));
        } else {
          record.fields := record.fields.(attempts := Int(attempts));
          Save(Login(id), record, saveAt);
        }
        return false;
      }
      Delete(Login(id));
      return true;
    }
  }

  /** The shared server: values under keys with a deadline. Its records are serialized, so nothing aliases. */
  class RedisStore {
    var cells: map<string, Cell>
    const maxAttempts: int

    constructor (maxAttempts: int)
      ensures cells == map[] && this.maxAttempts == maxAttempts
    {
      cells := map[];
      this.maxAttempts := maxAttempts;
    }

    method CommandSet(slot: Slot, record: Record, ttl: int, at: real)
      modifies this
      ensures cells == RedisSave(old(cells), slot, record, ttl, at)
    {
      cells := cells[RedisKey(slot) := Cell(record, at + Max(ttl, 1) as real)];
    }

    method CommandGet(slot: Slot, at: real) returns (raw: Option<Record>)
      ensures raw == if Present(cells, RedisKey(slot), at) then Some(cells[RedisKey(slot)].record) else None
    {
      raw := if Present(cells, RedisKey(slot), at) then Some(cells[RedisKey(slot)].record) else None;
    }

    method CommandDel(slot: Slot)
      modifies this
      ensures cells == old(cells) - {RedisKey(slot)}
    {
      cells := cells - {RedisKey(slot)};
    }

    /** The atomic verification script. Storing a failure keeps the key's deadline. */
    method EvalVerify(id: string, email: string, digest: Digest, now: int, at: real) returns (verdict: Verdict)
      modifies this
      ensures forall code :: digest == CodeDigest(id, code) ==>
                && cells == ScriptVerify(old(cells), id, email, code, maxAttempts, now, at).0
                && verdict == ScriptVerify(old(cells), id, email, code, maxAttempts, now, at).1
    {
      var raw := CommandGet(Reset(id), at);
      if raw.None? {
        return Invalid;
      }
      var record := raw.value;
      if !ScriptTyped(record) || record.purpose != Some(RESET_PURPOSE)
         || LuaNumber(record.expiresAt).value <= now as real {
        CommandDel(Reset(id));
        return Invalid;
      }
      if LuaNumber(record.attempts).value >= maxAttempts as real {
        CommandDel(Reset(id));
        return AttemptsExceeded;
      }
      if record.email != Some(email) || record.codeDigest != Some(digest) {
        var attempts := LuaNumber(record.attempts).value + 1.0;
        if attempts >= maxAttempts as real {
          CommandDel(Reset(id));
          return AttemptsExceeded;
        }
        var key := RedisKey(Reset(id));
        var encoded := record.(attempts := Encoded(attempts), expiresAt := Encoded(LuaNumber(record.expiresAt).value));
        cells := cells[key := Cell(encoded, cells[key].deadline)];
        return Invalid;
      }
      CommandDel(Reset(id));
      return Verified(record);
    }

    method VerifyPasswordReset(
        id: string, email: string, code: string, readAt: real, at: real) returns (verdict: Verdict)
      modifies this
      ensures cells == ScriptVerify(old(cells), id, email, code, maxAttempts, Seconds(readAt), at).0
      ensures verdict == ScriptVerify(old(cells), id, email, code, maxAttempts, Seconds(readAt), at).1
    {
      verdict := EvalVerify(id, email, CodeDigest(id, code), Seconds(readAt), at);
    }

    /** The login verification when no other call on the challenge runs between its commands. */
    method VerifyLogin(id: string, email: string, code: string, loadAt: real, readAt: real, saveAt: real)
      returns (accepted: bool)
      modifies this
      ensures cells == RedisLogin(old(cells), id, email, code, maxAttempts, loadAt, readAt, saveAt).0
      ensures accepted == RedisLogin(old(cells), id, email, code, maxAttempts, loadAt, readAt, saveAt).1
    {
      var raw := CommandGet(Login(id), loadAt);
      if raw.None? {
        return false;
      }
      var record := raw.value;
      if !WellTyped(record) {
        CommandDel(Login(id));
        return false;
      }
      var expiresAt, attempts := PyInt(record.expiresAt).value, PyInt(record.attempts).value;
      if expiresAt <= Seconds(readAt) || attempts >= maxAttempts {
        CommandDel(Login(id));
        return false;
      }
      if record.email != Some(email) || record.codeDigest != Some(CodeDigest(id, code)) {
        if attempts + 1 >= maxAttempts {
          CommandDel(Login(id));
        } else {
          CommandSet(Login(id), Failed(record), Max(expiresAt - Seconds(readAt), 1), saveAt);
        }
        return false;
      }
      CommandDel(Login(id));
      return true;
    }
  }
}
