/**
 One-time-code challenges, as values: what each of the two backends does to its store.

 A record's fields are dynamically typed in the program. A text field that is missing or no
 string is `None`. The two number fields keep their type, because the two backends test it
 differently: the service takes integers and booleans, the server's script any number.
 Emails are taken in normal form, as both verifications compare them.
 */
module ChallengeSpec {
  import opened Wrappers

  datatype AccountType = FarmOwner | CompanyEmployee | Admin

  datatype Account = Account(accountType: AccountType, databaseId: int)

  /** A keyed digest, which nobody inverts and which never maps two payloads to one value. */
  datatype Digest = Hmac(payload: string)

  /** A decoded number field. `Other`: missing, or neither a number nor a boolean. */
  datatype Field = Int(n: int) | Float(x: real) | Bool(b: bool) | Other

  datatype Record = Record(
    email: Option<string>, codeDigest: Option<Digest>, attempts: Field, expiresAt: Field,
    purpose: Option<string>, account: Option<Account>)

  /** Which challenge: login and reset challenges are stored under different keys. */
  datatype Slot = Login(id: string) | Reset(id: string)

  datatype Verdict = Invalid | AttemptsExceeded | Verified(record: Record)

  datatype Cell = Cell(record: Record, deadline: real)

  const RESET_PURPOSE: string := "password_reset"

  function CodeDigest(id: string, code: string): Digest {
    Hmac(id + (":" + code))
  }

  function MemKey(slot: Slot): string {
    match slot
    case Login(id) => id
    case Reset(id) => "reset:" + id
  }

  function RedisKey(slot: Slot): string {
    match slot
    case Login(id) => "ouros:auth:email-otp:" + id
    case Reset(id) => "ouros:auth:password-reset-otp:" + id
  }

  /** What the service's integer test lets through: a boolean is an integer there. */
  function PyInt(f: Field): Option<int> {
    match f
    case Int(n) => Some(n)
    case Bool(b) => Some(if b then 1 else 0)
    case _ => None
  }

  /** What the script's number test lets through: a boolean is no number there. */
  function LuaNumber(f: Field): Option<real> {
    match f
    case Int(n) => Some(n as real)
    case Float(x) => Some(x)
    case _ => None
  }

  /** How the script writes a number back: an integral one without a fraction. */
  function Encoded(x: real): Field {
    if x == x.Floor as real then Int(x.Floor) else Float(x)
  }

  predicate Alive(r: Record, t: real) {
    PyInt(r.expiresAt).Some? && PyInt(r.expiresAt).value > Seconds(t)
  }

  predicate WellTyped(r: Record) {
    r.email.Some? && r.codeDigest.Some? && PyInt(r.attempts).Some? && PyInt(r.expiresAt).Some?
  }

  predicate ScriptTyped(r: Record) {
    r.email.Some? && r.codeDigest.Some? && LuaNumber(r.attempts).Some? && LuaNumber(r.expiresAt).Some?
  }

  function Failed(r: Record): Record
    requires PyInt(r.attempts).Some?
  {
    r.(attempts := Int(PyInt(r.attempts).value + 1))
  }

  /** The script decodes the whole record and encodes it again. */
  function FailedOnServer(r: Record): Record
    requires ScriptTyped(r)
  {
    r.(attempts := Encoded(LuaNumber(r.attempts).value + 1.0), expiresAt := Encoded(LuaNumber(r.expiresAt).value))
  }

  function LoginRecord(id: string, email: string, code: string, ttl: int, readAt: real): Record {
    Record(Some(email), Some(CodeDigest(id, code)), Int(0), Int(Seconds(readAt) + ttl), None, None)
  }

  function ResetRecord(id: string, email: string, account: Account, code: string, ttl: int, readAt: real): Record {
    Record(Some(email), Some(CodeDigest(id, code)), Int(0), Int(Seconds(readAt) + ttl),
           Some(RESET_PURPOSE), Some(account))
  }

  // ---------------------------------------------------------------- the in-process dictionary

  function Cleaned(m: map<string, Record>, t: real): map<string, Record> {
    map k | k in m && Alive(m[k], t) :: m[k]
  }

  function MemorySave(m: map<string, Record>, slot: Slot, r: Record, at: real): map<string, Record> {
    Cleaned(m, at)[MemKey(slot) := r]
  }

  /** Stores what is left of a record, or nothing. */
  function Put<V>(m: map<string, V>, key: string, left: Option<V>): map<string, V> {
    if left.Some? then m[key := left.value] else m - {key}
  }

  /** The reset verification under the lock, at time `at`. */
  function MemoryVerify(m: map<string, Record>, id: string, email: string, code: string, max: int, at: real)
    : (map<string, Record>, Verdict)
  {
    var c := Cleaned(m, at);
    var key := MemKey(Reset(id));
    if key !in c then (c, Invalid)
    else
      var (left, verdict) := Decide(c[key], email, CodeDigest(id, code), max);
      (Put(c, key, left), verdict)
  }

  /** Its decision about a record that survived the cleanup. */
  function Decide(r: Record, email: string, digest: Digest, max: int): (Option<Record>, Verdict) {
    if !WellTyped(r) || r.purpose != Some(RESET_PURPOSE) then (None, Invalid)
    else if PyInt(r.attempts).value >= max then (None, AttemptsExceeded)
    else if r.email != Some(email) || r.codeDigest != Some(digest) then
      if PyInt(r.attempts).value + 1 >= max then (None, AttemptsExceeded) else (Some(Failed(r)), Invalid)
    else (None, Verified(r))
  }

  /** The login verification: load at `loadAt`, decide with the clock read at `readAt`, save at `saveAt`. */
  function MemoryLogin(m: map<string, Record>, id: string, email: string, code: string, max: int,
                       loadAt: real, readAt: real, saveAt: real): (map<string, Record>, bool)
  {
    var c := Cleaned(m, loadAt);
    var key := MemKey(Login(id));
    if key !in c then (c, false)
    else
      var r := c[key];
      if !WellTyped(r) || !Alive(r, readAt) || PyInt(r.attempts).value >= max then (c - {key}, false)
      else if r.email != Some(email) || r.codeDigest != Some(CodeDigest(id, code)) then
        if PyInt(r.attempts).value + 1 >= max then (c - {key}, false)
        else (MemorySave(c, Login(id), Failed(r), saveAt), false)
      else (c - {key}, true)
  }

  // ---------------------------------------------------------------- the shared server

  /** A key whose deadline has passed is gone for every command, whenever the server reclaims it. */
  predicate Present(cells: map<string, Cell>, key: string, t: real) {
    key in cells && cells[key].deadline > t
  }

  function RedisSave(cells: map<string, Cell>, slot: Slot, r: Record, ttl: int, at: real): map<string, Cell> {
    cells[RedisKey(slot) := Cell(r, at + Max(ttl, 1) as real)]
  }

  /** What the verification script decides about the record found under its key. */
  function Judge(raw: Option<Record>, email: string, digest: Digest, now: int, max: int): (Option<Record>, Verdict) {
    if raw.None? then (None, Invalid)
    else
      var r := raw.value;
      if !ScriptTyped(r) || r.purpose != Some(RESET_PURPOSE) || LuaNumber(r.expiresAt).value <= now as real
      then (None, Invalid)
      else if LuaNumber(r.attempts).value >= max as real then (None, AttemptsExceeded)
      else if r.email != Some(email) || r.codeDigest != Some(digest) then
        if LuaNumber(r.attempts).value + 1.0 >= max as real then (None, AttemptsExceeded)
        else (Some(FailedOnServer(r)), Invalid)
      else (None, Verified(r))
  }

  /** The script: run by the server at `at`, with the client's clock reading `now` as an argument. */
  function ScriptVerify(cells: map<string, Cell>, id: string, email: string, code: string, max: int, now: int, at: real)
    : (map<string, Cell>, Verdict)
  {
    var key := RedisKey(Reset(id));
    if !Present(cells, key, at) then (cells, Invalid)
    else
      var (left, verdict) := Judge(Some(cells[key].record), email, CodeDigest(id, code), now, max);
      (if left.None? then cells - {key} else cells[key := Cell(left.value, cells[key].deadline)], verdict)
  }

  function Loaded(cells: map<string, Cell>, id: string, at: real): Option<Record> {
    if Present(cells, RedisKey(Login(id)), at) then Some(cells[RedisKey(Login(id))].record) else None
  }

  /** The rest of a login verification, on the copy it loaded, against whatever the server holds by then. */
  function FinishLogin(cells: map<string, Cell>, id: string, raw: Option<Record>, email: string, code: string, max: int,
                       readAt: real, saveAt: real): (map<string, Cell>, bool)
  {
    var key := RedisKey(Login(id));
    if raw.None? then (cells, false)
    else
      var r := raw.value;
      if !WellTyped(r) || !Alive(r, readAt) || PyInt(r.attempts).value >= max then (cells - {key}, false)
      else if r.email != Some(email) || r.codeDigest != Some(CodeDigest(id, code)) then
        if PyInt(r.attempts).value + 1 >= max then (cells - {key}, false)
        else
          (RedisSave(cells, Login(id), Failed(r), Max(PyInt(r.expiresAt).value - Seconds(readAt), 1), saveAt), false)
      else (cells - {key}, true)
  }

  /** The whole of it, when no other call on the challenge runs in between. */
  function RedisLogin(cells: map<string, Cell>, id: string, email: string, code: string, max: int,
                      loadAt: real, readAt: real, saveAt: real): (map<string, Cell>, bool)
  {
    FinishLogin(cells, id, Loaded(cells, id, loadAt), email, code, max, readAt, saveAt)
  }

  // ---------------------------------------------------------------- field types

  /** The record passes the script's tests. */
  predicate ScriptAccepts(r: Record, now: int) {
    ScriptTyped(r) && r.purpose == Some(RESET_PURPOSE) && LuaNumber(r.expiresAt).value > now as real
  }

  /** The record survives the cleanup and passes the locked branch's tests. */
  predicate ServiceAccepts(r: Record, now: int) {
    WellTyped(r) && r.purpose == Some(RESET_PURPOSE) && PyInt(r.expiresAt).value > now
  }

  /** What the locked branch, cleanup included, makes of a stored record. */
  function DecideAt(r: Record, email: string, digest: Digest, at: real, max: int): (Option<Record>, Verdict) {
    if Alive(r, at) then Decide(r, email, digest, max) else (None, Invalid)
  }

  lemma {:induction false} WholeNumberStays(n: int)
    ensures Encoded(n as real) == Int(n)
  {
    assert (n as real).Floor == n;
  }

  lemma {:induction false} WholeNumbersStay(n: int)
    ensures Encoded(n as real) == Int(n) && Encoded(n as real + 1.0) == Int(n + 1)
  {
    var next := n + 1;
    WholeNumberStays(n);
    WholeNumberStays(next);
    assert n as real + 1.0 == next as real;
  }

  lemma {:induction false} SameOnWholeNumbers(r: Record, email: string, digest: Digest, at: real, max: int)
    requires r.attempts.Int? && r.expiresAt.Int?
    ensures DecideAt(r, email, digest, at, max) == Judge(Some(r), email, digest, Seconds(at), max)
  {
    WholeNumbersStay(r.attempts.n);
    WholeNumbersStay(r.expiresAt.n);
  }

  lemma {:induction false} SingleAcceptance(r: Record, email: string, digest: Digest, at: real, max: int)
    requires ServiceAccepts(r, Seconds(at)) != ScriptAccepts(r, Seconds(at))
    ensures DecideAt(r, email, digest, at, max) != Judge(Some(r), email, digest, Seconds(at), max)
  {
  }

  /**
   The two backends make the same of a record, and leave the same of it, if and only if its
   number fields let both accept it or neither; a fraction or a boolean in the wrong field
   is what makes them differ.
   */
  lemma {:induction false} SameOutcomeExactly(r: Record, email: string, digest: Digest, at: real, max: int)
    ensures DecideAt(r, email, digest, at, max) == Judge(Some(r), email, digest, Seconds(at), max)
            <==> (ServiceAccepts(r, Seconds(at)) <==> ScriptAccepts(r, Seconds(at)))
  {
    if ServiceAccepts(r, Seconds(at)) && ScriptAccepts(r, Seconds(at)) {
      SameOnWholeNumbers(r, email, digest, at, max);
    } else if ServiceAccepts(r, Seconds(at)) != ScriptAccepts(r, Seconds(at)) {
      SingleAcceptance(r, email, digest, at, max);
    }
  }

  /** Which unexpired fields only one backend accepts, on any clock past its first second. */
  predicate IsDisputed(attempts: Field, expiresAt: Field, now: int) {
    match (attempts, expiresAt)
    case (Int(_), Float(x)) => x > now as real
    case (Float(_), Float(x)) => x > now as real
    case (Float(_), Int(e)) => e > now
    case (Bool(_), Int(e)) => e > now
    case _ => false
  }

  /**
   So they differ exactly on an otherwise valid, unexpired record whose expiry or count is a
   fraction, which the script accepts, or whose count is a boolean, which the service accepts.
   */
  lemma {:induction false} DisputedExactly(r: Record, now: int)
    requires now >= 1
    ensures ServiceAccepts(r, now) != ScriptAccepts(r, now) <==>
            && r.email.Some? && r.codeDigest.Some? && r.purpose == Some(RESET_PURPOSE)
            && IsDisputed(r.attempts, r.expiresAt, now)
  {
  }

  /** When the two backends agree about a record at one moment, they agree about it ever after. */
  lemma {:induction false} AgreementLasts(r: Record, now: int, later: int)
    requires ServiceAccepts(r, now) <==> ScriptAccepts(r, now)
    requires now <= later
    ensures ServiceAccepts(r, later) <==> ScriptAccepts(r, later)
  {
  }

  // ---------------------------------------------------------------- keys and digests

  /** Two submissions have the same digest only if challenge and code are the same; a code has no colon. */
  lemma {:induction false} DigestInjective(id1: string, code1: string, id2: string, code2: string)
    requires ':' !in code1 && ':' !in code2
    ensures CodeDigest(id1, code1) == CodeDigest(id2, code2) <==> id1 == id2 && code1 == code2
  {
    var p1, p2 := id1 + (":" + code1), id2 + (":" + code2);
    assert p1[|id1|] == ':' && p2[|id2|] == ':';
    assert forall i :: |id1| < i < |p1| ==> p1[i] == code1[i - |id1| - 1];
    assert forall i :: |id2| < i < |p2| ==> p2[i] == code2[i - |id2| - 1];
    if p1 == p2 {
      assert |id1| == |id2|;
      assert id1 == p1[..|id1|] && id2 == p2[..|id2|];
      assert code1 == p1[|id1| + 1..] && code2 == p2[|id2| + 1..];
    }
  }

  /** On one challenge, equal digests mean equal codes, whatever the codes look like. */
  lemma {:induction false} DigestDecidesCode(id: string, code1: string, code2: string)
    ensures CodeDigest(id, code1) == CodeDigest(id, code2) <==> code1 == code2
  {
    PrefixCancels(id, ":" + code1, ":" + code2);
    PrefixCancels(":", code1, code2);
  }

  /**
   In the shared dictionary a login key and a reset key collide exactly when the login id
   itself starts with the reset marker; ids the service issues contain no colon.
   */
  lemma {:induction false} MemKeysCollide(s1: Slot, s2: Slot)
    ensures MemKey(s1) == MemKey(s2) <==>
            || s1 == s2
            || (s1.Login? && s2.Reset? && s1.id == "reset:" + s2.id)
            || (s1.Reset? && s2.Login? && s2.id == "reset:" + s1.id)
  {
    PrefixCancels("reset:", s1.id, s2.id);
  }

  lemma {:induction false} MemKeysDistinct(s1: Slot, s2: Slot)
    requires ':' !in s1.id && ':' !in s2.id
    ensures MemKey(s1) == MemKey(s2) <==> s1 == s2
  {
    MemKeysCollide(s1, s2);
    assert ("reset:" + s1.id)[5] == ':' && ("reset:" + s2.id)[5] == ':';
  }

  /** The server's keys never collide, whatever the ids. */
  lemma {:induction false} RedisKeysDistinct(s1: Slot, s2: Slot)
    ensures RedisKey(s1) == RedisKey(s2) <==> s1 == s2
  {
    PrefixCancels("ouros:auth:email-otp:", s1.id, s2.id);
    PrefixCancels("ouros:auth:password-reset-otp:", s1.id, s2.id);
    if s1.Login? != s2.Login? {
      var l, r := if s1.Login? then s1 else s2, if s1.Login? then s2 else s1;
      assert RedisKey(l)[11] == 'e' && RedisKey(r)[11] == 'p';
    }
  }
}
