/**
 Login verifications that overlap on the shared server. Each one loads a copy of the record,
 decides on the copy and then writes, with any other verification free to run in between, so
 a write may undo what happened since its load. A write may also fail: then the call is
 answered "unavailable", whether or not the server carried the write out. Exactly when the
 code of one challenge can still be accepted.
 */
module LoginOverlap {
  import opened Wrappers
  import opened ChallengeSpec
  import opened LoginRuns

  /** A verification under way. `loaded` is the step at which it loaded its copy. */
  datatype Copy = Copy(raw: Option<Record>, email: string, code: string, loadedAt: real, loaded: nat)

  /**
   `tried`: the submitted codes that were compared with a loaded copy and failed, in order.
   `lost`: how many of these failures the server did not store because their write failed.
   */
  datatype State = State(
    now: real, cells: map<string, Cell>, inFlight: map<nat, Copy>, steps: nat, tried: seq<string>, lost: nat)

  datatype Action =
    | Advance(to: real)
    | Elsewhere(cells: map<string, Cell>)
    | Load(task: nat, email: string, code: string)
    | Finish(task: nat, readAt: real)
    | Lose(task: nat, readAt: real, applied: bool)

  /** The call ends, and no write of it can reach the server any more. */
  predicate Ends(a: Action) {
    a.Finish? || a.Lose?
  }

  /** The server carries out the call's write. */
  predicate Writes(a: Action) {
    a.Finish? || (a.Lose? && a.applied)
  }

  function Key(c: Issue): string {
    RedisKey(Login(c.id))
  }

  predicate Enabled(c: Issue, s: State, a: Action) {
    match a
    case Advance(to) => s.now <= to
    case Elsewhere(cells) => OnKey(cells, Key(c)) == OnKey(s.cells, Key(c))
    case Load(task, _, _) => task !in s.inFlight
    case Finish(task, readAt) => task in s.inFlight && s.inFlight[task].loadedAt <= readAt <= s.now
    case Lose(task, readAt, _) => task in s.inFlight && s.inFlight[task].loadedAt <= readAt <= s.now
  }

  function OnKey(cells: map<string, Cell>, key: string): Option<Cell> {
    if key in cells then Some(cells[key]) else None
  }

  /** The copy reaches the comparison with the stored code, and fails it. */
  predicate Compares(c: Issue, copy: Copy, readAt: real, max: int) {
    && copy.raw.Some? && WellTyped(copy.raw.value) && Alive(copy.raw.value, readAt)
    && PyInt(copy.raw.value.attempts).value < max
    && (copy.raw.value.email != Some(copy.email) || copy.raw.value.codeDigest != Some(CodeDigest(c.id, copy.code)))
  }

  function Outcome(c: Issue, max: int, s: State, a: Action): (map<string, Cell>, bool)
    requires Ends(a) && a.task in s.inFlight
  {
    var copy := s.inFlight[a.task];
    FinishLogin(s.cells, c.id, copy.raw, copy.email, copy.code, max, a.readAt, s.now)
  }

  function Apply(c: Issue, max: int, s: State, a: Action): State
    requires Enabled(c, s, a)
  {
    match a
    case Advance(to) => s.(now := to, steps := s.steps + 1)
    case Elsewhere(cells) => s.(cells := cells, steps := s.steps + 1)
    case Load(task, email, code) =>
      var copy := Copy(Loaded(s.cells, c.id, s.now), email, code, s.now, s.steps);
      s.(inFlight := s.inFlight[task := copy], steps := s.steps + 1)
    case _ =>
      var copy := s.inFlight[a.task];
      var compared := Compares(c, copy, a.readAt, max);
      s.(cells := if Writes(a) then Outcome(c, max, s, a).0 else s.cells,
         inFlight := s.inFlight - {a.task}, steps := s.steps + 1,
         tried := s.tried + if compared then [copy.code] else [],
         lost := s.lost + if compared && !Writes(a) then 1 else 0)
  }

  ghost predicate Accepts(c: Issue, max: int, s: State, a: Action) {
    a.Finish? && a.task in s.inFlight && Outcome(c, max, s, a).1
  }

  /** The challenge has just been saved, with a deadline that reaches its expiry; no call is under way. */
  ghost predicate Begun(c: Issue, s: State) {
    && Key(c) in s.cells && s.cells[Key(c)].record == FirstRecord(c) && Expiry(c) as real <= s.cells[Key(c)].deadline
    && s.inFlight == map[] && s.steps == 0 && s.tried == [] && s.lost == 0
  }

  ghost predicate Leads(c: Issue, max: int, s: State, a: Action, s': State) {
    Enabled(c, s, a) && s' == Apply(c, max, s, a)
  }

  ghost predicate Path(c: Issue, max: int, states: seq<State>, actions: seq<Action>) {
    && |states| == |actions| + 1
    && forall i :: 0 <= i < |actions| ==> Leads(c, max, states[i], actions[i], states[i + 1])
  }

  // ---------------------------------------------------------------- what every run keeps

  /** The challenge's record after some failures have been counted. */
  function Stage(c: Issue, failures: int): Record {
    FirstRecord(c).(attempts := Int(failures))
  }

  ghost predicate IsStage(c: Issue, max: int, r: Record) {
    r.attempts.Int? && 0 <= r.attempts.n < max && r == Stage(c, r.attempts.n)
  }

  ghost predicate CopyInv(c: Issue, max: int, s: State, copy: Copy) {
    copy.loadedAt <= s.now && copy.loaded < s.steps && (copy.raw.Some? ==> IsStage(c, max, copy.raw.value))
  }

  ghost predicate Inv(c: Issue, max: int, s: State) {
    && (Key(c) in s.cells ==> IsStage(c, max, s.cells[Key(c)].record) && Expiry(c) as real <= s.cells[Key(c)].deadline)
    && forall t :: t in s.inFlight ==> CopyInv(c, max, s, s.inFlight[t])
  }

  predicate IsRight(c: Issue, copy: Copy) {
    copy.email == c.email && copy.code == c.code
  }

  /** What ending a call answers and writes, whatever the server holds by then. */
  lemma {:induction false} FinishWrites(c: Issue, max: int, s: State, a: Action)
    requires Inv(c, max, s) && Enabled(c, s, a) && Ends(a)
    ensures var copy := s.inFlight[a.task];
            var (cells, accepted) := Outcome(c, max, s, a);
            var live := copy.raw.Some? && Seconds(a.readAt) < Expiry(c);
            && (accepted <==> live && IsRight(c, copy))
            && (Compares(c, copy, a.readAt, max) <==> live && !IsRight(c, copy))
            && (forall k :: k != Key(c) ==> OnKey(cells, k) == OnKey(s.cells, k))
            && (copy.raw.None? ==> cells == s.cells)
            && (copy.raw.Some? ==>
                  if live && !IsRight(c, copy) && copy.raw.value.attempts.n + 1 < max
                  then && Key(c) in cells && cells[Key(c)].record == Stage(c, copy.raw.value.attempts.n + 1)
                       && Expiry(c) as real <= cells[Key(c)].deadline && s.now < cells[Key(c)].deadline
                  else Key(c) !in cells)
  {
    DigestDecidesCode(c.id, c.code, s.inFlight[a.task].code);
  }

  lemma {:induction false} InvKept(c: Issue, max: int, s: State, a: Action)
    requires Inv(c, max, s) && Enabled(c, s, a)
    ensures Inv(c, max, Apply(c, max, s, a))
  {
    if Ends(a) {
      FinishWrites(c, max, s, a);
    } else if a.Elsewhere? {
      assert OnKey(a.cells, Key(c)) == OnKey(s.cells, Key(c));
    }
    forall t | t in s.inFlight
      ensures CopyInv(c, max, Apply(c, max, s, a), s.inFlight[t])
    {
      assert CopyInv(c, max, s, s.inFlight[t]);
    }
  }

  lemma {:induction false} PathKeepsInv(c: Issue, max: int, states: seq<State>, actions: seq<Action>, n: nat)
    requires Path(c, max, states, actions) && n < |states| && Inv(c, max, states[0])
    ensures Inv(c, max, states[n])
    ensures states[n].steps == states[0].steps + n
  {
    if n > 0 {
      PathKeepsInv(c, max, states, actions, n - 1);
      assert Leads(c, max, states[n - 1], actions[n - 1], states[n]);
      InvKept(c, max, states[n - 1], actions[n - 1]);
    }
  }

  // ---------------------------------------------------------------- when the code can still be accepted

  /** The stored record would be loaded and is unexpired. */
  predicate Open(c: Issue, s: State) {
    Present(s.cells, Key(c), s.now) && Seconds(s.now) < Expiry(c)
  }

  /**
   A copy that can still lead to an acceptance: a right one loaded before the expiry, which
   will be accepted itself, or a wrong one with attempts to spare, whose save puts a record
   back that a later call can load.
   */
  predicate Potent(c: Issue, max: int, copy: Copy, now: real) {
    && copy.raw.Some?
    && if IsRight(c, copy) then Seconds(copy.loadedAt) < Expiry(c)
       else copy.raw.value.attempts.Int? && copy.raw.value.attempts.n + 1 < max && Seconds(now) < Expiry(c)
  }

  /** Nothing stored is open, and no copy loaded at step `from` or later is potent. */
  ghost predicate BarrenSince(c: Issue, max: int, s: State, from: nat) {
    !Open(c, s) && forall t :: t in s.inFlight && s.inFlight[t].loaded >= from ==> !Potent(c, max, s.inFlight[t], s.now)
  }

  ghost predicate Barren(c: Issue, max: int, s: State) {
    BarrenSince(c, max, s, 0)
  }

  /** The action writes what a potent copy that was loaded before step `from` decided. */
  ghost predicate WritesStraddler(c: Issue, max: int, s: State, a: Action, from: nat) {
    Writes(a) && a.task in s.inFlight && s.inFlight[a.task].loaded < from && Potent(c, max, s.inFlight[a.task], s.now)
  }

  /** Only a potent copy from before can end barrenness. */
  lemma {:induction false} BarrenStep(c: Issue, max: int, s: State, a: Action, from: nat)
    requires Inv(c, max, s) && Enabled(c, s, a) && from <= s.steps
    requires BarrenSince(c, max, s, from) && !WritesStraddler(c, max, s, a, from)
    ensures BarrenSince(c, max, Apply(c, max, s, a), from) && !Accepts(c, max, s, a)
  {
    var s' := Apply(c, max, s, a);
    if Ends(a) {
      FinishWrites(c, max, s, a);
      assert CopyInv(c, max, s, s.inFlight[a.task]);
      assert Seconds(s.inFlight[a.task].loadedAt) <= Seconds(a.readAt) <= Seconds(s.now);
    } else if a.Elsewhere? {
      assert OnKey(a.cells, Key(c)) == OnKey(s.cells, Key(c));
    } else if a.Advance? {
      assert Seconds(s.now) <= Seconds(a.to);
    }
    forall t | t in s'.inFlight && s'.inFlight[t].loaded >= from
      ensures !Potent(c, max, s'.inFlight[t], s'.now)
    {
      if t in s.inFlight {
        assert !Potent(c, max, s.inFlight[t], s.now);
      }
    }
  }

  lemma {:induction false} BarrenPath(
      c: Issue, max: int, states: seq<State>, actions: seq<Action>, i: nat, n: nat, from: nat)
    requires Path(c, max, states, actions) && i <= n < |states| && Inv(c, max, states[0])
    requires BarrenSince(c, max, states[i], from) && from <= states[i].steps
    requires forall m :: i <= m < n ==> !WritesStraddler(c, max, states[m], actions[m], from)
    ensures BarrenSince(c, max, states[n], from)
    ensures forall m :: i <= m < n ==> !Accepts(c, max, states[m], actions[m])
  {
    if i < n {
      BarrenPath(c, max, states, actions, i, n - 1, from);
      PathKeepsInv(c, max, states, actions, n - 1);
      PathKeepsInv(c, max, states, actions, i);
      assert Leads(c, max, states[n - 1], actions[n - 1], states[n]);
      BarrenStep(c, max, states[n - 1], actions[n - 1], from);
    }
  }

  /** Some run from here accepts the code. */
  ghost predicate CanAccept(c: Issue, max: int, s: State) {
    exists states: seq<State>, actions: seq<Action>, i: nat ::
      Path(c, max, states, actions) && states[0] == s && i < |actions| && Accepts(c, max, states[i], actions[i])
  }

  lemma {:induction false} FreshTask(tasks: set<nat>) returns (n: nat)
    ensures n !in tasks && forall t :: t in tasks ==> t < n
    decreases tasks
  {
    n := 0;
    if tasks != {} {
      var t :| t in tasks;
      var rest := FreshTask(tasks - {t});
      n := Max(rest, t + 1);
      forall x | x in tasks
        ensures x < n
      {
        assert x != t ==> x in tasks - {t};
      }
    }
  }

  lemma {:induction false} ExtendPath(c: Issue, max: int, states: seq<State>, actions: seq<Action>, a: Action)
    returns (states': seq<State>, actions': seq<Action>)
    requires Path(c, max, states, actions) && Enabled(c, states[|actions|], a)
    ensures Path(c, max, states', actions') && actions' == actions + [a]
    ensures states' == states + [Apply(c, max, states[|actions|], a)]
  {
    states', actions' := states + [Apply(c, max, states[|actions|], a)], actions + [a];
    forall i | 0 <= i < |actions'|
      ensures Leads(c, max, states'[i], actions'[i], states'[i + 1])
    {
      assert i < |actions| ==> Leads(c, max, states[i], actions[i], states[i + 1]);
    }
  }

  /** A right call that runs now is accepted when the stored record is open. */
  lemma {:induction false} OpenIsAccepted(c: Issue, max: int, states: seq<State>, actions: seq<Action>)
    returns (states': seq<State>, actions': seq<Action>)
    requires Path(c, max, states, actions) && Inv(c, max, states[|actions|]) && Open(c, states[|actions|])
    ensures Path(c, max, states', actions') && states <= states' && actions <= actions'
    ensures |actions'| == |actions| + 2 && Accepts(c, max, states'[|actions| + 1], actions'[|actions| + 1])
  {
    var s := states[|actions|];
    var task := FreshTask(s.inFlight.Keys);
    states', actions' := ExtendPath(c, max, states, actions, Load(task, c.email, c.code));
    var loaded := states'[|actions| + 1];
    InvKept(c, max, s, Load(task, c.email, c.code));
    FinishWrites(c, max, loaded, Finish(task, s.now));
    states', actions' := ExtendPath(c, max, states', actions', Finish(task, s.now));
  }

  lemma {:induction false} FertileCanAccept(c: Issue, max: int, s: State)
    requires Inv(c, max, s) && !Barren(c, max, s)
    ensures CanAccept(c, max, s)
  {
    var states, actions := [s], [];
    if Open(c, s) {
      states, actions := OpenIsAccepted(c, max, states, actions);
      assert Accepts(c, max, states[1], actions[1]);
    } else {
      var t :| t in s.inFlight && Potent(c, max, s.inFlight[t], s.now);
      assert CopyInv(c, max, s, s.inFlight[t]);
      var copy, a := s.inFlight[t], Finish(t, s.inFlight[t].loadedAt);
      assert Seconds(copy.loadedAt) <= Seconds(s.now);
      FinishWrites(c, max, s, a);
      InvKept(c, max, s, a);
      states, actions := ExtendPath(c, max, states, actions, a);
      if IsRight(c, copy) {
        assert Accepts(c, max, states[0], actions[0]);
      } else {
        states, actions := OpenIsAccepted(c, max, states, actions);
        assert Accepts(c, max, states[2], actions[2]);
      }
    }
  }

  /** The code can still be accepted if and only if a stored record is open or a copy under way is potent. */
  lemma {:induction false} CanAcceptExactly(c: Issue, max: int, s: State)
    requires Inv(c, max, s)
    ensures CanAccept(c, max, s) <==> !Barren(c, max, s)
  {
    if Barren(c, max, s) {
      forall states: seq<State>, actions: seq<Action>, i: nat
        | Path(c, max, states, actions) && states[0] == s && i < |actions|
        ensures !Accepts(c, max, states[i], actions[i])
      {
        BarrenPath(c, max, states, actions, 0, |actions|, 0);
      }
    } else {
      FertileCanAccept(c, max, s);
    }
  }

  /**
   Right after an acceptance, a second one is possible if and only if some call that loaded
   before the accepting delete is still under way with a potent copy.
   */
  lemma {:induction false} SecondAcceptanceExactly(c: Issue, max: int, s: State, a: Action)
    requires Inv(c, max, s) && Enabled(c, s, a) && Accepts(c, max, s, a)
    ensures var s' := Apply(c, max, s, a);
            CanAccept(c, max, s') <==> exists t :: t in s'.inFlight && Potent(c, max, s'.inFlight[t], s'.now)
  {
    FinishWrites(c, max, s, a);
    InvKept(c, max, s, a);
    CanAcceptExactly(c, max, Apply(c, max, s, a));
  }

  /**
   In every run, a second acceptance is preceded by, or is, the write of a potent copy that
   was loaded before the first; without such a straddler the code is accepted at most once.
   */
  lemma {:induction false} SecondNeedsStraddler(
      c: Issue, max: int, states: seq<State>, actions: seq<Action>, i: nat, j: nat)
    returns (m: nat)
    requires Path(c, max, states, actions) && Begun(c, states[0]) && max >= 1 && i < j < |actions|
    requires Accepts(c, max, states[i], actions[i]) && Accepts(c, max, states[j], actions[j])
    ensures i < m <= j && WritesStraddler(c, max, states[m], actions[m], i)
  {
    assert IsStage(c, max, FirstRecord(c));
    PathKeepsInv(c, max, states, actions, i);
    var s, s' := states[i], states[i + 1];
    assert Leads(c, max, s, actions[i], s');
    FinishWrites(c, max, s, actions[i]);
    if forall n :: i < n <= j ==> !WritesStraddler(c, max, states[n], actions[n], i) {
      forall t | t in s'.inFlight
        ensures s'.inFlight[t].loaded < i
      {
        assert CopyInv(c, max, s, s.inFlight[t]);
      }
      BarrenPath(c, max, states, actions, i + 1, j + 1, i);
      assert false;
    }
    m :| i < m <= j && WritesStraddler(c, max, states[m], actions[m], i);
  }

  function LostSave(c: Issue, wrong: string, now: real, answered: bool): seq<Action> {
    [Load(1, c.email, wrong), Load(2, c.email, c.code), Finish(2, now), LateSave(now, answered),
     Load(3, c.email, c.code), Finish(3, now)]
  }

  /** The first call's save is carried out, and the service is told so or not. */
  function LateSave(now: real, answered: bool): Action {
    if answered then Finish(1, now) else Lose(1, now, true)
  }

  /**
   Three calls: a wrong one loads, a right one is accepted and deletes, the wrong one's save
   puts the used challenge back, even when its reply is lost, and a right one that loads after
   all this is accepted too.
   */
  lemma {:induction false} LostSaveRevives(c: Issue, max: int, s: State, wrong: string, answered: bool)
    returns (states: seq<State>, actions: seq<Action>)
    requires Begun(c, s) && max >= 2 && wrong != c.code && Seconds(s.now) < Expiry(c)
    ensures Path(c, max, states, actions) && states[0] == s && actions == LostSave(c, wrong, s.now, answered)
    ensures Accepts(c, max, states[2], actions[2]) && Key(c) !in states[3].cells
    ensures Accepts(c, max, states[5], actions[5])
  {
    states, actions := FirstAccepted(c, max, s, wrong, answered);
    var revived := states[3];
    FinishWrites(c, max, revived, LateSave(s.now, answered));
    states, actions := ExtendPath(c, max, states, actions, LateSave(s.now, answered));
    states, actions := ExtendPath(c, max, states, actions, Load(3, c.email, c.code));
    InvKept(c, max, revived, LateSave(s.now, answered));
    InvKept(c, max, states[4], Load(3, c.email, c.code));
    FinishWrites(c, max, states[5], Finish(3, s.now));
    states, actions := ExtendPath(c, max, states, actions, Finish(3, s.now));
  }

  lemma {:induction false} FirstAccepted(c: Issue, max: int, s: State, wrong: string, answered: bool)
    returns (states: seq<State>, actions: seq<Action>)
    requires Begun(c, s) && max >= 2 && Seconds(s.now) < Expiry(c)
    ensures Path(c, max, states, actions) && states[0] == s && actions == LostSave(c, wrong, s.now, answered)[..3]
    ensures Accepts(c, max, states[2], actions[2]) && Key(c) !in states[3].cells
    ensures states[3].now == s.now && Inv(c, max, states[3])
    ensures states[3].inFlight == map[1 := Copy(Some(FirstRecord(c)), c.email, wrong, s.now, 0)]
  {
    states, actions := [s], [];
    states, actions := ExtendPath(c, max, states, actions, Load(1, c.email, wrong));
    states, actions := ExtendPath(c, max, states, actions, Load(2, c.email, c.code));
    assert IsStage(c, max, FirstRecord(c));
    PathKeepsInv(c, max, states, actions, 2);
    FinishWrites(c, max, states[2], Finish(2, s.now));
    InvKept(c, max, states[2], Finish(2, s.now));
    states, actions := ExtendPath(c, max, states, actions, Finish(2, s.now));
  }
}
