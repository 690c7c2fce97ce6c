/**
 How many wrong codes can be tried on one login challenge when verifications overlap. A
 failure is counted on a copy and saved over whatever was counted meanwhile, so the budget
 depends on how many verifications may be under way at once: with `width` of them it is
 Choose(width + max, width) - 1, which is `max` when they do not overlap, and one more for
 every failure whose write the server does not carry out.
 */
module LoginBudget {
  import opened Wrappers
  import opened ChallengeSpec
  import opened LoginRuns
  import opened LoginOverlap

  /** Failures still possible with `width` verifications at a time on a stored record with `level` failures. */
  function Budget(width: nat, level: nat, max: nat): nat
    decreases width + Max(max - level, 0)
  {
    if width == 0 || level >= max then 0
    else Budget(width - 1, level, max) + 1 + Budget(width, level + 1, max)
  }

  function Choose(n: nat, k: nat): nat {
    if k == 0 then 1 else if n == 0 then 0 else Choose(n - 1, k - 1) + Choose(n - 1, k)
  }

  lemma {:induction false} ChooseAll(n: nat, k: nat)
    requires k >= n
    ensures Choose(n, k) == if k == n then 1 else 0
  {
    if n > 0 {
      ChooseAll(n - 1, k - 1);
      ChooseAll(n - 1, k);
    }
  }

  lemma {:induction false} BudgetIsChoose(width: nat, level: nat, max: nat)
    requires level <= max
    ensures Budget(width, level, max) + 1 == Choose(width + (max - level), width)
    decreases width + (max - level)
  {
    if level == max {
      ChooseAll(width, width);
    } else if width > 0 {
      BudgetIsChoose(width - 1, level, max);
      BudgetIsChoose(width, level + 1, max);
    }
  }

  /** Without overlap the budget is the maximum of attempts. */
  lemma {:induction false} SerialBudget(level: nat, max: nat)
    requires level <= max
    ensures Budget(1, level, max) == max - level
    decreases max - level
  {
    if level < max {
      SerialBudget(level + 1, max);
    }
  }

  // ---------------------------------------------------------------- copies under way

  /** A copy that may still be compared. */
  predicate IsHolding(c: Issue, copy: Copy) {
    copy.raw.Some? && copy.raw.value.attempts.Int? && Seconds(copy.loadedAt) < Expiry(c)
  }

  function Holders(c: Issue, s: State): set<nat> {
    set t | t in s.inFlight && IsHolding(c, s.inFlight[t])
  }

  /** Failures counted on the stored record, or the maximum when none is open. */
  function Level(c: Issue, max: nat, s: State): int {
    if Open(c, s) && s.cells[Key(c)].record.attempts.Int? then s.cells[Key(c)].record.attempts.n else max
  }

  /**
   `None` is a place for a verification that has yet to load. A holder above the stored level
   is worth no more than such a place: it could give up and load again.
   */
  function LevelOf(c: Issue, max: nat, s: State, place: Option<nat>): int {
    if place.Some? && place.value in s.inFlight && IsHolding(c, s.inFlight[place.value])
    then Min(s.inFlight[place.value].raw.value.attempts.n, Level(c, max, s)) else Level(c, max, s)
  }

  /** What a copy at this level is worth in the `j`-th place: its failure, and what it makes possible after it. */
  function Gain(j: nat, level: int, max: nat): nat {
    if 0 <= level < max then 1 + Budget(j, level + 1, max) else 0
  }

  function Potential(c: Issue, max: nat, s: State, places: seq<Option<nat>>, n: nat): nat
    requires n <= |places|
  {
    if n == 0 then 0
    else Potential(c, max, s, places, n - 1) + Gain(n, LevelOf(c, max, s, places[n - 1]), max)
  }

  /** Every holder has one place, and the other places are free. */
  ghost predicate Arranged(c: Issue, s: State, places: seq<Option<nat>>) {
    && (forall t :: t in Holders(c, s) <==> Some(t) in places)
    && (forall i, j :: 0 <= i < j < |places| && places[i].Some? ==> places[i] != places[j])
  }

  /** Free places together are worth the budget of the stored record. */
  lemma {:induction false} FreePlaces(c: Issue, max: nat, s: State, places: seq<Option<nat>>, n: nat)
    requires n <= |places| && Level(c, max, s) >= 0
    requires forall i :: 0 <= i < n ==> places[i].None?
    ensures Potential(c, max, s, places, n) == Budget(n, Level(c, max, s), max)
  {
    if n > 0 {
      FreePlaces(c, max, s, places, n - 1);
    }
  }

  lemma {:induction false} BudgetFalls(width: nat, level: nat, level': nat, max: nat)
    requires level <= level'
    ensures Budget(width, level', max) <= Budget(width, level, max)
    decreases level' - level
  {
    if level < level' {
      BudgetFalls(width, level + 1, level', max);
    }
  }

  lemma {:induction false} GainFalls(j: nat, level: int, level': int, max: nat)
    requires 0 <= level <= level'
    ensures Gain(j, level', max) <= Gain(j, level, max)
  {
    if level' < max {
      BudgetFalls(j, level + 1, level' + 1, max);
    }
  }

  /** Nothing is gained where no level falls. */
  lemma {:induction false} PotentialFalls(
      c: Issue, max: nat, s: State, places: seq<Option<nat>>, s': State, places': seq<Option<nat>>, n: nat)
    requires n <= |places| == |places'|
    requires forall i :: 0 <= i < n ==> 0 <= LevelOf(c, max, s, places[i]) <= LevelOf(c, max, s', places'[i])
    ensures Potential(c, max, s', places', n) <= Potential(c, max, s, places, n)
  {
    if n > 0 {
      PotentialFalls(c, max, s, places, s', places', n - 1);
      GainFalls(n, LevelOf(c, max, s, places[n - 1]), LevelOf(c, max, s', places'[n - 1]), max);
    }
  }

  /**
   A call at `level` that writes from place `q`, the last one worth no more afterwards than
   what it stores: those places together are within what the call was worth in `q`.
   */
  lemma {:induction false} WritePays(
      c: Issue, max: nat, s: State, places: seq<Option<nat>>, s': State, places': seq<Option<nat>>,
      q: nat, level: nat, n: nat)
    requires n <= |places| == |places'| && q < |places| && level < max
    requires level + 1 <= Level(c, max, s') <= max
    requires 0 <= LevelOf(c, max, s, places[q]) <= level && LevelOf(c, max, s', places'[q]) == Level(c, max, s')
    requires forall i :: 0 <= i < |places| && i != q ==>
               || 0 <= LevelOf(c, max, s, places[i]) <= LevelOf(c, max, s', places'[i])
               || (i < q && LevelOf(c, max, s', places'[i]) == Level(c, max, s'))
    ensures Potential(c, max, s', places', n) + (if n > q then 1 else 0)
            <= Potential(c, max, s, places, n) + (if n > q then 0 else Budget(n, Level(c, max, s'), max))
  {
    if n > 0 {
      WritePays(c, max, s, places, s', places', q, level, n - 1);
      var before, after := LevelOf(c, max, s, places[n - 1]), LevelOf(c, max, s', places'[n - 1]);
      if n - 1 == q {
        GainFalls(n, before, level, max);
        BudgetFalls(n, level + 1, Level(c, max, s'), max);
      } else if 0 <= before <= after {
        GainFalls(n, before, after, max);
      }
    }
  }

  // ---------------------------------------------------------------- arrangements

  lemma {:induction false} Arrange(tasks: set<nat>, width: nat) returns (places: seq<Option<nat>>)
    requires |tasks| <= width
    ensures |places| == width
    ensures forall t :: t in tasks <==> Some(t) in places
    ensures forall i, j :: 0 <= i < j < |places| && places[i].Some? ==> places[i] != places[j]
    decreases width
  {
    if width == 0 {
      places := [];
    } else if tasks == {} {
      places := Arrange({}, width - 1);
      places := places + [None];
    } else {
      var t :| t in tasks;
      var rest := Arrange(tasks - {t}, width - 1);
      places := rest + [Some(t)];
      forall u
        ensures u in tasks <==> Some(u) in places
      {
        assert u != t ==> (u in tasks <==> u in tasks - {t});
      }
    }
  }

  function Occupants(places: seq<Option<nat>>): set<nat> {
    set i | 0 <= i < |places| && places[i].Some? :: places[i].value
  }

  lemma {:induction false} OccupantsCount(places: seq<Option<nat>>)
    requires forall i :: 0 <= i < |places| ==> places[i].Some?
    requires forall i, j :: 0 <= i < j < |places| ==> places[i] != places[j]
    ensures |Occupants(places)| == |places|
  {
    if places != [] {
      var n := |places| - 1;
      var rest := places[..n];
      OccupantsCount(rest);
      assert places[n].value !in Occupants(rest);
      forall t
        ensures t in Occupants(places) <==> t in Occupants(rest) + {places[n].value}
      {
        if t in Occupants(rest) {
          var i :| 0 <= i < n && rest[i] == Some(t);
          assert places[i] == Some(t);
        }
      }
      assert Occupants(places) == Occupants(rest) + {places[n].value};
    }
  }

  lemma {:induction false} OccupantsAreHolders(c: Issue, s: State, places: seq<Option<nat>>)
    requires Arranged(c, s, places)
    ensures Occupants(places) == Holders(c, s)
    ensures Holders(c, s) == {} ==> forall i :: 0 <= i < |places| ==> places[i].None?
  {
    forall t
      ensures t in Occupants(places) <==> t in Holders(c, s)
    {
      if Some(t) in places {
        var i :| 0 <= i < |places| && places[i] == Some(t);
        assert t in Occupants(places);
      }
    }
    forall i | 0 <= i < |places|
      ensures places[i].Some? ==> places[i].value in Holders(c, s)
    {
      assert places[i] in places;
    }
  }

  /** With fewer holders than places there is a free place. */
  lemma {:induction false} FreePlace(c: Issue, s: State, places: seq<Option<nat>>) returns (i: nat)
    requires Arranged(c, s, places) && |Holders(c, s)| < |places|
    ensures i < |places| && places[i].None?
  {
    OccupantsAreHolders(c, s, places);
    if forall i :: 0 <= i < |places| ==> places[i].Some? {
      OccupantsCount(places);
      assert false;
    }
    i :| i < |places| && places[i].None?;
  }

  /** The last place worth no more than a free one. */
  lemma {:induction false} LastWorn(c: Issue, max: nat, s: State, places: seq<Option<nat>>, i: nat) returns (q: nat)
    requires i < |places| && places[i].None?
    ensures i <= q < |places| && LevelOf(c, max, s, places[q]) == Level(c, max, s)
    ensures forall j :: q < j < |places| ==> LevelOf(c, max, s, places[j]) < Level(c, max, s)
  {
    q := i;
    for j := i + 1 to |places|
      invariant i <= q < j && LevelOf(c, max, s, places[q]) == Level(c, max, s)
      invariant forall k :: q < k < j ==> LevelOf(c, max, s, places[k]) < Level(c, max, s)
    {
      if LevelOf(c, max, s, places[j]) == Level(c, max, s) {
        q := j;
      }
    }
  }

  /** Puts `t` in place `q` and whoever was there in the free place `i`. */
  function Seated(places: seq<Option<nat>>, i: nat, q: nat, t: nat): seq<Option<nat>>
    requires i < |places| && q < |places|
  {
    places[i := places[q]][q := Some(t)]
  }

  lemma {:induction false} SeatedArranges(
      c: Issue, s: State, s': State, places: seq<Option<nat>>, i: nat, q: nat, t: nat)
    requires Arranged(c, s', places) && i < |places| && q < |places| && places[i].None?
    requires t !in Holders(c, s') && Holders(c, s) == Holders(c, s') + {t}
    ensures Arranged(c, s, Seated(places, i, q, t))
  {
    var seated := Seated(places, i, q, t);
    assert Some(t) !in places;
    forall x
      ensures x in Holders(c, s) <==> Some(x) in seated
    {
      if Some(x) in places {
        var j :| 0 <= j < |places| && places[j] == Some(x);
        assert seated[if j == q then i else j] == Some(x) || i == q;
      }
      assert seated[q] == Some(t);
    }
  }

  // ---------------------------------------------------------------- one action

  /** The stored level after a holder has written: one more than its own, or nothing stored. */
  lemma {:induction false} WrittenLevel(c: Issue, max: nat, s: State, a: Action)
    requires Inv(c, max, s) && Enabled(c, s, a) && Writes(a) && a.task in Holders(c, s)
    ensures var s', level := Apply(c, max, s, a), s.inFlight[a.task].raw.value.attempts.n;
            && 0 <= level < max && 0 <= Level(c, max, s) <= max
            && (Level(c, max, s') == level + 1 || Level(c, max, s') == max)
    ensures Holders(c, Apply(c, max, s, a)) == Holders(c, s) - {a.task}
  {
    FinishWrites(c, max, s, a);
    assert CopyInv(c, max, s, s.inFlight[a.task]);
  }

  /** Who holds a copy after a call has ended held it before. */
  lemma {:induction false} SameHolder(c: Issue, max: nat, s: State, a: Action, places': seq<Option<nat>>, j: nat)
    requires Inv(c, max, s) && Enabled(c, s, a) && Ends(a) && j < |places'|
    requires Arranged(c, Apply(c, max, s, a), places')
    ensures var s' := Apply(c, max, s, a);
            places'[j].Some? ==>
              && places'[j].value in Holders(c, s)
              && var level := s.inFlight[places'[j].value].raw.value.attempts.n;
              && 0 <= level && LevelOf(c, max, s, places'[j]) == Min(level, Level(c, max, s))
              && LevelOf(c, max, s', places'[j]) == Min(level, Level(c, max, s'))
  {
    if places'[j].Some? {
      assert places'[j] in places' && places'[j].value in Holders(c, Apply(c, max, s, a));
      assert CopyInv(c, max, s, s.inFlight[places'[j].value]);
    }
  }

  /** Anybody else's place is worth no more afterwards, unless it is worth what is stored now. */
  lemma {:induction false} OtherSeat(c: Issue, max: nat, s: State, a: Action, places': seq<Option<nat>>, j: nat)
    requires Inv(c, max, s) && Enabled(c, s, a) && Writes(a) && a.task in Holders(c, s) && j < |places'|
    requires Arranged(c, Apply(c, max, s, a), places')
    ensures var s' := Apply(c, max, s, a);
            || 0 <= LevelOf(c, max, s, places'[j]) <= LevelOf(c, max, s', places'[j])
            || LevelOf(c, max, s', places'[j]) == Level(c, max, s')
  {
    WrittenLevel(c, max, s, a);
    SameHolder(c, max, s, a, places', j);
  }

  lemma {:induction false} SeatsKept(
      c: Issue, max: nat, s: State, a: Action, places': seq<Option<nat>>, i: nat, q: nat)
    requires Inv(c, max, s) && Enabled(c, s, a) && Writes(a) && a.task in Holders(c, s)
    requires Arranged(c, Apply(c, max, s, a), places') && i <= q < |places'| && places'[i].None?
    requires forall j :: q < j < |places'| ==>
               LevelOf(c, max, Apply(c, max, s, a), places'[j]) < Level(c, max, Apply(c, max, s, a))
    ensures var s', places := Apply(c, max, s, a), Seated(places', i, q, a.task);
            forall j :: 0 <= j < |places| && j != q ==>
              || 0 <= LevelOf(c, max, s, places[j]) <= LevelOf(c, max, s', places'[j])
              || (j < q && LevelOf(c, max, s', places'[j]) == Level(c, max, s'))
  {
    var s', places := Apply(c, max, s, a), Seated(places', i, q, a.task);
    forall j | 0 <= j < |places| && j != q
      ensures || 0 <= LevelOf(c, max, s, places[j]) <= LevelOf(c, max, s', places'[j])
              || (j < q && LevelOf(c, max, s', places'[j]) == Level(c, max, s'))
    {
      if j != i {
        assert places[j] == places'[j];
        OtherSeat(c, max, s, a, places', j);
      }
    }
  }

  lemma {:induction false} HolderWrites(c: Issue, max: nat, s: State, a: Action, places': seq<Option<nat>>)
    returns (places: seq<Option<nat>>)
    requires Inv(c, max, s) && Enabled(c, s, a) && Writes(a) && a.task in Holders(c, s)
    requires Arranged(c, Apply(c, max, s, a), places') && |Holders(c, s)| <= |places'|
    ensures |places| == |places'| && Arranged(c, s, places)
    ensures var s' := Apply(c, max, s, a);
            Potential(c, max, s', places', |places'|) + 1 <= Potential(c, max, s, places, |places|)
  {
    var s', level := Apply(c, max, s, a), s.inFlight[a.task].raw.value.attempts.n;
    WrittenLevel(c, max, s, a);
    var i := FreePlace(c, s', places');
    var q := LastWorn(c, max, s', places', i);
    places := Seated(places', i, q, a.task);
    SeatedArranges(c, s, s', places', i, q, a.task);
    SeatsKept(c, max, s, a, places', i, q);
    WritePays(c, max, s, places, s', places', q, level, |places|);
  }

  lemma {:induction false} LostLevel(c: Issue, max: nat, s: State, a: Action)
    requires Inv(c, max, s) && Enabled(c, s, a) && Ends(a) && !Writes(a) && a.task in Holders(c, s)
    ensures var s' := Apply(c, max, s, a);
            && Holders(c, s') == Holders(c, s) - {a.task}
            && 0 <= Level(c, max, s) == Level(c, max, s')
            && 0 <= LevelOf(c, max, s, Some(a.task)) <= Level(c, max, s)
  {
    assert CopyInv(c, max, s, s.inFlight[a.task]);
  }

  /** A holder whose write is not carried out only gives up its place. */
  lemma {:induction false} HolderLoses(c: Issue, max: nat, s: State, a: Action, places': seq<Option<nat>>)
    returns (places: seq<Option<nat>>)
    requires Inv(c, max, s) && Enabled(c, s, a) && Ends(a) && !Writes(a) && a.task in Holders(c, s)
    requires Arranged(c, Apply(c, max, s, a), places') && |Holders(c, s)| <= |places'|
    ensures |places| == |places'| && Arranged(c, s, places)
    ensures Potential(c, max, Apply(c, max, s, a), places', |places'|) <= Potential(c, max, s, places, |places|)
  {
    var s' := Apply(c, max, s, a);
    LostLevel(c, max, s, a);
    var i := FreePlace(c, s', places');
    places := Seated(places', i, i, a.task);
    SeatedArranges(c, s, s', places', i, i, a.task);
    forall j | 0 <= j < |places|
      ensures 0 <= LevelOf(c, max, s, places[j]) <= LevelOf(c, max, s', places'[j])
    {
      if j == i {
        assert places[j] == Some(a.task) && places'[j] == None;
      } else {
        assert places[j] == places'[j];
        SameHolder(c, max, s, a, places', j);
      }
    }
    PotentialFalls(c, max, s, places, s', places', |places|);
  }

  /** A load of an open record takes a free place's worth. */
  lemma {:induction false} LoadedSeat(c: Issue, max: nat, s: State, a: Action, places': seq<Option<nat>>, j: nat)
    requires Inv(c, max, s) && Enabled(c, s, a) && a.Load? && Open(c, s) && j < |places'|
    requires Arranged(c, Apply(c, max, s, a), places')
    ensures var s', freed := Apply(c, max, s, a), if places'[j] == Some(a.task) then None else places'[j];
            0 <= LevelOf(c, max, s, freed) <= LevelOf(c, max, s', places'[j])
  {
    if places'[j].Some? {
      assert places'[j] in places' && places'[j].value in Holders(c, Apply(c, max, s, a));
      if places'[j] != Some(a.task) {
        assert CopyInv(c, max, s, s.inFlight[places'[j].value]);
      }
    }
  }

  lemma {:induction false} LoadedHolder(c: Issue, max: nat, s: State, a: Action, places': seq<Option<nat>>)
    returns (places: seq<Option<nat>>)
    requires Inv(c, max, s) && Enabled(c, s, a) && a.Load? && Open(c, s)
    requires Arranged(c, Apply(c, max, s, a), places')
    ensures |places| == |places'| && Arranged(c, s, places)
    ensures Potential(c, max, Apply(c, max, s, a), places', |places'|) <= Potential(c, max, s, places, |places|)
  {
    var s' := Apply(c, max, s, a);
    assert Holders(c, s') == Holders(c, s) + {a.task};
    assert Some(a.task) in places';
    var i :| 0 <= i < |places'| && places'[i] == Some(a.task);
    places := places'[i := None];
    forall t
      ensures t in Holders(c, s) <==> Some(t) in places
    {
      if Some(t) in places' && t != a.task {
        var j :| 0 <= j < |places'| && places'[j] == Some(t);
        assert places[j] == Some(t);
      }
    }
    forall j | 0 <= j < |places|
      ensures 0 <= LevelOf(c, max, s, places[j]) <= LevelOf(c, max, s', places'[j])
    {
      assert j != i ==> places'[j] != places'[i];
      LoadedSeat(c, max, s, a, places', j);
    }
    PotentialFalls(c, max, s, places, s', places', |places|);
  }

  /** Any other action leaves the holders alone and compares nothing. */
  lemma {:induction false} OtherAction(c: Issue, max: nat, s: State, a: Action, places: seq<Option<nat>>)
    requires Inv(c, max, s) && Enabled(c, s, a) && Arranged(c, Apply(c, max, s, a), places)
    requires Ends(a) ==> a.task !in Holders(c, s)
    requires a.Load? ==> !Open(c, s)
    ensures var s' := Apply(c, max, s, a); Arranged(c, s, places) && s'.tried == s.tried && s'.lost == s.lost
    ensures Potential(c, max, Apply(c, max, s, a), places, |places|) <= Potential(c, max, s, places, |places|)
  {
    var s' := Apply(c, max, s, a);
    if Ends(a) {
      FinishWrites(c, max, s, a);
      assert CopyInv(c, max, s, s.inFlight[a.task]);
      assert Seconds(s.inFlight[a.task].loadedAt) <= Seconds(a.readAt) <= Seconds(s.now);
    } else if a.Elsewhere? {
      assert OnKey(a.cells, Key(c)) == OnKey(s.cells, Key(c));
    } else if a.Advance? {
      assert Seconds(s.now) <= Seconds(a.to);
    }
    assert Holders(c, s') == Holders(c, s);
    assert 0 <= Level(c, max, s) <= Level(c, max, s');
    forall i | 0 <= i < |places|
      ensures 0 <= LevelOf(c, max, s, places[i]) <= LevelOf(c, max, s', places[i])
    {
      if places[i].Some? {
        assert places[i] in places && places[i].value in Holders(c, s);
        assert CopyInv(c, max, s, s.inFlight[places[i].value]);
      }
    }
    PotentialFalls(c, max, s, places, s', places, |places|);
  }

  // ---------------------------------------------------------------- whole runs

  ghost predicate Narrow(c: Issue, states: seq<State>, width: nat) {
    forall i :: 0 <= i < |states| ==> |Holders(c, states[i])| <= width
  }

  lemma {:induction false} ComparedOrNot(c: Issue, max: nat, s: State, a: Action)
    requires Inv(c, max, s) && Enabled(c, s, a) && Ends(a) && !Writes(a)
    ensures var s' := Apply(c, max, s, a); |s'.tried| - s'.lost == |s.tried| - s.lost
  {
  }

  /** From every state on, what is still counted is within the potential of some arrangement. */
  lemma {:induction false} RestWithinPotential(
      c: Issue, max: nat, states: seq<State>, actions: seq<Action>, width: nat, n: nat)
    returns (places: seq<Option<nat>>)
    requires Path(c, max, states, actions) && Inv(c, max, states[0]) && Narrow(c, states, width) && n < |states|
    ensures |places| == width && Arranged(c, states[n], places)
    ensures var s, last := states[n], states[|actions|];
            |last.tried| - last.lost <= |s.tried| - s.lost + Potential(c, max, s, places, width)
    decreases |states| - n
  {
    assert |Holders(c, states[n])| <= width;
    if n == |actions| {
      places := Arrange(Holders(c, states[n]), width);
    } else {
      var s, a := states[n], actions[n];
      assert Leads(c, max, s, a, states[n + 1]);
      PathKeepsInv(c, max, states, actions, n);
      var places' := RestWithinPotential(c, max, states, actions, width, n + 1);
      if Writes(a) && a.task in Holders(c, s) {
        places := HolderWrites(c, max, s, a, places');
      } else if Ends(a) && a.task in Holders(c, s) {
        places := HolderLoses(c, max, s, a, places');
        ComparedOrNot(c, max, s, a);
      } else if a.Load? && Open(c, s) {
        places := LoadedHolder(c, max, s, a, places');
      } else {
        OtherAction(c, max, s, a, places');
        places := places';
      }
    }
  }

  /**
   While never more than `width` verifications hold a copy they may still compare, at most
   Choose(width + max, width) - 1 wrong codes are compared with the stored one, and one more
   for each failure whose write the server did not carry out, in any run.
   */
  lemma {:induction false} FailuresWithinBudget(
      c: Issue, max: nat, states: seq<State>, actions: seq<Action>, width: nat)
    requires Path(c, max, states, actions) && Begun(c, states[0]) && max >= 1 && Narrow(c, states, width)
    ensures |states[|actions|].tried| <= Choose(width + max, width) - 1 + states[|actions|].lost
  {
    assert IsStage(c, max, FirstRecord(c));
    var places := RestWithinPotential(c, max, states, actions, width, 0);
    OccupantsAreHolders(c, states[0], places);
    FreePlaces(c, max, states[0], places, width);
    BudgetIsChoose(width, 0, max);
  }

  // ---------------------------------------------------------------- the budget is attained

  ghost predicate AtMostUnderWay(states: seq<State>, width: nat) {
    forall i :: 0 <= i < |states| ==> |states[i].inFlight| <= width
  }

  lemma {:induction false} UnderWayIsNarrow(c: Issue, states: seq<State>, width: nat)
    requires AtMostUnderWay(states, width)
    ensures Narrow(c, states, width)
  {
    forall i | 0 <= i < |states|
      ensures |Holders(c, states[i])| <= width
    {
      var all, holders := states[i].inFlight.Keys, Holders(c, states[i]);
      assert |all| == |holders| + |all - holders| by {
        assert all == holders + (all - holders);
      }
    }
  }

  lemma {:induction false} ExtendWithin(
      c: Issue, max: nat, states: seq<State>, actions: seq<Action>, a: Action, width: nat)
    returns (states': seq<State>, actions': seq<Action>)
    requires Path(c, max, states, actions) && AtMostUnderWay(states, width) && Enabled(c, states[|actions|], a)
    requires |Apply(c, max, states[|actions|], a).inFlight| <= width
    ensures Path(c, max, states', actions') && AtMostUnderWay(states', width) && states'[0] == states[0]
    ensures states'[|actions'|] == Apply(c, max, states[|actions|], a)
  {
    states', actions' := ExtendPath(c, max, states, actions, a);
  }

  /** A wrong call that loads an open record holds a copy at its level. */
  lemma {:induction false} WrongLoads(c: Issue, max: nat, s: State, task: nat, wrong: string)
    requires Inv(c, max, s) && task !in s.inFlight && Level(c, max, s) < max
    ensures var s' := Apply(c, max, s, Load(task, c.email, wrong));
            && Inv(c, max, s') && Level(c, max, s') == Level(c, max, s)
            && s'.inFlight[task] == Copy(Some(Stage(c, Level(c, max, s))), c.email, wrong, s.now, s.steps)
  {
    InvKept(c, max, s, Load(task, c.email, wrong));
  }

  /** When it finishes, its failure is what is stored, whatever was counted meanwhile. */
  lemma {:induction false} WrongSaves(c: Issue, max: nat, s: State, task: nat, wrong: string, level: nat)
    requires Inv(c, max, s) && Seconds(s.now) < Expiry(c) && wrong != c.code && level < max
    requires task in s.inFlight
    requires s.inFlight[task].raw == Some(Stage(c, level)) && s.inFlight[task].code == wrong
    ensures Enabled(c, s, Finish(task, s.now))
    ensures var s' := Apply(c, max, s, Finish(task, s.now));
            && Inv(c, max, s') && Level(c, max, s') == level + 1
            && s'.tried == s.tried + [wrong] && s'.lost == s.lost
  {
    assert CopyInv(c, max, s, s.inFlight[task]);
    FinishWrites(c, max, s, Finish(task, s.now));
    InvKept(c, max, s, Finish(task, s.now));
  }

  ghost predicate AllWrong(c: Issue, codes: seq<string>) {
    forall i :: 0 <= i < |codes| ==> codes[i] != c.code
  }

  /** A run with at most `total` calls under way, at a point where the challenge has not expired. */
  ghost predicate Trying(c: Issue, max: nat, states: seq<State>, actions: seq<Action>, total: nat) {
    && Path(c, max, states, actions) && AtMostUnderWay(states, total)
    && Inv(c, max, states[|actions|]) && Seconds(states[|actions|].now) < Expiry(c)
  }

  lemma {:induction false} TryLoad(
      c: Issue, max: nat, states: seq<State>, actions: seq<Action>, total: nat, task: nat, wrong: string)
    returns (states': seq<State>, actions': seq<Action>)
    requires Trying(c, max, states, actions, total)
    requires var s := states[|actions|]; task !in s.inFlight && |s.inFlight| < total && Level(c, max, s) < max
    ensures Trying(c, max, states', actions', total) && states'[0] == states[0]
    ensures var s, s' := states[|actions|], states'[|actions'|];
            && Level(c, max, s') == Level(c, max, s)
            && s' == s.(inFlight := s'.inFlight, steps := s'.steps)
            && task in s'.inFlight && s'.inFlight - {task} == s.inFlight && |s'.inFlight| == |s.inFlight| + 1
            && s'.inFlight[task].raw == Some(Stage(c, Level(c, max, s))) && s'.inFlight[task].code == wrong
  {
    WrongLoads(c, max, states[|actions|], task, wrong);
    states', actions' := ExtendWithin(c, max, states, actions, Load(task, c.email, wrong), total);
  }

  lemma {:induction false} TrySave(
      c: Issue, max: nat, states: seq<State>, actions: seq<Action>, total: nat, task: nat, wrong: string, level: nat)
    returns (states': seq<State>, actions': seq<Action>)
    requires Trying(c, max, states, actions, total) && wrong != c.code && level < max
    requires var s := states[|actions|];
             task in s.inFlight && s.inFlight[task].raw == Some(Stage(c, level)) && s.inFlight[task].code == wrong
    ensures Trying(c, max, states', actions', total) && states'[0] == states[0]
    ensures var s, s' := states[|actions|], states'[|actions'|];
            && Level(c, max, s') == level + 1 && s'.now == s.now && s'.inFlight == s.inFlight - {task}
            && s'.tried == s.tried + [wrong] && s'.lost == s.lost
  {
    var s := states[|actions|];
    WrongSaves(c, max, s, task, wrong, level);
    assert |s.inFlight| <= total;
    assert |s.inFlight - {task}| <= total by {
      assert (s.inFlight - {task}).Keys == s.inFlight.Keys - {task};
      assert |s.inFlight.Keys - {task}| <= |s.inFlight.Keys|;
    }
    states', actions' := ExtendWithin(c, max, states, actions, Finish(task, s.now), total);
  }

  lemma {:induction false} InThisOrder(tried: seq<string>, codes: seq<string>, n: nat)
    requires n < |codes|
    ensures tried + codes[..n] + [codes[n]] + codes[n + 1..] == tried + codes
  {
    assert codes == codes[..n] + [codes[n]] + codes[n + 1..];
  }

  lemma {:induction false} WrongParts(c: Issue, codes: seq<string>, n: nat)
    requires AllWrong(c, codes) && n < |codes|
    ensures AllWrong(c, codes[..n]) && codes[n] != c.code && AllWrong(c, codes[n + 1..])
  {
  }

  /** Tries these codes, as many as the stored record has a budget for with `width` more verifications at a time. */
  lemma {:induction false} Exhaust(
      c: Issue, max: nat, states: seq<State>, actions: seq<Action>, width: nat, total: nat, codes: seq<string>)
    returns (states': seq<State>, actions': seq<Action>)
    requires Trying(c, max, states, actions, total) && AllWrong(c, codes)
    requires var s := states[|actions|];
             && |s.inFlight| + width <= total
             && 0 <= Level(c, max, s) <= max && |codes| == Budget(width, Level(c, max, s), max)
    ensures Trying(c, max, states', actions', total) && states'[0] == states[0]
    ensures var s, s' := states[|actions|], states'[|actions'|];
            s'.now == s.now && s'.inFlight == s.inFlight && s'.tried == s.tried + codes && s'.lost == s.lost
    decreases width + (max - Level(c, max, states[|actions|]))
  {
    var s := states[|actions|];
    var level := Level(c, max, s);
    states', actions' := states, actions;
    if width > 0 && level < max {
      var task := FreshTask(s.inFlight.Keys);
      var first := Budget(width - 1, level, max);
      WrongParts(c, codes, first);
      states', actions' := TryLoad(c, max, states, actions, total, task, codes[first]);
      states', actions' := Exhaust(c, max, states', actions', width - 1, total, codes[..first]);
      states', actions' := TrySave(c, max, states', actions', total, task, codes[first], level);
      states', actions' := Exhaust(c, max, states', actions', width, total, codes[first + 1..]);
      InThisOrder(s.tried, codes, first);
    }
  }

  /** A wrong call whose write the server does not carry out leaves everything as it was. */
  lemma {:induction false} LoseOne(
      c: Issue, max: nat, states: seq<State>, actions: seq<Action>, total: nat, wrong: string)
    returns (states': seq<State>, actions': seq<Action>)
    requires Path(c, max, states, actions) && AtMostUnderWay(states, total) && wrong != c.code
    requires var s := states[|actions|];
             Inv(c, max, s) && Level(c, max, s) < max && Seconds(s.now) < Expiry(c) && |s.inFlight| < total
    ensures Path(c, max, states', actions') && AtMostUnderWay(states', total) && states'[0] == states[0]
    ensures var s, s' := states[|actions|], states'[|actions'|];
            && Inv(c, max, s') && s'.tried == s.tried + [wrong] && s'.lost == s.lost + 1
            && s' == s.(steps := s'.steps, tried := s'.tried, lost := s'.lost)
  {
    var s := states[|actions|];
    var task := FreshTask(s.inFlight.Keys);
    WrongLoads(c, max, s, task, wrong);
    states', actions' := ExtendWithin(c, max, states, actions, Load(task, c.email, wrong), total);
    var loaded := states'[|actions'|];
    FinishWrites(c, max, loaded, Lose(task, s.now, false));
    InvKept(c, max, loaded, Lose(task, s.now, false));
    states', actions' := ExtendWithin(c, max, states', actions', Lose(task, s.now, false), total);
    assert states'[|actions'|].inFlight == s.inFlight;
  }

  /**
   While the server answers reads but carries out no write there is no bound: one call after
   another tries every wrong code there is, and what the server holds stays as it was.
   */
  lemma {:induction false} LostWritesAreFree(
      c: Issue, max: nat, states: seq<State>, actions: seq<Action>, total: nat, codes: seq<string>)
    returns (states': seq<State>, actions': seq<Action>)
    requires Path(c, max, states, actions) && AtMostUnderWay(states, total) && AllWrong(c, codes)
    requires var s := states[|actions|];
             Inv(c, max, s) && Level(c, max, s) < max && Seconds(s.now) < Expiry(c) && |s.inFlight| < total
    ensures Path(c, max, states', actions') && AtMostUnderWay(states', total) && states'[0] == states[0]
    ensures var s, s' := states[|actions|], states'[|actions'|];
            && Inv(c, max, s') && s'.tried == s.tried + codes && s'.lost == s.lost + |codes|
            && s' == s.(steps := s'.steps, tried := s'.tried, lost := s'.lost)
    decreases |codes|
  {
    states', actions' := states, actions;
    if codes != [] {
      states', actions' := LoseOne(c, max, states, actions, total, codes[0]);
      states', actions' := LostWritesAreFree(c, max, states', actions', total, codes[1..]);
      assert codes == [codes[0]] + codes[1..];
    }
  }

  /**
   For every width, maximum and number of lost writes, any list of that many wrong codes can
   be tried, in its order, with at most `width` verifications under way.
   */
  lemma {:induction false} BudgetAttained(
      c: Issue, max: nat, s: State, width: nat, lost: nat, codes: seq<string>)
    returns (states: seq<State>, actions: seq<Action>)
    requires Begun(c, s) && max >= 1 && Seconds(s.now) < Expiry(c) && width >= 1
    requires AllWrong(c, codes) && |codes| == Choose(width + max, width) - 1 + lost
    ensures Path(c, max, states, actions) && states[0] == s
    ensures AtMostUnderWay(states, width) && Narrow(c, states, width)
    ensures states[|actions|].tried == codes && states[|actions|].lost == lost
  {
    assert IsStage(c, max, FirstRecord(c));
    BudgetIsChoose(width, 0, max);
    states, actions := LostWritesAreFree(c, max, [s], [], width, codes[..lost]);
    states, actions := Exhaust(c, max, states, actions, width, width, codes[lost..]);
    assert codes == codes[..lost] + codes[lost..];
    UnderWayIsNarrow(c, states, width);
  }
}
