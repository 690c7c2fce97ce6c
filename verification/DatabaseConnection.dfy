/**
 Lazy creation of the connection pool, checked before and again under a lock. Each step is
 what one `connect` call does between two points where it can be suspended: the first check,
 taking the lock with the second check, and the end of the creation it awaits under the lock.
 */
module DatabaseConnection {
  import opened Wrappers

  type PoolId = nat

  datatype Phase = Waiting | Creating | Returned(pool: PoolId) | Raised

  /** `created` lists every pool whose creation ever succeeded. */
  datatype State = State(pool: Option<PoolId>, holder: Option<nat>, tasks: map<nat, Phase>, created: seq<PoolId>)

  datatype Step =
    | Begin(task: nat)
    | TakeLock(task: nat)
    | CreationSucceeds(task: nat)
    | CreationFails(task: nat)

  const INITIAL: State := State(None, None, map[], [])

  predicate Enabled(s: State, step: Step) {
    match step
    case Begin(t) => t !in s.tasks
    case TakeLock(t) => t in s.tasks && s.tasks[t].Waiting? && s.holder.None?
    case CreationSucceeds(t) => t in s.tasks && s.tasks[t].Creating?
    case CreationFails(t) => t in s.tasks && s.tasks[t].Creating?
  }

  function Entered(s: State, otherwise: Phase): Phase {
    if s.pool.Some? then Returned(s.pool.value) else otherwise
  }

  /** `configured`: a database URL is set. A task that finds the pool under the lock leaves at once. */
  function Apply(configured: bool, s: State, step: Step): State
    requires Enabled(s, step)
  {
    match step
    case Begin(t) => s.(tasks := s.tasks[t := Entered(s, if configured then Waiting else Raised)])
    case TakeLock(t) =>
      s.(holder := if s.pool.Some? then None else Some(t), tasks := s.tasks[t := Entered(s, Creating)])
    case CreationSucceeds(t) =>
      var pool := |s.created|;
      State(Some(pool), None, s.tasks[t := Returned(pool)], s.created + [pool])
    case CreationFails(t) =>
      s.(holder := None, tasks := s.tasks[t := Raised])
  }

  /** The object whose `connect` calls are interleaved; its lock is free when `lockHolder` is `None`. */
  class Database {
    var pool: Option<PoolId>
    var lockHolder: Option<nat>
    ghost var tasks: map<nat, Phase>
    ghost var created: seq<PoolId>
    const configured: bool

    ghost function Contents(): State
      reads this
    {
      State(pool, lockHolder, tasks, created)
    }

    constructor (configured: bool)
      ensures Contents() == INITIAL && this.configured == configured
    {
      pool, lockHolder, tasks, created := None, None, map[], [];
      this.configured := configured;
    }

    method BeginConnect(task: nat) returns (waits: bool)
      requires Enabled(Contents(), Begin(task))
      modifies this
      ensures Contents() == Apply(configured, old(Contents()), Begin(task))
      ensures waits <==> tasks[task] == Waiting
    {
      if pool.Some? {
        tasks := tasks[task := Returned(pool.value)];
        return false;
      }
      if !configured {
        tasks := tasks[task := Raised];
        return false;
      }
      tasks := tasks[task := Waiting];
      return true;
    }

    method TakeConnectLock(task: nat) returns (creates: bool)
      requires Enabled(Contents(), TakeLock(task))
      modifies this
      ensures Contents() == Apply(configured, old(Contents()), TakeLock(task))
      ensures creates <==> tasks[task] == Creating
    {
      lockHolder := Some(task);
      if pool.Some? {
        lockHolder := None;
        tasks := tasks[task := Returned(pool.value)];
        return false;
      }
      tasks := tasks[task := Creating];
      return true;
    }

    /** The awaited creation ends: `newPool` is the pool, or `None` when it raised. */
    method FinishCreation(task: nat, newPool: Option<PoolId>)
      requires Enabled(Contents(), CreationSucceeds(task)) && (newPool.Some? ==> newPool.value == |created|)
      modifies this
      ensures Contents() == Apply(configured, old(Contents()),
                                  if newPool.Some? then CreationSucceeds(task) else CreationFails(task))
    {
      if newPool.Some? {
        pool := newPool;
        created := created + [newPool.value];
        tasks := tasks[task := Returned(newPool.value)];
      } else {
        tasks := tasks[task := Raised];
      }
      lockHolder := None;
    }
  }

  // ---------------------------------------------------------------- every interleaving

  ghost predicate Inv(s: State) {
    && (forall t :: t in s.tasks && s.tasks[t].Creating? ==> s.holder == Some(t))
    && (s.holder.Some? ==> s.holder.value in s.tasks && s.tasks[s.holder.value].Creating? && s.pool.None?)
    && (forall t :: t in s.tasks && s.tasks[t].Returned? ==> s.pool == Some(s.tasks[t].pool))
    && s.created == (if s.pool.Some? then [s.pool.value] else [])
  }

  lemma {:induction false} InvKept(configured: bool, s: State, step: Step)
    requires Inv(s) && Enabled(s, step)
    ensures Inv(Apply(configured, s, step))
  {
  }

  ghost predicate Behaviour(configured: bool, states: seq<State>, steps: seq<Step>) {
    && |states| == |steps| + 1 && states[0] == INITIAL
    && forall i :: 0 <= i < |steps| ==>
         Enabled(states[i], steps[i]) && states[i + 1] == Apply(configured, states[i], steps[i])
  }

  lemma {:induction false} Reachable(configured: bool, states: seq<State>, steps: seq<Step>, n: nat)
    requires Behaviour(configured, states, steps) && n < |states|
    ensures Inv(states[n])
  {
    if n > 0 {
      Reachable(configured, states, steps, n - 1);
      var i := n - 1;
      assert Enabled(states[i], steps[i]) && states[i + 1] == Apply(configured, states[i], steps[i]);
      InvKept(configured, states[i], steps[i]);
    }
  }

  lemma {:induction false} PoolStays(configured: bool, states: seq<State>, steps: seq<Step>, m: nat, n: nat)
    requires Behaviour(configured, states, steps) && m <= n < |states| && states[m].pool.Some?
    ensures states[n].pool == states[m].pool
    decreases n
  {
    if m < n {
      PoolStays(configured, states, steps, m, n - 1);
      var i := n - 1;
      Reachable(configured, states, steps, i);
      assert Enabled(states[i], steps[i]) && states[i + 1] == Apply(configured, states[i], steps[i]);
    }
  }

  /**
   While nobody closes the database, any interleaving of connects creates at most one pool,
   and every connect that returned, whenever it did, returned with the pool that is visible now.
   */
  lemma {:induction false} OnePool(configured: bool, states: seq<State>, steps: seq<Step>, m: nat, n: nat, task: nat)
    requires Behaviour(configured, states, steps) && m <= n < |states|
    ensures |states[n].created| <= 1
    ensures task in states[m].tasks && states[m].tasks[task].Returned? ==>
              states[n].pool == Some(states[m].tasks[task].pool) && states[n].created == [states[m].tasks[task].pool]
  {
    Reachable(configured, states, steps, m);
    Reachable(configured, states, steps, n);
    if states[m].pool.Some? {
      PoolStays(configured, states, steps, m, n);
    }
  }

  /** A connect that finds the pool, at either check, returns it, changes nothing else and leaves the lock free. */
  lemma {:induction false} FoundPoolIsReturned(
      configured: bool, states: seq<State>, steps: seq<Step>, i: nat, task: nat, pool: PoolId)
    requires Behaviour(configured, states, steps) && i < |steps|
    requires states[i].pool == Some(pool) && (steps[i] == Begin(task) || steps[i] == TakeLock(task))
    ensures states[i + 1] == State(Some(pool), None, states[i].tasks[task := Returned(pool)], states[i].created)
  {
    Reachable(configured, states, steps, i);
  }

  /** One that finds no pool waits for the lock, or raises when no URL is set; with the lock it creates the pool. */
  lemma {:induction false} MissingPoolIsCreated(
      configured: bool, states: seq<State>, steps: seq<Step>, i: nat, task: nat)
    requires Behaviour(configured, states, steps) && i < |steps| && states[i].pool.None?
    ensures steps[i] == Begin(task) ==>
              states[i + 1] == states[i].(tasks := states[i].tasks[task := if configured then Waiting else Raised])
    ensures steps[i] == TakeLock(task) ==>
              states[i + 1] == states[i].(holder := Some(task), tasks := states[i].tasks[task := Creating])
  {
    Reachable(configured, states, steps, i);
  }

  /** How the step at position `i` can end a connect with an error. */
  predicate RaisesAt(configured: bool, states: seq<State>, steps: seq<Step>, i: nat, task: nat)
    requires i < |steps| && |states| == |steps| + 1
  {
    || (steps[i] == Begin(task) && states[i].pool.None? && !configured)
    || steps[i] == CreationFails(task)
  }

  /** How it can end one with a pool. */
  predicate ReturnsAt(states: seq<State>, steps: seq<Step>, i: nat, task: nat, pool: PoolId)
    requires i < |steps| && |states| == |steps| + 1
  {
    || ((steps[i] == Begin(task) || steps[i] == TakeLock(task)) && states[i].pool == Some(pool))
    || (steps[i] == CreationSucceeds(task) && states[i + 1].pool == Some(pool))
  }

  /**
   A connect has raised if and only if it began with no pool and no URL, or its own creation
   failed; it has returned a pool if and only if it found that pool, or its own creation made it.
   */
  lemma {:induction false} ConnectEndsExactly(
      configured: bool, states: seq<State>, steps: seq<Step>, n: nat, task: nat, pool: PoolId)
    requires Behaviour(configured, states, steps) && n < |states|
    ensures task in states[n].tasks && states[n].tasks[task] == Raised
            <==> exists i: nat :: i < n && RaisesAt(configured, states, steps, i, task)
    ensures task in states[n].tasks && states[n].tasks[task] == Returned(pool)
            <==> exists i: nat :: i < n && ReturnsAt(states, steps, i, task, pool)
  {
    if n > 0 {
      var i := n - 1;
      ConnectEndsExactly(configured, states, steps, i, task, pool);
      assert Enabled(states[i], steps[i]) && states[i + 1] == Apply(configured, states[i], steps[i]);
      if RaisesAt(configured, states, steps, i, task) || ReturnsAt(states, steps, i, task, pool) {
        assert i < n;
      }
    }
  }

  /**
   No connect waits for ever behind others: a waiting one can take the lock, now or once the
   creation that holds it has ended, which can always happen.
   */
  lemma {:induction false} WaitingConnectProceeds(
      configured: bool, states: seq<State>, steps: seq<Step>, n: nat, task: nat)
    requires Behaviour(configured, states, steps) && n < |states|
    requires task in states[n].tasks && states[n].tasks[task].Waiting?
    ensures var s := states[n];
            match s.holder
            case None => Enabled(s, TakeLock(task))
            case Some(other) =>
              && other != task && Enabled(s, CreationSucceeds(other)) && Enabled(s, CreationFails(other))
              && Enabled(Apply(configured, s, CreationSucceeds(other)), TakeLock(task))
              && Enabled(Apply(configured, s, CreationFails(other)), TakeLock(task))
  {
    Reachable(configured, states, steps, n);
  }

  /**
   A failed creation is not final: right after it, and from every reachable state in which
   nobody holds the lock and there is no pool, a new connect can create one and return it.
   */
  lemma {:induction false} ConnectCanBeRetried(states: seq<State>, steps: seq<Step>, n: nat, task: nat)
    requires Behaviour(true, states, steps) && n < |states|
    requires states[n].pool.None? && task !in states[n].tasks
    requires states[n].holder.None? || (n > 0 && steps[n - 1].CreationFails?)
    ensures Enabled(states[n], Begin(task))
    ensures var s1 := Apply(true, states[n], Begin(task));
            && Enabled(s1, TakeLock(task))
            && var s2 := Apply(true, s1, TakeLock(task));
            && Enabled(s2, CreationSucceeds(task))
            && var s3 := Apply(true, s2, CreationSucceeds(task));
            s3.tasks[task] == Returned(0) && s3.pool == Some(0)
  {
    Reachable(true, states, steps, n);
    if n > 0 {
      var i := n - 1;
      assert Enabled(states[i], steps[i]) && states[i + 1] == Apply(true, states[i], steps[i]);
    }
  }
}
