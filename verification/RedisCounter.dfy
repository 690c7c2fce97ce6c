/**
 The shared counter: the script `INCR`, `EXPIRE` on the first count, and `TTL`. A key whose
 deadline has passed is gone for every command, whenever the server reclaims it. The server
 answers `TTL` in whole seconds; how it rounds is a parameter, within half a second.
 */
module RedisCounter {
  import opened Wrappers
  import opened RateLimitSpec

  datatype Cell = Cell(value: int, deadline: Option<real>)

  predicate Present(cells: map<string, Cell>, key: string, now: real) {
    key in cells && (cells[key].deadline.None? || cells[key].deadline.value > now)
  }

  function Incr(cells: map<string, Cell>, key: string, now: real): map<string, Cell> {
    if Present(cells, key, now)
    then cells[key := cells[key].(value := cells[key].value + 1)]
    else cells[key := Cell(1, None)]
  }

  /** The whole script: the counters afterwards. The count it returns is the key's value in them. */
  function Script(cells: map<string, Cell>, a: Attempt): (cells': map<string, Cell>)
    ensures a.key in cells'
    ensures forall k :: k != a.key ==> (k in cells' <==> k in cells)
    ensures forall k :: k != a.key && k in cells ==> cells'[k] == cells[k]
  {
    var after := Incr(cells, a.key, a.now);
    if after[a.key].value == 1
    then after[a.key := after[a.key].(deadline := Some(a.now + a.window as real))]
    else after
  }

  type Rounding = real -> int

  ghost predicate IsRounding(round: Rounding) {
    forall x: real :: x - 0.5 <= round(x) as real <= x + 0.5
  }

  /** The whole seconds a key still has; -1 for a key without a deadline. */
  function Ttl(cell: Cell, now: real, round: Rounding): int {
    if cell.deadline.Some? then round(cell.deadline.value - now) else -1
  }

  /** The hint the service gives for it. */
  function ServerHint(cell: Cell, now: real, round: Rounding): int {
    Max(Ttl(cell, now, round), 1)
  }

  class Server {
    var cells: map<string, Cell>
    const round: Rounding

    constructor (round: Rounding)
      ensures cells == map[] && this.round == round
    {
      cells := map[];
      this.round := round;
    }

    method CommandIncr(key: string, now: real) returns (current: int)
      modifies this
      ensures cells == Incr(old(cells), key, now) && current == cells[key].value
    {
      if Present(cells, key, now) {
        cells := cells[key := cells[key].(value := cells[key].value + 1)];
      } else {
        cells := cells[key := Cell(1, None)];
      }
      current := cells[key].value;
    }

    method CommandExpire(key: string, seconds: int, now: real)
      requires key in cells
      modifies this
      ensures cells == old(cells)[key := old(cells)[key].(deadline := Some(now + seconds as real))]
    {
      cells := cells[key := cells[key].(deadline := Some(now + seconds as real))];
    }

    method CommandTtl(key: string, now: real) returns (ttl: int)
      requires key in cells
      ensures ttl == Ttl(cells[key], now, round)
    {
      ttl := if cells[key].deadline.Some? then round(cells[key].deadline.value - now) else -1;
    }

    method EvalCounter(key: string, window: int, now: real) returns (current: int, ttl: int)
      modifies this
      ensures cells == Script(old(cells), Attempt(key, window, now))
      ensures current == cells[key].value && ttl == Ttl(cells[key], now, round)
    {
      current := CommandIncr(key, now);
      if current == 1 {
        CommandExpire(key, window, now);
      }
      ttl := CommandTtl(key, now);
    }

    /** The service's increment on the server. */
    method Increment(key: string, window: int, now: real) returns (count: int, retryAfter: int)
      modifies this
      ensures cells == Script(old(cells), Attempt(key, window, now))
      ensures count == cells[key].value && retryAfter == ServerHint(cells[key], now, round) && retryAfter >= 1
    {
      var ttl;
      count, ttl := EvalCounter(key, window, now);
      retryAfter := Max(ttl, 1);
    }
  }

  /** A run of the script from an empty server, and the counts it returned. */
  ghost predicate RedisRun(states: seq<map<string, Cell>>, attempts: seq<Attempt>, counts: seq<int>) {
    && |states| == |attempts| + 1 == |counts| + 1
    && states[0] == map[]
    && NonDecreasing(attempts)
    && forall i :: 0 <= i < |attempts| ==>
         && states[i + 1] == Script(states[i], attempts[i])
         && counts[i] == states[i + 1][attempts[i].key].value
  }
}
