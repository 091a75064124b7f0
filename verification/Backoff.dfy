/**
 The reconnect schedule: capped exponential backoff computed with 64-bit durations, full jitter below it, and
 the loop that resets it only after a stable stream.
 */
module Backoff {

  const BASE_DELAY := 1_000_000_000         // one second, in nanoseconds
  const MAX_DELAY := 30_000_000_000
  const STABLE_CONNECTION := 60_000_000_000
  const MAX_SHIFT := 62

  const TWO_63 := 0x8000_0000_0000_0000
  const TWO_64 := 0x1_0000_0000_0000_0000
  const TWO_43 := 0x800_0000_0000

  // The value of a 64-bit signed result.
  function Wrap64(x: int): (w: int)
    ensures -TWO_63 <= w < TWO_63
    ensures -TWO_63 <= x < TWO_63 ==> w == x
  {
    (x + TWO_63) % TWO_64 - TWO_63
  }

  function Pow2(n: nat): (p: nat)
    ensures p >= 1
  {
    if n == 0 then 1 else 2 * Pow2(n - 1)
  }

  function NextBackoff(attempt: int): int {
    var n := if attempt < 1 then 1 else attempt;
    var shift := if n - 1 > MAX_SHIFT then MAX_SHIFT else n - 1;
    var delay := Wrap64(BASE_DELAY * Wrap64(Pow2(shift)));
    if delay <= 0 || delay > MAX_DELAY then MAX_DELAY else delay
  }

  /** The schedule over unbounded integers. */
  function Schedule(n: nat): int
    requires n >= 1
  {
    var d := BASE_DELAY * Pow2(n - 1);
    if d <= MAX_DELAY then d else MAX_DELAY
  }

  lemma {:induction false} Pow2Sum(a: nat, b: nat)
    ensures Pow2(a + b) == Pow2(a) * Pow2(b)
  {
    if a > 0 { Pow2Sum(a - 1, b); }
  }

  lemma {:induction false} Pow2Monotone(a: nat, b: nat)
    requires a <= b
    ensures Pow2(a) <= Pow2(b)
  {
    if a < b { Pow2Monotone(a, b - 1); }
  }

  lemma SmallPowers()
    ensures Pow2(0) == 1 && Pow2(1) == 2 && Pow2(4) == 16 && Pow2(5) == 32 && Pow2(6) == 64 && Pow2(8) == 256
  {
  }

  lemma Pow2Values()
    ensures Pow2(0) == 1 && Pow2(1) == 2 && Pow2(4) == 16 && Pow2(5) == 32
    ensures Pow2(33) == 0x2_0000_0000 && Pow2(34) == 0x4_0000_0000
    ensures Pow2(62) == 0x4000_0000_0000_0000
  {
    hide Pow2;
    SmallPowers();
    Pow2Sum(8, 8);
    Pow2Sum(16, 16);
    Pow2Sum(32, 1);
    Pow2Sum(33, 1);
    Pow2Sum(32, 16);
    Pow2Sum(48, 8);
    Pow2Sum(56, 6);
  }

  // From a shift of 34 on the product is a multiple of 2^43, and so is what is left of it after wrapping.
  lemma WrappedMultiple(m: int)
    ensures var w := Wrap64(TWO_43 * m); w <= 0 || w >= TWO_43
  {
    var q, r := (m + 0x10_0000) / 0x20_0000, (m + 0x10_0000) % 0x20_0000;
    assert TWO_43 * m + TWO_63 == TWO_64 * q + TWO_43 * r;
    assert Wrap64(TWO_43 * m) == TWO_43 * (r - 0x10_0000);
  }

  lemma LargeShiftIsCapped(shift: nat)
    requires 34 <= shift <= MAX_SHIFT
    ensures var delay := Wrap64(BASE_DELAY * Pow2(shift)); delay <= 0 || delay > MAX_DELAY
  {
    hide Pow2, Wrap64;
    Pow2Values();
    Pow2Sum(34, shift - 34);
    var m := 1953125 * Pow2(shift - 34);
    assert BASE_DELAY * Pow2(shift) == TWO_43 * m;
    WrappedMultiple(m);
  }

  /** The wrapped computation is the schedule, for every attempt number. */
  lemma NextBackoffIsSchedule(attempt: int)
    ensures NextBackoff(attempt) == Schedule(if attempt < 1 then 1 else attempt)
  {
    hide Pow2, Wrap64;
    Pow2Values();
    var n := if attempt < 1 then 1 else attempt;
    var shift := if n - 1 > MAX_SHIFT then MAX_SHIFT else n - 1;
    Pow2Monotone(shift, MAX_SHIFT);
    assert Wrap64(Pow2(shift)) == Pow2(shift);
    Pow2Monotone(shift, n - 1);
    if shift >= 34 {
      LargeShiftIsCapped(shift);
      Pow2Monotone(34, shift);
    } else {
      Pow2Monotone(shift, 33);
    }
  }

  /** So the delay never falls with the attempt number and lies between one second and thirty, which it
      reaches at the sixth attempt. */
  lemma ScheduleShape(a: int, b: int)
    requires a <= b
    ensures NextBackoff(a) <= NextBackoff(b)
    ensures 1_000_000_000 <= NextBackoff(a) <= 30_000_000_000
    ensures (NextBackoff(a) == 1_000_000_000 <==> a <= 1) && (NextBackoff(a) == 30_000_000_000 <==> a >= 6)
  {
    hide NextBackoff, Pow2;
    NextBackoffIsSchedule(a);
    NextBackoffIsSchedule(b);
    var m, n := if a < 1 then 1 else a, if b < 1 then 1 else b;
    Pow2Monotone(m - 1, n - 1);
    Pow2Values();
    if m >= 2 { Pow2Monotone(1, m - 1); }
    if m >= 6 { Pow2Monotone(5, m - 1); } else { Pow2Monotone(m - 1, 4); }
  }

  // ---------------------------------------------------------------------------------------------
  // Jitter and the loop.
  // ---------------------------------------------------------------------------------------------

  // `draw(n)` is a random number in [0, n).
  function FullJitter(limit: int, draw: int -> int): (wait: int)
    requires forall n | n > 0 :: 0 <= draw(n) < n
    ensures limit >= 0 ==> 0 <= wait <= limit
  {
    if limit <= 0 then 0 else draw(limit + 1)
  }

  /** Every wait up to the limit is drawn for some state of the random source. */
  lemma FullJitterReaches(limit: int, w: int)
    requires 0 <= w <= limit
    ensures exists draw: int -> int :: (forall n | n > 0 :: 0 <= draw(n) < n) && FullJitter(limit, draw) == w
  {
    var draw := (n: int) => if n == limit + 1 then w else 0;
    assert FullJitter(limit, draw) == w;
  }

  class ReconnectBackoff {
    var attempt: int

    constructor ()
      ensures attempt == 0
    {
      attempt := 0;
    }

    method Next(draw: int -> int) returns (wait: int)
      requires forall n | n > 0 :: 0 <= draw(n) < n
      modifies this
      ensures attempt == old(attempt) + 1
      ensures var limit := Schedule(if attempt < 1 then 1 else attempt); 0 <= wait <= limit && wait == draw(limit + 1)
    {
      attempt := attempt + 1;
      NextBackoffIsSchedule(attempt);
      ScheduleShape(attempt, attempt);
      wait := FullJitter(NextBackoff(attempt), draw);
    }

    method ConnectionEnded(upFor: int)
      modifies this
      ensures attempt == if upFor >= 60_000_000_000 then 0 else old(attempt)
    {
      if upFor >= STABLE_CONNECTION {
        attempt := 0;
      }
    }
  }

  // One turn of the loop: whether the stream ended cleanly, how long it was up, the random source, and the
  // connection the following dial opened, if it worked.
  datatype Dial = NoConn | NewConn(id: nat)
  datatype Turn = Turn(clean: bool, upFor: int, draw: int -> int, dial: Dial)

  ghost predicate Draws(t: Turn) {
    forall n | n > 0 :: 0 <= t.draw(n) < n
  }

  // Disconnects since the last stream that stayed up long enough, the one that ends turn i included.
  function Streak(turns: seq<Turn>, i: nat): (j: nat)
    requires i < |turns|
    ensures j >= 1
  {
    if i == 0 || turns[i].upFor >= STABLE_CONNECTION then 1 else Streak(turns, i - 1) + 1
  }

  /** The streak counts the turns from the last stable stream, or from the first turn. */
  lemma {:induction false} StreakCounts(turns: seq<Turn>, i: nat) returns (from: nat)
    requires i < |turns|
    ensures from <= i && Streak(turns, i) == i - from + 1
    ensures from == 0 || turns[from].upFor >= 60_000_000_000
    ensures forall k | from < k <= i :: turns[k].upFor < 60_000_000_000
  {
    if i == 0 || turns[i].upFor >= STABLE_CONNECTION {
      from := i;
    } else {
      from := StreakCounts(turns, i - 1);
    }
  }

  function Opened(turns: seq<Turn>): set<nat> {
    set i | 0 <= i < |turns| && turns[i].dial.NewConn? :: turns[i].dial.id
  }

  predicate DistinctDials(turns: seq<Turn>, conn: nat) {
    && (forall i | 0 <= i < |turns| && turns[i].dial.NewConn? :: turns[i].dial.id != conn)
    && (forall i, j | 0 <= i < j < |turns| && turns[i].dial.NewConn? && turns[j].dial.NewConn? ::
          turns[i].dial.id != turns[j].dial.id)
  }

  // The wait after turn i: drawn evenly below the schedule of its streak.
  ghost predicate Waited(turns: seq<Turn>, i: nat, wait: int)
    requires i < |turns|
  {
    var limit := Schedule(Streak(turns, i));
    !turns[i].clean && 0 <= wait <= limit && wait == turns[i].draw(limit + 1)
  }

  /** The loop over any number of turns: it stops at the first clean end, waits at most the schedule of the
      streak before each reconnect, and of all connections it ever had only the current one is open. */
  method ReconnectLoop(turns: seq<Turn>, first: nat)
    returns (waits: seq<int>, current: nat, closed: set<nat>)
    requires forall t | t in turns :: Draws(t)
    requires DistinctDials(turns, first)
    ensures |waits| <= |turns| && (|waits| < |turns| ==> turns[|waits|].clean)
    ensures forall i | 0 <= i < |waits| :: Waited(turns, i, waits[i])
    ensures current !in closed && {current} + closed == {first} + Opened(turns[..|waits|])
  {
    hide NextBackoff, Schedule, FullJitter, Opened, DistinctDials;
    var bo := new ReconnectBackoff();
    waits, current, closed := [], first, {};
    NothingOpened(turns);
    for i := 0 to |turns|
      invariant |waits| == i
      invariant bo.attempt == if i == 0 then 0 else Streak(turns, i - 1)
      invariant forall k | 0 <= k < i :: Waited(turns, k, waits[k])
      invariant current !in closed && {current} + closed == {first} + Opened(turns[..i])
    {
      if turns[i].clean {
        return;
      }
      assert turns[i] in turns && Draws(turns[i]);
      bo.ConnectionEnded(turns[i].upFor);
      var wait := bo.Next(turns[i].draw);
      assert bo.attempt == Streak(turns, i);
      assert Waited(turns, i, wait);
      waits := waits + [wait];
      OpenedStep(turns, i);
      if turns[i].dial.NewConn? {
        NewDialIsNew(turns, i, first);
        closed := closed + {current};
        current := turns[i].dial.id;
      }
    }
  }

  lemma NothingOpened(turns: seq<Turn>)
    ensures Opened(turns[..0]) == {}
  {
  }

  lemma OpenedStep(turns: seq<Turn>, i: nat)
    requires i < |turns|
    ensures Opened(turns[..i + 1]) ==
            Opened(turns[..i]) + if turns[i].dial.NewConn? then {turns[i].dial.id} else {}
  {
    forall c | c in Opened(turns[..i + 1])
      ensures c in Opened(turns[..i]) || (turns[i].dial.NewConn? && c == turns[i].dial.id)
    {
      var k :| 0 <= k < i + 1 && turns[..i + 1][k].dial.NewConn? && turns[..i + 1][k].dial.id == c;
      if k < i { assert turns[..i][k] == turns[k]; }
    }
    forall c | c in Opened(turns[..i])
      ensures c in Opened(turns[..i + 1])
    {
      var k :| 0 <= k < i && turns[..i][k].dial.NewConn? && turns[..i][k].dial.id == c;
      assert turns[..i + 1][k] == turns[k];
    }
    assert turns[..i + 1][i] == turns[i];
  }

  lemma NewDialIsNew(turns: seq<Turn>, i: nat, first: nat)
    requires i < |turns| && turns[i].dial.NewConn? && DistinctDials(turns, first)
    ensures turns[i].dial.id !in {first} + Opened(turns[..i])
  {
  }
}
