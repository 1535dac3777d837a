/**
 * The memory monitor's policy: the high and low watermarks and the eviction
 * cycle that removes the least recently used entries in growing batches.
 * Host memory readings are inputs; this module says what a cycle does with them.
 */
module EvictionPolicy {

  /** Memory figures are `u64` in the source. */
  const U64Modulus: nat := 0x1_0000_0000_0000_0000

  /** Every eviction cycle starts with this batch size. */
  const InitialBatch: nat := 5

  /** The batch size doubles after each round but never exceeds this. */
  const MaxBatch: nat := 1000

  function Min(a: nat, b: nat): nat {
    if a <= b then a else b
  }

  /**
   * The high watermark `total_memory * 70 / 100` computed on u64 values; the
   * multiplication wraps as it does in a release build. It never exceeds the
   * total, and when nothing wraps it is exactly 70% of the total rounded down.
   */
  function Threshold(total: nat): (t: nat)
    requires total < U64Modulus
    ensures t <= total
    ensures total * 70 < U64Modulus ==> t * 100 <= total * 70 < t * 100 + 100
  {
    var product := (total * 70) % U64Modulus;
    assert total * 70 >= U64Modulus ==> product < U64Modulus <= total * 70;
    product / 100
  }

  /** The low watermark: an eviction cycle stops once used memory is at most half the high watermark. */
  function Target(threshold: nat): nat {
    threshold / 2
  }

  /** The batch size of round `round` of a cycle: 5, then doubled each round, capped at 1000. */
  function BatchAt(round: nat): (b: nat)
    ensures InitialBatch <= b <= MaxBatch
  {
    if round == 0 then InitialBatch else Min(2 * BatchAt(round - 1), MaxBatch)
  }

  function Pow2(n: nat): (p: nat)
    ensures p >= 1
  {
    if n == 0 then 1 else 2 * Pow2(n - 1)
  }

  /** Closed form of the batch schedule: round `j` removes at most min(5 * 2^j, 1000) entries. */
  lemma {:induction false} BatchClosedForm(round: nat)
    ensures BatchAt(round) == Min(InitialBatch * Pow2(round), MaxBatch)
  {
    if round > 0 {
      BatchClosedForm(round - 1);
    }
  }

  /** How an eviction cycle ends. */
  datatype CycleEnd =
    | TargetReached  // a reading was at or below the low watermark
    | StoreEmpty     // a round found nothing left to remove

  /**
   * A finished cycle: the number of entries each round removed, the number of
   * entries left in the store, and why it stopped.
   */
  datatype Cycle = Cycle(removals: seq<nat>, left: nat, end: CycleEnd)

  function Sum(s: seq<nat>): nat {
    if s == [] then 0 else s[0] + Sum(s[1..])
  }

  /**
   * The rest of a cycle from round `round` on, with `count` entries left in the
   * store: read sample `round`; stop if it is at or below `target`; otherwise
   * remove min(batch, count) oldest entries, stop if that was none, and go on.
   * A round that removes something shrinks the store, so a cycle never reads
   * more than `count + 1` samples. A cycle only removes entries, and one that
   * stops for lack of entries leaves none.
   */
  function CycleFrom(count: nat, target: nat, readings: seq<nat>, round: nat): (c: Cycle)
    requires round + count < |readings|
    ensures c.left <= count
    ensures c.end == StoreEmpty ==> c.left == 0
    decreases count
  {
    if readings[round] <= target then Cycle([], count, TargetReached)
    else
      var removed := Min(BatchAt(round), count);
      if removed == 0 then Cycle([], count, StoreEmpty)
      else
        var rest := CycleFrom(count - removed, target, readings, round + 1);
        Cycle([removed] + rest.removals, rest.left, rest.end)
  }

  /** A whole cycle over a store of `count` entries, reading the samples from the first on. */
  function EvictionCycle(count: nat, target: nat, readings: seq<nat>): Cycle
    requires count < |readings|
  {
    CycleFrom(count, target, readings, 0)
  }

  /**
   * After the rounds recorded in `removals`, a cycle over `total` entries has
   * `count` entries left and is about to read sample `round`.
   */
  ghost predicate CycleContinues(total: nat, target: nat, readings: seq<nat>,
                                 removals: seq<nat>, count: nat, round: nat)
  {
    && total < |readings|
    && round + count < |readings|
    && var rest := CycleFrom(count, target, readings, round);
       EvictionCycle(total, target, readings) == Cycle(removals + rest.removals, rest.left, rest.end)
  }

  /** A cycle starts before its first round with every entry left. */
  lemma CycleStarts(total: nat, target: nat, readings: seq<nat>)
    requires total < |readings|
    ensures CycleContinues(total, target, readings, [], total, 0)
  {
    assert [] + EvictionCycle(total, target, readings).removals == EvictionCycle(total, target, readings).removals;
  }

  /**
   * A round that reads a sample above the target and removes `removed` > 0
   * entries, leaving `left`, moves the cycle on by one round.
   */
  lemma CycleAdvances(total: nat, target: nat, readings: seq<nat>,
                      removals: seq<nat>, count: nat, round: nat, removed: nat, left: nat)
    requires CycleContinues(total, target, readings, removals, count, round)
    requires readings[round] > target
    requires removed == Min(BatchAt(round), count) > 0 && left == count - removed
    ensures CycleContinues(total, target, readings, removals + [removed], left, round + 1)
  {
    var next := CycleFrom(left, target, readings, round + 1);
    assert removals + [removed] + next.removals == removals + ([removed] + next.removals);
  }

  /** The cycle ends at a sample at or below the target, or at a round that removes nothing. */
  lemma CycleStops(total: nat, target: nat, readings: seq<nat>,
                   removals: seq<nat>, count: nat, round: nat)
    requires CycleContinues(total, target, readings, removals, count, round)
    requires readings[round] <= target || Min(BatchAt(round), count) == 0
    ensures EvictionCycle(total, target, readings)
      == Cycle(removals, count, if readings[round] <= target then TargetReached else StoreEmpty)
  {
    assert removals + [] == removals;
  }

  /**
   * How a cycle accounts for the store: its rounds removed exactly the entries
   * that are no longer left, at least one per round (so it never reads past
   * sample `round + count`); every round ran on a reading above the target;
   * it ends with TargetReached exactly when the reading after the last round
   * is at or below the target.
   */
  lemma {:induction false} CycleBounds(count: nat, target: nat, readings: seq<nat>, round: nat)
    requires round + count < |readings|
    ensures var c := CycleFrom(count, target, readings, round);
      && Sum(c.removals) + c.left == count
      && |c.removals| <= count - c.left
      && (forall i | round <= i < round + |c.removals| :: readings[i] > target)
      && (c.end == TargetReached <==> readings[round + |c.removals|] <= target)
    decreases count
  {
    if readings[round] > target && Min(BatchAt(round), count) > 0 {
      var removed := Min(BatchAt(round), count);
      var rest := CycleFrom(count - removed, target, readings, round + 1);
      CycleBounds(count - removed, target, readings, round + 1);
      var c := Cycle([removed] + rest.removals, rest.left, rest.end);
      assert c == CycleFrom(count, target, readings, round);
      assert c.removals[1..] == rest.removals;
    }
  }

  /**
   * Round `i` of a run that started at round `round` with `count` entries
   * removed exactly min(BatchAt(round + i), entries still in the store).
   */
  ghost predicate FollowsSchedule(removals: seq<nat>, count: nat, round: nat) {
    forall i | 0 <= i < |removals| ::
      && Sum(removals[..i]) < count
      && removals[i] == Min(BatchAt(round + i), count - Sum(removals[..i]))
  }

  /** A run that follows the schedule removes between 1 and 1000 entries in every round. */
  lemma RoundsWithinBatchBounds(removals: seq<nat>, count: nat, round: nat)
    requires FollowsSchedule(removals, count, round)
    ensures forall x | x in removals :: 1 <= x <= MaxBatch
  {
    forall x | x in removals ensures 1 <= x <= MaxBatch {
      var i :| 0 <= i < |removals| && removals[i] == x;
      assert Sum(removals[..i]) < count;
    }
  }

  /** A first round that removes min(batch, count) > 0 entries, followed by a run on schedule, is a run on schedule. */
  lemma ScheduleCons(removed: nat, rest: seq<nat>, count: nat, round: nat)
    requires 0 < removed == Min(BatchAt(round), count)
    requires FollowsSchedule(rest, count - removed, round + 1)
    ensures FollowsSchedule([removed] + rest, count, round)
  {
    var run := [removed] + rest;
    forall i | 0 <= i < |run|
      ensures Sum(run[..i]) < count
      ensures run[i] == Min(BatchAt(round + i), count - Sum(run[..i]))
    {
      if i == 0 {
        assert run[..0] == [];
      } else {
        var prefix := run[..i];
        assert prefix[0] == removed && prefix[1..] == rest[..i - 1];
        assert run[i] == rest[i - 1];
        assert round + 1 + (i - 1) == round + i;
      }
    }
  }

  /**
   * Each round of a cycle removes exactly min(BatchAt(round + i), entries still
   * in the store).
   */
  lemma {:induction false} CycleSchedule(count: nat, target: nat, readings: seq<nat>, round: nat)
    requires round + count < |readings|
    ensures FollowsSchedule(CycleFrom(count, target, readings, round).removals, count, round)
    decreases count
  {
    if readings[round] > target && Min(BatchAt(round), count) > 0 {
      var removed := Min(BatchAt(round), count);
      CycleSchedule(count - removed, target, readings, round + 1);
      ScheduleCons(removed, CycleFrom(count - removed, target, readings, round + 1).removals, count, round);
    }
  }

  /**
   * A store of ten entries under a pressure that persists for the first three
   * samples: the cycle removes a batch of 5, then a batch of 10 capped at the 5
   * entries left, then finds the store empty and stops.
   */
  lemma TenEntriesScenario(target: nat, readings: seq<nat>)
    requires |readings| > 10
    requires readings[0] > target && readings[1] > target && readings[2] > target
    ensures EvictionCycle(10, target, readings) == Cycle([5, 5], 0, StoreEmpty)
  {
    assert BatchAt(1) == 10;
    assert BatchAt(2) == 20;
    assert CycleFrom(0, target, readings, 2) == Cycle([], 0, StoreEmpty);
    assert CycleFrom(5, target, readings, 1) == Cycle([5], 0, StoreEmpty);
  }
}
