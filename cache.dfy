/**
 * The cache store: a LinkedHashMap from keys to values, kept in recency order,
 * with two size limits fixed at construction, and the eviction routines the
 * memory monitor drives. The read/write lock around the store is not modelled:
 * every operation below is one exclusive, sequential step.
 */
module CacheEngine {
  import opened Wrappers
  import opened Bytes
  import opened Recency
  import opened EvictionPolicy

  /** Values are byte strings, like keys. */
  type Value = Bytes

  /** The store's errors. */
  datatype CacheError = KeyNotFound | KeyTooLarge | ValueTooLarge

  /** Rust's `Result<T, CacheError>`. */
  datatype Result<T> = Ok(value: T) | Err(error: CacheError)

  /**
   * A store whose keys are the last `|s| - n` of the order `s` it started
   * from, each still bound as before, is the one that evicted the first `n`.
   */
  lemma EvictedPrefix(d0: map<Key, Value>, d: map<Key, Value>, s: seq<Key>, n: nat)
    requires NoDup(s) && Elems(s) == d0.Keys && n <= |s|
    requires d.Keys == Elems(s[n..])
    requires forall k | k in d :: k in d0 && d[k] == d0[k]
    ensures d == d0 - Elems(s[..n])
  {
    DropOldest(s, n);
  }

  /** Dropping the oldest key of the run `s[..n]` extends the keys evicted so far by one. */
  lemma EvictOneMore(data: map<Key, Value>, s: seq<Key>, n: nat)
    requires n < |s|
    ensures data - Elems(s[..n]) - {s[n]} == data - Elems(s[..n + 1])
  {
    assert s[..n + 1] == s[..n] + [s[n]];
    assert Elems(s[..n + 1]) == Elems(s[..n]) + {s[n]};
  }

  class Cache {
    /** The keys from the least recently used (front) to the most recently used (back). */
    var order: seq<Key>
    /** The value stored under each key. */
    var data: map<Key, Value>
    /** The longest key, in bytes, the store accepts. */
    const maxKeySize: nat
    /** The longest value, in bytes, the store accepts. */
    const maxValSize: nat

    /**
     * The order lists each stored key exactly once, and every stored key and
     * value is within the limits.
     */
    ghost predicate Valid()
      reads this
    {
      && NoDup(order)
      && Elems(order) == data.Keys
      && (forall k {:trigger data[k]} | k in data :: |k| <= maxKeySize && |data[k]| <= maxValSize)
    }

    /** `Cache::new`: an empty store with the given limits. */
    constructor (maxKeySize: nat, maxValueSize: nat)
      ensures Valid()
      ensures this.maxKeySize == maxKeySize && maxValSize == maxValueSize
      ensures order == [] && data == map[]
    {
      this.maxKeySize := maxKeySize;
      maxValSize := maxValueSize;
      order := [];
      data := map[];
    }

    /**
     * `Cache::put`: the key is checked before the value; a rejected call
     * changes nothing; an accepted one binds `key` to `value` and makes `key`
     * the most recently used.
     */
    method Put(key: Key, value: Value) returns (r: Result<()>)
      requires Valid()
      modifies this
      ensures Valid()
      ensures |key| > maxKeySize ==> r == Err(KeyTooLarge)
      ensures |key| <= maxKeySize && |value| > maxValSize ==> r == Err(ValueTooLarge)
      ensures |key| <= maxKeySize && |value| <= maxValSize ==> r == Ok(())
      ensures r.Err? ==> order == old(order) && data == old(data)
      ensures r.Ok? ==> order == MoveToBack(old(order), key) && data == old(data)[key := value]
    {
      if |key| > maxKeySize {
        return Err(KeyTooLarge);
      }
      if |value| > maxValSize {
        return Err(ValueTooLarge);
      }
      MoveToBackFacts(order, key);
      assert (data - {key})[key := value] == data[key := value];
      // Remove and reinsert, so that the key ends up at the most recently used end.
      order := Remove(order, key);
      data := data - {key};
      order := order + [key];
      data := data[key := value];
      r := Ok(());
    }

    /**
     * `Cache::get`: a miss changes nothing; a hit returns the stored value,
     * keeps every binding and makes `key` the most recently used.
     */
    method Get(key: Key) returns (r: Result<Value>)
      requires Valid()
      modifies this
      ensures Valid()
      ensures key !in old(data) ==> r == Err(KeyNotFound) && order == old(order) && data == old(data)
      ensures key in old(data) ==>
        r == Ok(old(data)[key]) && data == old(data) && order == MoveToBack(old(order), key)
    {
      if key in data {
        var value := data[key];
        MoveToBackFacts(order, key);
        assert (data - {key})[key := value] == data;
        order := Remove(order, key);
        data := data - {key};
        order := order + [key];
        data := data[key := value];
        r := Ok(value);
      } else {
        r := Err(KeyNotFound);
      }
    }

    /**
     * One round of eviction, the block inside `Cache::evict` that holds the
     * write lock: removes min(batchSize, entries) keys, all from the least
     * recently used end; the survivors keep their order and their values.
     */
    method EvictBatch(batchSize: nat) returns (removed: nat)
      requires Valid()
      modifies this
      ensures Valid()
      ensures removed == Min(batchSize, |old(order)|)
      ensures order == old(order)[removed..]
      ensures data == old(data) - Elems(old(order)[..removed])
    {
      assert Elems(order[..0]) == {} && data - {} == data;
      if |order| == 0 {
        return 0;
      }
      removed := 0;
      while removed < batchSize && |order| > 0
        invariant Valid()
        invariant removed <= batchSize && removed <= |old(order)|
        invariant order == old(order)[removed..]
        invariant data == old(data) - Elems(old(order)[..removed])
        decreases |order|
      {
        var oldest := order[0];
        DropOldest(order, 1);
        assert Elems(order[..1]) == {oldest};
        EvictOneMore(old(data), old(order), removed);
        data := data - {oldest};
        order := order[1..];
        removed := removed + 1;
      }
    }

    /**
     * `Cache::evict`: one eviction cycle for high watermark `threshold`, with
     * `readings[i]` the used memory sampled before round `i`. It follows
     * EvictionCycle exactly, and what it removes is the oldest keys, as many
     * as all its rounds removed together. The store cannot run out of entries
     * before it runs out of readings: a cycle reads at most one sample more
     * than the store has entries.
     */
    method Evict(threshold: nat, readings: seq<nat>) returns (cycle: Cycle)
      requires Valid()
      requires |readings| > |order|
      modifies this
      ensures Valid()
      ensures cycle == EvictionCycle(|old(order)|, Target(threshold), readings)
      ensures order == old(order)[|old(order)| - cycle.left..]
      ensures data == old(data) - Elems(old(order)[..|old(order)| - cycle.left])
    {
      var batchSize := InitialBatch;
      var round := 0;
      var removals: seq<nat> := [];
      ghost var total, done := |order|, 0;
      ghost var target := Target(threshold);
      CycleStarts(total, target, readings);
      while true
        invariant Valid()
        invariant batchSize == BatchAt(round)
        invariant done + |order| == total
        invariant order == old(order)[done..]
        invariant forall k | k in data :: k in old(data) && data[k] == old(data)[k]
        invariant CycleContinues(total, target, readings, removals, |order|, round)
        decreases |order|
      {
        if readings[round] <= threshold / 2 {
          CycleStops(total, target, readings, removals, |order|, round);
          EvictedPrefix(old(data), data, old(order), done);
          return Cycle(removals, |order|, TargetReached);
        }
        ghost var count, dataBefore := |order|, data;
        var removed := EvictBatch(batchSize);
        if removed == 0 {
          CycleStops(total, target, readings, removals, count, round);
          EvictedPrefix(old(data), data, old(order), done);
          return Cycle(removals, |order|, StoreEmpty);
        }
        CycleAdvances(total, target, readings, removals, count, round, removed, |order|);
        assert old(order)[done..][removed..] == old(order)[done + removed..];
        forall k | k in data ensures k in old(data) && data[k] == old(data)[k] {
          assert k in dataBefore && data[k] == dataBefore[k];
        }
        done := done + removed;
        removals := removals + [removed];
        batchSize := Min(batchSize * 2, MaxBatch);
        round := round + 1;
      }
    }

    /**
     * One pass of `Cache::monitor_memory_usage` with the host's total and used
     * memory as inputs: a cycle runs exactly when used memory is strictly
     * above the high watermark; otherwise nothing changes.
     */
    method MonitorStep(total: nat, used: nat, readings: seq<nat>) returns (cycle: Option<Cycle>)
      requires Valid()
      requires total < U64Modulus
      requires |readings| > |order|
      modifies this
      ensures Valid()
      ensures used <= Threshold(total) ==> cycle == None && order == old(order) && data == old(data)
      ensures used > Threshold(total) ==>
        && cycle == Some(EvictionCycle(|old(order)|, Target(Threshold(total)), readings))
        && order == old(order)[|old(order)| - cycle.value.left..]
        && data == old(data) - Elems(old(order)[..|old(order)| - cycle.value.left])
    {
      var threshold := Threshold(total);
      if used > threshold {
        var c := Evict(threshold, readings);
        cycle := Some(c);
      } else {
        cycle := None;
      }
    }
  }
}
