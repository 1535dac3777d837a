/**
 * Uses of the store as its callers make them: a request handler putting and
 * getting, the memory monitor evicting, and the start-up code building the
 * store from the loaded configuration.
 */
module Scenarios {
  import opened Wrappers
  import opened Bytes
  import opened Recency
  import opened EvictionPolicy
  import opened CacheEngine
  import opened ConfigLoader

  /** A value put within the limits is what a following get returns, and the key is then the most recently used. */
  method PutThenGet(c: Cache, k: Key, v: Value) returns (r: Result<Value>)
    requires c.Valid()
    requires |k| <= c.maxKeySize && |v| <= c.maxValSize
    modifies c
    ensures c.Valid()
    ensures r == Ok(v)
    ensures |c.order| > 0 && c.order[|c.order| - 1] == k
  {
    var p := c.Put(k, v);
    r := c.Get(k);
    MoveToBackFacts(old(c.order), k);
    MoveToBackFacts(MoveToBack(old(c.order), k), k);
  }

  /** A second put on the same key keeps the entry count and replaces the value. */
  method Overwrite(c: Cache, k: Key, v1: Value, v2: Value) returns (countAfterFirst: nat, countAfterSecond: nat, r: Result<Value>)
    requires c.Valid()
    requires |k| <= c.maxKeySize && |v1| <= c.maxValSize && |v2| <= c.maxValSize
    modifies c
    ensures c.Valid()
    ensures countAfterSecond == countAfterFirst
    ensures r == Ok(v2)
  {
    var p1 := c.Put(k, v1);
    MoveToBackFacts(old(c.order), k);
    countAfterFirst := |c.order|;
    var p2 := c.Put(k, v2);
    MoveToBackFacts(MoveToBack(old(c.order), k), k);
    countAfterSecond := |c.order|;
    r := c.Get(k);
  }

  /** Every key an eviction round removed is gone: a get on it misses. */
  method GetAfterEvict(c: Cache, n: nat, i: nat) returns (r: Result<Value>)
    requires c.Valid()
    requires i < n && i < |c.order|
    modifies c
    ensures r == Err(KeyNotFound)
  {
    var k := c.order[i];
    var removed := c.EvictBatch(n);
    assert k in Elems(old(c.order)[..removed]);
    r := c.Get(k);
  }

  /** A fresh store after putting keys A, B and C in that order. */
  method PutThreeKeys() returns (c: Cache)
    ensures fresh(c) && c.Valid()
    ensures c.order == [[65], [66], [67]]
  {
    c := new Cache(256, 256);
    var ok := c.Put([65], [118]);
    ok := c.Put([66], [118]);
    assert c.order == [[65], [66]];
    ok := c.Put([67], [118]);
  }

  /**
   * Keys A, B and C put in that order, then A read: the least recently used
   * key is now B, so a round of one eviction removes B and leaves C, A.
   */
  method RecencyScenario() returns (removed: nat, left: seq<Key>)
    ensures removed == 1
    ensures left == [[67], [65]]
  {
    var c := PutThreeKeys();
    RemoveAt(c.order, 0);
    var got := c.Get([65]);
    assert c.order == [[66], [67], [65]];
    removed := c.EvictBatch(1);
    left := c.order;
  }

  /**
   * The store the start-up code builds when no size limit is set: the
   * limits are 256, so a one-byte key is accepted and a 257-byte key is not.
   */
  method BoundaryScenario() returns (small: Result<()>, large: Result<()>)
    ensures small == Ok(())
    ensures large == Err(KeyTooLarge)
  {
    var config := LoadConfig(None, None, None);
    var c := new Cache(config.maxKeySize, config.maxValueSize);
    small := c.Put([107], [118]);
    var longKey: Key := seq(257, _ => 107);
    large := c.Put(longKey, [118]);
  }

  /** The distinct one-byte keys 0, 1, ..., n - 1, oldest first. */
  function FirstKeys(n: nat): (s: seq<Key>)
    requires n <= 256
    ensures |s| == n && NoDup(s)
  {
    seq(n, i requires 0 <= i < n => [i as byte])
  }

  /**
   * Ten entries under a pressure that only the emptied store can end: the
   * cycle removes 5, then the remaining 5 out of a batch of 10, then finds
   * the store empty, removing every entry and no more.
   */
  method TenEntriesScenario(high: nat) returns (cycle: Cycle, left: nat)
    ensures cycle == Cycle([5, 5], 0, StoreEmpty)
    ensures left == 0
  {
    var c := new Cache(256, 256);
    var i := 0;
    while i < 10
      invariant 0 <= i <= 10
      invariant c.Valid() && c.maxKeySize == 256 && c.maxValSize == 256
      invariant c.order == FirstKeys(i)
    {
      var k: Key := [i as byte];
      assert k !in c.order;
      var ok := c.Put(k, [118]);
      assert FirstKeys(i) + [k] == FirstKeys(i + 1);
      i := i + 1;
    }
    var readings := seq(11, _ => high + 1);
    cycle := c.Evict(2 * high, readings);
    EvictionPolicy.TenEntriesScenario(high, readings);
    left := |c.order|;
  }
}
