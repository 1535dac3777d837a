# An LRU key-value cache with a memory-pressure monitor, in Dafny

This project models the core of a small in-memory key-value server written in
Rust. The core is the store and the configuration loader.

The store (`src/cache.rs`) is a `LinkedHashMap` of byte-string keys and values.
It fixes two size limits at construction:

- `put` checks the key, then the value, then replaces the binding by
  remove-then-insert. The key becomes the most recently used.
- `get` reads a key and also moves it to the most recently used end.

A background monitor compares used memory with a high watermark, 70% of total
memory computed in `u64`. When used memory is strictly above the watermark, it
runs an eviction cycle:

- Each round re-reads used memory. The cycle stops once used memory is at most
  half the watermark.
- Otherwise the round removes up to `batch_size` of the least recently used
  entries, under the write lock.
- The cycle stops when a round removes nothing.
- `batch_size` starts at 5 and doubles each round, up to 1000.

The configuration loader (`src/config.rs`) sets the port and the two limits:

- The port defaults to `"7171"`.
- Each limit is 256 when it is unset or does not parse as a `usize`. A parsed
  value above 256 is lowered to 256.

The modules follow the program:

- `Recency` (`recency.dfy`): the recency order as a sequence of keys, from least
  to most recently used. It defines remove and move-to-back, with their
  properties.
- `EvictionPolicy` (`eviction_policy.dfy`): the watermarks, the batch schedule,
  and `CycleFrom`/`EvictionCycle`, a pure definition of what an eviction cycle
  does for a given sequence of memory readings. It proves the cycle's
  accounting, its schedule and its termination.
- `CacheEngine` (`cache.dfy`): the store as a class with fields `order` (the
  recency order) and `data` (the map). Its invariant `Valid()` says:
  - `order` lists each stored key exactly once;
  - every stored key and value is within the limits.

  `Put`, `Get`, `EvictBatch` (the batch-removal block), `Evict` (the cycle's
  loop) and `MonitorStep` (one pass of the monitor) are methods proved against
  `Recency` and `EvictionPolicy`.
- `ConfigLoader` (`config.dfy`): `str::parse::<usize>`, the default-and-clamp
  rule for one limit, and `load_config`.
- `Scenarios` (`scenarios.dfy`): the store used as its callers use it. It covers:
  - put then get;
  - overwrite;
  - get after eviction;
  - the A/B/C recency example;
  - the 256-byte boundary;
  - a ten-entry eviction cycle.
- `Wrappers` and `Bytes`: `Option`, and byte strings.

Host memory readings and environment variables are inputs:

- `MonitorStep` takes the total and used memory of one sample.
- `Evict` takes the sequence of used-memory readings that its rounds read in
  turn.
- `LoadConfig` takes each environment lookup as an `Option<string>`.

## Model

| member | source | states |
|---|---|---|
| `Recency.Remove` | src/cache.rs:52 | unlinking `k` leaves exactly the other keys, changes nothing when `k` is absent, keeps the order free of duplicates and shortens it by one when `k` was present |
| `Recency.RemoveAt` | src/cache.rs:64 | removing the key at position `i` leaves the keys before and after it in their places, so every other key keeps its relative order |
| `Recency.RemoveConcat` | src/cache.rs:52 | unlinking a key from a concatenation unlinks it from each part |
| `Recency.MoveToBackFacts` | src/cache.rs:52-53 | remove-then-insert keeps the order duplicate-free, lists the old keys plus `k`, puts `k` last, and grows the order only when `k` is new |
| `Recency.DropOldest` | src/cache.rs:122-127 | dropping the `m` oldest keys leaves a duplicate-free order of exactly the other keys |
| `EvictionPolicy.Threshold` | src/cache.rs:81 | the u64 high watermark never exceeds total memory, and it is 70% of the total rounded down whenever `total * 70` does not wrap |
| `EvictionPolicy.BatchAt` | src/cache.rs:140 | the batch size of every round of a cycle lies between 5 and 1000 |
| `EvictionPolicy.BatchClosedForm` | src/cache.rs:140 | round `j` of a cycle uses batch size min(5 * 2^j, 1000) |
| `EvictionPolicy.CycleFrom` | src/cache.rs:103-142 | a cycle never leaves more entries than it started with, and one that stops because a round removed nothing leaves none |
| `EvictionPolicy.CycleBounds` | src/cache.rs:103-142 | the rounds removed exactly the entries no longer left, at least one each, so a cycle over `n` entries ends within `n + 1` readings; every round ran on a reading above the target; it ends with TargetReached exactly when the next reading is at or below the target |
| `EvictionPolicy.CycleSchedule` | src/cache.rs:115-140 | round `i` removes exactly min(batch size of round `i`, entries still stored) |
| `EvictionPolicy.RoundsWithinBatchBounds` | src/cache.rs:121-140 | every round of a cycle that follows the schedule removes between 1 and 1000 entries |
| `EvictionPolicy.TenEntriesScenario` | src/cache.rs:99-143 | ten entries under pressure for three readings are removed as 5 then 5, and the cycle then stops on an empty store |
| `CacheEngine.Cache.constructor` | src/cache.rs:30-38 | a new store is empty, satisfies the invariant and keeps the two limits |
| `CacheEngine.Cache.Put` | src/cache.rs:40-56 | an oversize key gives KeyTooLarge whatever the value; an in-limit key with an oversize value gives ValueTooLarge; a rejected put changes nothing; an accepted one binds `key` to `value`, moves `key` to the back of the order, and keeps the invariant |
| `CacheEngine.Cache.Get` | src/cache.rs:58-70 | a miss gives KeyNotFound and changes nothing; a hit returns the stored value, keeps every binding and moves the key to the back |
| `CacheEngine.Cache.EvictBatch` | src/cache.rs:115-134 | removes min(batch, entries) keys, all from the least recently used end, leaving the survivors in order with their values, and 0 from an empty store |
| `CacheEngine.Cache.Evict` | src/cache.rs:99-143 | the cycle run is `EvictionCycle` for the store's size and the target `threshold / 2`; the store loses exactly the oldest keys that the cycle's rounds removed and keeps the invariant, so the limits hold throughout |
| `CacheEngine.Cache.MonitorStep` | src/cache.rs:72-97 | a cycle runs exactly when used memory is strictly above the u64 high watermark, with target half the watermark; otherwise nothing changes |
| `ConfigLoader.ParseUsize` | src/config.rs:17 | a parsed value never exceeds usize::MAX, and text starting with anything but '+' or a digit is rejected |
| `ConfigLoader.ParseDecimal` | src/config.rs:17 | the decimal text of `n`, with or without a leading '+', parses back to `n` exactly when `n` fits in a usize |
| `ConfigLoader.LeadingZero` | src/config.rs:17 | a leading zero changes neither the value of a digit run nor the parse result |
| `ConfigLoader.ParseRejects` | src/config.rs:17 | the empty text, a lone '+', a negative number, a leading blank and trailing garbage do not parse |
| `ConfigLoader.SizeSetting` | src/config.rs:15-25 | a limit is at most 256; unset or unparseable gives 256; a parsed value up to 256 is kept and a larger one becomes 256 |
| `ConfigLoader.SizeSettingOfDecimal` | src/config.rs:15-25 | any number written in decimal, even one beyond usize::MAX, yields the limit min(n, 256) |
| `ConfigLoader.LoadConfig` | src/config.rs:10-43 | the port is PORT or "7171" when unset; each limit follows the default-and-clamp rule on its own variable only, and both are at most 256 |
| `ConfigLoader.DefaultConfig` | src/config.rs:13-30 | with nothing set the configuration is port 7171 with limits 256 and 256 |
| `ConfigLoader.ClampedConfig` | src/config.rs:20-37 | 1024 is lowered to 256, 100 and "+100" are kept, and "abc" falls back to 256, independently for the two limits |
| `Scenarios.PutThenGet` | src/cache.rs:40-70 | a put within the limits followed by a get returns the value put, and the key is then the most recently used |
| `Scenarios.Overwrite` | src/cache.rs:52-53 | a second put on the same key keeps the entry count and a get returns the newer value |
| `Scenarios.GetAfterEvict` | src/cache.rs:125-127 | a key removed by an eviction round is then reported KeyNotFound |
| `Scenarios.RecencyScenario` | src/cache.rs:61-65 | after putting A, B, C and reading A, evicting one entry removes B and leaves C, A |
| `Scenarios.BoundaryScenario` | src/cache.rs:40-43 | with the default limits of 256, a one-byte key is stored and a 257-byte key is refused with KeyTooLarge |
| `Scenarios.TenEntriesScenario` | src/cache.rs:99-143 | a store of ten entries under persistent pressure loses them in rounds of 5 and 5 and is left empty |

## Left out

- Locking: the `Arc<RwLock<…>>` and the separate read locks `put` takes to read the limits are not modelled. Every store operation is one exclusive, sequential step, and the limits never change after construction.
- Sleeping and repetition: the one-second and 50 ms sleeps and the endless monitor `loop` are not modelled. `MonitorStep` is one pass of the loop, and `Evict` is one cycle.
- Memory sampling: the `sysinfo` calls are not modelled. Total and used memory are parameters, and so is the sequence of readings an eviction cycle takes.
- Logging: the `/ 1024` megabyte conversions feed only log messages and are not modelled, and neither are the `log::` calls.
- Environment: `dotenv()` and `env::var` are not modelled. Each variable arrives as an `Option<string>`, and a value that is not valid Unicode arrives as `None`.
- CacheEngine.Cache.Evict: requires at least one more reading than the store has entries, where the source samples memory as often as it needs. `CycleBounds` shows a cycle never takes more readings than that.
- CacheEngine.Cache.MonitorStep: carries the same requirement on readings as `Evict`.
- CacheEngine.Cache.EvictBatch: the source's `else { break; }` branch runs when a non-empty map yields no first key, which cannot happen, so the model leaves it out.
- Keys and values are byte strings. The model does not require them to be valid UTF-8, and their lengths count bytes, as `String::len` does.
- `usize` is taken to be 64 bits wide, so `ParseUsize` rejects values above 2^64 - 1.
- The high watermark's `total_memory * 70` wraps modulo 2^64, as in a release build. The overflow panic of a debug build is not modelled.
- `src/handlers.rs`, `src/api.rs`, `src/main.rs`, `src/models.rs` and `load-test.js` are not part of this model. They hold HTTP routing, JSON encoding, process start-up and a load script, and the empty-key check of the HTTP handlers is among them.
