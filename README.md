# Two-level cache timing simulator, modelled in Dafny

This project models the cache engine of a trace-driven cache simulator
(`src/cache.cpp`). An instruction cache (I$) and a data cache (D$) sit in front
of a shared second-level cache (L2), which is backed by main memory with a flat
latency `memspeed`. Each level is set-associative with least-recently-used
replacement. A real access returns the cycles it takes and updates per-level
`refs`/`misses`/`penalties` counters, and it counts every real miss at every level
as compulsory (the set was empty) or other (conflict/capacity). A level with zero
sets is bypassed. Next-line prefetching inserts into one first-level cache only,
with no statistics.

Files:

- `bits.dfy` (module `Bits`): 32-bit unsigned arithmetic on naturals. It has
  `Add32` (wrap-around addition), `Shr` (`>>`), `BitAnd` (`&`), powers of two,
  floor-log2, and `MsbIndex`, the loop of `get_msb_index`.
- `decode.dfy` (module `Decode`): splitting an address into a set index and a tag.
  It also proves that next-line prediction lands in the following set.
- `lru.dfy` (module `Lru`): one set as a sequence of tags, most recently used
  first. `Access` is the pure specification of what `access_cache` does to a set.
  The lemmas cover promotion on a hit, eviction of the tail on a full miss, the
  set invariant, and LRU order over a sequence of accesses.
- `cache.dfy` (module `Cache`): class `Hierarchy` holds what the C code keeps in
  globals: the configuration, the derived masks and widths, the three caches
  (arrays of sets) and the eleven counters. The constructor is `init_cache`.
  `AccessCache` is `access_cache`, with its scan loop. The level methods are
  `icache_access`, `dcache_access`, `l2cache_access` and the prefetch functions.
  Each method is proved against ghost functions (`Touch`, `Serve`, `L1Latency`,
  `L2Latency`, ...), and lemmas about those functions carry the properties.
  `Valid()` holds after initialisation and after every operation. It says every
  set holds at most `assoc` distinct tags, `misses <= refs` at every level, and
  `compulsoryMiss + otherMiss` equals the sum of the three levels' misses.
- `scenarios.dfy` (module `Scenarios`): two worked examples on a 4-set,
  direct-mapped I$ with L2 disabled.

Behaviour follows `src/cache.cpp` as written. Two consequences worth noting:

- An L2 miss returns `memspeed + l2cacheHitTime`, not bare `memspeed`
  (`src/cache.cpp:301`).
- In the sequence 0, 64, 0 on the 4-set direct-mapped I$, the access to 64 finds
  set 0 holding tag 0. So its miss counts as "other", not compulsory
  (`Scenarios.ConflictEviction`).

The model represents types as follows:

- `uint32_t` is the subset type `uint32`. The latency sums `access_time + hitTime`
  are 32-bit and wrap, through `Add32`. The `uint64_t` counters are unbounded `nat`.
- A set's doubly linked list with its sentinel head is a `seq<nat>` of tags, MRU
  first. Each cache is an `array<seq<nat>>` indexed by set.
- `TRUE`/`FALSE` and the `update`/`pre` flags are `bool`.

## Model

| member | source | states |
|---|---|---|
| `Bits.MsbIndex` | src/cache.cpp:88-99 | the do-while shift loop returns floor(log2 n) (`Log2`), and 0 for n = 0; for n >= 1, 2^k <= n < 2^(k+1); always below 32 |
| `Bits.Log2Bounds` | src/cache.cpp:88-99 | for n >= 1 the msb index k satisfies 2^k <= n < 2^(k+1) |
| `Bits.Log2OfPow2` | src/cache.cpp:88-99 | the msb index of 2^k is exactly k |
| `Bits.PowersOfTwoAreIsPow2` | src/cache.cpp:195-200 | conversely, every 2^k passes the power-of-two test, so `WellFormed` admits exactly the power-of-two sizes |
| `Bits.IsPow2IsPowerOfTwo` | src/cache.cpp:195-200 | for a power-of-two size, 2 to the power of its msb index gives the size back, so the derived widths are exact |
| `Bits.Add32IsModular` | src/cache.cpp:254 | 32-bit addition of latencies drops the carry: it is addition modulo 2^32 |
| `Bits.ShrIsDivision` | src/cache.cpp:104-105 | `x >> k` is x div 2^k, and the k low bits are x mod 2^k |
| `Bits.BitAndLowMask` | src/cache.cpp:104 | masking with 2^k - 1 keeps exactly the k low bits |
| `Decode.SetIndex` | src/cache.cpp:104 | `(addr >> offset) & mask` never exceeds the mask |
| `Decode.Tag` | src/cache.cpp:105 | `addr >> (offset + indexBits)` never exceeds the address |
| `Decode.IndexIsLowBitsOfBlock` | src/cache.cpp:104 | with mask 2^ib - 1, the set index is the low ib bits of the block number `addr >> offset` |
| `Decode.TagIsHighBitsOfBlock` | src/cache.cpp:105 | the tag is the block number with its index bits shifted out |
| `Decode.DecodeRoundTrip` | src/cache.cpp:104-105 | tag * 2^ib + index recomposes the block number, so decoding loses only the byte offset |
| `Decode.SameBlockIffSameSetAndTag` | src/cache.cpp:104-105 | two addresses get the same set and the same tag if and only if they lie in the same block |
| `Decode.NextLineMapsToNextSet` | src/cache.cpp:312 | adding one block size (wrapping at 2^32) moves the set index to its cyclic successor, when sets * block size is at most 2^32 |
| `Lru.RemoveFirst` | src/cache.cpp:116-121 | unlinking a resident tag shortens the set by one; unlinking an absent tag changes nothing |
| `Lru.RemoveFirstMultiset` | src/cache.cpp:116-121 | unlinking takes exactly one copy of the tag out of the set's bag of tags |
| `Lru.RemoveFirstAt` | src/cache.cpp:116-121 | unlinking the first node holding the tag, at position i, cuts out exactly position i |
| `Lru.HitMovesToFront` | src/cache.cpp:111-131 | on a hit: the result is TRUE, the hit tag is first, the length and the bag of tags are unchanged, and the other tags keep their relative order |
| `Lru.MissEvictsLeastRecent` | src/cache.cpp:149-165 | on an allocating miss: the result is FALSE and the new tag is first; a full set loses exactly its last (LRU) tag, the rest in order; otherwise every old tag is kept in order and the set grows by one |
| `Lru.MissWithoutUpdateKeepsSet` | src/cache.cpp:144-147 | a miss with `update == 0` returns FALSE and leaves the set unchanged |
| `Lru.AccessKeepsValid` | src/cache.cpp:111-165 | every probe keeps "length <= assoc and tags distinct"; with `update` the probed tag ends up first |
| `Lru.PromoteKeepsDistinct` | src/cache.cpp:116-128 | moving a resident tag to the front keeps the tags distinct |
| `Lru.FillKeepsDistinct` | src/cache.cpp:149-163 | evicting the tail of a full set and inserting a new tag keeps the tags distinct |
| `Lru.RepeatedAccessHits` | src/cache.cpp:111-131 | probing the same tag twice in a row: the second probe hits and leaves the set as it was |
| `Lru.ReplayDistinctFromEmpty` | src/cache.cpp:111-165 | from an empty set, a sequence of distinct tags leaves the most recent `assoc` of them, newest first |
| `Lru.OldestEvictedFirst` | src/cache.cpp:149-165 | after assoc + 1 distinct tags, the first is evicted (its next probe misses) and all later ones are resident |
| `Cache.IndexMask` | src/cache.cpp:191-193 | `sets - 1` in 32 bits: mask + 1 == sets for an enabled level, all ones for sets == 0 |
| `Cache.LayoutSplitsAddress` | src/cache.cpp:191-200 | for a well-formed enabled level, sets == 2^indexBits, blockSize == 2^offsetBits and mask == 2^indexBits - 1 |
| `Cache.SlotInRange` | src/cache.cpp:104 | every address selects an existing set of an enabled, well-formed level |
| `Cache.MissClassifiedOnce` | src/cache.cpp:136-142 | each miss is classified exactly once, as compulsory if and only if its set was empty; a hit is not classified |
| `Cache.TouchKeepsFit` | src/cache.cpp:107-165 | an allocating probe keeps every set valid, leaves every other set alone and makes the block resident |
| `Cache.SameBlockHitsAfterTouch` | src/cache.cpp:104-131 | once one address has been brought in, every address of the same block is resident |
| `Cache.ServeKeepsLevel` | src/cache.cpp:244-254 | serving a real access keeps the level valid with misses <= refs, adds one reference and adds a miss exactly when the block was absent |
| `Cache.AllValidAt` | src/cache.cpp:111-165 | the recursive all-sets invariant is the same as every set being valid |
| `Cache.EmptySetsFit` | src/cache.cpp:202-204 | all-empty sets of the configured count fit a well-formed configuration |
| `Cache.NewLevel` | src/cache.cpp:191-204 | one level's initialisation: mask `sets - 1`, index and offset widths from the msb scan, `sets` empty sets |
| `Cache.Hierarchy.constructor` | src/cache.cpp:175-205 | `init_cache`: every counter is zero, every set of every level is empty, and the hierarchy is valid |
| `Cache.Hierarchy.AccessCache` | src/cache.cpp:102-166 | `access_cache` returns whether the tag was in its set; the set becomes `Lru.Access` of the old set; a real miss adds one to `compulsoryMiss` if the set was empty and to `otherMiss` otherwise; no other set changes |
| `Cache.Hierarchy.ProbeLevel` | src/cache.cpp:245 | a level probe with `update == 1` hits exactly when the block is resident, allocates it, and classifies a real miss once (a prefetch probe never) |
| `Cache.Hierarchy.L2CacheAccess` | src/cache.cpp:285-303 | disabled: returns `memspeed`, L2 counters unchanged; hit: returns the hit time; miss: misses + 1, penalties + `memspeed`, returns `memspeed + hitTime` |
| `Cache.Hierarchy.ICacheAccess` | src/cache.cpp:237-256 | disabled: returns the L2 result, I$ counters unchanged; hit: returns the hit time and refs + 1; miss: misses + 1, penalties + the L2 latency, returns the L2 latency + hit time; L2 is reached exactly on a bypass or a miss; the hierarchy stays valid |
| `Cache.Hierarchy.ICacheProbe` | src/cache.cpp:244-255 | the enabled case of `icache_access`, with the same latency, counter and classification effects |
| `Cache.Hierarchy.ICacheMiss` | src/cache.cpp:250-255 | the I$ miss path: misses + 1, penalties + the L2 latency, result L2 latency + hit time (32-bit) |
| `Cache.Hierarchy.DCacheAccess` | src/cache.cpp:261-280 | as `ICacheAccess`, for the D$ |
| `Cache.Hierarchy.DCacheProbe` | src/cache.cpp:268-279 | the enabled case of `dcache_access` |
| `Cache.Hierarchy.DCacheMiss` | src/cache.cpp:274-279 | the D$ miss path: misses + 1, penalties + the L2 latency, result L2 latency + hit time (32-bit) |
| `Cache.Hierarchy.ICachePrefetchAddr` | src/cache.cpp:309-316 | returns `addr + icacheBlocksize` modulo 2^32, whatever `pc` and `r_or_w` are; that address falls in the next I$ set |
| `Cache.Hierarchy.DCachePrefetchAddr` | src/cache.cpp:322-329 | returns `addr + dcacheBlocksize` modulo 2^32, whatever `pc` and `r_or_w` are; that address falls in the next D$ set |
| `Cache.NextLinePrefetchAddr` | src/cache.cpp:312 | the next-line address is `addr + blockSize` modulo 2^32 and maps to the cyclically following set |
| `Cache.Hierarchy.ICachePrefetch` | src/cache.cpp:332-341 | a no-op when the I$ is disabled; otherwise only the I$ sets change (allocating probe); no counter and no L2 state changes |
| `Cache.Hierarchy.DCachePrefetch` | src/cache.cpp:344-353 | a no-op when the D$ is disabled; otherwise only the D$ sets change (allocating probe); no counter and no L2 state changes |
| `Scenarios.SmallICache` | src/cache.cpp:22-25 | the 4-set, direct-mapped, 16-byte-block I$ is a well-formed enabled configuration |
| `Scenarios.SmallICacheDecode` | src/cache.cpp:104-105 | in that I$, addresses 0 and 64 both map to set 0, with tags 0 and 1 |
| `Scenarios.ColdMissThenHit` | src/cache.cpp:237-256 | with L2 disabled and memspeed 100: a first access to 0 is a compulsory miss costing 101; repeating it hits in 1 cycle, refs 2, misses 1 |
| `Scenarios.ConflictEviction` | src/cache.cpp:136-165 | accesses 0, 64, 0 in a direct-mapped set: compulsory, then other (64 evicts 0), then other again |

## Left out

- `free_cache` and `clean_cache` (src/cache.cpp:207-232) and the `malloc`/`free` node bookkeeping in `access_cache`: they only manage memory, and a set as a sequence of tags has none to manage.
- The student information strings (src/cache.cpp:14-16): they are not behaviour.
- The `inclusive` flag (src/cache.cpp:36) and the `prefetch` flag (src/cache.cpp:38): no code in `src/cache.cpp` reads them. No inclusion policy is invented. The decision to prefetch belongs to the trace driver, which is not part of this model.
- Configuration validation: the code does none. Power-of-two set counts and block sizes, and `assoc >= 1` for an enabled level, are preconditions (`Cache.WellFormed`). With `assoc == 0` and sets > 0 the C code would dereference NULL at src/cache.cpp:151.
- 64-bit counter overflow: the `uint64_t` statistics counters are unbounded naturals.
- Shifts by 32 or more bits: in C, `addr >> (block_offset_bit + index_bit)` is undefined when sets * block size is 2^32 or more. Here the shift gives 0. The next-line lemmas require sets * block size to be at most 2^32.
- Tag width: tags are kept as `nat`, not `uint32_t`. Every decoded tag is at most the 32-bit address, so no value is lost.
- The trace driver, command-line parsing and statistics printing: they are I/O and are not part of this model.
