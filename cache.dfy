/**
 * The two-level cache hierarchy: an instruction cache and a data cache in front of a
 * shared second-level cache, backed by main memory with a flat latency. The class
 * holds what the simulator keeps in globals: the configuration, the layout derived
 * from it, the sets of each level and the statistics counters. What one access does
 * is specified by pure functions on `Level` values; the methods are proved against them.
 */
module Cache {
  import opened Bits
  import opened Decode
  import Lru

  /** One level's configuration: number of sets, associativity, block size, hit time. */
  datatype Geometry = Geometry(sets: uint32, assoc: uint32, blockSize: uint32, hitTime: uint32)

  /** What initialisation derives for a level: the index mask and the index and block-offset widths. */
  datatype Layout = Layout(indexMask: uint32, indexBits: nat, offsetBits: nat)

  /**
   * What the simulator relies on without checking it: a level is disabled (no sets),
   * or its set count and block size are powers of two and it holds at least one line per set.
   */
  predicate WellFormed(g: Geometry)
  {
    g.sets == 0 || (IsPow2(g.sets) && IsPow2(g.blockSize) && g.assoc >= 1)
  }

  /** `sets - 1` computed in 32 bits: all ones when there are no sets. */
  function IndexMask(sets: uint32): (mask: uint32)
    ensures sets > 0 ==> mask + 1 == sets
    ensures sets == 0 ==> mask == Word - 1
  {
    if sets == 0 then 0xFFFF_FFFF else sets - 1
  }

  /** The layout initialisation computes: the index mask and the two msb indices. */
  ghost function LayoutOf(g: Geometry): Layout
  {
    Layout(IndexMask(g.sets), Log2(g.sets), Log2(g.blockSize))
  }

  /** For an enabled, well-formed level the derived layout is an exact power-of-two split of the address. */
  lemma LayoutSplitsAddress(g: Geometry)
    requires WellFormed(g) && g.sets > 0
    ensures var lay := LayoutOf(g);
      && g.sets == Pow2(lay.indexBits)
      && g.blockSize == Pow2(lay.offsetBits)
      && lay.indexMask == Pow2(lay.indexBits) - 1
  {
    IsPow2IsPowerOfTwo(g.sets);
    IsPow2IsPowerOfTwo(g.blockSize);
  }

  /** The set an address maps to in a level with layout `lay`. */
  function Slot(lay: Layout, addr: nat): nat
  {
    SetIndex(addr, lay.offsetBits, lay.indexMask)
  }

  /** The tag an address carries in a level with layout `lay`. */
  function LineTag(lay: Layout, addr: nat): nat
  {
    Tag(addr, lay.offsetBits, lay.indexBits)
  }

  /** Every set keeps the LRU set invariant (stated recursively, so unfolded one set at a time). */
  ghost predicate AllValid(sets: seq<seq<nat>>, assoc: nat)
    decreases |sets|
  {
    sets == [] || (Lru.ValidSet(sets[0], assoc) && AllValid(sets[1..], assoc))
  }

  lemma {:induction false} AllValidAt(sets: seq<seq<nat>>, assoc: nat)
    ensures AllValid(sets, assoc) <==> forall i :: 0 <= i < |sets| ==> Lru.ValidSet(sets[i], assoc)
    decreases |sets|
  {
    if sets != [] {
      var rest := sets[1..];
      AllValidAt(rest, assoc);
      assert forall i :: 0 < i < |sets| ==> sets[i] == rest[i - 1];
    }
  }

  /** A level's sets agree with its configuration, and each keeps the LRU set invariant. */
  ghost predicate SetsFit(g: Geometry, lay: Layout, sets: seq<seq<nat>>)
  {
    && WellFormed(g)
    && lay == LayoutOf(g)
    && |sets| == g.sets
    && AllValid(sets, g.assoc)
  }

  /** Every address selects an existing set of an enabled level. */
  lemma SlotInRange(g: Geometry, lay: Layout, sets: seq<seq<nat>>, addr: nat)
    requires SetsFit(g, lay, sets) && g.sets > 0
    ensures Slot(lay, addr) < |sets|
  {
  }

  /** The block of `addr` is present in `sets`. */
  ghost predicate Resident(sets: seq<seq<nat>>, lay: Layout, addr: nat)
  {
    Slot(lay, addr) < |sets| && LineTag(lay, addr) in sets[Slot(lay, addr)]
  }

  /** A real access misses on a set that holds nothing: counted as compulsory. */
  ghost function ColdMisses(sets: seq<seq<nat>>, lay: Layout, addr: nat): nat
  {
    if Slot(lay, addr) < |sets| && sets[Slot(lay, addr)] == [] then 1 else 0
  }

  /** A real access misses on a set that holds something: counted as a conflict or capacity miss. */
  ghost function OtherMisses(sets: seq<seq<nat>>, lay: Layout, addr: nat): nat
  {
    if Slot(lay, addr) < |sets| && sets[Slot(lay, addr)] != [] && !Resident(sets, lay, addr) then 1 else 0
  }

  /** Each miss is classified exactly once, as compulsory exactly when its set was empty. */
  lemma MissClassifiedOnce(sets: seq<seq<nat>>, lay: Layout, addr: nat)
    requires Slot(lay, addr) < |sets|
    ensures ColdMisses(sets, lay, addr) + OtherMisses(sets, lay, addr) == (if Resident(sets, lay, addr) then 0 else 1)
    ensures ColdMisses(sets, lay, addr) == 1 <==> sets[Slot(lay, addr)] == []
  {
  }

  /** The sets after an allocating probe of `addr`. */
  ghost function Touch(sets: seq<seq<nat>>, lay: Layout, assoc: nat, addr: nat): seq<seq<nat>>
    requires assoc >= 1 && Slot(lay, addr) < |sets|
  {
    sets[Slot(lay, addr) := Lru.Access(sets[Slot(lay, addr)], LineTag(lay, addr), assoc, true).lines]
  }

  /**
   * An allocating probe keeps the level fitting its configuration, leaves every other set
   * alone, and makes the block of `addr` resident.
   */
  lemma TouchKeepsFit(g: Geometry, lay: Layout, sets: seq<seq<nat>>, addr: nat)
    requires SetsFit(g, lay, sets) && g.sets > 0
    ensures SetsFit(g, lay, Touch(sets, lay, g.assoc, addr))
    ensures Resident(Touch(sets, lay, g.assoc, addr), lay, addr)
    ensures forall i :: 0 <= i < |sets| && i != Slot(lay, addr) ==> Touch(sets, lay, g.assoc, addr)[i] == sets[i]
  {
    var s := Slot(lay, addr);
    AllValidAt(sets, g.assoc);
    Lru.AccessKeepsValid(sets[s], LineTag(lay, addr), g.assoc, true);
    AllValidAt(Touch(sets, lay, g.assoc, addr), g.assoc);
  }

  /**
   * Spatial locality: once `a1` has been brought in, every address of the same block hits.
   * This needs the set/tag split to be exact, so it holds for enabled well-formed levels.
   */
  lemma SameBlockHitsAfterTouch(g: Geometry, lay: Layout, sets: seq<seq<nat>>, a1: nat, a2: nat)
    requires SetsFit(g, lay, sets) && g.sets > 0
    requires Block(a1, lay.offsetBits) == Block(a2, lay.offsetBits)
    ensures Resident(Touch(sets, lay, g.assoc, a1), lay, a2)
  {
    LayoutSplitsAddress(g);
    SameBlockIffSameSetAndTag(a1, a2, lay.offsetBits, lay.indexBits);
    TouchKeepsFit(g, lay, sets, a1);
  }

  /** One level's contents and statistics counters. */
  datatype Level = Level(sets: seq<seq<nat>>, refs: nat, misses: nat, penalties: nat)

  /** The counters of a level never record more misses than references. */
  predicate Counted(lv: Level)
  {
    lv.misses <= lv.refs
  }

  /** A level's sets fit its configuration and its counters are consistent. */
  ghost predicate LevelOk(g: Geometry, lay: Layout, lv: Level)
  {
    SetsFit(g, lay, lv.sets) && Counted(lv)
  }

  /**
   * A level after it has served a real access to `addr`: one more reference; one more miss
   * and `penalty` more penalty when the block was not resident; the block allocated.
   */
  ghost function Serve(g: Geometry, lay: Layout, lv: Level, addr: nat, penalty: nat): Level
    requires SetsFit(g, lay, lv.sets) && g.sets > 0
  {
    var hit := Resident(lv.sets, lay, addr);
    Level(Touch(lv.sets, lay, g.assoc, addr), lv.refs + 1,
          lv.misses + (if hit then 0 else 1), lv.penalties + (if hit then 0 else penalty))
  }

  /**
   * Serving an access keeps the level fitting and counted, adds one reference, adds a miss
   * exactly when the block was absent, and leaves the block resident.
   */
  lemma ServeKeepsLevel(g: Geometry, lay: Layout, lv: Level, addr: nat, penalty: nat)
    requires LevelOk(g, lay, lv) && g.sets > 0
    ensures var r := Serve(g, lay, lv, addr, penalty);
      && LevelOk(g, lay, r)
      && r.refs == lv.refs + 1
      && r.misses == lv.misses + ColdMisses(lv.sets, lay, addr) + OtherMisses(lv.sets, lay, addr)
      && Resident(r.sets, lay, addr)
  {
    TouchKeepsFit(g, lay, lv.sets, addr);
    MissClassifiedOnce(lv.sets, lay, addr);
  }

  /** Latency of a real access at the second level: memory alone when it is disabled. */
  ghost function L2Latency(g: Geometry, lay: Layout, memspeed: uint32, sets: seq<seq<nat>>, addr: nat): uint32
  {
    if g.sets == 0 then memspeed
    else if Resident(sets, lay, addr) then g.hitTime
    else Add32(memspeed, g.hitTime)
  }

  /** The second level after a real access: untouched when disabled. */
  ghost function L2After(g: Geometry, lay: Layout, memspeed: uint32, lv: Level, addr: nat): Level
    requires SetsFit(g, lay, lv.sets)
  {
    if g.sets == 0 then lv else Serve(g, lay, lv, addr, memspeed)
  }

  /** A first-level access goes on to the second level when the first level is disabled or misses. */
  ghost predicate ReachesL2(g: Geometry, lay: Layout, sets: seq<seq<nat>>, addr: nat)
  {
    g.sets == 0 || !Resident(sets, lay, addr)
  }

  /** Latency of a first-level access, given what the second level would take. */
  ghost function L1Latency(g: Geometry, lay: Layout, sets: seq<seq<nat>>, addr: nat, l2Time: uint32): uint32
  {
    if g.sets == 0 then l2Time
    else if Resident(sets, lay, addr) then g.hitTime
    else Add32(l2Time, g.hitTime)
  }

  /** The first level after a real access whose second-level part takes `l2Time`. */
  ghost function L1After(g: Geometry, lay: Layout, lv: Level, addr: nat, l2Time: uint32): Level
    requires SetsFit(g, lay, lv.sets)
  {
    if g.sets == 0 then lv else Serve(g, lay, lv, addr, l2Time)
  }

  class Hierarchy {
    const icacheConfig: Geometry
    const dcacheConfig: Geometry
    const l2cacheConfig: Geometry
    const memspeed: uint32

    const icacheLayout: Layout
    const dcacheLayout: Layout
    const l2cacheLayout: Layout

    /** The sets of each level, each set's tags most recently used first. */
    const icache: array<seq<nat>>
    const dcache: array<seq<nat>>
    const l2cache: array<seq<nat>>

    var icacheRefs: nat
    var icacheMisses: nat
    var icachePenalties: nat
    var dcacheRefs: nat
    var dcacheMisses: nat
    var dcachePenalties: nat
    var l2cacheRefs: nat
    var l2cacheMisses: nat
    var l2cachePenalties: nat
    /** Misses on an empty set, at any level. */
    var compulsoryMiss: nat
    /** Misses on a non-empty set, at any level. */
    var otherMiss: nat

    ghost function ILevel(): Level
      reads this`icacheRefs, this`icacheMisses, this`icachePenalties, icache
    {
      Level(icache[..], icacheRefs, icacheMisses, icachePenalties)
    }

    ghost function DLevel(): Level
      reads this`dcacheRefs, this`dcacheMisses, this`dcachePenalties, dcache
    {
      Level(dcache[..], dcacheRefs, dcacheMisses, dcachePenalties)
    }

    ghost function L2Level(): Level
      reads this`l2cacheRefs, this`l2cacheMisses, this`l2cachePenalties, l2cache
    {
      Level(l2cache[..], l2cacheRefs, l2cacheMisses, l2cachePenalties)
    }

    ghost predicate IValid()
      reads this`icacheRefs, this`icacheMisses, this`icachePenalties, icache
    {
      LevelOk(icacheConfig, icacheLayout, ILevel())
    }

    ghost predicate DValid()
      reads this`dcacheRefs, this`dcacheMisses, this`dcachePenalties, dcache
    {
      LevelOk(dcacheConfig, dcacheLayout, DLevel())
    }

    ghost predicate L2Valid()
      reads this`l2cacheRefs, this`l2cacheMisses, this`l2cachePenalties, l2cache
    {
      LevelOk(l2cacheConfig, l2cacheLayout, L2Level())
    }

    ghost predicate Valid()
      reads this, icache, dcache, l2cache
    {
      && icache != dcache && icache != l2cache && dcache != l2cache
      && IValid() && DValid() && L2Valid()
      // every real miss, at whichever level, is classified exactly once
      && compulsoryMiss + otherMiss == icacheMisses + dcacheMisses + l2cacheMisses
    }

    /** `init_cache`: derive each level's layout, zero the statistics, allocate empty sets. */
    constructor (icacheConfig: Geometry, dcacheConfig: Geometry, l2cacheConfig: Geometry, memspeed: uint32)
      requires WellFormed(icacheConfig) && WellFormed(dcacheConfig) && WellFormed(l2cacheConfig)
      ensures Valid()
      ensures this.icacheConfig == icacheConfig && this.dcacheConfig == dcacheConfig
      ensures this.l2cacheConfig == l2cacheConfig && this.memspeed == memspeed
      ensures fresh(icache) && fresh(dcache) && fresh(l2cache)
      ensures ILevel() == Level(seq(icacheConfig.sets, _ => []), 0, 0, 0)
      ensures DLevel() == Level(seq(dcacheConfig.sets, _ => []), 0, 0, 0)
      ensures L2Level() == Level(seq(l2cacheConfig.sets, _ => []), 0, 0, 0)
      ensures compulsoryMiss == 0 && otherMiss == 0
    {
      this.icacheConfig := icacheConfig;
      this.dcacheConfig := dcacheConfig;
      this.l2cacheConfig := l2cacheConfig;
      this.memspeed := memspeed;
      var iLayout, iSets := NewLevel(icacheConfig);
      var dLayout, dSets := NewLevel(dcacheConfig);
      var l2Layout, l2Sets := NewLevel(l2cacheConfig);
      icacheLayout, icache := iLayout, iSets;
      dcacheLayout, dcache := dLayout, dSets;
      l2cacheLayout, l2cache := l2Layout, l2Sets;
      icacheRefs, icacheMisses, icachePenalties := 0, 0, 0;
      dcacheRefs, dcacheMisses, dcachePenalties := 0, 0, 0;
      l2cacheRefs, l2cacheMisses, l2cachePenalties := 0, 0, 0;
      compulsoryMiss, otherMiss := 0, 0;
    }

    /**
     * `access_cache`: decode `addr`, scan its set for the tag, promote it on a hit; on a miss
     * classify it (unless it is a prefetch) and, when `update`, evict the last line of a full
     * set and insert the tag first.
     */
    method AccessCache(addr: uint32, cache: array<seq<nat>>, indexMask: uint32, indexBit: nat,
                       assoc: uint32, blockOffsetBit: nat, update: bool, pre: bool)
      returns (hit: bool)
      requires cache.Length == indexMask + 1 && assoc >= 1
      modifies cache, this`compulsoryMiss, this`otherMiss
      ensures var index := SetIndex(addr, blockOffsetBit, indexMask);
        var before := old(cache[index]);
        var probe := Lru.Access(before, Tag(addr, blockOffsetBit, indexBit), assoc, update);
        && hit == probe.hit
        && cache[..] == old(cache[..])[index := probe.lines]
        && compulsoryMiss == old(compulsoryMiss) + (if !hit && !pre && before == [] then 1 else 0)
        && otherMiss == old(otherMiss) + (if !hit && !pre && before != [] then 1 else 0)
    {
      var index := SetIndex(addr, blockOffsetBit, indexMask);
      var tag := Tag(addr, blockOffsetBit, indexBit);
      var lines := cache[index];
      var cnt := 0;
      while cnt < |lines| && lines[cnt] != tag
        invariant 0 <= cnt <= |lines|
        invariant forall k :: 0 <= k < cnt ==> lines[k] != tag
      {
        cnt := cnt + 1;
      }
      if cnt < |lines| {
        assert Lru.FirstAt(lines, tag, cnt);
        Lru.RemoveFirstAt(lines, tag, cnt);
        cache[index] := [tag] + (lines[..cnt] + lines[cnt + 1..]);
        return true;
      }
      assert tag !in lines;
      if !pre {
        if cnt == 0 {
          compulsoryMiss := compulsoryMiss + 1;
        } else {
          otherMiss := otherMiss + 1;
        }
      }
      if !update {
        return false;
      }
      var kept := lines;
      if cnt == assoc {
        kept := lines[..cnt - 1];
      }
      cache[index] := [tag] + kept;
      return false;
    }

    /** Probe a level's set for `addr`, allocating on a miss, keeping that level fitting. */
    method ProbeLevel(addr: uint32, g: Geometry, lay: Layout, cache: array<seq<nat>>, pre: bool)
      returns (hit: bool)
      requires SetsFit(g, lay, cache[..]) && g.sets > 0
      modifies cache, this`compulsoryMiss, this`otherMiss
      ensures hit == old(Resident(cache[..], lay, addr))
      ensures cache[..] == Touch(old(cache[..]), lay, g.assoc, addr)
      ensures compulsoryMiss == old(compulsoryMiss) + (if pre then 0 else old(ColdMisses(cache[..], lay, addr)))
      ensures otherMiss == old(otherMiss) + (if pre then 0 else old(OtherMisses(cache[..], lay, addr)))
      ensures compulsoryMiss + otherMiss == old(compulsoryMiss + otherMiss) + (if hit || pre then 0 else 1)
    {
      MissClassifiedOnce(cache[..], lay, addr);
      hit := AccessCache(addr, cache, lay.indexMask, lay.indexBits, g.assoc, lay.offsetBits, true, pre);
    }

    /**
     * `l2cache_access`: a disabled level costs `memspeed` and records nothing; otherwise count
     * the reference and return the hit time, or on a miss count it, charge `memspeed` as
     * penalty and return `memspeed` plus the hit time.
     */
    method L2CacheAccess(addr: uint32) returns (time: uint32)
      requires L2Valid()
      modifies l2cache, this`l2cacheRefs, this`l2cacheMisses, this`l2cachePenalties
      modifies this`compulsoryMiss, this`otherMiss
      ensures L2Valid()
      ensures time == L2Latency(l2cacheConfig, l2cacheLayout, memspeed, old(l2cache[..]), addr)
      ensures L2Level() == L2After(l2cacheConfig, l2cacheLayout, memspeed, old(L2Level()), addr)
      ensures compulsoryMiss == old(compulsoryMiss) + ColdMisses(old(l2cache[..]), l2cacheLayout, addr)
      ensures otherMiss == old(otherMiss) + OtherMisses(old(l2cache[..]), l2cacheLayout, addr)
      ensures compulsoryMiss + otherMiss + old(l2cacheMisses) == old(compulsoryMiss + otherMiss) + l2cacheMisses
    {
      if l2cacheConfig.sets == 0 {
        return memspeed;
      }
      ghost var before := L2Level();
      ServeKeepsLevel(l2cacheConfig, l2cacheLayout, before, addr, memspeed);
      l2cacheRefs := l2cacheRefs + 1;
      var hit := ProbeLevel(addr, l2cacheConfig, l2cacheLayout, l2cache, false);
      if hit {
        time := l2cacheConfig.hitTime;
      } else {
        l2cacheMisses := l2cacheMisses + 1;
        l2cachePenalties := l2cachePenalties + memspeed;
        time := Add32(memspeed, l2cacheConfig.hitTime);
      }
    }

    /**
     * `icache_access`: a disabled I$ forwards to the second level and records nothing;
     * otherwise count the reference and probe; a hit costs the hit time, a miss goes on to
     * `ICacheMiss`.
     */
    method ICacheAccess(addr: uint32) returns (time: uint32)
      requires Valid()
      modifies icache, this`icacheRefs, this`icacheMisses, this`icachePenalties
      modifies l2cache, this`l2cacheRefs, this`l2cacheMisses, this`l2cachePenalties
      modifies this`compulsoryMiss, this`otherMiss
      ensures Valid()
      ensures var l2Time := L2Latency(l2cacheConfig, l2cacheLayout, memspeed, old(l2cache[..]), addr);
        && time == L1Latency(icacheConfig, icacheLayout, old(icache[..]), addr, l2Time)
        && ILevel() == L1After(icacheConfig, icacheLayout, old(ILevel()), addr, l2Time)
      ensures var reaches := ReachesL2(icacheConfig, icacheLayout, old(icache[..]), addr);
        && L2Level() == (if reaches then L2After(l2cacheConfig, l2cacheLayout, memspeed, old(L2Level()), addr)
                         else old(L2Level()))
        && compulsoryMiss == old(compulsoryMiss) + ColdMisses(old(icache[..]), icacheLayout, addr)
             + (if reaches then ColdMisses(old(l2cache[..]), l2cacheLayout, addr) else 0)
        && otherMiss == old(otherMiss) + OtherMisses(old(icache[..]), icacheLayout, addr)
             + (if reaches then OtherMisses(old(l2cache[..]), l2cacheLayout, addr) else 0)
    {
      if icacheConfig.sets == 0 {
        time := L2CacheAccess(addr);
      } else {
        time := ICacheProbe(addr);
      }
    }

    /** The enabled case of `icache_access`: count the reference, probe, and serve a miss from the second level. */
    method ICacheProbe(addr: uint32) returns (time: uint32)
      requires Valid() && icacheConfig.sets > 0
      modifies icache, this`icacheRefs, this`icacheMisses, this`icachePenalties
      modifies l2cache, this`l2cacheRefs, this`l2cacheMisses, this`l2cachePenalties
      modifies this`compulsoryMiss, this`otherMiss
      ensures Valid()
      ensures var l2Time := L2Latency(l2cacheConfig, l2cacheLayout, memspeed, old(l2cache[..]), addr);
        && time == L1Latency(icacheConfig, icacheLayout, old(icache[..]), addr, l2Time)
        && ILevel() == L1After(icacheConfig, icacheLayout, old(ILevel()), addr, l2Time)
      ensures var reaches := ReachesL2(icacheConfig, icacheLayout, old(icache[..]), addr);
        && L2Level() == (if reaches then L2After(l2cacheConfig, l2cacheLayout, memspeed, old(L2Level()), addr)
                         else old(L2Level()))
        && compulsoryMiss == old(compulsoryMiss) + ColdMisses(old(icache[..]), icacheLayout, addr)
             + (if reaches then ColdMisses(old(l2cache[..]), l2cacheLayout, addr) else 0)
        && otherMiss == old(otherMiss) + OtherMisses(old(icache[..]), icacheLayout, addr)
             + (if reaches then OtherMisses(old(l2cache[..]), l2cacheLayout, addr) else 0)
    {
      ghost var before := ILevel();
      icacheRefs := icacheRefs + 1;
      var hit := ProbeLevel(addr, icacheConfig, icacheLayout, icache, false);
      // only the sets, refs and misses of `Serve` are used here; the penalty is added on the miss path
      ServeKeepsLevel(icacheConfig, icacheLayout, before, addr, 0);
      if hit {
        time := icacheConfig.hitTime;
      } else {
        time := ICacheMiss(addr);
      }
    }

    /**
     * The miss path of `icache_access`, entered after the probe has allocated the block
     * and classified the miss: count it, fetch from the second level, charge that latency
     * as penalty and add the hit time.
     */
    method ICacheMiss(addr: uint32) returns (time: uint32)
      requires icacheConfig.sets > 0 && SetsFit(icacheConfig, icacheLayout, icache[..])
      requires icacheMisses < icacheRefs
      requires icache != dcache && icache != l2cache && dcache != l2cache
      requires DValid() && L2Valid()
      requires compulsoryMiss + otherMiss == icacheMisses + dcacheMisses + l2cacheMisses + 1
      modifies this`icacheMisses, this`icachePenalties
      modifies l2cache, this`l2cacheRefs, this`l2cacheMisses, this`l2cachePenalties
      modifies this`compulsoryMiss, this`otherMiss
      ensures Valid()
      ensures var l2Time := L2Latency(l2cacheConfig, l2cacheLayout, memspeed, old(l2cache[..]), addr);
        && time == Add32(l2Time, icacheConfig.hitTime)
        && icacheMisses == old(icacheMisses) + 1
        && icachePenalties == old(icachePenalties) + l2Time
      ensures L2Level() == L2After(l2cacheConfig, l2cacheLayout, memspeed, old(L2Level()), addr)
      ensures compulsoryMiss == old(compulsoryMiss) + ColdMisses(old(l2cache[..]), l2cacheLayout, addr)
      ensures otherMiss == old(otherMiss) + OtherMisses(old(l2cache[..]), l2cacheLayout, addr)
    {
      icacheMisses := icacheMisses + 1;
      var accessTime := L2CacheAccess(addr);
      icachePenalties := icachePenalties + accessTime;
      time := Add32(accessTime, icacheConfig.hitTime);
    }

    /**
     * `dcache_access`: a disabled D$ forwards to the second level and records nothing;
     * otherwise count the reference and probe; a hit costs the hit time, a miss goes on to
     * `DCacheMiss`.
     */
    method DCacheAccess(addr: uint32) returns (time: uint32)
      requires Valid()
      modifies dcache, this`dcacheRefs, this`dcacheMisses, this`dcachePenalties
      modifies l2cache, this`l2cacheRefs, this`l2cacheMisses, this`l2cachePenalties
      modifies this`compulsoryMiss, this`otherMiss
      ensures Valid()
      ensures var l2Time := L2Latency(l2cacheConfig, l2cacheLayout, memspeed, old(l2cache[..]), addr);
        && time == L1Latency(dcacheConfig, dcacheLayout, old(dcache[..]), addr, l2Time)
        && DLevel() == L1After(dcacheConfig, dcacheLayout, old(DLevel()), addr, l2Time)
      ensures var reaches := ReachesL2(dcacheConfig, dcacheLayout, old(dcache[..]), addr);
        && L2Level() == (if reaches then L2After(l2cacheConfig, l2cacheLayout, memspeed, old(L2Level()), addr)
                         else old(L2Level()))
        && compulsoryMiss == old(compulsoryMiss) + ColdMisses(old(dcache[..]), dcacheLayout, addr)
             + (if reaches then ColdMisses(old(l2cache[..]), l2cacheLayout, addr) else 0)
        && otherMiss == old(otherMiss) + OtherMisses(old(dcache[..]), dcacheLayout, addr)
             + (if reaches then OtherMisses(old(l2cache[..]), l2cacheLayout, addr) else 0)
    {
      if dcacheConfig.sets == 0 {
        time := L2CacheAccess(addr);
      } else {
        time := DCacheProbe(addr);
      }
    }

    /** The enabled case of `dcache_access`: count the reference, probe, and serve a miss from the second level. */
    method DCacheProbe(addr: uint32) returns (time: uint32)
      requires Valid() && dcacheConfig.sets > 0
      modifies dcache, this`dcacheRefs, this`dcacheMisses, this`dcachePenalties
      modifies l2cache, this`l2cacheRefs, this`l2cacheMisses, this`l2cachePenalties
      modifies this`compulsoryMiss, this`otherMiss
      ensures Valid()
      ensures var l2Time := L2Latency(l2cacheConfig, l2cacheLayout, memspeed, old(l2cache[..]), addr);
        && time == L1Latency(dcacheConfig, dcacheLayout, old(dcache[..]), addr, l2Time)
        && DLevel() == L1After(dcacheConfig, dcacheLayout, old(DLevel()), addr, l2Time)
      ensures var reaches := ReachesL2(dcacheConfig, dcacheLayout, old(dcache[..]), addr);
        && L2Level() == (if reaches then L2After(l2cacheConfig, l2cacheLayout, memspeed, old(L2Level()), addr)
                         else old(L2Level()))
        && compulsoryMiss == old(compulsoryMiss) + ColdMisses(old(dcache[..]), dcacheLayout, addr)
             + (if reaches then ColdMisses(old(l2cache[..]), l2cacheLayout, addr) else 0)
        && otherMiss == old(otherMiss) + OtherMisses(old(dcache[..]), dcacheLayout, addr)
             + (if reaches then OtherMisses(old(l2cache[..]), l2cacheLayout, addr) else 0)
    {
      ghost var before := DLevel();
      dcacheRefs := dcacheRefs + 1;
      var hit := ProbeLevel(addr, dcacheConfig, dcacheLayout, dcache, false);
      // only the sets, refs and misses of `Serve` are used here; the penalty is added on the miss path
      ServeKeepsLevel(dcacheConfig, dcacheLayout, before, addr, 0);
      if hit {
        time := dcacheConfig.hitTime;
      } else {
        time := DCacheMiss(addr);
      }
    }

    /**
     * The miss path of `dcache_access`, entered after the probe has allocated the block
     * and classified the miss: count it, fetch from the second level, charge that latency
     * as penalty and add the hit time.
     */
    method DCacheMiss(addr: uint32) returns (time: uint32)
      requires dcacheConfig.sets > 0 && SetsFit(dcacheConfig, dcacheLayout, dcache[..])
      requires dcacheMisses < dcacheRefs
      requires icache != dcache && icache != l2cache && dcache != l2cache
      requires IValid() && L2Valid()
      requires compulsoryMiss + otherMiss == icacheMisses + dcacheMisses + l2cacheMisses + 1
      modifies this`dcacheMisses, this`dcachePenalties
      modifies l2cache, this`l2cacheRefs, this`l2cacheMisses, this`l2cachePenalties
      modifies this`compulsoryMiss, this`otherMiss
      ensures Valid()
      ensures var l2Time := L2Latency(l2cacheConfig, l2cacheLayout, memspeed, old(l2cache[..]), addr);
        && time == Add32(l2Time, dcacheConfig.hitTime)
        && dcacheMisses == old(dcacheMisses) + 1
        && dcachePenalties == old(dcachePenalties) + l2Time
      ensures L2Level() == L2After(l2cacheConfig, l2cacheLayout, memspeed, old(L2Level()), addr)
      ensures compulsoryMiss == old(compulsoryMiss) + ColdMisses(old(l2cache[..]), l2cacheLayout, addr)
      ensures otherMiss == old(otherMiss) + OtherMisses(old(l2cache[..]), l2cacheLayout, addr)
    {
      dcacheMisses := dcacheMisses + 1;
      var accessTime := L2CacheAccess(addr);
      dcachePenalties := dcachePenalties + accessTime;
      time := Add32(accessTime, dcacheConfig.hitTime);
    }

    /** `icache_prefetch_addr`: next-line prediction, one I$ block past `addr`; `pc` and `rOrW` are unused. */
    function ICachePrefetchAddr(pc: uint32, addr: uint32, rOrW: char): (next: uint32)
      ensures next == (addr + icacheConfig.blockSize) % Word
      ensures WellFormed(icacheConfig) && icacheConfig.sets > 0
              && Log2(icacheConfig.sets) + Log2(icacheConfig.blockSize) <= 32
              ==> var lay := LayoutOf(icacheConfig);
                  Slot(lay, next) == Succ(Slot(lay, addr), icacheConfig.sets)
    {
      NextLinePrefetchAddr(icacheConfig, addr)
    }

    /** `dcache_prefetch_addr`: next-line prediction, one D$ block past `addr`; `pc` and `rOrW` are unused. */
    function DCachePrefetchAddr(pc: uint32, addr: uint32, rOrW: char): (next: uint32)
      ensures next == (addr + dcacheConfig.blockSize) % Word
      ensures WellFormed(dcacheConfig) && dcacheConfig.sets > 0
              && Log2(dcacheConfig.sets) + Log2(dcacheConfig.blockSize) <= 32
              ==> var lay := LayoutOf(dcacheConfig);
                  Slot(lay, next) == Succ(Slot(lay, addr), dcacheConfig.sets)
    {
      NextLinePrefetchAddr(dcacheConfig, addr)
    }

    /** `icache_prefetch`: bring `addr` into the I$ only, recording no statistics; nothing when disabled. */
    method ICachePrefetch(addr: uint32)
      requires Valid()
      modifies icache, this`compulsoryMiss, this`otherMiss
      ensures Valid()
      ensures icacheConfig.sets == 0 ==> icache[..] == old(icache[..])
      ensures icacheConfig.sets > 0 ==> icache[..] == Touch(old(icache[..]), icacheLayout, icacheConfig.assoc, addr)
      ensures compulsoryMiss == old(compulsoryMiss) && otherMiss == old(otherMiss)
    {
      if icacheConfig.sets == 0 {
        return;
      }
      TouchKeepsFit(icacheConfig, icacheLayout, icache[..], addr);
      var _ := ProbeLevel(addr, icacheConfig, icacheLayout, icache, true);
    }

    /** `dcache_prefetch`: bring `addr` into the D$ only, recording no statistics; nothing when disabled. */
    method DCachePrefetch(addr: uint32)
      requires Valid()
      modifies dcache, this`compulsoryMiss, this`otherMiss
      ensures Valid()
      ensures dcacheConfig.sets == 0 ==> dcache[..] == old(dcache[..])
      ensures dcacheConfig.sets > 0 ==> dcache[..] == Touch(old(dcache[..]), dcacheLayout, dcacheConfig.assoc, addr)
      ensures compulsoryMiss == old(compulsoryMiss) && otherMiss == old(otherMiss)
    {
      if dcacheConfig.sets == 0 {
        return;
      }
      TouchKeepsFit(dcacheConfig, dcacheLayout, dcache[..], addr);
      var _ := ProbeLevel(addr, dcacheConfig, dcacheLayout, dcache, true);
    }
  }

  /**
   * One level's part of `init_cache`: the index mask is `sets - 1`, the index and offset
   * widths are the msb indices of the set count and the block size, and every set starts empty.
   */
  method NewLevel(g: Geometry) returns (lay: Layout, sets: array<seq<nat>>)
    requires WellFormed(g)
    ensures fresh(sets)
    ensures lay == LayoutOf(g) && sets[..] == seq(g.sets, _ => [])
    ensures SetsFit(g, lay, sets[..])
  {
    var indexBit := MsbIndex(g.sets);
    var offsetBit := MsbIndex(g.blockSize);
    lay := Layout(IndexMask(g.sets), indexBit, offsetBit);
    sets := new seq<nat>[g.sets](_ => []);
    EmptySetsFit(g, lay, sets[..]);
  }

  /** Freshly allocated, all-empty sets fit a well-formed configuration. */
  lemma EmptySetsFit(g: Geometry, lay: Layout, sets: seq<seq<nat>>)
    requires WellFormed(g) && lay == LayoutOf(g) && |sets| == g.sets
    requires forall i :: 0 <= i < |sets| ==> sets[i] == []
    ensures SetsFit(g, lay, sets)
    ensures sets == seq(g.sets, _ => [])
  {
    AllValidAt(sets, g.assoc);
  }

  /** The address one block of level `g` past `addr`, wrapping at 2^32. */
  function NextLinePrefetchAddr(g: Geometry, addr: uint32): (next: uint32)
    ensures next == (addr + g.blockSize) % Word
    ensures WellFormed(g) && g.sets > 0 && Log2(g.sets) + Log2(g.blockSize) <= 32
            ==> var lay := LayoutOf(g);
                Slot(lay, next) == Succ(Slot(lay, addr), g.sets)
  {
    var next := Add32(addr, g.blockSize);
    Add32IsModular(addr, g.blockSize);
    if WellFormed(g) && g.sets > 0 && Log2(g.sets) + Log2(g.blockSize) <= 32 then
      LayoutSplitsAddress(g);
      NextLineMapsToNextSet(addr, Log2(g.blockSize), Log2(g.sets));
      next
    else
      next
  }
}
