/**
 * Worked examples of the hierarchy's behaviour on a small configuration:
 * an I$ of 4 sets, one line per set, 16-byte blocks and a hit time of 1,
 * with the second level disabled and a memory latency of 100.
 */
module Scenarios {
  import opened Bits
  import opened Decode
  import opened Cache

  /** The I$ of the examples: 4 sets, direct-mapped, 16-byte blocks, hit time 1. */
  function SmallICache(): (g: Geometry)
    ensures WellFormed(g) && g.sets > 0
  {
    assert IsPow2(4) && IsPow2(16);
    Geometry(4, 1, 16, 1)
  }

  /** Addresses 0 and 64 both fall in set 0 of the small I$, with tags 0 and 1. */
  lemma SmallICacheDecode()
    ensures var lay := LayoutOf(SmallICache());
      && lay == Layout(3, 2, 4)
      && Slot(lay, 0) == 0 && LineTag(lay, 0) == 0
      && Slot(lay, 64) == 0 && LineTag(lay, 64) == 1
  {
    var lay := LayoutOf(SmallICache());
    assert Log2(4) == 2 && Log2(16) == 4;
    assert Shr(64, 4) == 4 && BitAnd(4, 3) == 0;
    assert Shr(64, 6) == 1;
  }

  /**
   * A first access to address 0 misses on an empty set: it is compulsory, costs memory
   * plus the hit time (101 cycles), and counts one reference and one miss. Repeating it
   * hits: 1 cycle, two references, still one miss.
   */
  lemma ColdMissThenHit(l2: Geometry, lv: Level)
    requires l2.sets == 0 && lv == Level(seq(4, _ => []), 0, 0, 0)
    ensures SetsFit(SmallICache(), LayoutOf(SmallICache()), lv.sets)
    ensures var g, lay := SmallICache(), LayoutOf(SmallICache());
      var mem := L2Latency(l2, LayoutOf(l2), 100, [], 0);
      var after := L1After(g, lay, lv, 0, mem);
      && ColdMisses(lv.sets, lay, 0) == 1 && OtherMisses(lv.sets, lay, 0) == 0
      && L1Latency(g, lay, lv.sets, 0, mem) == 101
      && after.refs == 1 && after.misses == 1 && after.penalties == 100
      && SetsFit(g, lay, after.sets)
      && L1Latency(g, lay, after.sets, 0, mem) == 1
      && L1After(g, lay, after, 0, mem).refs == 2
      && L1After(g, lay, after, 0, mem).misses == 1
  {
    var g, lay := SmallICache(), LayoutOf(SmallICache());
    SmallICacheDecode();
    EmptySetsFit(g, lay, lv.sets);
    assert !Resident(lv.sets, lay, 0);
    Add32IsModular(100, 1);
    TouchKeepsFit(g, lay, lv.sets, 0);
  }

  /**
   * Addresses 0, 64 and 0 again on the direct-mapped small I$: 0 misses compulsorily;
   * 64 maps to the same, now non-empty, set and so counts as an "other" miss and evicts 0;
   * the third access misses again, also as an "other" miss.
   */
  lemma ConflictEviction(sets: seq<seq<nat>>)
    requires sets == seq(4, _ => [])
    ensures SetsFit(SmallICache(), LayoutOf(SmallICache()), sets)
    ensures var g, lay := SmallICache(), LayoutOf(SmallICache());
      var s1 := Touch(sets, lay, g.assoc, 0);
      var s2 := Touch(s1, lay, g.assoc, 64);
      && ColdMisses(sets, lay, 0) == 1
      && s1[0] == [0]
      && !Resident(s1, lay, 64) && OtherMisses(s1, lay, 64) == 1 && ColdMisses(s1, lay, 64) == 0
      && s2[0] == [1]
      && !Resident(s2, lay, 0) && OtherMisses(s2, lay, 0) == 1
  {
    var g, lay := SmallICache(), LayoutOf(SmallICache());
    SmallICacheDecode();
    EmptySetsFit(g, lay, sets);
    var s1 := Touch(sets, lay, g.assoc, 0);
    assert s1[0] == [0];
    var s2 := Touch(s1, lay, g.assoc, 64);
    assert s2[0] == [1];
  }
}
