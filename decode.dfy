/**
 * Splitting a 32-bit address into a set index and a tag, as `access_cache` does
 * before it scans a set: the low `offsetBits` bits select a byte inside the block,
 * the next `indexBits` bits (through `indexMask`) select the set, and the rest is the tag.
 */
module Decode {
  import opened Bits

  /** `(addr >> block_offset_bit) & index_mask`: never above the mask, so in range of `mask + 1` sets. */
  function SetIndex(addr: nat, offsetBits: nat, indexMask: nat): (index: nat)
    ensures index <= indexMask
  {
    BitAnd(Shr(addr, offsetBits), indexMask)
  }

  /** `addr >> (block_offset_bit + index_bit)`: the tag never exceeds the address it came from. */
  function Tag(addr: nat, offsetBits: nat, indexBits: nat): (tag: nat)
    ensures tag <= addr
  {
    Shr(addr, offsetBits + indexBits)
  }

  /** The number of the block holding `addr`. */
  function Block(addr: nat, offsetBits: nat): nat
  {
    Shr(addr, offsetBits)
  }

  /** With a mask of 2^ib - 1 the set index is the low `ib` bits of the block number. */
  lemma IndexIsLowBitsOfBlock(addr: nat, offsetBits: nat, indexBits: nat)
    ensures SetIndex(addr, offsetBits, Pow2(indexBits) - 1) == LowBits(Block(addr, offsetBits), indexBits)
  {
    BitAndLowMask(Shr(addr, offsetBits), indexBits);
  }

  /** The tag is the block number with its `ib` index bits shifted out. */
  lemma TagIsHighBitsOfBlock(addr: nat, offsetBits: nat, indexBits: nat)
    ensures Tag(addr, offsetBits, indexBits) == Shr(Block(addr, offsetBits), indexBits)
  {
    ShrShr(addr, offsetBits, indexBits);
  }

  /** Index and tag together recompose the block number: decoding loses only the byte offset. */
  lemma DecodeRoundTrip(addr: nat, offsetBits: nat, indexBits: nat)
    ensures Tag(addr, offsetBits, indexBits) * Pow2(indexBits)
            + SetIndex(addr, offsetBits, Pow2(indexBits) - 1)
            == Block(addr, offsetBits)
  {
    IndexIsLowBitsOfBlock(addr, offsetBits, indexBits);
    TagIsHighBitsOfBlock(addr, offsetBits, indexBits);
    ShrLowBitsRoundTrip(Block(addr, offsetBits), indexBits);
  }

  /** Two addresses get the same set and the same tag exactly when they lie in the same block. */
  lemma SameBlockIffSameSetAndTag(a1: nat, a2: nat, offsetBits: nat, indexBits: nat)
    ensures Block(a1, offsetBits) == Block(a2, offsetBits)
            <==> (SetIndex(a1, offsetBits, Pow2(indexBits) - 1) == SetIndex(a2, offsetBits, Pow2(indexBits) - 1)
                  && Tag(a1, offsetBits, indexBits) == Tag(a2, offsetBits, indexBits))
  {
    DecodeRoundTrip(a1, offsetBits, indexBits);
    DecodeRoundTrip(a2, offsetBits, indexBits);
    IndexIsLowBitsOfBlock(a1, offsetBits, indexBits);
    IndexIsLowBitsOfBlock(a2, offsetBits, indexBits);
    TagIsHighBitsOfBlock(a1, offsetBits, indexBits);
    TagIsHighBitsOfBlock(a2, offsetBits, indexBits);
  }

  /** In a 32-bit word, adding 2^o (carry dropped) adds one to the block number as far as the low `ib` bits go. */
  lemma NextBlockLowBits(x: uint32, o: nat, ib: nat)
    requires o + ib <= 32 && Pow2(o) < Word
    ensures LowBits(Shr(Add32(x, Pow2(o)), o), ib) == LowBits(Shr(x, o) + 1, ib)
  {
    var y := Shr(x, o);
    ShrAddPow2(x, o);
    if x + Pow2(o) >= Word {
      Pow2Is32BitWord();
      ShrSubPow2(x + Pow2(o), 32, o);
      LowBitsSubPow2(y + 1, 32 - o, ib);
    }
  }

  /** The set index of the next-line address is the low bits of the block number plus one. */
  lemma NextLineIndex(addr: uint32, offsetBits: nat, indexBits: nat)
    requires offsetBits + indexBits <= 32 && Pow2(offsetBits) < Word
    ensures SetIndex(Add32(addr, Pow2(offsetBits)), offsetBits, Pow2(indexBits) - 1)
            == LowBits(Shr(addr, offsetBits) + 1, indexBits)
  {
    NextBlockLowBits(addr, offsetBits, indexBits);
    IndexIsLowBitsOfBlock(Add32(addr, Pow2(offsetBits)), offsetBits, indexBits);
  }

  /**
   * Next-line prefetching: the address one block further on (with 32-bit wrap-around)
   * falls into the following set, cyclically, whenever sets times block size is at
   * most 2^32.
   */
  lemma NextLineMapsToNextSet(addr: uint32, offsetBits: nat, indexBits: nat)
    requires offsetBits + indexBits <= 32 && Pow2(offsetBits) < Word
    ensures SetIndex(Add32(addr, Pow2(offsetBits)), offsetBits, Pow2(indexBits) - 1)
            == Succ(SetIndex(addr, offsetBits, Pow2(indexBits) - 1), Pow2(indexBits))
  {
    NextLineIndex(addr, offsetBits, indexBits);
    NextBlockIndex(addr, offsetBits, indexBits);
  }

  /** The low index bits of the following block number are the cyclic successor of the set index. */
  lemma NextBlockIndex(addr: nat, offsetBits: nat, indexBits: nat)
    ensures LowBits(Shr(addr, offsetBits) + 1, indexBits)
            == Succ(SetIndex(addr, offsetBits, Pow2(indexBits) - 1), Pow2(indexBits))
  {
    LowBitsSucc(Shr(addr, offsetBits), indexBits);
    IndexIsLowBitsOfBlock(addr, offsetBits, indexBits);
  }
}
