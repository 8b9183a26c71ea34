/**
 * Unsigned 32-bit arithmetic used by the cache simulator, on unbounded naturals:
 * powers of two, logical right shift, bitwise AND and the most-significant-bit scan
 * (`get_msb_index`) that derives index and offset widths from the configuration.
 */
module Bits {

  /** 2^32: the number of distinct `uint32_t` values. */
  const Word: nat := 0x1_0000_0000

  type uint32 = x: int | 0 <= x < 0x1_0000_0000

  /** `a + b` on `uint32_t`: the carry out of bit 31 is dropped. */
  function Add32(a: uint32, b: uint32): uint32
  {
    if a + b < Word then a + b else a + b - Word
  }

  /** Dropping the carry is addition modulo 2^32. */
  lemma Add32IsModular(a: uint32, b: uint32)
    ensures Add32(a, b) == (a + b) % Word
  {
    if a + b < Word {
      DivModUnique(a + b, Word, 0, a + b);
    } else {
      DivModUnique(a + b, Word, 1, a + b - Word);
    }
  }

  function Pow2(k: nat): (r: nat)
    ensures r >= 1
  {
    if k == 0 then 1 else 2 * Pow2(k - 1)
  }

  lemma {:induction false} Pow2Add(a: nat, b: nat)
    ensures Pow2(a + b) == Pow2(a) * Pow2(b)
  {
    if b > 0 {
      Pow2Add(a, b - 1);
      calc {
        Pow2(a + b);
        2 * Pow2(a + b - 1);
        2 * (Pow2(a) * Pow2(b - 1));
        Pow2(a) * (2 * Pow2(b - 1));
        Pow2(a) * Pow2(b);
      }
    }
  }

  lemma Pow2Is32BitWord()
    ensures Pow2(32) == Word
  {
    assert Pow2(4) == 16;
    Pow2Add(4, 4);
    Pow2Add(8, 8);
    Pow2Add(16, 16);
  }

  /** `x >> k` on an unsigned value: `k` single-bit shifts. */
  function Shr(x: nat, k: nat): (r: nat)
    ensures r <= x
  {
    if k == 0 then x else Shr(x / 2, k - 1)
  }

  /** The `k` least significant bits of `x`, as a number. */
  function LowBits(x: nat, k: nat): (r: nat)
    ensures r < Pow2(k)
  {
    if k == 0 then 0 else 2 * LowBits(x / 2, k - 1) + x % 2
  }

  /** `a & b`, bit by bit from the least significant end. */
  function BitAnd(a: nat, b: nat): (r: nat)
    ensures r <= a && r <= b
    decreases a
  {
    if a == 0 || b == 0 then 0
    else 2 * BitAnd(a / 2, b / 2) + (if a % 2 == 1 && b % 2 == 1 then 1 else 0)
  }

  /** Shifting by `a` and then by `b` is shifting by `a + b`. */
  lemma {:induction false} ShrShr(x: nat, a: nat, b: nat)
    ensures Shr(Shr(x, a), b) == Shr(x, a + b)
  {
    if a > 0 {
      ShrShr(x / 2, a - 1, b);
    }
  }

  /** The bits shifted out and the bits kept make up the number again. */
  lemma {:induction false} ShrLowBitsRoundTrip(x: nat, k: nat)
    ensures Shr(x, k) * Pow2(k) + LowBits(x, k) == x
  {
    if k > 0 {
      ShrLowBitsRoundTrip(x / 2, k - 1);
      var hi, p, lo := Shr(x / 2, k - 1), Pow2(k - 1), LowBits(x / 2, k - 1);
      assert Shr(x, k) == hi && Pow2(k) == 2 * p && LowBits(x, k) == 2 * lo + x % 2;
      MulDouble(hi, p);
    }
  }

  /** So `x >> k` is division by 2^k and the low bits are the remainder. */
  lemma ShrIsDivision(x: nat, k: nat)
    ensures Shr(x, k) == x / Pow2(k) && LowBits(x, k) == x % Pow2(k)
  {
    ShrLowBitsRoundTrip(x, k);
    DivModUnique(x, Pow2(k), Shr(x, k), LowBits(x, k));
  }

  lemma MulDouble(a: int, b: int)
    ensures a * (2 * b) == 2 * (a * b)
  {
  }

  lemma MulMonotone(d: nat, a: int, b: int)
    ensures a <= b ==> d * a <= d * b
  {
  }

  /** Euclidean division has one quotient and one remainder. */
  lemma DivModUnique(x: int, d: nat, q: int, r: int)
    requires d >= 1
    requires x == q * d + r && 0 <= r < d
    ensures x / d == q && x % d == r
  {
    var q0, r0 := x / d, x % d;
    assert d * q0 + r0 == d * q + r;
    if q0 > q {
      MulMonotone(d, q + 1, q0);
      assert false;
    } else if q0 < q {
      MulMonotone(d, q0 + 1, q);
      assert false;
    }
  }

  /** Masking with 2^k - 1 keeps the k low bits. */
  lemma {:induction false} BitAndLowMask(x: nat, k: nat)
    ensures BitAnd(x, Pow2(k) - 1) == LowBits(x, k)
  {
    if k > 0 {
      var p := Pow2(k - 1);
      var m := Pow2(k) - 1;
      assert m == 2 * p - 1;
      assert m / 2 == p - 1 && m % 2 == 1;
      BitAndLowMask(x / 2, k - 1);
      if x == 0 {
        LowBitsOfZero(k);
      }
    }
  }

  lemma {:induction false} LowBitsOfZero(k: nat)
    ensures LowBits(0, k) == 0
  {
    if k > 0 {
      LowBitsOfZero(k - 1);
    }
  }

  /** Adding 2^k is adding one above the `k` bits shifted out. */
  lemma {:induction false} ShrAddPow2(x: nat, k: nat)
    ensures Shr(x + Pow2(k), k) == Shr(x, k) + 1
  {
    if k > 0 {
      assert (x + Pow2(k)) / 2 == x / 2 + Pow2(k - 1);
      ShrAddPow2(x / 2, k - 1);
    }
  }

  /** Subtracting 2^j, with j >= k, subtracts 2^(j-k) after shifting by k. */
  lemma {:induction false} ShrSubPow2(x: nat, j: nat, k: nat)
    requires k <= j && x >= Pow2(j)
    ensures Shr(x, k) >= Pow2(j - k)
    ensures Shr(x - Pow2(j), k) == Shr(x, k) - Pow2(j - k)
  {
    if k > 0 {
      assert (x - Pow2(j)) / 2 == x / 2 - Pow2(j - 1);
      ShrSubPow2(x / 2, j - 1, k - 1);
    }
  }

  /** Subtracting 2^j, with j >= k, leaves the `k` low bits alone. */
  lemma {:induction false} LowBitsSubPow2(y: nat, j: nat, k: nat)
    requires k <= j && y >= Pow2(j)
    ensures LowBits(y - Pow2(j), k) == LowBits(y, k)
  {
    if k > 0 {
      var p := Pow2(j - 1);
      assert Pow2(j) == 2 * p;
      var z := y - 2 * p;
      assert z / 2 == y / 2 - p && z % 2 == y % 2;
      LowBitsSubPow2(y / 2, j - 1, k - 1);
      assert LowBits(z, k) == 2 * LowBits(z / 2, k - 1) + z % 2;
    }
  }

  /** `i + 1` cyclically among `n` values. */
  function Succ(i: nat, n: nat): nat
  {
    if i + 1 < n then i + 1 else 0
  }

  /** The `k` low bits of `y + 1` are those of `y` plus one, wrapping to zero. */
  lemma {:induction false} LowBitsSucc(y: nat, k: nat)
    ensures LowBits(y + 1, k) == Succ(LowBits(y, k), Pow2(k))
  {
    if k > 0 {
      var p, lo := Pow2(k - 1), LowBits(y / 2, k - 1);
      assert Pow2(k) == 2 * p && LowBits(y, k) == 2 * lo + y % 2;
      if y % 2 == 0 {
        assert (y + 1) / 2 == y / 2 && (y + 1) % 2 == 1;
        assert LowBits(y + 1, k) == 2 * lo + 1;
      } else {
        assert (y + 1) / 2 == y / 2 + 1 && (y + 1) % 2 == 0;
        LowBitsSucc(y / 2, k - 1);
        assert LowBits(y + 1, k) == 2 * Succ(lo, p);
      }
    }
  }

  predicate IsPow2(n: nat)
  {
    n == 1 || (n >= 2 && n % 2 == 0 && IsPow2(n / 2))
  }

  /** Floor of log2 for n >= 1, and 0 for n == 0 (what `get_msb_index` returns). */
  function Log2(n: nat): nat
  {
    if n <= 1 then 0 else 1 + Log2(n / 2)
  }

  lemma {:induction false} Log2Bounds(n: nat)
    requires n >= 1
    ensures Pow2(Log2(n)) <= n < Pow2(Log2(n) + 1)
  {
    if n > 1 {
      Log2Bounds(n / 2);
    }
  }

  lemma {:induction false} Log2OfPow2(k: nat)
    ensures Log2(Pow2(k)) == k
  {
    if k > 0 {
      Log2OfPow2(k - 1);
      assert Pow2(k) / 2 == Pow2(k - 1);
    }
  }

  /** Conversely, every 2^k passes the power-of-two test (so `IsPow2` is exactly "a power of two"). */
  lemma {:induction false} PowersOfTwoAreIsPow2(k: nat)
    ensures IsPow2(Pow2(k))
  {
    if k > 0 {
      PowersOfTwoAreIsPow2(k - 1);
      assert Pow2(k) / 2 == Pow2(k - 1);
    }
  }

  lemma {:induction false} IsPow2IsPowerOfTwo(n: nat)
    requires IsPow2(n)
    ensures Pow2(Log2(n)) == n
  {
    if n > 1 {
      IsPow2IsPowerOfTwo(n / 2);
    }
  }

  lemma {:induction false} Log2Below(n: nat, j: nat)
    requires j >= 1 && n < Pow2(j)
    ensures Log2(n) < j
  {
    if n > 1 {
      assert j >= 2;
      Log2Below(n / 2, j - 1);
    }
  }

  /**
   * `get_msb_index`: shift right until nothing is left, counting the shifts
   * (a do-while loop, so at least one), and return the count minus one.
   */
  method MsbIndex(n: uint32) returns (index: nat)
    ensures index == Log2(n)
    ensures n == 0 ==> index == 0
    ensures n >= 1 ==> Pow2(index) <= n < Pow2(index + 1)
    ensures index < 32
  {
    var m: nat := n;
    var count: nat := 0;
    // first pass of the do-while body
    m := m / 2;
    count := count + 1;
    while m != 0
      invariant count >= 1
      invariant m == 0 ==> Log2(n) == count - 1
      invariant m != 0 ==> Log2(n) == count + Log2(m)
      decreases m
    {
      m := m / 2;
      count := count + 1;
    }
    index := count - 1;
    Pow2Is32BitWord();
    Log2Below(n, 32);
    if n >= 1 {
      Log2Bounds(n);
    }
  }
}
