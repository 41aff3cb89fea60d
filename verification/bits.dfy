/** Exclusive or, single bits and bit length of natural numbers of any size. */
module Bits {
  function Pow2(n: nat): (p: nat)
    ensures p >= 1
  {
    if n == 0 then 1 else 2 * Pow2(n - 1)
  }

  function Xor(x: nat, y: nat): nat
    decreases x + y
  {
    if x == 0 && y == 0 then 0 else 2 * Xor(x / 2, y / 2) + (if x % 2 == y % 2 then 0 else 1)
  }

  predicate Bit(x: nat, i: nat)
    decreases i
  {
    if i == 0 then x % 2 == 1 else Bit(x / 2, i - 1)
  }

  function BitLength(x: nat): nat {
    if x == 0 then 0 else 1 + BitLength(x / 2)
  }

  /** Xor works bit by bit. */
  lemma {:induction false} XorBit(x: nat, y: nat, i: nat)
    ensures Bit(Xor(x, y), i) <==> (Bit(x, i) != Bit(y, i))
    decreases i
  {
    XorHalves(x, y);
    if i > 0 {
      XorBit(x / 2, y / 2, i - 1);
    }
  }

  lemma XorHalves(x: nat, y: nat)
    ensures Xor(x, y) / 2 == Xor(x / 2, y / 2)
    ensures Xor(x, y) % 2 == (if x % 2 == y % 2 then 0 else 1)
  {
  }

  lemma {:induction false} XorCommutes(x: nat, y: nat)
    ensures Xor(x, y) == Xor(y, x)
    decreases x + y
  {
    if x + y > 0 {
      XorCommutes(x / 2, y / 2);
    }
  }

  lemma {:induction false} XorAssociates(x: nat, y: nat, z: nat)
    ensures Xor(Xor(x, y), z) == Xor(x, Xor(y, z))
    decreases x + y + z
  {
    if x + y + z > 0 {
      XorAssociates(x / 2, y / 2, z / 2);
      SameHalvesSameNumber(Xor(Xor(x, y), z), Xor(x, Xor(y, z))) by {
        XorHalves(x, y);
        XorHalves(y, z);
        XorHalves(Xor(x, y), z);
        XorHalves(x, Xor(y, z));
      }
    }
  }

  lemma SameHalvesSameNumber(x: nat, y: nat)
    requires x / 2 == y / 2 && x % 2 == y % 2
    ensures x == y
  {
  }

  lemma {:induction false} XorZero(x: nat)
    ensures Xor(x, 0) == x
  {
    if x > 0 {
      XorZero(x / 2);
    }
  }

  lemma {:induction false} XorZeroIffEqual(x: nat, y: nat)
    ensures Xor(x, y) == 0 <==> x == y
    decreases x + y
  {
    if x + y > 0 {
      XorZeroIffEqual(x / 2, y / 2);
    }
  }

  /** The middle operand cancels. */
  lemma XorCancel(x: nat, y: nat, z: nat)
    ensures Xor(Xor(x, y), Xor(y, z)) == Xor(x, z)
  {
    XorAssociates(Xor(x, y), y, z);
    XorAssociates(x, y, y);
    XorZeroIffEqual(y, y);
    XorZero(x);
  }

  lemma {:induction false} XorAtMostSum(x: nat, y: nat)
    ensures Xor(x, y) <= x + y
    decreases x + y
  {
    if x + y > 0 {
      XorAtMostSum(x / 2, y / 2);
    }
  }

  /** Numbers of at most n bits are exactly those below 2^n. */
  lemma {:induction false} BitLengthAtMost(x: nat, n: nat)
    ensures BitLength(x) <= n <==> x < Pow2(n)
    decreases n
  {
    if n > 0 && x > 0 {
      BitLengthAtMost(x / 2, n - 1);
    }
  }

  /** A positive number lies between the powers of two given by its bit length. */
  lemma BitLengthBounds(x: nat)
    requires x > 0
    ensures Pow2(BitLength(x) - 1) <= x < Pow2(BitLength(x))
  {
    BitLengthAtMost(x, BitLength(x));
    BitLengthAtMost(x, BitLength(x) - 1);
  }

  /** Xor never needs more bits than its longer operand, and exactly as many when the lengths differ. */
  lemma {:induction false} XorBitLength(x: nat, y: nat)
    ensures BitLength(x) >= BitLength(y) ==> BitLength(Xor(x, y)) <= BitLength(x)
    ensures BitLength(x) > BitLength(y) ==> BitLength(Xor(x, y)) == BitLength(x)
    ensures BitLength(y) >= BitLength(x) ==> BitLength(Xor(x, y)) <= BitLength(y)
    ensures BitLength(y) > BitLength(x) ==> BitLength(Xor(x, y)) == BitLength(y)
    decreases x + y
  {
    if x + y > 0 {
      XorBitLength(x / 2, y / 2);
    }
  }

  /** The highest bit in which two numbers differ decides which one is smaller. */
  lemma {:induction false} HighestDifferenceDecides(x: nat, y: nat, j: nat)
    requires BitLength(Xor(x, y)) == j + 1
    ensures Bit(x, j) != Bit(y, j)
    ensures x < y <==> Bit(y, j)
    decreases j
  {
    XorHalves(x, y);
    XorZeroIffEqual(x / 2, y / 2);
    if j > 0 {
      HighestDifferenceDecides(x / 2, y / 2, j - 1);
    }
  }
}
