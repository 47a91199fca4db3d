/**
 Fixed-width machine words as naturals: the bit operations that the cancellation
 signatures perform on 64-bit identities (`reverse_bits`, `^`, `leading_zeros`).
 */
module Bits {

  const WIDTH: nat := 64
  const WORD: nat := 0x1_0000_0000_0000_0000

  /** Whether bit `k` (counted from the least significant one) of `v` is set. */
  predicate BitSet(v: nat, k: nat)
    decreases k
  {
    if k == 0 then v % 2 == 1 else BitSet(v / 2, k - 1)
  }

  function Xor(a: nat, b: nat): nat
    decreases a + b
  {
    if a == 0 && b == 0 then 0
    else 2 * Xor(a / 2, b / 2) + (if a % 2 != b % 2 then 1 else 0)
  }

  /** `width` low bits of `v` pushed, least significant first, onto `acc`. */
  function Reverse(v: nat, width: nat, acc: nat): nat
    decreases width, v
  {
    if width == 0 then acc else Reverse(v / 2, width - 1, 2 * acc + v % 2)
  }

  function ReverseBits(v: nat): nat {
    Reverse(v, WIDTH, 0)
  }

  /** Position of the highest set bit. */
  function HighestBit(v: nat): (r: nat)
    requires v != 0
    ensures BitSet(v, r)
    ensures forall k :: r < k ==> !BitSet(v, k)
  {
    if v == 1 then
      assert forall k :: 0 < k ==> !BitSet(1, k) by {
        forall k: nat | 0 < k ensures !BitSet(1, k) { ZeroHasNoBits(k - 1); }
      }
      0
    else
      var r := 1 + HighestBit(v / 2);
      assert forall k :: r < k ==> BitSet(v, k) == BitSet(v / 2, k - 1);
      r
  }

  lemma {:induction false} ZeroHasNoBits(k: nat)
    ensures !BitSet(0, k)
  {
    if k > 0 { ZeroHasNoBits(k - 1); }
  }

  lemma {:induction false} XorBit(a: nat, b: nat, k: nat)
    ensures BitSet(Xor(a, b), k) <==> BitSet(a, k) != BitSet(b, k)
    decreases k
  {
    if a == 0 && b == 0 {
      ZeroHasNoBits(k);
    } else {
      assert Xor(a, b) / 2 == Xor(a / 2, b / 2);
      if k > 0 { XorBit(a / 2, b / 2, k - 1); }
    }
  }

  lemma {:induction false} ReverseBit(v: nat, width: nat, acc: nat, k: nat)
    ensures BitSet(Reverse(v, width, acc), k)
            == if k < width then BitSet(v, width - 1 - k) else BitSet(acc, k - width)
    decreases width
  {
    if width > 0 {
      var next := 2 * acc + v % 2;
      ReverseBit(v / 2, width - 1, next, k);
      assert next / 2 == acc;
      if k == width - 1 {
        assert BitSet(next, 0) == (v % 2 == 1);
      }
    }
  }

  /** Reversal maps bit `k` to bit `WIDTH - 1 - k` and clears everything above the word. */
  lemma ReverseBitsBit(v: nat, k: nat)
    ensures BitSet(ReverseBits(v), k) == (k < WIDTH && BitSet(v, WIDTH - 1 - k))
  {
    ReverseBit(v, WIDTH, 0, k);
    if k >= WIDTH { ZeroHasNoBits(k - WIDTH); }
  }

  function Pow2(n: nat): nat {
    if n == 0 then 1 else 2 * Pow2(n - 1)
  }

  lemma WordIsPow2()
    ensures Pow2(WIDTH) == WORD
  {
    assert Pow2(8) == 256;
    assert Pow2(16) == 0x1_0000;
    assert Pow2(24) == 0x100_0000;
    assert Pow2(32) == 0x1_0000_0000;
    assert Pow2(40) == 0x100_0000_0000;
    assert Pow2(48) == 0x1_0000_0000_0000;
    assert Pow2(56) == 0x100_0000_0000_0000;
  }

  /** Distinct words of `width` bits differ in one of them. */
  lemma {:induction false} DistinctWordsDiffer(a: nat, b: nat, width: nat) returns (k: nat)
    requires a < Pow2(width) && b < Pow2(width) && a != b
    ensures k < width && BitSet(a, k) != BitSet(b, k)
    decreases width
  {
    if a % 2 != b % 2 {
      k := 0;
    } else {
      assert a / 2 != b / 2;
      var j := DistinctWordsDiffer(a / 2, b / 2, width - 1);
      k := j + 1;
    }
  }
}
