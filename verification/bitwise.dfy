/** Bitwise operations on unsigned numbers, as JavaScript's 32-bit `^`,
    `>>>` and `&` act on the non-negative values the CRC keeps: `c >>> k` is
    c / 2^k, `c & (2^k - 1)` is c % 2^k and `a ^ b` is `Xor(a, b)`. */
module Bitwise {
  import opened Common

  function Pow2(k: nat): (r: nat)
    ensures r >= 1
  {
    if k == 0 then 1 else 2 * Pow2(k - 1)
  }

  lemma Pow2Eight()
    ensures Pow2(8) == 256
  {
    assert Pow2(4) == 16;
  }

  lemma Pow2ThirtyTwo()
    ensures Pow2(32) == 0x1_0000_0000
  {
    Pow2Eight();
    assert Pow2(16) == 0x1_0000;
    assert Pow2(24) == 0x100_0000;
  }

  /** Bitwise exclusive-or: the low bits are added modulo 2, the higher
      bits are combined the same way. */
  function Xor(a: nat, b: nat): nat
    decreases a + b
  {
    if a == 0 && b == 0 then 0 else 2 * Xor(a / 2, b / 2) + (a + b) % 2
  }

  /** The low bit of a ^ b, and the bits above it. */
  lemma XorBits(a: nat, b: nat)
    ensures Xor(a, b) % 2 == (a + b) % 2
    ensures Xor(a, b) / 2 == Xor(a / 2, b / 2)
  {
    if a != 0 || b != 0 {
      DivModUnique(Xor(a, b), 2, Xor(a / 2, b / 2), (a + b) % 2);
    }
  }

  /** Two numbers with the same low bit and the same higher bits are equal. */
  lemma SameBits(m: nat, n: nat)
    requires m % 2 == n % 2 && m / 2 == n / 2
    ensures m == n
  {
  }

  /** The one number with the low bit and the higher bits of a ^ b. */
  lemma XorUnique(a: nat, b: nat, n: nat)
    requires n % 2 == (a + b) % 2
    requires n / 2 == Xor(a / 2, b / 2)
    ensures n == Xor(a, b)
  {
    XorBits(a, b);
  }

  lemma {:induction false} XorComm(a: nat, b: nat)
    ensures Xor(a, b) == Xor(b, a)
    decreases a + b
  {
    if a != 0 || b != 0 {
      XorComm(a / 2, b / 2);
    }
  }

  lemma {:induction false} XorZero(a: nat)
    ensures Xor(a, 0) == a
    ensures Xor(0, a) == a
    decreases a
  {
    if a != 0 {
      XorZero(a / 2);
    }
  }

  lemma {:induction false} XorSelf(a: nat)
    ensures Xor(a, a) == 0
    decreases a
  {
    if a != 0 {
      XorSelf(a / 2);
    }
  }

  lemma ParityOfSums(a: nat, b: nat, c: nat, bc: nat, ab: nat)
    requires bc % 2 == (b + c) % 2 && ab % 2 == (a + b) % 2
    ensures (a + bc) % 2 == (ab + c) % 2
  {
  }

  lemma {:induction false} XorAssoc(a: nat, b: nat, c: nat)
    ensures Xor(a, Xor(b, c)) == Xor(Xor(a, b), c)
    decreases a + b + c
  {
    if a + b + c != 0 {
      var bc, ab := Xor(b, c), Xor(a, b);
      XorBits(b, c);
      XorBits(a, b);
      XorBits(a, bc);
      XorBits(ab, c);
      XorAssoc(a / 2, b / 2, c / 2);
      assert Xor(a, bc) % 2 == Xor(ab, c) % 2 by {
        ParityOfSums(a, b, c, bc, ab);
      }
      SameBits(Xor(a, bc), Xor(ab, c));
    }
  }

  /** Numbers of k bits stay within k bits. */
  lemma {:induction false} XorBound(a: nat, b: nat, k: nat)
    requires a < Pow2(k) && b < Pow2(k)
    ensures Xor(a, b) < Pow2(k)
    decreases k
  {
    if k > 0 && (a != 0 || b != 0) {
      XorBound(a / 2, b / 2, k - 1);
    }
  }

  /** The k low bits of h are zero. */
  predicate LowZero(h: nat, k: nat)
    decreases k
  {
    k == 0 || (h % 2 == 0 && LowZero(h / 2, k - 1))
  }

  /** h >>> k. */
  function ShiftedOut(h: nat, k: nat): nat
    decreases k
  {
    if k == 0 then h else ShiftedOut(h / 2, k - 1)
  }

  /** The k low bits of 2^k q are zero, and shifting them out leaves q. */
  lemma {:induction false} ShiftsOfMultiple(q: nat, k: nat)
    ensures LowZero(Pow2(k) * q, k)
    ensures ShiftedOut(Pow2(k) * q, k) == q
    decreases k
  {
    if k > 0 {
      assert Pow2(k) * q == 2 * (Pow2(k - 1) * q);
      ShiftsOfMultiple(q, k - 1);
    }
  }

  lemma HalfOfEvenSum(h: nat, r: nat)
    requires h % 2 == 0
    ensures (h + r) / 2 == h / 2 + r / 2
    ensures (h + r) % 2 == r % 2
  {
    DivModUnique(h + r, 2, h / 2 + r / 2, r % 2);
  }

  lemma SameParitySum(n: nat, r: nat, b: nat)
    requires n % 2 == r % 2
    ensures (n + b) % 2 == (r + b) % 2
  {
  }

  /** Below bit k, hi + r and b differ only in r when the k low bits of hi
      are clear. */
  lemma {:induction false} XorHighLow(hi: nat, r: nat, b: nat, k: nat)
    requires LowZero(hi, k)
    requires r < Pow2(k) && b < Pow2(k)
    ensures Xor(hi + r, b) == hi + Xor(r, b)
    decreases k
  {
    if k == 0 {
      XorZero(hi);
    } else {
      XorHighLow(hi / 2, r / 2, b / 2, k - 1);
      XorEvenStep(hi, r, b);
    }
  }

  /** One bit of the induction above: with the low bit of hi clear, the
      claim for the halves gives the claim for the whole. */
  lemma XorEvenStep(hi: nat, r: nat, b: nat)
    requires hi % 2 == 0
    requires Xor(hi / 2 + r / 2, b / 2) == hi / 2 + Xor(r / 2, b / 2)
    ensures Xor(hi + r, b) == hi + Xor(r, b)
  {
    XorBits(r, b);
    EvenSumHalves(hi, r, b, Xor(r, b), Xor(r / 2, b / 2));
    XorUnique(hi + r, b, hi + Xor(r, b));
  }

  /** The halves and low bits of hi + rb, for an even hi and an rb with
      the low bit of r + b and the halves x. */
  lemma EvenSumHalves(hi: nat, r: nat, b: nat, rb: nat, x: nat)
    requires hi % 2 == 0
    requires rb % 2 == (r + b) % 2 && rb / 2 == x
    ensures (hi + rb) / 2 == hi / 2 + x && (hi + r) / 2 == hi / 2 + r / 2
    ensures (hi + rb) % 2 == (hi + r + b) % 2
  {
    HalfOfEvenSum(hi, rb);
    HalfOfEvenSum(hi, r);
    SameParitySum(hi + r, r, b);
  }

  /** hi ^ r is hi + r when the bits of r are clear in hi. */
  lemma XorDisjoint(hi: nat, r: nat, k: nat)
    requires LowZero(hi, k)
    requires r < Pow2(k)
    ensures Xor(hi, r) == hi + r
  {
    XorHighLow(hi, 0, r, k);
    XorZero(r);
  }
}
