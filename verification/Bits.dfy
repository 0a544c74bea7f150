/** Unsigned masks as numbers: bits, setting one, and the powers of two that shifts multiply by. */
module Bits {

  function Pow2(n: nat): (p: nat)
    ensures p > 0
  {
    if n == 0 then 1 else 2 * Pow2(n - 1)
  }

  lemma EightDoublings(n: nat, p: nat)
    requires Pow2(n) == p
    ensures Pow2(n + 8) == 0x100 * p
  {
    assert Pow2(n + 1) == 2 * p && Pow2(n + 2) == 4 * p && Pow2(n + 3) == 8 * p && Pow2(n + 4) == 16 * p;
    assert Pow2(n + 5) == 32 * p && Pow2(n + 6) == 64 * p && Pow2(n + 7) == 128 * p;
  }

  predicate Bit(m: nat, k: nat) {
    if k == 0 then m % 2 == 1 else Bit(m / 2, k - 1)
  }

  /** m with bit k set, whatever it was. */
  function SetBit(m: nat, k: nat): nat {
    if k == 0 then m - m % 2 + 1 else 2 * SetBit(m / 2, k - 1) + m % 2
  }

  lemma {:induction false} SetBitBits(m: nat, k: nat, j: nat)
    ensures Bit(SetBit(m, k), j) <==> j == k || Bit(m, j)
  {
    if k > 0 && j > 0 {
      assert SetBit(m, k) / 2 == SetBit(m / 2, k - 1);
      SetBitBits(m / 2, k - 1, j - 1);
    } else if j > 0 {
      assert SetBit(m, 0) / 2 == m / 2;
    }
  }

  /** Numbers with the same bits are equal. */
  lemma {:induction false} SameBits(a: nat, b: nat)
    requires forall k: nat :: Bit(a, k) <==> Bit(b, k)
    ensures a == b
    decreases a + b
  {
    assert Bit(a, 0) <==> Bit(b, 0);
    if a + b > 0 {
      forall k: nat
        ensures Bit(a / 2, k) <==> Bit(b / 2, k)
      {
        assert Bit(a, k + 1) <==> Bit(b, k + 1);
      }
      SameBits(a / 2, b / 2);
    }
  }

  lemma {:induction false} BitsBelow(m: nat, n: nat, k: nat)
    requires m < Pow2(n) && n <= k
    ensures !Bit(m, k)
  {
    if n > 0 {
      BitsBelow(m / 2, n - 1, k - 1);
    } else if k > 0 {
      BitsBelow(0, 0, k - 1);
    }
  }

  lemma {:induction false} BelowFromBits(m: nat, n: nat)
    requires forall k: nat :: Bit(m, k) ==> k < n
    ensures m < Pow2(n)
    decreases m, n
  {
    if m > 0 {
      if n == 0 {
        HasBit(m);
      } else {
        forall k: nat | Bit(m / 2, k)
          ensures k < n - 1
        {
          assert Bit(m, k + 1);
        }
        BelowFromBits(m / 2, n - 1);
      }
    }
  }

  lemma {:induction false} HasBit(m: nat)
    requires m > 0
    ensures exists k: nat :: Bit(m, k)
  {
    if m % 2 == 1 {
      assert Bit(m, 0);
    } else {
      HasBit(m / 2);
      var k: nat :| Bit(m / 2, k);
      assert Bit(m, k + 1);
    }
  }

  lemma {:induction false} OnesBits(n: nat, k: nat)
    ensures Bit(Pow2(n) - 1, k) <==> k < n
  {
    if n > 0 && k > 0 {
      assert (Pow2(n) - 1) / 2 == Pow2(n - 1) - 1;
      OnesBits(n - 1, k - 1);
    } else if n == 0 {
      BitsBelow(0, 0, k);
    }
  }

  /** The low n bits: what an n-bit register keeps. */
  function Low(m: nat, n: nat): nat {
    if n == 0 then 0 else 2 * Low(m / 2, n - 1) + m % 2
  }

  lemma {:induction false} LowBits(m: nat, n: nat, k: nat)
    ensures Bit(Low(m, n), k) <==> k < n && Bit(m, k)
  {
    if n == 0 {
      BitsBelow(0, 0, k);
    } else if k > 0 {
      assert Low(m, n) / 2 == Low(m / 2, n - 1);
      LowBits(m / 2, n - 1, k - 1);
    }
  }

  function ShiftRight(m: nat, s: nat): nat {
    if s == 0 then m else ShiftRight(m / 2, s - 1)
  }

  lemma {:induction false} ShiftRightBits(m: nat, s: nat, k: nat)
    ensures Bit(ShiftRight(m, s), k) <==> Bit(m, k + s)
  {
    if s > 0 {
      ShiftRightBits(m / 2, s - 1, k);
    }
  }

  /** A left shift in an n-bit register: each doubling loses the top bit. */
  function ShiftLeft(m: nat, s: nat, n: nat): nat
    decreases s
  {
    if s == 0 then Low(m, n) else ShiftLeft(Low(2 * m, n), s - 1, n)
  }

  lemma {:induction false} ShiftLeftBits(m: nat, s: nat, n: nat, k: nat)
    ensures Bit(ShiftLeft(m, s, n), k) <==> s <= k < n && Bit(m, k - s)
    decreases s
  {
    if s == 0 {
      LowBits(m, n, k);
    } else {
      ShiftLeftBits(Low(2 * m, n), s - 1, n, k);
      if s - 1 <= k < n {
        LowBits(2 * m, n, k - (s - 1));
        assert Bit(2 * m, k - (s - 1)) <==> k >= s && Bit(m, k - s) by {
          assert 2 * m / 2 == m;
        }
      }
    }
  }
}
