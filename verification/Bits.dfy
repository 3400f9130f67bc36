/** Bitwise operations over numbers of any size, given bit by bit. */
module Bits {

  /** Is the bit number `i` set? */
  predicate Bit(x: nat, i: nat) {
    if i == 0 then x % 2 == 1 else Bit(x / 2, i - 1)
  }

  function Or(x: nat, y: nat): nat
    decreases x + y
  {
    if x == 0 && y == 0 then 0 else 2 * Or(x / 2, y / 2) + (if x % 2 == 1 || y % 2 == 1 then 1 else 0)
  }

  function And(x: nat, y: nat): nat
    decreases x + y
  {
    if x == 0 && y == 0 then 0 else 2 * And(x / 2, y / 2) + (if x % 2 == 1 && y % 2 == 1 then 1 else 0)
  }

  /** The complement, in a word of the given width. */
  function Not(width: nat, x: nat): nat {
    if width == 0 then 0 else 2 * Not(width - 1, x / 2) + (1 - x % 2)
  }

  function ShiftLeft(x: nat, n: nat): nat {
    if n == 0 then x else 2 * ShiftLeft(x, n - 1)
  }

  function ShiftRight(x: nat, n: nat): nat {
    if n == 0 then x else ShiftRight(x / 2, n - 1)
  }

  function Pow2(n: nat): (p: nat)
    ensures p > 0
  {
    if n == 0 then 1 else 2 * Pow2(n - 1)
  }

  lemma {:induction false} BitOfZero(i: nat)
    ensures !Bit(0, i)
  {
    if i > 0 {
      BitOfZero(i - 1);
    }
  }

  lemma {:induction false} BitOfOr(x: nat, y: nat, i: nat)
    ensures Bit(Or(x, y), i) <==> Bit(x, i) || Bit(y, i)
  {
    if x == 0 && y == 0 {
      BitOfZero(i);
    } else if i > 0 {
      BitOfOr(x / 2, y / 2, i - 1);
    }
  }

  lemma {:induction false} BitOfAnd(x: nat, y: nat, i: nat)
    ensures Bit(And(x, y), i) <==> Bit(x, i) && Bit(y, i)
  {
    if x == 0 && y == 0 {
      BitOfZero(i);
    } else if i > 0 {
      BitOfAnd(x / 2, y / 2, i - 1);
    }
  }

  lemma {:induction false} BitOfNot(width: nat, x: nat, i: nat)
    ensures Bit(Not(width, x), i) <==> i < width && !Bit(x, i)
  {
    if width == 0 {
      BitOfZero(i);
    } else if i > 0 {
      BitOfNot(width - 1, x / 2, i - 1);
    }
  }

  lemma {:induction false} BitOfShiftLeft(x: nat, n: nat, i: nat)
    ensures Bit(ShiftLeft(x, n), i) <==> i >= n && Bit(x, i - n)
  {
    if n > 0 && i > 0 {
      BitOfShiftLeft(x, n - 1, i - 1);
    }
  }

  lemma {:induction false} BitOfShiftRight(x: nat, n: nat, i: nat)
    ensures Bit(ShiftRight(x, n), i) <==> Bit(x, n + i)
  {
    if n > 0 {
      BitOfShiftRight(x / 2, n - 1, i);
    }
  }

  lemma {:induction false} BitOfMask(n: nat, i: nat)
    ensures Bit(Pow2(n) - 1, i) <==> i < n
  {
    if n == 0 {
      BitOfZero(i);
    } else if i > 0 {
      BitOfMask(n - 1, i - 1);
    }
  }

  lemma {:induction false} ShiftedOne(n: nat)
    ensures ShiftLeft(1, n) == Pow2(n)
  {
    if n > 0 {
      ShiftedOne(n - 1);
    }
  }

  /** A number has no bits above those it fits. */
  lemma {:induction false} BitsOfFitting(x: nat, n: nat, i: nat)
    requires x < Pow2(n) && n <= i
    ensures !Bit(x, i)
  {
    if n == 0 {
      BitOfZero(i);
    } else {
      BitsOfFitting(x / 2, n - 1, i - 1);
    }
  }

  /** Numbers with the same bits are the same. */
  lemma {:induction false} SameBits(x: nat, y: nat)
    requires forall i: nat :: Bit(x, i) <==> Bit(y, i)
    ensures x == y
    decreases x + y
  {
    if x != 0 || y != 0 {
      assert Bit(x, 0) <==> Bit(y, 0);
      forall i: nat ensures Bit(x / 2, i) <==> Bit(y / 2, i) {
        assert Bit(x, i + 1) <==> Bit(y, i + 1);
      }
      SameBits(x / 2, y / 2);
    }
  }

  /** A number with no bits from `n` on fits in `n` bits. */
  lemma {:induction false} FitsItsBits(x: nat, n: nat)
    requires forall i: nat | n <= i :: !Bit(x, i)
    ensures x < Pow2(n)
  {
    if n == 0 {
      forall i: nat ensures Bit(x, i) <==> Bit(0, i) {
        BitOfZero(i);
      }
      SameBits(x, 0);
    } else {
      forall i: nat | n - 1 <= i ensures !Bit(x / 2, i) {
        assert !Bit(x, i + 1);
      }
      FitsItsBits(x / 2, n - 1);
    }
  }

  lemma {:induction false} ShiftIsProduct(x: nat, n: nat)
    ensures ShiftLeft(x, n) == x * Pow2(n)
  {
    if n > 0 {
      ShiftIsProduct(x, n - 1);
    }
  }

  lemma {:induction false} OrZero(y: nat)
    ensures Or(0, y) == y
  {
    if y > 0 {
      OrZero(y / 2);
    }
  }

  lemma OrOfEven(x: nat, half: nat)
    ensures Or(x, 2 * half) == 2 * Or(x / 2, half) + x % 2
  {
    OrZero(0);
  }

  /** Setting bits above all those of `x` adds. */
  lemma {:induction false} OrAddsAbove(x: nat, y: nat, n: nat)
    requires x < Pow2(n)
    ensures Or(x, ShiftLeft(y, n)) == x + ShiftLeft(y, n)
  {
    if n == 0 {
      OrZero(y);
    } else {
      OrAddsAbove(x / 2, y, n - 1);
      OrOfEven(x, ShiftLeft(y, n - 1));
    }
  }
}
