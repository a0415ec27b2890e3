/** Exclusive or on natural numbers, bit by bit. */
module Bits {
  import opened Numbers

  /** Bitwise exclusive or. */
  function Xor(a: nat, b: nat): nat
    decreases a + b
  {
    if a + b == 0 then 0 else Xor(a / 2, b / 2) * 2 + (a + b) % 2
  }

  /** Bit `k` of a number, the lowest one first. */
  function Bit(n: nat, k: nat): (bit: nat)
    ensures bit < 2
  {
    if k == 0 then n % 2 else Bit(n / 2, k - 1)
  }

  /** The bit is a digit of the binary numeral. */
  lemma {:induction false} BitIsDigit(n: nat, k: nat)
    ensures Power(2, k) >= 1 && Bit(n, k) == n / Power(2, k) % 2
  {
    if k > 0 {
      BitIsDigit(n / 2, k - 1);
      QuotientOfQuotient(n, 2, Power(2, k - 1));
    }
  }

  lemma XorUnfolds(a: nat, b: nat)
    ensures Xor(a, b) == Xor(a / 2, b / 2) * 2 + (a + b) % 2
  {
  }

  lemma LastBitOfSum(a: nat, b: nat)
    ensures (a + b) % 2 == (a % 2 + b % 2) % 2
  {
  }

  lemma LastBit(x: nat, y: nat, bit: nat)
    requires x == y * 2 + bit && bit < 2
    ensures x / 2 == y && x % 2 == bit
  {
  }

  lemma XorByDigit(a: nat, b: nat)
    ensures Xor(a, b) / 2 == Xor(a / 2, b / 2) && Xor(a, b) % 2 == (a % 2 + b % 2) % 2
  {
    XorUnfolds(a, b);
    LastBitOfSum(a, b);
    LastBit(Xor(a, b), Xor(a / 2, b / 2), (a + b) % 2);
  }

  /** Every bit of the exclusive or is set exactly when one of the two bits is. */
  lemma {:induction false} XorBits(a: nat, b: nat, k: nat)
    ensures Bit(Xor(a, b), k) == (Bit(a, k) + Bit(b, k)) % 2
    decreases k
  {
    XorByDigit(a, b);
    if k > 0 {
      XorBits(a / 2, b / 2, k - 1);
      BitOfHalf(Xor(a, b), k);
      BitOfHalf(a, k);
      BitOfHalf(b, k);
    }
  }

  lemma BitOfHalf(n: nat, k: nat)
    requires k > 0
    ensures Bit(n, k) == Bit(n / 2, k - 1)
  {
  }

  /** Numbers with the same bits are equal, so the bits say all about the exclusive or. */
  lemma {:induction false} BitsDetermine(a: nat, b: nat)
    requires forall k: nat :: Bit(a, k) == Bit(b, k)
    ensures a == b
    decreases a + b
  {
    if a + b > 0 {
      assert Bit(a, 0) == Bit(b, 0);
      forall k: nat
        ensures Bit(a / 2, k) == Bit(b / 2, k)
      {
        assert Bit(a, k + 1) == Bit(b, k + 1);
      }
      BitsDetermine(a / 2, b / 2);
    }
  }

  /** A way to check one exclusive or, bit by bit: `b` has at most `n` bits. */
  predicate AgreesUpTo(a: nat, b: nat, r: nat, n: nat) {
    if n == 0 then r == a && b == 0
    else r % 2 == (a + b) % 2 && AgreesUpTo(a / 2, b / 2, r / 2, n - 1)
  }

  lemma {:induction false} XorIs(a: nat, b: nat, r: nat, n: nat)
    requires AgreesUpTo(a, b, r, n)
    ensures Xor(a, b) == r
    decreases n
  {
    if n > 0 {
      XorIs(a / 2, b / 2, r / 2, n - 1);
    } else {
      XorNothing(a);
    }
  }

  lemma {:induction false} XorNothing(a: nat)
    ensures Xor(a, 0) == a
  {
    if a > 0 {
      XorNothing(a / 2);
    }
  }

  lemma {:induction false} XorFits(a: nat, b: nat, bits: nat)
    requires a < Power(2, bits) && b < Power(2, bits)
    ensures Xor(a, b) < Power(2, bits)
  {
    if bits > 0 {
      XorFits(a / 2, b / 2, bits - 1);
    }
  }

  /** The exclusive or with the same word twice is the number itself: no bit is changed. */
  lemma XorCancels(a: nat, b: nat)
    ensures Xor(Xor(a, b), b) == a
  {
    var x := Xor(a, b);
    var y := Xor(x, b);
    forall k: nat
      ensures Bit(y, k) == Bit(a, k)
    {
      XorBits(a, b, k);
      XorBits(x, b, k);
      FlippedTwice(a, b, x, y, k);
    }
    BitsDetermine(y, a);
  }

  lemma FlippedTwice(a: nat, b: nat, x: nat, y: nat, k: nat)
    requires Bit(x, k) == (Bit(a, k) + Bit(b, k)) % 2 && Bit(y, k) == (Bit(x, k) + Bit(b, k)) % 2
    ensures Bit(y, k) == Bit(a, k)
  {
    TwoFlips(Bit(a, k), Bit(b, k));
  }

  lemma TwoFlips(p: nat, q: nat)
    requires p < 2 && q < 2
    ensures ((p + q) % 2 + q) % 2 == p
  {
  }
}
