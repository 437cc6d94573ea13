/**
 * Bitwise AND and XOR on non-negative machine words, defined bit by bit on plain integers so
 * that the proofs about masks and checksums stay in integer arithmetic.
 */
module Bits {
  import opened Arith

  function Pow2(n: nat): (p: nat)
    ensures p > 0
  {
    if n == 0 then 1 else 2 * Pow2(n - 1)
  }

  lemma {:induction false} Pow2Adds(m: nat, n: nat)
    ensures Pow2(m + n) == Pow2(m) * Pow2(n)
  {
    if m > 0 {
      Pow2Adds(m - 1, n);
      Regroup(2, Pow2(m - 1), Pow2(n));
    }
  }

  lemma DoubleExponent(n: nat, m: nat, p: nat)
    requires m == 2 * n && Pow2(n) == p
    ensures Pow2(m) == p * p
  {
    Pow2Adds(n, n);
  }

  lemma Pow2OfWord(n: nat)
    requires n == 64
    ensures Pow2(n) == 0x1_0000_0000_0000_0000
  {
    hide Pow2;
    Pow2OfByte(n / 8);
    DoubleExponent(n / 8, n / 4, 256);
    DoubleExponent(n / 4, n / 2, 0x1_0000);
    DoubleExponent(n / 2, n, 0x1_0000_0000);
  }

  lemma Pow2OfByte(n: nat)
    requires n == 8
    ensures Pow2(n) == 256
  {
    assert Pow2(8) == 256;
  }

  function And(a: nat, b: nat): nat {
    if a == 0 || b == 0 then 0
    else 2 * And(a / 2, b / 2) + (if a % 2 == 1 && b % 2 == 1 then 1 else 0)
  }

  function Xor(a: nat, b: nat): nat
    decreases a + b
  {
    if a == 0 && b == 0 then 0
    else 2 * Xor(a / 2, b / 2) + (a % 2 + b % 2) % 2
  }

  // The k-th binary digit of a word.
  function Bit(a: nat, k: nat): nat {
    if k == 0 then a % 2 else Bit(a / 2, k - 1)
  }

  lemma BitOfHalf(a: nat, k: nat)
    ensures Bit(a, k) == if k == 0 then a % 2 else Bit(a / 2, k - 1)
  {
  }

  // The two operators act digit by digit.
  lemma {:induction false} DigitwiseOperators(a: nat, b: nat, k: nat)
    ensures Bit(And(a, b), k) == if Bit(a, k) == 1 && Bit(b, k) == 1 then 1 else 0
    ensures Bit(Xor(a, b), k) == if Bit(a, k) != Bit(b, k) then 1 else 0
    decreases k
  {
    hide And, Xor, Bit;
    AndDigits(a, b);
    XorDigits(a, b);
    BitOfHalf(a, k);
    BitOfHalf(b, k);
    BitOfHalf(And(a, b), k);
    BitOfHalf(Xor(a, b), k);
    if k > 0 { DigitwiseOperators(a / 2, b / 2, k - 1); }
  }

  lemma {:induction false} AndWithSelf(a: nat)
    ensures And(a, a) == a
  {
    if a > 0 { AndWithSelf(a / 2); }
  }

  lemma {:induction false} AndAtMostMask(a: nat, m: nat)
    ensures And(a, m) <= m
  {
    if a > 0 && m > 0 { AndAtMostMask(a / 2, m / 2); }
  }

  // Masking with size - 1 is the remainder by size, for every size accepted by the
  // power-of-two test `size & (size - 1) == 0`.
  lemma {:induction false} MaskIsRemainder(pos: nat, size: nat)
    requires size > 0 && And(size, size - 1) == 0
    ensures And(pos, size - 1) == pos % size
  {
    HalvePowerOfTwo(size);
    if size == 1 {
      assert pos % 1 == 0;
    } else {
      var half := size / 2;
      MaskIsRemainder(pos / 2, half);
      DoubledRemainder(pos, half);
      OddMask(pos, half);
    }
  }

  lemma OddMask(pos: nat, half: nat)
    requires half > 0
    ensures And(pos, 2 * half - 1) == 2 * And(pos / 2, half - 1) + pos % 2
  {
    assert (2 * half - 1) / 2 == half - 1 && (2 * half - 1) % 2 == 1;
  }

  lemma OddWord(h: nat)
    ensures And(2 * h + 1, 2 * h) == 2 * h
  {
    hide And;
    AndDigits(2 * h + 1, 2 * h);
    AndWithSelf(h);
  }

  lemma EvenWord(h: nat)
    requires h > 0
    ensures And(2 * h, 2 * h - 1) == 2 * And(h, h - 1)
  {
    hide And;
    AndDigits(2 * h, 2 * h - 1);
    assert (2 * h - 1) / 2 == h - 1;
  }

  // A word above one that passes the power-of-two test is even, and its half passes too.
  lemma HalvePowerOfTwo(size: nat)
    requires size > 0 && And(size, size - 1) == 0
    ensures size == 1 || (size % 2 == 0 && And(size / 2, size / 2 - 1) == 0)
  {
    hide And;
    if size % 2 == 1 {
      OddWord(size / 2);
    } else {
      EvenWord(size / 2);
    }
  }

  lemma DoubledDivides(m: nat, d: nat)
    requires d > 0 && m % d == 0
    ensures 2 * m % (2 * d) == 0
  {
    Euclid(m, d);
    Regroup(2, d, m / d);
    DivisionIs(2 * m, 2 * d, m / d, 0);
  }

  // A word that passes the test divides every power of two that is not below it.
  lemma {:induction false} PassingDividesPower(size: nat, n: nat)
    requires size > 0 && And(size, size - 1) == 0 && size <= Pow2(n)
    ensures Pow2(n) % size == 0
    decreases size
  {
    HalvePowerOfTwo(size);
    hide And;
    if size == 1 {
      DivisionIs(Pow2(n), 1, Pow2(n), 0);
    } else {
      PassingDividesPower(size / 2, n - 1);
      DoubledDivides(Pow2(n - 1), size / 2);
    }
  }

  lemma AndDigits(a: nat, b: nat)
    ensures And(a, b) == 2 * And(a / 2, b / 2) + (if a % 2 == 1 && b % 2 == 1 then 1 else 0)
  {
  }

  lemma DoubledRemainder(pos: nat, half: nat)
    requires half > 0
    ensures pos % (2 * half) == 2 * ((pos / 2) % half) + pos % 2
  {
    var q, r := (pos / 2) / half, (pos / 2) % half;
    Euclid(pos / 2, half);
    assert pos == 2 * (half * q) + (2 * r + pos % 2);
    assert (2 * half) * q == 2 * (half * q);
    DivisionIs(pos, 2 * half, q, 2 * r + pos % 2);
  }

  // XOR with the same word twice gives the first operand back, so it is injective.
  lemma {:induction false} XorCancels(a: nat, b: nat)
    ensures Xor(Xor(a, b), b) == a
    decreases a + b
  {
    if a != 0 || b != 0 {
      var x := Xor(a, b);
      var y := Xor(x, b);
      XorDigits(a, b);
      XorDigits(x, b);
      XorCancels(a / 2, b / 2);
      assert y / 2 == a / 2;
      SameDigits(y, a, x, b);
    }
  }

  lemma SameDigits(y: nat, a: nat, x: nat, b: nat)
    requires y / 2 == a / 2
    requires x % 2 == (a % 2 + b % 2) % 2 && y % 2 == (x % 2 + b % 2) % 2
    ensures y == a
  {
  }

  lemma XorDigits(a: nat, b: nat)
    ensures Xor(a, b) / 2 == Xor(a / 2, b / 2)
    ensures Xor(a, b) % 2 == (a % 2 + b % 2) % 2
  {
  }

  lemma {:induction false} XorCommutes(a: nat, b: nat)
    ensures Xor(a, b) == Xor(b, a)
    decreases a + b
  {
    if a != 0 || b != 0 { XorCommutes(a / 2, b / 2); }
  }

  lemma {:induction false} XorWithZero(a: nat)
    ensures Xor(a, 0) == a
  {
    if a > 0 { XorWithZero(a / 2); }
  }

  lemma {:induction false} XorWithSelf(a: nat)
    ensures Xor(a, a) == 0
  {
    if a > 0 { XorWithSelf(a / 2); }
  }

  // The operator on words with one more digit below.
  lemma XorOfDigits(x: nat, y: nat, i: nat, j: nat)
    requires i < 2 && j < 2
    ensures Xor(2 * x + i, 2 * y + j) == 2 * Xor(x, y) + if i == j then 0 else 1
  {
    hide Xor;
    XorDigits(2 * x + i, 2 * y + j);
    DigitBelow(x, i);
    DigitBelow(y, j);
    DigitBelow(Xor(x, y), if i == j then 0 else 1);
    Halves(Xor(2 * x + i, 2 * y + j), 2 * Xor(x, y) + if i == j then 0 else 1);
  }

  lemma DigitBelow(x: nat, i: nat)
    requires i < 2
    ensures (2 * x + i) / 2 == x && (2 * x + i) % 2 == i
  {
  }

  lemma XorOfZeros()
    ensures Xor(0, 0) == 0
  {
  }

  lemma {:induction false} XorAssociates(a: nat, b: nat, c: nat)
    ensures Xor(Xor(a, b), c) == Xor(a, Xor(b, c))
    decreases a + b + c
  {
    hide Xor;
    if a + b + c == 0 {
      XorOfZeros();
    } else {
      var x, y, z, i, j, k := a / 2, b / 2, c / 2, a % 2, b % 2, c % 2;
      XorAssociates(x, y, z);
      OneMoreDigit(x, y, z, i, j, k);
    }
  }

  lemma OneMoreDigit(x: nat, y: nat, z: nat, i: nat, j: nat, k: nat)
    requires i < 2 && j < 2 && k < 2 && Xor(Xor(x, y), z) == Xor(x, Xor(y, z))
    ensures var a, b, c := 2 * x + i, 2 * y + j, 2 * z + k;
      Xor(Xor(a, b), c) == Xor(a, Xor(b, c))
  {
    hide Xor;
    var ij, jk := if i == j then 0 else 1, if j == k then 0 else 1;
    XorOfDigits(x, y, i, j);
    XorOfDigits(Xor(x, y), z, ij, k);
    XorOfDigits(y, z, j, k);
    XorOfDigits(x, Xor(y, z), i, jk);
  }

  lemma Halves(x: nat, y: nat)
    requires x / 2 == y / 2 && x % 2 == y % 2
    ensures x == y
  {
  }

  lemma XorShuffles(a: nat, b: nat, c: nat, d: nat)
    ensures Xor(Xor(a, b), Xor(c, d)) == Xor(Xor(a, c), Xor(b, d))
  {
    hide Xor;
    XorAssociates(a, b, Xor(c, d));
    XorAssociates(b, c, d);
    XorCommutes(b, c);
    XorAssociates(c, b, d);
    XorAssociates(a, c, Xor(b, d));
  }

  // XOR with a word of ones is the complement.
  lemma {:induction false} XorWithOnes(a: nat, n: nat)
    requires a < Pow2(n)
    ensures Xor(a, Pow2(n) - 1) == Pow2(n) - 1 - a
    decreases n
  {
    hide Xor;
    if n == 0 {
      XorOfZeros();
    } else {
      var p := Pow2(n - 1);
      assert Pow2(n) == 2 * p;
      hide Pow2;
      XorWithOnes(a / 2, n - 1);
      XorOfDigits(a / 2, p - 1, a % 2, 1);
      assert 2 * (p - 1) + 1 == 2 * p - 1 && 2 * (a / 2) + a % 2 == a;
    }
  }

  // XOR with a word that has only digits below those of the other adds them.
  lemma {:induction false} XorOfParts(high: nat, low: nat, n: nat)
    requires low < Pow2(n)
    ensures Xor(Pow2(n) * high, low) == Pow2(n) * high + low
    decreases n
  {
    hide Xor;
    if n == 0 {
      XorWithZero(high);
    } else {
      var p := Pow2(n - 1);
      assert Pow2(n) == 2 * p;
      hide Pow2;
      Regroup(2, p, high);
      XorOfParts(high, low / 2, n - 1);
      XorOfDigits(p * high, low / 2, 0, low % 2);
      assert 2 * (low / 2) + low % 2 == low;
    }
  }

  lemma {:induction false} XorFits(a: nat, b: nat, n: nat)
    requires a < Pow2(n) && b < Pow2(n)
    ensures Xor(a, b) < Pow2(n)
    decreases n
  {
    if n > 0 { XorFits(a / 2, b / 2, n - 1); }
  }

  // The top digit survives when only one operand has it.
  lemma {:induction false} XorKeepsTopDigit(a: nat, b: nat, n: nat)
    requires a < Pow2(n) <= b < Pow2(n + 1)
    ensures Pow2(n) <= Xor(a, b)
    decreases n
  {
    if n > 0 { XorKeepsTopDigit(a / 2, b / 2, n - 1); }
  }
}
