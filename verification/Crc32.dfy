/**
 * The CRC-32 checksum of IEEE 802.3 clause 3.2.9, in its reflected form: the checksum that
 * every record of the log carries.
 */
module Crc32 {
  import opened Arith
  import opened Bits
  import opened Words

  const POLYNOMIAL: uint32 := 0xEDB8_8320
  const ALL_ONES: uint32 := 0xFFFF_FFFF

  lemma WordWidth()
    ensures Pow2(32) == TWO_32 && Pow2(31) == TWO_31
  {
    assert Pow2(8) == 256;
    assert Pow2(16) == 65536;
    assert Pow2(24) == 0x100_0000;
  }

  // The generator of clause 3.2.9, x^32 + x^26 + x^23 + x^22 + x^16 + x^12 + x^11 + x^10 + x^8
  // + x^7 + x^5 + x^4 + x^2 + x + 1: the coefficient of x^k is bit 31 - k, and x^32 is the bit
  // shifted out.
  lemma GeneratorOfTheStandard()
    ensures POLYNOMIAL ==
      Pow2(31 - 26) + Pow2(31 - 23) + Pow2(31 - 22) + Pow2(31 - 16) + Pow2(31 - 12) + Pow2(31 - 11)
      + Pow2(31 - 10) + Pow2(31 - 8) + Pow2(31 - 7) + Pow2(31 - 5) + Pow2(31 - 4) + Pow2(31 - 2)
      + Pow2(31 - 1) + Pow2(31 - 0)
  {
    assert Pow2(5) == 0x20 && Pow2(9) == 0x200 && Pow2(15) == 0x8000;
    assert Pow2(19) == 0x8_0000 && Pow2(23) == 0x80_0000 && Pow2(27) == 0x800_0000;
  }

  function XorWord(a: uint32, b: uint32): (x: uint32)
    ensures x == Xor(a, b)
  {
    WordWidth();
    XorFits(a, b, 32);
    Xor(a, b)
  }

  // One division step: shift the low bit out, and subtract the polynomial if it was set.
  function BitStep(c: uint32): uint32 {
    if c % 2 == 1 then XorWord(c / 2, POLYNOMIAL) else c / 2
  }

  function BitSteps(c: uint32, n: nat): uint32
    decreases n, c
  {
    if n == 0 then c else BitSteps(BitStep(c), n - 1)
  }

  function ByteStep(c: uint32, b: byte): uint32 {
    BitSteps(XorWord(c, b), 8)
  }

  function Update(c: uint32, data: bytes): uint32
    decreases |data|
  {
    if data == [] then c else Update(ByteStep(c, data[0]), data[1..])
  }

  function Checksum(data: bytes): uint32 {
    XorWord(Update(ALL_ONES, data), ALL_ONES)
  }

  // The loop that consumes the data byte by byte.
  method ComputeChecksum(data: bytes) returns (crc: uint32)
    ensures crc == Checksum(data)
  {
    hide Xor, XorWord, BitStep;
    var c := ALL_ONES;
    for i := 0 to |data|
      invariant Update(c, data[i..]) == Update(ALL_ONES, data)
    {
      assert data[i..][1..] == data[i + 1..];
      var x := XorWord(c, data[i]);
      for k := 0 to 8
        invariant BitSteps(x, 8 - k) == ByteStep(c, data[i])
      {
        x := BitStep(x);
      }
      c := x;
    }
    crc := XorWord(c, ALL_ONES);
  }

  lemma XorInjective(a: uint32, a': uint32, b: uint32)
    requires XorWord(a, b) == XorWord(a', b)
    ensures a == a'
  {
    XorCancels(a, b);
    XorCancels(a', b);
  }

  // The polynomial has the top bit and a shifted word does not, so the outcome tells whether
  // the polynomial was subtracted, and the step can be undone.
  lemma BitStepInjective(c: uint32, c': uint32)
    requires BitStep(c) == BitStep(c')
    ensures c == c'
  {
    WordWidth();
    if c % 2 == 1 { XorKeepsTopDigit(c / 2, POLYNOMIAL, 31); }
    if c' % 2 == 1 { XorKeepsTopDigit(c' / 2, POLYNOMIAL, 31); }
    if c % 2 == 1 && c' % 2 == 1 { XorInjective(c / 2, c' / 2, POLYNOMIAL); }
  }

  lemma {:induction false} BitStepsInjective(c: uint32, c': uint32, n: nat)
    requires BitSteps(c, n) == BitSteps(c', n)
    ensures c == c'
    decreases n
  {
    if n > 0 {
      BitStepsInjective(BitStep(c), BitStep(c'), n - 1);
      BitStepInjective(c, c');
    }
  }

  // A step over one byte is injective in the running state and in the byte.
  lemma ByteStepInjective(c: uint32, c': uint32, b: byte, b': byte)
    requires ByteStep(c, b) == ByteStep(c', b')
    ensures b == b' ==> c == c'
    ensures c == c' ==> b == b'
  {
    BitStepsInjective(XorWord(c, b), XorWord(c', b'), 8);
    if b == b' { XorInjective(c, c', b); }
    if c == c' {
      XorCommutes(c, b);
      XorCommutes(c, b');
      XorInjective(b, b', c);
    }
  }

  lemma {:induction false} UpdateInjective(c: uint32, c': uint32, data: bytes)
    requires Update(c, data) == Update(c', data)
    ensures c == c'
    decreases |data|
  {
    if data != [] {
      UpdateInjective(ByteStep(c, data[0]), ByteStep(c', data[0]), data[1..]);
      ByteStepInjective(c, c', data[0], data[0]);
    }
  }

  // ----- Bursts -----

  // The word shifted right.
  function High(x: nat, k: nat): nat {
    if k == 0 then x else High(x / 2, k - 1)
  }

  lemma {:induction false} HighAdds(x: nat, j: nat, k: nat)
    ensures High(High(x, j), k) == High(x, j + k)
    decreases j
  {
    if j > 0 { HighAdds(x / 2, j - 1, k); }
  }

  lemma HighAgrees(x: nat, y: nat, j: nat, k: nat)
    requires High(x, j) == High(y, j) && j <= k
    ensures High(x, k) == High(y, k)
  {
    HighAdds(x, j, k - j);
    HighAdds(y, j, k - j);
    hide High;
  }

  lemma {:induction false} HighOfXor(a: nat, b: nat, k: nat)
    ensures High(Xor(a, b), k) == Xor(High(a, k), High(b, k))
    decreases k
  {
    hide Xor;
    XorDigits(a, b);
    if k > 0 { HighOfXor(a / 2, b / 2, k - 1); }
  }

  lemma {:induction false} HighIsTop(x: nat, n: nat)
    requires x < Pow2(n + 1)
    ensures High(x, n) == if x >= Pow2(n) then 1 else 0
    decreases n
  {
    if n > 0 { HighIsTop(x / 2, n - 1); }
  }

  lemma {:induction false} HighOfSmall(x: nat, n: nat)
    requires x < Pow2(n)
    ensures High(x, n) == 0
    decreases n
  {
    if n > 0 { HighOfSmall(x / 2, n - 1); }
  }

  lemma XorCancelsOut(a: nat, a': nat, b: nat)
    requires Xor(a, b) == Xor(a', b)
    ensures a == a'
  {
    XorCancels(a, b);
    XorCancels(a', b);
  }

  // The top bit of a step's result is the bit shifted out.
  lemma TopBitTells(c: uint32)
    ensures High(BitStep(c), 31) == c % 2
  {
    WordWidth();
    if c % 2 == 1 { XorKeepsTopDigit(c / 2, POLYNOMIAL, 31); }
    HighIsTop(BitStep(c), 31);
    hide High, Xor;
  }

  lemma BitStepShows(c: uint32, c': uint32, k: nat)
    requires k <= 31 && High(BitStep(c), k) == High(BitStep(c'), k)
    ensures c % 2 == c' % 2 && High(c, k + 1) == High(c', k + 1)
  {
    TopBitTells(c);
    TopBitTells(c');
    HighAgrees(BitStep(c), BitStep(c'), k, 31);
    HighAdds(c, 1, k);
    HighAdds(c', 1, k);
    assert High(c, 1) == c / 2 && High(c', 1) == c' / 2;
    hide High, Xor;
    if c % 2 == 1 {
      HighOfXor(c / 2, POLYNOMIAL, k);
      HighOfXor(c' / 2, POLYNOMIAL, k);
      XorCancelsOut(High(c / 2, k), High(c' / 2, k), High(POLYNOMIAL, k));
    }
  }

  lemma {:induction false} BitStepsShow(c: uint32, c': uint32, n: nat, k: nat)
    requires n + k <= 32 && High(BitSteps(c, n), k) == High(BitSteps(c', n), k)
    ensures High(c, n + k) == High(c', n + k)
    decreases n
  {
    hide High, BitStep;
    if n > 0 {
      BitStepsShow(BitStep(c), BitStep(c'), n - 1, k);
      BitStepShows(c, c', n + k - 1);
    }
  }

  lemma HighOfStep(c: uint32, c': uint32, k: nat)
    requires c % 2 == c' % 2 && High(c, k + 1) == High(c', k + 1)
    ensures High(BitStep(c), k) == High(BitStep(c'), k)
  {
    assert High(c, k + 1) == High(c / 2, k) && High(c', k + 1) == High(c' / 2, k);
    hide High, Xor;
    if c % 2 == 1 {
      HighOfXor(c / 2, POLYNOMIAL, k);
      HighOfXor(c' / 2, POLYNOMIAL, k);
    }
  }

  // Words that agree above their n low bits, and after n steps in their n high bits, agree.
  lemma {:induction false} BitStepsTell(c: uint32, c': uint32, n: nat)
    requires n <= 32 && High(c, n) == High(c', n)
    requires High(BitSteps(c, n), 32 - n) == High(BitSteps(c', n), 32 - n)
    ensures c == c'
    decreases n
  {
    if n > 0 {
      hide High, BitStep;
      BitStepsShow(BitStep(c), BitStep(c'), n - 1, 32 - n);
      BitStepShows(c, c', 31);
      HighOfStep(c, c', n - 1);
      HighAgrees(BitSteps(c, n), BitSteps(c', n), 32 - n, 33 - n);
      BitStepsTell(BitStep(c), BitStep(c'), n - 1);
      BitStepInjective(c, c');
    }
  }

  // A byte only touches the low eight bits.
  lemma HighOfByte(c: uint32, b: byte, k: nat)
    requires k >= 8
    ensures High(XorWord(c, b), k) == High(c, k)
  {
    assert Pow2(8) == 256;
    HighOfSmall(b, 8);
    HighAgrees(b, 0, 8, k);
    HighOfZero(k);
    HighOfXor(c, b, k);
    XorWithZero(High(c, k));
    hide High, Xor;
  }

  lemma {:induction false} HighOfZero(k: nat)
    ensures High(0, k) == 0 && High(0, 8) == 0
    decreases k
  {
    if k > 0 { HighOfZero(k - 1); }
  }

  lemma {:induction false} UpdateShows(c: uint32, c': uint32, a: bytes, b: bytes, k: nat)
    requires |a| == |b| && k + 8 * |a| <= 32 && High(Update(c, a), k) == High(Update(c', b), k)
    ensures High(c, k + 8 * |a|) == High(c', k + 8 * |a|)
    decreases |a|
  {
    hide High, XorWord, BitSteps;
    if a != [] {
      var j := k + 8 * |a| - 8;
      UpdateShows(ByteStep(c, a[0]), ByteStep(c', b[0]), a[1..], b[1..], k);
      BitStepsShow(XorWord(c, a[0]), XorWord(c', b[0]), 8, j);
      HighOfByte(c, a[0], j + 8);
      HighOfByte(c', b[0], j + 8);
    }
  }

  // From the same state, bytes are determined by as many high bytes of the state after them.
  lemma {:induction false} BurstTells(c: uint32, a: bytes, b: bytes, k: nat)
    requires |a| == |b| && k + 8 * |a| <= 32 && High(Update(c, a), k) == High(Update(c, b), k)
    ensures a == b
    decreases |a|
  {
    hide High, XorWord, BitSteps;
    if a != [] {
      var d, e := ByteStep(c, a[0]), ByteStep(c, b[0]);
      UpdateShows(d, e, a[1..], b[1..], k);
      HighAgrees(d, e, k + 8 * |a| - 8, 24);
      HighOfByte(c, a[0], 8);
      HighOfByte(c, b[0], 8);
      BitStepsTell(XorWord(c, a[0]), XorWord(c, b[0]), 8);
      ByteStepInjective(c, c, a[0], b[0]);
      BurstTells(d, a[1..], b[1..], k);
      assert a == [a[0]] + a[1..] && b == [b[0]] + b[1..];
    }
  }

  lemma {:induction false} UpdateInTwoParts(c: uint32, a: bytes, b: bytes)
    ensures Update(c, a + b) == Update(Update(c, a), b)
    decreases |a|
  {
    hide ByteStep;
    if a == [] {
      assert a + b == b;
    } else {
      assert (a + b)[1..] == a[1..] + b;
      UpdateInTwoParts(ByteStep(c, a[0]), a[1..], b);
    }
  }

  // Data that ends in different bytes, at most four, has checksums that differ in their high
  // bytes, as many as are left of the four.
  lemma ChecksumSeesEnd(front: bytes, a: bytes, b: bytes, k: nat)
    requires |a| == |b| && k + 8 * |a| <= 32 && a != b
    ensures High(Checksum(front + a), k) != High(Checksum(front + b), k)
  {
    var c := Update(ALL_ONES, front);
    UpdateInTwoParts(ALL_ONES, front, a);
    UpdateInTwoParts(ALL_ONES, front, b);
    HighOfXor(Update(c, a), ALL_ONES, k);
    HighOfXor(Update(c, b), ALL_ONES, k);
    hide High, Update, Xor;
    if High(Checksum(front + a), k) == High(Checksum(front + b), k) {
      XorCancelsOut(High(Update(c, a), k), High(Update(c, b), k), High(ALL_ONES, k));
      BurstTells(c, a, b, k);
    }
  }

  // Changing at most four consecutive bytes changes the checksum.
  lemma ChecksumSeesBurst(front: bytes, a: bytes, b: bytes, back: bytes)
    requires |a| == |b| <= 4 && a != b
    ensures Checksum(front + a + back) != Checksum(front + b + back)
  {
    var c := Update(ALL_ONES, front);
    UpdateInTwoParts(ALL_ONES, front + a, back);
    UpdateInTwoParts(ALL_ONES, front + b, back);
    UpdateInTwoParts(ALL_ONES, front, a);
    UpdateInTwoParts(ALL_ONES, front, b);
    hide Update, XorWord;
    if Checksum(front + a + back) == Checksum(front + b + back) {
      XorInjective(Update(Update(c, a), back), Update(Update(c, b), back), ALL_ONES);
      UpdateInjective(Update(c, a), Update(c, b), back);
      BurstTells(c, a, b, 0);
    }
  }

  // Changing any one byte changes the checksum.
  lemma ChecksumSeesEveryByte(data: bytes, i: nat, b: byte)
    requires i < |data| && data[i] != b
    ensures Checksum(data[i := b]) != Checksum(data)
  {
    var front, back := data[..i], data[i + 1..];
    assert data == front + [data[i]] + back && data[i := b] == front + [b] + back;
    ChecksumSeesBurst(front, [data[i]], [b], back);
  }

  // ----- The two complements of clause 3.2.9 -----

  // Two words both with the word p taken off, or one of them.
  lemma XorOfBoth(x: nat, y: nat, p: nat)
    ensures Xor(Xor(x, p), Xor(y, p)) == Xor(x, y)
    ensures Xor(Xor(x, p), y) == Xor(Xor(x, y), p) == Xor(x, Xor(y, p))
  {
    hide Xor;
    XorShuffles(x, p, y, p);
    XorWithSelf(p);
    XorWithZero(Xor(x, y));
    XorAssociates(x, p, y);
    XorCommutes(p, y);
    XorAssociates(x, y, p);
  }

  lemma BitStepLinear(a: uint32, b: uint32)
    ensures BitStep(XorWord(a, b)) == XorWord(BitStep(a), BitStep(b))
  {
    hide Xor;
    XorDigits(a, b);
    XorOfBoth(a / 2, b / 2, POLYNOMIAL);
  }

  lemma {:induction false} BitStepsLinear(a: uint32, b: uint32, n: nat)
    ensures BitSteps(XorWord(a, b), n) == XorWord(BitSteps(a, n), BitSteps(b, n))
    decreases n
  {
    hide XorWord, BitStep;
    if n > 0 {
      BitStepLinear(a, b);
      BitStepsLinear(BitStep(a), BitStep(b), n - 1);
    }
  }

  lemma {:induction false} BitStepsAdd(c: uint32, m: nat, n: nat)
    ensures BitSteps(c, m + n) == BitSteps(BitSteps(c, m), n)
    decreases m
  {
    hide BitStep;
    if m > 0 { BitStepsAdd(BitStep(c), m - 1, n); }
  }

  // Zeros shifted in below a word come out again.
  lemma {:induction false} ShiftedOut(g: nat, n: nat)
    requires Pow2(n) * g < TWO_32
    ensures BitSteps(Pow2(n) * g, n) == g
    decreases n
  {
    if n > 0 {
      var p := Pow2(n - 1) * g;
      assert Pow2(n) * g == 2 * p by { Regroup(2, Pow2(n - 1), g); }
      assert BitStep(2 * p) == p;
      hide BitStep;
      ShiftedOut(g, n - 1);
    }
  }

  // The bytes after the first only meet the state once the first is through.
  lemma FirstByteOf(c: uint32, b: bytes)
    requires 0 < |b| <= 4
    ensures GetLE(b) < TWO_32 && GetLE(b[1..]) < TWO_32
    ensures BitSteps(XorWord(c, GetLE(b)), 8) == XorWord(ByteStep(c, b[0]), GetLE(b[1..]))
  {
    FitsWord(b);
    FitsWord(b[1..]);
    var first, g := b[0], GetLE(b[1..]);
    assert GetLE(b) == first + 256 * g;
    assert Pow2(8) == 256;
    hide Xor, GetLE, BitSteps, Pow2;
    XorOfParts(g, first, 8);
    XorCommutes(256 * g, first);
    XorAssociates(c, first, 256 * g);
    BitStepsLinear(XorWord(c, first), 256 * g, 8);
    ShiftedOut(g, 8);
  }

  // Taking in up to four bytes is so many division steps on the state and the bytes together.
  lemma {:induction false} UpdateIsDivision(c: uint32, b: bytes)
    requires |b| <= 4
    ensures GetLE(b) < TWO_32
    ensures Update(c, b) == BitSteps(XorWord(c, GetLE(b)), 8 * |b|)
    decreases |b|
  {
    FitsWord(b);
    hide Xor, XorWord, BitSteps, ByteStep, GetLE;
    if b == [] {
      OfNothing(c);
    } else {
      FirstByteOf(c, b);
      BitStepsAdd(XorWord(c, GetLE(b)), 8, 8 * |b| - 8);
      UpdateIsDivision(ByteStep(c, b[0]), b[1..]);
    }
  }

  lemma OfNothing(c: uint32)
    ensures GetLE([]) == 0 && BitSteps(XorWord(c, 0), 0) == c
  {
    XorWithZero(c);
    hide Xor;
  }

  lemma FitsWord(b: bytes)
    requires |b| <= 4
    ensures GetLE(b) < TWO_32
  {
    PutGet(b);
    Widths();
    assert Pow256(1) == 256 && Pow256(3) == 0x100_0000;
  }

  lemma OnesComplement(c: uint32)
    ensures XorWord(c, 0xFFFF_FFFF) == 0xFFFF_FFFF - c && XorWord(0xFFFF_FFFF, c) == 0xFFFF_FFFF - c
  {
    WordWidth();
    XorWithOnes(c, 32);
    XorCommutes(c, 0xFFFF_FFFF);
    hide Xor, Pow2;
  }

  function Complements(b: bytes): (r: bytes)
    ensures |r| == |b|
  {
    seq(|b|, k requires 0 <= k < |b| => 255 - b[k])
  }

  lemma ComplementsValue(b: bytes)
    requires |b| == 4
    ensures GetLE(Complements(b)) == 0xFFFF_FFFF - GetLE(b)
  {
    var c := Complements(b);
    FourBytes(b);
    FourBytes(c);
    hide GetLE;
  }

  lemma FourBytes(b: bytes)
    requires |b| == 4
    ensures var b0: int, b1: int, b2: int, b3: int := b[0], b[1], b[2], b[3];
      GetLE(b) == b0 + 0x100 * b1 + 0x1_0000 * b2 + 0x100_0000 * b3
  {
    var b1: int, b2: int, b3: int := b[1], b[2], b[3];
    assert b[1..][1..] == b[2..] && b[2..][1..] == b[3..] && b[3..][1..] == [];
    assert GetLE(b[3..]) == b3;
    assert GetLE(b[2..]) == b2 + 256 * b3;
    assert GetLE(b[1..]) == b1 + 256 * (b2 + 256 * b3);
  }

  // Clause 3.2.9: the first 32 bits of the data are complemented, the data is divided, and the
  // remainder is complemented.
  lemma ChecksumOfTheStandard(data: bytes)
    requires |data| >= 4
    ensures Checksum(data) == 0xFFFF_FFFF - Update(0, Complements(data[..4]) + data[4..])
  {
    var d, rest := data[..4], data[4..];
    assert data == d + rest;
    UpdateInTwoParts(0xFFFF_FFFF, d, rest);
    UpdateInTwoParts(0, Complements(d), rest);
    UpdateIsDivision(0xFFFF_FFFF, d);
    UpdateIsDivision(0, Complements(d));
    ComplementsValue(d);
    OnesComplement(GetLE(d));
    OnesComplement(Update(0xFFFF_FFFF, data));
    XorCommutes(0, GetLE(Complements(d)));
    XorWithZero(GetLE(Complements(d)));
    hide Xor, GetLE, BitSteps, Update, Complements;
  }

  // The state once the data and a checksum have gone through does not depend on the data.
  lemma UpdateByChecksum(data: bytes)
    ensures Update(0xFFFF_FFFF, data + PutLE(Checksum(data), 4)) == BitSteps(0xFFFF_FFFF, 32)
  {
    hide Xor, XorWord, GetLE, PutLE, BitSteps, Update, Checksum;
    var c := Update(0xFFFF_FFFF, data);
    var w := Checksum(data);
    ChecksumIs(data);
    UpdateInTwoParts(0xFFFF_FFFF, data, PutLE(w, 4));
    Get32(w);
    UpdateIsDivision(c, PutLE(w, 4));
    XorOfXor(c);
  }

  lemma ChecksumIs(data: bytes)
    ensures Checksum(data) == XorWord(Update(0xFFFF_FFFF, data), 0xFFFF_FFFF)
  {
  }

  lemma XorOfXor(c: uint32)
    ensures XorWord(c, XorWord(c, 0xFFFF_FFFF)) == 0xFFFF_FFFF
  {
    hide Xor;
    XorCommutes(c, 0xFFFF_FFFF);
    XorCommutes(c, XorWord(c, 0xFFFF_FFFF));
    XorCancels(0xFFFF_FFFF, c);
  }
}
