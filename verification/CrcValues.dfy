/** Values of the checksum, computed on bit vectors. */
module CrcValues {
  import opened Bits
  import opened Crc32
  import opened Words

  function LowBit(b: bv32): nat {
    if b & 1 == 1 then 1 else 0
  }

  // The number a bit vector stands for.
  function Nat(b: bv32): nat
    decreases b
  {
    if b == 0 then 0 else 2 * Nat(b >> 1) + LowBit(b)
  }

  lemma NatInHalves(b: bv32)
    ensures Nat(b) == 2 * Nat(b >> 1) + LowBit(b)
  {
  }

  function Half(b: bv32): bv32 {
    b >> 1
  }

  function XorBits(a: bv32, b: bv32): bv32 {
    a ^ b
  }

  function Either(a: bv32, b: bv32): bv32 {
    a | b
  }

  lemma HalvesOfXor(a: bv32, b: bv32)
    ensures Half(XorBits(a, b)) == XorBits(Half(a), Half(b))
    ensures LowBit(XorBits(a, b)) == (LowBit(a) + LowBit(b)) % 2
  {
  }

  lemma HalvesAreSmaller(a: bv32, b: bv32)
    ensures if Either(a, b) == 0 then a == 0 && b == 0 else Either(Half(a), Half(b)) < Either(a, b)
  {
  }

  lemma NatOfHalf(b: bv32)
    ensures Nat(b) / 2 == Nat(Half(b)) && Nat(b) % 2 == LowBit(b)
  {
  }

  lemma XorFromHalves(a: nat, b: nat, y: nat)
    requires y / 2 == Xor(a / 2, b / 2) && y % 2 == (a % 2 + b % 2) % 2
    ensures y == Xor(a, b)
  {
    XorDigits(a, b);
    hide Xor;
    Halves(y, Xor(a, b));
  }

  lemma {:induction false} NatOfXor(a: bv32, b: bv32)
    ensures Nat(XorBits(a, b)) == Xor(Nat(a), Nat(b))
    decreases Either(a, b)
  {
    hide *;
    HalvesAreSmaller(a, b);
    if Either(a, b) == 0 {
      ZeroIsZero();
    } else {
      NatOfXor(Half(a), Half(b));
      HalvesOfXor(a, b);
      NatOfHalf(a);
      NatOfHalf(b);
      NatOfHalf(XorBits(a, b));
      XorFromHalves(Nat(a), Nat(b), Nat(XorBits(a, b)));
    }
  }

  lemma ZeroIsZero()
    ensures Nat(XorBits(0, 0)) == 0 == Nat(0) && Xor(0, 0) == 0
  {
  }

  function Step(c: bv32): bv32 {
    if c & 1 == 1 then (c >> 1) ^ 0xEDB8_8320 else c >> 1
  }

  function EightSteps(c: bv32): bv32 {
    Step(Step(Step(Step(Step(Step(Step(Step(c))))))))
  }

  // The lowest two, four and eight digits.
  function LowTwo(b: bv32): nat {
    LowBit(b) + 2 * LowBit(b >> 1)
  }

  function LowFour(b: bv32): nat {
    LowTwo(b) + 4 * LowTwo(b >> 2)
  }

  function LowByte(b: bv32): nat {
    LowFour(b) + 16 * LowFour(b >> 4)
  }

  lemma ShiftsAdd(b: bv32)
    ensures (b >> 1) >> 1 == b >> 2 && (b >> 2) >> 2 == b >> 4 && (b >> 4) >> 4 == b >> 8
  {
  }

  lemma NatInBytes(b: bv32)
    ensures Nat(b) == 256 * Nat(b >> 8) + LowByte(b)
  {
    ShiftsAdd(b);
    hide Nat, LowFour;
    NatInDigits(b);
    NatInDigits(b >> 4);
  }

  lemma NatInDigits(b: bv32)
    ensures Nat(b) == 16 * Nat(b >> 4) + LowFour(b)
  {
    ShiftsAdd(b);
    hide Nat, LowTwo;
    NatInPairs(b);
    NatInPairs(b >> 2);
  }

  lemma NatInPairs(b: bv32)
    ensures Nat(b) == 4 * Nat(b >> 2) + LowTwo(b)
  {
    ShiftsAdd(b);
    hide LowBit;
    NatInHalves(b);
    NatInHalves(b >> 1);
    hide Nat;
  }

  lemma StepIsBitStep(c: bv32)
    requires Nat(c) < TWO_32 && Nat(0xEDB8_8320) == 0xEDB8_8320
    ensures Nat(Step(c)) == BitStep(Nat(c))
  {
    NatOfHalf(c);
    NatOfXor(c >> 1, 0xEDB8_8320);
    hide Nat, Xor;
  }

  lemma PolynomialValue()
    ensures Nat(0xEDB8_8320) == 0xEDB8_8320
  {
    hide Nat;
    NatInBytes(0xEDB8_8320);
    NatInBytes(0xED_B883);
    NatInBytes(0xEDB8);
    NatInBytes(0xED);
    ZeroIsZero();
  }

  lemma OnesValue()
    ensures Nat(0xFFFF_FFFF) == 0xFFFF_FFFF
  {
    hide Nat;
    NatInBytes(0xFFFF_FFFF);
    NatInBytes(0xFF_FFFF);
    NatInBytes(0xFFFF);
    NatInBytes(0xFF);
    ZeroIsZero();
  }

  lemma ResidueValue()
    ensures Nat(0xDEBB_20E3) == 0xDEBB_20E3
  {
    hide Nat;
    NatInBytes(0xDEBB_20E3);
    NatInBytes(0xDE_BB20);
    NatInBytes(0xDEBB);
    NatInBytes(0xDE);
    ZeroIsZero();
  }

  lemma FifteenZerosValue()
    ensures Nat(0x282C_FC18) == 0x282C_FC18
  {
    hide Nat;
    NatInBytes(0x282C_FC18);
    NatInBytes(0x28_2CFC);
    NatInBytes(0x282C);
    NatInBytes(0x28);
    ZeroIsZero();
  }

  lemma StepIs(c: bv32)
    requires Nat(c) < TWO_32
    ensures Nat(Step(c)) == BitStep(Nat(c))
  {
    PolynomialValue();
    hide Nat;
    StepIsBitStep(c);
  }

  function Steps(c: bv32, n: nat): bv32
    decreases n
  {
    if n == 0 then c else Steps(Step(c), n - 1)
  }

  lemma {:induction false} StepsAre(c: bv32, n: nat)
    requires Nat(c) < TWO_32
    ensures Nat(Steps(c, n)) == BitSteps(Nat(c), n)
    decreases n
  {
    hide Nat, Step, BitStep;
    if n > 0 {
      StepIs(c);
      StepsAre(Step(c), n - 1);
    }
  }

  lemma EightStepsAre(c: bv32)
    requires Nat(c) < TWO_32
    ensures Nat(EightSteps(c)) == BitSteps(Nat(c), 8)
  {
    StepsAre(c, 8);
    hide Nat, Step, BitSteps;
    assert Steps(c, 8) == Steps(Step(Step(c)), 6) == Steps(Step(Step(Step(Step(c)))), 4);
    assert Steps(Step(Step(Step(Step(c)))), 4) == EightSteps(c);
  }

  // ----- Zero bytes -----

  function Zeros(k: nat): (z: bytes)
    ensures |z| == k
  {
    if k == 0 then [] else [0] + Zeros(k - 1)
  }

  function AfterZeros(c: bv32, k: nat): bv32
    decreases k
  {
    if k == 0 then c else AfterZeros(EightSteps(c), k - 1)
  }

  lemma {:induction false} ZerosUpdate(c: bv32, k: nat)
    requires Nat(c) < TWO_32
    ensures Update(Nat(c), Zeros(k)) == Nat(AfterZeros(c, k))
    decreases k
  {
    hide Nat, EightSteps, BitSteps, Xor;
    if k > 0 {
      EightStepsAre(c);
      XorWithZero(Nat(c));
      ZerosUpdate(EightSteps(c), k - 1);
      assert Zeros(k)[1..] == Zeros(k - 1);
    }
  }

  lemma ZerosValues()
    ensures AfterZeros(0xFFFF_FFFF, 4) == 0xDEBB_20E3 && AfterZeros(0xFFFF_FFFF, 15) == 0x282C_FC18
  {
    assert EightSteps(0xFFFF_FFFF) == 0x2DFD_1072;
    assert EightSteps(0x2DFD_1072) == 0xBE26_ED00;
    assert EightSteps(0xBE26_ED00) == 0x00BE_26ED;
    assert EightSteps(0x00BE_26ED) == 0xDEBB_20E3;
    assert EightSteps(0xDEBB_20E3) == 0x39DD_08E2;
    assert EightSteps(0x39DD_08E2) == 0x4E3D_5E5C;
    assert EightSteps(0x4E3D_5E5C) == 0x6293_2081;
    assert EightSteps(0x6293_2081) == 0x9ADD_2096;
    assert EightSteps(0x9ADD_2096) == 0x19F6_EB51;
    assert EightSteps(0x19F6_EB51) == 0x1C75_9789;
    assert EightSteps(0x1C75_9789) == 0x9478_4E13;
    assert EightSteps(0x9478_4E13) == 0x842A_3990;
    assert EightSteps(0x842A_3990) == 0xF08B_B97D;
    assert EightSteps(0xF08B_B97D) == 0x2E44_8638;
    assert EightSteps(0x2E44_8638) == 0x282C_FC18;
    hide EightSteps;
    assert AfterZeros(0xDEBB_20E3, 11) == 0x282C_FC18;
  }

  lemma FourZerosAre32Steps()
    ensures BitSteps(0xFFFF_FFFF, 32) == 0xDEBB_20E3
  {
    OnesValue();
    ResidueValue();
    ZerosUpdate(0xFFFF_FFFF, 4);
    ZerosValues();
    UpdateIsDivision(0xFFFF_FFFF, Zeros(4));
    ZerosStandForZero(4);
    XorWithZero(0xFFFF_FFFF);
    hide *;
  }

  lemma {:induction false} ZerosStandForZero(k: nat)
    ensures GetLE(Zeros(k)) == 0
  {
    if k > 0 {
      ZerosStandForZero(k - 1);
      assert Zeros(k)[1..] == Zeros(k - 1);
    }
  }

  // The constant residue of clause 3.2.9, reflected: data followed by four bytes leaves it exactly
  // when the bytes are the checksum of the data.
  lemma ResidueIff(data: bytes, end: bytes)
    requires |end| == 4
    ensures Update(0xFFFF_FFFF, data + end) == 0xDEBB_20E3 <==> end == PutLE(Checksum(data), 4)
  {
    UpdateByChecksum(data);
    FourZerosAre32Steps();
    UpdateInTwoParts(0xFFFF_FFFF, data, end);
    UpdateInTwoParts(0xFFFF_FFFF, data, PutLE(Checksum(data), 4));
    hide Update, PutLE, BitSteps, Checksum;
    var c := Update(0xFFFF_FFFF, data);
    if Update(c, end) == Update(c, PutLE(Checksum(data), 4)) {
      BurstTells(c, end, PutLE(Checksum(data), 4), 0);
    }
  }

  // Fifteen zero bytes, the length of a record header, have a checksum other than zero.
  lemma ZerosChecksum()
    ensures Checksum(Zeros(15)) == 0xFFFF_FFFF - 0x282C_FC18
  {
    OnesValue();
    FifteenZerosValue();
    ZerosUpdate(0xFFFF_FFFF, 15);
    ZerosValues();
    OnesComplement(Update(0xFFFF_FFFF, Zeros(15)));
    hide Update, Zeros, Nat, AfterZeros, Xor, XorWord;
  }
}
