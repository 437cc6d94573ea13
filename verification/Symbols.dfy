/** The hash that gives a symbol its position slot: FNV-1a over the text of the symbol. */
module Symbols {
  import opened Arith
  import opened Bits
  import opened Orders
  import opened Words
  import Ring

  // The 32-bit FNV-1a hash of a text.
  function Fnv(text: bytes): (h: nat)
    ensures h < TWO_32
    decreases |text|
  {
    if text == [] then 2166136261 else Hashed(Fnv(text[..|text| - 1]), text[|text| - 1])
  }

  function Hashed(h: nat, b: byte): (r: nat)
    ensures r < TWO_32
  {
    Xor(h, b) * 16777619 % 0x1_0000_0000
  }

  lemma FnvStep(text: bytes, b: byte)
    ensures Fnv(text + [b]) == Hashed(Fnv(text), b)
  {
    hide Hashed;
    assert (text + [b])[..|text|] == text;
  }

  // Hashing from the front, as the loop does, is hashing from the back.
  lemma {:induction false} HashFromIsFnv(front: bytes, text: bytes)
    requires 0 !in text
    ensures HashFrom(Fnv(front), text) == Fnv(front + text)
    decreases |text|
  {
    if text == [] {
      assert front + text == front;
    } else {
      FnvStep(front, text[0]);
      assert front + text == front + [text[0]] + text[1..];
      HashFromIsFnv(front + [text[0]], text[1..]);
      hide Fnv, Xor;
    }
  }

  lemma MaskOf4096(x: nat)
    ensures And(x, 0x0FFF) == x % 4096
  {
    Ring.PowersPass(12);
    assert Pow2(6) == 64 && Pow2(12) == 4096;
    hide And, Pow2;
    MaskIsRemainder(x, 4096);
  }

  // The slot of a symbol, a text padded with zeros, is the hash of the text modulo 4096.
  lemma SlotIsFnv(symbol: Name, text: bytes, rest: bytes)
    requires symbol == text + rest && 0 !in text && (rest == [] || rest[0] == 0)
    ensures HashSymbol(symbol) == Fnv(text) % 4096
  {
    HashStopsAtPadding(2166136261, text, rest);
    HashFromIsFnv([], text);
    assert [] + text == text;
    MaskOf4096(Fnv(text));
    hide HashFrom, Fnv, And;
  }

  // ----- What the hash tells -----

  // A factor with an inverse can be taken off again.
  lemma Undo(x: nat, p: nat, q: nat, k: nat, m: nat)
    requires m > 0 && x < m && p * q == k * m + 1
    ensures (x * p % m) * q % m == x
  {
    var t := x * p / m;
    Euclid(x * p, m);
    var y := x * p % m;
    assert y * q == x + m * (x * k - t * q) by {
      assert y == x * p - m * t;
      assert (x * p - m * t) * q == (x * p) * q - (m * t) * q;
      Regroup(x, p, q);
      Regroup(m, t, q);
      assert x * (k * m + 1) == x * (k * m) + x;
      assert x * (k * m) == m * (x * k);
      Distribute(m, x * k, t * q);
    }
    DivisionIs(y * q, m, x * k - t * q, x);
  }

  lemma FactorTells(x: nat, y: nat, p: nat, q: nat, k: nat, m: nat)
    requires m > 0 && x < m && y < m && p * q == k * m + 1 && x * p % m == y * p % m
    ensures x == y
  {
    Undo(x, p, q, k, m);
    Undo(y, p, q, k, m);
  }

  lemma XorOfWord(h: nat, b: byte)
    requires h < TWO_32
    ensures Xor(h, b) < TWO_32
  {
    assert Pow2(8) == 256;
    Pow2Adds(8, 8);
    Pow2Adds(16, 16);
    hide Xor, Pow2;
    XorFits(h, b, 32);
  }

  lemma XorTells(h: nat, h': nat, b: byte, b': byte)
    requires Xor(h, b) == Xor(h', b')
    ensures b == b' ==> h == h'
    ensures h == h' ==> b == b'
  {
    XorCancels(h, b);
    XorCancels(h', b');
    XorCommutes(h, b);
    XorCommutes(h', b');
    XorCancels(b, h);
    XorCancels(b', h');
    hide Xor;
  }

  // One step of the hash is injective in the hash before it and in the byte.
  lemma HashStepTells(h: nat, h': nat, b: byte, b': byte)
    requires h < TWO_32 && h' < TWO_32 && Hashed(h, b) == Hashed(h', b')
    ensures b == b' ==> h == h'
    ensures h == h' ==> b == b'
  {
    hide Xor;
    XorOfWord(h, b);
    XorOfWord(h', b');
    FactorTells(Xor(h, b), Xor(h', b'), 16777619, 899433627, 3513497, 0x1_0000_0000);
    XorTells(h, h', b, b');
  }

  lemma {:induction false} SameEndTells(a: bytes, b: bytes, end: bytes)
    requires Fnv(a + end) == Fnv(b + end)
    ensures Fnv(a) == Fnv(b)
    decreases |end|
  {
    if end == [] {
      assert a + end == a && b + end == b;
    } else {
      var front, x := end[..|end| - 1], end[|end| - 1];
      assert a + end == (a + front) + [x] && b + end == (b + front) + [x];
      FnvStep(a + front, x);
      FnvStep(b + front, x);
      hide Fnv, Hashed;
      HashStepTells(Fnv(a + front), Fnv(b + front), x, x);
      SameEndTells(a, b, front);
    }
  }

  // Symbols that differ in one letter have different 32-bit hashes.
  lemma HashSeesEveryLetter(front: bytes, x: byte, y: byte, end: bytes)
    requires x != y
    ensures Fnv(front + [x] + end) != Fnv(front + [y] + end)
  {
    hide Fnv, Hashed;
    if Fnv(front + [x] + end) == Fnv(front + [y] + end) {
      SameEndTells(front + [x], front + [y], end);
      FnvStep(front, x);
      FnvStep(front, y);
      HashStepTells(Fnv(front), Fnv(front), x, y);
    }
  }

  lemma {:induction false} XorKeepsHigh(h: nat, b: nat, n: nat)
    requires b < Pow2(n)
    ensures Xor(h, b) / Pow2(n) == h / Pow2(n)
    decreases n
  {
    if n == 0 {
      XorWithZero(h);
    } else {
      var p := Pow2(n - 1);
      XorDigits(h, b);
      hide Xor;
      XorKeepsHigh(h / 2, b / 2, n - 1);
      HalfFirst(Xor(h, b), p);
      HalfFirst(h, p);
    }
  }

  lemma HalfFirst(x: nat, p: nat)
    requires p > 0
    ensures x / (2 * p) == x / 2 / p
  {
    var q, r := x / 2 / p, x / 2 % p;
    Euclid(x / 2, p);
    assert x == 2 * (p * q) + (2 * r + x % 2);
    assert (2 * p) * q == 2 * (p * q);
    DivisionIs(x, 2 * p, q, 2 * r + x % 2);
  }

  // Symbols that differ in their last letter only never share a slot.
  lemma LastLetterTellsSlot(front: bytes, x: byte, y: byte)
    requires x != y
    ensures Fnv(front + [x]) % 4096 != Fnv(front + [y]) % 4096
  {
    var h := Fnv(front);
    FnvStep(front, x);
    FnvStep(front, y);
    LowDigitsOfHash(h, x);
    LowDigitsOfHash(h, y);
    var u, v := Xor(h, x), Xor(h, y);
    assert Pow2(8) == 256;
    XorKeepsHigh(h, x, 8);
    XorKeepsHigh(h, y, 8);
    hide Xor, Fnv, Hashed, Pow2;
    if Fnv(front + [x]) % 4096 == Fnv(front + [y]) % 4096 {
      FactorTells(u % 4096, v % 4096, 16777619, 1179, 4829300, 4096);
      CloseWords(u, v);
      XorTells(h, h, x, y);
    }
  }

  lemma CloseWords(u: nat, v: nat)
    requires u / 256 == v / 256 && u % 4096 == v % 4096
    ensures u == v
  {
  }

  lemma LowDigitsOfHash(h: nat, b: byte)
    ensures Hashed(h, b) % 4096 == Xor(h, b) % 4096 * 16777619 % 4096
  {
    hide Xor;
    var u, p := Xor(h, b), 16777619;
    RemainderOfRemainder(u * p, 0x1_0000_0000, 4096);
    RemainderOfFactor(u, p, 4096);
  }

  lemma RemainderOfFactor(u: nat, p: nat, m: nat)
    requires m > 0
    ensures u * p % m == u % m * p % m
  {
    var q, r := u / m, u % m;
    Euclid(u, m);
    Euclid(r * p, m);
    assert u * p == m * (q * p) + r * p by { Regroup(m, q, p); }
    Distribute(m, q * p, r * p / m);
    DivisionIs(u * p, m, q * p + r * p / m, r * p % m);
  }
}
