/**
 * Machine words: bytes, fixed-width integers with their wrap-around, and the little-endian
 * layout shared by the log, the order payload and their readers.
 */
module Words {
  import opened Arith

  type byte = b: int | 0 <= b < 256
  type bytes = seq<byte>

  const TWO_31: int := 0x8000_0000
  const TWO_32: int := 0x1_0000_0000
  const TWO_63: int := 0x8000_0000_0000_0000
  const TWO_64: int := 0x1_0000_0000_0000_0000

  type uint32 = v: int | 0 <= v < 0x1_0000_0000
  type uint64 = v: int | 0 <= v < 0x1_0000_0000_0000_0000
  type int32 = v: int | -0x8000_0000 <= v < 0x8000_0000
  type int64 = v: int | -0x8000_0000_0000_0000 <= v < 0x8000_0000_0000_0000

  // Conversion of an exact result to a signed word: the representative modulo the word size.
  function Wrap32(v: int): (w: int32)
    ensures (w - v) % TWO_32 == 0
    ensures -TWO_31 <= v < TWO_31 ==> w == v
  {
    if v % TWO_32 < TWO_31 then v % TWO_32 else v % TWO_32 - TWO_32
  }

  function Wrap64(v: int): (w: int64)
    ensures (w - v) % TWO_64 == 0
    ensures -TWO_63 <= v < TWO_63 ==> w == v
  {
    if v % TWO_64 < TWO_63 then v % TWO_64 else v % TWO_64 - TWO_64
  }

  lemma Wrap32Congruent(a: int, b: int)
    ensures Wrap32(a) == Wrap32(b) <==> (a - b) % TWO_32 == 0
  {
  }

  // Integer division truncating toward zero.
  function TruncDiv(a: int, b: int): int
    requires b > 0
  {
    if a >= 0 then a / b else -((-a) / b)
  }

  // What is left over is smaller than the divisor and has the sign of the dividend.
  lemma TruncatesTowardZero(a: int, b: int)
    requires b > 0
    ensures var r := a - b * TruncDiv(a, b);
      -b < r < b && (a >= 0 ==> r >= 0) && (a <= 0 ==> r <= 0)
  {
    if a >= 0 {
      Euclid(a, b);
    } else {
      Euclid(-a, b);
      assert b * -((-a) / b) == -(b * ((-a) / b));
    }
  }

  function Pow256(n: nat): (p: nat)
    ensures p > 0
  {
    if n == 0 then 1 else 256 * Pow256(n - 1)
  }

  // The n low bytes of v, lowest first: byte(v), byte(v >> 8), ...  Division by 256 rounds
  // down, as an arithmetic shift does for negative v.
  function PutLE(v: int, n: nat): (b: bytes)
    ensures |b| == n
    decreases n, v
  {
    if n == 0 then [] else [v % 256] + PutLE(v / 256, n - 1)
  }

  function GetLE(b: bytes): nat {
    if b == [] then 0 else b[0] + 256 * GetLE(b[1..])
  }

  lemma {:induction false} GetPut(v: int, n: nat)
    ensures GetLE(PutLE(v, n)) == v % Pow256(n)
    decreases n
  {
    if n > 0 {
      GetPut(v / 256, n - 1);
      assert PutLE(v, n)[1..] == PutLE(v / 256, n - 1);
      ShiftedRemainder(v, Pow256(n - 1));
    }
  }

  lemma ShiftedRemainder(v: int, p: int)
    requires p > 0
    ensures v % 256 + 256 * (v / 256 % p) == v % (256 * p)
  {
    var q, r := (v / 256) / p, v / 256 % p;
    Euclid(v / 256, p);
    assert v == 256 * (p * q) + (v % 256 + 256 * r);
    assert 256 * (p * q) == (256 * p) * q;
    DivisionIs(v, 256 * p, q, v % 256 + 256 * r);
  }

  // The bytes depend only on the value modulo the width written.
  lemma {:induction false} PutCongruent(v: int, w: int, n: nat)
    requires (v - w) % Pow256(n) == 0
    ensures PutLE(v, n) == PutLE(w, n)
    decreases n
  {
    if n > 0 {
      var p := Pow256(n - 1);
      var k := (v - w) / (256 * p);
      Euclid(v - w, 256 * p);
      assert v - w == 256 * (p * k);
      assert v / 256 - w / 256 == p * k;
      DivisionIs(v / 256 - w / 256, p, k, 0);
      PutCongruent(v / 256, w / 256, n - 1);
    }
  }

  // Byte k is the k-th from below in base 256.
  lemma {:induction false} PutByte(v: int, n: nat, k: nat)
    requires k < n
    ensures PutLE(v, n)[k] == v / Pow256(k) % 256
    decreases n
  {
    if k > 0 {
      PutByte(v / 256, n - 1, k - 1);
      assert PutLE(v, n)[k] == PutLE(v / 256, n - 1)[k - 1];
      DivideTwice(v, Pow256(k - 1));
    } else {
      DivisionIs(v, 1, v, 0);
    }
  }

  lemma DivideTwice(v: int, p: int)
    requires p > 0
    ensures v / 256 / p == v / (256 * p)
  {
    var q, r := v / 256 / p, v / 256 % p;
    Euclid(v / 256, p);
    assert v == 256 * (p * q) + (256 * r + v % 256);
    assert 256 * (p * q) == (256 * p) * q;
    DivisionIs(v, 256 * p, q, 256 * r + v % 256);
  }

  lemma {:induction false} PutGet(b: bytes)
    ensures PutLE(GetLE(b), |b|) == b
    ensures GetLE(b) < Pow256(|b|)
  {
    if b != [] {
      PutGet(b[1..]);
      assert GetLE(b) / 256 == GetLE(b[1..]);
      assert b == [b[0]] + b[1..];
    }
  }

  lemma Widths()
    ensures Pow256(2) == 65536 && Pow256(4) == TWO_32 && Pow256(8) == TWO_64
  {
    assert Pow256(3) == 0x100_0000;
    assert Pow256(6) == 0x1_0000_0000_0000;
  }

  // Fields read back as they were written.
  lemma Get16(v: int)
    ensures GetLE(PutLE(v, 2)) == v % 65536
  {
    hide PutLE, GetLE, Pow256;
    Widths();
    GetPut(v, 2);
  }

  lemma Get32(v: int)
    ensures GetLE(PutLE(v, 4)) == v % TWO_32
    ensures -TWO_31 <= v < TWO_31 ==> Wrap32(GetLE(PutLE(v, 4))) == v
  {
    hide PutLE, GetLE, Pow256;
    Widths();
    GetPut(v, 4);
    Wrap32Congruent(v % TWO_32, v);
  }

  lemma Get64(v: int)
    ensures GetLE(PutLE(v, 8)) == v % TWO_64
    ensures -TWO_63 <= v < TWO_63 ==> Wrap64(GetLE(PutLE(v, 8))) == v
  {
    hide PutLE, GetLE, Pow256;
    Widths();
    GetPut(v, 8);
  }

  // Writes the n low bytes of v into a buffer, as the PutUint and put helpers do.
  method WriteLE(buf: array<byte>, off: nat, v: int, n: nat)
    requires off + n <= buf.Length
    modifies buf
    ensures buf[off..off + n] == PutLE(v, n)
    ensures buf[..off] == old(buf[..off])
    ensures buf[off + n..] == old(buf[off + n..])
  {
    var rest := v;
    for i := 0 to n
      invariant buf[off..off + i] + PutLE(rest, n - i) == PutLE(v, n)
      invariant buf[..off] == old(buf[..off])
      invariant buf[off + n..] == old(buf[off + n..])
    {
      ghost var before := buf[off..off + i];
      buf[off + i] := rest % 256;
      assert buf[off..off + i + 1] == before + [rest % 256];
      assert PutLE(rest, n - i) == [rest % 256] + PutLE(rest / 256, n - i - 1);
      rest := rest / 256;
    }
    assert PutLE(rest, 0) == [];
  }

  method WriteBytes(buf: array<byte>, off: nat, data: bytes)
    requires off + |data| <= buf.Length
    modifies buf
    ensures buf[off..off + |data|] == data
    ensures buf[..off] == old(buf[..off])
    ensures buf[off + |data|..] == old(buf[off + |data|..])
  {
    for i := 0 to |data|
      invariant buf[off..off + i] == data[..i]
      invariant buf[..off] == old(buf[..off])
      invariant buf[off + |data|..] == old(buf[off + |data|..])
    {
      ghost var before := buf[off..off + i];
      buf[off + i] := data[i];
      assert buf[off..off + i + 1] == before + [data[i]];
    }
    assert data[..|data|] == data;
  }
}
