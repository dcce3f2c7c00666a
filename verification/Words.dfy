/** Bytes, fixed-width integers and their big-endian encodings. */
module Words {

  type byte = x: int | 0 <= x < 256
  type u16 = x: int | 0 <= x < 65536
  type Int32 = x: int | -0x8000_0000 <= x < 0x8000_0000
  type Long = x: int | -0x8000_0000_0000_0000 <= x < 0x8000_0000_0000_0000

  /** The conversion to `uint16_t`. */
  function ToU16(v: int): u16 {
    v % 65536
  }

  /** Signed fields of 12, 16, 20, 32 and 64 bits: the low bits, read in two's complement. */
  function Wrap12(v: int): (w: int)
    ensures -2048 <= w < 2048
    ensures -2048 <= v < 2048 ==> w == v
  {
    (v + 2048) % 4096 - 2048
  }

  function Wrap16(v: int): (w: int)
    ensures -0x8000 <= w < 0x8000
    ensures -0x8000 <= v < 0x8000 ==> w == v
  {
    (v + 0x8000) % 0x1_0000 - 0x8000
  }

  function Wrap20(v: int): (w: int)
    ensures -0x8_0000 <= w < 0x8_0000
    ensures -0x8_0000 <= v < 0x8_0000 ==> w == v
  {
    (v + 0x8_0000) % 0x10_0000 - 0x8_0000
  }

  function Wrap32(v: int): (w: Int32)
    ensures -0x8000_0000 <= v < 0x8000_0000 ==> w == v
  {
    (v + 0x8000_0000) % 0x1_0000_0000 - 0x8000_0000
  }

  function Wrap64(v: int): (w: Long)
    ensures -0x8000_0000_0000_0000 <= v < 0x8000_0000_0000_0000 ==> w == v
  {
    (v + 0x8000_0000_0000_0000) % 0x1_0000_0000_0000_0000 - 0x8000_0000_0000_0000
  }

  lemma LowKept(v: int, half: int, m: nat)
    requires m > 0
    ensures ((v + half) % m - half - v) % m == 0
  {
    var q := (v + half) / m;
    assert v + half == q * m + (v + half) % m;
    assert (v + half) % m - half - v == -q * m;
    DivModUnique(-q * m, -q, 0, m);
  }

  /** The fields keep the low bits. */
  lemma WrapsKeep(v: int)
    ensures (Wrap12(v) - v) % 4096 == 0 && (Wrap16(v) - v) % 0x1_0000 == 0 && (Wrap20(v) - v) % 0x10_0000 == 0
    ensures (Wrap32(v) - v) % 0x1_0000_0000 == 0 && (Wrap64(v) - v) % 0x1_0000_0000_0000_0000 == 0
    ensures (ToU16(v) - v) % 0x1_0000 == 0
  {
    LowKept(v, 2048, 4096);
    LowKept(v, 0x8000, 0x1_0000);
    LowKept(v, 0x8_0000, 0x10_0000);
    LowKept(v, 0x8000_0000, 0x1_0000_0000);
    LowKept(v, 0x8000_0000_0000_0000, 0x1_0000_0000_0000_0000);
    LowKept(v, 0, 0x1_0000);
  }

  function Pow256(n: nat): (p: nat)
    ensures p > 0
  {
    if n == 0 then 1 else 256 * Pow256(n - 1)
  }

  /** Byte `i` of `v` in two's complement, byte 0 being the least significant. */
  function ByteAt(v: int, i: nat): byte {
    (v / Pow256(i)) % 256
  }

  /** The `n` low bytes of `v`, most significant first. */
  function BigEndian(v: int, n: nat): (bs: seq<byte>)
    ensures |bs| == n
  {
    if n == 0 then [] else [ByteAt(v, n - 1)] + BigEndian(v, n - 1)
  }

  function Unsigned(bs: seq<byte>): nat {
    if bs == [] then 0 else bs[0] * Pow256(|bs| - 1) + Unsigned(bs[1..])
  }

  function Signed(bs: seq<byte>): int {
    var u := Unsigned(bs);
    if 2 * u >= Pow256(|bs|) then u - Pow256(|bs|) else u
  }

  /** The bytes of 16-bit and 32-bit fields, in the order in which they stand. */
  lemma BytesInOrder(v: int)
    ensures BigEndian(v, 2) == [v / 256 % 256, v % 256]
    ensures BigEndian(v, 4) == [v / 0x100_0000 % 256, v / 0x1_0000 % 256, v / 256 % 256, v % 256]
  {
    Powers();
    assert BigEndian(v, 1) == [ByteAt(v, 0)] + BigEndian(v, 0);
    assert BigEndian(v, 2) == [ByteAt(v, 1)] + BigEndian(v, 1);
    assert BigEndian(v, 3) == [ByteAt(v, 2)] + BigEndian(v, 2);
    assert BigEndian(v, 4) == [ByteAt(v, 3)] + BigEndian(v, 3);
  }

  lemma Powers()
    ensures Pow256(0) == 1 && Pow256(1) == 256 && Pow256(2) == 0x1_0000 && Pow256(3) == 0x100_0000
  {
    assert Pow256(3) == 256 * Pow256(2) && Pow256(2) == 256 * Pow256(1);
  }

  /** What such bytes stand for. */
  lemma ReadInOrder(a: byte, b: byte, c: byte, d: byte)
    ensures Unsigned([a, b]) == 256 * a + b
    ensures Unsigned([a, b, c, d]) == 0x100_0000 * a + 0x1_0000 * b + 256 * c + d
  {
    Powers();
    assert [a, b, c, d][1..] == [b, c, d] && [b, c, d][1..] == [c, d] && [c, d][1..] == [d] && [d][1..] == [];
    assert [a, b][1..] == [b] && [b][1..] == [];
    assert Unsigned([d]) == d && Unsigned([b]) == b;
    assert Unsigned([c, d]) == 256 * c + d;
    assert Unsigned([b, c, d]) == 0x1_0000 * b + Unsigned([c, d]);
  }

  lemma MulSign(a: int, m: nat)
    ensures a >= 1 ==> a * m >= m
    ensures a <= -1 ==> a * m + m <= 0
  {
    if a >= 1 {
      assert (a - 1) * m >= 0;
    }
    if a <= -1 {
      assert (-a - 1) * m >= 0;
    }
  }

  /** Quotient and remainder are determined by the division equation. */
  lemma DivModUnique(v: int, q: int, r: int, m: nat)
    requires 0 <= r < m && v == q * m + r
    ensures v / m == q && v % m == r
  {
    MulSign(q - v / m, m);
    assert v == (v / m) * m + v % m;
    assert (q - v / m) * m == v % m - r;
  }

  lemma DivModStep(v: int, p: nat)
    requires p > 0
    ensures (v / p) % 256 * p + v % p == v % (256 * p)
  {
    var q, b, r := v / p / 256, v / p % 256, v % p;
    assert v / p == q * 256 + b;
    assert v == (q * 256 + b) * p + r;
    assert (q * 256 + b) * p == q * (256 * p) + b * p;
    MulSign(255 - b, p);
    assert (255 - b) * p == 255 * p - b * p;
    DivModUnique(v, q, b * p + r, 256 * p);
  }

  /** Reading back what was written: the value modulo the width of the field. */
  lemma {:induction false} UnsignedBigEndian(v: int, n: nat)
    ensures Unsigned(BigEndian(v, n)) == v % Pow256(n)
  {
    if n > 0 {
      UnsignedBigEndian(v, n - 1);
      DivModStep(v, Pow256(n - 1));
      assert BigEndian(v, n)[1..] == BigEndian(v, n - 1);
    }
  }

  lemma Pow256Values()
    ensures Pow256(1) == 256 && Pow256(2) == 65536 && Pow256(4) == 0x1_0000_0000
  {
    assert Pow256(2) == 256 * Pow256(1);
    assert Pow256(3) == 256 * Pow256(2);
    assert Pow256(4) == 256 * Pow256(3);
  }

  /** A 16-bit field holds every unsigned 16-bit value exactly. */
  lemma Unsigned16(v: int)
    ensures Unsigned(BigEndian(v, 2)) == v % 65536
  {
    UnsignedBigEndian(v, 2);
    Pow256Values();
  }

  lemma Unsigned32(v: int)
    requires 0 <= v < 0x1_0000_0000
    ensures Unsigned(BigEndian(v, 4)) == v
  {
    UnsignedBigEndian(v, 4);
    Pow256Values();
  }

  /** A signed 32-bit value survives the four bytes of a branch offset or an integer constant. */
  lemma Signed32(v: Int32)
    ensures Signed(BigEndian(v, 4)) == v
  {
    UnsignedBigEndian(v, 4);
    Pow256Values();
    if v < 0 {
      DivModUnique(v, -1, v + 0x1_0000_0000, 0x1_0000_0000);
    }
  }

  lemma {:induction false} UnsignedBound(bs: seq<byte>)
    ensures Unsigned(bs) < Pow256(|bs|)
  {
    if bs != [] {
      UnsignedBound(bs[1..]);
      MulSign(255 - bs[0], Pow256(|bs| - 1));
      assert (255 - bs[0]) * Pow256(|bs| - 1) == 255 * Pow256(|bs| - 1) - bs[0] * Pow256(|bs| - 1);
    }
  }

  /** The low bytes depend on the value modulo the width only. */
  lemma {:induction false} BigEndianMod(v: int, w: int, n: nat)
    requires v % Pow256(n) == w % Pow256(n)
    ensures BigEndian(v, n) == BigEndian(w, n)
  {
    if n > 0 {
      var p := Pow256(n - 1);
      DivModStep(v, p);
      DivModStep(w, p);
      DivModUnique(v % (256 * p), v / p % 256, v % p, p);
      DivModUnique(w % (256 * p), w / p % 256, w % p, p);
      BigEndianMod(v, w, n - 1);
    }
  }

  /** Writing back what was read. */
  lemma {:induction false} BigEndianUnsigned(bs: seq<byte>)
    ensures BigEndian(Unsigned(bs), |bs|) == bs
  {
    if bs != [] {
      var n, p, u := |bs|, Pow256(|bs| - 1), Unsigned(bs[1..]);
      UnsignedBound(bs[1..]);
      DivModUnique(Unsigned(bs), bs[0], u, p);
      DivModUnique(u, 0, u, p);
      BigEndianMod(Unsigned(bs), u, n - 1);
      BigEndianUnsigned(bs[1..]);
      assert bs == [bs[0]] + bs[1..];
    }
  }

  lemma BigEndianSigned(bs: seq<byte>)
    ensures BigEndian(Signed(bs), |bs|) == bs
  {
    var p: int, u: int := Pow256(|bs|), Unsigned(bs);
    UnsignedBound(bs);
    DivModUnique(u, 0, u, p);
    DivModUnique(u - p, -1, u, p);
    BigEndianMod(Signed(bs), u, |bs|);
    BigEndianUnsigned(bs);
  }
}
