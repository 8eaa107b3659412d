/**
 * Java's fixed-width integers: two's complement, 32-bit wrap-around, big-endian byte
 * layout (the layout Netty's `ByteBuf` uses for `writeShort`/`writeInt`/`writeLong`).
 */
module JavaInts {

  /** A Java `int`. */
  type int32 = v: int | -0x8000_0000 <= v < 0x8000_0000

  /** A Java `long`. */
  type int64 = v: int | -0x8000_0000_0000_0000 <= v < 0x8000_0000_0000_0000

  /** A Java `short`. */
  type int16 = v: int | -0x8000 <= v < 0x8000

  function Pow256(n: nat): (p: int)
    ensures p >= 1
  {
    if n == 0 then 1 else 256 * Pow256(n - 1)
  }

  /** The result of Java `int` arithmetic on a mathematical result `x`: keep the low 32 bits. */
  function Wrap32(x: int): (r: int32)
    ensures (r - x) % 0x1_0000_0000 == 0
    ensures -0x8000_0000 <= x < 0x8000_0000 ==> r == x
  {
    var m := x % 0x1_0000_0000;
    if m >= 0x8000_0000 then m - 0x1_0000_0000 else m
  }

  /** The unsigned value of the `n`-byte two's complement representation of `v`. */
  function ToUnsigned(v: int, n: nat): (u: nat)
    requires n >= 1 && -Pow256(n) / 2 <= v < Pow256(n) / 2
    ensures u < Pow256(n)
    ensures v >= 0 ==> u == v
    ensures v < 0 ==> u >= Pow256(n) / 2
  {
    if v < 0 then v + Pow256(n) else v
  }

  /** The signed value whose `n`-byte two's complement representation is `u`. */
  function ToSigned(u: nat, n: nat): (v: int)
    requires n >= 1 && u < Pow256(n)
    ensures -Pow256(n) / 2 <= v < Pow256(n) / 2
  {
    if u >= Pow256(n) / 2 then u - Pow256(n) else u
  }

  lemma SignedUnsigned(v: int, n: nat)
    requires n >= 1 && -Pow256(n) / 2 <= v < Pow256(n) / 2
    ensures ToSigned(ToUnsigned(v, n), n) == v
  {
  }

  lemma UnsignedSigned(u: nat, n: nat)
    requires n >= 1 && u < Pow256(n)
    ensures ToUnsigned(ToSigned(u, n), n) == u
  {
  }

  /** Java's `(short)` cast of an `int`: keep the low 16 bits, read as two's complement. */
  function ShortCast(v: int): (s: int16)
    ensures -0x8000 <= v < 0x8000 ==> s == v
    ensures (s - v) % 0x1_0000 == 0
  {
    var m := v % 0x1_0000;
    if m >= 0x8000 then m - 0x1_0000 else m
  }

  /**
   * A byte on the wire, as its unsigned value: Java's signed `byte` `b` is the value
   * `b & 0xFF` here.
   */
  type byte = k: int | 0 <= k < 256

  /** `u` written as `n` bytes, most significant first. */
  function BigEndian(u: nat, n: nat): (r: seq<byte>)
    requires u < Pow256(n)
    ensures |r| == n
  {
    if n == 0 then [] else BigEndian(u / 256, n - 1) + [u % 256]
  }

  /** The unsigned value of bytes read most significant first. */
  function FromBigEndian(bs: seq<byte>): (u: nat)
    ensures u < Pow256(|bs|)
  {
    if bs == [] then 0 else FromBigEndian(bs[..|bs| - 1]) * 256 + bs[|bs| - 1]
  }

  lemma {:induction false} MulAtLeast(k: nat, d: nat)
    requires k >= 1
    ensures k * d >= d
  {
    if k > 1 {
      MulAtLeast(k - 1, d);
      assert k * d == (k - 1) * d + d;
    }
  }

  /** Quotient and remainder are the only ones: Dafny's `/` and `%` for a positive divisor. */
  lemma DivModUnique(x: int, d: int, q: int, r: int)
    requires d > 0 && x == q * d + r && 0 <= r < d
    ensures x / d == q && x % d == r
  {
    var q', r' := x / d, x % d;
    if q > q' {
      MulAtLeast(q - q', d);
      assert false;
    } else if q < q' {
      MulAtLeast(q' - q, d);
      assert false;
    }
  }

  /** Splitting `u` at weight `a` and then the quotient at `b` is splitting `u` at `a * b`. */
  lemma DivModNested(u: nat, a: nat, b: nat)
    requires a > 0 && b > 0
    ensures u / a / b == u / (a * b)
    ensures u % a + (u / a % b) * a == u % (a * b)
  {
    var q, r := u / (a * b), u % (a * b);
    var r1, r0 := r / a, r % a;
    assert r == r1 * a + r0;
    assert r1 < b;
    assert u == (q * b + r1) * a + r0;
    DivModUnique(u, a, q * b + r1, r0);
    DivModUnique(u / a, b, q, r1);
  }

  lemma DivMod256(x: int, q: int, r: int)
    requires x == q * 256 + r && 0 <= r < 256
    ensures x / 256 == q && x % 256 == r
  {
  }

  /** Reading back what was written yields the value written. */
  lemma {:induction false} FromBigEndianOfBigEndian(u: nat, n: nat)
    requires u < Pow256(n)
    ensures FromBigEndian(BigEndian(u, n)) == u
  {
    if n > 0 {
      var bs := BigEndian(u, n);
      assert bs[..n - 1] == BigEndian(u / 256, n - 1);
      FromBigEndianOfBigEndian(u / 256, n - 1);
    }
  }

  /** Every byte sequence is the big-endian form of its value: the encoding is a bijection. */
  lemma {:induction false} BigEndianOfFromBigEndian(bs: seq<byte>)
    ensures BigEndian(FromBigEndian(bs), |bs|) == bs
  {
    if bs != [] {
      var n := |bs|;
      var hi, lo := FromBigEndian(bs[..n - 1]), bs[n - 1];
      DivMod256(FromBigEndian(bs), hi, lo);
      BigEndianOfFromBigEndian(bs[..n - 1]);
      assert bs == bs[..n - 1] + [lo];
    }
  }
}
