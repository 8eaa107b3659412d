/**
 * The UTF-8 charset as Java's `String.getBytes(UTF_8)` and `new String(bytes, UTF_8)` apply
 * it. A Java string is modelled as a sequence of Unicode scalar values (Dafny's `char`);
 * its Java `length()` counts UTF-16 code units, so a supplementary character counts twice.
 */
module Utf8 {
  import opened JavaInts

  const REPLACEMENT: char := 0xFFFD as char

  /** Java's `String.length()`: the number of UTF-16 code units. */
  function Utf16Length(s: string): (n: nat)
    ensures |s| <= n <= 2 * |s|
  {
    if s == [] then 0 else (if s[0] as int >= 0x10000 then 2 else 1) + Utf16Length(s[1..])
  }

  predicate IsContinuation(b: byte) {
    0x80 <= b < 0xC0
  }

  /** The UTF-8 bytes of one scalar value: 1 to 4 bytes, the first carrying the length. */
  function EncodeChar(c: char): (r: seq<byte>)
    ensures 1 <= |r| <= 4
    ensures |r| == 4 <==> c as int >= 0x10000
  {
    var n := c as int;
    if n < 0x80 then
      [n]
    else if n < 0x800 then
      [(0xC0 + n / 64), (0x80 + n % 64)]
    else if n < 0x1_0000 then
      [(0xE0 + n / 4096), (0x80 + n / 64 % 64), (0x80 + n % 64)]
    else
      [(0xF0 + n / 0x4_0000), (0x80 + n / 4096 % 64),
       (0x80 + n / 64 % 64), (0x80 + n % 64)]
  }

  /** `String.getBytes(UTF_8)`. */
  function Encode(s: string): (r: seq<byte>)
    ensures |s| <= |r| <= 4 * |s|
  {
    if s == [] then [] else EncodeChar(s[0]) + Encode(s[1..])
  }

  /** A value that a 3-byte sequence may carry: at least 0x800 and not a surrogate. */
  predicate IsThreeByteScalar(cp: int) {
    0x800 <= cp < 0x1_0000 && !(0xD800 <= cp < 0xE000)
  }

  /**
   * The character at the front of a non-empty byte sequence and how many bytes it takes.
   * A well-formed sequence (no overlong form, no surrogate, nothing above U+10FFFF) gives
   * its scalar value; any other lead byte gives U+FFFD and takes one byte.
   */
  function DecodeFirst(bs: seq<byte>): (r: (char, nat))
    requires bs != []
    ensures 1 <= r.1 <= |bs| && r.1 <= 4
    ensures r.0 as int >= 0x10000 ==> r.1 == 4
  {
    var b0: int := bs[0];
    if b0 < 0x80 then
      (b0 as char, 1)
    else if 0xC0 <= b0 < 0xE0 && |bs| >= 2 && IsContinuation(bs[1])
      && (b0 - 0xC0) * 64 + (bs[1] as int - 0x80) >= 0x80
    then
      ((((b0 - 0xC0) * 64) + (bs[1] as int - 0x80)) as char, 2)
    else if 0xE0 <= b0 < 0xF0 && |bs| >= 3 && IsContinuation(bs[1]) && IsContinuation(bs[2])
      && IsThreeByteScalar((b0 - 0xE0) * 4096 + (bs[1] as int - 0x80) * 64 + (bs[2] as int - 0x80))
    then
      (((b0 - 0xE0) * 4096 + (bs[1] as int - 0x80) * 64 + (bs[2] as int - 0x80)) as char, 3)
    else if 0xF0 <= b0 < 0xF8 && |bs| >= 4
      && IsContinuation(bs[1]) && IsContinuation(bs[2]) && IsContinuation(bs[3])
      && 0x1_0000 <= (b0 - 0xF0) * 0x4_0000 + (bs[1] as int - 0x80) * 4096
                     + (bs[2] as int - 0x80) * 64 + (bs[3] as int - 0x80) < 0x11_0000
    then
      (((b0 - 0xF0) * 0x4_0000 + (bs[1] as int - 0x80) * 4096
        + (bs[2] as int - 0x80) * 64 + (bs[3] as int - 0x80)) as char, 4)
    else
      (REPLACEMENT, 1)
  }

  /** `new String(bytes, UTF_8)`: never fails, malformed input becomes U+FFFD. */
  function Decode(bs: seq<byte>): (s: string)
    decreases |bs|
  {
    if bs == [] then [] else
      var (c, k) := DecodeFirst(bs);
      [c] + Decode(bs[k..])
  }

  lemma Digits64(n: int)
    requires n >= 0
    ensures n == (n / 64) * 64 + n % 64 && 0 <= n % 64 < 64
    ensures n / 64 == (n / 4096) * 64 + n / 64 % 64 && n / 4096 == (n / 0x4_0000) * 64 + n / 4096 % 64
  {
  }

  lemma DecodeFirstOfEncodeChar(c: char, rest: seq<byte>)
    ensures DecodeFirst(EncodeChar(c) + rest) == (c, |EncodeChar(c)|)
  {
    var n := c as int;
    Digits64(n);
    if n < 0x80 {
    } else if n < 0x800 {
      DecodeTwo(n / 64, n % 64, rest);
    } else if n < 0x1_0000 {
      DecodeThree(n / 4096, n / 64 % 64, n % 64, rest);
    } else {
      DecodeFour(n / 0x4_0000, n / 4096 % 64, n / 64 % 64, n % 64, rest);
    }
  }

  lemma DecodeTwo(a: int, d: int, rest: seq<byte>)
    requires 0 <= a < 32 && 0 <= d < 64 && a * 64 + d >= 0x80
    ensures DecodeFirst([(0xC0 + a), (0x80 + d)] + rest) == ((a * 64 + d) as char, 2)
  {
    var bs := [(0xC0 + a), (0x80 + d)] + rest;
    assert bs[0] == 0xC0 + a;
    assert bs[1] == 0x80 + d;
  }

  lemma DecodeThree(a: int, b: int, d: int, rest: seq<byte>)
    requires 0 <= a < 16 && 0 <= b < 64 && 0 <= d < 64 && IsThreeByteScalar(a * 4096 + b * 64 + d)
    ensures DecodeFirst([(0xE0 + a), (0x80 + b), (0x80 + d)] + rest)
      == ((a * 4096 + b * 64 + d) as char, 3)
  {
    var bs := [(0xE0 + a), (0x80 + b), (0x80 + d)] + rest;
    assert bs[0] == 0xE0 + a;
    assert bs[1] == 0x80 + b;
    assert bs[2] == 0x80 + d;
  }

  lemma DecodeFour(a: int, b: int, d: int, e: int, rest: seq<byte>)
    requires 0 <= a < 8 && 0 <= b < 64 && 0 <= d < 64 && 0 <= e < 64
    requires 0x1_0000 <= a * 0x4_0000 + b * 4096 + d * 64 + e < 0x11_0000
    ensures DecodeFirst([(0xF0 + a), (0x80 + b), (0x80 + d), (0x80 + e)] + rest)
      == ((a * 0x4_0000 + b * 4096 + d * 64 + e) as char, 4)
  {
    var bs := [(0xF0 + a), (0x80 + b), (0x80 + d), (0x80 + e)] + rest;
    assert bs[0] == 0xF0 + a;
    assert bs[1] == 0x80 + b;
    assert bs[2] == 0x80 + d;
    assert bs[3] == 0x80 + e;
  }

  /** Decoding what `getBytes(UTF_8)` produced gives the string back. */
  lemma {:induction false} DecodeEncode(s: string)
    ensures Decode(Encode(s)) == s
  {
    if s != [] {
      var e := EncodeChar(s[0]);
      var bs := Encode(s);
      assert bs == e + Encode(s[1..]);
      DecodeFirstOfEncodeChar(s[0], Encode(s[1..]));
      assert bs[|e|..] == Encode(s[1..]);
      DecodeEncode(s[1..]);
    }
  }

  /**
   * A decoded string never has more UTF-16 code units than there were bytes: this is why
   * the reader may bound the byte length by four times the character limit only loosely,
   * and why a string of at most `n` bytes is at most `n` characters long.
   */
  lemma {:induction false} DecodedLengthAtMostBytes(bs: seq<byte>)
    ensures Utf16Length(Decode(bs)) <= |bs|
    decreases |bs|
  {
    if bs != [] {
      var (c, k) := DecodeFirst(bs);
      DecodedLengthAtMostBytes(bs[k..]);
      assert Decode(bs) == [c] + Decode(bs[k..]);
      assert ([c] + Decode(bs[k..]))[1..] == Decode(bs[k..]);
    }
  }

  /** Every character takes at least as many bytes as UTF-16 code units. */
  lemma {:induction false} Utf16LengthAtMostEncoded(s: string)
    ensures Utf16Length(s) <= |Encode(s)|
  {
    if s != [] {
      Utf16LengthAtMostEncoded(s[1..]);
    }
  }
}
