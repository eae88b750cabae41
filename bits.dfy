/**
 * Machine integers as the firmware uses them: bytes, 16-bit words, the
 * bitwise AND/OR the ring buffers and the XON/XOFF flag byte rely on, and the
 * big-endian split and join of 16-bit values used on the display link.
 *
 * All arithmetic is on unbounded integers; every truncating C cast is
 * written out as a Euclidean `%`, which agrees with two's complement
 * truncation for negative operands.
 */
module Bits {

  type byte = b: int | 0 <= b < 256
  type u16 = w: int | 0 <= w < 65536
  type i16 = v: int | -32768 <= v < 32768
  type u32 = w: int | 0 <= w < 0x1_0000_0000

  function Pow2(k: nat): (p: nat)
    ensures p >= 1
  {
    if k == 0 then 1 else 2 * Pow2(k - 1)
  }

  /** The powers of two the firmware's sizes and integer widths use. */
  lemma Pow2Table()
    ensures Pow2(5) == 32 && Pow2(7) == 128 && Pow2(8) == 256
    ensures Pow2(16) == 0x1_0000 && Pow2(32) == 0x1_0000_0000
  {
    assert Pow2(2) == 4;
    assert Pow2(4) == 16;
    assert Pow2(6) == 64;
    assert Pow2(10) == 1024;
    assert Pow2(12) == 4096;
    assert Pow2(14) == 16384;
    assert Pow2(20) == 0x10_0000;
    assert Pow2(24) == 0x100_0000;
    assert Pow2(28) == 0x1000_0000;
  }

  /** Bitwise AND of the low k bits of a and b, taken one bit at a time from the least significant. */
  function AndBits(a: nat, b: nat, k: nat): nat
  {
    if k == 0 then 0 else 2 * AndBits(a / 2, b / 2, k - 1) + (if a % 2 == 1 && b % 2 == 1 then 1 else 0)
  }

  /** Bitwise OR of the low k bits of a and b, taken one bit at a time from the least significant. */
  function OrBits(a: nat, b: nat, k: nat): nat
  {
    if k == 0 then 0 else 2 * OrBits(a / 2, b / 2, k - 1) + (if a % 2 == 1 || b % 2 == 1 then 1 else 0)
  }

  /** Bitwise AND of two bytes. */
  function And8(a: byte, b: byte): byte
  {
    Pow2Table();
    AndBound(a, b, 8);
    AndBits(a, b, 8)
  }

  /** Bitwise OR of two bytes. */
  function Or8(a: byte, b: byte): byte
  {
    Pow2Table();
    OrBound(a, b, 8);
    OrBits(a, b, 8)
  }

  /** The AND of k bits fits in k bits. */
  lemma {:induction false} AndBound(a: nat, b: nat, k: nat)
    ensures AndBits(a, b, k) < Pow2(k)
  {
    if k > 0 {
      AndBound(a / 2, b / 2, k - 1);
    }
  }

  /** The OR of k bits fits in k bits. */
  lemma {:induction false} OrBound(a: nat, b: nat, k: nat)
    ensures OrBits(a, b, k) < Pow2(k)
  {
    if k > 0 {
      OrBound(a / 2, b / 2, k - 1);
    }
  }

  /** The `uint8_t` cast: reduction modulo 2^8. */
  function Trunc8(x: int): byte
  {
    x % 256
  }

  /** The `uint32_t` (`unsigned long`) cast: reduction modulo 2^32. */
  function Trunc32(x: int): (r: nat)
    ensures r < 0x1_0000_0000
  {
    x % 0x1_0000_0000
  }

  /**
   * The firmware's `if (!++x) ++x;` on a byte: increment, stepping over 0 on
   * wrap-around, so a counter or sentinel that has moved never reads 0.
   */
  function IncSkipZero(d: byte): (r: byte)
  {
    var e := Trunc8(d + 1);
    if e == 0 then Trunc8(e + 1) else e
  }

  /** The result is never 0: it counts up to 255 and then wraps to 1. */
  lemma IncSkipZeroValues(d: byte)
    ensures IncSkipZero(d) != 0
    ensures IncSkipZero(d) == (if d == 255 then 1 else d + 1)
  {
  }

  /** The signed reading of a 32-bit pattern, as `%ld` reads an `unsigned long` argument. */
  function Signed32(w: u32): (s: int)
    ensures -0x8000_0000 <= s < 0x8000_0000
    ensures s % 0x1_0000_0000 == w
  {
    if w < 0x8000_0000 then w else w - 0x1_0000_0000
  }

  /** Division is unique: the quotient and remainder are determined by the equation. */
  lemma DivModUnique(x: int, d: int, q: int, r: int)
    requires d > 0 && 0 <= r < d && x == q * d + r
    ensures x / d == q && x % d == r
  {
    var q', r' := x / d, x % d;
    assert (q' - q) * d == r - r';
    MulSmall(q' - q, d);
  }

  /** The only multiple of d strictly between -d and d is 0. */
  lemma MulSmall(a: int, d: int)
    requires d > 0 && -d < a * d < d
    ensures a == 0
  {
    if a >= 1 {
      MulAtLeast(a, d);
      assert false;
    } else if a <= -1 {
      assert (-a) * d == -(a * d);
      MulAtLeast(-a, d);
      assert false;
    }
  }

  lemma MulAtLeast(a: int, d: int)
    requires a >= 1 && d > 0
    ensures a * d >= d
  {
  }

  /**
   * Masking a byte with 2^k - 1 keeps its k low bits, for the two ring sizes
   * the transport uses: this is what makes `i & (N - 1)` equal `i % N`.
   */
  lemma LowBits(x: byte)
    ensures And8(x, 127) == x % 128
    ensures And8(x, 31) == x % 32
  {
    Pow2Table();
    AndMask(x, 7, 8);
    AndMask(x, 5, 8);
  }

  /** What the firmware's tests and sets of the top bit of a byte compute. */
  lemma HighBit(x: byte)
    ensures And8(x, 128) == if x >= 128 then 128 else 0
    ensures Or8(x, 128) == if x >= 128 then x else x + 128
  {
    Pow2Table();
    AndTop(x, 8);
    OrTop(x, 8);
  }

  /** Masking a k-bit value with its top bit 2^(k-1) isolates that bit. */
  lemma {:induction false} AndTop(a: nat, k: nat)
    requires 0 < k && a < Pow2(k)
    ensures AndBits(a, Pow2(k - 1), k) == if a >= Pow2(k - 1) then Pow2(k - 1) else 0
  {
    if k > 1 {
      AndTop(a / 2, k - 1);
    }
  }

  /** Setting the top bit 2^(k-1) of a k-bit value adds it when it was clear. */
  lemma {:induction false} OrTop(a: nat, k: nat)
    requires 0 < k && a < Pow2(k)
    ensures OrBits(a, Pow2(k - 1), k) == if a >= Pow2(k - 1) then a else a + Pow2(k - 1)
  {
    if k > 1 {
      OrTop(a / 2, k - 1);
    } else {
      assert OrBits(a / 2, 0, 0) == 0;
    }
  }

  /** Masking with 2^j - 1 keeps the j lowest bits: it reduces modulo 2^j. */
  lemma {:induction false} AndMask(a: nat, j: nat, k: nat)
    requires j <= k
    ensures AndBits(a, Pow2(j) - 1, k) == a % Pow2(j)
  {
    if j == 0 {
      AndZero(a, k);
    } else {
      var p := Pow2(j - 1);
      AndMask(a / 2, j - 1, k - 1);
      AndMaskStep(a, p, k);
      assert Pow2(j) == 2 * p;
    }
  }

  /** The inductive step of `AndMask`, from the mask p - 1 on the upper bits to the mask 2p - 1. */
  lemma AndMaskStep(a: nat, p: nat, k: nat)
    requires p >= 1 && k >= 1
    requires AndBits(a / 2, p - 1, k - 1) == (a / 2) % p
    ensures AndBits(a, 2 * p - 1, k) == a % (2 * p)
  {
    AndOdd(a, p, k);
    ModHalf(a, p);
  }

  /** One step of masking with an odd mask 2p - 1: the lowest bit is kept and the rest is masked with p - 1. */
  lemma AndOdd(a: nat, p: nat, k: nat)
    requires p >= 1 && k >= 1
    ensures AndBits(a, 2 * p - 1, k) == 2 * AndBits(a / 2, p - 1, k - 1) + a % 2
  {
    DivModUnique(2 * p - 1, 2, p - 1, 1);
  }

  /** Masking with 0 gives 0. */
  lemma {:induction false} AndZero(a: nat, k: nat)
    ensures AndBits(a, 0, k) == 0
  {
    if k > 0 {
      AndZero(a / 2, k - 1);
    }
  }

  /** The remainder modulo 2p is twice the remainder of the half modulo p, plus the lowest bit. */
  lemma ModHalf(a: nat, p: nat)
    requires p > 0
    ensures a % (2 * p) == 2 * ((a / 2) % p) + a % 2
  {
    var q, r := (a / 2) / p, (a / 2) % p;
    assert a == q * (2 * p) + (2 * r + a % 2);
    DivModUnique(a, 2 * p, q, 2 * r + a % 2);
  }

  /** Reducing modulo c*p and then modulo p is reducing modulo p. */
  lemma ModMod(x: int, c: nat, p: nat)
    requires c > 0 && p > 0
    ensures (x % (c * p)) % p == x % p
  {
    var n := c * p;
    var q, y := x / n, x % n;
    assert x == q * n + y;
    var yq, yr := y / p, y % p;
    assert y == yq * p + yr;
    assert q * n == (q * c) * p;
    assert x == (q * c + yq) * p + yr;
    DivModUnique(x, p, q * c + yq, yr);
  }

  // ----- big-endian split and join of 16-bit values -----

  /** The byte `(unsigned char)(v >> 8)` of a 16-bit value. */
  function Hi(v: int): byte
  {
    (v % 65536) / 256
  }

  /** The byte `(unsigned char)(v & 0xFF)` of a value. */
  function Lo(v: int): byte
  {
    v % 256
  }

  /** The receiver's `(hi << 8) | lo` join into an unsigned 16-bit word. */
  function Join(hi: byte, lo: byte): u16
  {
    hi * 256 + lo
  }

  /** Joining two bytes and splitting the word gives the bytes back. */
  lemma SplitJoin(hi: byte, lo: byte)
    ensures Hi(Join(hi, lo)) == hi && Lo(Join(hi, lo)) == lo
  {
    var w := Join(hi, lo);
    DivModUnique(w, 256, hi, lo);
  }

  /** Splitting a value high byte first and joining the halves gives back its 16-bit pattern. */
  lemma JoinSplit(v: int)
    ensures Join(Hi(v), Lo(v)) == v % 65536
  {
    var w := v % 65536;
    var q := v / 65536;
    assert v == q * 65536 + w;
    assert w == (w / 256) * 256 + w % 256;
    assert v == (q * 256 + w / 256) * 256 + w % 256;
    DivModUnique(v, 256, q * 256 + w / 256, w % 256);
  }

  /** The signed reading of a 16-bit pattern, as an `int16_t` receiver sees it. */
  function Signed16(w: u16): (s: int)
    ensures -32768 <= s < 32768
    ensures s % 65536 == w
  {
    if w < 32768 then w else w - 65536
  }

  /** An int16 value survives the split and join. */
  lemma Int16RoundTrip(v: int)
    requires -32768 <= v < 32768
    ensures Signed16(Join(Hi(v), Lo(v))) == v
  {
    JoinSplit(v);
    if v < 0 {
      DivModUnique(v, 65536, -1, v + 65536);
    } else {
      DivModUnique(v, 65536, 0, v);
    }
  }
}
