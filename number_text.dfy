/**
 * The text the serial printer emits for an integer: the base-b digits of n,
 * most significant first, using `'0' + d` for digits below 10 and
 * `'A' - 10 + d` above, each truncated to a byte as the `char` cast does.
 * `NumberText` is what `printNumber` emits; `LongText` and `ULongText` are
 * what the `print(long, base)` and `print(unsigned long, base)` overloads emit.
 */
module NumberText {
  import opened Bits
  import opened Wrappers

  /** Digits of n in base b, least significant first (what the firmware's `buf` holds). */
  function Digits(n: nat, b: nat): seq<nat>
    requires b >= 2
    decreases n
  {
    if n == 0 then [] else [n % b] + Digits(n / b, b)
  }

  /** One step of the digit loop: the lowest digit is n % b and the rest are the digits of n / b. */
  lemma DigitsStep(n: nat, b: nat)
    requires n > 0 && b >= 2
    ensures Digits(n, b) == [n % b] + Digits(n / b, b)
    ensures n % b < b && n / b < n
  {
    DivShrinks(n, b);
  }

  lemma DivShrinks(n: nat, b: nat)
    requires n > 0 && b >= 2
    ensures n / b < n
  {
    var q := n / b;
    assert n == q * b + n % b;
    if q >= n {
      MulMono(q, 2, b);
      assert false;
    }
  }

  /** Dividing by a base of at least 2 gives at most half. */
  lemma DivHalf(n: nat, b: nat)
    requires b >= 2
    ensures n / b <= n / 2
  {
    var q := n / b;
    assert n == q * b + n % b;
    MulMono(q, 2, b);
    assert 2 * q <= n;
  }

  lemma MulMono(q: nat, a: nat, b: nat)
    requires a <= b
    ensures q * a <= q * b
  {
    assert q * b == q * a + q * (b - a);
  }

  /** The value of a least-significant-first digit sequence. */
  function Value(ds: seq<nat>, b: nat): nat
  {
    if ds == [] then 0 else ds[0] + b * Value(ds[1..], b)
  }

  /** The character the firmware prints for digit d. */
  function DigitChar(d: nat): byte
  {
    Trunc8(d + (if d < 10 then Ch('0') else Ch('A') - 10))
  }

  /** The characters of a least-significant-first digit sequence, printed most significant first. */
  function RevText(ds: seq<nat>): (t: seq<byte>)
    ensures |t| == |ds|
  {
    if ds == [] then [] else RevText(ds[1..]) + [DigitChar(ds[0])]
  }

  /** Printing the digits from i on is printing those after i, then digit i. */
  lemma RevTextSuffix(ds: seq<nat>, i: nat)
    requires i < |ds|
    ensures RevText(ds[i..]) == RevText(ds[i + 1..]) + [DigitChar(ds[i])]
  {
    assert ds[i..][1..] == ds[i + 1..];
  }

  /** `printNumber(n, base)`: the digits, or "0" for zero. */
  function NumberText(n: nat, b: nat): seq<byte>
    requires b >= 2
  {
    if n == 0 then [Ch('0')] else RevText(Digits(n, b))
  }

  const LONG_MIN: int := -0x8000_0000
  const LONG_LIMIT: int := 0x8000_0000
  const ULONG_LIMIT: int := 0x1_0000_0000

  /** The bases `print(long/unsigned long, base)` accepts: 0 (raw byte) or a `uint8_t` base of at least 2. */
  predicate PrintableBase(base: int)
  {
    base == 0 || Trunc8(base) >= 2
  }

  /** `print(long n, base)` on a 32-bit `long`. */
  function LongText(n: int, base: int): seq<byte>
    requires LONG_MIN <= n < LONG_LIMIT && PrintableBase(base)
  {
    if base == 0 then [Trunc8(n)]
    else if base == 10 then
      (if n < 0 then [Ch('-')] + NumberText(Trunc32(-n), 10) else NumberText(n, 10))
    else NumberText(Trunc32(n), Trunc8(base))
  }

  /** `print(unsigned long n, base)` on a 32-bit `unsigned long`. */
  function ULongText(n: nat, base: int): seq<byte>
    requires n < ULONG_LIMIT && PrintableBase(base)
  {
    if base == 0 then [Trunc8(n)] else NumberText(n, Trunc8(base))
  }

  /** The text of `print(long n, base)` by case, as the firmware's branches produce it. */
  lemma LongTextCases(n: int, base: int)
    requires LONG_MIN <= n < LONG_LIMIT && PrintableBase(base)
    ensures base == 0 ==> LongText(n, base) == [Trunc8(n)]
    ensures base == 10 && n < 0 ==> LongText(n, base) == [Ch('-')] + NumberText(Trunc32(-n), 10) && Trunc32(-n) == -n
    ensures base == 10 && n >= 0 ==> LongText(n, base) == NumberText(Trunc32(n), 10) && Trunc32(n) == n
    ensures base != 0 && base != 10 ==> LongText(n, base) == NumberText(Trunc32(n), Trunc8(base)) && Trunc8(base) >= 2
  {
    if base == 10 {
      if n < 0 {
        NegativeMagnitude(n);
      } else {
        var m := Trunc32(n);
        assert m == n;
      }
    }
  }

  // ----- reading the text back -----

  /** The digit value of a character in bases up to 36. */
  function DigitValue(c: byte): nat
  {
    if Ch('0') <= c <= Ch('9') then c - Ch('0')
    else if Ch('A') <= c <= Ch('Z') then c - Ch('A') + 10
    else 0
  }

  /** Reads most-significant-first text in base b. */
  function Parse(t: seq<byte>, b: nat): nat
  {
    if t == [] then 0 else Parse(t[..|t| - 1], b) * b + DigitValue(t[|t| - 1])
  }

  /** Reads `print(long, 10)` output back as a signed number. */
  function ParseSigned(t: seq<byte>): int
  {
    if t != [] && t[0] == Ch('-') then -(Parse(t[1..], 10) as int) else Parse(t, 10)
  }

  // ----- lemmas -----

  lemma DigitCharValue(d: nat)
    requires d < 36
    ensures DigitValue(DigitChar(d)) == d
    ensures DigitChar(d) == Ch('0') <==> d == 0
  {
  }

  /** The digits are the base-b representation of n: each below b, no leading zero, value n. */
  lemma {:induction false} DigitsCorrect(n: nat, b: nat)
    requires b >= 2
    ensures Value(Digits(n, b), b) == n
    ensures forall i :: 0 <= i < |Digits(n, b)| ==> Digits(n, b)[i] < b
    ensures n > 0 ==> |Digits(n, b)| > 0 && Digits(n, b)[|Digits(n, b)| - 1] != 0
    decreases n
  {
    if n > 0 {
      DigitsStep(n, b);
      DigitsCorrect(n / b, b);
      var ds := Digits(n, b);
      var q, r := n / b, n % b;
      assert ds[0] == r && ds[1..] == Digits(q, b);
      assert n == b * q + r;
      assert Value(ds, b) == r + b * Value(Digits(q, b), b);
      if q == 0 {
        assert r == n;
      }
    }
  }

  /** A number below 2^k has at most k digits in any base; the firmware's 32-byte `buf` always suffices. */
  lemma {:induction false} DigitsFit(n: nat, b: nat, k: nat)
    requires b >= 2 && n < Pow2(k)
    ensures |Digits(n, b)| <= k
    decreases n
  {
    if n > 0 {
      assert k > 0;
      DivHalf(n, b);
      DigitsFit(n / b, b, k - 1);
    }
  }

  /** An `unsigned long` has at most 32 digits, so the firmware's `buf[8 * sizeof(long)]` is never overrun. */
  lemma DigitsFitLong(n: nat, b: nat)
    requires b >= 2 && n < ULONG_LIMIT
    ensures |Digits(n, b)| <= 32
  {
    Pow2Table();
    DigitsFit(n, b, 32);
  }

  /** Negating a negative `long` and reading it as `unsigned long` gives its magnitude, even for `LONG_MIN`. */
  lemma NegativeMagnitude(n: int)
    requires LONG_MIN <= n < 0
    ensures Trunc32(-n) == -n
  {
  }

  lemma {:induction false} ParseRevText(ds: seq<nat>, b: nat)
    requires b <= 36 && forall i :: 0 <= i < |ds| ==> ds[i] < b
    ensures Parse(RevText(ds), b) == Value(ds, b)
    decreases |ds|
  {
    if ds != [] {
      ParseRevText(ds[1..], b);
      ParseSnoc(RevText(ds[1..]), ds[0], b);
      MulComm(Parse(RevText(ds[1..]), b), b);
    }
  }

  /** Reading one more digit character multiplies by the base and adds the digit. */
  lemma ParseSnoc(t: seq<byte>, d: nat, b: nat)
    requires d < b <= 36
    ensures Parse(t + [DigitChar(d)], b) == Parse(t, b) * b + d
  {
    var u := t + [DigitChar(d)];
    assert u[..|u| - 1] == t;
    DigitCharValue(d);
  }

  lemma MulComm(x: int, y: int)
    ensures x * y == y * x
  {
  }

  /**
   * For bases up to 36 the printed text reads back as n, and a non-zero n
   * never starts with the character '0'.
   */
  lemma NumberTextRoundTrip(n: nat, b: nat)
    requires 2 <= b <= 36
    ensures Parse(NumberText(n, b), b) == n
    ensures n > 0 ==> NumberText(n, b)[0] != Ch('0')
  {
    if n == 0 {
      assert [Ch('0')][..0] == [];
      DigitCharValue(0);
    } else {
      DigitsCorrect(n, b);
      var ds := Digits(n, b);
      ParseRevText(ds, b);
      RevTextFirst(ds);
      DigitCharValue(ds[|ds| - 1]);
    }
  }

  /** The first character printed is the most significant digit. */
  lemma {:induction false} RevTextFirst(ds: seq<nat>)
    requires ds != []
    ensures RevText(ds)[0] == DigitChar(ds[|ds| - 1])
    decreases |ds|
  {
    if |ds| > 1 {
      RevTextFirst(ds[1..]);
    }
  }

  /** `print(long, 10)` reads back as the number printed, including the most negative `long`. */
  lemma DecimalRoundTrip(n: int)
    requires LONG_MIN <= n < LONG_LIMIT
    ensures ParseSigned(LongText(n, 10)) == n
  {
    if n < 0 {
      var m := Trunc32(-n);
      NegativeMagnitude(n);
      NumberTextRoundTrip(m, 10);
      var t := LongText(n, 10);
      assert t[1..] == NumberText(m, 10);
    } else {
      NumberTextRoundTrip(n, 10);
      if n > 0 {
        assert LongText(n, 10)[0] != Ch('-') by {
          DigitsCorrect(n, 10);
          RevTextFirst(Digits(n, 10));
          DigitCharValue(Digits(n, 10)[|Digits(n, 10)| - 1]);
        }
      }
    }
  }
}
