// Shared vocabulary of the model: optional values, the C++ fixed-width
// integer types the sources use, and decimal formatting of unsigned numbers
// (what `appendNumber` and `operator<<` produce for an unsigned value).
module Common {

  datatype Option<T> = None | Some(value: T)

  const TWO_POW_32: int := 0x1_0000_0000
  const INT32_MIN: int := -0x8000_0000
  const INT32_MAX: int := 0x7FFF_FFFF

  /** C++ `unsigned` (32 bits). */
  type u32 = x: int | 0 <= x < TWO_POW_32

  /** C++ `int` (32 bits). */
  type int32 = x: int | INT32_MIN <= x <= INT32_MAX

  /** Conversion of an exact integer result to `unsigned`: arithmetic modulo 2^32. */
  function Wrap32(x: int): (r: u32)
    ensures 0 <= x < TWO_POW_32 ==> r == x
    ensures (r - x) % TWO_POW_32 == 0
  {
    x % TWO_POW_32
  }

  /** a and b are equal modulo 2^32. */
  predicate Congruent32(a: int, b: int) {
    (a - b) % TWO_POW_32 == 0
  }

  /** Wrapping two values keeps their difference modulo 2^32. */
  lemma Wrap32Difference(a: int, c: int)
    ensures ((Wrap32(a) - Wrap32(c)) - (a - c)) % TWO_POW_32 == 0
  {
    var i, j := a / TWO_POW_32, c / TWO_POW_32;
    assert Wrap32(a) == a - TWO_POW_32 * i;
    assert Wrap32(c) == c - TWO_POW_32 * j;
    assert (Wrap32(a) - Wrap32(c)) - (a - c) == TWO_POW_32 * (j - i);
  }

  /** A negative difference above -2^32 wraps to that difference plus 2^32. */
  lemma Wrap32Negative(x: int)
    requires -TWO_POW_32 <= x < 0
    ensures Wrap32(x) == x + TWO_POW_32
  {
    var q := x / TWO_POW_32;
    assert x == q * TWO_POW_32 + Wrap32(x);
    assert q == -1;
  }

  // ---------------------------------------------------------------------
  // Decimal text of an unsigned number
  // ---------------------------------------------------------------------

  predicate IsDigit(c: char) {
    '0' <= c <= '9'
  }

  function DigitChar(d: nat): (c: char)
    requires d < 10
    ensures IsDigit(c)
  {
    "0123456789"[d]
  }

  function DigitValue(c: char): (d: nat)
    requires IsDigit(c)
    ensures d < 10
  {
    (c as int) - ('0' as int)
  }

  /** Shortest base-10 text of `n`, most significant digit first, no sign. */
  function DecimalString(n: nat): (s: string)
    ensures |s| >= 1
    ensures forall i :: 0 <= i < |s| ==> IsDigit(s[i])
    ensures |s| > 1 ==> s[0] != '0'
    decreases n
  {
    if n < 10 then [DigitChar(n)] else DecimalString(n / 10) + [DigitChar(n % 10)]
  }

  /** The number a string of decimal digits denotes. */
  function DecimalValue(s: string): nat
    requires forall i :: 0 <= i < |s| ==> IsDigit(s[i])
  {
    if |s| == 0 then 0 else 10 * DecimalValue(s[..|s| - 1]) + DigitValue(s[|s| - 1])
  }

  lemma DigitRoundTrip(d: nat)
    requires d < 10
    ensures DigitValue(DigitChar(d)) == d
  {
    assert "0123456789"[d] as int == '0' as int + d;
  }

  /** Reading back the decimal text of `n` gives `n`. */
  lemma {:induction false} DecimalRoundTrip(n: nat)
    ensures DecimalValue(DecimalString(n)) == n
    decreases n
  {
    var s := DecimalString(n);
    if n < 10 {
      DigitRoundTrip(n);
    } else {
      DecimalRoundTrip(n / 10);
      DigitRoundTrip(n % 10);
      assert s[..|s| - 1] == DecimalString(n / 10);
    }
  }

  /** Two numbers with the same decimal text are equal. */
  lemma DecimalStringInjective(m: nat, n: nat)
    requires DecimalString(m) == DecimalString(n)
    ensures m == n
  {
    DecimalRoundTrip(m);
    DecimalRoundTrip(n);
  }

  // ---------------------------------------------------------------------
  // Counting occurrences
  // ---------------------------------------------------------------------

  /** Number of positions of `s` holding `c`. */
  function CountOf<T(==)>(s: seq<T>, c: T): (k: nat)
    ensures k <= |s|
  {
    if |s| == 0 then 0 else CountOf(s[..|s| - 1], c) + (if s[|s| - 1] == c then 1 else 0)
  }

  lemma {:induction false} CountOfAppend<T>(a: seq<T>, b: seq<T>, c: T)
    ensures CountOf(a + b, c) == CountOf(a, c) + CountOf(b, c)
    decreases |b|
  {
    if |b| == 0 {
      assert a + b == a;
    } else {
      assert (a + b)[..|a + b| - 1] == a + b[..|b| - 1];
      CountOfAppend(a, b[..|b| - 1], c);
    }
  }

  /** Regrouping a concatenation, kept out of large proof contexts. */
  lemma ConcatRegroup<T>(a: seq<T>, b: seq<T>, c: seq<T>)
    ensures (a + b) + c == a + (b + c)
  {
  }
}
