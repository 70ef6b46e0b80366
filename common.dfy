/**
 * Small building blocks shared by the puzzle solvers: failure-carrying
 * results, decimal digits and the 32-bit unsigned arithmetic that several
 * solvers compute in.
 */
module Common {

  datatype Option<T> = None | Some(value: T)

  datatype Result<T, E> = Ok(value: T) | Err(error: E)

  /** 2^32: the modulus of `uint32_t` arithmetic. */
  const U32_MODULUS: int := 0x1_0000_0000

  /** The largest `uint32_t`, 0xffffffff. */
  const U32_MAX: int := 0xffff_ffff

  type u32 = x: int | 0 <= x < 0x1_0000_0000

  /** `(a + b)` evaluated in `uint32_t`. */
  function AddU32(a: u32, b: u32): (r: u32)
    ensures a + b < U32_MODULUS ==> r == a + b
    ensures a + b >= U32_MODULUS ==> r == a + b - U32_MODULUS
  {
    (a + b) % U32_MODULUS
  }

  /** `++` on a `uint32_t`: the largest value wraps to 0. */
  function IncU32(x: u32): u32 {
    if x == U32_MAX then 0 else x + 1
  }

  /** What a `uint32_t` counter holds after `n` increments from 0. */
  function Low32(n: nat): u32 {
    n % U32_MODULUS
  }

  lemma Low32Step(n: nat)
    ensures Low32(n + 1) == IncU32(Low32(n))
  {
  }

  /** `is_number`: a character from '0' to '9'. */
  predicate IsDigit(c: char) {
    '0' <= c <= '9'
  }

  /** The digits are exactly the ten decimal characters. */
  lemma IsDigitIsDecimal(c: char)
    ensures IsDigit(c) <==> c in "0123456789"
  {
    if IsDigit(c) {
      assert "0123456789"[c as int - '0' as int] == c;
    }
  }

  function DigitValue(c: char): (d: nat)
    requires IsDigit(c)
    ensures d <= 9
  {
    c as int - '0' as int
  }

  predicate AllDigits(s: string) {
    forall i :: 0 <= i < |s| ==> IsDigit(s[i])
  }

  /** The number written in decimal by the digit string `s` (most significant digit first). */
  function DecimalValue(s: string): (n: nat)
    requires AllDigits(s)
    ensures |s| == 1 ==> n == DigitValue(s[0])
    decreases |s|
  {
    if s == [] then 0 else 10 * DecimalValue(s[..|s| - 1]) + DigitValue(s[|s| - 1])
  }

  /** Length of the run of digits at the start of `s`. */
  function LeadingDigits(s: string): (k: nat)
    ensures k <= |s| && AllDigits(s[..k])
    ensures k < |s| ==> !IsDigit(s[k])
    decreases |s|
  {
    if s == [] || !IsDigit(s[0]) then 0
    else
      var k := 1 + LeadingDigits(s[1..]);
      assert s[..k] == [s[0]] + s[1..][..k - 1];
      k
  }

  /**
   * `std::stoul` on a string that starts with its digits: the value of the
   * leading digit run (no leading blanks, no sign, no range error).
   */
  function ParseUnsigned(s: string): nat {
    DecimalValue(s[..LeadingDigits(s)])
  }

  /** `std::stoul` stored into a `uint32_t`: the value truncated to its low 32 bits. */
  function ParseU32(s: string): u32 {
    ParseUnsigned(s) % U32_MODULUS
  }

  function Sum(xs: seq<int>): int {
    if xs == [] then 0 else Sum(xs[..|xs| - 1]) + xs[|xs| - 1]
  }

  lemma {:induction false} SumAppend(xs: seq<int>, ys: seq<int>)
    ensures Sum(xs + ys) == Sum(xs) + Sum(ys)
    decreases |ys|
  {
    if ys == [] {
      assert xs + ys == xs;
    } else {
      assert (xs + ys)[..|xs + ys| - 1] == xs + ys[..|ys| - 1];
      SumAppend(xs, ys[..|ys| - 1]);
    }
  }
}
