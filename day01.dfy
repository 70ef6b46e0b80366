/**
 * Calibration values (src/day-01.cc): the first and the last decimal digit
 * of a word, read as a two-digit number, summed over the words of the input.
 */
module Calibration {
  import opened Common

  predicate HasDigit(s: string) {
    exists i :: 0 <= i < |s| && IsDigit(s[i])
  }

  /** `i` is where a forward `find_if(is_number)` stops: the leftmost digit. */
  predicate IsFirstDigit(s: string, i: int) {
    0 <= i < |s| && IsDigit(s[i]) && forall k :: 0 <= k < i ==> !IsDigit(s[k])
  }

  /** `j` is where a reverse `find_if(is_number)` stops: the rightmost digit. */
  predicate IsLastDigit(s: string, j: int) {
    0 <= j < |s| && IsDigit(s[j]) && forall k :: j < k < |s| ==> !IsDigit(s[k])
  }

  /** The forward search from `pos`. */
  function FindFirstDigit(s: string, pos: nat): (i: nat)
    requires pos <= |s| && exists k :: pos <= k < |s| && IsDigit(s[k])
    ensures pos <= i < |s| && IsDigit(s[i]) && forall k :: pos <= k < i ==> !IsDigit(s[k])
    decreases |s| - pos
  {
    if IsDigit(s[pos]) then pos else FindFirstDigit(s, pos + 1)
  }

  /** The reverse search over `s[..n]`, from its end towards its start. */
  function FindLastDigit(s: string, n: nat): (j: nat)
    requires n <= |s| && exists k :: 0 <= k < n && IsDigit(s[k])
    ensures j < n && IsDigit(s[j]) && forall k :: j < k < n ==> !IsDigit(s[k])
    decreases n
  {
    if IsDigit(s[n - 1]) then n - 1 else FindLastDigit(s, n - 1)
  }

  /**
   * `calibration_value`: the two-character string made of the first and the
   * last digit, converted to a number.  The source dereferences the end
   * iterator when there is no digit, so a digit is required.
   */
  function CalibrationValue(s: string): (r: nat)
    requires HasDigit(s)
    ensures r <= 99
    ensures forall i :: IsFirstDigit(s, i) ==> r / 10 == DigitValue(s[i])
    ensures forall j :: IsLastDigit(s, j) ==> r % 10 == DigitValue(s[j])
  {
    var i := FindFirstDigit(s, 0);
    var j := FindLastDigit(s, |s|);
    var repr := [s[i], s[j]];
    assert repr[..1] == [s[i]];
    assert DecimalValue(repr) == 10 * DigitValue(s[i]) + DigitValue(s[j]);
    assert forall i' :: IsFirstDigit(s, i') ==> i' == i;
    assert forall j' :: IsLastDigit(s, j') ==> j' == j;
    DecimalValue(repr)
  }

  /** A word with a single digit d is worth 11 * d: that digit is both the first and the last. */
  lemma SingleDigit(s: string, i: nat)
    requires i < |s| && IsDigit(s[i])
    requires forall k :: 0 <= k < |s| && k != i ==> !IsDigit(s[k])
    ensures CalibrationValue(s) == 11 * DigitValue(s[i])
  {
    assert IsFirstDigit(s, i) && IsLastDigit(s, i);
  }

  /** The sum of the calibration values of `words`. */
  function CalibrationSum(words: seq<string>): nat
    requires forall k :: 0 <= k < |words| ==> HasDigit(words[k])
  {
    if words == [] then 0
    else CalibrationSum(words[..|words| - 1]) + CalibrationValue(words[|words| - 1])
  }

  /** The loop of `main` over the words read from the input. */
  method Total(words: seq<string>) returns (total: nat)
    requires forall k :: 0 <= k < |words| ==> HasDigit(words[k])
    ensures total == CalibrationSum(words)
    ensures total <= 99 * |words|
  {
    total := 0;
    var i := 0;
    while i < |words|
      invariant 0 <= i <= |words|
      invariant total == CalibrationSum(words[..i])
      invariant total <= 99 * i
    {
      assert words[..i + 1][..i] == words[..i];
      total := total + CalibrationValue(words[i]);
      i := i + 1;
    }
    assert words[..i] == words;
  }
}
