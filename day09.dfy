/**
 * Mirage maintenance (src/day-09.cc): a sequence of readings is
 * extrapolated by building rows of successive differences until a row is
 * constant, then continuing the table one step forwards (part one) or
 * backwards (part two).
 */
module Oasis {
  import opened Common
  import opened Splitting

  datatype Part = One | Two

  /** The row of successive differences. */
  function Differences(v: seq<int>): (d: seq<int>)
    requires |v| >= 1
    ensures |d| == |v| - 1
    ensures forall i :: 0 <= i < |d| ==> d[i] == v[i + 1] - v[i]
  {
    seq(|v| - 1, i requires 0 <= i < |v| - 1 => v[i + 1] - v[i])
  }

  /** `compute_differences`: the `push_back` loop; it needs at least one value (`size() - 1` wraps otherwise). */
  method ComputeDifferences(values: seq<int>) returns (result: seq<int>)
    requires |values| >= 1
    ensures result == Differences(values)
  {
    result := [];
    var i := 0;
    while i < |values| - 1
      invariant 0 <= i <= |values| - 1
      invariant |result| == i
      invariant forall k :: 0 <= k < i ==> result[k] == values[k + 1] - values[k]
    {
      result := result + [values[i + 1] - values[i]];
      i := i + 1;
    }
    assert result == Differences(values);
  }

  /** `adjacent_find(..., not_equal_to)` finds nothing: every element equals the next one. */
  predicate AllEqual(row: seq<int>) {
    forall i :: 0 <= i < |row| - 1 ==> row[i] == row[i + 1]
  }

  /** In a row whose neighbours are equal, every element equals the first. */
  lemma {:induction false} AllEqualFirst(row: seq<int>, i: nat)
    requires AllEqual(row) && i < |row|
    ensures row[i] == row[0]
  {
    if i > 0 {
      AllEqualFirst(row, i - 1);
    }
  }

  /**
   * The rows of the table below `v`, the first difference row first and
   * the first constant row last.  A row that is not constant has at least
   * two elements, so every row is longer than the next.
   */
  function Rows(v: seq<int>): (rows: seq<seq<int>>)
    requires |v| >= 2
    ensures |rows| >= 1 && rows[0] == Differences(v)
    ensures forall k :: 0 <= k < |rows| ==> |rows[k]| >= 1
    ensures AllEqual(rows[|rows| - 1])
    decreases |v|
  {
    var d := Differences(v);
    if AllEqual(d) then [d] else [d] + Rows(d)
  }

  /** Part one: the last value plus the next value of the difference row, or its constant. */
  function Next(v: seq<int>): int
    requires |v| >= 2
    decreases |v|
  {
    var d := Differences(v);
    v[|v| - 1] + (if AllEqual(d) then d[|d| - 1] else Next(d))
  }

  /** Part two: the first value minus the previous value of the difference row, or its constant. */
  function Prev(v: seq<int>): int
    requires |v| >= 2
    decreases |v|
  {
    var d := Differences(v);
    v[0] - (if AllEqual(d) then d[0] else Prev(d))
  }

  /** The sum of the last elements of the rows. */
  function SumLasts(rows: seq<seq<int>>): int
    requires forall k :: 0 <= k < |rows| ==> |rows[k]| >= 1
  {
    if rows == [] then 0
    else
      var r := rows[|rows| - 1];
      SumLasts(rows[..|rows| - 1]) + r[|r| - 1]
  }

  /** `res = row[0] - res` over the rows from the deepest up, starting from 0. */
  function FoldFirsts(rows: seq<seq<int>>): int
    requires forall k :: 0 <= k < |rows| ==> |rows[k]| >= 1
  {
    if rows == [] then 0 else rows[0][0] - FoldFirsts(rows[1..])
  }

  lemma {:induction false} SumLastsPrepend(r: seq<int>, rows: seq<seq<int>>)
    requires |r| >= 1 && forall k :: 0 <= k < |rows| ==> |rows[k]| >= 1
    ensures SumLasts([r] + rows) == r[|r| - 1] + SumLasts(rows)
    decreases |rows|
  {
    if rows != [] {
      var n := |rows| - 1;
      assert ([r] + rows)[..n + 1] == [r] + rows[..n];
      SumLastsPrepend(r, rows[..n]);
    }
  }

  /** Part one is the last value plus the last elements of all rows. */
  lemma {:induction false} NextIsSumOfLasts(v: seq<int>)
    requires |v| >= 2
    ensures Next(v) == v[|v| - 1] + SumLasts(Rows(v))
    decreases |v|
  {
    var d := Differences(v);
    if AllEqual(d) {
      assert Rows(v) == [d];
      assert Rows(v)[..0] == [];
    } else {
      NextIsSumOfLasts(d);
      SumLastsPrepend(d, Rows(d));
    }
  }

  /** Part two is the first value minus the fold of the first elements of all rows. */
  lemma {:induction false} PrevIsFoldOfFirsts(v: seq<int>)
    requires |v| >= 2
    ensures Prev(v) == v[0] - FoldFirsts(Rows(v))
    decreases |v|
  {
    var d := Differences(v);
    if AllEqual(d) {
      assert Rows(v) == [d];
    } else {
      PrevIsFoldOfFirsts(d);
      assert Rows(v)[1..] == Rows(d);
    }
  }

  /** The rows still to be built below `c`: none once `c` is constant. */
  function RowsBelow(c: seq<int>): seq<seq<int>>
    requires |c| >= 1
  {
    if AllEqual(c) then [] else Rows(c)
  }

  lemma RowsUnfold(v: seq<int>)
    requires |v| >= 2
    ensures Rows(v) == [Differences(v)] + RowsBelow(Differences(v))
  {
  }

  /** What the rows below `c` still add to part one: nothing once `c` is constant. */
  function NextBelow(c: seq<int>): int
    requires |c| >= 1
  {
    if AllEqual(c) then 0 else Next(c) - c[|c| - 1]
  }

  /** One more row: what is left below a row that is not constant is its difference row's last element and what is below that. */
  lemma NextBelowStep(c: seq<int>)
    requires |c| >= 1 && !AllEqual(c)
    ensures |c| >= 2
    ensures var d := Differences(c); NextBelow(c) == d[|d| - 1] + NextBelow(d)
  {
  }

  /** The loop that builds `compute`, shared by both parts: it ends with all the rows. */
  method BuildRows(values: seq<int>) returns (compute: seq<seq<int>>)
    requires |values| >= 2
    ensures compute == Rows(values)
  {
    var first := ComputeDifferences(values);
    compute := [first];
    RowsUnfold(values);
    while !AllEqual(compute[|compute| - 1])
      invariant |compute| >= 1 && |compute[|compute| - 1]| >= 1
      invariant compute + RowsBelow(compute[|compute| - 1]) == Rows(values)
      decreases |compute[|compute| - 1]|
    {
      var last := compute[|compute| - 1];
      var next := ComputeDifferences(last);
      RowsExtend(compute, values);
      compute := compute + [next];
    }
  }

  /** Appending the difference row of a row that is not constant keeps what is built plus what is left equal to all rows. */
  lemma RowsExtend(compute: seq<seq<int>>, values: seq<int>)
    requires |values| >= 2 && |compute| >= 1
    requires var last := compute[|compute| - 1]; |last| >= 1 && !AllEqual(last)
    requires compute + RowsBelow(compute[|compute| - 1]) == Rows(values)
    ensures var next := Differences(compute[|compute| - 1]);
            |next| >= 1 && (compute + [next]) + RowsBelow(next) == Rows(values)
  {
    var last := compute[|compute| - 1];
    var next := Differences(last);
    var below := RowsBelow(next);
    RowsUnfold(last);
    assert RowsBelow(last) == [next] + below;
    ConcatAssociates(compute, [next], below);
  }

  lemma ConcatAssociates(a: seq<seq<int>>, b: seq<seq<int>>, c: seq<seq<int>>)
    ensures (a + b) + c == a + (b + c)
  {
  }

  /** `extrapolate<part::one>`: the last value plus the last element of each row as it is built. */
  method ExtrapolateNext(values: seq<int>) returns (res: int)
    requires |values| >= 2
    ensures res == Next(values)
  {
    var first := ComputeDifferences(values);
    var compute := [first];
    res := values[|values| - 1] + first[|first| - 1];
    while !AllEqual(compute[|compute| - 1])
      invariant |compute| >= 1 && |compute[|compute| - 1]| >= 1
      invariant res + NextBelow(compute[|compute| - 1]) == Next(values)
      decreases |compute[|compute| - 1]|
    {
      var last := compute[|compute| - 1];
      var next := ComputeDifferences(last);
      NextBelowStep(last);
      compute := compute + [next];
      res := res + next[|next| - 1];
    }
  }

  lemma FoldFirstsAt(rows: seq<seq<int>>, k: nat)
    requires k < |rows| && forall j :: 0 <= j < |rows| ==> |rows[j]| >= 1
    ensures FoldFirsts(rows[k..]) == rows[k][0] - FoldFirsts(rows[k + 1..])
  {
    assert rows[k..][1..] == rows[k + 1..];
  }

  /** `extrapolate<part::two>`: build every row, then fold their first elements from the deepest up. */
  method ExtrapolatePrev(values: seq<int>) returns (res: int)
    requires |values| >= 2
    ensures res == Prev(values)
  {
    var compute := BuildRows(values);
    var r := 0;
    var k := |compute|;
    while k > 0
      invariant 0 <= k <= |compute|
      invariant r == FoldFirsts(compute[k..])
    {
      k := k - 1;
      FoldFirstsAt(compute, k);
      r := compute[k][0] - r;
    }
    PrevIsFoldOfFirsts(values);
    res := values[0] - r;
  }

  // ---------------------------------------------------------------------
  // Properties of the extrapolation
  // ---------------------------------------------------------------------

  /** An arithmetic sequence continues by its step in both directions. */
  lemma ArithmeticSequence(v: seq<int>, step: int)
    requires |v| >= 2 && forall i :: 0 <= i < |v| - 1 ==> v[i + 1] - v[i] == step
    ensures Next(v) == v[|v| - 1] + step
    ensures Prev(v) == v[0] - step
  {
    var d := Differences(v);
    assert AllEqual(d);
  }

  /** A constant sequence extrapolates to its constant in both directions. */
  lemma ConstantSequence(v: seq<int>, c: int)
    requires |v| >= 2 && forall i :: 0 <= i < |v| ==> v[i] == c
    ensures Next(v) == c && Prev(v) == c
  {
    ArithmeticSequence(v, 0);
  }

  function Negated(v: seq<int>): (w: seq<int>)
    ensures |w| == |v| && forall i :: 0 <= i < |v| ==> w[i] == -v[i]
  {
    seq(|v|, i requires 0 <= i < |v| => -v[i])
  }

  function Reversed(v: seq<int>): (w: seq<int>)
    ensures |w| == |v| && forall i :: 0 <= i < |v| ==> w[i] == v[|v| - 1 - i]
  {
    seq(|v|, i requires 0 <= i < |v| => v[|v| - 1 - i])
  }

  lemma NegatedRow(v: seq<int>)
    requires |v| >= 1
    ensures Differences(Negated(v)) == Negated(Differences(v))
    ensures AllEqual(Negated(v)) <==> AllEqual(v)
  {
    assert forall i :: 0 <= i < |v| - 1 ==> (Negated(v)[i] == Negated(v)[i + 1] <==> v[i] == v[i + 1]);
  }

  lemma ReversedRow(v: seq<int>)
    requires |v| >= 1
    ensures Differences(Reversed(v)) == Negated(Reversed(Differences(v)))
    ensures AllEqual(Reversed(v)) <==> AllEqual(v)
  {
    var n := |v|;
    var r := Reversed(v);
    var a := Differences(r);
    var d := Differences(v);
    var b := Negated(Reversed(d));
    forall i | 0 <= i < n - 1 ensures a[i] == b[i] {
      assert r[i + 1] == v[n - 2 - i] && r[i] == v[n - 1 - i];
      assert Reversed(d)[i] == d[n - 2 - i] == v[n - 1 - i] - v[n - 2 - i];
    }
    assert a == b;
    ReversedAllEqual(v);
  }

  lemma ReversedAllEqual(v: seq<int>)
    ensures AllEqual(Reversed(v)) <==> AllEqual(v)
  {
    var n := |v|;
    var r := Reversed(v);
    if AllEqual(v) {
      forall i | 0 <= i < n - 1 ensures r[i] == r[i + 1] {
        var j := n - 2 - i;
        assert v[j] == v[j + 1];
      }
    }
    if AllEqual(r) {
      forall i | 0 <= i < n - 1 ensures v[i] == v[i + 1] {
        var j := n - 2 - i;
        assert r[j] == r[j + 1];
      }
    }
  }

  /** The extrapolation is linear: negating the readings negates both predictions. */
  lemma {:induction false} ExtrapolateNegated(v: seq<int>)
    requires |v| >= 2
    ensures Next(Negated(v)) == -Next(v)
    ensures Prev(Negated(v)) == -Prev(v)
    decreases |v|
  {
    var d := Differences(v);
    NegatedRow(v);
    NegatedRow(d);
    if !AllEqual(d) {
      ExtrapolateNegated(d);
    }
  }

  /** The difference row of the reversed readings is the reversed difference row, negated. */
  lemma ReversedDifferences(v: seq<int>)
    requires |v| >= 2
    ensures Differences(Reversed(v)) == Negated(Reversed(Differences(v)))
    ensures AllEqual(Differences(Reversed(v))) <==> AllEqual(Differences(v))
    ensures Reversed(v)[|v| - 1] == v[0]
  {
    var d := Differences(v);
    ReversedRow(v);
    ReversedAllEqual(d);
    NegatedRow(Reversed(d));
  }

  /** Extrapolating backwards is extrapolating the reversed readings forwards. */
  lemma {:induction false} PrevIsNextOfReversed(v: seq<int>)
    requires |v| >= 2
    ensures Prev(v) == Next(Reversed(v))
    decreases |v|
  {
    var d := Differences(v);
    ReversedDifferences(v);
    if AllEqual(d) {
      ReversedConstantRow(v);
    } else {
      PrevIsNextOfReversed(d);
      ExtrapolateNegated(Reversed(d));
      ReversedStep(v);
    }
  }

  lemma ReversedConstantRow(v: seq<int>)
    requires |v| >= 2 && AllEqual(Differences(v))
    requires Differences(Reversed(v)) == Negated(Reversed(Differences(v)))
    requires AllEqual(Differences(Reversed(v))) && Reversed(v)[|v| - 1] == v[0]
    ensures Prev(v) == Next(Reversed(v))
  {
    var d := Differences(v);
    var rd := Differences(Reversed(v));
    assert Reversed(d)[|d| - 1] == d[0];
    assert rd[|rd| - 1] == -d[0];
    assert Prev(v) == v[0] - d[0];
    assert Next(Reversed(v)) == Reversed(v)[|v| - 1] + rd[|rd| - 1];
  }

  lemma ReversedStep(v: seq<int>)
    requires |v| >= 2 && !AllEqual(Differences(v))
    requires Differences(Reversed(v)) == Negated(Reversed(Differences(v)))
    requires !AllEqual(Differences(Reversed(v))) && Reversed(v)[|v| - 1] == v[0]
    requires Next(Negated(Reversed(Differences(v)))) == -Prev(Differences(v))
    ensures Prev(v) == Next(Reversed(v))
  {
  }

  // ---------------------------------------------------------------------
  // The sum over all sequences and the input
  // ---------------------------------------------------------------------

  function Extrapolation(part: Part, v: seq<int>): int
    requires |v| >= 2
  {
    if part == One then Next(v) else Prev(v)
  }

  /** The extrapolations of all sequences, summed. */
  function TotalExtrapolation(part: Part, values: seq<seq<int>>): int
    requires forall k :: 0 <= k < |values| ==> |values[k]| >= 2
  {
    if values == [] then 0
    else TotalExtrapolation(part, values[..|values| - 1]) + Extrapolation(part, values[|values| - 1])
  }

  /** `extrapolate_sum<Part>`. */
  method ExtrapolateSum(part: Part, values: seq<seq<int>>) returns (res: int)
    requires forall k :: 0 <= k < |values| ==> |values[k]| >= 2
    ensures res == TotalExtrapolation(part, values)
  {
    res := 0;
    var i := 0;
    while i < |values|
      invariant 0 <= i <= |values|
      invariant res == TotalExtrapolation(part, values[..i])
    {
      assert values[..i + 1][..i] == values[..i];
      var e: int;
      if part == One {
        e := ExtrapolateNext(values[i]);
      } else {
        e := ExtrapolatePrev(values[i]);
      }
      res := res + e;
      i := i + 1;
    }
    assert values[..i] == values;
  }

  /** `std::stol` on a token that starts with its number: an optional sign, then the leading digits. */
  function ParseSigned(s: string): int {
    if |s| > 0 && s[0] == '-' then 0 - ParseUnsigned(s[1..])
    else if |s| > 0 && s[0] == '+' then ParseUnsigned(s[1..])
    else ParseUnsigned(s)
  }

  /** One input line: the numbers of its " "-separated tokens. */
  function Readings(line: string): (v: seq<int>)
    ensures |v| == |Tokens(line, " ")|
    ensures forall k :: 0 <= k < |v| ==> v[k] == ParseSigned(Tokens(line, " ")[k])
  {
    var ts := Tokens(line, " ");
    seq(|ts|, k requires 0 <= k < |ts| => ParseSigned(ts[k]))
  }

  /**
   * `process`: one sequence per line, then the sum.  A line with fewer
   * than two numbers (an empty line among them) would make `extrapolate`
   * read past its vectors; here it is an error.
   */
  method Process(part: Part, lines: seq<string>) returns (r: Result<int, string>)
    ensures r.Err? <==> exists k :: 0 <= k < |lines| && |Readings(lines[k])| < 2
    ensures r.Ok? ==> r.value == TotalExtrapolation(part, seq(|lines|, k requires 0 <= k < |lines| => Readings(lines[k])))
  {
    var values: seq<seq<int>> := [];
    var i := 0;
    while i < |lines|
      invariant 0 <= i <= |lines|
      invariant |values| == i && forall k :: 0 <= k < i ==> values[k] == Readings(lines[k]) && |values[k]| >= 2
    {
      var parts := Collect(lines[i], " ");
      var row: seq<int> := [];
      var j := 0;
      while j < |parts|
        invariant 0 <= j <= |parts|
        invariant row == Readings(lines[i])[..j]
      {
        row := row + [ParseSigned(parts[j])];
        j := j + 1;
      }
      assert row == Readings(lines[i]);
      if |row| < 2 {
        return Err("a line with fewer than two numbers");
      }
      values := values + [row];
      i := i + 1;
    }
    assert values == seq(|lines|, k requires 0 <= k < |lines| => Readings(lines[k]));
    var total := ExtrapolateSum(part, values);
    r := Ok(total);
  }

  /**
   * A newline-terminated input ends with an empty line, which holds no
   * reading, so `Process` reports an error on it.
   */
  lemma TrailingEmptyLine(lines: seq<string>)
    requires |lines| > 0 && lines[|lines| - 1] == ""
    ensures exists k :: 0 <= k < |lines| && |Readings(lines[k])| < 2
  {
    TokensEmptyIff("", " ");
    assert |Readings(lines[|lines| - 1])| == 0;
  }
}
