/**
 * Part numbers (src/day-03.cc): a grid of text lines holding numbers and
 * symbols.  Every number next to a symbol (in any of the eight directions)
 * is added to the result; `extract_number` blanks each number out as it
 * reads it, so that no number is counted twice.
 */
module PartNumbers {
  import opened Common

  /** A symbol is any character that is neither '.' nor a digit. */
  predicate IsSymbol(c: char) {
    c != '.' && !IsDigit(c)
  }

  /** `line[pos]` on a `std::string`: the terminating '\0' at `pos == line.length()`. */
  function CharAt(line: string, pos: nat): char
    requires pos <= |line|
  {
    if pos < |line| then line[pos] else '\0'
  }

  /** Where the digit run through `pos` starts: the first loop of `extract_number`, as a function. */
  function RunStart(line: string, pos: nat): (b: nat)
    requires pos < |line| && IsDigit(line[pos])
    ensures b <= pos && (b == 0 || !IsDigit(line[b - 1]))
    ensures forall k :: b <= k <= pos ==> IsDigit(line[k])
    decreases pos
  {
    if pos > 0 && IsDigit(line[pos - 1]) then RunStart(line, pos - 1) else pos
  }

  /** Where the digit run through `pos` ends (exclusive): the second loop of `extract_number`, as a function. */
  function RunEnd(line: string, pos: nat): (e: nat)
    requires pos < |line| && IsDigit(line[pos])
    ensures pos < e <= |line| && (e == |line| || !IsDigit(line[e]))
    ensures forall k :: pos <= k < e ==> IsDigit(line[k])
    decreases |line| - pos
  {
    if pos + 1 < |line| && IsDigit(line[pos + 1]) then RunEnd(line, pos + 1) else pos + 1
  }

  /** `[b, e)` is a maximal run of digits of `line`. */
  predicate MaximalRun(line: string, b: nat, e: nat) {
    b < e <= |line| && (b == 0 || !IsDigit(line[b - 1])) && (e == |line| || !IsDigit(line[e])) &&
    forall k :: b <= k < e ==> IsDigit(line[k])
  }

  /** `line` with `[b, e)` overwritten by '.'. */
  function Cleared(line: string, b: nat, e: nat): (r: string)
    requires b <= e <= |line|
    ensures |r| == |line|
    ensures forall k :: 0 <= k < |r| ==> r[k] == if b <= k < e then '.' else line[k]
  {
    seq(|line|, k requires 0 <= k < |line| => if b <= k < e then '.' else line[k])
  }

  /**
   * `extract_number(grid[row], pos)` on the grid as a value: the number read
   * and the grid afterwards.
   */
  function Extract(grid: seq<string>, row: nat, pos: nat): (nat, seq<string>)
    requires row < |grid| && pos <= |grid[row]|
  {
    var line := grid[row];
    if !IsDigit(CharAt(line, pos)) then (0, grid)
    else
      var b := RunStart(line, pos);
      var e := RunEnd(line, pos);
      assert AllDigits(line[b..e]);
      (DecimalValue(line[b..e]), grid[row := Cleared(line, b, e)])
  }

  lemma ExtractOfRun(grid: seq<string>, row: nat, pos: nat)
    requires row < |grid| && pos < |grid[row]| && IsDigit(grid[row][pos])
    ensures var line := grid[row];
            var b := RunStart(line, pos);
            var e := RunEnd(line, pos);
            AllDigits(line[b..e]) && Extract(grid, row, pos) == (DecimalValue(line[b..e]), grid[row := Cleared(line, b, e)])
  {
  }

  lemma ClearedNothing(line: string, b: nat)
    requires b <= |line|
    ensures Cleared(line, b, b) == line
  {
  }

  lemma ClearedStep(line: string, b: nat, i: nat)
    requires b <= i < |line|
    ensures Cleared(line, b, i)[i := '.'] == Cleared(line, b, i + 1)
  {
  }

  /** The last loop of `extract_number`: `line[i] = '.'` for every `i` in `[b, e)`. */
  method BlankOut(lines: array<string>, row: nat, b: nat, e: nat)
    requires row < lines.Length && b <= e <= |lines[row]|
    modifies lines
    ensures lines[..] == old(lines[..])[row := Cleared(old(lines[row]), b, e)]
  {
    ghost var line := lines[row];
    var i := b;
    ClearedNothing(line, b);
    while i < e
      invariant b <= i <= e
      invariant lines[row] == Cleared(line, b, i)
      invariant forall r :: 0 <= r < lines.Length && r != row ==> lines[r] == old(lines[r])
    {
      ClearedStep(line, b, i);
      lines[row] := lines[row][i := '.'];
      i := i + 1;
    }
  }

  /** `extract_number`: finds the digit run through `line[pos]`, blanks it out in place and returns its value. */
  method ExtractNumber(lines: array<string>, row: nat, pos: nat) returns (v: nat)
    requires row < lines.Length && pos <= |lines[row]|
    modifies lines
    ensures v == Extract(old(lines[..]), row, pos).0
    ensures lines[..] == Extract(old(lines[..]), row, pos).1
  {
    var line := lines[row];
    if !IsDigit(CharAt(line, pos)) {
      v := 0;
    } else {
      var begin: nat := pos;
      while begin > 0 && IsDigit(line[begin - 1])
        invariant begin <= pos < |line| && IsDigit(line[begin]) && RunStart(line, begin) == RunStart(line, pos)
      {
        begin := begin - 1;
      }
      var end := pos + 1;
      while end < |line| && IsDigit(line[end])
        invariant pos < end <= |line| && IsDigit(line[end - 1]) && RunEnd(line, end - 1) == RunEnd(line, pos)
      {
        end := end + 1;
      }
      ExtractOfRun(lines[..], row, pos);
      v := DecimalValue(line[begin..end]);
      BlankOut(lines, row, begin, end);
    }
  }

  // ---------------------------------------------------------------------
  // What one extraction does
  // ---------------------------------------------------------------------

  /** A digit at `pos` yields the value of the maximal run through it; that run, and nothing else, is blanked out. */
  lemma ExtractReadsMaximalRun(grid: seq<string>, row: nat, pos: nat)
    requires row < |grid| && pos < |grid[row]| && IsDigit(grid[row][pos])
    ensures var (v, g) := Extract(grid, row, pos);
            exists b: nat, e: nat :: b <= pos < e && MaximalRun(grid[row], b, e) && AllDigits(grid[row][b..e]) &&
              v == DecimalValue(grid[row][b..e]) &&
              |g| == |grid| && (forall r :: 0 <= r < |g| && r != row ==> g[r] == grid[r]) &&
              g[row] == Cleared(grid[row], b, e)
  {
    var line := grid[row];
    var b := RunStart(line, pos);
    var e := RunEnd(line, pos);
    assert MaximalRun(line, b, e);
  }

  /** A non-digit at `pos` (or the end of the line) yields 0 and changes nothing. */
  lemma ExtractNonDigit(grid: seq<string>, row: nat, pos: nat)
    requires row < |grid| && pos <= |grid[row]| && (pos == |grid[row]| || !IsDigit(grid[row][pos]))
    ensures Extract(grid, row, pos) == (0, grid)
  {
  }

  /** After an extraction, a second one anywhere in the same run reads 0: no number is counted twice. */
  lemma ExtractTwice(grid: seq<string>, row: nat, pos: nat, other: nat)
    requires row < |grid| && pos < |grid[row]| && IsDigit(grid[row][pos])
    requires RunStart(grid[row], pos) <= other < RunEnd(grid[row], pos)
    ensures var g := Extract(grid, row, pos).1;
            row < |g| && other <= |g[row]| && Extract(g, row, other).0 == 0
  {
    var g := Extract(grid, row, pos).1;
    assert g[row][other] == '.';
  }

  /** Every character of `after` is that of `before`, or a digit of `before` turned into '.'; the length is the same. */
  ghost predicate LineDescends(before: string, after: string) {
    |after| == |before| &&
    forall c :: 0 <= c < |before| ==> after[c] == before[c] || (IsDigit(before[c]) && after[c] == '.')
  }

  /** Every line of `after` descends from that of `before`: only digits have been blanked out. */
  ghost predicate Descends(before: seq<string>, after: seq<string>) {
    |after| == |before| && forall r :: 0 <= r < |before| ==> LineDescends(before[r], after[r])
  }

  lemma DescendsTransitive(g0: seq<string>, g1: seq<string>, g2: seq<string>)
    requires Descends(g0, g1) && Descends(g1, g2)
    ensures Descends(g0, g2)
  {
  }

  /** An extraction only blanks digits out, and leaves the probed cell without a digit. */
  lemma ExtractDescends(grid: seq<string>, row: nat, pos: nat)
    requires row < |grid| && pos <= |grid[row]|
    ensures var g := Extract(grid, row, pos).1;
            Descends(grid, g) && (pos < |grid[row]| ==> !IsDigit(g[row][pos]))
  {
  }

  // ---------------------------------------------------------------------
  // Conservation: the numbers read plus the numbers left equal the numbers there were
  // ---------------------------------------------------------------------

  /** The sum of the values of the maximal digit runs of `s`. */
  function LineTotal(s: string): nat
    decreases |s|
  {
    if s == [] then 0
    else if !IsDigit(s[0]) then LineTotal(s[1..])
    else
      var k := LeadingDigits(s);
      DecimalValue(s[..k]) + LineTotal(s[k..])
  }

  function GridTotal(grid: seq<string>): nat {
    if grid == [] then 0 else GridTotal(grid[..|grid| - 1]) + LineTotal(grid[|grid| - 1])
  }

  /** Ends with a non-digit (or is empty): a run of `a` cannot continue into whatever follows. */
  predicate ClosedRight(a: string) {
    a == [] || !IsDigit(a[|a| - 1])
  }

  lemma {:induction false} LeadingDigitsClosed(a: string, c: string)
    requires a != [] && ClosedRight(a)
    ensures LeadingDigits(a + c) == LeadingDigits(a) < |a|
    decreases |a|
  {
    if IsDigit(a[0]) {
      assert |a| > 1;
      assert (a + c)[1..] == a[1..] + c;
      LeadingDigitsClosed(a[1..], c);
    }
  }

  lemma {:induction false} LineTotalConcat(a: string, c: string)
    requires ClosedRight(a)
    ensures LineTotal(a + c) == LineTotal(a) + LineTotal(c)
    decreases |a|
  {
    if a == [] {
      assert a + c == c;
    } else if !IsDigit(a[0]) {
      assert (a + c)[1..] == a[1..] + c;
      LineTotalConcat(a[1..], c);
    } else {
      LeadingDigitsClosed(a, c);
      var k := LeadingDigits(a);
      assert (a + c)[..k] == a[..k];
      assert (a + c)[k..] == a[k..] + c;
      LineTotalConcat(a[k..], c);
    }
  }

  lemma {:induction false} LineTotalRun(run: string, c: string)
    requires run != [] && AllDigits(run) && (c == [] || !IsDigit(c[0]))
    ensures LineTotal(run + c) == DecimalValue(run) + LineTotal(c)
  {
    var s := run + c;
    LeadingDigitsOfRun(run, c);
    assert s[..|run|] == run;
    assert s[|run|..] == c;
  }

  lemma {:induction false} LeadingDigitsOfRun(run: string, c: string)
    requires AllDigits(run) && (c == [] || !IsDigit(c[0]))
    ensures LeadingDigits(run + c) == |run|
    decreases |run|
  {
    if run == [] {
      assert run + c == c;
    } else {
      assert (run + c)[1..] == run[1..] + c;
      LeadingDigitsOfRun(run[1..], c);
    }
  }

  function Dots(n: nat): (d: string)
    ensures |d| == n && forall k :: 0 <= k < n ==> d[k] == '.'
  {
    if n == 0 then [] else ['.'] + Dots(n - 1)
  }

  lemma {:induction false} LineTotalDots(n: nat, c: string)
    ensures LineTotal(Dots(n) + c) == LineTotal(c)
    decreases n
  {
    if n == 0 {
      assert Dots(n) + c == c;
    } else {
      var s := Dots(n) + c;
      assert s[0] == '.';
      assert s[1..] == Dots(n - 1) + c;
      LineTotalDots(n - 1, c);
    }
  }

  lemma ClearedSplit(line: string, b: nat, e: nat)
    requires b <= e <= |line|
    ensures Cleared(line, b, e) == line[..b] + (Dots(e - b) + line[e..])
  {
    var r := line[..b] + (Dots(e - b) + line[e..]);
    assert |r| == |line|;
    forall k | 0 <= k < |line| ensures Cleared(line, b, e)[k] == r[k] {
      if k < b {
        assert r[k] == line[k];
      } else if k < e {
        assert r[k] == Dots(e - b)[k - b];
      } else {
        assert r[k] == line[e..][k - e];
      }
    }
  }

  /** Blanking out a maximal run removes exactly its value from the line's total. */
  lemma ClearedLineTotal(line: string, b: nat, e: nat)
    requires MaximalRun(line, b, e)
    ensures AllDigits(line[b..e])
    ensures LineTotal(Cleared(line, b, e)) + DecimalValue(line[b..e]) == LineTotal(line)
  {
    LineTotalAroundRun(line, b, e);
    LineTotalAroundDots(line, b, e);
  }

  /** A line's total splits around a maximal run: before, the run's value, after. */
  lemma LineTotalAroundRun(line: string, b: nat, e: nat)
    requires MaximalRun(line, b, e)
    ensures AllDigits(line[b..e])
    ensures LineTotal(line) == LineTotal(line[..b]) + (DecimalValue(line[b..e]) + LineTotal(line[e..]))
  {
    var pre, run, post := line[..b], line[b..e], line[e..];
    assert AllDigits(run);
    assert ClosedRight(pre);
    assert post == [] || !IsDigit(post[0]);
    assert LineTotal(line) == LineTotal(pre) + (DecimalValue(run) + LineTotal(post)) by {
      assert line == pre + (run + post);
      LineTotalConcat(pre, run + post);
      LineTotalRun(run, post);
    }
  }

  /** Once a maximal run is blanked, the line's total is what lies before it and after it. */
  lemma LineTotalAroundDots(line: string, b: nat, e: nat)
    requires MaximalRun(line, b, e)
    ensures LineTotal(Cleared(line, b, e)) == LineTotal(line[..b]) + LineTotal(line[e..])
  {
    var pre, post := line[..b], line[e..];
    assert ClosedRight(pre);
    ClearedSplit(line, b, e);
    LineTotalConcat(pre, Dots(e - b) + post);
    LineTotalDots(e - b, post);
  }

  lemma {:induction false} GridTotalUpdate(grid: seq<string>, row: nat, s: string)
    requires row < |grid|
    ensures GridTotal(grid[row := s]) + LineTotal(grid[row]) == GridTotal(grid) + LineTotal(s)
    decreases |grid|
  {
    var n := |grid| - 1;
    var g' := grid[row := s];
    assert g'[..n] == if row == n then grid[..n] else grid[..n][row := s];
    if row < n {
      GridTotalUpdate(grid[..n], row, s);
    }
  }

  /** The value read plus the total left in the grid is the total before: numbers are moved out, never duplicated. */
  lemma ExtractConserves(grid: seq<string>, row: nat, pos: nat)
    requires row < |grid| && pos <= |grid[row]|
    ensures Extract(grid, row, pos).0 + GridTotal(Extract(grid, row, pos).1) == GridTotal(grid)
  {
    var line := grid[row];
    if IsDigit(CharAt(line, pos)) {
      var b := RunStart(line, pos);
      var e := RunEnd(line, pos);
      assert MaximalRun(line, b, e);
      ClearedLineTotal(line, b, e);
      GridTotalUpdate(grid, row, Cleared(line, b, e));
    }
  }

  // ---------------------------------------------------------------------
  // Which runs are blanked: those next to a symbol the scan has reached
  // ---------------------------------------------------------------------

  /** Every position of a maximal run has that run's start and end. */
  lemma {:induction false} RunStartOfMaximal(line: string, b: nat, e: nat, k: nat)
    requires MaximalRun(line, b, e) && b <= k < e
    ensures RunStart(line, k) == b
    decreases k - b
  {
    if k > b {
      RunStartOfMaximal(line, b, e, k - 1);
    }
  }

  lemma {:induction false} RunEndOfMaximal(line: string, b: nat, e: nat, k: nat)
    requires MaximalRun(line, b, e) && b <= k < e
    ensures RunEnd(line, k) == e
    decreases e - k
  {
    if k + 1 < e {
      RunEndOfMaximal(line, b, e, k + 1);
    }
  }

  /** The run through `c`, from `RunStart` to `RunEnd`, is maximal. */
  lemma RunIsMaximal(line: string, c: nat)
    requires c < |line| && IsDigit(line[c])
    ensures MaximalRun(line, RunStart(line, c), RunEnd(line, c))
  {
  }

  /** The digits whose run starts at `b` are exactly those of the maximal run [b, e). */
  lemma RunOfStart(line: string, b: nat, e: nat)
    requires MaximalRun(line, b, e)
    ensures forall k :: 0 <= k < |line| && IsDigit(line[k]) ==> (RunStart(line, k) == b <==> b <= k < e)
  {
    forall k | 0 <= k < |line| && IsDigit(line[k]) ensures RunStart(line, k) == b <==> b <= k < e {
      if b <= k < e {
        RunStartOfMaximal(line, b, e, k);
      }
    }
  }

  /** A run is named in `TouchedRuns` exactly when it touches a symbol scanned before (i, j). */
  lemma InTouched(g: seq<string>, r: nat, b: nat, i: int, j: int)
    requires r < |g| && b < |g[r]| && IsDigit(g[r][b]) && RunStart(g[r], b) == b
    ensures (r, b) in TouchedRuns(g, i, j) <==> RunTouched(g, r, b, RunEnd(g[r], b), i, j)
  {
  }

  /** The scan reaches (si, sj) before (i, j): an earlier row, or the same row further left. */
  predicate Before(si: int, sj: int, i: int, j: int) {
    si < i || (si == i && sj < j)
  }

  /** (i, j) holds a symbol of `g`. */
  ghost predicate SymbolAt(g: seq<string>, i: int, j: int) {
    0 <= i < |g| && 0 <= j < |g[i]| && IsSymbol(g[i][j])
  }

  /** Some cell of columns [b, e) of row r is next to a symbol of `g` that the scan reaches before (i, j). */
  ghost predicate RunTouched(g: seq<string>, r: int, b: int, e: int, i: int, j: int) {
    exists k, si, sj :: b <= k < e && Before(si, sj, i, j) && Adjacent(si, sj, r, k) && SymbolAt(g, si, sj)
  }

  /** The runs of `g`, named by row and first column, next to a symbol the scan reaches before (i, j). */
  ghost function TouchedRuns(g: seq<string>, i: int, j: int): set<(int, int)> {
    set r, b | 0 <= r < |g| && 0 <= b < |g[r]| && IsDigit(g[r][b]) && RunStart(g[r], b) == b &&
      RunTouched(g, r, b, RunEnd(g[r], b), i, j) :: (r, b)
  }

  /** Row `r` of the grid with the runs named in `runs` overwritten by '.'. */
  function BlankLine(line: string, r: int, runs: set<(int, int)>): (s: string)
    ensures |s| == |line|
    ensures forall c {:trigger s[c]} :: 0 <= c < |line| ==> s[c] == if IsDigit(line[c]) && (r, RunStart(line, c)) in runs then '.' else line[c]
  {
    seq(|line|, c requires 0 <= c < |line| => if IsDigit(line[c]) && (r, RunStart(line, c)) in runs then '.' else line[c])
  }

  /** `orig` with the runs named in `runs` overwritten by '.'. */
  function BlankRuns(orig: seq<string>, runs: set<(int, int)>): (g: seq<string>)
    ensures |g| == |orig| && forall r {:trigger g[r]} :: 0 <= r < |orig| ==> g[r] == BlankLine(orig[r], r, runs)
  {
    seq(|orig|, r requires 0 <= r < |orig| => BlankLine(orig[r], r, runs))
  }

  /** The grid once the scan has reached (i, j): every run next to a symbol scanned before (i, j) is blanked out. */
  ghost function ScannedTo(orig: seq<string>, i: int, j: int): seq<string> {
    BlankRuns(orig, TouchedRuns(orig, i, j))
  }

  /** The grid `process_lines` leaves: every run next to a symbol is blanked out, nothing else. */
  ghost function PartsBlanked(orig: seq<string>): seq<string> {
    ScannedTo(orig, |orig|, 0)
  }

  lemma BlankRunsDescends(orig: seq<string>, runs: set<(int, int)>)
    ensures Descends(orig, BlankRuns(orig, runs))
  {
  }

  /** Before the scan starts nothing is blanked. */
  lemma ScannedFromStart(orig: seq<string>)
    ensures ScannedTo(orig, 0, 0) == orig
  {
    assert TouchedRuns(orig, 0, 0) == {};
    var g := ScannedTo(orig, 0, 0);
    forall r | 0 <= r < |orig| ensures g[r] == orig[r] {
      assert BlankLine(orig[r], r, {}) == orig[r];
    }
  }

  /** Moving past a cell that holds no symbol blanks nothing more. */
  lemma ScannedPastNonSymbol(orig: seq<string>, i: nat, j: nat)
    requires i < |orig| && j < |orig[i]| && !IsSymbol(orig[i][j])
    ensures ScannedTo(orig, i, j + 1) == ScannedTo(orig, i, j)
  {
    TouchedGrows(orig, i, j);
    forall r, b | 0 <= r < |orig| && 0 <= b < |orig[r]| && IsDigit(orig[r][b]) && RunStart(orig[r], b) == b && (r, b) in TouchedRuns(orig, i, j + 1)
      ensures (r, b) in TouchedRuns(orig, i, j)
    {
      InTouched(orig, r, b, i, j + 1);
      TouchedPastNonSymbol(orig, i, j, r, b, RunEnd(orig[r], b));
      InTouched(orig, r, b, i, j);
    }
    assert TouchedRuns(orig, i, j + 1) == TouchedRuns(orig, i, j);
  }

  lemma TouchedPastNonSymbol(orig: seq<string>, i: nat, j: nat, r: int, b: int, e: int)
    requires i < |orig| && j < |orig[i]| && !IsSymbol(orig[i][j])
    requires RunTouched(orig, r, b, e, i, j + 1)
    ensures RunTouched(orig, r, b, e, i, j)
  {
    var k, si, sj :| b <= k < e && Before(si, sj, i, j + 1) && Adjacent(si, sj, r, k) && SymbolAt(orig, si, sj);
    assert (si, sj) != (i, j) by {
      assert IsSymbol(orig[si][sj]);
    }
    assert Before(si, sj, i, j);
  }

  /** The end of row i is the start of row i + 1. */
  lemma ScannedRowEnd(orig: seq<string>, i: nat)
    requires i < |orig|
    ensures ScannedTo(orig, i, |orig[i]|) == ScannedTo(orig, i + 1, 0)
  {
    forall r, b | 0 <= r < |orig| && 0 <= b < |orig[r]| && IsDigit(orig[r][b])
      ensures RunTouched(orig, r, b, RunEnd(orig[r], b), i, |orig[i]|) <==> RunTouched(orig, r, b, RunEnd(orig[r], b), i + 1, 0)
    {
      if RunTouched(orig, r, b, RunEnd(orig[r], b), i + 1, 0) {
        var k, si, sj :| b <= k < RunEnd(orig[r], b) && Before(si, sj, i + 1, 0) && Adjacent(si, sj, r, k) && SymbolAt(orig, si, sj);
        assert Before(si, sj, i, |orig[i]|);
      }
    }
    assert TouchedRuns(orig, i, |orig[i]|) == TouchedRuns(orig, i + 1, 0);
  }

  /**
   * The probes around the symbol at (i, j) are under way: `g` blanks the
   * runs named in `runs`, which include every run the scan had blanked
   * before (i, j) and only runs next to a symbol up to (i, j) itself.
   */
  ghost predicate Tracking(orig: seq<string>, g: seq<string>, runs: set<(int, int)>, i: int, j: int) {
    g == BlankRuns(orig, runs) && TouchedRuns(orig, i, j) <= runs <= TouchedRuns(orig, i, j + 1)
  }

  /** The runs blanked once `extract_number(lines[row], pos)` has run. */
  ghost function Grow(orig: seq<string>, runs: set<(int, int)>, row: nat, pos: nat): set<(int, int)>
    requires row < |orig| && pos < |orig[row]|
  {
    if IsDigit(orig[row][pos]) then runs + {(row, RunStart(orig[row], pos))} else runs
  }

  lemma TrackingStarts(orig: seq<string>, i: int, j: int)
    ensures Tracking(orig, ScannedTo(orig, i, j), TouchedRuns(orig, i, j), i, j)
  {
    TouchedGrows(orig, i, j);
  }

  /** The runs touched before (i, j) are among those touched before (i, j + 1). */
  lemma TouchedGrows(orig: seq<string>, i: int, j: int)
    ensures TouchedRuns(orig, i, j) <= TouchedRuns(orig, i, j + 1)
  {
    forall r, b | 0 <= r < |orig| && 0 <= b < |orig[r]| && IsDigit(orig[r][b]) && RunTouched(orig, r, b, RunEnd(orig[r], b), i, j)
      ensures RunTouched(orig, r, b, RunEnd(orig[r], b), i, j + 1)
    {
      var k, si, sj :| b <= k < RunEnd(orig[r], b) && Before(si, sj, i, j) && Adjacent(si, sj, r, k) && SymbolAt(orig, si, sj);
      assert Before(si, sj, i, j + 1);
    }
  }

  /** Blanking the maximal run [b, e) of a row that already blanks `runs`. */
  lemma BlankLineGrow(line: string, r: int, runs: set<(int, int)>, b: nat, e: nat)
    requires MaximalRun(line, b, e)
    ensures BlankLine(line, r, runs + {(r, b)}) == Cleared(BlankLine(line, r, runs), b, e)
  {
    var s := BlankLine(line, r, runs + {(r, b)});
    var t := Cleared(BlankLine(line, r, runs), b, e);
    RunOfStart(line, b, e);
    assert s == t;
  }

  /** Naming a run of row `row` changes no other row. */
  lemma BlankLineOtherRow(line: string, r: int, runs: set<(int, int)>, row: int, b: int)
    requires r != row
    ensures BlankLine(line, r, runs + {(row, b)}) == BlankLine(line, r, runs)
  {
  }

  /** On a grid that blanks `runs`, an extraction blanks one more run: the one through `pos`, if any. */
  lemma ExtractOnBlanked(orig: seq<string>, runs: set<(int, int)>, row: nat, pos: nat)
    requires row < |orig| && pos < |orig[row]|
    ensures Extract(BlankRuns(orig, runs), row, pos).1 == BlankRuns(orig, Grow(orig, runs, row, pos))
  {
    var g := BlankRuns(orig, runs);
    var line := orig[row];
    if IsDigit(g[row][pos]) {
      var b, e := RunStart(line, pos), RunEnd(line, pos);
      RunIsMaximal(line, pos);
      assert MaximalRun(g[row], b, e) by {
        forall k | b <= k < e ensures g[row][k] == line[k] {
          RunStartOfMaximal(line, b, e, k);
        }
      }
      RunStartOfMaximal(g[row], b, e, pos);
      RunEndOfMaximal(g[row], b, e, pos);
      BlankLineGrow(line, row, runs, b, e);
      var g' := BlankRuns(orig, runs + {(row, b)});
      forall r | 0 <= r < |orig| && r != row ensures g'[r] == g[r] {
        BlankLineOtherRow(orig[r], r, runs, row, b);
      }
      assert g' == g[row := Cleared(g[row], b, e)];
    } else if IsDigit(line[pos]) {
      assert (row, RunStart(line, pos)) in runs;
      assert Grow(orig, runs, row, pos) == runs;
    }
  }

  /** The run an extraction next to the symbol at (i, j) blanks touches that symbol. */
  lemma GrowTouched(orig: seq<string>, runs: set<(int, int)>, row: nat, pos: nat, i: int, j: int)
    requires row < |orig| && pos < |orig[row]| && SymbolAt(orig, i, j) && Adjacent(i, j, row, pos)
    requires runs <= TouchedRuns(orig, i, j + 1)
    ensures Grow(orig, runs, row, pos) <= TouchedRuns(orig, i, j + 1)
  {
    var line := orig[row];
    if IsDigit(line[pos]) {
      var b, e := RunStart(line, pos), RunEnd(line, pos);
      RunIsMaximal(line, pos);
      RunStartOfMaximal(line, b, e, b);
      RunEndOfMaximal(line, b, e, b);
      assert Before(i, j, i, j + 1);
      assert RunTouched(orig, row, b, RunEnd(line, b), i, j + 1);
      assert (row, b) in TouchedRuns(orig, i, j + 1);
    }
  }

  /** One probe next to the symbol at (i, j) keeps the tracking. */
  lemma ProbeTracks(orig: seq<string>, g: seq<string>, runs: set<(int, int)>, i: int, j: int, row: nat, pos: nat)
    requires Tracking(orig, g, runs, i, j) && SymbolAt(orig, i, j) && Adjacent(i, j, row, pos)
    requires row < |orig| && pos < |orig[row]|
    ensures Tracking(orig, Extract(g, row, pos).1, Grow(orig, runs, row, pos), i, j)
  {
    ExtractOnBlanked(orig, runs, row, pos);
    GrowTouched(orig, runs, row, pos, i, j);
  }

  /** A run next to the symbol at (i, j) is already named once no neighbour of (i, j) holds a digit. */
  lemma CellComplete(orig: seq<string>, g: seq<string>, runs: set<(int, int)>, i: int, j: int, r: nat, b: nat)
    requires g == BlankRuns(orig, runs) && TouchedRuns(orig, i, j) <= runs && NeighboursClear(g, i, j)
    requires r < |orig| && b < |orig[r]| && IsDigit(orig[r][b]) && RunStart(orig[r], b) == b
    requires RunTouched(orig, r, b, RunEnd(orig[r], b), i, j + 1)
    ensures (r, b) in runs
  {
    var line := orig[r];
    var e := RunEnd(line, b);
    var k, si, sj :| b <= k < e && Before(si, sj, i, j + 1) && Adjacent(si, sj, r, k) && SymbolAt(orig, si, sj);
    if Before(si, sj, i, j) {
      assert RunTouched(orig, r, b, e, i, j);
      InTouched(orig, r, b, i, j);
    } else {
      RunIsMaximal(line, b);
      RunStartOfMaximal(line, b, e, k);
      assert g[r][k] == BlankLine(line, r, runs)[k];
      assert !IsDigit(g[r][k]);
    }
  }

  /** Once no neighbour of the symbol at (i, j) holds a digit, the scan has reached (i, j + 1). */
  lemma VisitComplete(orig: seq<string>, g: seq<string>, runs: set<(int, int)>, i: int, j: int)
    requires Tracking(orig, g, runs, i, j) && NeighboursClear(g, i, j)
    ensures g == ScannedTo(orig, i, j + 1)
  {
    var t := TouchedRuns(orig, i, j + 1);
    forall r | 0 <= r < |orig| ensures BlankLine(orig[r], r, runs) == BlankLine(orig[r], r, t) {
      forall c | 0 <= c < |orig[r]| && IsDigit(orig[r][c])
        ensures (r, RunStart(orig[r], c)) in runs <==> (r, RunStart(orig[r], c)) in t
      {
        var b := RunStart(orig[r], c);
        RunIsMaximal(orig[r], c);
        RunStartOfMaximal(orig[r], b, RunEnd(orig[r], c), b);
        RunEndOfMaximal(orig[r], b, RunEnd(orig[r], c), b);
        if (r, b) in t {
          InTouched(orig, r, b, i, j + 1);
          CellComplete(orig, g, runs, i, j, r, b);
        }
      }
    }
  }

  /** In the final grid no symbol has a digit next to it. */
  lemma PartsBlankedClear(orig: seq<string>, i: nat, j: nat)
    requires i < |orig| && j < |orig[i]| && IsSymbol(PartsBlanked(orig)[i][j])
    ensures NeighboursClear(PartsBlanked(orig), i, j)
  {
    var g := PartsBlanked(orig);
    assert SymbolAt(orig, i, j);
    forall r, c | 0 <= r < |g| && 0 <= c < |g[r]| && Adjacent(i, j, r, c) ensures !IsDigit(g[r][c]) {
      if IsDigit(orig[r][c]) {
        var b, e := RunStart(orig[r], c), RunEnd(orig[r], c);
        RunIsMaximal(orig[r], c);
        RunStartOfMaximal(orig[r], b, e, b);
        RunEndOfMaximal(orig[r], b, e, b);
        assert Before(i, j, |orig|, 0);
        assert RunTouched(orig, r, b, e, |orig|, 0);
        assert (r, b) in TouchedRuns(orig, |orig|, 0);
      }
    }
  }

  // ---------------------------------------------------------------------
  // The part numbers: the numbers next to a symbol
  // ---------------------------------------------------------------------

  /** The sum of the numbers of row r, from column c on, whose digits touch a symbol somewhere in the grid. */
  ghost function RowParts(g: seq<string>, r: nat, c: nat): nat
    requires r < |g| && c <= |g[r]|
    decreases |g[r]| - c
  {
    if c == |g[r]| then 0
    else if !IsDigit(g[r][c]) then RowParts(g, r, c + 1)
    else
      var e := RunEnd(g[r], c);
      assert AllDigits(g[r][c..e]);
      (if RunTouched(g, r, c, e, |g|, 0) then DecimalValue(g[r][c..e]) else 0) + RowParts(g, r, e)
  }

  /** The part numbers of the first k rows. */
  ghost function PartsUpTo(g: seq<string>, k: nat): nat
    requires k <= |g|
  {
    if k == 0 then 0 else PartsUpTo(g, k - 1) + RowParts(g, k - 1, 0)
  }

  /** The sum of all part numbers: every number with a symbol among its neighbours, counted once. */
  ghost function PartSum(g: seq<string>): nat {
    PartsUpTo(g, |g|)
  }

  /** `c` is not strictly inside a digit run of `line`. */
  predicate RunBoundary(line: string, c: nat)
    requires c <= |line|
  {
    c == 0 || c == |line| || !IsDigit(line[c]) || !IsDigit(line[c - 1])
  }

  /** Row r's numbers from column c on: its part numbers, plus what the final grid leaves. */
  lemma {:induction false} RowSplit(orig: seq<string>, r: nat, c: nat)
    requires r < |orig| && c <= |orig[r]| && RunBoundary(orig[r], c)
    ensures LineTotal(orig[r][c..]) == RowParts(orig, r, c) + LineTotal(PartsBlanked(orig)[r][c..])
    decreases |orig[r]| - c
  {
    var l := orig[r];
    if c == |l| {
      assert l[c..] == [] && PartsBlanked(orig)[r][c..] == [];
    } else if !IsDigit(l[c]) {
      RowSplitSkip(orig, r, c);
      RowSplit(orig, r, c + 1);
    } else {
      RowSplitRun(orig, r, c);
      RowSplit(orig, r, RunEnd(l, c));
    }
  }

  /** Past a non-digit: nothing is blanked there and nothing counted. */
  lemma RowSplitSkip(orig: seq<string>, r: nat, c: nat)
    requires r < |orig| && c < |orig[r]| && !IsDigit(orig[r][c])
    ensures RunBoundary(orig[r], c + 1)
    ensures LineTotal(orig[r][c..]) == LineTotal(orig[r][c + 1..])
    ensures LineTotal(PartsBlanked(orig)[r][c..]) == LineTotal(PartsBlanked(orig)[r][c + 1..])
    ensures RowParts(orig, r, c) == RowParts(orig, r, c + 1)
  {
    var l := orig[r];
    var f := PartsBlanked(orig)[r];
    assert f == BlankLine(l, r, TouchedRuns(orig, |orig|, 0));
    assert l[c..][1..] == l[c + 1..];
    assert f[c] == l[c] && f[c..][1..] == f[c + 1..];
  }

  /** Past a maximal run: it is blanked in the final grid exactly when it is counted. */
  lemma RowSplitRun(orig: seq<string>, r: nat, c: nat)
    requires r < |orig| && c < |orig[r]| && IsDigit(orig[r][c]) && RunBoundary(orig[r], c)
    ensures var e := RunEnd(orig[r], c);
      var v := DecimalValue(orig[r][c..e]);
      var touched := RunTouched(orig, r, c, e, |orig|, 0);
      RunBoundary(orig[r], e) &&
      LineTotal(orig[r][c..]) == v + LineTotal(orig[r][e..]) &&
      LineTotal(PartsBlanked(orig)[r][c..]) == (if touched then 0 else v) + LineTotal(PartsBlanked(orig)[r][e..]) &&
      RowParts(orig, r, c) == (if touched then v else 0) + RowParts(orig, r, e)
  {
    var l := orig[r];
    var f := PartsBlanked(orig)[r];
    assert f == BlankLine(l, r, TouchedRuns(orig, |orig|, 0));
    var e := RunEnd(l, c);
    RunIsMaximal(l, c);
    RunOfStart(l, c, e);
    InTouched(orig, r, c, |orig|, 0);
    RunStep(l, f, c, e, RunTouched(orig, r, c, e, |orig|, 0));
  }

  /**
   * The numbers of `l` from the maximal run [c, e) on, and those of `f`,
   * which holds the same characters except that the run is blanked when
   * `touched`.
   */
  lemma RunStep(l: string, f: string, c: nat, e: nat, touched: bool)
    requires MaximalRun(l, c, e) && |f| == |l|
    requires forall k :: c <= k < e ==> f[k] == if touched then '.' else l[k]
    requires e < |l| ==> f[e] == l[e]
    ensures AllDigits(l[c..e])
    ensures LineTotal(l[c..]) == DecimalValue(l[c..e]) + LineTotal(l[e..])
    ensures LineTotal(f[c..]) == (if touched then 0 else DecimalValue(l[c..e])) + LineTotal(f[e..])
  {
    RunPieces(l, f, c, e, touched);
    LineTotalRun(l[c..e], l[e..]);
    if touched {
      LineTotalDots(e - c, f[e..]);
    } else {
      LineTotalRun(l[c..e], f[e..]);
    }
  }

  /** `l` and `f` split at the maximal run [c, e) of `l`. */
  lemma RunPieces(l: string, f: string, c: nat, e: nat, touched: bool)
    requires MaximalRun(l, c, e) && |f| == |l|
    requires forall k :: c <= k < e ==> f[k] == if touched then '.' else l[k]
    requires e < |l| ==> f[e] == l[e]
    ensures AllDigits(l[c..e]) && l[c..e] != []
    ensures l[c..] == l[c..e] + l[e..] && (l[e..] == [] || !IsDigit(l[e..][0]))
    ensures f[c..] == (if touched then Dots(e - c) else l[c..e]) + f[e..] && (f[e..] == [] || !IsDigit(f[e..][0]))
  {
    assert l[c..] == l[c..e] + l[e..];
    assert f[c..] == f[c..e] + f[e..];
    assert f[c..e] == if touched then Dots(e - c) else l[c..e];
    assert f[e..] == [] || f[e..][0] == l[e];
  }

  lemma {:induction false} GridSplit(orig: seq<string>, k: nat)
    requires k <= |orig|
    ensures GridTotal(orig[..k]) == PartsUpTo(orig, k) + GridTotal(PartsBlanked(orig)[..k])
  {
    var f := PartsBlanked(orig);
    if k > 0 {
      GridSplit(orig, k - 1);
      assert orig[..k][..k - 1] == orig[..k - 1];
      assert f[..k][..k - 1] == f[..k - 1];
      RowSplit(orig, k - 1, 0);
      assert orig[k - 1][0..] == orig[k - 1];
      assert f[k - 1][0..] == f[k - 1];
    }
  }

  /** The numbers of the grid are the part numbers plus the numbers `process_lines` leaves in place. */
  lemma PartsAndRest(orig: seq<string>)
    ensures GridTotal(orig) == PartSum(orig) + GridTotal(PartsBlanked(orig))
  {
    GridSplit(orig, |orig|);
    assert orig[..|orig|] == orig;
    assert PartsBlanked(orig)[..|orig|] == PartsBlanked(orig);
  }

  /** A number next to a symbol counts; one whose only symbol is two rows away does not. */
  lemma SymbolTwoRowsAway()
    ensures PartSum(["1*", "..", "5."]) == 1
  {
    var g := ["1*", "..", "5."];
    assert RunEnd(g[0], 0) == 1 && RunEnd(g[2], 0) == 1;
    assert RunTouched(g, 0, 0, 1, 3, 0) by {
      assert Before(0, 1, 3, 0) && Adjacent(0, 1, 0, 0) && SymbolAt(g, 0, 1);
    }
    assert !RunTouched(g, 2, 0, 1, 3, 0) by {
      forall k, si, sj | 0 <= k < 1 && Adjacent(si, sj, 2, k) ensures !SymbolAt(g, si, sj) {
        if si == 2 {
          assert sj != 0;
        }
      }
    }
    assert g[0][0..1] == "1" && DecimalValue("1") == 1;
    assert RowParts(g, 0, 0) == 1;
    assert RowParts(g, 1, 0) == 0;
    assert RowParts(g, 2, 0) == 0;
  }

  // ---------------------------------------------------------------------
  // process_lines
  // ---------------------------------------------------------------------

  /** Every line of the grid has `n` characters. */
  ghost predicate Width(grid: seq<string>, n: nat) {
    forall r :: 0 <= r < |grid| ==> |grid[r]| == n
  }

  /** All lines have the same length as the first. */
  ghost predicate Rectangular(grid: seq<string>) {
    grid == [] || Width(grid, |grid[0]|)
  }

  /** `(r, c)` is one of the eight cells around `(i, j)`. */
  predicate Adjacent(i: int, j: int, r: int, c: int) {
    (r, c) != (i, j) && i - 1 <= r <= i + 1 && j - 1 <= c <= j + 1
  }

  /** No cell of the grid around `(i, j)` holds a digit. */
  ghost predicate NeighboursClear(grid: seq<string>, i: int, j: int) {
    forall r, c :: 0 <= r < |grid| && 0 <= c < |grid[r]| && Adjacent(i, j, r, c) ==> !IsDigit(grid[r][c])
  }

  lemma WidthDescends(g: seq<string>, g': seq<string>, n: nat)
    requires Width(g, n) && Descends(g, g')
    ensures Width(g', n)
  {
  }

  /** A cell without a digit keeps having none. */
  lemma StaysClear(g: seq<string>, g': seq<string>, r: nat, c: nat)
    requires Descends(g, g') && r < |g| && c < |g[r]| && !IsDigit(g[r][c])
    ensures r < |g'| && c < |g'[r]| && !IsDigit(g'[r][c])
  {
  }

  /** The grid after a probe at (row, c) that is made only when `cond` holds and the cell exists. */
  function MaybeExtract(g: seq<string>, cond: bool, row: int, c: nat): seq<string> {
    if cond && 0 <= row < |g| && c < |g[row]| then Extract(g, row, c).1 else g
  }

  /** The grid after the probes of column `c` around row `i`: the centre when `centre`, then above, then below. */
  function ColumnAfter(g: seq<string>, i: nat, c: nat, centre: bool): seq<string> {
    var g1 := MaybeExtract(g, centre, i, c);
    var g2 := MaybeExtract(g1, i > 0, i - 1, c);
    MaybeExtract(g2, i + 1 < |g2|, i + 1, c)
  }

  /** The grid after the eight probes around (i, j) in lines of length `n`: the column left, the column right, then the column itself. */
  function AroundAfter(g: seq<string>, i: nat, j: nat, n: nat): seq<string> {
    ColumnAfter(SideAfter(SideAfter(g, i, j > 0, j - 1), i, j + 1 < n, j + 1), i, j, false)
  }

  /** The grid after the probes of column `c`, beside the symbol, made only when `cond` holds. */
  function SideAfter(g: seq<string>, i: nat, cond: bool, c: int): seq<string> {
    if cond && c >= 0 then ColumnAfter(g, i, c, true) else g
  }

  lemma MaybeTracks(orig: seq<string>, g: seq<string>, runs: set<(int, int)>, i: int, j: int, cond: bool, row: int, c: nat)
    returns (runs': set<(int, int)>)
    requires Tracking(orig, g, runs, i, j) && SymbolAt(orig, i, j)
    requires cond && 0 <= row < |orig| && c < |orig[row]| ==> Adjacent(i, j, row, c)
    ensures Tracking(orig, MaybeExtract(g, cond, row, c), runs', i, j)
  {
    if cond && 0 <= row < |g| && c < |g[row]| {
      ProbeTracks(orig, g, runs, i, j, row, c);
      runs' := Grow(orig, runs, row, c);
    } else {
      runs' := runs;
    }
  }

  lemma ColumnTracks(orig: seq<string>, g: seq<string>, runs: set<(int, int)>, i: nat, j: int, c: nat, centre: bool)
    returns (runs': set<(int, int)>)
    requires Tracking(orig, g, runs, i, j) && SymbolAt(orig, i, j)
    requires j - 1 <= c <= j + 1 && (centre ==> c != j)
    ensures Tracking(orig, ColumnAfter(g, i, c, centre), runs', i, j)
  {
    runs' := MaybeTracks(orig, g, runs, i, j, centre, i, c);
    var g1 := MaybeExtract(g, centre, i, c);
    runs' := MaybeTracks(orig, g1, runs', i, j, i > 0, i - 1, c);
    var g2 := MaybeExtract(g1, i > 0, i - 1, c);
    runs' := MaybeTracks(orig, g2, runs', i, j, i + 1 < |g2|, i + 1, c);
  }

  /**
   * The probes around a symbol reached by the scan blank exactly the runs
   * next to it that were not blanked yet, once none of its neighbours holds
   * a digit.
   */
  lemma AroundTracks(orig: seq<string>, i: nat, j: nat, n: nat)
    requires SymbolAt(orig, i, j)
    requires NeighboursClear(AroundAfter(ScannedTo(orig, i, j), i, j, n), i, j)
    ensures AroundAfter(ScannedTo(orig, i, j), i, j, n) == ScannedTo(orig, i, j + 1)
  {
    var runs := AroundRuns(orig, i, j, n);
    VisitComplete(orig, AroundAfter(ScannedTo(orig, i, j), i, j, n), runs, i, j);
  }

  /** The runs the eight probes around (i, j) have blanked. */
  lemma AroundRuns(orig: seq<string>, i: nat, j: nat, n: nat) returns (runs: set<(int, int)>)
    requires SymbolAt(orig, i, j)
    ensures Tracking(orig, AroundAfter(ScannedTo(orig, i, j), i, j, n), runs, i, j)
  {
    var g := ScannedTo(orig, i, j);
    TrackingStarts(orig, i, j);
    runs := SideTracks(orig, g, TouchedRuns(orig, i, j), i, j, j > 0, j - 1);
    var g1 := SideAfter(g, i, j > 0, j - 1);
    runs := SideTracks(orig, g1, runs, i, j, j + 1 < n, j + 1);
    var g2 := SideAfter(g1, i, j + 1 < n, j + 1);
    runs := ColumnTracks(orig, g2, runs, i, j, j, false);
  }

  /** The probes of the column left (or right) of the symbol, when it exists. */
  lemma SideTracks(orig: seq<string>, g: seq<string>, runs: set<(int, int)>, i: nat, j: int, cond: bool, c: int)
    returns (runs': set<(int, int)>)
    requires Tracking(orig, g, runs, i, j) && SymbolAt(orig, i, j)
    requires cond ==> c == j - 1 || c == j + 1
    ensures Tracking(orig, SideAfter(g, i, cond, c), runs', i, j)
  {
    if cond && c >= 0 {
      runs' := ColumnTracks(orig, g, runs, i, j, c, true);
    } else {
      runs' := runs;
    }
  }

  /** One statement `res += extract_number(lines[row], pos)`, with the facts `process_lines` keeps about it. */
  method Probe(lines: array<string>, row: nat, pos: nat, ghost orig: seq<string>, res: nat) returns (res': nat)
    requires row < lines.Length && pos < |lines[row]|
    requires res + GridTotal(lines[..]) == GridTotal(orig)
    modifies lines
    ensures lines[..] == Extract(old(lines[..]), row, pos).1
    ensures Descends(old(lines[..]), lines[..])
    ensures res' + GridTotal(lines[..]) == GridTotal(orig)
    ensures !IsDigit(lines[row][pos])
  {
    ghost var before := lines[..];
    var v := ExtractNumber(lines, row, pos);
    ExtractDescends(before, row, pos);
    ExtractConserves(before, row, pos);
    res' := res + v;
  }

  /** No cell of column `c` in rows `i - 1` to `i + 1` holds a digit (row `i` itself only when `centre`). */
  ghost predicate ColumnClear(g: seq<string>, i: int, c: int, centre: bool) {
    forall r :: 0 <= r < |g| && i - 1 <= r <= i + 1 && (centre || r != i) && 0 <= c < |g[r]| ==> !IsDigit(g[r][c])
  }

  lemma ColumnClearDescends(g: seq<string>, g': seq<string>, i: int, c: int, centre: bool)
    requires ColumnClear(g, i, c, centre) && Descends(g, g')
    ensures ColumnClear(g', i, c, centre)
  {
  }

  /**
   * The probes of `process_lines` in one column around the symbol at row `i`:
   * the symbol's own row first when `centre`, then the row above and the row
   * below when they exist.
   */
  method ProbeColumn(lines: array<string>, i: nat, c: nat, centre: bool, ghost n: nat, ghost orig: seq<string>, res: nat)
    returns (res': nat)
    requires i < lines.Length && c < n && Width(lines[..], n)
    requires res + GridTotal(lines[..]) == GridTotal(orig)
    modifies lines
    ensures lines[..] == ColumnAfter(old(lines[..]), i, c, centre)
    ensures Descends(old(lines[..]), lines[..]) && Width(lines[..], n)
    ensures res' + GridTotal(lines[..]) == GridTotal(orig)
    ensures ColumnClear(lines[..], i, c, centre)
  {
    ghost var g0 := lines[..];
    DescendsReflexive(g0);
    res' := MaybeProbe(lines, centre, i, c, n, orig, g0, res);
    ghost var g1 := lines[..];
    res' := MaybeProbe(lines, i > 0, i - 1, c, n, orig, g0, res');
    ghost var g2 := lines[..];
    res' := MaybeProbe(lines, i + 1 < lines.Length, i + 1, c, n, orig, g0, res');
    ghost var g3 := lines[..];
    ProbesClearColumn(g1, g2, g3, i, c, centre, n);
  }

  /** The cells the three probes blanked stay blank, so the whole column is clear. */
  lemma ProbesClearColumn(g1: seq<string>, g2: seq<string>, g3: seq<string>, i: nat, c: nat, centre: bool, n: nat)
    requires Descends(g1, g2) && Descends(g2, g3) && i < |g1| && c < n
    requires Width(g1, n) && Width(g2, n) && Width(g3, n)
    requires centre ==> !IsDigit(g1[i][c])
    requires i > 0 ==> !IsDigit(g2[i - 1][c])
    requires i + 1 < |g3| ==> !IsDigit(g3[i + 1][c])
    ensures ColumnClear(g3, i, c, centre)
  {
    if centre {
      StaysClear(g1, g2, i, c);
      StaysClear(g2, g3, i, c);
    }
    if i > 0 {
      StaysClear(g2, g3, i - 1, c);
    }
    ColumnFromCells(g3, i, c, centre, n);
  }

  /** One probe of `ProbeColumn`, made only when `cond` holds (row `row` exists, or the centre is wanted). */
  method MaybeProbe(lines: array<string>, cond: bool, row: int, c: nat, ghost n: nat, ghost orig: seq<string>, ghost start: seq<string>, res: nat)
    returns (res': nat)
    requires cond ==> 0 <= row < lines.Length
    requires c < n && Width(lines[..], n)
    requires Descends(start, lines[..]) && res + GridTotal(lines[..]) == GridTotal(orig)
    modifies lines
    ensures lines[..] == MaybeExtract(old(lines[..]), cond, row, c)
    ensures Descends(old(lines[..]), lines[..]) && Descends(start, lines[..])
    ensures Width(lines[..], n)
    ensures res' + GridTotal(lines[..]) == GridTotal(orig)
    ensures cond ==> !IsDigit(lines[..][row][c])
  {
    ghost var g0 := lines[..];
    if cond {
      res' := Probe(lines, row, c, orig, res);
    } else {
      res' := res;
      DescendsReflexive(g0);
    }
    WidthDescends(g0, lines[..], n);
    DescendsTransitive(start, g0, lines[..]);
  }

  lemma DescendsReflexive(g: seq<string>)
    ensures Descends(g, g)
  {
  }

  lemma ColumnFromCells(g: seq<string>, i: nat, c: nat, centre: bool, n: nat)
    requires i < |g| && c < n && Width(g, n)
    requires centre ==> !IsDigit(g[i][c])
    requires i > 0 ==> !IsDigit(g[i - 1][c])
    requires i < |g| - 1 ==> !IsDigit(g[i + 1][c])
    ensures ColumnClear(g, i, c, centre)
  {
  }

  /**
   * The body of the inner loop of `process_lines` for a symbol at `(i, j)` in
   * a grid of lines of length `n`: the eight probes, in the source's order.
   */
  method VisitSymbol(lines: array<string>, i: nat, j: nat, n: nat, ghost orig: seq<string>, res: nat) returns (res': nat)
    requires i < lines.Length && j < n && Width(lines[..], n)
    requires res + GridTotal(lines[..]) == GridTotal(orig)
    modifies lines
    ensures lines[..] == AroundAfter(old(lines[..]), i, j, n)
    ensures res' + GridTotal(lines[..]) == GridTotal(orig)
    ensures NeighboursClear(lines[..], i, j)
  {
    res' := ProbeSide(lines, i, j > 0, j - 1, n, orig, res);
    ghost var g1 := lines[..];
    res' := ProbeSide(lines, i, j + 1 < n, j + 1, n, orig, res');
    ghost var g2 := lines[..];
    res' := ProbeColumn(lines, i, j, false, n, orig, res');
    AroundClear(g1, g2, lines[..], i, j, n);
  }

  /** The probes of the column left (or right) of the symbol, made when that column exists. */
  method ProbeSide(lines: array<string>, i: nat, cond: bool, c: int, ghost n: nat, ghost orig: seq<string>, res: nat)
    returns (res': nat)
    requires i < lines.Length && Width(lines[..], n) && (cond ==> 0 <= c < n)
    requires res + GridTotal(lines[..]) == GridTotal(orig)
    modifies lines
    ensures lines[..] == SideAfter(old(lines[..]), i, cond, c)
    ensures Descends(old(lines[..]), lines[..]) && Width(lines[..], n)
    ensures res' + GridTotal(lines[..]) == GridTotal(orig)
    ensures cond ==> ColumnClear(lines[..], i, c, true)
  {
    if cond {
      res' := ProbeColumn(lines, i, c, true, n, orig, res);
    } else {
      res' := res;
      DescendsReflexive(lines[..]);
    }
  }

  /** The columns cleared by the three rounds of probes stay clear, so no neighbour of (i, j) holds a digit. */
  lemma AroundClear(g1: seq<string>, g2: seq<string>, g3: seq<string>, i: nat, j: nat, n: nat)
    requires Descends(g1, g2) && Descends(g2, g3) && i < |g3| && j < n && Width(g3, n)
    requires j > 0 ==> ColumnClear(g1, i, j - 1, true)
    requires j + 1 < n ==> ColumnClear(g2, i, j + 1, true)
    requires ColumnClear(g3, i, j, false)
    ensures NeighboursClear(g3, i, j)
  {
    if j > 0 {
      ColumnClearDescends(g1, g2, i, j - 1, true);
      ColumnClearDescends(g2, g3, i, j - 1, true);
    }
    if j + 1 < n {
      ColumnClearDescends(g2, g3, i, j + 1, true);
    }
    NeighboursFromColumns(g3, i, j, n);
  }

  lemma NeighboursFromColumns(g: seq<string>, i: nat, j: nat, n: nat)
    requires i < |g| && j < n && Width(g, n)
    requires j > 0 ==> ColumnClear(g, i, j - 1, true)
    requires j + 1 < n ==> ColumnClear(g, i, j + 1, true)
    requires ColumnClear(g, i, j, false)
    ensures NeighboursClear(g, i, j)
  {
  }

  /**
   * `process_lines`: every symbol probes the cells around it that lie inside
   * the grid.  Afterwards exactly the numbers next to a symbol have been
   * blanked out, the result is their sum, each counted once, and no symbol
   * has a digit next to it any more.
   */
  method ProcessLines(lines: array<string>) returns (res: nat)
    requires Rectangular(lines[..])
    modifies lines
    ensures lines[..] == PartsBlanked(old(lines[..]))
    ensures res == PartSum(old(lines[..]))
    ensures Descends(old(lines[..]), lines[..])
    ensures res + GridTotal(lines[..]) == GridTotal(old(lines[..]))
    ensures forall r, c :: 0 <= r < lines.Length && 0 <= c < |lines[r]| && IsSymbol(lines[r][c]) ==> NeighboursClear(lines[..], r, c)
  {
    ghost var orig := lines[..];
    ScannedFromStart(orig);
    DescendsReflexive(orig);
    res := 0;
    var i := 0;
    while i < lines.Length
      invariant 0 <= i <= lines.Length
      invariant lines[..] == ScannedTo(orig, i, 0)
      invariant res + Remaining(orig, i, 0) == GridTotal(orig)
      decreases lines.Length - i
    {
      res := ScanRow(lines, i, orig, res);
      i := i + 1;
    }
    PartsBlankedFacts(orig);
  }

  /** The total of the numbers still in the grid once the scan has reached (i, j). */
  ghost function Remaining(orig: seq<string>, i: int, j: int): nat {
    GridTotal(ScannedTo(orig, i, j))
  }

  /** What `process_lines` promises about the grid it leaves. */
  lemma PartsBlankedFacts(orig: seq<string>)
    ensures GridTotal(orig) == PartSum(orig) + GridTotal(PartsBlanked(orig))
    ensures Descends(orig, PartsBlanked(orig))
    ensures forall r, c :: 0 <= r < |orig| && 0 <= c < |orig[r]| && IsSymbol(PartsBlanked(orig)[r][c]) ==> NeighboursClear(PartsBlanked(orig), r, c)
  {
    PartsAndRest(orig);
    BlankRunsDescends(orig, TouchedRuns(orig, |orig|, 0));
    forall r, c | 0 <= r < |orig| && 0 <= c < |orig[r]| && IsSymbol(PartsBlanked(orig)[r][c]) ensures NeighboursClear(PartsBlanked(orig), r, c) {
      PartsBlankedClear(orig, r, c);
    }
  }

  /**
   * The inner loop of `process_lines`: every symbol of row `i`, left to
   * right, probes its neighbours; afterwards the numbers next to a symbol
   * of rows up to `i` have been blanked out, and no other.
   */
  method ScanRow(lines: array<string>, i: nat, ghost orig: seq<string>, res: nat) returns (res': nat)
    requires i < lines.Length && Rectangular(orig)
    requires lines[..] == ScannedTo(orig, i, 0)
    requires res + Remaining(orig, i, 0) == GridTotal(orig)
    modifies lines
    ensures res' + Remaining(orig, i + 1, 0) == GridTotal(orig)
    ensures lines[..] == ScannedTo(orig, i + 1, 0)
  {
    res' := res;
    var j := 0;
    var n := |lines[i]|;
    while j < n
      invariant n == |orig[i]| && 0 <= j <= n
      invariant lines[..] == ScannedTo(orig, i, j)
      invariant res' + Remaining(orig, i, j) == GridTotal(orig)
    {
      res' := ScanCell(lines, i, j, orig, res');
      j := j + 1;
    }
    ScannedRowEnd(orig, i);
  }

  /** One step of the inner loop of `process_lines`: the cell (i, j) probes its neighbours if it holds a symbol. */
  method ScanCell(lines: array<string>, i: nat, j: nat, ghost orig: seq<string>, res: nat) returns (res': nat)
    requires i < lines.Length && j < |lines[i]| && Rectangular(orig)
    requires lines[..] == ScannedTo(orig, i, j)
    requires res + Remaining(orig, i, j) == GridTotal(orig)
    modifies lines
    ensures lines[..] == ScannedTo(orig, i, j + 1)
    ensures res' + Remaining(orig, i, j + 1) == GridTotal(orig)
  {
    assert lines[i][j] == orig[i][j] || (lines[i][j] == '.' && IsDigit(orig[i][j]));
    if lines[i][j] == '.' || IsDigit(lines[i][j]) {
      ScannedPastNonSymbol(orig, i, j);
      res' := res;
      return;
    }
    BlankRunsDescends(orig, TouchedRuns(orig, i, j));
    WidthDescends(orig, lines[..], |orig[0]|);
    res' := VisitSymbol(lines, i, j, |lines[i]|, orig, res);
    AroundTracks(orig, i, j, |orig[i]|);
  }
}
