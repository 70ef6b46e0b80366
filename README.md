# Advent of Code 2023 solvers, modelled in Dafny

This project models the computational core of a set of C++ solvers for the
2023 Advent of Code puzzles. It covers the string splitter and vector printer
shared by the solvers, and the puzzles of days 1 to 5 and 7 to 10:

- calibration digits (day 1);
- cube games (day 2);
- part numbers around symbols (day 3);
- scratchcard scores (day 4);
- seed-to-location range maps (day 5);
- camel-card ranking (day 7);
- the lazily linked desert network (day 8);
- difference-table extrapolation (day 9);
- the pipe-loop walk (day 10).

Each solver reads its input as a sequence of lines. The model takes those
lines as a `seq<string>` and computes what the solver would print.

The model keeps the form of the C++ code:

- Objects whose fields change are classes:
  - the split iterator and its `_begin`/`_end` cursors;
  - `range_map` with its entry vector;
  - `lazy_node` with its cached successors;
  - day 10's `coordinate`.
- Loops are methods with invariants. Each method is proved against a
  specification function, and the properties the code promises are lemmas
  about that function.
- Case analyses and searches are functions.

Fixed-width arithmetic is written out where the code relies on it:

- `uint32_t` sums, products, shifts and counters wrap modulo 2^32;
- `std::string::operator[]` at `size()` reads `'\0'`.

Where the C++ throws or has undefined behaviour on malformed input, the model
does one of two things:

- returns an error value (`Result`, `Option`, or a dedicated outcome datatype);
- or, when the caller's input cannot reach that case, requires its absence.

Files:

- `common.dfy`: `Option`, `Result`, `uint32_t` helpers, decimal digits.
- `split.dfy`: `include/utils/split.hh`.
- `print.dfy`: `include/utils/print.hh`.
- `day01.dfy` … `day10.dfy`: one module per solver (no day 6).

## Model

| member | source | states |
|---|---|---|
| Common.AddU32 | src/day-04.cc:26-32 | `uint32_t` addition is exact below 2^32 and wraps by exactly 2^32 above |
| Common.IsDigitIsDecimal | src/day-03.cc:6-8 | `IsDigit`, the model of `is_number`, holds exactly for the ten characters '0' to '9' |
| Splitting.Find | include/utils/split.hh:60 | `view.find(sep, pos)` is the first occurrence at or after `pos`, `None` (npos) when there is none |
| Splitting.NextPos | include/utils/split.hh:56-62 | the token end lies between `pos` and the view's end, is an occurrence of the separator unless it is the end, and no occurrence lies before it |
| Splitting.Skip | include/utils/split.hh:19-22 | the new begin is one separator past the old end, clamped to the view's size |
| Splitting.SplitOnce | src/day-02.cc:69-70 | splits at the first occurrence: the parts rejoin with the separator and the first part has no occurrence; no occurrence gives `(s, "")` |
| Splitting.SplitIterator.Begin | include/utils/split.hh:15 | `make_begin` starts at 0 with the cursor invariant `begin <= end <= size` |
| Splitting.SplitIterator.End | include/utils/split.hh:47 | `make_end` has both cursors at the view's size |
| Splitting.SplitIterator.Increment | include/utils/split.hh:18-25 | `operator++` keeps the cursor invariant and moves `begin` past the separator; it advances whenever the separator is non-empty and the iterator is not at the end, and it stays put with an empty separator |
| Splitting.SplitIterator.Current | include/utils/split.hh:36 | `operator*` is `view[begin..end)` and holds no occurrence of the separator |
| Splitting.SplitIterator.Equals | include/utils/split.hh:28-33 | `operator==`: equal iterators have the same view and separator, and two valid iterators over the same view and separator are equal exactly when their `begin` cursors agree |
| Splitting.BeginIsEnd | include/utils/split.hh:28-33 | the `begin()` and `end()` iterators of one range are equal exactly when the view is empty, so the range-for then runs no step |
| Splitting.Split.Begin | include/utils/split.hh:66 | `begin()` is a fresh iterator at position 0 over the range's view and separator |
| Splitting.Split.End | include/utils/split.hh:67 | `end()` is a fresh iterator with both cursors at the view's size |
| Splitting.Collect | include/utils/split.hh:18-67 | a range-for over `split(view, sep)` visits exactly the tokens `Tokens(view, sep)` |
| Splitting.TokensEmptyIff | include/utils/split.hh:47-58 | the view yields no tokens if and only if it is empty |
| Splitting.TokensHaveNoSeparator | include/utils/split.hh:36-61 | no token contains an occurrence of the separator |
| Splitting.TokensAreSlices | include/utils/split.hh:36 | every token is a slice of the view |
| Splitting.SeparatorAtStartGivesEmptyToken | include/utils/split.hh:18-23 | a separator right at a token's start (two adjacent separators) produces an empty token |
| Splitting.LeadingSeparator | include/utils/split.hh:48 | a view that starts with the separator has an empty first token |
| Splitting.Reconstruction | include/utils/split.hh:18-61 | when the view does not end with the separator, joining the tokens with it gives the view back |
| Splitting.TrailingSeparator | include/utils/split.hh:19-22 | when the join differs from the view, the view ends with one separator more, because no final empty token is produced |
| Splitting.EmptySeparatorStalls | include/utils/split.hh:18-23 | with an empty separator, `operator++` inside the view does not move, so the loop never ends |
| Splitting.TokensOfJoin | include/utils/split.hh:18-61 | splitting a join of separator-free tokens whose last token is non-empty gives the tokens back |
| Print.Format | include/utils/print.hh:8-22 | the printing loop writes '[', the elements separated by ", ", then ']' |
| Print.EmptyVector | include/utils/print.hh:10-20 | an empty vector prints as "[]" |
| Print.RenderedLength | include/utils/print.hh:10-20 | n >= 1 elements print as 2 + the sum of their lengths + 2(n - 1) characters |
| Print.SeparatorCount | include/utils/print.hh:13-17 | for comma-free elements, the last one non-empty, the output holds exactly n - 1 ", " separators, and splitting at ", " recovers the elements |
| Calibration.FindFirstDigit | src/day-01.cc:8 | the forward `find_if` stops at the leftmost digit |
| Calibration.FindLastDigit | src/day-01.cc:9 | the reverse `find_if` stops at the rightmost digit |
| Calibration.CalibrationValue | src/day-01.cc:6-12 | the value is at most 99, its tens digit is the leftmost digit and its units digit the rightmost one |
| Calibration.SingleDigit | src/day-01.cc:8-10 | a word with a single digit d is worth 11·d |
| Calibration.Total | src/day-01.cc:16-24 | the total is the sum of the calibration values, at most 99 per word |
| CubeGames.Power | src/day-02.cc:14-16 | the power is red·green·blue modulo 2^32, and exact when the product fits |
| CubeGames.IsPossible | src/day-02.cc:20-25 | true if and only if every grab stays within each bound |
| CubeGames.Part1 | src/day-02.cc:27-32 | the game's number when every grab fits 12 red, 13 green and 14 blue, otherwise 0 |
| CubeGames.MaximumIsLeastUpperBound | src/day-02.cc:36-47 | each component of the maximum bounds that component of every grab and is attained by some grab, and it is 0 without grabs |
| CubeGames.Part2 | src/day-02.cc:35-50 | the loop computes the power of the componentwise maximum |
| CubeGames.SumScores | src/day-02.cc:91-94 | the answer is the sum of the selected part's scores |
| CubeGames.TallyAddsUp | src/day-02.cc:75-85 | repeated mentions of a colour add up modulo 2^32, and any colour other than red and green counts as blue |
| CubeGames.ParseGrab | src/day-02.cc:73-86 | one grab's mentions are added into a fresh `cubes` |
| CubeGames.ParseGrabs | src/day-02.cc:73-86 | one `cubes` record per "; "-separated grab, in order |
| CubeGames.ParseGame | src/day-02.cc:69-88 | the number after "Game " and the grabs after ": " |
| PartNumbers.RunStart | src/day-03.cc:16-19 | the first loop stops at the start of the digit run through `pos` |
| PartNumbers.RunEnd | src/day-03.cc:21-24 | the second loop stops just after the end of that run |
| PartNumbers.Cleared | src/day-03.cc:27-29 | the cleared line has the same length, '.' inside the run and the old characters elsewhere |
| PartNumbers.BlankOut | src/day-03.cc:27-29 | the clearing loop overwrites exactly the run of that one line in place |
| PartNumbers.ExtractNumber | src/day-03.cc:11-32 | the value and the new grid of `extract_number` are `Extract`'s |
| PartNumbers.ExtractReadsMaximalRun | src/day-03.cc:16-31 | on a digit, the value is that of the maximal digit run through `pos`, and exactly that run is blanked out |
| PartNumbers.ExtractNonDigit | src/day-03.cc:12-14 | on a non-digit, the result is 0 and the grid is unchanged |
| PartNumbers.ExtractTwice | src/day-03.cc:27 | a second extraction anywhere in the same run reads 0, so no number is counted twice |
| PartNumbers.ExtractDescends | src/day-03.cc:27-29 | an extraction only turns digits into '.', and leaves no digit at `pos` |
| PartNumbers.ClearedLineTotal | src/day-03.cc:26-31 | blanking a maximal run removes exactly its value from the line's sum of numbers |
| PartNumbers.ExtractConserves | src/day-03.cc:11-32 | the value read plus the numbers left in the grid equals the numbers before |
| PartNumbers.RunOfStart | src/day-03.cc:16-24 | the digits whose run, as `extract_number` walks it, starts at `b` are exactly those of the maximal run from `b` |
| PartNumbers.InTouched | src/day-03.cc:43-46 | a run is among those the scan has blanked by (i, j) exactly when one of its digits is next to a symbol met before (i, j) |
| PartNumbers.BlankLine | src/day-03.cc:27-29 | a row with some of its runs blanked: a digit becomes '.' exactly when its run is named, every other character stays |
| PartNumbers.BlankRuns | src/day-03.cc:27-29 | the grid with the named runs blanked, row by row, of the same height |
| PartNumbers.BlankRunsDescends | src/day-03.cc:27-29 | blanking runs only turns digits into '.' |
| PartNumbers.ScannedFromStart | src/day-03.cc:40 | before the first cell nothing is blanked |
| PartNumbers.ScannedPastNonSymbol | src/day-03.cc:43-45 | a cell holding '.' or a digit blanks no further run |
| PartNumbers.ScannedRowEnd | src/day-03.cc:40-42 | the end of row i and the start of row i + 1 blank the same runs |
| PartNumbers.ExtractOnBlanked | src/day-03.cc:11-32 | on a grid with some runs blanked, an extraction blanks exactly one run more, the one through the probed cell, or none when that cell holds no digit |
| PartNumbers.ProbeTracks | src/day-03.cc:47-69 | after each probe around a symbol, the runs blanked include all those blanked before the symbol and only runs next to symbols up to it |
| PartNumbers.VisitComplete | src/day-03.cc:47-69 | once no neighbour of the symbol holds a digit, exactly the runs next to symbols up to and including it are blanked |
| PartNumbers.AroundTracks | src/day-03.cc:47-69 | the eight probes around a symbol blank exactly the runs next to it that were not blanked yet |
| PartNumbers.PartsBlankedClear | src/day-03.cc:35-75 | in the final grid no symbol has a digit next to it |
| PartNumbers.RowSplit | src/day-03.cc:11-32 | the numbers of a row are its part numbers plus the numbers the final grid keeps in that row |
| PartNumbers.RunStep | src/day-03.cc:16-31 | a run left alone keeps its value in the row's sum; a blanked run drops out of it |
| PartNumbers.GridSplit | src/day-03.cc:35-75 | the same split over the first k rows |
| PartNumbers.PartsAndRest | src/day-03.cc:35-75 | the numbers of the grid are the part numbers plus those `process_lines` leaves in the grid |
| PartNumbers.SymbolTwoRowsAway | src/day-03.cc:35-75 | on "1*", "..", "5." the part-number sum is 1: the 5 has no symbol among its neighbours |
| PartNumbers.Probe | src/day-03.cc:48-69 | one `res += extract_number(...)`: the new grid is that of `Extract`, the running total is conserved and the probed cell holds no digit |
| PartNumbers.ProbeSide | src/day-03.cc:47-57 | the probes of the column left (or right) of the symbol, when it exists: centre, above, below, in that order, clearing that column |
| PartNumbers.VisitSymbol | src/day-03.cc:47-70 | the grid after the eight probes around a symbol, in the C++ order; none of its in-grid neighbours holds a digit, and the total is conserved |
| PartNumbers.ScanCell | src/day-03.cc:42-70 | one cell of the inner loop moves the scan from (i, j) to (i, j + 1), with the running total conserved |
| PartNumbers.ScanRow | src/day-03.cc:42-71 | after row `i` the grid blanks exactly the runs next to symbols of rows up to `i`, and the total is conserved |
| PartNumbers.PartsBlankedFacts | src/day-03.cc:35-75 | the final grid only loses digits, no symbol in it has a digit next to it, and the numbers split into the part numbers and the rest |
| PartNumbers.ProcessLines | src/day-03.cc:35-75 | the result is the sum of the part numbers, each number with a symbol among its eight neighbours counted once; the grid ends with exactly those numbers blanked out, and no symbol has a digit next to it |
| Scratchcards.Double | src/day-04.cc:19 | 0 becomes 1, and anything else doubles, wrapping modulo 2^32 |
| Scratchcards.ScoreIsPowerOfTwo | src/day-04.cc:16-22 | no match scores 0, and k matches (1 <= k <= 32) score 2^(k-1) |
| Scratchcards.ScoreWrapsAt33 | src/day-04.cc:19 | the 33rd match shifts the bit out of `uint32_t`, so the score drops to 0 |
| Scratchcards.CardValue | src/day-04.cc:15-23 | the loop over our numbers computes the score of the number of matches |
| Scratchcards.ComputeValues | src/day-04.cc:26-32 | the card scores summed modulo 2^32 |
| Scratchcards.NumberSetMembers | src/day-04.cc:51-58 | a number is in a side exactly when some non-empty token denotes it |
| Scratchcards.DuplicateNumber | src/day-04.cc:9-12 | a number written twice is stored, and counted, once |
| Scratchcards.ParseNumbers | src/day-04.cc:51-54 | the inserting loop builds the set of the non-empty tokens' numbers |
| Scratchcards.ParseCard | src/day-04.cc:48-59 | our numbers come from between ": " and the bar separator, the winning numbers from after the bar |
| Almanac.Lookup | src/day-05.cc:22-29 | `RangeMap.Get`, the model of `range_map::operator[]`, is `Lookup` over the entries: an uncovered value maps to itself, and a covered one is translated by the first covering entry |
| Almanac.EmptyMapIsIdentity | src/day-05.cc:22-29 | a map without entries is the identity |
| Almanac.LookupAppend | src/day-05.cc:31-33 | an appended entry changes nothing already covered, and translates the values that only it covers |
| Almanac.RangeMap.AddEntry | src/day-05.cc:31-33 | `add_entry` appends exactly one entry |
| Almanac.MinLocationIsMinimum | src/day-05.cc:41-50 | no seeds give 0xffffffff; otherwise the result is some seed's location and no seed's location is smaller |
| Almanac.MinLocation | src/day-05.cc:41-50 | the nested loop computes `MinLocationOf` over the maps' entries |
| Almanac.StandardLayoutFirstMapEmpty | src/day-05.cc:69-83 | with the usual layout the seeds line also opens a map, so the first map is empty, the identity |
| Almanac.ParseSeeds | src/day-05.cc:70-73 | one number per " "-separated token after ": " |
| Almanac.ParseLine | src/day-05.cc:69-90 | one line of the read loop: the objects mirror the parser state's step, and an entry line "a b c" adds source b, destination a, length c |
| Almanac.ParseInput | src/day-05.cc:55-96 | the seeds and the maps handed to `min_location` are those of `ParseAlmanac`, or it fails |
| CamelCards.CompareCardsByStrength | src/day-07.cc:15-55 | `CompareCards`, the model of `compare_cards`, orders the cards by position: 2 < … < 9 < T < J < Q < K < A in part one, and J below 2 in part two |
| CamelCards.JokerIsWeakest | src/day-07.cc:17-27 | in part two nothing is below J, and J is below every other card |
| CamelCards.CompareCardsIrreflexive | src/day-07.cc:15-55 | no card is strictly weaker than itself |
| CamelCards.FiveEqualCards | src/day-07.cc:105-121 | five equal cards are five of a kind in both parts, JJJJJ included |
| CamelCards.FiveDifferentCards | src/day-07.cc:126-128 | five different cards are a high card in part one |
| CamelCards.JokersJoinTheLargestCount | src/day-07.cc:105-133 | in part two the jokers are added to the largest other count, and J is no longer counted |
| CamelCards.ComputeType | src/day-07.cc:97-134 | the counting loop, erasing the jokers and raising the largest entry give `TypeOf` |
| CamelCards.NewHand | src/day-07.cc:72-73 | a hand holds its cards and bid, with the type computed from the cards |
| CamelCards.HandLessIsKeyLess | src/day-07.cc:77-87 | `HandLess`, the model of `operator<`, orders hands by type rank, then by the cards read in base 13, so it is a strict weak order |
| CamelCards.EquivalentHandsHaveEqualCards | src/day-07.cc:77-87 | two well-formed hands neither of which is less than the other have the same cards |
| CamelCards.InsertHand | src/day-07.cc:148 | one insertion step of the sort extends the sorted prefix and permutes the array |
| CamelCards.SortHands | src/day-07.cc:148 | the hands are sorted ascending in place, as a permutation |
| CamelCards.SumWinnings | src/day-07.cc:149-152 | the loop sums (i + 1) · bid over the positions |
| CamelCards.Winnings | src/day-07.cc:145-154 | `winnings` leaves the hands as a sorted permutation and returns the sum of rank times bid |
| CamelCards.HandOf | src/day-07.cc:185-186 | a line gives the cards before " " and the bid after it, and fails exactly when the cards are not five valid cards |
| CamelCards.HandsOfLines | src/day-07.cc:179-188 | one hand per non-empty line, the one that line denotes |
| CamelCards.ParseHands | src/day-07.cc:179-188 | the reading loop computes `HandsOf` |
| CamelCards.Process | src/day-07.cc:174-193 | fails exactly when some hand is malformed; otherwise the total is the winnings of a sorted permutation of the hands |
| Network.LazyNode.Go | src/day-08.cc:18-29 | 'L' gives the node named by the left name and anything else the right one; a missing name fails; a cached successor is returned again, and only the looked-up side is cached |
| Network.TableOf | src/day-08.cc:65-80 | the node objects seen as a table of names |
| Network.Pos | src/day-08.cc:53-56 | `pos` stays below the number of instructions |
| Network.DirectionsCycle | src/day-08.cc:53-56 | the instructions are followed cyclically: move j + n uses the instruction of move j |
| Network.PosFirstPass | src/day-08.cc:53-56 | the first pass reads the instructions in order |
| Network.KeyAfterStaysNone | src/day-08.cc:18-29 | once a lookup has failed, every later one has too |
| Network.FirstArrivalUnique | src/day-08.cc:49-59 | the first arrival at the destination is unique |
| Network.StartAtDestination | src/day-08.cc:48-49 | a walk starting on the destination takes no move |
| Network.ComputeSteps | src/day-08.cc:44-60 | the result is the number of moves until the first arrival (modulo 2^32), or a missing node; the caches stay consistent |
| Network.NodeLine | src/day-08.cc:78-80 | a node line is stored under its own name |
| Network.TableKeys | src/day-08.cc:80 | the table holds exactly the names of the node lines |
| Network.LastLineWins | src/day-08.cc:80 | each name holds the entry of the last line for it |
| Network.MakeNode | src/day-08.cc:78-80 | a fresh node with the names of its line and nothing cached |
| Network.BuildNodes | src/day-08.cc:70-81 | the node objects hold exactly the parsed table, with nothing cached |
| Network.Solve | src/day-08.cc:63-87 | the first line is the instructions, the node lines follow the blank line, and the walk goes from "AAA" to "ZZZ"; it fails exactly when the input is empty or a node line is malformed |
| Oasis.Differences | src/day-09.cc:13-19 | n - 1 differences, `d[i] = v[i + 1] - v[i]` |
| Oasis.ComputeDifferences | src/day-09.cc:13-19 | the `push_back` loop computes `Differences` |
| Oasis.Rows | src/day-09.cc:27-43 | the rows start with the first difference row and stop at the first constant one |
| Oasis.NextIsSumOfLasts | src/day-09.cc:29-34 | part one is the last value plus the last element of every row |
| Oasis.PrevIsFoldOfFirsts | src/day-09.cc:44-48 | part two is `values[0] - r`, with `r := row[0] - r` folded from the deepest row up |
| Oasis.BuildRows | src/day-09.cc:39-43 | the row-building loop produces `Rows` |
| Oasis.ExtrapolateNext | src/day-09.cc:25-35 | `extrapolate<part::one>` computes `Next` |
| Oasis.ExtrapolatePrev | src/day-09.cc:37-49 | `extrapolate<part::two>` computes `Prev` |
| Oasis.ArithmeticSequence | src/day-09.cc:26-48 | an arithmetic sequence with step d gives last + d and first - d |
| Oasis.ConstantSequence | src/day-09.cc:26-48 | a constant sequence c gives c in both parts |
| Oasis.ExtrapolateNegated | src/day-09.cc:26-48 | negating the readings negates both extrapolations |
| Oasis.PrevIsNextOfReversed | src/day-09.cc:26-48 | part two on the readings is part one on the reversed readings |
| Oasis.ExtrapolateSum | src/day-09.cc:52-59 | the sum of the per-sequence extrapolations |
| Oasis.Readings | src/day-09.cc:86-89 | one number per " "-separated token |
| Oasis.Process | src/day-09.cc:77-94 | fails exactly when a line has fewer than two readings; otherwise the sum of the extrapolations |
| Oasis.TrailingEmptyLine | src/day-09.cc:81-89 | an input ending in an empty line, as a newline-terminated file gives, has a line without readings, so `Process` fails on it |
| PipeMaze.Moved | src/day-10.cc:22-30 | top is y - 1, right x + 1, bottom y + 1, left x - 1 |
| PipeMaze.MoveBack | src/day-10.cc:22-30 | moving one way and then the opposite way returns to the same place |
| PipeMaze.Coordinate.Apply | src/day-10.cc:22-30 | `apply` and `+=` change exactly one coordinate by one unit |
| PipeMaze.Coordinate.Differs | src/day-10.cc:32-34 | `operator!=` holds exactly when the positions differ in x or in y, so a coordinate never differs from itself |
| PipeMaze.Coordinate.Plus | src/day-10.cc:37-41 | `operator+` returns a fresh moved copy and leaves its argument as it was |
| PipeMaze.NextFollowsPipe | src/day-10.cc:107-128 | `NextDisplacement`, the model of `next_displacement`, fails exactly on non-pipe tiles; entering a pipe through one opening, it leaves through the other |
| PipeMaze.FindChar | src/day-10.cc:69 | `find` gives the first position of the character, or none |
| PipeMaze.GetStart | src/day-10.cc:66-77 | the start is on an 'S' in the first row holding one, and is the first 'S' of that row; without 'S' it fails |
| PipeMaze.StepAfterStart | src/day-10.cc:79-105 | the first of left, right, top and bottom whose neighbour (a read past a row's end taken as '\0') opens back towards the start; it fails when none does |
| PipeMaze.FarthestIsHalfLoop | src/day-10.cc:131-146 | a closed loop has an even number of moves, so the answer is exactly half its length |
| PipeMaze.Walk | src/day-10.cc:134-145 | the loop's result is (moves + 1) / 2 in `uint32_t` when it closes, or an error when a tile is off the grid or not a pipe |
| PipeMaze.StepsToFarthestPoint | src/day-10.cc:131-146 | reports `NoStart` exactly when there is no 'S'; otherwise it walks from the first 'S' (`FirstStart`) in the first direction `step_after_start` gives |
| PipeMaze.TrailingEmptyRow | src/day-10.cc:79-105 | on "F7", "SJ", "" the start's neighbours are read without a rectangular layout, and the loop of four moves gives 2 |

## Left out

- Reading standard input (`include/utils/input.hh`, the `std::getline` and `std::cin >>` loops), the trace output and the final `std::cout` lines: the models take the input lines as a sequence and return the answer.
- `src/day-06.cc` is not part of this model: its answer comes from `std::sqrt`, `std::floor` and `std::ceil` on doubles.
- `std::stoul`, `std::stoull`, `std::stol`: modelled as the value of the leading digits, with an optional sign for `stol`. Leading whitespace, exceptions and out-of-range values are not modelled.
- Splitting.SplitOnce: `split_once` is defined in a header that is not part of this model. It is modelled as a split at the first occurrence, giving the whole string and an empty rest when the separator is absent.
- `is_number` of day 7 and `unreachable` come from headers that are not part of this model. `is_number` is taken to be the decimal-digit test of day 3. A `throw unreachable()` becomes an error value.
- Splitting: the `std::string_view` lifetime of the range object is not modelled, and neither is `operator++(int)`.
- Splitting.SplitIterator.Equals: the C++ compares the addresses of the view's and the separator's buffers; the model compares them as values. The two agree wherever the C++ compares iterators, because each range-for compares `begin()` and `end()` of the same `split` object (src/day-02.cc:73, src/day-02.cc:75, src/day-04.cc:51, src/day-04.cc:55, src/day-05.cc:71, src/day-09.cc:87).
- Splitting.Collect, Splitting.Tokens: require a non-empty separator. With an empty one the C++ loop never ends, as `EmptySeparatorStalls` shows.
- Calibration.CalibrationValue: requires a digit in the word. Without one, the C++ dereferences an end iterator.
- Calibration.Total, CubeGames.SumScores, CamelCards.Winnings, PartNumbers.ProcessLines: the `uint64_t` accumulators are unbounded integers. They do not wrap at 2^64.
- Oasis: `int32_t` values, differences and sums are unbounded integers. Signed overflow and the narrowing of `stol` are not modelled.
- Oasis.ExtrapolateNext, Oasis.ExtrapolatePrev: require at least two values. With one value the first difference row is empty. `extrapolate<part::one>` then calls `back()` on it (src/day-09.cc:29), which is undefined behaviour. `extrapolate<part::two>` instead skips the `while` loop and throws `std::out_of_range` at `it->at(0)` (src/day-09.cc:40-46). With no value, the wrap in `compute_differences` (src/day-09.cc:15) comes first in both parts.
- Oasis.ComputeDifferences: requires at least one value, because `values.size() - 1` wraps on an empty vector (src/day-09.cc:15) and the loop then reads past it.
- Oasis.Process: reports a line with fewer than two readings as an error. With no reading the C++ behaviour is undefined in both parts. With one reading it is undefined in part one, and part two throws `std::out_of_range`.
- Oasis.Process: a newline-terminated input ends in an empty line. `read_line` returns a final `""` (include/utils/input.hh:9-17), and `process` pushes it as an empty vector (src/day-09.cc:86-89). `Process` therefore returns an error on every such input, as `TrailingEmptyLine` shows, where the C++ behaviour is undefined. Only an input without the final newline reaches a total.
- PartNumbers: the grid is required to be rectangular, as the scanner's neighbour probes assume.
- Scratchcards: `unordered_set` iteration order is not modelled, because the score depends only on the number of matches.
- CamelCards.ComputeType: requires a counter that is non-empty after the jokers are erased, `CounterLeftNonEmpty`. Otherwise `max_element` returns the end iterator and the C++ dereferences it.
- CamelCards.ComputeType: which of several equal largest counts `max_element` picks over the `unordered_map` is left open. The type does not depend on it.
- CamelCards.HandOf: a modelling restriction. Lines whose cards are not exactly five of the thirteen cards are rejected as errors. The C++ accepts longer hands: `operator<` reads only the first five cards (src/day-07.cc:80-84), and `compute_type` classifies hands of any length (src/day-07.cc:130-132). Shorter hands make `operator<` read at or past the end of the string, and `compare_cards` orders unknown cards by their character codes, which need not give a strict weak order.
- CamelCards.SortHands: the hands are sorted by an insertion sort with the same order, not by `std::sort`. Hands with the same cards and different bids may therefore end in a different order. `Process` states the total over some sorted permutation.
- Network: `std::shared_ptr` ownership is not modelled. A node's cached successor is a plain reference.
- Network.ComputeSteps: the walk is bounded by a `fuel` number of moves. Beyond it, the model reports `OutOfFuel` where the C++ would go on looping.
- Network.Solve: reports an empty input as an error. On it `read_line()` gives an empty instruction line and the table stays empty, so `nodes.at("AAA")` throws (src/day-08.cc:48). The node table is parsed from the lines after the second one.
- Network.NodeLine: a right-hand side without its parentheses is taken apart by the same `substr(1, length - 2)`. An empty one, for which `substr` throws, is an error.
- PipeMaze.Walk: the walk is bounded by a `fuel` number of turns, and reports `OutOfFuel` beyond it.
- PipeMaze.Walk: a walk that leaves the grid is reported as `Broken`. The C++ reads `'\0'` one past a row and throws, or has undefined behaviour further out or past the last row.
- PipeMaze.Coordinate: `size_t` coordinates are modelled as integers, so `0 - 1` gives -1 instead of wrapping. Either value is off the grid.
- PipeMaze.StepAfterStart: a neighbour above or below that lies past the end of a shorter row reads as '\0'. At `size()` that is what the C++ reads; beyond it the C++ behaviour is undefined.
