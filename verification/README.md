# Advent of Code 2025, days 1 to 6, in Dafny

This project models the core of a set of Rust puzzle solvers and proves
properties of the model.

- **Day 1, the safe dial.** A dial with positions 0 to 99 starts at 50.
  It turns through a list of rotations such as `L68` or `R48`.
  - Part 1 counts the rotations that leave the dial at 0.
  - Part 2 sums the number of times each rotation passed 0.
- **Day 2, the gift shop.** Product ids come in comma-separated ranges.
  - An id is naively invalid when its decimal text is some text written twice.
  - It is invalid when its decimal text is some prefix repeated.
- **Day 3, the battery banks.** A bank is a line of digit characters.
  - Part 1 picks two batteries, in order, that read as the highest two-digit joltage.
  - Part 2 keeps twelve digits with a monotonic stack.
- **Day 4, the printing department.** A grid of `@` paper rolls is walked
  cell by cell by an iterator that yields each cell with its neighbours.
  A roll is accessible when fewer than four of its neighbours are rolls.
- **Day 5, the cafeteria.** The database has fresh ingredient-id ranges,
  reduced by merging until no two overlap, and a list of ingredient ids.
  - One count is of the listed ids that are fresh.
  - The other is the number of ids the ranges cover.
- **Day 6, the trash compactor.** A problem folds its `i32` terms with
  addition or multiplication.

The shared modules model the pieces of Rust's standard library the
solvers rely on:
- `Text`: `trim` (Unicode White_Space), `lines`, `split` and `split_once`;
- `Numbers`: `u64` and `i32` parsing and decimal rendering;
- `Wrappers`: `Result` and `Option`;
- `Sequences`: subsequences.

Rust's overflow panics, the panics of `unwrap` and indexing, the explicit
`panic!` of the day 3 digit index (`AllDigits`) and the `assert_eq!`s of
the day 3 joltage search (at least 12 batteries) and of the day 5 range
pair (exactly two ranges) become preconditions. Parse errors become `Result` values.

## Model

| member | source | states |
|---|---|---|
| Day1RotationDirection.ParseRotationDirection | src/day1/rotation_direction.rs:13-22 | parsing succeeds exactly when the text is non-empty, starts with `L` or `R` and the rest is an `i32`; `L` gives a left and `R` a right rotation by that amount |
| Day1RotationDirection.ParseRotationDirectionRoundTrip | src/day1/rotation_direction.rs:13-22 | the letter of a rotation followed by its amount in decimal parses back to that rotation |
| Day1RotationDirection.ParseRotationDirectionExample | src/day1/rotation_direction.rs:29-34 | `L32` is a left rotation by 32 |
| Day1Dial.NewDial | src/day1/dial.rs:10-15 | a new dial has the given position and a zero count |
| Day1Dial.TruncDiv | src/day1/dial.rs:23-24 | Rust's integer quotient, rounded toward zero for negative dividends |
| Day1Dial.TruncRem | src/day1/dial.rs:23-24 | Rust's remainder: quotient times divisor plus remainder is the dividend, and the remainder has the dividend's sign |
| Day1Dial.Rotate | src/day1/dial.rs:17-51 | after a rotation the position is in 0..99 and is the target position taken modulo 100 |
| Day1Dial.IsZero | src/day1/dial.rs:53-55 | a dial is at zero when its position is 0; by `Rotate`'s ensures, a rotated dial is at zero exactly when its target is a multiple of 100, and `Day1.CountZeros` counts such dials |
| Day1Dial.RotateCount | src/day1/dial.rs:17-51 | the new count, as a function of the target position (start plus or minus the amount): a positive target counts its hundreds; a target of 0 counts one; a negative multiple of 100 counts its hundreds, which are negative; any other negative target counts its hundreds rounded down (Euclidean `t / 100`), plus 2 from a non-zero start or plus 1 from zero |
| Day1Dial.RotateRightCount | src/day1/dial.rs:17-51 | a right turn by a non-negative amount from a non-negative position counts the hundreds reached, (position + amount) / 100, except a turn by 0 from 0 (which counts 1) |
| Day1Dial.RotateOneClickExamples | src/day1/dial.rs:67-85 | one click left from 0 shows 99 with no pass; one click right from 99 shows 0 with one pass |
| Day1Dial.RotatePassesZeroExamples | src/day1/dial.rs:87-97 | left 5 from 0 counts no pass; right 60 from 95 counts one |
| Day1Dial.RotateLandsOnZeroExamples | src/day1/dial.rs:99-137 | left 55 from 55 and right 48 from 52 end on 0 with one pass |
| Day1Dial.RotateLongExamples | src/day1/dial.rs:109-127 | right 1000 from 50 counts ten passes; left 68 from 50 shows 82 with one pass |
| Day1Dial.RotateCountCanBeNegative | src/day1/dial.rs:17-51 | left 150 from 50 ends on 0 with a count of -1 |
| Day1Dial.RotateRightCountsZeroClicks | src/day1/dial.rs:17-51 | a right turn by at least one click counts exactly the clicks after which the dial shows 0 |
| Day1Dial.RotateLeftCountsZeroClicks | src/day1/dial.rs:17-51 | a left turn by at least one click from 0..99 counts the clicks showing 0 exactly when it is shorter than the start position plus 100; a longer one counts fewer |
| Day1Dial.RotateLeftUndercounts | src/day1/dial.rs:17-51 | left 168 from 50 leaves a count of 0 although the dial shows 0 after two of its clicks |
| Day1Dial.RotateZeroTurnOvercounts | src/day1/dial.rs:17-51 | a turn by 0 from 0 counts one pass of 0 although no click shows 0 |
| Day1Dial.RotateCountingClicks | src/day1/dial.rs:17-51 | the corrected rotation: the same position as `Rotate`, and a count equal to the clicks after which the dial shows 0 |
| Day1.ParseInput | src/day1/mod.rs:9-15 | one rotation per line, each the parse of its line; any line that fails makes the whole input fail |
| Day1.Dials | src/day1/mod.rs:17-39 | the dials of the loop: one more than the rotations, the first being the start |
| Day1.DialsStep | src/day1/mod.rs:17-39 | each dial after the first is the previous one rotated by the matching rotation |
| Day1.DialsPrefix | src/day1/mod.rs:17-39 | the dials of the first k rotations are the first k + 1 dials |
| Day1.DialsSnoc | src/day1/mod.rs:17-39 | one more rotation appends the last dial rotated by it |
| Day1.CollectDials | src/day1/mod.rs:17-39 | the loop from a dial at 50 collects exactly `Dials` |
| Day1.CountZeros | src/day1/mod.rs:17-28 | the count is at most the number of dials, is zero exactly when no dial is at 0, and is below the number of dials when the first is not at 0 |
| Day1.FindRotationsWhereZero | src/day1/mod.rs:17-28 | part 1 is the number of dials at 0, and at most the number of rotations |
| Day1.FindRotationsWhereZeroHasPassed | src/day1/mod.rs:30-39 | part 2 is the sum of the counts of all dials |
| Day1.CountZeroClicks | src/day1/mod.rs:30-39 | part 2 with the corrected rotation: the number of clicks, over all rotations from 50, after which the dial shows 0 |
| Day1.SumCountsIsZeroClicks | src/day1/mod.rs:30-39 | when every rotation turns by at least one click and no left turn is as long as its start plus 100, part 2 is the number of clicks after which the dial shows 0 |
| Day2ProductId.IdText | src/day2/product_id.rs:8-13 | an id's text is one or more decimal digits whose value is the id |
| Day2ProductId.NaiveIsInvalid | src/day2/product_id.rs:8-13 | an id is naively invalid exactly when its text is some text written twice, which needs an even length |
| Day2ProductId.IsInvalid | src/day2/product_id.rs:15-31 | the loop over prefix lengths answers true exactly when the text is some prefix repeated at least twice |
| Day2ProductId.RepeatsPrefixIsRepetition | src/day2/product_id.rs:15-31 | repeating a prefix of at most half the length is the same as being a repetition of any text at least twice |
| Day2ProductId.NaiveIsInvalidImpliesInvalid | src/day2/product_id.rs:8-31 | every naively invalid id is invalid |
| Day2ProductId.SingleDigitIsValid | src/day2/product_id.rs:8-31 | an id below 10 is invalid under neither test |
| Day2ProductId.NaiveIsInvalidExamples | src/day2/product_id.rs:107-120 | 22 and 38593859 are naively invalid; 38593856 is not |
| Day2ProductId.IsInvalidExample | src/day2/product_id.rs:138-141 | 111 is invalid |
| Day2ProductId.ParseProductIdRange | src/day2/product_id.rs:58-71 | parsing succeeds exactly when the trimmed text holds a `-` and the texts before and after its first `-` both parse as `u64`; the range is then those two values |
| Day2ProductId.ParseProductIdRangeOf | src/day2/product_id.rs:58-71 | text trimmed to two `u64` literals around its first `-` parses to the range of those values |
| Day2ProductId.ParseProductIdRangeExtraDash | src/day2/product_id.rs:58-71 | a second `-` stays in the upper bound, so text such as `1-2-3` fails |
| Day2ProductId.ParseProductIdRangeRoundTrip | src/day2/product_id.rs:58-71 | a range's bounds written in decimal around a `-`, padded with whitespace, parse back to the range |
| Day2ProductId.ParseProductIdRangeExample | src/day2/product_id.rs:122-128 | `1188511880-1188511890` parses to that range |
| Day2ProductId.RangeIds | src/day2/product_id.rs:73-100 | the ids of a range, ascending from its first to its last; none when the first exceeds the last |
| Day2ProductId.RangeIdsCount | src/day2/product_id.rs:73-100 | each id occurs once in its range's ids when within the bounds and never otherwise |
| Day2ProductId.RangeIdsExample | src/day2/product_id.rs:130-136 | the range 12-15 yields 12, 13, 14, 15 |
| Day2ProductId.ProductIdIterator.constructor | src/day2/product_id.rs:73-83 | the iterator starts at the range's first id and ends at its last |
| Day2ProductId.ProductIdIterator.Next | src/day2/product_id.rs:90-100 | past the end it yields nothing and stays; otherwise it yields the current id and moves on; the ids still to come lose exactly what is yielded |
| Day2ProductId.CollectRange | src/day2/product_id.rs:73-100 | draining the iterator yields exactly the range's ids |
| Day2Database.ParseDatabase | src/day2/database.rs:9-18 | one range per comma-separated piece, each the parse of its piece; it fails exactly when some piece fails |
| Day2Database.Filter | src/day2/database.rs:21-33 | filtering keeps every id that passes the test as often as it occurs, and drops every other |
| Day2Database.FilterAscending | src/day2/database.rs:21-33 | filtering keeps ascending ids ascending |
| Day2Database.FilterBelow | src/day2/database.rs:21-33 | filtering ids below a bound leaves only ids below it |
| Day2Database.FindMatching | src/day2/database.rs:21-33 | for ranges that all end below `u64::MAX`, an id passing the test is found once for each range holding it; others are not found |
| Day2Database.FindMatchingOneRange | src/day2/database.rs:21-33 | within one range ending below `u64::MAX`, the ids are found in ascending order |
| Day2Database.FindNaiveInvalidProductIds | src/day2/database.rs:21-26 | for ranges that all end below `u64::MAX`, the naively invalid ids, once per range holding them |
| Day2Database.FindInvalidProductIds | src/day2/database.rs:28-33 | for ranges that all end below `u64::MAX`, the invalid ids, once per range holding them |
| Day2Database.NaiveFindingsAreFindings | src/day2/database.rs:21-33 | every naively invalid id found is found by the full test at least as often |
| Day3MonotonicStack.Pushed | src/day3/monotonic_stack.rs:10-31 | a push grows the stack by at most one |
| Day3MonotonicStack.PushedShape | src/day3/monotonic_stack.rs:10-31 | a push keeps the stack, appends the value, or replaces the top by the value |
| Day3MonotonicStack.PushedBounded | src/day3/monotonic_stack.rs:10-31 | a push never takes the stack past its capacity |
| Day3MonotonicStack.PushedCanFill | src/day3/monotonic_stack.rs:10-38 | after a push, the stack plus the values still to come can still reach any target the stack could reach before |
| Day3MonotonicStack.PushedSubsequence | src/day3/monotonic_stack.rs:10-31 | the stack stays a subsequence of the values pushed |
| Day3MonotonicStack.PushedReplaceOnlyWhenLarger | src/day3/monotonic_stack.rs:10-31 | the top is replaced only by a larger value, and only while enough values remain to fill the stack |
| Day3MonotonicStack.PushedFullSkips | src/day3/monotonic_stack.rs:10-31 | a full stack ignores a value no larger than its top |
| Day3MonotonicStack.Run | src/day3/monotonic_stack.rs:10-31 | pushing values one by one never passes the capacity |
| Day3MonotonicStack.RunSubsequence | src/day3/monotonic_stack.rs:10-31 | the stack after a run is a subsequence of the values pushed |
| Day3MonotonicStack.RunCanFill | src/day3/monotonic_stack.rs:10-38 | the stack plus the values still to come is never shorter than the capacity or the input size |
| Day3MonotonicStack.RunLength | src/day3/monotonic_stack.rs:10-42 | after every value is pushed, the stack holds exactly the capacity or all values, whichever is fewer, as a subsequence of them |
| Day3MonotonicStack.MonotonicStack.constructor | src/day3/monotonic_stack.rs:44-51 | a new stack is empty, with the given capacity and input size |
| Day3MonotonicStack.MonotonicStack.SpaceLeft | src/day3/monotonic_stack.rs:32-34 | the room left is the capacity less the stack's length |
| Day3MonotonicStack.MonotonicStack.ItemsLeft | src/day3/monotonic_stack.rs:36-38 | the values left are the input size less those pushed |
| Day3MonotonicStack.MonotonicStack.Push | src/day3/monotonic_stack.rs:10-31 | the five branches of `push` (append when empty or when every value left fits in the space left, replace the top by a larger value, skip when full, append a value no larger than the top) leave the stack as `Pushed` says and record one more value |
| Day3MonotonicStack.MonotonicStack.Values | src/day3/monotonic_stack.rs:40-42 | the values are a subsequence of those pushed, no more than the capacity, and exactly the capacity or the input size once all are pushed |
| Day3MonotonicStackExample.RunExample1 | src/day3/monotonic_stack.rs:58-69 | `234234234234278` keeps `434234234278` |
| Day3MonotonicStackExample.RunExample2 | src/day3/monotonic_stack.rs:71-82 | `987654321111111` keeps `987654321111` |
| Day3MonotonicStackExample.RunExample3 | src/day3/monotonic_stack.rs:84-95 | `811111111111119` keeps `811111111119` |
| Day3MonotonicStackExample.RunExample4 | src/day3/mod.rs:168-175 | `818181911112111` keeps `888911112111` |
| Day3Bank.DigitCharsAreDigits | src/day3/mod.rs:17-37 | the keys the index starts with are exactly the ten digit characters |
| Day3Bank.OccurrencesSpec | src/day3/mod.rs:17-37 | the positions collected for a digit are all its positions and only those, in ascending order |
| Day3Bank.OccurrencesAscending | src/day3/mod.rs:31-34 | the positions pushed for a digit are already ascending, so `sort` leaves them as they are |
| Day3Bank.OccurrencesStep | src/day3/mod.rs:25-30 | position i is pushed onto the list of its own digit and no other |
| Day3Bank.PositionsSpec | src/day3/mod.rs:17-37 | the index keeps a digit's positions from the last to the first |
| Day3Bank.GenerateIndex | src/day3/mod.rs:17-37 | the loop builds exactly the index of every digit's positions |
| Day3Bank.NewBank | src/day3/mod.rs:39-48 | a bank holds its batteries and their index |
| Day3Bank.AnyAbove | src/day3/mod.rs:50-59 | true exactly when some second position is past the given one |
| Day3Bank.JoltageExists | src/day3/mod.rs:50-59 | true exactly when some first position comes before some second position |
| Day3Bank.FindDigits | src/day3/mod.rs:61-69 | there are two digits exactly when the text has at least two characters |
| Day3Bank.FindDigitsOfTwoDigits | src/day3/mod.rs:61-69 | a joltage from 10 to 99 splits into its tens and units digits |
| Day3Bank.WhereJoltageExists | src/day3/mod.rs:71-81 | the joltage's two digits are looked up in the index and the position lists compared; `WhereJoltageExistsIff` proves this true exactly when the tens digit occurs before the units digit |
| Day3Bank.WhereJoltageExistsIff | src/day3/mod.rs:71-81 | the index lookup finds a joltage exactly when the bank holds its tens digit before its units digit |
| Day3Bank.FindHighestJoltage | src/day3/mod.rs:83-88 | a result is a two-digit joltage the bank holds |
| Day3Bank.FindHighestJoltageFrom | src/day3/mod.rs:83-88 | the descending search from 99 down to 10, stopping at the first joltage the bank holds; `FindHighestJoltageFromSpec` proves that it stops at a held joltage with none held above it, or fails when none of 10..99 is held |
| Day3Bank.FindHighestJoltageFromSpec | src/day3/mod.rs:83-88 | the search down from a joltage stops at one the bank holds, and the bank holds none between that stop and where the search began |
| Day3Bank.PairHasJoltage | src/day3/mod.rs:71-81 | two batteries in order, the first not 0, hold the two-digit joltage they spell |
| Day3Bank.SearchResultIsLargest | src/day3/mod.rs:83-88 | a stop of the downward search is the largest pair joltage, and there is none exactly when every battery but the last is 0 |
| Day3Bank.FindHighestJoltageIsLargest | src/day3/mod.rs:83-88 | a result is a pair of batteries at least as large as every other pair; it fails exactly when every battery but the last is 0 |
| Day3Bank.FindHighestJoltageIsMaximum | src/day3/mod.rs:83-88 | when no pair beats a given pair, the search finds that pair's joltage |
| Day3Bank.FindHighestJoltageExample | src/day3/mod.rs:133-139 | `811111111111119` gives 89 |
| Day3Bank.FindHighestJoltageV2 | src/day3/mod.rs:90-115 | with at least twelve batteries the result is the twelve digits the stack keeps, read as a number |
| Day4Matrix.NewMatrix | src/day4/matrix.rs:8-12 | a matrix has the given rows, their number, and the length of the first row as its columns |
| Day4Matrix.NewMatrixWellFormed | src/day4/matrix.rs:8-12 | rows no shorter than a non-empty first row give a well-formed matrix |
| Day4Matrix.CellAt | src/day4/matrix.rs:36-84 | a neighbour is present exactly when its coordinates are inside the grid |
| Day4Matrix.Neighbours | src/day4/matrix.rs:103-133 | a cell has at most eight neighbours |
| Day4Matrix.NeighbourCount | src/day4/matrix.rs:36-84 | a cell's neighbours fill the 3 by 3 block around it, cut by the grid's edges, less the cell itself |
| Day4Matrix.RowAboveCount | src/day4/matrix.rs:36-53 | the top-left, top and top-right getters find as many cells as the row above has in reach, and none on the first row |
| Day4Matrix.SameRowCount | src/day4/matrix.rs:54-65 | the left and right getters find the cells of the same row in reach, less the cell itself |
| Day4Matrix.RowBelowCount | src/day4/matrix.rs:67-84 | the bottom getters find as many cells as the row below has in reach, and none on the last row |
| Day4Matrix.NeighbourCountByPlace | src/day4/matrix.rs:36-84 | in a grid of at least 2 by 2, corners have 3 neighbours, other edge cells 5, inner cells 8 |
| Day4Matrix.CornerNeighbours | src/day4/matrix.rs:36-84 | a corner has at most three neighbours, whatever the grid's size |
| Day4Matrix.RowPositions | src/day4/matrix.rs:86-97 | the cells of a row from a column on, one per column, left to right |
| Day4Matrix.RowsPositionsBounds | src/day4/matrix.rs:86-97 | the walk through the rows from a given one on stays inside the columns and those rows |
| Day4Matrix.RowsPositionsLength | src/day4/matrix.rs:86-97 | the rows from a given one on hold one cell per column and row |
| Day4Matrix.RowStartIsProduct | src/day4/matrix.rs:86-97 | the n-th row of the walk starts after n times the columns cells |
| Day4Matrix.RowsPositionsIndex | src/day4/matrix.rs:86-97 | cell (x, y) is visited at the start of its row plus x |
| Day4Matrix.ViewsOf | src/day4/matrix.rs:103-140 | one view per listed cell |
| Day4Matrix.ViewsOfIndex | src/day4/matrix.rs:103-140 | the i-th view is the view of the i-th listed cell |
| Day4Matrix.Positions | src/day4/matrix.rs:14-23 | every cell the walk visits lies on the grid |
| Day4Matrix.ViewAtIndex | src/day4/matrix.rs:86-140 | the grid yields rows times columns views, and the view of cell (x, y) comes at y times columns plus x |
| Day4Matrix.ViewsOrder | src/day4/matrix.rs:86-140 | one view per cell, the view of (x, y) at y times columns plus x, and each view the view of some cell of the grid |
| Day4Matrix.Elements | src/day4/matrix.rs:110-133 | an `if let Some(item)` pushes one element for `Some` and none for `None` |
| Day4Matrix.AdjacentIterator.constructor | src/day4/matrix.rs:14-23 | the iterator starts at the top-left cell over the given matrix, with every cell still to visit |
| Day4Matrix.AdjacentIterator.TopLeft | src/day4/matrix.rs:36-41 | the cell up and left, present exactly when it is on the grid |
| Day4Matrix.AdjacentIterator.Top | src/day4/matrix.rs:42-47 | the cell above, present exactly when it is on the grid |
| Day4Matrix.AdjacentIterator.TopRight | src/day4/matrix.rs:48-53 | the cell up and right, present exactly when it is on the grid |
| Day4Matrix.AdjacentIterator.Left | src/day4/matrix.rs:54-59 | the cell to the left, present exactly when it is on the grid |
| Day4Matrix.AdjacentIterator.Right | src/day4/matrix.rs:60-65 | the cell to the right, present exactly when it is on the grid |
| Day4Matrix.AdjacentIterator.BottomRight | src/day4/matrix.rs:67-72 | the cell down and right, present exactly when it is on the grid |
| Day4Matrix.AdjacentIterator.Bottom | src/day4/matrix.rs:73-78 | the cell below, present exactly when it is on the grid |
| Day4Matrix.AdjacentIterator.BottomLeft | src/day4/matrix.rs:79-84 | the cell down and left, present exactly when it is on the grid |
| Day4Matrix.AdjacentIterator.Increment | src/day4/matrix.rs:86-97 | the last cell ends the iteration, the end of a row moves to the next row's start, any other cell moves right; the cells to visit lose their first |
| Day4Matrix.AdjacentIterator.Adjacent | src/day4/matrix.rs:108-133 | the eight getters, in their order, push exactly the cell's neighbours |
| Day4Matrix.AdjacentIterator.Next | src/day4/matrix.rs:103-140 | after the end it yields nothing; otherwise it yields the current cell's element with its neighbours and moves on, the cells to visit losing that one |
| Day4Matrix.VisitOne | src/day4/matrix.rs:103-140 | visiting the next cell appends its view to those yielded so far |
| Day4Matrix.CollectViews | src/day4/matrix.rs:14-140 | draining the iterator yields exactly the views in row-major order |
| Day4Matrix.IsPaper | src/day4/matrix.rs:159-161 | a view is paper when its element is `@`; `Day4PaperStorage.RowPaper` and `GridCountPaper` prove that the paper views are exactly the grid's `@` cells |
| Day4Matrix.Count | src/day4/matrix.rs:163-165 | the number of occurrences of a value, never more than the length |
| Day4Matrix.NAdjacentPaperRolls | src/day4/matrix.rs:163-165 | the neighbours that are paper rolls, never more than the neighbours |
| Day4Matrix.FirstViewsExample | src/day4/matrix.rs:172-186 | the first six views of the 3 by 4 example grid are those of its unit test |
| Day4Matrix.FirstRowViews | src/day4/matrix.rs:177-180 | the views of the example's first row |
| Day4Matrix.SecondRowViews | src/day4/matrix.rs:181-185 | the views of the first two cells of the example's second row |
| Day4Matrix.LastViewExample | src/day4/matrix.rs:188-195 | the example grid yields twelve views, the last being 12 with neighbours 7, 8 and 11 |
| Day4Matrix.ExampleView00 | src/day4/matrix.rs:177 | the top-left corner of the example has neighbours 2, 5 and 6 |
| Day4Matrix.ExampleView10 | src/day4/matrix.rs:178 | the cell holding 2 has neighbours 1, 3, 5, 6 and 7 |
| Day4Matrix.ExampleView20 | src/day4/matrix.rs:179 | the cell holding 3 has neighbours 2, 4, 6, 7 and 8 |
| Day4Matrix.ExampleView30 | src/day4/matrix.rs:180 | the top-right corner has neighbours 3, 7 and 8 |
| Day4Matrix.ExampleView01 | src/day4/matrix.rs:181 | the cell holding 5 has neighbours 1, 2, 6, 9 and 10 |
| Day4Matrix.ExampleView11 | src/day4/matrix.rs:182-185 | the inner cell holding 6 has all eight neighbours, in the getters' order |
| Day4Matrix.ExampleView32 | src/day4/matrix.rs:193-194 | the bottom-right corner has neighbours 7, 8 and 11 |
| Day4PaperStorage.ParsePaperStorage | src/day4/paper_storage.rs:18-25 | parsing never fails: the grid rows are the input's lines, with the first line's length as the columns |
| Day4PaperStorage.CountWhere | src/day4/paper_storage.rs:10-15 | the count is at most the number of views and is zero exactly when none passes |
| Day4PaperStorage.CountWhereMonotone | src/day4/paper_storage.rs:10-15 | a test that passes more views counts at least as many |
| Day4PaperStorage.CountWhereAppend | src/day4/paper_storage.rs:10-15 | counting over two lists of views in a row adds their counts |
| Day4PaperStorage.CountWhereViewsOf | src/day4/paper_storage.rs:10-15 | counting the views of a list of cells is counting the cells whose view passes |
| Day4PaperStorage.CountCellsAppend | src/day4/paper_storage.rs:10-15 | counting over two lists of cells in a row adds their counts |
| Day4PaperStorage.RowCountOfCells | src/day4/paper_storage.rs:10-15 | counting a row's cells in the walk's order gives the row's count |
| Day4PaperStorage.FirstCellCount | src/day4/paper_storage.rs:10-15 | a single cell counts one when its view passes and none otherwise |
| Day4PaperStorage.GridCountOfCells | src/day4/paper_storage.rs:10-15 | counting the walk's cells gives the count of the grid, row by row |
| Day4PaperStorage.ViewsCount | src/day4/paper_storage.rs:10-15 | counting over the iterator's views equals counting cell by cell |
| Day4PaperStorage.RowPaper | src/day4/paper_storage.rs:10-15 | the paper views of a row are its `@` characters |
| Day4PaperStorage.GridCountPaper | src/day4/paper_storage.rs:10-15 | the paper views of the grid are its `@` characters |
| Day4PaperStorage.NForkliftAccessiblePaperRolls | src/day4/paper_storage.rs:10-15 | the number of cells holding a roll with fewer than four roll neighbours, and at most the number of rolls |
| Day4PaperStorage.NoneAccessible | src/day4/paper_storage.rs:10-15 | the count is zero exactly when no cell is accessible |
| Day4PaperStorage.RowCountZero | src/day4/paper_storage.rs:10-15 | a row counts nothing from a column on exactly when none of those cells passes |
| Day4PaperStorage.GridCountZero | src/day4/paper_storage.rs:10-15 | the rows from a given one on count nothing exactly when none of their cells passes |
| Day4PaperStorage.CornerRollIsAccessible | src/day4/paper_storage.rs:10-15 | a roll in a corner is always accessible, so the count is at least one |
| Day4PaperStorage.SurroundedRollIsNotAccessible | src/day4/paper_storage.rs:10-15 | an inner roll whose neighbours are all rolls is not accessible |
| Day4PaperStorage.RollsAround | src/day4/matrix.rs:103-133 | in a grid full of rolls, every neighbour pushed is a roll |
| Day4PaperStorage.FullGridRolls | src/day4/paper_storage.rs:10-15 | in a grid full of rolls, a cell is a roll that sees one roll fewer than the 3 by 3 block around it, cut by the edges |
| Day4PaperStorage.CountAll | src/day4/matrix.rs:163-165 | a list made only of `@` holds as many `@` as it is long |
| Day4PaperStorageExample.FullBlockExample | src/day4/paper_storage.rs:10-15 | a 3 by 3 block of rolls has exactly its 4 corners accessible |
| Day4PaperStorageExample.BlockRow | src/day4/paper_storage.rs:10-15 | in a 3 by 3 block of rolls, the outer rows hold two accessible rolls and the middle row none |
| Day4PaperStorageExample.BlockCell | src/day4/paper_storage.rs:10-15 | in a 3 by 3 block of rolls, a roll is accessible exactly when it is a corner |
| Day5IngredientId.FromU64 | src/day5/ingredient_id.rs:23-27 | the id of a number has that number as its value |
| Day5IngredientId.Sub | src/day5/ingredient_id.rs:15-21 | the difference of two ids, added to the smaller, gives the larger |
| Day5IngredientId.ParseIngredientId | src/day5/ingredient_id.rs:8-13 | an id parses exactly when its trimmed text is a `u64`, with that value |
| Day5IngredientId.ParseIngredientIdRoundTrip | src/day5/ingredient_id.rs:8-13 | an id's decimal text, padded with whitespace, parses back to it |
| Day5IngredientId.ParseIngredientIdOfDecimal | src/day5/ingredient_id.rs:8-13 | an id's decimal text parses back to it |
| Day5IngredientIdRange.New | src/day5/ingredient_id_range.rs:13-18 | a range has the given start and end |
| Day5IngredientIdRange.IsIngredientFresh | src/day5/ingredient_id_range.rs:19-21 | an id is fresh in a range when it lies between both bounds, included; `IsIngredientFreshIffCovered` makes this membership in the range's ids |
| Day5IngredientIdRange.IsIngredientFreshIffCovered | src/day5/ingredient_id_range.rs:19-21 | an id is fresh in a range exactly when it is one of the range's ids |
| Day5IngredientIdRange.Overlaps | src/day5/ingredient_id_range.rs:23-25 | each range starts no later than the other ends; `OverlapsMeansSharedId` proves it symmetric and, for well-formed ranges, the same as sharing an id, and `MalformedNeverOverlap` shows two reversed ranges never overlap |
| Day5IngredientIdRange.OverlapsMeansSharedId | src/day5/ingredient_id_range.rs:23-25 | overlap is symmetric, and two non-empty ranges overlap exactly when they share an id |
| Day5IngredientIdRange.MalformedNeverOverlap | src/day5/ingredient_id_range.rs:23-25 | two ranges whose start exceeds their end never overlap |
| Day5IngredientIdRange.OverlapsPair | src/day5/ingredient_id_range.rs:27-30 | a pair overlaps exactly when its two ranges do |
| Day5IngredientIdRange.Merge | src/day5/ingredient_id_range.rs:32-36 | the merge starts at the smaller start and ends at the larger end |
| Day5IngredientIdRange.MergeCoversUnion | src/day5/ingredient_id_range.rs:23-36 | merging two overlapping ranges covers exactly the ids of both and is well formed; a malformed one merges into the other |
| Day5IngredientIdRange.MergePair | src/day5/ingredient_id_range.rs:38-50 | a pair merges into one range exactly when it overlaps, and is kept otherwise; shorter input is returned unchanged |
| Day5IngredientIdRange.MergePairCoverage | src/day5/ingredient_id_range.rs:38-50 | merging a pair keeps exactly the ids of its two ranges |
| Day5IngredientIdRange.IdsCount | src/day5/ingredient_id_range.rs:59-61 | a well-formed range holds end - start + 1 ids |
| Day5IngredientIdRange.Size | src/day5/ingredient_id_range.rs:59-61 | the size is the number of ids the range holds |
| Day5IngredientIdRange.ParseIngredientIdRange | src/day5/ingredient_id_range.rs:64-75 | parsing succeeds exactly when the trimmed text holds a `-` and the texts before and after its first `-` both parse as ids; the range is then those two ids |
| Day5IngredientIdRange.ParseIngredientIdRangeOf | src/day5/ingredient_id_range.rs:64-75 | text split at its first `-` into two ids parses to the range of those ids |
| Day5IngredientIdRange.ParseIngredientIdRangeExtraDash | src/day5/ingredient_id_range.rs:64-75 | a second `-` stays in the upper bound, so text such as `1-2-3` fails |
| Day5IngredientIdRange.ParseIngredientIdRangeRoundTrip | src/day5/ingredient_id_range.rs:64-75 | a range's bounds written in decimal around a `-`, padded with whitespace, parse back to the range |
| Day5IngredientIdRange.RangeExamples | src/day5/ingredient_id_range.rs:83-130 | 45 is fresh in 45-55 and 100 is not; 45-55 overlaps 50-100 and 55-100 but not 60-100; merging 45-55 and 50-100 gives 45-100; 3-5 has size 3 |
| Day5Database.Round | src/day5/database.rs:47-74 | one pass of the outer loop: each range overlapping another is replaced by its merges with them, the others are kept; `RoundMember`, `RoundCoverage` and `RoundWithoutOverlap` state what it keeps |
| Day5Database.Reduce | src/day5/database.rs:47-74 | rounds repeated until one finds no overlap; `RoundDecreases` proves it ends, `ReduceNoOverlap` and `ReduceCoverage` that the result has no overlap and covers the same ids, and `ReduceFreshIngredientRanges` computes it |
| Day5Database.RoundMember | src/day5/database.rs:47-74 | a range after one round was either overlap-free before it or is the merge of two overlapping ranges |
| Day5Database.RoundDecreases | src/day5/database.rs:47-74 | while some ranges overlap, a round strictly shrinks a finite measure, so the reduction ends |
| Day5Database.RoundWithoutOverlap | src/day5/database.rs:47-74 | a round changes nothing when no two ranges overlap |
| Day5Database.ReduceNoOverlap | src/day5/database.rs:47-74 | no two reduced ranges overlap |
| Day5Database.ReduceOfReduced | src/day5/database.rs:47-74 | ranges that do not overlap are already reduced |
| Day5Database.ReduceIdempotent | src/day5/database.rs:47-74 | reducing twice is the same as reducing once |
| Day5Database.RoundCoverage | src/day5/database.rs:47-74 | a round keeps exactly the ids covered |
| Day5Database.ReduceCoverage | src/day5/database.rs:47-74 | the reduction keeps exactly the ids covered |
| Day5Database.ReduceWellFormed | src/day5/database.rs:47-74 | well-formed ranges reduce to well-formed ranges |
| Day5Database.ReduceFreshIngredientRanges | src/day5/database.rs:47-74 | the nested loops of one round, then the recursive call, compute the reduction `Reduce`: no overlap and the same ids covered |
| Day5Database.IsFreshIffCovered | src/day5/database.rs:22-32 | an id is fresh exactly when some range covers it |
| Day5Database.NewDatabase | src/day5/database.rs:13-20 | the database holds the reduced ranges, which do not overlap and leave fresh exactly the ids some given range holds, and the given ids |
| Day5Database.FilterFresh | src/day5/database.rs:22-32 | the kept ids are a subsequence of the given ones and all fresh |
| Day5Database.FilterFreshCount | src/day5/database.rs:22-32 | each fresh id is kept as often as it occurs and every other is dropped |
| Day5Database.FindFreshIngredients | src/day5/database.rs:22-32 | the ids found are a subsequence of the listed ids; each fresh id is found as often as it is listed, and no other id is found |
| Day5Database.SumSizesOfDisjoint | src/day5/database.rs:76-81 | the sizes of non-overlapping ranges add up to the number of ids covered |
| Day5Database.SumSizesSubset | src/day5/database.rs:76-81 | a subset of the ranges has no larger total size, so no partial sum exceeds the total |
| Day5Database.NFreshIngredientsInIndex | src/day5/database.rs:76-81 | when the total size fits a `u64`, the loop adds up the range sizes without overflow; for non-overlapping ranges that is the number of fresh ids |
| Day5Database.ParseEntriesErrPrefix | src/day5/database.rs:84-105 | once a line fails, the whole input fails |
| Day5Database.BlankLineIgnored | src/day5/database.rs:84-105 | a blank line changes nothing |
| Day5Database.ParseDatabase | src/day5/database.rs:84-105 | parsing fails exactly when some line fails; otherwise the ranges are the reduction of the range lines |
| Day5Database.ParseLayoutRoundTrip | src/day5/database.rs:84-105 | range lines, a blank line and id lines parse back to those ranges and ids |
| Day5Database.FirstRoundExample | src/day5/database.rs:136-150 | the first round on 3-5, 10-14, 16-20, 12-18 gives 3-5, 10-18, 12-20 |
| Day5Database.SecondRoundExample | src/day5/database.rs:136-150 | the second round gives 3-5, 10-20 |
| Day5Database.ReduceExample | src/day5/database.rs:136-150 | 3-5, 10-14, 16-20, 12-18 reduce to 3-5 and 10-20 |
| Day5Database.PaddedLayoutRoundTrip | src/day5/database.rs:84-105 | the layout with a blank first line and a last line of indentation parses back to the same ranges and ids |
| Day5Database.AdjacentRangesKept | src/day5/database.rs:47-74 | 1-2 and 3-4 are adjacent but do not overlap, so reducing keeps both |
| Day5Database.ExampleLines | src/day5/database.rs:117-124 | the test's text reads as its eight lines, the first empty and the last only indentation |
| Day5Database.ExampleEntries | src/day5/database.rs:115-134 | the test's lines parse to the ranges 1-2 and 3-4 and the ids 1, 2 and 3 |
| Day5Database.ParseExample | src/day5/database.rs:115-134 | parsing the test's text gives the database with ranges 1-2 and 3-4 and ids 1, 2 and 3 |
| Day6Problem.NewProblem | src/day6/problem.rs:12-14 | a problem holds the given terms and operation |
| Day6Problem.Fold | src/day6/problem.rs:20-25 | the fold from the front, one term at a time; `FoldSum` and `FoldProduct` prove it adds the sum or multiplies by the product of the terms |
| Day6Problem.Result | src/day6/problem.rs:15-26 | an addition gives the sum of the terms, a multiplication their product, and no terms give the neutral element |
| Day6Problem.FoldFitsBound | src/day6/problem.rs:15-26 | a fold whose partial results fit in `i32` ends within `i32` |
| Day6Problem.FoldSum | src/day6/problem.rs:15-26 | folding additions onto a value adds the sum of the terms |
| Day6Problem.FoldProduct | src/day6/problem.rs:15-26 | folding multiplications onto a value multiplies it by the product of the terms |
| Day6Problem.NonNegativeSumFits | src/day6/problem.rs:15-26 | non-negative terms whose total fits never overflow on the way |
| Day6Problem.ResultExample | src/day6/problem.rs:33-39 | 123 times 45 times 6 is 33210 |
| Day6Problem.EmptyResult | src/day6/problem.rs:15-26 | no terms give 0 for addition and 1 for multiplication |

## Left out

- src/day6/homework.rs: this parser is unfinished. It does not compile and depends on the foreign `ndarray` crate, so it is not part of this model. A problem is built directly from its terms and operation.
- The tests of days 1 to 5 that read `test.txt` or `input.txt` (for example, the day 4 test expecting 13): those files are not part of this model.
- Error values: each parser's `Err` carries a single error value, without Rust's error types or messages.
- `HashSet` (the day 5 fresh ranges) and `HashMap` (the day 3 digit index) are a Dafny set and a Dafny map. Their iteration order is not modelled. The day 5 reduction is shown to give the same result in any order.
- Day 4 `View` lifetimes and borrowing: a view holds its element and its neighbours by value. `View::new`, at src/day4/matrix.rs:150-155, names a value it never binds, so the view is built with the datatype's constructor.
- Day 3 `Bank.input` and the commented-out first version of `find_highest_joltage_v2` are not modelled.
- Day3Bank.FindHighestJoltageV2: the result is stated as the digits the stack keeps, not as the largest twelve-digit subsequence. The stack's optimality is not proved.
- Day3MonotonicStack.MonotonicStack.Push: the stack is specialised to `char`, the only element type the solvers use. The unit tests over small integers are stated over the matching digit characters, which order the same way.
- Day3MonotonicStackExample.RunExample1: this and the other example lemmas state the kept digits, not the `u64` values the tests compare (987654321111 and the rest).
- Day2ProductId.ProductIdIterator.Next: requires the current id to be below `u64::MAX` before stepping, where Rust would overflow.
- Day2ProductId.CollectRange: requires the range to end below `u64::MAX`, for the same reason.
- Day5IngredientIdRange.Size: requires the size to fit a `u64`; one full range of every id would overflow in Rust.
- Day2Database.FindMatching: requires every range to end below `u64::MAX`. The iterator adds one after yielding the last id, and that `u64` addition overflows when the last id is `u64::MAX`. The callers `FindNaiveInvalidProductIds`, `FindInvalidProductIds` and `NaiveFindingsAreFindings` carry the same requires.
- Day5Database.NFreshIngredientsInIndex: requires the total size to fit a `u64`. Rust's `u64` sum overflows past it, and since no size is negative that happens in any order exactly when the total exceeds `u64::MAX`.
- Day2Database.FindMatching: the order of the ids is stated within one range (`FindMatchingOneRange`) and by multiplicity, not as one sequence across ranges.
- Day1.FindRotationsWhereZeroHasPassed: it uses `Rotate` as written, so it keeps the miscounts reported under Findings. `SumCountsIsZeroClicks` states when that does not matter, and `Day1.CountZeroClicks` is part 2 with the corrected rotation. Its total is unbounded, since the corrected count has no `i32` code to follow.
- Day4Matrix.AdjacentIterator.constructor: requires every row at least as long as the first, and at least one column. Otherwise the iteration panics in Rust.
- Day6Problem.Result: requires every partial result to fit an `i32`, where Rust panics on overflow. `Day1.FindRotationsWhereZeroHasPassed` does the same with `SumsFit`, and `Day1Dial.Rotate` with `CanRotate`.
- Text: `trim` removes every Unicode White_Space character, as Rust does. Nothing else of Unicode is modelled.

## Findings

| source | as written | input that shows it | evidently intended | confidence | as-written member | corrected member |
|---|---|---|---|---|---|---|
| src/day1/dial.rs:17-51 | a left turn longer than its start position plus 100 counts the hundreds as a negative number of revolutions, then adds one, so passes past the first are lost or the count goes negative | a dial at 50 turned left by 168: the count is 0, yet the dial shows 0 after clicks 50 and 150 | count every click after which the dial shows 0 | not executed | Day1Dial.RotateLeftUndercounts | Day1Dial.RotateCountingClicks |
| src/day1/dial.rs:43-46 | a rotation whose target is exactly 0 adds one to the count, including a turn by 0 from 0 | a dial at 0 turned by `R0`: the count is 1, yet no click is made | a turn without clicks passes 0 no times | not executed | Day1Dial.RotateZeroTurnOvercounts | Day1Dial.RotateCountingClicks |
