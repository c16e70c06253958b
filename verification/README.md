# Knight's tour — a Dafny model

This project models the core of a small C program that looks for a knight's
tour on an 8x8 chess board. `Tour(position, path)` runs a depth-first
backtracking search (`TourIMP`) from a start square. It returns 0 and fills
the 64-byte `path` array with the squares in visiting order when a tour is
found, and returns 1 otherwise. Visited squares are the bits of a 64-bit
word (`bitsarr_ty`). The search marks a square with `BitArraySetOn` from
`src/bit_array.c`, tests it with `BitArrayGetVal` and counts the marked
squares with `BitArrayCountOnLUT`. The other three primitives of
`src/bit_array.c` (SetAll, ResetAll, SetOff) are modelled with it but never
touch the board.

Modules:

- `BitArray` (`bit_array.dfy`): the 64-bit word as `bv64` and the four
  primitives SetAll, ResetAll, SetOn and SetOff. SetOn and SetOff are
  modelled as written: they shift the `int` literal 1. The module also
  defines `SetOnWide`, the 64-bit SetOn the code evidently intends (see
  Findings).
- `Geometry` (`geometry.dfy`): the board constants; index ↔ (x, y)
  conversion with C's truncating `/` and `%`; the bounds check; the two
  direction tables; and `GetNextPosition`.
- `KnightTour` (`knight_tour.dfy`): the search itself.
  - `TourFrom` models TourIMP. `TryDirections` models its loop over the
    eight directions.
  - The board is the set of marked squares. `BoardMatchesWord` ties it to
    the source's bit word.
  - `path + k` is modelled as an offset into a 64-element sequence of
    `uint8`.
  - The board is passed by value, so a frame's marks never reach its
    caller. The model has no undo step because the code has none.
- `Sets` (`sets.dfy`): `Range(n)` and the cardinality facts the search
  proofs use.

The recursion depth bound is carried by two preconditions: `TourFrom`
requires `|board| == offset <= 64`, and `TryDirections` requires
`|marked| == offset + 1 <= 64`. Every recursive call must meet them, and
`MarkPositionAsVisited` grows the board by exactly one square. So each
nested frame marks one more square than its parent, and no frame sits
deeper than 64. The `decreases` clauses prove the search terminates.

Unlike the common Warnsdorff-ordered version of this search, the code is
a plain backtracking search, and the model follows the code:

- The code tries the eight directions in a fixed table order. It has no
  Warnsdorff ordering, no per-square move table and no unmark step.
- There is no separate invalid-start result. Start -1 violates the C
  `assert(position > -1)`, which becomes a precondition of `Tour`. A start
  of 64 or more passes the assert, fails the bounds check in the first
  frame, and returns 1 with the path untouched.

## Model

| member | source | states |
|---|---|---|
| BitArray.SetAll | src/bit_array.c:17-21 | every one of the 64 bits of the result is on, whatever the input word |
| BitArray.SetAllIgnoresInput | src/bit_array.c:15-21 | the result does not depend on the input: it is always the all-ones mask |
| BitArray.ResetAll | src/bit_array.c:23-27 | every bit of the result is off, whatever the input word |
| BitArray.ResetAllAfterSetAll | test_files/bit_array_test.c:9-14 | resetting the all-ones word obtained from 0 gives the zero word again |
| BitArray.SetOn | src/bit_array.c:29-33 | as written, with an `int` mask, so only bit numbers below 31 are defined: bit `b` is on and every other bit equals the input's |
| BitArray.SetOff | src/bit_array.c:35-39 | bit `b` is off and every other bit equals the input's; the complemented `int` mask sign-extends to all ones except bit `b` |
| BitArray.SetOnWide | src/bit_array.c:29-33 | the intended 64-bit SetOn: for every bit number 0..63, bit `b` is on and all other bits are unchanged |
| BitArray.SetOnAgreesWithWide | src/bit_array.c:29-33 | where the `int` shift is defined, the as-written SetOn and the 64-bit one give the same word |
| BitArray.SetOnIdempotent | src/bit_array.c:29-33 | turning on a bit that SetOn has already turned on leaves the word unchanged |
| BitArray.SetOffUndoesSetOn | test_files/bit_array_test.c:13-17 | when bit `b` is off, SetOn followed by SetOff restores the word (the test does this with bit 6 of 0) |
| BitArray.SetOnUndoesSetOff | src/bit_array.c:29-39 | when bit `b` is on, SetOff followed by SetOn restores the word |
| Geometry.CDiv | src/knight_tour.c:179 | C's `/`: the quotient's magnitude is the floor of the magnitudes' quotient, and it never has the opposite sign of the dividend (so -1 / 8 is 0) |
| Geometry.CMod | src/knight_tour.c:178 | C's `%`: `a == 8 * (a / 8) + r`; the remainder lies in 0..7 for non-negative `a` and in -7..0 for negative `a` |
| Geometry.IndexToCartesian | src/knight_tour.c:174-180 | for an index 0..63 both coordinates lie in 0..7 and converting back gives the same index |
| Geometry.CartesianToIndex | src/knight_tour.c:182-187 | coordinates in 0..7 give a square of the board, and for an in-range column C's `%` and `/` by 8 recover the column and row |
| Geometry.IsOutOfBounds | src/knight_tour.c:161-165 | coordinates that pass the check are those of a square, whose index converts back to them; coordinates that fail are those of no square |
| Geometry.CartesianRoundTrip | src/knight_tour.c:174-187 | for coordinates in 0..7 the index is on the board, and converting that index back gives the same (x, y) |
| Geometry.OutOfBoundsIffOffBoard | src/knight_tour.c:161-165 | the bounds check on an index's coordinates fails exactly when the index is outside 0..63, which covers -1 (x = -1 under C's `%`) and 64 and above (y >= 8) |
| Geometry.DirectionsAreDistinctKnightMoves | src/knight_tour.c:133-135 | the two tables have eight entries; each (column, row) change is a knight displacement; no two directions are equal |
| Geometry.DirectionsCoverKnightMoves | src/knight_tour.c:133-135 | every knight displacement is one of the eight table directions |
| Geometry.GetNextPosition | src/knight_tour.c:131-151 | the result is -1 exactly when the moved coordinates fail the bounds check; otherwise it is the on-board square with those coordinates, one knight move from an on-board start |
| Geometry.NextPositionsAreKnightMoves | src/knight_tour.c:131-151 | from an on-board square, the squares reached by the eight directions are exactly those one knight move away |
| KnightTour.HasPositionBeenVisited | src/knight_tour.c:167-172 | for any word holding the board, the answer is that word's bit for the square; no square off the board counts as visited |
| KnightTour.MarkPositionAsVisited | src/knight_tour.c:153-159 | the square is now visited, no other square changes, and an unvisited square grows the board by exactly one |
| KnightTour.TourFrom | src/knight_tour.c:73-129 | a full board succeeds without writing; otherwise an off-board or visited position fails without writing; a failure leaves the path as given; no frame writes below its own index; a success writes the frame's own position at its index and completes a knight's tour over the unmarked squares |
| KnightTour.TryDirections | src/knight_tour.c:113-128 | failure after all eight directions leaves the path untouched; a success means some child completed the tour over the rest of the board and this frame's position is written at its index before it |
| KnightTour.Tour | src/knight_tour.c:53-66 | a start of 64 or more returns 1 with the path unchanged; any failure leaves the path unchanged; a success fills the path with a knight's tour from the start square that visits every square exactly once |
| KnightTour.WriteExtendsTour | src/knight_tour.c:118-124 | writing the frame's position in front of a child's completed tour completes the tour over the board without that position |
| KnightTour.FullBoardIsAllSquares | src/knight_tour.c:94-98 | a board that counts 64 marked squares marks every square 0..63 |
| KnightTour.TourIsPermutation | test_files/knight_tour_test.c:50-53 | a successful path, sorted, is the sequence 0..63, i.e. the path is a permutation of the 64 squares |
| KnightTour.FirstFrameMarksStart | src/knight_tour.c:103-111 | a search from start 31..63 marks its start square in the first frame, a bit number the as-written SetOn does not define |
| KnightTour.SuccessfulTourMarksBeyondIntShift | src/knight_tour.c:153-159 | every successful tour marks squares 31..63, bit numbers outside the defined range of the `int` shift |
| KnightTour.BoardMatchesWordAfterMark | src/knight_tour.c:153-172 | with the board held as a word, the visited test is the square's bit, and marking a square is the 64-bit SetOn of that bit |

## Left out

- The two-minute timeout (`time`, `difftime`, `puts`, `exit(1)`): clocks and
  process exit are I/O. The model behaves as if the timer never fires.
- KnightTour.Tour: does not promise that a tour is found from every start
  square (completeness). It states what a returned result means, and the
  search is proved to terminate.
- BitArrayGetVal is declared in `api/bit_array.h` but its body is not part
  of this model. BitArrayCountOnLUT is called by the search but its
  declaration and body are not part of this model. They are modelled by
  their meaning on the board: set membership and cardinality.
- The other bit-array functions in `api/bit_array.h` (flip, mirror, rotate,
  count, to-string, set-bit) are not used by the search and are not
  modelled.
- The board-display helpers and the test driver's input and printing are
  not modelled.
- `Tour` takes `position > -1` as a precondition because the source
  asserts it. The null-pointer asserts have no counterpart, since a
  sequence cannot be null.
- Positions are unbounded integers rather than 32-bit `int`s. No
  wrap-around is lost: a caller's position is only divided and compared,
  and moves are added to on-board coordinates only.
- BitArray.SetOn: requires a bit number below 31, the range where C
  defines its `int` shift. Beyond it the source has undefined behaviour,
  which has no value to model (see Findings).
- BitArray.SetOff: requires a bit number below 31 for the same reason.

## Findings

| source | as written | input that shows it | evidently intended | confidence | as-written member | corrected member |
|---|---|---|---|---|---|---|
| src/bit_array.c:31 | `bitarr \|= (1 << bit_to_turn)` shifts the 32-bit `int` 1, which is undefined for bit numbers 31..63, yet the search marks squares 0..63 with it (src/knight_tour.c:158) | `Tour(31, path)`: the first frame marks square 31, evaluating `1 << 31` | `(bitsarr_ty)1 << bit_to_turn`, a 64-bit mask for every square | not executed | BitArray.SetOn, KnightTour.FirstFrameMarksStart, KnightTour.SuccessfulTourMarksBeyondIntShift | BitArray.SetOnWide, KnightTour.BoardMatchesWordAfterMark |
