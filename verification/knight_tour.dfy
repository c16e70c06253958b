/** The knight's-tour backtracking search of src/knight_tour.c.

    `TourFrom` is the recursive step (TourIMP): it receives the board by
    value, so a child never changes its caller's board and no undo step is
    needed. The path array is modelled as a sequence of 64 bytes, and the
    C pointer `path + k` a frame writes through as the offset `k`: a frame
    writes only `path[k]`, and only after one of its children succeeded.

    The board is the set of marked squares. The source keeps it as the bits
    of a 64-bit word; `BoardMatchesWord` below relates the two readings. The
    two-minute timeout is not modelled: the search runs as if it never
    fires. */
module KnightTour {
  import opened Geometry
  import opened Sets
  import BitArray

  /** `unsigned char`, the element type of the path array. */
  newtype uint8 = x: int | 0 <= x < 256

  /** Status codes returned by the source. */
  const Found: int := 0
  const NotFound: int := 1

  /** The squares marked as visited so far. */
  type Board = set<int>

  /** A board marks squares only. */
  predicate ValidBoard(board: Board)
  {
    forall p :: p in board ==> OnBoard(p)
  }

  /** The result of a search frame: its status code and the path array as
      the frame leaves it. */
  datatype Outcome = Outcome(status: int, path: seq<uint8>)

  /** HasPositionBeenVisitedBeforeIMP: a test of the square's bit. For any
      word holding the board, the answer is that word's bit for the square,
      and no square off the board is ever visited. */
  function HasPositionBeenVisited(board: Board, position: int): (visited: bool)
    requires position >= 0
    ensures OnBoard(position) ==>
              forall w :: BoardMatchesWord(w, board) ==>
                (visited <==> BitArray.Bit(w, position as BitArray.BitNum))
    ensures ValidBoard(board) && !OnBoard(position) ==> !visited
  {
    position in board
  }

  /** MarkPositionAsVisitedIMP: sets the square's bit. */
  function MarkPositionAsVisited(board: Board, position: int): (marked: Board)
    requires OnBoard(position) && ValidBoard(board)
    ensures ValidBoard(marked)
    ensures HasPositionBeenVisited(marked, position)
    ensures forall p :: p != position ==> (p in marked <==> p in board)
    ensures position !in board ==> |marked| == |board| + 1
  {
    board + {position}
  }

  /** The squares written at index `k` and after. */
  ghost function Entries(p: seq<uint8>, k: nat): set<int>
  {
    set i | k <= i < |p| :: p[i] as int
  }

  /** `p[k..]` finishes a knight's tour over the squares `board` leaves
      unmarked: each of them exactly once, every step a knight move. */
  ghost predicate CompletesBoard(p: seq<uint8>, k: nat, board: Board)
    requires |p| == BoardSize && k <= BoardSize
  {
    && (forall i :: k <= i < BoardSize ==> OnBoard(p[i] as int) && p[i] as int !in board)
    && (forall i, j :: k <= i < j < BoardSize ==> p[i] != p[j])
    && (forall i :: k <= i < BoardSize - 1 ==> IsKnightMove(p[i] as int, p[i + 1] as int))
    && board + Entries(p, k) == Range(BoardSize)
  }

  /** A complete knight's tour from `start`: 64 entries, each square once,
      starting at `start`, consecutive entries a knight move apart. */
  ghost predicate IsKnightsTour(p: seq<uint8>, start: int)
  {
    && |p| == BoardSize
    && p[0] as int == start
    && (forall i :: 0 <= i < BoardSize ==> OnBoard(p[i] as int))
    && (forall i, j :: 0 <= i < j < BoardSize ==> p[i] != p[j])
    && Entries(p, 0) == Range(BoardSize)
    && (forall i :: 0 <= i < BoardSize - 1 ==> IsKnightMove(p[i] as int, p[i + 1] as int))
  }

  /** TourIMP. In order: a full board is success; an off-board or marked
      position is failure; otherwise the position is marked and the eight
      directions are tried in table order, and on the first success the
      frame writes its position at its own index and succeeds. */
  function TourFrom(path: seq<uint8>, offset: nat, position: int, board: Board): (r: Outcome)
    requires |path| == BoardSize
    requires ValidBoard(board) && |board| == offset <= BoardSize
    decreases BoardSize - |board|, 0
    ensures |r.path| == BoardSize
    ensures r.status == Found || r.status == NotFound
    ensures r.status == NotFound ==> r.path == path
    ensures forall i :: 0 <= i < offset ==> r.path[i] == path[i]
    ensures |board| == BoardSize ==> r == Outcome(Found, path)
    ensures |board| < BoardSize && (!OnBoard(position) || position in board) ==>
              r == Outcome(NotFound, path)
    ensures r.status == Found ==> CompletesBoard(r.path, offset, board)
    ensures r.status == Found && offset < BoardSize ==> r.path[offset] as int == position
  {
    var c := IndexToCartesian(position);
    OutOfBoundsIffOffBoard(position);
    if |board| == BoardSize then
      FullBoardIsAllSquares(board);
      Outcome(Found, path)
    else if IsOutOfBounds(c.x, c.y) || HasPositionBeenVisited(board, position) then
      Outcome(NotFound, path)
    else
      TryDirections(path, offset, position, MarkPositionAsVisited(board, position), 0)
  }

  /** The loop over directions `direction`..7 of the frame at `offset`, whose
      position is `position` and whose marked board is `marked`. */
  function TryDirections(path: seq<uint8>, offset: nat, position: int, marked: Board,
                         direction: int): (r: Outcome)
    requires |path| == BoardSize
    requires OnBoard(position) && position in marked
    requires ValidBoard(marked) && |marked| == offset + 1 <= BoardSize
    requires 0 <= direction <= NumOfDirections
    decreases BoardSize - |marked|, NumOfDirections + 1 - direction
    ensures |r.path| == BoardSize
    ensures r.status == Found || r.status == NotFound
    ensures r.status == NotFound ==> r.path == path
    ensures forall i :: 0 <= i < offset ==> r.path[i] == path[i]
    ensures r.status == Found ==>
              r.path[offset] as int == position &&
              CompletesBoard(r.path, offset, marked - {position})
  {
    if direction == NumOfDirections then
      Outcome(NotFound, path)
    else
      var next := GetNextPosition(position, direction);
      var child := TourFrom(path, offset + 1, next, marked);
      if child.status == Found then
        var written := child.path[offset := position as uint8];
        WriteExtendsTour(child.path, offset, position, next, marked);
        Outcome(Found, written)
      else
        TryDirections(path, offset, position, marked, direction + 1)
  }

  /** Tour: searches from `position` on the empty board. The source asserts
      `position > -1` and nothing else about it. */
  function Tour(position: int, path: seq<uint8>): (r: Outcome)
    requires position > -1
    requires |path| == BoardSize
    ensures |r.path| == BoardSize
    ensures r.status == Found || r.status == NotFound
    ensures r.status == NotFound ==> r.path == path
    ensures position >= BoardSize ==> r == Outcome(NotFound, path)
    ensures r.status == Found ==> IsKnightsTour(r.path, position)
  {
    TourFrom(path, 0, position, {})
  }

  /** A board with all 64 squares counted marks every square. */
  lemma FullBoardIsAllSquares(board: Board)
    requires ValidBoard(board) && |board| == BoardSize
    ensures board == Range(BoardSize)
  {
    RangeCard(BoardSize);
    SubsetEqualCard(board, Range(BoardSize));
  }

  /** The success step of TryDirections: a child that completed the tour
      from `next` on the board with `position` marked, followed by the write
      of `position` just before it, completes the tour from `position` on
      the caller's board. */
  lemma WriteExtendsTour(child: seq<uint8>, offset: nat, position: int, next: int, marked: Board)
    requires |child| == BoardSize && offset < BoardSize
    requires OnBoard(position) && position in marked
    requires CompletesBoard(child, offset + 1, marked)
    requires offset + 1 < BoardSize ==> child[offset + 1] as int == next
    requires offset + 1 < BoardSize ==> next == -1 || IsKnightMove(position, next)
    ensures CompletesBoard(child[offset := position as uint8], offset, marked - {position})
  {
    var written := child[offset := position as uint8];
    assert Entries(written, offset) == {position} + Entries(child, offset + 1) by {
      forall s | s in Entries(written, offset)
        ensures s in {position} + Entries(child, offset + 1)
      {
        var i :| offset <= i < BoardSize && written[i] as int == s;
        if i > offset {
          assert child[i] as int == s;
        }
      }
      assert written[offset] as int == position;
      forall s | s in Entries(child, offset + 1)
        ensures s in Entries(written, offset)
      {
        var i :| offset + 1 <= i < BoardSize && child[i] as int == s;
        assert written[i] as int == s;
      }
    }
  }

  /** The sequence 0, 1, ..., 63. */
  function SortedSquares(): (s: seq<uint8>)
    ensures |s| == BoardSize
    ensures forall i :: 0 <= i < BoardSize ==> s[i] as int == i
  {
    seq(BoardSize, i requires 0 <= i < BoardSize => i as uint8)
  }

  /** Every entry of a sequence with no repeated entry occurs once. */
  lemma {:induction false} DistinctOccursOnce(p: seq<uint8>)
    requires forall i, j :: 0 <= i < j < |p| ==> p[i] != p[j]
    ensures forall v :: multiset(p)[v] == (if v in p then 1 else 0)
  {
    if |p| > 0 {
      var init := p[..|p| - 1];
      DistinctOccursOnce(init);
      assert p == init + [p[|p| - 1]];
      assert p[|p| - 1] !in init;
    }
  }

  lemma ElementsOnBoard(p: seq<uint8>)
    requires forall i :: 0 <= i < |p| ==> OnBoard(p[i] as int)
    ensures forall v :: v in p ==> OnBoard(v as int)
  {
    forall v | v in p
      ensures OnBoard(v as int)
    {
      var i :| 0 <= i < |p| && p[i] == v;
    }
  }

  /** A knight's tour is a permutation of the squares: sorted, it is
      0, 1, ..., 63, which is what the test program checks. */
  lemma TourIsPermutation(p: seq<uint8>, start: int)
    requires IsKnightsTour(p, start)
    ensures multiset(p) == multiset(SortedSquares())
  {
    var sorted := SortedSquares();
    DistinctOccursOnce(p);
    DistinctOccursOnce(sorted);
    ElementsOnBoard(p);
    forall v: uint8
      ensures multiset(p)[v] == multiset(sorted)[v]
    {
      if v as int < BoardSize {
        assert v as int in Range(BoardSize);
        var i :| 0 <= i < BoardSize && p[i] as int == v as int;
        assert p[i] == v;
        assert v in p;
        assert sorted[v as int] == v;
        assert v in sorted;
      } else {
        assert v !in sorted;
      }
    }
  }

  /** A search from a start square at or above 31 marks that square in its
      very first frame: the source does so with BitArraySetOn, whose `int`
      shift is undefined for that bit number (`BitArray.IntShiftDefined`
      holds only below 31). */
  lemma FirstFrameMarksStart(start: int, path: seq<uint8>)
    requires 31 <= start < BoardSize && |path| == BoardSize
    ensures Tour(start, path) ==
            TryDirections(path, 0, start, MarkPositionAsVisited({}, start), 0)
  {
    OutOfBoundsIffOffBoard(start);
  }

  /** Every successful tour marks square 31 and all squares above it; the
      source marks a square with BitArraySetOn, whose `int` shift is
      undefined for those bit numbers. */
  lemma SuccessfulTourMarksBeyondIntShift(start: int, path: seq<uint8>)
    requires start > -1 && |path| == BoardSize
    requires Tour(start, path).status == Found
    ensures forall s :: 31 <= s < BoardSize ==> s in Entries(Tour(start, path).path, 0)
  {
    var p := Tour(start, path).path;
    forall s | 31 <= s < BoardSize
      ensures s in Entries(p, 0)
    {
      assert s in Range(BoardSize);
    }
  }

  /** The board as the source stores it: bit `i` of the word is on exactly
      when square `i` is marked. */
  ghost predicate BoardMatchesWord(w: BitArray.Word, board: Board)
  {
    && ValidBoard(board)
    && forall i: BitArray.BitNum :: BitArray.Bit(w, i) <==> i as int in board
  }

  /** Marking a square on the set board is turning its bit on in the word
      with the 64-bit SetOn, and the visited test is the bit test. */
  lemma BoardMatchesWordAfterMark(w: BitArray.Word, board: Board, position: int)
    requires OnBoard(position) && BoardMatchesWord(w, board)
    ensures BitArray.Bit(w, position as BitArray.BitNum) <==> HasPositionBeenVisited(board, position)
    ensures BoardMatchesWord(BitArray.SetOnWide(w, position as BitArray.BitNum),
                             MarkPositionAsVisited(board, position))
  {
    var b := position as BitArray.BitNum;
    SameSquare(b, position);
    forall i: BitArray.BitNum
      ensures BitArray.Bit(BitArray.SetOnWide(w, b), i) <==> i as int in board + {position}
    {
      MarkedBit(w, board, position, i);
    }
  }

  lemma MarkedBit(w: BitArray.Word, board: Board, position: int, i: BitArray.BitNum)
    requires OnBoard(position) && BoardMatchesWord(w, board)
    ensures BitArray.Bit(BitArray.SetOnWide(w, position as BitArray.BitNum), i) <==>
            i as int in board + {position}
  {
    SameSquare(i, position);
  }

  lemma SameSquare(i: BitArray.BitNum, p: int)
    requires OnBoard(p)
    ensures i as int == p <==> i == p as BitArray.BitNum
  {
  }
}
