/** Board geometry of src/knight_tour.c: the 8x8 board, the mapping between
    a square index and its (x, y) coordinates (`index = y * 8 + x`), the
    bounds check, and the eight knight displacements tried in fixed order. */
module Geometry {

  const NumOfRows: int := 8
  const NumOfColumns: int := 8
  const NumOfDirections: int := 8
  const BoardSize: int := NumOfRows * NumOfColumns

  /** C's `/` on `int`: the quotient truncated toward zero. */
  function CDiv(a: int, b: int): (q: int)
    requires b > 0
    ensures Abs(q) == Abs(a) / b
    ensures a >= 0 ==> q >= 0
    ensures a < 0 ==> q <= 0
  {
    if a >= 0 then a / b else -((-a) / b)
  }

  /** C's `%` on `int`: the remainder takes the sign of the dividend. */
  function CMod(a: int, b: int): (r: int)
    requires b > 0
    ensures a == b * CDiv(a, b) + r
    ensures a >= 0 ==> 0 <= r < b
    ensures a < 0 ==> -b < r <= 0
  {
    if a >= 0 then a % b else -((-a) % b)
  }

  /** A square of the board. */
  predicate OnBoard(p: int)
  {
    0 <= p < BoardSize
  }

  datatype Cartesian = Cartesian(x: int, y: int)

  /** IndexToCartesianIMP: column `index % 8`, row `index / 8`, with C's
      truncating division (so -1 maps to x = -1, y = 0). */
  function IndexToCartesian(index: int): (c: Cartesian)
    ensures OnBoard(index) ==> 0 <= c.x < NumOfColumns && 0 <= c.y < NumOfRows
    ensures OnBoard(index) ==> CartesianToIndex(c.x, c.y) == index
  {
    Cartesian(CMod(index, NumOfColumns), CDiv(index, NumOfRows))
  }

  /** CartesianToIndexIMP; the source asserts both coordinates are
      non-negative. */
  function CartesianToIndex(x: int, y: int): (index: int)
    requires x >= 0 && y >= 0
    ensures x < NumOfColumns && y < NumOfRows ==> OnBoard(index)
    ensures x < NumOfColumns ==>
              CMod(index, NumOfColumns) == x && CDiv(index, NumOfRows) == y
  {
    y * NumOfRows + x
  }

  /** IsPositionOutOfBoundsIMP: coordinates pass the check exactly when
      they are those of a square of the board. */
  function IsOutOfBounds(x: int, y: int): (out: bool)
    ensures !out ==> x >= 0 && y >= 0 && OnBoard(CartesianToIndex(x, y)) &&
                     IndexToCartesian(CartesianToIndex(x, y)) == Cartesian(x, y)
    ensures out ==> forall p :: OnBoard(p) ==> IndexToCartesian(p) != Cartesian(x, y)
  {
    0 > x || 7 < x || 0 > y || 7 < y
  }

  /** The row and column change of each of the eight directions. */
  const MoveRowLUT: seq<int> := [1, 2, 2, 1, -1, -2, -2, -1]
  const MoveColLUT: seq<int> := [2, 1, -1, -2, -2, -1, 1, 2]

  function Abs(n: int): nat
  {
    if n < 0 then -n else n
  }

  /** A knight moves two squares along one axis and one along the other. */
  predicate IsKnightDisplacement(dx: int, dy: int)
  {
    (Abs(dx) == 1 && Abs(dy) == 2) || (Abs(dx) == 2 && Abs(dy) == 1)
  }

  /** Squares `a` and `b` are one knight move apart, judged from their
      coordinates alone. */
  predicate IsKnightMove(a: int, b: int)
  {
    OnBoard(a) && OnBoard(b) &&
    IsKnightDisplacement(b % NumOfColumns - a % NumOfColumns,
                         b / NumOfRows - a / NumOfRows)
  }

  /** GetNextPositionIMP: the square one knight move away from
      `position` in `direction`, or -1 if that move leaves the board. */
  function GetNextPosition(position: int, direction: int): (next: int)
    requires 0 <= direction < NumOfDirections
    ensures
      var c := IndexToCartesian(position);
      var nx, ny := c.x + MoveColLUT[direction], c.y + MoveRowLUT[direction];
      && (next == -1 <==> IsOutOfBounds(nx, ny))
      && (next != -1 ==> OnBoard(next) && IndexToCartesian(next) == Cartesian(nx, ny))
    ensures OnBoard(position) && next != -1 ==> IsKnightMove(position, next)
  {
    var c := IndexToCartesian(position);
    var nx := c.x + MoveColLUT[direction];
    var ny := c.y + MoveRowLUT[direction];
    if IsOutOfBounds(nx, ny) then -1 else CartesianToIndex(nx, ny)
  }

  /** Both halves of the coordinate bijection: on-board indices and
      in-range coordinate pairs correspond one to one. */
  lemma CartesianRoundTrip(x: int, y: int)
    requires 0 <= x < NumOfColumns && 0 <= y < NumOfRows
    ensures OnBoard(CartesianToIndex(x, y))
    ensures IndexToCartesian(CartesianToIndex(x, y)) == Cartesian(x, y)
  {
  }

  /** The bounds check on the computed coordinates rejects exactly the
      indices outside 0..63, the sentinel -1 included. */
  lemma OutOfBoundsIffOffBoard(p: int)
    ensures var c := IndexToCartesian(p); IsOutOfBounds(c.x, c.y) <==> !OnBoard(p)
  {
    var c := IndexToCartesian(p);
    if p < 0 {
      assert c.x < 0 || c.y < 0;
    } else if p >= BoardSize {
      assert c.y >= NumOfRows;
    }
  }

  /** The eight table entries are knight displacements, pairwise distinct. */
  lemma DirectionsAreDistinctKnightMoves()
    ensures |MoveRowLUT| == |MoveColLUT| == NumOfDirections
    ensures forall d :: 0 <= d < NumOfDirections ==>
              IsKnightDisplacement(MoveColLUT[d], MoveRowLUT[d])
    ensures forall d, e :: 0 <= d < e < NumOfDirections ==>
              (MoveColLUT[d], MoveRowLUT[d]) != (MoveColLUT[e], MoveRowLUT[e])
  {
  }

  /** Every knight displacement is one of the eight directions. */
  lemma DirectionsCoverKnightMoves(dx: int, dy: int)
    requires IsKnightDisplacement(dx, dy)
    ensures exists d :: 0 <= d < NumOfDirections && MoveColLUT[d] == dx && MoveRowLUT[d] == dy
  {
    var d :=
      if dx == 2 && dy == 1 then 0
      else if dx == 1 && dy == 2 then 1
      else if dx == -1 && dy == 2 then 2
      else if dx == -2 && dy == 1 then 3
      else if dx == -2 && dy == -1 then 4
      else if dx == -1 && dy == -2 then 5
      else if dx == 1 && dy == -2 then 6
      else 7;
    assert MoveColLUT[d] == dx && MoveRowLUT[d] == dy;
  }

  /** From a square, the eight directions reach exactly the squares one
      knight move away. */
  lemma NextPositionsAreKnightMoves(a: int, b: int)
    requires OnBoard(a) && OnBoard(b)
    ensures IsKnightMove(a, b) <==>
            exists d :: 0 <= d < NumOfDirections && GetNextPosition(a, d) == b
  {
    if IsKnightMove(a, b) {
      var ca, cb := IndexToCartesian(a), IndexToCartesian(b);
      DirectionsCoverKnightMoves(cb.x - ca.x, cb.y - ca.y);
      var d :| 0 <= d < NumOfDirections &&
               MoveColLUT[d] == cb.x - ca.x && MoveRowLUT[d] == cb.y - ca.y;
      assert GetNextPosition(a, d) == b;
    }
  }
}
