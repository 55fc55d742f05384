/**
 * Wraparound coordinate arithmetic of the Wa-Tor toroid (`Toroid.up`, `down`,
 * `left`, `right` and `adjacent_spaces` in wator/wator.py).  The functions take
 * the grid dimensions as arguments; they are total on all integer positions, and
 * their contracts say what they do on positions inside the grid.
 */
module Topology {

  /** A cell of the grid: x is the column, y the row. */
  datatype Position = Position(x: int, y: int)

  /** The four neighbours of a cell, in the order `adjacent_spaces` lists them. */
  datatype Compass = Compass(up: Position, down: Position, left: Position, right: Position)

  predicate InBounds(width: int, height: int, p: Position) {
    0 <= p.x < width && 0 <= p.y < height
  }

  /** One row towards y = 0; row 0 wraps to the last row. */
  function Up(height: int, p: Position): (r: Position)
    ensures r.x == p.x
    ensures 0 <= p.y < height ==> 0 <= r.y < height && r.y == (p.y - 1) % height
  {
    var y := p.y - 1;
    Position(p.x, if y >= 0 then y else height - 1)
  }

  /** One row away from y = 0; the last row wraps to row 0. */
  function Down(height: int, p: Position): (r: Position)
    ensures r.x == p.x
    ensures 0 <= p.y < height ==> 0 <= r.y < height && r.y == (p.y + 1) % height
  {
    var y := p.y + 1;
    Position(p.x, if y < height then y else 0)
  }

  /** One column towards x = 0; column 0 wraps to the last column. */
  function Left(width: int, p: Position): (r: Position)
    ensures r.y == p.y
    ensures 0 <= p.x < width ==> 0 <= r.x < width && r.x == (p.x - 1) % width
  {
    var x := p.x - 1;
    Position(if x >= 0 then x else width - 1, p.y)
  }

  /**
   * As written in the source, the new column is computed from the ROW: the
   * result is column y + 1 (or 0 once that reaches the width) of the same row.
   * It is the true right-hand neighbour only on the diagonal (see
   * RightIsNeighbourIff).
   */
  function Right(width: int, p: Position): (r: Position)
    ensures r.y == p.y
    ensures 0 <= p.y + 1 < width ==> r.x == p.y + 1
    ensures p.y + 1 >= width ==> r.x == 0
    ensures 0 <= p.y && 0 < width ==> 0 <= r.x < width
  {
    var x := p.y + 1;
    Position(if x < width then x else 0, p.y)
  }

  /** The four neighbours in the order up, down, left, right. */
  function AdjacentSpaces(width: int, height: int, p: Position): (r: Compass)
    ensures InBounds(width, height, p) ==>
      InBounds(width, height, r.up) && InBounds(width, height, r.down) &&
      InBounds(width, height, r.left) && InBounds(width, height, r.right)
  {
    Compass(Up(height, p), Down(height, p), Left(width, p), Right(width, p))
  }

  /** The compass as the list the source's comprehensions iterate over. */
  function Spaces(c: Compass): (r: seq<Position>)
    ensures |r| == 4
    ensures forall q :: q in r <==> q == c.up || q == c.down || q == c.left || q == c.right
  {
    [c.up, c.down, c.left, c.right]
  }

  function Min(a: int, b: int): int {
    if a <= b then a else b
  }

  /** `up` and `down` undo each other on every position of the grid. */
  lemma UpDownInverse(width: int, height: int, p: Position)
    requires InBounds(width, height, p)
    ensures Down(height, Up(height, p)) == p
    ensures Up(height, Down(height, p)) == p
  {
  }

  /** `left` undoes `right` exactly when the column equals min(row, width - 1). */
  lemma LeftOfRightIff(width: int, height: int, p: Position)
    requires InBounds(width, height, p)
    ensures Left(width, Right(width, p)) == p <==> p.x == Min(p.y, width - 1)
  {
  }

  /**
   * `right` returns the true right-hand neighbour ((x + 1) mod width, y) exactly
   * when the column equals min(row, width - 1); on a square grid, exactly on the
   * diagonal.
   */
  lemma RightIsNeighbourIff(width: int, height: int, p: Position)
    requires InBounds(width, height, p)
    ensures Right(width, p) == Position((p.x + 1) % width, p.y) <==> p.x == Min(p.y, width - 1)
  {
  }

  /** The values the repository's unit tests expect of a 5 by 5 toroid. */
  lemma UnitTestExpectations()
    ensures Up(5, Position(0, 0)) == Position(0, 4) && Up(5, Position(4, 0)) == Position(4, 4)
    ensures Left(5, Position(0, 0)) == Position(4, 0) && Left(5, Position(2, 2)) == Position(1, 2)
    ensures Left(5, Position(4, 3)) == Position(3, 3)
    ensures Right(5, Position(0, 0)) == Position(1, 0) && Right(5, Position(4, 4)) == Position(0, 4)
    ensures Right(5, Position(2, 2)) == Position(3, 2)
    ensures Down(5, Position(0, 0)) == Position(0, 1) && Down(5, Position(4, 4)) == Position(4, 0)
    ensures Down(5, Position(2, 2)) == Position(2, 3)
  {
  }
}
