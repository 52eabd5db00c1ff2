/** Cells of the square board, the four placement directions, and the
    row-major flattening of a cell to the index of its qubit. */
module Geometry {

  /** An optional value, for lookups that may find nothing. */
  datatype Option<T> = None | Some(value: T)

  /** Side length of the board (the board has BOARD_SIZE * BOARD_SIZE cells). */
  const BOARD_SIZE: nat := 8

  /** Number of cells, and so of qubits and of classical bits. */
  const CELL_COUNT: nat := BOARD_SIZE * BOARD_SIZE

  /** A board position `[i, j]`: row `i`, column `j`. Either may lie off the
      board, since placement computes neighbours without a bounds check. */
  datatype Cell = Cell(row: int, col: int)

  /** The direction in which a ship's second cell lies from its first. */
  datatype Direction = Up | Down | Left | Right

  predicate InBounds(c: Cell) {
    0 <= c.row < BOARD_SIZE && 0 <= c.col < BOARD_SIZE
  }

  /** 4-neighbourhood: the cells differ by exactly one in exactly one coordinate. */
  predicate Adjacent(a: Cell, b: Cell) {
    || (a.row == b.row && (a.col - b.col == 1 || b.col - a.col == 1))
    || (a.col == b.col && (a.row - b.row == 1 || b.row - a.row == 1))
  }

  /** The second cell of a ship whose first cell is `c`, pointing in direction `d`. */
  function OtherCell(c: Cell, d: Direction): (r: Cell)
    ensures Adjacent(c, r)
    ensures r != c
  {
    match d
    case Up => Cell(c.row - 1, c.col)
    case Down => Cell(c.row + 1, c.col)
    case Left => Cell(c.row, c.col - 1)
    case Right => Cell(c.row, c.col + 1)
  }

  /** The direction leading from `a` to `b`, if `b` is one of `a`'s four neighbours. */
  function DirectionBetween(a: Cell, b: Cell): (r: Option<Direction>)
  {
    if b == Cell(a.row - 1, a.col) then Some(Up)
    else if b == Cell(a.row + 1, a.col) then Some(Down)
    else if b == Cell(a.row, a.col - 1) then Some(Left)
    else if b == Cell(a.row, a.col + 1) then Some(Right)
    else None
  }

  /** The direction is recovered from the two cells it produced. */
  lemma OtherCellDirection(c: Cell, d: Direction)
    ensures DirectionBetween(c, OtherCell(c, d)) == Some(d)
  {
  }

  /** A cell is a neighbour exactly when some direction produces it, and that
      direction then produces it. */
  lemma AdjacentIffSomeDirection(a: Cell, b: Cell)
    ensures Adjacent(a, b) <==> DirectionBetween(a, b).Some?
    ensures DirectionBetween(a, b).Some? ==> OtherCell(a, DirectionBetween(a, b).value) == b
  {
  }

  /** Distinct directions give distinct second cells. */
  lemma OtherCellInjective(c: Cell, d1: Direction, d2: Direction)
    requires OtherCell(c, d1) == OtherCell(c, d2)
    ensures d1 == d2
  {
    OtherCellDirection(c, d1);
    OtherCellDirection(c, d2);
  }

  /** Row-major index `BOARD_SIZE * i + j` of the qubit that stands for cell `[i, j]`. */
  function Flatten(c: Cell): (q: int)
    ensures InBounds(c) ==> 0 <= q < CELL_COUNT
    ensures InBounds(c) ==> Unflatten(q) == c
  {
    BOARD_SIZE * c.row + c.col
  }

  /** The cell whose qubit has index `q`. */
  function Unflatten(q: nat): (c: Cell)
    ensures q < CELL_COUNT ==> InBounds(c)
  {
    Cell(q / BOARD_SIZE, q % BOARD_SIZE)
  }

  /** Flattening is a bijection between the board and the qubit indices. */
  lemma FlattenUnflatten(q: nat)
    requires q < CELL_COUNT
    ensures Flatten(Unflatten(q)) == q
  {
  }

  lemma FlattenInjective(a: Cell, b: Cell)
    requires InBounds(a) && InBounds(b)
    requires Flatten(a) == Flatten(b)
    ensures a == b
  {
    assert Unflatten(Flatten(a)) == a;
  }

  /** Both cells of an in-bounds placement map to two different qubits. */
  lemma PlacementQubitsDistinct(c: Cell, d: Direction)
    requires InBounds(c) && InBounds(OtherCell(c, d))
    ensures Flatten(c) != Flatten(OtherCell(c, d))
    ensures 0 <= Flatten(c) < CELL_COUNT && 0 <= Flatten(OtherCell(c, d)) < CELL_COUNT
  {
    if Flatten(c) == Flatten(OtherCell(c, d)) {
      FlattenInjective(c, OtherCell(c, d));
    }
  }

  /** Without the bounds check, flattening aliases cells: the right-hand
      neighbour of the last cell of row 0 lies off the board, yet shares its
      qubit with the first cell of row 1. */
  lemma OffBoardNeighbourAliases()
    ensures !InBounds(OtherCell(Cell(0, BOARD_SIZE - 1), Right))
    ensures Flatten(OtherCell(Cell(0, BOARD_SIZE - 1), Right)) == Flatten(Cell(1, 0))
  {
  }

  /** Without the bounds check, the lower neighbour of a cell in the last row
      flattens to an index past the end of the register. */
  lemma OffBoardNeighbourPastRegister(j: int)
    requires 0 <= j < BOARD_SIZE
    ensures !InBounds(OtherCell(Cell(BOARD_SIZE - 1, j), Down))
    ensures Flatten(OtherCell(Cell(BOARD_SIZE - 1, j), Down)) >= CELL_COUNT
  {
  }
}
