/** The player's board: an 8 x 8 grid of cell values, the ships placed on it
    keyed by Bell state, the list of measured cells, and the quantum circuit
    over one qubit per cell, kept as the list of gates appended to it. */
module Boards {
  import opened Geometry
  import opened Gates
  import opened Text

  /** A placed ship: its first cell `[i, j]` and the cell next to it. */
  datatype Ship = Ship(first: Cell, second: Cell)

  /** Both cells on the board, next to each other. */
  predicate ShipPlaced(s: Ship) {
    InBounds(s.first) && InBounds(s.second) && Adjacent(s.first, s.second)
  }

  /** The gates that entangle a placed ship's two qubits in Bell state `bs`. */
  function ShipGates(s: Ship, bs: BellState): seq<Gate>
    requires ShipPlaced(s)
  {
    BellGates(Flatten(s.first), Flatten(s.second), bs)
  }

  function ZeroRow(): seq<int> {
    seq(BOARD_SIZE, _ => 0)
  }

  /** BOARD_SIZE rows of BOARD_SIZE zeros. */
  function EmptyGrid(): seq<seq<int>> {
    seq(BOARD_SIZE, _ => ZeroRow())
  }

  class Board {
    var board: seq<seq<int>>
    var ships: map<BellState, Ship>
    var measured: seq<Cell>
    /** Sizes of the quantum and the classical register. */
    const qubitCount: nat
    const clbitCount: nat
    /** The gates appended to the circuit so far, oldest first. */
    var circuit: seq<Gate>

    /** The circuit opens with the Hadamard layer and never names a qubit
        outside the register. */
    ghost predicate CircuitValid()
      reads this
    {
      && qubitCount == CELL_COUNT
      && |circuit| >= CELL_COUNT
      && circuit[..CELL_COUNT] == HadamardLayer(CELL_COUNT)
      && AllWithin(circuit, qubitCount)
    }

    /** Every ship sits on two neighbouring cells of the board, and the
        circuit holds the gates that entangled its qubits. */
    ghost predicate ShipsValid()
      reads this
    {
      forall bs :: bs in ships ==>
        ShipPlaced(ships[bs]) && ContainsBlock(circuit, ShipGates(ships[bs], bs))
    }

    ghost predicate Valid()
      reads this
    {
      && CircuitValid()
      && clbitCount == CELL_COUNT
      && |board| == BOARD_SIZE
      && (forall r :: 0 <= r < |board| ==> |board[r]| == BOARD_SIZE)
      && ShipsValid()
    }

    /** A board of zeros with no ships and nothing measured, whose circuit
        puts every qubit in superposition with one Hadamard gate each, in
        row-major cell order. */
    constructor ()
      ensures Valid()
      ensures board == EmptyGrid() && ships == map[] && measured == []
      ensures circuit == HadamardLayer(CELL_COUNT)
    {
      qubitCount := CELL_COUNT;
      clbitCount := CELL_COUNT;
      var rows: seq<seq<int>> := [];
      var gates: seq<Gate> := [];
      var i := 0;
      while i < BOARD_SIZE
        invariant 0 <= i <= BOARD_SIZE
        invariant rows == seq(i, _ => ZeroRow())
        invariant gates == HadamardLayer(i * BOARD_SIZE)
      {
        rows := rows + [seq(BOARD_SIZE, _ => 0)];
        var j := 0;
        while j < BOARD_SIZE
          invariant 0 <= j <= BOARD_SIZE
          invariant gates == HadamardLayer(i * BOARD_SIZE + j)
        {
          gates := gates + [H(i * BOARD_SIZE + j)];
          j := j + 1;
        }
        i := i + 1;
      }
      board := rows;
      ships := map[];
      measured := [];
      circuit := gates;
    }

    /** Appends the gates that prepare Bell state `bs` on the two qubits:
        a CX, then X, Z, or X and Z on the first qubit. */
    method MakeBellState(ship1: nat, ship2: nat, bs: BellState)
      requires CircuitValid()
      requires ship1 < qubitCount && ship2 < qubitCount && ship1 != ship2
      modifies this`circuit
      ensures CircuitValid()
      ensures circuit == old(circuit) + BellGates(ship1, ship2, bs)
      ensures old(Valid()) ==> Valid()
    {
      ghost var before := circuit;
      circuit := circuit + [CX(ship1, ship2)];
      if bs == PsiPlus {
        circuit := circuit + [X(ship1)];
      } else if bs == PhiMinus {
        circuit := circuit + [Z(ship1)];
      } else if bs == PsiMinus {
        circuit := circuit + [X(ship1)];
        circuit := circuit + [Z(ship1)];
      }
      assert circuit == before + BellGates(ship1, ship2, bs);
      forall b | b in ships && old(ShipsValid())
        ensures ContainsBlock(circuit, ShipGates(ships[b], b))
      {
        ContainsBlockAppend(before, ShipGates(ships[b], b), BellGates(ship1, ship2, bs));
      }
    }

    /** Places the ship for `bs` on `[i, j]` and the neighbouring cell in
        direction `dir`, replacing any ship `bs` already had, and entangles
        the two cells' qubits. */
    method PlaceShip(bs: BellState, i: int, j: int, dir: Direction)
      requires Valid()
      requires InBounds(Cell(i, j)) && InBounds(OtherCell(Cell(i, j), dir))
      modifies this
      ensures Valid()
      ensures ships == old(ships)[bs := Ship(Cell(i, j), OtherCell(Cell(i, j), dir))]
      ensures circuit == old(circuit) + ShipGates(ships[bs], bs)
      ensures board == old(board) && measured == old(measured)
    {
      var otherIndex := OtherCell(Cell(i, j), dir);
      ships := ships[bs := Ship(Cell(i, j), otherIndex)];
      PlacementQubitsDistinct(Cell(i, j), dir);
      ghost var before := circuit;
      MakeBellState(Flatten(Cell(i, j)), Flatten(otherIndex), bs);
      forall b | b in ships
        ensures ShipPlaced(ships[b]) && ContainsBlock(circuit, ShipGates(ships[b], b))
      {
        if b == bs {
          ContainsBlockSuffix(before, ShipGates(ships[b], b));
        } else {
          ContainsBlockAppend(before, ShipGates(ships[b], b), BellGates(Flatten(Cell(i, j)), Flatten(otherIndex), bs));
        }
      }
    }

    /** The board as text: a separator line, then each row's cells as `|v`,
        a closing `|`, a newline and another separator line. */
    method Render() returns (st: string)
      ensures st == Rendered(board)
    {
      st := Separator();
      var r := 0;
      while r < |board|
        invariant 0 <= r <= |board|
        invariant st == Rendered(board[..r])
      {
        var row := board[r];
        var c := 0;
        while c < |row|
          invariant 0 <= c <= |row|
          invariant st == Rendered(board[..r]) + RowCells(row[..c])
        {
          RowCellsSnoc(Rendered(board[..r]), row, c);
          st := st + "|" + IntToString(row[c]);
          c := c + 1;
        }
        assert row[..c] == row;
        RenderedSnoc(board, r);
        st := st + "|\n";
        st := st + Separator();
        r := r + 1;
      }
      assert board[..r] == board;
    }
  }

  /** The text of a fresh board: separator lines and rows of `|0` cells
      alternate, and every cell reads back as 0. */
  lemma EmptyGridRendering(r: nat, c: nat)
    requires r < BOARD_SIZE && c < BOARD_SIZE
    ensures |Rendered(EmptyGrid())| == (2 * BOARD_SIZE + 1) * LINE_WIDTH
    ensures Line(Rendered(EmptyGrid()), 2 * r) == Separator()
    ensures Line(Rendered(EmptyGrid()), 2 * r + 1) == RowText(ZeroRow())
    ensures ReadCell(Rendered(EmptyGrid()), r, c) == 0
  {
    var rows := EmptyGrid();
    assert DigitGrid(rows) by {
      forall k | 0 <= k < |rows| ensures |rows[k]| == BOARD_SIZE && DigitRow(rows[k]) {
        assert rows[k] == ZeroRow();
      }
    }
    RenderedLayout(rows);
    assert (2 * r) % 2 == 0;
    assert (2 * r + 1) % 2 == 1 && (2 * r + 1) / 2 == r;
    RenderedCellRoundTrip(rows, r, c);
  }
}
