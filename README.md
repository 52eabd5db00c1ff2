# SuperMunition board, modelled in Dafny

SuperMunition is a battleship-style game. Each player's board is an 8 x 8 grid
with one qubit per cell. A ship covers two neighbouring cells, and their two
qubits are entangled in one of the four Bell states. That state is also the
ship's name: each player has at most one ship per Bell state.

This project models the `Board` class of `board.py`:

- **Construction.** It builds the grid of zeros, the empty ship dictionary and
  the empty measured list. Its circuit puts every qubit in superposition with
  one Hadamard gate, in row-major cell order.
- **Ship placement.** It finds the second cell from a direction and records
  the ship under its Bell state. It then entangles the two cells' qubits.
- **Bell-pair preparation.** It appends a CX gate, then X, Z or X followed by Z
  on the first qubit, depending on the Bell state.
- **Text rendering.** It draws the grid as text.

The quantum circuit is kept as the list of gates appended to it
(`Gates.Gate`: H, CX, X, Z with their qubit indices). Gates are records only.
Nothing here simulates their quantum meaning.

Files and modules:

- `geometry.dfy` (`Geometry`): cells, directions, neighbour computation, and
  row-major flattening of a cell to its qubit index.
- `gates.dfy` (`Gates`): gate records, Bell states, the Hadamard layer, and the
  gate block for each Bell state with its inverse.
- `text.dfy` (`Text`): integer formatting and the text layout of a grid, as
  functions, with lemmas on line structure and reading cells back.
- `board.dfy` (`Boards`): the `Board` class. `Board` updates its fields in
  place. Its methods carry `modifies` clauses and are proved against the
  functions above. Its invariant `Valid()` says five things. The grid has
  8 rows of 8 cells. Both registers have 64 places. The circuit starts with
  the Hadamard layer. The circuit only names qubits inside the 64-qubit
  register. Every ship sits on two neighbouring board cells, and its
  entangling block is in the circuit.

## Model

| member | source | states |
|---|---|---|
| Geometry.OtherCell | board.py:50-57 | the second cell is a 4-neighbour of `[i, j]`: it differs by exactly one in exactly one coordinate, and it is never `[i, j]` itself |
| Geometry.OtherCellDirection | board.py:50-57 | the direction can be read back from the two cells: UP gives `(i-1, j)`, DOWN `(i+1, j)`, LEFT `(i, j-1)`, RIGHT `(i, j+1)` |
| Geometry.AdjacentIffSomeDirection | board.py:50-57 | a cell is a 4-neighbour exactly when some direction produces it, and that direction does produce it |
| Geometry.OtherCellInjective | board.py:50-57 | different directions give different second cells |
| Geometry.Flatten | board.py:60 | for an in-bounds cell, `BOARD_SIZE * i + j` lies in `[0, BOARD_SIZE²)` and converts back to the same cell |
| Geometry.Unflatten | board.py:64-65 | every qubit index below `BOARD_SIZE²` stands for an in-bounds cell |
| Geometry.FlattenUnflatten | board.py:64-65 | qubit index to cell to qubit index gives back the same index: every qubit of the register is some cell's index |
| Geometry.FlattenInjective | board.py:60 | two in-bounds cells with the same qubit index are the same cell |
| Geometry.PlacementQubitsDistinct | board.py:49-60 | when both cells of a placement are in bounds, `make_bell_state` gets two different qubit indices, both inside the register |
| Geometry.OffBoardNeighbourAliases | board.py:49-60 | without a bounds check, the right neighbour of `[0, 7]` is off the board but gets the same qubit index as `[1, 0]` |
| Geometry.OffBoardNeighbourPastRegister | board.py:49-60 | without a bounds check, the lower neighbour of a cell in row 7 is off the board and flattens to an index of 64 or more, past the end of the register |
| Gates.HadamardLayer | board.py:28-32 | the initial layer has one gate per qubit |
| Gates.HadamardLayerCoversEachQubitOnce | board.py:28-32 | in the initial layer, qubit `q` gets its H gate at position `q`, and at no other position. Every in-bounds cell `[i, j]` gets the H gate on its own qubit at position `i * BOARD_SIZE + j` |
| Gates.BellGates | board.py:67-74 | the appended block starts with `CX(ship1, ship2)`, has 1 to 3 gates, and its other gates are X or Z on `ship1`. It reads back as the Bell state it was made for |
| Gates.BellStateOfInverse | board.py:67-74 | any block that reads back as a Bell state is exactly that state's block: CX alone for PHIPLUS, CX then X for PSIPLUS, CX then Z for PHIMINUS, CX then X then Z for PSIMINUS |
| Gates.BellGatesInjective | board.py:67-74 | different Bell states append different gate blocks |
| Text.NatToString | board.py:43 | the decimal form of a cell value is non-empty and made of digits. It is one digit exactly when the value is below 10, and it starts with `0` only for the value 0, so there are no leading zeros |
| Text.ParseNatToString | board.py:43 | reading the decimal digits back gives the number |
| Text.IntToString | board.py:43 | a formatted value starts with `-` exactly when it is negative, and with a digit otherwise. Every later character is a digit. The first digit is `0` only when the whole text is `0`, so there are no leading zeros and no `-0` |
| Text.IntToStringRoundTrip | board.py:43 | formatting a cell value loses nothing: parsing the text gives the value back |
| Text.Separator | board.py:40 | a separator line is `2*BOARD_SIZE+1` dashes and a newline |
| Text.RowCellsSnoc | board.py:42-43 | each cell of a row adds `\|` and the cell's value to the row text |
| Text.RenderedSnoc | board.py:41-45 | each row adds its cells, then `\|` and a newline, then a separator line |
| Text.RenderedFramed | board.py:40-46 | whatever the cell values, the text starts with a separator line and ends with one |
| Text.RowCellsLayout | board.py:42-43 | for single-digit values, the row text has two characters per cell: `\|` and then the cell's digit |
| Text.RowTextLayout | board.py:42-44 | a row of BOARD_SIZE single-digit cells is one line of `2*BOARD_SIZE+2` characters: `\|` and the digit per cell, then `\|` and a newline |
| Text.LayoutLinesShape | board.py:40-46 | the intended line list of R rows has `2R+1` lines: a separator on every even line, and row `r`'s line `\|v...\|` on line `2r+1` |
| Text.RenderedIsLayout | board.py:40-46 | for single-digit cells, the text is exactly those lines, each `2*BOARD_SIZE+2` characters long, in order |
| Text.RenderedLayout | board.py:40-46 | for R rows of single-digit cells, the text has `2R+1` equal-width lines. The even lines are separators, so the full board has BOARD_SIZE+1 of them. Line `2r+1` is row `r`, so the full board has BOARD_SIZE row lines |
| Text.RenderedRowLine | board.py:41-45 | row `r` of a single-digit grid is line `2r+1` of its text |
| Text.ReadCellFromRowLine | board.py:42-43 | the character after the `c`-th `\|` of a row line is cell `c`'s digit |
| Text.RenderedCellRoundTrip | board.py:36-46 | every single-digit cell `[r, c]` can be read back from the rendered text |
| Boards.Board.constructor | board.py:20-32 | the new board is BOARD_SIZE rows of BOARD_SIZE zeros. `ships` and `measured` are empty, and both registers have `BOARD_SIZE²` places. The circuit is exactly one H gate per qubit, in row-major order |
| Boards.Board.MakeBellState | board.py:62-74 | the old gates are unchanged and the Bell-state block is appended after them. The invariant that the circuit only names qubits in the register still holds, and a board that was valid stays valid: every ship's block is still in the circuit |
| Boards.Board.PlaceShip | board.py:48-60 | `ships[bs]` becomes `[[i, j], other]` and every other key keeps its ship, so placing `bs` again overwrites it. The circuit gets that ship's Bell block appended. `board` and `measured` are unchanged. The board invariant is preserved: every ship is on two neighbouring in-bounds cells, and its block is in the circuit |
| Boards.Board.Render | board.py:36-46 | the nested loops that build the text produce exactly the layout of `Text.Rendered` for the current grid |
| Boards.EmptyGridRendering | board.py:20-46 | a fresh board renders as `2*BOARD_SIZE+1` lines. Separator lines alternate with rows of `\|0` cells, and every cell reads back as 0 |

## Left out

- `game.py` is not part of this model. It is the console front end: input prompts, printing, and an endless loop. It also always places the ship downwards, whatever direction the user typed.
- The quantum meaning of the circuit is not modelled: state vectors, measurement and outcome probabilities all belong to the circuit library. The registers are modelled only by their sizes (`qubitCount`, `clbitCount`).
- `print(self.qc)` at the end of construction (board.py:34) is console output and is left out. The unused imports of numpy, matplotlib and pylatexenc (board.py:2-4) are also left out. The qiskit classes imported at board.py:1 are used, and appear here as the register sizes and the gate list.
- `measured` is only ever set to an empty list. Its element type is not fixed by the source, so it is modelled as a sequence of cells.
- Boards.Board.PlaceShip: requires both cells to be on the board. The source does not check this (the note at board.py:49), and it stores `ships[bs]` (board.py:59) before it touches the circuit. When the flattened index of an off-board cell is still inside the 64-qubit register, the source entangles that other qubit: a wrapped cell, as `Geometry.OffBoardNeighbourAliases` shows, or for a negative index a qubit counted from the end of the register. When the index is 64 or more, as for `[7, j]` DOWN or `[7, 7]` RIGHT (`Geometry.OffBoardNeighbourPastRegister`), the register lookup at board.py:67 raises an error. The ship then stays recorded in `ships` with no gates appended, which breaks the rule that every ship's Bell block is in the circuit. None of these off-board behaviours is modelled.
- Boards.Board.MakeBellState: requires two distinct qubit indices inside the register. The circuit library raises an error otherwise. The error path and negative, counted-from-the-end indices are not modelled.
- The cell-by-cell layout lemmas (`Text.RenderedLayout`, `Text.RenderedCellRoundTrip`) cover cells that hold one decimal digit. This includes every board the source builds, since the grid only ever holds zeros. For other values, `Boards.Board.Render` still equals `Text.Rendered`, and `Text.RenderedFramed` and `Text.IntToStringRoundTrip` still apply.
- board.py has no attack resolution, resampling, entanglement swap or history code, so none is modelled. Placement never rejects a ship: it overwrites the earlier ship of the same Bell state and checks neither overlap nor bounds. An off-board cell can still make the register lookup raise, as the `Boards.Board.PlaceShip` line above says.
