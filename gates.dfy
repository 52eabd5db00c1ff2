/** The quantum circuit as an append-only list of uninterpreted gate records,
    and the gate blocks the board appends to it. */
module Gates {
  import opened Geometry

  /** One gate appended to the circuit; only its kind and qubit indices are kept. */
  datatype Gate = H(q: nat) | CX(control: nat, target: nat) | X(q: nat) | Z(q: nat)

  /** The four Bell states a ship's two qubits can be prepared in. */
  datatype BellState = PhiPlus | PhiMinus | PsiPlus | PsiMinus

  /** Every qubit a gate acts on is below `n`. */
  predicate GateWithin(g: Gate, n: nat) {
    match g
    case H(q) => q < n
    case CX(c, t) => c < n && t < n
    case X(q) => q < n
    case Z(q) => q < n
  }

  predicate AllWithin(gates: seq<Gate>, n: nat) {
    forall k :: 0 <= k < |gates| ==> GateWithin(gates[k], n)
  }

  /** The initial layer: one Hadamard gate per qubit, in row-major cell order. */
  function HadamardLayer(n: nat): (gates: seq<Gate>)
    ensures |gates| == n
  {
    seq(n, (k: nat) => H(k))
  }

  /** The layer covers each qubit exactly once, and cell `[i, j]` gets its
      Hadamard gate at position `i * BOARD_SIZE + j`. */
  lemma HadamardLayerCoversEachQubitOnce(q: nat)
    requires q < CELL_COUNT
    ensures HadamardLayer(CELL_COUNT)[q] == H(q)
    ensures forall k :: 0 <= k < CELL_COUNT && HadamardLayer(CELL_COUNT)[k] == H(q) ==> k == q
    ensures forall c :: InBounds(c) ==> HadamardLayer(CELL_COUNT)[Flatten(c)] == H(Flatten(c))
  {
  }

  /** The gates that prepare Bell state `bs` on qubits `ship1` and `ship2`:
      a CX from the first to the second, then X, Z or X followed by Z on the first. */
  function BellGates(ship1: nat, ship2: nat, bs: BellState): (gates: seq<Gate>)
    ensures 1 <= |gates| <= 3 && gates[0] == CX(ship1, ship2)
    ensures forall k :: 1 <= k < |gates| ==> gates[k] in {X(ship1), Z(ship1)}
    ensures BellStateOf(gates) == Some(bs)
  {
    [CX(ship1, ship2)] +
    match bs
    case PhiPlus => []
    case PsiPlus => [X(ship1)]
    case PhiMinus => [Z(ship1)]
    case PsiMinus => [X(ship1), Z(ship1)]
  }

  /** Reads back which Bell state a gate block prepares, if it is one. */
  function BellStateOf(gates: seq<Gate>): Option<BellState>
  {
    if |gates| == 0 || !gates[0].CX? then None
    else
      var c := gates[0].control;
      if gates[1..] == [] then Some(PhiPlus)
      else if gates[1..] == [X(c)] then Some(PsiPlus)
      else if gates[1..] == [Z(c)] then Some(PhiMinus)
      else if gates[1..] == [X(c), Z(c)] then Some(PsiMinus)
      else None
  }

  /** Every block that reads back as a Bell state is the block for that state. */
  lemma BellStateOfInverse(gates: seq<Gate>, bs: BellState)
    requires BellStateOf(gates) == Some(bs)
    ensures gates == BellGates(gates[0].control, gates[0].target, bs)
  {
  }

  /** Distinct Bell states are prepared by distinct gate blocks. */
  lemma BellGatesInjective(s1: nat, s2: nat, bs1: BellState, bs2: BellState)
    requires BellGates(s1, s2, bs1) == BellGates(s1, s2, bs2)
    ensures bs1 == bs2
  {
    assert BellStateOf(BellGates(s1, s2, bs1)) == Some(bs1);
  }

  /** `block` occurs as a contiguous run of gates somewhere in `circuit`. */
  ghost predicate ContainsBlock(circuit: seq<Gate>, block: seq<Gate>) {
    exists k :: BlockAt(circuit, block, k)
  }

  /** `block` occurs in `circuit` starting at position `k`. */
  ghost predicate BlockAt(circuit: seq<Gate>, block: seq<Gate>, k: int) {
    0 <= k <= |circuit| - |block| && circuit[k..k + |block|] == block
  }

  /** Appending gates keeps every block already present. */
  lemma ContainsBlockAppend(circuit: seq<Gate>, block: seq<Gate>, suffix: seq<Gate>)
    requires ContainsBlock(circuit, block)
    ensures ContainsBlock(circuit + suffix, block)
  {
    var k :| BlockAt(circuit, block, k);
    assert (circuit + suffix)[k..k + |block|] == block;
    assert BlockAt(circuit + suffix, block, k);
  }

  /** The block just appended is present. */
  lemma ContainsBlockSuffix(circuit: seq<Gate>, block: seq<Gate>)
    ensures ContainsBlock(circuit + block, block)
  {
    assert (circuit + block)[|circuit|..|circuit| + |block|] == block;
    assert BlockAt(circuit + block, block, |circuit|);
  }
}
