/**
 * The two boards side by side: a set-based board and a bit-vector board with the same
 * dimensions and the same live coordinates see the same cells, count the same neighbours
 * and so give the same B3/S23 answer.
 */
module GridEquivalence {
  import opened Wrappers
  import opened Torus
  import HashGrid
  import BitGrid

  /** Same dimensions, same live coordinates. */
  ghost predicate SameBoard(h: HashGrid.Grid, b: BitGrid.Grid)
    reads h, b
  {
    h.numCols > 0 && h.numRows > 0 && b.Valid()
    && |b.cells| == h.numCols && |b.cells[0]| == h.numRows
    && h.LiveCoords() == b.LiveCoords()
  }

  /** Both boards hold the same state in every in-range cell. */
  lemma SameCell(h: HashGrid.Grid, b: BitGrid.Grid, col: nat, row: nat)
    requires SameBoard(h, b)
    requires col < h.numCols && row < h.numRows
    ensures h.Cell(col, row) == Some(b.Cell(col, row))
  {
  }

  /** The wrapped cell at any offset is alive on one board exactly when it is alive on the other. */
  lemma SameAliveAt(h: HashGrid.Grid, b: BitGrid.Grid, col: int, row: int)
    requires SameBoard(h, b)
    ensures h.AliveAt(h.cells, col, row) == BitGrid.AliveAt(b.cells, col, row)
  {
    SameCell(h, b, Wrap(col, h.numCols), Wrap(row, h.numRows));
  }

  /** Summing over any list of offsets gives the same count on both boards. */
  lemma {:induction false} SameCountOver(h: HashGrid.Grid, b: BitGrid.Grid, offs: seq<(int, int)>, col: nat, row: nat)
    requires SameBoard(h, b)
    ensures h.CountOver(h.cells, offs, col, row) == BitGrid.CountOver(b.cells, offs, col, row)
    decreases |offs|
  {
    if offs != [] {
      SameAliveAt(h, b, col + offs[0].0, row + offs[0].1);
      SameCountOver(h, b, offs[1..], col, row);
    }
  }

  /** Both boards count the same toroidal neighbours around every cell. */
  lemma SameToroidalCount(h: HashGrid.Grid, b: BitGrid.Grid, col: nat, row: nat)
    requires SameBoard(h, b)
    ensures h.ToroidalCount(h.cells, col, row) == BitGrid.ToroidalCount(b.cells, col, row)
  {
    SameCountOver(h, b, Offsets, col, row);
  }

  /** `rule_result` of the two boards agrees on every coordinate, on the board and off it. */
  method SameRuleResult(h: HashGrid.Grid, b: BitGrid.Grid, col: nat, row: nat) returns (x: Option<bool>, y: Option<bool>)
    requires SameBoard(h, b) && h.numCols >= 2 && h.numRows >= 2
    ensures x == y
    ensures x.None? <==> !(col < h.numCols && row < h.numRows)
  {
    x := h.RuleResult(col, row);
    y := b.RuleResult(col, row);
    if col < h.numCols && row < h.numRows {
      SameCell(h, b, col, row);
      SameToroidalCount(h, b, col, row);
    }
  }
}
