/**
 * The set-based board of the SFML front end: live cells are kept as a set of row-major keys
 * `num_cols * row + col`. Neighbours are counted with nine hand-written boundary cases
 * (interior, four edges, four corners), which are proved here to agree with the uniform
 * toroidal count over the eight offsets of module Torus.
 */
module HashGrid {
  import opened Wrappers
  import opened Torus

  class Grid {
    /** Keys of the live cells. */
    var cells: set<nat>
    const numCols: nat
    const numRows: nat

    /** Every stored key names a cell of the board. */
    ghost predicate Valid()
      reads this
    {
      forall k :: k in cells ==> k < numCols * numRows
    }

    /** A new board of `boardSize.0` columns and `boardSize.1` rows, all cells dead. */
    constructor (boardSize: (nat, nat))
      ensures numCols == boardSize.0 && numRows == boardSize.1
      ensures cells == {}
      ensures Valid()
    {
      cells := {};
      numCols := boardSize.0;
      numRows := boardSize.1;
    }

    predicate InRange(col: nat, row: nat) {
      col < numCols && row < numRows
    }

    /** `coord_to_key`: for an in-range column, `key_to_coord` gives the coordinate back. */
    function CoordToKey(col: nat, row: nat): (key: nat)
      ensures col < numCols ==> KeyToCoord(key) == (col, row)
    {
      var key := numCols * row + col;
      if col < numCols then (DivModUnique(key, numCols, row, col); key) else key
    }

    /** `key_to_coord`: a column below `num_cols` and a row that rebuild the key. */
    function KeyToCoord(key: nat): (c: (nat, nat))
      requires numCols > 0
      ensures c.0 < numCols && numCols * c.1 + c.0 == key
    {
      var row := key / numCols;
      var col := key - row * numCols;
      (col, row)
    }

    /** The key of an in-range cell names a cell of the board. */
    lemma KeyInBoard(col: nat, row: nat)
      requires InRange(col, row)
      ensures CoordToKey(col, row) < numCols * numRows
    {
      assert numCols * row + col < numCols * (row + 1);
      MulMonotone(numCols, row + 1, numRows);
    }

    /** On a board with at least one column, encoding a decoded key gives the key back. */
    lemma {:induction false} KeyRoundTrip(key: nat)
      requires numCols > 0
      ensures KeyToCoord(key).0 < numCols
      ensures CoordToKey(KeyToCoord(key).0, KeyToCoord(key).1) == key
    {
      var row := key / numCols;
      assert key == numCols * row + key % numCols;
    }

    /** Two coordinates with in-range columns share a key only when they are equal. */
    lemma KeyInjective(c1: nat, r1: nat, c2: nat, r2: nat)
      requires c1 < numCols && c2 < numCols
      requires CoordToKey(c1, r1) == CoordToKey(c2, r2)
      ensures c1 == c2 && r1 == r2
    {
    }

    /** The board seen as coordinates instead of keys. */
    ghost function LiveCoords(): set<(nat, nat)>
      reads this
      requires numCols > 0
    {
      set k | k in cells :: KeyToCoord(k)
    }

    /** State of a cell: None off the board, otherwise whether it is alive. */
    function Cell(col: nat, row: nat): (r: Option<bool>)
      reads this
      ensures r.Some? <==> InRange(col, row)
      ensures r.Some? ==> (r.value <==> (col, row) in LiveCoords())
    {
      if InRange(col, row) then
        assert CoordToKey(col, row) in cells ==> (col, row) in LiveCoords();
        assert (col, row) in LiveCoords() ==> CoordToKey(col, row) in cells by {
          if (col, row) in LiveCoords() {
            var k :| k in cells && KeyToCoord(k) == (col, row);
            KeyRoundTrip(k);
          }
        }
        Some(CoordToKey(col, row) in cells)
      else
        None
    }

    /** The live set after setting one cell: an in-range key is added or removed, anything else is ignored. */
    function Updated(live: set<nat>, col: nat, row: nat, value: bool): set<nat> {
      if !InRange(col, row) then live
      else if value then live + {CoordToKey(col, row)}
      else live - {CoordToKey(col, row)}
    }

    /** Setting a cell twice to the same value is the same as setting it once. */
    lemma UpdatedIdempotent(live: set<nat>, col: nat, row: nat, value: bool)
      ensures Updated(Updated(live, col, row, value), col, row, value) == Updated(live, col, row, value)
    {
    }

    /** Set one cell alive or dead; an out-of-range coordinate changes nothing. */
    method SetCell(col: nat, row: nat, value: bool)
      requires Valid()
      modifies this
      ensures Valid()
      ensures cells == Updated(old(cells), col, row, value)
      ensures InRange(col, row) ==> Cell(col, row) == Some(value)
      ensures forall c: nat, r: nat :: (c, r) != (col, row) ==> Cell(c, r) == old(Cell(c, r))
    {
      if col < numCols && row < numRows {
        var key := CoordToKey(col, row);
        KeyInBoard(col, row);
        if value {
          cells := cells + {key};
        } else {
          cells := cells - {key};
        }
        forall c: nat, r: nat | (c, r) != (col, row) && InRange(c, r)
          ensures (CoordToKey(c, r) in cells) == (CoordToKey(c, r) in old(cells))
        {
          if CoordToKey(c, r) == key {
            KeyInjective(c, r, col, row);
          }
        }
      }
    }

    /** Whether the cell at (col + dc, row + dr), wrapped around the torus, is alive. */
    function AliveAt(live: set<nat>, col: int, row: int): bool
      requires numCols > 0 && numRows > 0
    {
      CoordToKey(Wrap(col, numCols), Wrap(row, numRows)) in live
    }

    /** Live cells among the offsets `offs` around (col, row). */
    function CountOver(live: set<nat>, offs: seq<(int, int)>, col: nat, row: nat): (n: nat)
      requires numCols > 0 && numRows > 0
      ensures n <= |offs|
    {
      if offs == [] then 0
      else Bit(AliveAt(live, col + offs[0].0, row + offs[0].1)) + CountOver(live, offs[1..], col, row)
    }

    /** The uniform toroidal neighbour count: the sum over the eight offsets. */
    function ToroidalCount(live: set<nat>, col: nat, row: nat): nat
      requires numCols > 0 && numRows > 0
    {
      CountOver(live, Offsets, col, row)
    }

    /** Keys in `keys` that are live, summed from the front as the counting loop does. */
    function CountKeys(live: set<nat>, keys: seq<nat>): (n: nat)
      ensures n <= |keys|
    {
      CountFirst(live, keys, |keys|)
    }

    /** How many of the first `k` keys are live. */
    function CountFirst(live: set<nat>, keys: seq<nat>, k: nat): (n: nat)
      requires k <= |keys|
      ensures n <= k
    {
      if k == 0 then 0 else CountFirst(live, keys, k - 1) + Bit(keys[k - 1] in live)
    }

    lemma CountKeysEight(live: set<nat>, ks: seq<nat>)
      requires |ks| == 8
      ensures CountKeys(live, ks) == Bit(ks[0] in live) + Bit(ks[1] in live) + Bit(ks[2] in live)
        + Bit(ks[3] in live) + Bit(ks[4] in live) + Bit(ks[5] in live) + Bit(ks[6] in live) + Bit(ks[7] in live)
    {
      assert CountFirst(live, ks, 2) == Bit(ks[0] in live) + Bit(ks[1] in live);
      assert CountFirst(live, ks, 4) == CountFirst(live, ks, 2) + Bit(ks[2] in live) + Bit(ks[3] in live);
      assert CountFirst(live, ks, 6) == CountFirst(live, ks, 4) + Bit(ks[4] in live) + Bit(ks[5] in live);
      assert CountFirst(live, ks, 8) == CountFirst(live, ks, 6) + Bit(ks[6] in live) + Bit(ks[7] in live);
    }

    lemma ToroidalCountEight(live: set<nat>, col: nat, row: nat)
      requires numCols > 0 && numRows > 0
      ensures ToroidalCount(live, col, row) ==
        Bit(AliveAt(live, col + 1, row)) + Bit(AliveAt(live, col - 1, row))
        + Bit(AliveAt(live, col, row + 1)) + Bit(AliveAt(live, col, row - 1))
        + Bit(AliveAt(live, col + 1, row + 1)) + Bit(AliveAt(live, col - 1, row + 1))
        + Bit(AliveAt(live, col + 1, row - 1)) + Bit(AliveAt(live, col - 1, row - 1))
    {
      var o1 := [(-1, 0), (0, 1), (0, -1), (1, 1), (-1, 1), (1, -1), (-1, -1)];
      var o2 := [(0, 1), (0, -1), (1, 1), (-1, 1), (1, -1), (-1, -1)];
      var o3 := [(0, -1), (1, 1), (-1, 1), (1, -1), (-1, -1)];
      var o4 := [(1, 1), (-1, 1), (1, -1), (-1, -1)];
      var o5 := [(-1, 1), (1, -1), (-1, -1)];
      var o6 := [(1, -1), (-1, -1)];
      var o7 := [(-1, -1)];
      assert Offsets[1..] == o1 && o1[1..] == o2 && o2[1..] == o3 && o3[1..] == o4;
      assert o4[1..] == o5 && o5[1..] == o6 && o6[1..] == o7 && o7[1..] == [];
      assert CountOver(live, o7, col, row) == Bit(AliveAt(live, col - 1, row - 1));
      assert CountOver(live, o6, col, row) == Bit(AliveAt(live, col + 1, row - 1)) + CountOver(live, o7, col, row);
      assert CountOver(live, o5, col, row) == Bit(AliveAt(live, col - 1, row + 1)) + CountOver(live, o6, col, row);
      assert CountOver(live, o4, col, row) == Bit(AliveAt(live, col + 1, row + 1)) + CountOver(live, o5, col, row);
      assert CountOver(live, o3, col, row) == Bit(AliveAt(live, col, row - 1)) + CountOver(live, o4, col, row);
      assert CountOver(live, o2, col, row) == Bit(AliveAt(live, col, row + 1)) + CountOver(live, o3, col, row);
      assert CountOver(live, o1, col, row) == Bit(AliveAt(live, col - 1, row)) + CountOver(live, o2, col, row);
    }

    /** The counting loop of `num_neighbors`: how many of `keys` are live. */
    method CountLive(keys: seq<nat>) returns (n: nat)
      ensures n == CountKeys(cells, keys)
    {
      n := 0;
      for k := 0 to |keys|
        invariant n == CountFirst(cells, keys, k)
      {
        n := n + Bit(keys[k] in cells);
      }
    }

    /** The branch of `num_neighbors` for an interior cell: its eight keys, which count exactly the toroidal neighbours. */
    method InteriorKeys(col: nat, row: nat) returns (keys: seq<nat>)
      requires numCols >= 2 && numRows >= 2
      requires col > 0 && col < numCols - 1 && row > 0 && row < numRows - 1
      ensures |keys| == 8 && CountKeys(cells, keys) == ToroidalCount(cells, col, row)
    {
      keys := [0, 0, 0, 0, 0, 0, 0, 0];
      keys := keys[0 := CoordToKey(col + 1, row)];
      keys := keys[1 := CoordToKey(col - 1, row)];
      keys := keys[2 := CoordToKey(col, row + 1)];
      keys := keys[3 := CoordToKey(col, row - 1)];
      keys := keys[4 := CoordToKey(col + 1, row + 1)];
      keys := keys[5 := CoordToKey(col - 1, row + 1)];
      keys := keys[6 := CoordToKey(col + 1, row - 1)];
      keys := keys[7 := CoordToKey(col - 1, row - 1)];
      WrapSteps(col, numCols);
      WrapSteps(row, numRows);
      ToroidalCountEight(cells, col, row);
      CountKeysEight(cells, keys);
    }

    /** The branch of `num_neighbors` for a cell of the top row (not a corner): its eight keys, which count exactly the toroidal neighbours. */
    method TopEdgeKeys(col: nat, row: nat) returns (keys: seq<nat>)
      requires numCols >= 2 && numRows >= 2
      requires col > 0 && col < numCols - 1 && row == 0
      ensures |keys| == 8 && CountKeys(cells, keys) == ToroidalCount(cells, col, row)
    {
      keys := [0, 0, 0, 0, 0, 0, 0, 0];
      keys := keys[0 := CoordToKey(col, 1)];
      keys := keys[1 := CoordToKey(col + 1, 1)];
      keys := keys[2 := CoordToKey(col - 1, 1)];
      keys := keys[3 := CoordToKey(col - 1, 0)];
      keys := keys[4 := CoordToKey(col + 1, 0)];
      keys := keys[5 := CoordToKey(col, numRows - 1)];
      keys := keys[6 := CoordToKey(col + 1, numRows - 1)];
      keys := keys[7 := CoordToKey(col - 1, numRows - 1)];
      WrapSteps(col, numCols);
      WrapSteps(row, numRows);
      ToroidalCountEight(cells, col, row);
      CountKeysEight(cells, keys);
    }

    /** The branch of `num_neighbors` for a cell of the bottom row (not a corner): its eight keys, which count exactly the toroidal neighbours. */
    method BottomEdgeKeys(col: nat, row: nat) returns (keys: seq<nat>)
      requires numCols >= 2 && numRows >= 2
      requires col > 0 && col < numCols - 1 && row == numRows - 1
      ensures |keys| == 8 && CountKeys(cells, keys) == ToroidalCount(cells, col, row)
    {
      keys := [0, 0, 0, 0, 0, 0, 0, 0];
      keys := keys[0 := CoordToKey(col + 1, numRows - 2)];
      keys := keys[1 := CoordToKey(col, numRows - 2)];
      keys := keys[2 := CoordToKey(col - 1, numRows - 2)];
      keys := keys[3 := CoordToKey(col + 1, numRows - 1)];
      keys := keys[4 := CoordToKey(col - 1, numRows - 1)];
      keys := keys[5 := CoordToKey(col + 1, 0)];
      keys := keys[6 := CoordToKey(col, 0)];
      keys := keys[7 := CoordToKey(col - 1, 0)];
      WrapSteps(col, numCols);
      WrapSteps(row, numRows);
      ToroidalCountEight(cells, col, row);
      CountKeysEight(cells, keys);
    }

    /** The branch of `num_neighbors` for a cell of the left column (not a corner): its eight keys, which count exactly the toroidal neighbours. */
    method LeftEdgeKeys(col: nat, row: nat) returns (keys: seq<nat>)
      requires numCols >= 2 && numRows >= 2
      requires col == 0 && row > 0 && row < numRows - 1
      ensures |keys| == 8 && CountKeys(cells, keys) == ToroidalCount(cells, col, row)
    {
      keys := [0, 0, 0, 0, 0, 0, 0, 0];
      keys := keys[0 := CoordToKey(1, row + 1)];
      keys := keys[1 := CoordToKey(1, row)];
      keys := keys[2 := CoordToKey(1, row - 1)];
      keys := keys[3 := CoordToKey(0, row - 1)];
      keys := keys[4 := CoordToKey(0, row + 1)];
      keys := keys[5 := CoordToKey(numCols - 1, row + 1)];
      keys := keys[6 := CoordToKey(numCols - 1, row)];
      keys := keys[7 := CoordToKey(numCols - 1, row - 1)];
      WrapSteps(col, numCols);
      WrapSteps(row, numRows);
      ToroidalCountEight(cells, col, row);
      CountKeysEight(cells, keys);
    }

    /** The branch of `num_neighbors` for a cell of the right column (not a corner): its eight keys, which count exactly the toroidal neighbours. */
    method RightEdgeKeys(col: nat, row: nat) returns (keys: seq<nat>)
      requires numCols >= 2 && numRows >= 2
      requires col == numCols - 1 && row > 0 && row < numRows - 1
      ensures |keys| == 8 && CountKeys(cells, keys) == ToroidalCount(cells, col, row)
    {
      keys := [0, 0, 0, 0, 0, 0, 0, 0];
      keys := keys[0 := CoordToKey(numCols - 2, row + 1)];
      keys := keys[1 := CoordToKey(numCols - 2, row)];
      keys := keys[2 := CoordToKey(numCols - 2, row - 1)];
      keys := keys[3 := CoordToKey(numCols - 1, row - 1)];
      keys := keys[4 := CoordToKey(numCols - 1, row + 1)];
      keys := keys[5 := CoordToKey(0, row + 1)];
      keys := keys[6 := CoordToKey(0, row)];
      keys := keys[7 := CoordToKey(0, row - 1)];
      WrapSteps(col, numCols);
      WrapSteps(row, numRows);
      ToroidalCountEight(cells, col, row);
      CountKeysEight(cells, keys);
    }

    /** The branch of `num_neighbors` for a top-left corner: its eight keys, which count exactly the toroidal neighbours. */
    method TopLeftKeys(col: nat, row: nat) returns (keys: seq<nat>)
      requires numCols >= 2 && numRows >= 2
      requires col == 0 && row == 0
      ensures |keys| == 8 && CountKeys(cells, keys) == ToroidalCount(cells, col, row)
    {
      keys := [0, 0, 0, 0, 0, 0, 0, 0];
      keys := keys[0 := CoordToKey(1, 0)];
      keys := keys[1 := CoordToKey(1, 1)];
      keys := keys[2 := CoordToKey(0, 1)];
      keys := keys[3 := CoordToKey(0, numRows - 1)];
      keys := keys[4 := CoordToKey(1, numRows - 1)];
      keys := keys[5 := CoordToKey(numCols - 1, 0)];
      keys := keys[6 := CoordToKey(numCols - 1, 1)];
      keys := keys[7 := CoordToKey(numCols - 1, numRows - 1)];
      WrapSteps(col, numCols);
      WrapSteps(row, numRows);
      ToroidalCountEight(cells, col, row);
      CountKeysEight(cells, keys);
    }

    /** The branch of `num_neighbors` for a bottom-right corner: its eight keys, which count exactly the toroidal neighbours. */
    method BottomRightKeys(col: nat, row: nat) returns (keys: seq<nat>)
      requires numCols >= 2 && numRows >= 2
      requires col == numCols - 1 && row == numRows - 1
      ensures |keys| == 8 && CountKeys(cells, keys) == ToroidalCount(cells, col, row)
    {
      keys := [0, 0, 0, 0, 0, 0, 0, 0];
      keys := keys[0 := CoordToKey(numCols - 2, numRows - 1)];
      keys := keys[1 := CoordToKey(numCols - 2, numRows - 2)];
      keys := keys[2 := CoordToKey(numCols - 1, numRows - 2)];
      keys := keys[3 := CoordToKey(0, numRows - 2)];
      keys := keys[4 := CoordToKey(0, numRows - 1)];
      keys := keys[5 := CoordToKey(numCols - 1, 0)];
      keys := keys[6 := CoordToKey(numCols - 2, 0)];
      keys := keys[7 := CoordToKey(0, 0)];
      WrapSteps(col, numCols);
      WrapSteps(row, numRows);
      ToroidalCountEight(cells, col, row);
      CountKeysEight(cells, keys);
    }

    /** The branch of `num_neighbors` for a bottom-left corner: its eight keys, which count exactly the toroidal neighbours. */
    method BottomLeftKeys(col: nat, row: nat) returns (keys: seq<nat>)
      requires numCols >= 2 && numRows >= 2
      requires col == 0 && row == numRows - 1
      ensures |keys| == 8 && CountKeys(cells, keys) == ToroidalCount(cells, col, row)
    {
      keys := [0, 0, 0, 0, 0, 0, 0, 0];
      keys := keys[0 := CoordToKey(0, numRows - 2)];
      keys := keys[1 := CoordToKey(1, numRows - 2)];
      keys := keys[2 := CoordToKey(1, numRows - 1)];
      keys := keys[3 := CoordToKey(numCols - 1, 0)];
      keys := keys[4 := CoordToKey(0, 0)];
      keys := keys[5 := CoordToKey(1, 0)];
      keys := keys[6 := CoordToKey(numCols - 1, numRows - 1)];
      keys := keys[7 := CoordToKey(numCols - 1, numRows - 2)];
      WrapSteps(col, numCols);
      WrapSteps(row, numRows);
      ToroidalCountEight(cells, col, row);
      CountKeysEight(cells, keys);
    }

    /** The branch of `num_neighbors` for a top-right corner: its eight keys, which count exactly the toroidal neighbours. */
    method TopRightKeys(col: nat, row: nat) returns (keys: seq<nat>)
      requires numCols >= 2 && numRows >= 2
      requires col == numCols - 1 && row == 0
      ensures |keys| == 8 && CountKeys(cells, keys) == ToroidalCount(cells, col, row)
    {
      keys := [0, 0, 0, 0, 0, 0, 0, 0];
      keys := keys[0 := CoordToKey(numCols - 2, 0)];
      keys := keys[1 := CoordToKey(numCols - 2, 1)];
      keys := keys[2 := CoordToKey(numCols - 1, 1)];
      keys := keys[3 := CoordToKey(0, 0)];
      keys := keys[4 := CoordToKey(0, 1)];
      keys := keys[5 := CoordToKey(numCols - 1, numRows - 1)];
      keys := keys[6 := CoordToKey(numCols - 2, numRows - 1)];
      keys := keys[7 := CoordToKey(0, numRows - 1)];
      WrapSteps(col, numCols);
      WrapSteps(row, numRows);
      ToroidalCountEight(cells, col, row);
      CountKeysEight(cells, keys);
    }

    /**
     * The eight neighbour keys `num_neighbors` stores, counted against the live set. Returns
     * None exactly off the board; on the board the count is the toroidal one.
     */
    method NumNeighbors(col: nat, row: nat) returns (r: Option<nat>)
      requires numCols >= 2 && numRows >= 2
      ensures r.None? <==> !InRange(col, row)
      ensures r.Some? ==> r.value == ToroidalCount(cells, col, row) && r.value <= 8
    {
      var keys: seq<nat>;
      var C, R := numCols, numRows;
      if col > 0 && col < C - 1 && row > 0 && row < R - 1 {
        keys := InteriorKeys(col, row);
      } else if col > 0 && col < C - 1 && row == 0 {
        keys := TopEdgeKeys(col, row);
      } else if col > 0 && col < C - 1 && row == R - 1 {
        keys := BottomEdgeKeys(col, row);
      } else if col == 0 && row > 0 && row < R - 1 {
        keys := LeftEdgeKeys(col, row);
      } else if col == C - 1 && row > 0 && row < R - 1 {
        keys := RightEdgeKeys(col, row);
      } else if col == 0 && row == 0 {
        keys := TopLeftKeys(col, row);
      } else if col == C - 1 && row == R - 1 {
        keys := BottomRightKeys(col, row);
      } else if col == 0 && row == R - 1 {
        keys := BottomLeftKeys(col, row);
      } else if col == C - 1 && row == 0 {
        keys := TopRightKeys(col, row);
      } else {
        return None;
      }

      var n := CountLive(keys);
      r := Some(n);
    }

    /** B3/S23 applied to one cell: None off the board, otherwise the cell's next state. */
    method RuleResult(col: nat, row: nat) returns (r: Option<bool>)
      requires numCols >= 2 && numRows >= 2
      ensures r.None? <==> !InRange(col, row)
      ensures r.Some? ==> r.value == Rule(CoordToKey(col, row) in cells, ToroidalCount(cells, col, row))
    {
      var key := CoordToKey(col, row);
      var count := NumNeighbors(col, row);
      match count {
        case Some(numNeighbors) =>
          if key in cells {
            if numNeighbors < 2 || numNeighbors > 3 {
              return Some(false);
            } else {
              return Some(true);
            }
          } else {
            if numNeighbors == 3 {
              return Some(true);
            } else {
              return Some(false);
            }
          }
        case None => return None;
      }
    }
  }
}
