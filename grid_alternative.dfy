/**
 * The bit-vector board of the SFML front end: a vector of columns, each a bit vector of rows,
 * indexed `cells[col][row]`. The dimensions are not stored; they are the number of columns
 * and the length of the first column. Neighbours are counted with the same nine boundary cases
 * as the set-based board, each proved here to add up exactly the eight toroidal neighbours.
 */
module BitGrid {
  import opened Wrappers
  import opened Torus

  /** A column-major board: every column as long as the first. */
  predicate IsBoard(g: seq<seq<bool>>) {
    forall c | 0 <= c < |g| :: |g[c]| == |g[0]|
  }

  /** The `BitVec` of `n` bits, all cleared. */
  function Cleared(n: nat): (bits: seq<bool>)
    ensures |bits| == n && forall r | 0 <= r < n :: !bits[r]
  {
    seq(n, _ => false)
  }

  /** Whether the cell at (col, row), wrapped around the torus, is alive. */
  function AliveAt(g: seq<seq<bool>>, col: int, row: int): bool
    requires IsBoard(g) && |g| > 0 && |g[0]| > 0
  {
    g[Wrap(col, |g|)][Wrap(row, |g[0]|)]
  }

  /** Live cells among the offsets `offs` around (col, row). */
  function CountOver(g: seq<seq<bool>>, offs: seq<(int, int)>, col: nat, row: nat): (n: nat)
    requires IsBoard(g) && |g| > 0 && |g[0]| > 0
    ensures n <= |offs|
  {
    if offs == [] then 0
    else Bit(AliveAt(g, col + offs[0].0, row + offs[0].1)) + CountOver(g, offs[1..], col, row)
  }

  /** The uniform toroidal neighbour count: the sum over the eight offsets. */
  function ToroidalCount(g: seq<seq<bool>>, col: nat, row: nat): nat
    requires IsBoard(g) && |g| > 0 && |g[0]| > 0
  {
    CountOver(g, Offsets, col, row)
  }

  lemma ToroidalCountEight(g: seq<seq<bool>>, col: nat, row: nat)
    requires IsBoard(g) && |g| > 0 && |g[0]| > 0
    ensures ToroidalCount(g, col, row) ==
      Bit(AliveAt(g, col + 1, row)) + Bit(AliveAt(g, col - 1, row))
      + Bit(AliveAt(g, col, row + 1)) + Bit(AliveAt(g, col, row - 1))
      + Bit(AliveAt(g, col + 1, row + 1)) + Bit(AliveAt(g, col - 1, row + 1))
      + Bit(AliveAt(g, col + 1, row - 1)) + Bit(AliveAt(g, col - 1, row - 1))
  {
    var o1 := [(-1, 0), (0, 1), (0, -1), (1, 1), (-1, 1), (1, -1), (-1, -1)];
    var o2 := [(0, 1), (0, -1), (1, 1), (-1, 1), (1, -1), (-1, -1)];
    var o3 := [(0, -1), (1, 1), (-1, 1), (1, -1), (-1, -1)];
    var o4 := [(1, 1), (-1, 1), (1, -1), (-1, -1)];
    var o5 := [(-1, 1), (1, -1), (-1, -1)];
    var o6 := [(1, -1), (-1, -1)];
    var o7 := [(-1, -1)];
    assert Offsets[1..] == o1 && o1[1..] == o2 && o2[1..] == o3 && o3[1..] == o4;
    assert o4[1..] == o5 && o5[1..] == o6 && o6[1..] == o7 && o7[1..] == [];
    assert CountOver(g, o7, col, row) == Bit(AliveAt(g, col - 1, row - 1));
    assert CountOver(g, o6, col, row) == Bit(AliveAt(g, col + 1, row - 1)) + CountOver(g, o7, col, row);
    assert CountOver(g, o5, col, row) == Bit(AliveAt(g, col - 1, row + 1)) + CountOver(g, o6, col, row);
    assert CountOver(g, o4, col, row) == Bit(AliveAt(g, col + 1, row + 1)) + CountOver(g, o5, col, row);
    assert CountOver(g, o3, col, row) == Bit(AliveAt(g, col, row - 1)) + CountOver(g, o4, col, row);
    assert CountOver(g, o2, col, row) == Bit(AliveAt(g, col, row + 1)) + CountOver(g, o3, col, row);
    assert CountOver(g, o1, col, row) == Bit(AliveAt(g, col - 1, row)) + CountOver(g, o2, col, row);
  }

  class Grid {
    /** Column-major cell states: `cells[col][row]`. */
    var cells: seq<seq<bool>>

    ghost predicate Valid()
      reads this
    {
      IsBoard(cells)
    }

    function NumCols(): nat
      reads this
    {
      |cells|
    }

    /** The length of the first column (read from `cells[0]`, so a board needs a column). */
    function NumRows(): nat
      reads this
      requires |cells| > 0
    {
      |cells[0]|
    }

    /** The board seen as the set of live coordinates. */
    ghost function LiveCoords(): set<(nat, nat)>
      reads this
    {
      set c: nat, r: nat | c < |cells| && r < |cells[c]| && cells[c][r] :: (c, r)
    }

    /** A new board of `boardSize.0` columns of `boardSize.1` cleared bits each. */
    constructor (boardSize: (nat, nat))
      ensures Valid()
      ensures |cells| == boardSize.0
      ensures forall c | 0 <= c < |cells| :: cells[c] == Cleared(boardSize.1)
      ensures LiveCoords() == {}
    {
      cells := seq(boardSize.0, _ => Cleared(boardSize.1));
    }

    /** The state of an in-range cell (indexed without a check, so off the board it panics). */
    function Cell(col: nat, row: nat): (alive: bool)
      reads this
      requires Valid() && col < NumCols() && row < NumRows()
      ensures alive <==> (col, row) in LiveCoords()
    {
      cells[col][row]
    }

    /** Set one in-range cell; every other cell keeps its state. */
    method SetCell(col: nat, row: nat, value: bool)
      requires Valid() && col < NumCols() && row < NumRows()
      modifies this
      ensures Valid()
      ensures cells == old(cells)[col := old(cells)[col][row := value]]
      ensures Cell(col, row) == value
      ensures LiveCoords() == if value then old(LiveCoords()) + {(col, row)} else old(LiveCoords()) - {(col, row)}
    {
      cells := cells[col := cells[col][row := value]];
      assert LiveCoords() == if value then old(LiveCoords()) + {(col, row)} else old(LiveCoords()) - {(col, row)} by {
        forall c: nat, r: nat | c < |cells| && r < |cells[c]|
          ensures cells[c][r] == if (c, r) == (col, row) then value else old(cells)[c][r]
        {
        }
      }
    }

    /** The branch of `num_neighbors` for an interior cell: its eight additions, in order. */
    method InteriorCount(col: nat, row: nat) returns (n: nat)
      requires Valid() && NumCols() >= 2 && NumRows() >= 2
      requires col > 0 && col < NumCols() - 1 && row > 0 && row < NumRows() - 1
      ensures n == ToroidalCount(cells, col, row)
    {
      WrapSteps(col, |cells|);
      WrapSteps(row, |cells[0]|);
      ToroidalCountEight(cells, col, row);
      n := 0;
      n := n + Bit(cells[col + 1][row]);
      n := n + Bit(cells[col - 1][row]);
      n := n + Bit(cells[col][row + 1]);
      n := n + Bit(cells[col][row - 1]);
      n := n + Bit(cells[col + 1][row + 1]);
      n := n + Bit(cells[col - 1][row + 1]);
      n := n + Bit(cells[col + 1][row - 1]);
      n := n + Bit(cells[col - 1][row - 1]);
    }

    /** The branch of `num_neighbors` for a cell of the top row (not a corner): its eight additions, in order. */
    method TopEdgeCount(col: nat, row: nat) returns (n: nat)
      requires Valid() && NumCols() >= 2 && NumRows() >= 2
      requires col > 0 && col < NumCols() - 1 && row == 0
      ensures n == ToroidalCount(cells, col, row)
    {
      var R := |cells[0]|;
      WrapSteps(col, |cells|);
      WrapSteps(row, |cells[0]|);
      ToroidalCountEight(cells, col, row);
      n := 0;
      n := n + Bit(cells[col][1]);
      n := n + Bit(cells[col + 1][1]);
      n := n + Bit(cells[col - 1][1]);
      n := n + Bit(cells[col - 1][0]);
      n := n + Bit(cells[col + 1][0]);
      n := n + Bit(cells[col][R - 1]);
      n := n + Bit(cells[col + 1][R - 1]);
      n := n + Bit(cells[col - 1][R - 1]);
    }

    /** The branch of `num_neighbors` for a cell of the bottom row (not a corner): its eight additions, in order. */
    method BottomEdgeCount(col: nat, row: nat) returns (n: nat)
      requires Valid() && NumCols() >= 2 && NumRows() >= 2
      requires col > 0 && col < NumCols() - 1 && row == NumRows() - 1
      ensures n == ToroidalCount(cells, col, row)
    {
      var R := |cells[0]|;
      WrapSteps(col, |cells|);
      WrapSteps(row, |cells[0]|);
      ToroidalCountEight(cells, col, row);
      n := 0;
      n := n + Bit(cells[col + 1][R - 2]);
      n := n + Bit(cells[col][R - 2]);
      n := n + Bit(cells[col - 1][R - 2]);
      n := n + Bit(cells[col + 1][R - 1]);
      n := n + Bit(cells[col - 1][R - 1]);
      n := n + Bit(cells[col + 1][0]);
      n := n + Bit(cells[col][0]);
      n := n + Bit(cells[col - 1][0]);
    }

    /** The branch of `num_neighbors` for a cell of the left column (not a corner): its eight additions, in order. */
    method LeftEdgeCount(col: nat, row: nat) returns (n: nat)
      requires Valid() && NumCols() >= 2 && NumRows() >= 2
      requires col == 0 && row > 0 && row < NumRows() - 1
      ensures n == ToroidalCount(cells, col, row)
    {
      var C := |cells|;
      WrapSteps(col, |cells|);
      WrapSteps(row, |cells[0]|);
      ToroidalCountEight(cells, col, row);
      n := 0;
      n := n + Bit(cells[1][row + 1]);
      n := n + Bit(cells[1][row]);
      n := n + Bit(cells[1][row - 1]);
      n := n + Bit(cells[0][row - 1]);
      n := n + Bit(cells[0][row + 1]);
      n := n + Bit(cells[C - 1][row + 1]);
      n := n + Bit(cells[C - 1][row]);
      n := n + Bit(cells[C - 1][row - 1]);
    }

    /** The branch of `num_neighbors` for a cell of the right column (not a corner): its eight additions, in order. */
    method RightEdgeCount(col: nat, row: nat) returns (n: nat)
      requires Valid() && NumCols() >= 2 && NumRows() >= 2
      requires col == NumCols() - 1 && row > 0 && row < NumRows() - 1
      ensures n == ToroidalCount(cells, col, row)
    {
      var C := |cells|;
      WrapSteps(col, |cells|);
      WrapSteps(row, |cells[0]|);
      ToroidalCountEight(cells, col, row);
      n := 0;
      n := n + Bit(cells[C - 2][row + 1]);
      n := n + Bit(cells[C - 2][row]);
      n := n + Bit(cells[C - 2][row - 1]);
      n := n + Bit(cells[C - 1][row - 1]);
      n := n + Bit(cells[C - 1][row + 1]);
      n := n + Bit(cells[0][row + 1]);
      n := n + Bit(cells[0][row]);
      n := n + Bit(cells[0][row - 1]);
    }

    /** The branch of `num_neighbors` for the top-left corner: its eight additions, in order. */
    method TopLeftCount(col: nat, row: nat) returns (n: nat)
      requires Valid() && NumCols() >= 2 && NumRows() >= 2
      requires col == 0 && row == 0
      ensures n == ToroidalCount(cells, col, row)
    {
      var C := |cells|;
      var R := |cells[0]|;
      WrapSteps(col, |cells|);
      WrapSteps(row, |cells[0]|);
      ToroidalCountEight(cells, col, row);
      n := 0;
      n := n + Bit(cells[1][0]);
      n := n + Bit(cells[1][1]);
      n := n + Bit(cells[0][1]);
      n := n + Bit(cells[0][R - 1]);
      n := n + Bit(cells[1][R - 1]);
      n := n + Bit(cells[C - 1][0]);
      n := n + Bit(cells[C - 1][1]);
      n := n + Bit(cells[C - 1][R - 1]);
    }

    /** The branch of `num_neighbors` for the bottom-right corner: its eight additions, in order. */
    method BottomRightCount(col: nat, row: nat) returns (n: nat)
      requires Valid() && NumCols() >= 2 && NumRows() >= 2
      requires col == NumCols() - 1 && row == NumRows() - 1
      ensures n == ToroidalCount(cells, col, row)
    {
      var C := |cells|;
      var R := |cells[0]|;
      WrapSteps(col, |cells|);
      WrapSteps(row, |cells[0]|);
      ToroidalCountEight(cells, col, row);
      n := 0;
      n := n + Bit(cells[C - 2][R - 1]);
      n := n + Bit(cells[C - 2][R - 2]);
      n := n + Bit(cells[C - 1][R - 2]);
      n := n + Bit(cells[0][R - 2]);
      n := n + Bit(cells[0][R - 1]);
      n := n + Bit(cells[C - 1][0]);
      n := n + Bit(cells[C - 2][0]);
      n := n + Bit(cells[0][0]);
    }

    /** The branch of `num_neighbors` for the bottom-left corner: its eight additions, in order. */
    method BottomLeftCount(col: nat, row: nat) returns (n: nat)
      requires Valid() && NumCols() >= 2 && NumRows() >= 2
      requires col == 0 && row == NumRows() - 1
      ensures n == ToroidalCount(cells, col, row)
    {
      var C := |cells|;
      var R := |cells[0]|;
      WrapSteps(col, |cells|);
      WrapSteps(row, |cells[0]|);
      ToroidalCountEight(cells, col, row);
      n := 0;
      n := n + Bit(cells[0][R - 2]);
      n := n + Bit(cells[1][R - 2]);
      n := n + Bit(cells[1][R - 1]);
      n := n + Bit(cells[C - 1][0]);
      n := n + Bit(cells[0][0]);
      n := n + Bit(cells[1][0]);
      n := n + Bit(cells[C - 1][R - 1]);
      n := n + Bit(cells[C - 1][R - 2]);
    }

    /** The branch of `num_neighbors` for the top-right corner: its eight additions, in order. */
    method TopRightCount(col: nat, row: nat) returns (n: nat)
      requires Valid() && NumCols() >= 2 && NumRows() >= 2
      requires col == NumCols() - 1 && row == 0
      ensures n == ToroidalCount(cells, col, row)
    {
      var C := |cells|;
      var R := |cells[0]|;
      WrapSteps(col, |cells|);
      WrapSteps(row, |cells[0]|);
      ToroidalCountEight(cells, col, row);
      n := 0;
      n := n + Bit(cells[C - 2][0]);
      n := n + Bit(cells[C - 2][1]);
      n := n + Bit(cells[C - 1][1]);
      n := n + Bit(cells[0][0]);
      n := n + Bit(cells[0][1]);
      n := n + Bit(cells[C - 1][R - 1]);
      n := n + Bit(cells[C - 2][R - 1]);
      n := n + Bit(cells[0][R - 1]);
    }

    /** The eight neighbour states added up; None exactly off the board, otherwise the toroidal count. */
    method NumNeighbors(col: nat, row: nat) returns (r: Option<nat>)
      requires Valid() && NumCols() >= 2 && NumRows() >= 2
      ensures r.None? <==> !(col < NumCols() && row < NumRows())
      ensures r.Some? ==> r.value == ToroidalCount(cells, col, row) && r.value <= 8
    {
      var C := |cells|;
      var R := |cells[0]|;
      var n := 0;
      if col > 0 && col < C - 1 && row > 0 && row < R - 1 {
        n := InteriorCount(col, row);
      } else if col > 0 && col < C - 1 && row == 0 {
        n := TopEdgeCount(col, row);
      } else if col > 0 && col < C - 1 && row == R - 1 {
        n := BottomEdgeCount(col, row);
      } else if col == 0 && row > 0 && row < R - 1 {
        n := LeftEdgeCount(col, row);
      } else if col == C - 1 && row > 0 && row < R - 1 {
        n := RightEdgeCount(col, row);
      } else if col == 0 && row == 0 {
        n := TopLeftCount(col, row);
      } else if col == C - 1 && row == R - 1 {
        n := BottomRightCount(col, row);
      } else if col == 0 && row == R - 1 {
        n := BottomLeftCount(col, row);
      } else if col == C - 1 && row == 0 {
        n := TopRightCount(col, row);
      } else {
        return None;
      }
      r := Some(n);
    }

    /** B3/S23 applied to one cell; off the board the answer is None and no cell is read. */
    method RuleResult(col: nat, row: nat) returns (r: Option<bool>)
      requires Valid() && NumCols() >= 2 && NumRows() >= 2
      ensures r.None? <==> !(col < NumCols() && row < NumRows())
      ensures r.Some? ==> r.value == Rule(Cell(col, row), ToroidalCount(cells, col, row))
    {
      var count := NumNeighbors(col, row);
      match count {
        case Some(numNeighbors) =>
          if cells[col][row] == true {
            if numNeighbors < 2 || numNeighbors > 3 {
              r := Some(false);
            } else {
              r := Some(true);
            }
          } else {
            if numNeighbors == 3 {
              r := Some(true);
            } else {
              r := Some(false);
            }
          }
        case None => r := None;
      }
    }
  }
}
