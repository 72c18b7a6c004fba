/**
 * What both single-threaded grids share: the toroidal neighbourhood and Conway's B3/S23 rule,
 * written the uniform way (modulo arithmetic over the eight offsets) against which the
 * hand-coded nine-branch neighbour counts of the grids are proved.
 */
module Torus {

  /** Coordinate `x` wrapped onto a dimension of size `n` (Dafny's `%` is Euclidean, so -1 wraps to n - 1). */
  function Wrap(x: int, n: nat): (r: nat)
    requires n > 0
    ensures r < n
  {
    x % n
  }

  /** On an in-range coordinate, one step left or right wraps exactly at the two ends. */
  lemma WrapSteps(x: nat, n: nat)
    requires x < n
    ensures Wrap(x, n) == x
    ensures Wrap(x + 1, n) == if x + 1 == n then 0 else x + 1
    ensures Wrap(x - 1, n) == if x == 0 then n - 1 else x - 1
  {
    DivModUnique(x, n, 0, x);
    if x + 1 == n { DivModUnique(x + 1, n, 1, 0); } else { DivModUnique(x + 1, n, 0, x + 1); }
    if x == 0 { DivModUnique(x - 1, n, -1, n - 1); } else { DivModUnique(x - 1, n, 0, x - 1); }
  }

  /** Euclidean division is unique: a quotient and remainder that fit are the ones `/` and `%` give. */
  lemma DivModUnique(x: int, n: nat, q: int, m: nat)
    requires m < n && x == n * q + m
    ensures x / n == q && x % n == m
  {
    var q', m' := x / n, x % n;
    assert x == n * q' + m';
    if q' < q {
      MulMonotone(n, q' + 1, q);
    } else if q' > q {
      MulMonotone(n, q + 1, q');
    }
  }

  lemma MulMonotone(n: nat, a: int, b: int)
    requires a <= b
    ensures n * a <= n * b
  {
  }

  /** The eight neighbour offsets (dc, dr), in the order the interior branch of both grids visits them. */
  const Offsets: seq<(int, int)> := [(1, 0), (-1, 0), (0, 1), (0, -1), (1, 1), (-1, 1), (1, -1), (-1, -1)]

  /** Conway's rule B3/S23: a live cell survives with two or three live neighbours, a dead one is born with exactly three. */
  predicate Rule(alive: bool, neighbours: nat) {
    if alive then neighbours == 2 || neighbours == 3 else neighbours == 3
  }

  /** 1 for a live cell, 0 for a dead one (Rust's `bool as usize`). */
  function Bit(b: bool): (r: nat)
    ensures r <= 1 && (r == 1 <==> b)
  {
    if b then 1 else 0
  }
}
