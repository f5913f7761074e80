/** Row-major 2-D grids and grid indices, shared by the drainage map, the
    landmask and the flux fields. */
module Grids {

  /** A (row, col) grid index. */
  type Cell = (int, int)

  /** A 2-D grid of integer cell values, stored row by row. */
  type Grid = seq<seq<int>>

  /** `g` has `rows` rows of `cols` values each. */
  predicate Rectangular<T>(g: seq<seq<T>>, rows: nat, cols: nat) {
    |g| == rows && forall i :: 0 <= i < |g| ==> |g[i]| == cols
  }

  predicate SameShape<T, U>(a: seq<seq<T>>, b: seq<seq<U>>) {
    |a| == |b| && forall i :: 0 <= i < |a| ==> |a[i]| == |b[i]|
  }

  predicate InGrid(g: Grid, c: Cell) {
    0 <= c.0 < |g| && 0 <= c.1 < |g[c.0]|
  }

  /** Two grids with the same shape and the same value in every cell are equal. */
  lemma GridsEqual<T>(a: seq<seq<T>>, b: seq<seq<T>>)
    requires SameShape(a, b)
    requires forall i, j :: 0 <= i < |a| && 0 <= j < |a[i]| ==> a[i][j] == b[i][j]
    ensures a == b
  {
    forall i | 0 <= i < |a|
      ensures a[i] == b[i]
    {
    }
  }
}
