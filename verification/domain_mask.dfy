/** `model_2d_index`: which of a batch of already computed (row, col)
    indices fall on active cells of the model's landmask. */
module DomainMask {
  import opened Grids

  /** Landmask value of an active (land) cell. */
  const ActiveCell: int := 1

  /** Takes the row and column arrays that the raster's coordinate-to-index
      function produced and returns the index pairs with a parallel validity
      flag: inside the `nrows` x `ncols` grid and on an active landmask cell.
      Indices outside the grid are never used to read the landmask. */
  method ModelIndex(rows: seq<int>, cols: seq<int>, nrows: nat, ncols: nat, landmask: Grid)
    returns (indices: seq<Cell>, valid: seq<bool>)
    requires |rows| == |cols|
    requires Rectangular(landmask, nrows, ncols)
    ensures |indices| == |rows| && |valid| == |rows|
    ensures forall k :: 0 <= k < |rows| ==> indices[k] == (rows[k], cols[k])
    ensures forall k :: 0 <= k < |rows| && valid[k] ==> InGrid(landmask, indices[k])
    ensures forall k :: 0 <= k < |rows| ==>
              (valid[k] <==> 0 <= rows[k] < nrows && 0 <= cols[k] < ncols && landmask[rows[k]][cols[k]] == ActiveCell)
  {
    indices := [];
    valid := [];
    var k := 0;
    while k < |rows|
      invariant 0 <= k <= |rows|
      invariant |indices| == k && |valid| == k
      invariant forall m :: 0 <= m < k ==> indices[m] == (rows[m], cols[m])
      invariant forall m :: 0 <= m < k ==>
                  (valid[m] <==> 0 <= rows[m] < nrows && 0 <= cols[m] < ncols && landmask[rows[m]][cols[m]] == ActiveCell)
    {
      var r, c := rows[k], cols[k];
      var inside := r >= 0 && r < nrows && c >= 0 && c < ncols;
      var ok := false;
      if inside {
        ok := landmask[r][c] == ActiveCell;
      }
      indices := indices + [(r, c)];
      valid := valid + [ok];
      k := k + 1;
    }
  }
}
