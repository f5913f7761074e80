/** The local drainage direction (LDD) grid and the pit edit that
    `deactivate_routing` applies to it before the model starts. */
module Ldd {
  import opened Grids

  /** The LDD code of a pit: water that reaches it is not routed further. */
  const Pit: int := 5

  /** Which cells an edit targets: the `'all'` marker, or a collection of
      indices. Only membership matters, because the edit reads every right-hand
      value from the unedited grid, so order and repetition are irrelevant. */
  datatype Selection = AllCells | Listed(cells: set<Cell>) {
    predicate Has(c: Cell) {
      AllCells? || c in cells
    }
  }

  /** `np.where(v != nodata, 5, v)` on a single value. */
  function PitValue(v: int, nodata: int): int {
    if v != nodata then Pit else v
  }

  /** Row `i` of the edit, built from its last column backwards. */
  function EditRow(row: seq<int>, i: int, sel: Selection, nodata: int): (r: seq<int>)
    ensures |r| == |row|
    ensures forall j :: 0 <= j < |row| && sel.Has((i, j)) && row[j] != nodata ==> r[j] == Pit
    ensures forall j :: 0 <= j < |row| && (!sel.Has((i, j)) || row[j] == nodata) ==> r[j] == row[j]
  {
    if row == [] then []
    else
      var j := |row| - 1;
      EditRow(row[..j], i, sel, nodata) + [if sel.Has((i, j)) then PitValue(row[j], nodata) else row[j]]
  }

  /** The pit edit of `deactivate_routing`: every selected cell that is not
      no-data becomes a pit; no other cell changes. */
  function Edit(g: Grid, sel: Selection, nodata: int): (r: Grid)
    ensures SameShape(r, g)
    ensures forall i, j :: 0 <= i < |g| && 0 <= j < |g[i]| && sel.Has((i, j)) && g[i][j] != nodata ==>
              r[i][j] == Pit
    ensures forall i, j :: 0 <= i < |g| && 0 <= j < |g[i]| && (!sel.Has((i, j)) || g[i][j] == nodata) ==>
              r[i][j] == g[i][j]
    ensures forall i, j :: 0 <= i < |g| && 0 <= j < |g[i]| ==> r[i][j] == g[i][j] || r[i][j] == Pit
  {
    if g == [] then []
    else
      var i := |g| - 1;
      Edit(g[..i], sel, nodata) + [EditRow(g[i], i, sel, nodata)]
  }

  /** Editing an edited grid again equals a single edit with the union of the
      two selections: a later edit never undoes an earlier one. */
  lemma {:induction false} EditCompose(g: Grid, a: set<Cell>, b: set<Cell>, nodata: int)
    ensures Edit(Edit(g, Listed(a), nodata), Listed(b), nodata) == Edit(g, Listed(a + b), nodata)
  {
    var once := Edit(g, Listed(a), nodata);
    var twice := Edit(once, Listed(b), nodata);
    var union := Edit(g, Listed(a + b), nodata);
    assert SameShape(once, g) && SameShape(twice, g) && SameShape(union, g);
    forall i, j | 0 <= i < |g| && 0 <= j < |g[i]|
      ensures twice[i][j] == union[i][j]
    {
      ComposeCell(g, a, b, nodata, i, j);
    }
    GridsEqual(twice, union);
  }

  /** One cell of `EditCompose`. */
  lemma ComposeCell(g: Grid, a: set<Cell>, b: set<Cell>, nodata: int, i: int, j: int)
    requires 0 <= i < |g| && 0 <= j < |g[i]|
    ensures Edit(Edit(g, Listed(a), nodata), Listed(b), nodata)[i][j] == Edit(g, Listed(a + b), nodata)[i][j]
  {
    var once := Edit(g, Listed(a), nodata);
    var twice := Edit(once, Listed(b), nodata);
    var union := Edit(g, Listed(a + b), nodata);
    assert |once[i]| == |g[i]|;
    if g[i][j] == nodata {
      assert once[i][j] == nodata && twice[i][j] == nodata && union[i][j] == nodata;
    } else if (i, j) in a {
      assert once[i][j] == Pit && union[i][j] == Pit;
      assert twice[i][j] == Pit;
    } else {
      assert once[i][j] == g[i][j];
    }
  }

  /** Applying the same edit twice is the same as applying it once. */
  lemma {:induction false} EditIdempotent(g: Grid, sel: Selection, nodata: int)
    ensures Edit(Edit(g, sel, nodata), sel, nodata) == Edit(g, sel, nodata)
  {
    var once := Edit(g, sel, nodata);
    var twice := Edit(once, sel, nodata);
    forall i, j | 0 <= i < |twice| && 0 <= j < |twice[i]|
      ensures twice[i][j] == once[i][j]
    {
      if sel.Has((i, j)) && once[i][j] != nodata {
        assert once[i][j] == Pit;
      }
    }
    GridsEqual(twice, once);
  }

  /** Every in-range index of `g`. */
  function CellsOf(g: Grid): (s: set<Cell>)
    ensures forall c :: c in s <==> InGrid(g, c)
  {
    set i, j | 0 <= i < |g| && 0 <= j < |g[i]| :: (i, j)
  }

  /** The `'all'` marker selects exactly the cells of the grid. */
  lemma {:induction false} AllIsEveryCell(g: Grid, nodata: int)
    ensures Edit(g, AllCells, nodata) == Edit(g, Listed(CellsOf(g)), nodata)
  {
    GridsEqual(Edit(g, AllCells, nodata), Edit(g, Listed(CellsOf(g)), nodata));
  }

  /** Adding one cell to a selection changes the edit only at that cell. */
  lemma {:induction false} EditAddCell(g: Grid, s: set<Cell>, c: Cell, nodata: int)
    requires InGrid(g, c)
    ensures var e := Edit(g, Listed(s), nodata);
            Edit(g, Listed(s + {c}), nodata) == e[c.0 := e[c.0][c.1 := PitValue(g[c.0][c.1], nodata)]]
  {
    var e := Edit(g, Listed(s), nodata);
    var upd := e[c.0 := e[c.0][c.1 := PitValue(g[c.0][c.1], nodata)]];
    GridsEqual(Edit(g, Listed(s + {c}), nodata), upd);
  }

  /** The cells named in an index list. */
  function Members(cells: seq<Cell>): (s: set<Cell>)
    ensures forall k :: 0 <= k < |cells| ==> cells[k] in s
    ensures forall c :: c in s ==> exists k :: 0 <= k < |cells| && cells[k] == c
  {
    set c | c in cells
  }

  /** One step of the index-list write: extending the prefix of written cells
      by the next cell updates exactly that cell. */
  lemma {:induction false} PitListedStep(g: Grid, cells: seq<Cell>, k: nat, nodata: int)
    requires k < |cells| && InGrid(g, cells[k])
    ensures var e := Edit(g, Listed(Members(cells[..k])), nodata);
            var c := cells[k];
            Edit(g, Listed(Members(cells[..k + 1])), nodata) == e[c.0 := e[c.0][c.1 := PitValue(g[c.0][c.1], nodata)]]
  {
    assert cells[..k + 1] == cells[..k] + [cells[k]];
    assert Members(cells[..k + 1]) == Members(cells[..k]) + {cells[k]};
    EditAddCell(g, Members(cells[..k]), cells[k], nodata);
  }

  /** The index-list branch of the edit: numpy's fancy assignment reads all
      selected values first and then stores their pit values, so here each
      listed cell is written in turn with a value computed from the unedited
      grid. */
  method PitListed(g: Grid, cells: seq<Cell>, nodata: int) returns (r: Grid)
    requires forall k :: 0 <= k < |cells| ==> InGrid(g, cells[k])
    ensures r == Edit(g, Listed(Members(cells)), nodata)
  {
    r := g;
    GridsEqual(g, Edit(g, Listed({}), nodata));
    assert Members(cells[..0]) == {};
    var k := 0;
    while k < |cells|
      invariant 0 <= k <= |cells|
      invariant r == Edit(g, Listed(Members(cells[..k])), nodata)
    {
      var cell := cells[k];
      PitListedStep(g, cells, k, nodata);
      r := r[cell.0 := r[cell.0][cell.1 := PitValue(g[cell.0][cell.1], nodata)]];
      k := k + 1;
    }
    assert cells[..k] == cells;
  }
}
