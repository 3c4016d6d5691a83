/**
 * The index buffer of the ocean's simple grid patch (SceneEngine/Ocean.cpp,
 * SimplePatchBox): a width x height vertex grid is cut into 16 x 16 mini-grids,
 * and each cell of each mini-grid is drawn as two triangles, six indices.
 *
 * Vertex indices are unsigned 32-bit values in the source; the model computes
 * them exactly, which agrees with the source while width * height fits in 32
 * bits. The GPU index buffer itself is left out; the object keeps the index
 * data it was created from.
 */
module OceanPatch {

  const MiniGridSize: nat := 16
  const IndicesPerMiniGrid: nat := 1536

  /** SimplePatchBox::Desc. The source zero-fills the whole structure before setting
    * its fields, so two descs built from the same arguments are byte-identical; a
    * datatype value is its fields, so equal arguments give equal descs. */
  datatype Desc = Desc(width: nat, height: nat, flipAlternate: bool)

  /** The four corners of the cell whose top-left vertex is (col, row); a neighbour past
    * the right or bottom edge of the grid collapses onto the cell's own vertex. */
  function Corners(desc: Desc, col: nat, row: nat): (r: (nat, nat, nat, nat))
    ensures r.0 <= r.1 <= r.3 && r.0 <= r.2 <= r.3
  {
    var index00 := col + row * desc.width;
    var index10 := index00 + (if col + 1 < desc.width then 1 else 0);
    var index01 := index00 + (if row + 1 < desc.height then desc.width else 0);
    var index11 := index01 + (if col + 1 < desc.width then 1 else 0);
    (index00, index10, index01, index11)
  }

  /** The six indices of cell (x, y) of the mini-grid at (ox, oy): alternate cells of a
    * flipping patch split the quad along the other diagonal. */
  function Cell(desc: Desc, ox: nat, oy: nat, x: nat, y: nat): (r: seq<nat>)
    ensures |r| == 6
  {
    var (index00, index10, index01, index11) := Corners(desc, ox + x, oy + y);
    if (x + y) % 2 == 1 && desc.flipAlternate then [index00, index10, index11, index00, index11, index01]
    else [index00, index10, index01, index01, index10, index11]
  }

  /** The first n cells of row y of a mini-grid. */
  function RowCells(desc: Desc, ox: nat, oy: nat, y: nat, n: nat): (r: seq<nat>)
    ensures |r| == 6 * n
  {
    if n == 0 then [] else RowCells(desc, ox, oy, y, n - 1) + Cell(desc, ox, oy, n - 1, y)
  }

  /** The first m rows of a mini-grid. */
  function GridRows(desc: Desc, ox: nat, oy: nat, m: nat): (r: seq<nat>)
    ensures |r| == 96 * m
  {
    if m == 0 then [] else GridRows(desc, ox, oy, m - 1) + RowCells(desc, ox, oy, m - 1, MiniGridSize)
  }

  function MiniGridsX(desc: Desc): nat { desc.width / MiniGridSize }
  function MiniGridsY(desc: Desc): nat { desc.height / MiniGridSize }

  function MiniGridCount(desc: Desc): (r: nat)
    ensures r > 0 ==> MiniGridsX(desc) > 0
  {
    MiniGridsX(desc) * MiniGridsY(desc)
  }

  /** Mini-grids are laid out row by row, MiniGridsX of them per row. */
  function MiniGridOrigin(desc: Desc, mg: nat): (nat, nat)
    requires MiniGridsX(desc) > 0
  {
    ((mg % MiniGridsX(desc)) * MiniGridSize, (mg / MiniGridsX(desc)) * MiniGridSize)
  }

  function MiniGrid(desc: Desc, mg: nat): (r: seq<nat>)
    requires MiniGridsX(desc) > 0
    ensures |r| == IndicesPerMiniGrid
  {
    var (ox, oy) := MiniGridOrigin(desc, mg);
    GridRows(desc, ox, oy, MiniGridSize)
  }

  /** The index data of the first k mini-grids. */
  function PatchIndices(desc: Desc, k: nat): (r: seq<nat>)
    requires k == 0 || MiniGridsX(desc) > 0
    ensures |r| == 1536 * k
  {
    if k == 0 then [] else PatchIndices(desc, k - 1) + MiniGrid(desc, k - 1)
  }

  // ---------------------------------------------------------------------------
  // Properties of the index data

  /** Mini-grid mg occupies exactly the slice [mg * 1536, (mg + 1) * 1536). */
  lemma {:induction false} MiniGridSlice(desc: Desc, k: nat, mg: nat)
    requires mg < k && MiniGridsX(desc) > 0
    ensures PatchIndices(desc, k)[1536 * mg .. 1536 * (mg + 1)] == MiniGrid(desc, mg)
  {
    var prev := PatchIndices(desc, k - 1);
    assert PatchIndices(desc, k) == prev + MiniGrid(desc, k - 1);
    if mg < k - 1 {
      MiniGridSlice(desc, k - 1, mg);
      assert PatchIndices(desc, k)[1536 * mg .. 1536 * (mg + 1)] == prev[1536 * mg .. 1536 * (mg + 1)];
    } else {
      assert 1536 * mg == |prev|;
    }
  }

  /** A cell's six indices are two triangles that together use the quad's four corners.
    * Inside the grid the two triangles share exactly one diagonal: the one through the
    * top-left corner on odd cells of a flipping patch, the other one everywhere else. */
  lemma CellCoversQuad(desc: Desc, ox: nat, oy: nat, x: nat, y: nat)
    ensures var (index00, index10, index01, index11) := Corners(desc, ox + x, oy + y);
      var r := Cell(desc, ox, oy, x, y);
      var flipped := (x + y) % 2 == 1 && desc.flipAlternate;
      && (set i | 0 <= i < 6 :: r[i]) == {index00, index10, index01, index11}
      && (ox + x + 1 < desc.width && oy + y + 1 < desc.height ==>
          (set i | 0 <= i < 3 :: r[i]) * (set i | 3 <= i < 6 :: r[i])
          == if flipped then {index00, index11} else {index10, index01})
  {
    var (index00, index10, index01, index11) := Corners(desc, ox + x, oy + y);
    var r := Cell(desc, ox, oy, x, y);
    var first := set i | 0 <= i < 3 :: r[i];
    var second := set i | 3 <= i < 6 :: r[i];
    assert first == {r[0], r[1], r[2]} by {
      assert forall v :: v in first <==> v == r[0] || v == r[1] || v == r[2];
    }
    assert second == {r[3], r[4], r[5]} by {
      assert forall v :: v in second <==> v == r[3] || v == r[4] || v == r[5];
    }
    assert (set i | 0 <= i < 6 :: r[i]) == first + second by {
      forall v ensures v in (set i | 0 <= i < 6 :: r[i]) <==> v in first + second {
      }
    }
  }

  /** On the last column the right neighbour is the vertex itself, and on the last row the
    * lower neighbour is. */
  lemma EdgeNeighboursCollapse(desc: Desc, col: nat, row: nat)
    ensures var (index00, index10, index01, index11) := Corners(desc, col, row);
      && (col + 1 == desc.width ==> index10 == index00 && index11 == index01)
      && (row + 1 == desc.height ==> index01 == index00 && index11 == index10)
      && (col + 1 < desc.width ==> index10 == index00 + 1)
      && (row + 1 < desc.height ==> index01 == index00 + desc.width)
  {
  }

  lemma MulMonotone(a: nat, b: nat, w: nat)
    requires a <= b
    ensures a * w <= b * w
  {
  }

  /** Every corner of a cell inside the grid is a vertex of the grid. */
  lemma CornersInGrid(desc: Desc, col: nat, row: nat)
    requires col < desc.width && row < desc.height
    ensures var (index00, index10, index01, index11) := Corners(desc, col, row);
      && index00 < desc.width * desc.height && index10 < desc.width * desc.height
      && index01 < desc.width * desc.height && index11 < desc.width * desc.height
  {
    var w := desc.width;
    MulMonotone(row + 1, desc.height, w);
    if row + 1 < desc.height {
      MulMonotone(row + 2, desc.height, w);
      assert (row + 1) * w + w == (row + 2) * w;
    }
  }

  predicate AllBelow(s: seq<nat>, bound: nat)
  {
    forall i :: 0 <= i < |s| ==> s[i] < bound
  }

  lemma {:induction false} RowCellsInGrid(desc: Desc, ox: nat, oy: nat, y: nat, n: nat)
    requires ox + n <= desc.width && oy + y < desc.height
    ensures AllBelow(RowCells(desc, ox, oy, y, n), desc.width * desc.height)
  {
    if n > 0 {
      RowCellsInGrid(desc, ox, oy, y, n - 1);
      CornersInGrid(desc, ox + n - 1, oy + y);
    }
  }

  lemma {:induction false} GridRowsInGrid(desc: Desc, ox: nat, oy: nat, m: nat)
    requires ox + MiniGridSize <= desc.width && oy + m <= desc.height
    ensures AllBelow(GridRows(desc, ox, oy, m), desc.width * desc.height)
  {
    if m > 0 {
      GridRowsInGrid(desc, ox, oy, m - 1);
      RowCellsInGrid(desc, ox, oy, m - 1, MiniGridSize);
    }
  }

  /** Every mini-grid of the patch lies inside the grid. */
  lemma MiniGridOriginInGrid(desc: Desc, mg: nat)
    requires mg < MiniGridCount(desc)
    ensures MiniGridOrigin(desc, mg).0 + MiniGridSize <= desc.width
    ensures MiniGridOrigin(desc, mg).1 + MiniGridSize <= desc.height
  {
    var gx, gy := MiniGridsX(desc), MiniGridsY(desc);
    var col, row := mg % gx, mg / gx;
    assert mg == row * gx + col;
    if row >= gy {
      MulMonotone(gy, row, gx);
      assert false;
    }
    MulMonotone(col + 1, gx, MiniGridSize);
    MulMonotone(row + 1, gy, MiniGridSize);
  }

  /** Every generated index names a vertex of the width x height grid. */
  lemma {:induction false} PatchIndicesInGrid(desc: Desc, k: nat)
    requires k <= MiniGridCount(desc)
    ensures AllBelow(PatchIndices(desc, k), desc.width * desc.height)
  {
    if k > 0 {
      PatchIndicesInGrid(desc, k - 1);
      MiniGridOriginInGrid(desc, k - 1);
      var (ox, oy) := MiniGridOrigin(desc, k - 1);
      GridRowsInGrid(desc, ox, oy, MiniGridSize);
    }
  }

  // ---------------------------------------------------------------------------
  // The object

  class SimplePatchBox {
    var indexData: seq<nat>
    var simplePatchIndexCount: nat

    /** The index data is filled mini-grid by mini-grid; the index count is the number
      * of indices written. */
    constructor (desc: Desc)
      ensures indexData == PatchIndices(desc, MiniGridCount(desc))
      ensures simplePatchIndexCount == |indexData| == 1536 * MiniGridCount(desc)
      ensures AllBelow(indexData, desc.width * desc.height)
    {
      var indexBufferData := BuildIndexData(desc);
      indexData := indexBufferData[..];
      simplePatchIndexCount := 1536 * MiniGridCount(desc);
      PatchIndicesInGrid(desc, MiniGridCount(desc));
    }
  }

  /** The constructor's fill loop: one mini-grid after the other, each at its own origin. */
  method BuildIndexData(desc: Desc) returns (indexBufferData: array<nat>)
    ensures fresh(indexBufferData)
    ensures indexBufferData[..] == PatchIndices(desc, MiniGridCount(desc))
  {
    var miniGrids := MiniGridCount(desc);
    indexBufferData := new nat[1536 * miniGrids];
    var mg := 0;
    while mg < miniGrids
      invariant 0 <= mg <= miniGrids
      invariant indexBufferData[..1536 * mg] == PatchIndices(desc, mg)
    {
      var (offsetX, offsetY) := MiniGridOrigin(desc, mg);
      WriteMiniGrid(indexBufferData, 1536 * mg, desc, offsetX, offsetY);
      mg := mg + 1;
    }
    assert indexBufferData[..] == indexBufferData[..1536 * mg];
  }

  /** Writes one mini-grid, row by row, starting at the writing position. */
  method WriteMiniGrid(data: array<nat>, at: nat, desc: Desc, offsetX: nat, offsetY: nat)
    requires at + IndicesPerMiniGrid <= data.Length
    modifies data
    ensures data[..at + IndicesPerMiniGrid] == old(data[..at]) + GridRows(desc, offsetX, offsetY, MiniGridSize)
  {
    ghost var before := data[..at];
    var y := 0;
    while y < MiniGridSize
      invariant 0 <= y <= MiniGridSize
      invariant data[..at + 96 * y] == before + GridRows(desc, offsetX, offsetY, y)
    {
      WriteRow(data, at + 96 * y, desc, offsetX, offsetY, y);
      AppendAssociates(before, GridRows(desc, offsetX, offsetY, y), RowCells(desc, offsetX, offsetY, y, MiniGridSize));
      y := y + 1;
    }
  }

  /** Writes one row of a mini-grid, cell by cell, starting at the writing position. */
  method WriteRow(data: array<nat>, at: nat, desc: Desc, offsetX: nat, offsetY: nat, y: nat)
    requires at + 96 <= data.Length
    modifies data
    ensures data[..at + 96] == old(data[..at]) + RowCells(desc, offsetX, offsetY, y, MiniGridSize)
  {
    ghost var before := data[..at];
    var x := 0;
    while x < MiniGridSize
      invariant 0 <= x <= MiniGridSize
      invariant data[..at + 6 * x] == before + RowCells(desc, offsetX, offsetY, y, x)
    {
      WriteCell(data, at + 6 * x, Cell(desc, offsetX, offsetY, x, y));
      AppendAssociates(before, RowCells(desc, offsetX, offsetY, y, x), Cell(desc, offsetX, offsetY, x, y));
      x := x + 1;
    }
  }

  lemma AppendAssociates(a: seq<nat>, b: seq<nat>, c: seq<nat>)
    ensures (a + b) + c == a + (b + c)
  {
  }

  /** Writes the six indices of one cell at the writing position. */
  method WriteCell(data: array<nat>, at: nat, cell: seq<nat>)
    requires |cell| == 6 && at + 6 <= data.Length
    modifies data
    ensures data[..at + 6] == old(data[..at]) + cell
  {
    var k := 0;
    while k < 6
      invariant 0 <= k <= 6
      invariant data[..at + k] == old(data[..at]) + cell[..k]
    {
      data[at + k] := cell[k];
      assert data[..at + k + 1] == data[..at + k] + [cell[k]];
      assert cell[..k + 1] == cell[..k] + [cell[k]];
      k := k + 1;
    }
  }
}
