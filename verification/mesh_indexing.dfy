/**
 * The index arithmetic of MeshGenerator.GenerateTerrainMesh: the level-of-detail
 * stride, the numbering of the retained cells and the layout of the triangle
 * buffer, as pure functions with the facts the mesh builder relies on.
 */
module MeshIndexing {
  import opened UnityMath
  import IntArith

  /** The stride between retained cells: 1 at level 0, twice the level otherwise. */
  function SimplificationIncrement(levelOfDetail: nat): (inc: nat)
    ensures inc >= 1 && inc / 2 == levelOfDetail
    ensures inc == 1 || inc % 2 == 0
  {
    if levelOfDetail == 0 then 1 else levelOfDetail * 2
  }

  /** The sizes GenerateTerrainMesh derives from the height map's width and the level of detail. */
  datatype Layout = Layout(inc: nat, meshSize: int, meshSizeUnsimplified: int, verticesPerLine: int)

  function LayoutOf(width: int, levelOfDetail: nat): (l: Layout)
    ensures l.inc == SimplificationIncrement(levelOfDetail) && Consistent(l)
    ensures l.meshSize == width - 2 * l.inc && l.meshSizeUnsimplified == width - 2
    ensures l.meshSize >= 1 ==> l.verticesPerLine >= 1
  {
    var inc := SimplificationIncrement(levelOfDetail);
    var meshSize := width - 2 * inc;
    TruncDivOfMinusOne(inc);
    Layout(inc, meshSize, width - 2, TruncDiv(meshSize - 1, inc) + 1)
  }

  /** C#'s `-1 / inc`: -1 for a unit stride, 0 for any longer one. */
  lemma TruncDivOfMinusOne(inc: int)
    requires inc >= 1
    ensures TruncDiv(-1, inc) == (if inc == 1 then -1 else 0)
  {
  }

  /** The relations LayoutOf establishes between the stride, the mesh size and the vertices per line. */
  predicate Consistent(l: Layout) {
    && l.inc >= 1
    && (l.meshSize >= 1 ==> l.verticesPerLine == (l.meshSize - 1) / l.inc + 1)
    && (l.meshSize == 0 ==> l.verticesPerLine == (if l.inc == 1 then 0 else 1))
  }

  /** The cell coordinate of the k-th retained column (or row). */
  function Coord(k: int, inc: int): int {
    k * inc
  }

  /** Consecutive retained columns are one stride apart. */
  lemma CoordStep(k: int, inc: int)
    ensures Coord(k + 1, inc) == Coord(k, inc) + inc
  {
  }

  /** The stride lands on the last cell of the mesh, so every retained interior cell has retained neighbours. */
  predicate Aligned(l: Layout) {
    l.inc >= 1 && l.meshSize >= 1 && (l.meshSize - 1) % l.inc == 0
  }

  /** Exactly the retained columns 0 .. verticesPerLine-1 lie inside the mesh. */
  lemma StrideBound(l: Layout, k: int)
    requires l.inc >= 1 && l.meshSize >= 1 && l.verticesPerLine == (l.meshSize - 1) / l.inc + 1
    requires k >= 0
    ensures Coord(k, l.inc) < l.meshSize <==> k < l.verticesPerLine
  {
    IntArith.DivBelow(l.meshSize - 1, l.inc, k);
    if k < l.verticesPerLine {
      assert k <= (l.meshSize - 1) / l.inc;
      IntArith.DivBelow(l.meshSize - 1, l.inc, k + 1);
      assert k * l.inc + l.inc == (k + 1) * l.inc;
    } else {
      IntArith.DivBelow(l.meshSize - 1, l.inc, k);
    }
  }

  /** StrideBound for every column at once, with the coordinates non-negative. */
  lemma StrideBoundAll(l: Layout)
    requires Consistent(l) && l.meshSize >= 1
    ensures forall k :: 0 <= k ==> 0 <= Coord(k, l.inc) && (Coord(k, l.inc) < l.meshSize <==> k < l.verticesPerLine)
  {
    forall k | 0 <= k
      ensures 0 <= Coord(k, l.inc) && (Coord(k, l.inc) < l.meshSize <==> k < l.verticesPerLine)
    {
      StrideBound(l, k);
      IntArith.MulMonotone(0, k, l.inc);
    }
  }

  /** The last retained column is the mesh's last cell exactly when the stride is aligned; otherwise it falls short of it. */
  lemma LastRetained(l: Layout)
    requires l.inc >= 1 && l.meshSize >= 1 && l.verticesPerLine == (l.meshSize - 1) / l.inc + 1
    ensures Aligned(l) <==> Coord(l.verticesPerLine - 1, l.inc) == l.meshSize - 1
    ensures Coord(l.verticesPerLine - 1, l.inc) <= l.meshSize - 1 < Coord(l.verticesPerLine, l.inc)
  {
    var q, r := (l.meshSize - 1) / l.inc, (l.meshSize - 1) % l.inc;
    assert l.meshSize - 1 == q * l.inc + r;
    assert Coord(l.verticesPerLine, l.inc) == q * l.inc + l.inc;
  }

  /** In an aligned layout, a retained column is interior exactly when it is not the last one, and then its right neighbour is inside. */
  lemma InteriorColumn(l: Layout, k: int)
    requires l.inc >= 1 && l.meshSize >= 1 && l.verticesPerLine == (l.meshSize - 1) / l.inc + 1
    requires 0 <= k < l.verticesPerLine
    ensures Aligned(l) ==> (Coord(k, l.inc) < l.meshSize - 1 <==> k < l.verticesPerLine - 1)
    ensures k < l.verticesPerLine - 1 ==> Coord(k, l.inc) + l.inc == Coord(k + 1, l.inc) < l.meshSize
  {
    LastRetained(l);
    assert Coord(k + 1, l.inc) == Coord(k, l.inc) + l.inc;
    if k < l.verticesPerLine - 1 {
      IntArith.MulMonotone(k + 1, l.verticesPerLine - 1, l.inc);
    } else {
      assert k == l.verticesPerLine - 1;
    }
  }

  // ---------------------------------------------------------------------
  // Vertex numbering: retained cell (column i, row j) gets number j * vpl + i.

  function VertexNumber(vpl: int, i: int, j: int): int {
    j * vpl + i
  }

  function ColumnOf(vpl: int, k: int): int
    requires vpl > 0
  {
    k % vpl
  }

  function RowOf(vpl: int, k: int): int
    requires vpl > 0
  {
    k / vpl
  }

  /** The number after the last cell of row j is the first number of row j + 1. */
  lemma RowEndNumber(vpl: int, j: int)
    ensures VertexNumber(vpl, vpl, j) == VertexNumber(vpl, 0, j + 1)
  {
  }

  /** Numbering a retained cell gives a slot in range, from which its column and row are recovered. */
  lemma NumberRoundTrip(vpl: int, i: int, j: int)
    requires 0 <= i < vpl && 0 <= j < vpl
    ensures 0 <= VertexNumber(vpl, i, j) < vpl * vpl
    ensures ColumnOf(vpl, VertexNumber(vpl, i, j)) == i && RowOf(vpl, VertexNumber(vpl, i, j)) == j
  {
    IntArith.DivModUnique(j, i, vpl);
    IntArith.MulMonotone(j, vpl - 1, vpl);
    assert (vpl - 1) * vpl + vpl == vpl * vpl;
  }

  /** Every slot below vpl * vpl is the number of exactly the cell its column and row name. */
  lemma CellRoundTrip(vpl: int, k: int)
    requires vpl >= 0 && 0 <= k < vpl * vpl
    ensures vpl > 0
    ensures 0 <= ColumnOf(vpl, k) < vpl && 0 <= RowOf(vpl, k) < vpl
    ensures VertexNumber(vpl, ColumnOf(vpl, k), RowOf(vpl, k)) == k
  {
    IntArith.DivBelow(k, vpl, vpl);
  }

  /** Different retained cells get different numbers. */
  lemma NumberingInjective(vpl: int, i: int, j: int, i': int, j': int)
    requires 0 <= i < vpl && 0 <= j < vpl && 0 <= i' < vpl && 0 <= j' < vpl
    requires VertexNumber(vpl, i, j) == VertexNumber(vpl, i', j')
    ensures i == i' && j == j'
  {
    NumberRoundTrip(vpl, i, j);
    NumberRoundTrip(vpl, i', j');
  }

  // ---------------------------------------------------------------------
  // The triangle buffer: quad (i, j) of the (vpl-1) x (vpl-1) interior cells
  // owns slots 6q .. 6q+5, q = j * (vpl-1) + i, holding (a, d, c, d, a, b) for
  // its corners a = (i, j), b = (i+1, j), c = (i, j+1), d = (i+1, j+1).

  /** Column and row offsets of corner t of the sequence (a, d, c, d, a, b). */
  function CornerDx(t: int): int
    requires 0 <= t < 6
  {
    [0, 1, 0, 1, 0, 1][t]
  }

  function CornerDy(t: int): int
    requires 0 <= t < 6
  {
    [0, 1, 1, 1, 0, 0][t]
  }

  /** The vertex number written for corner t of quad (i, j). */
  function QuadCorner(vpl: int, i: int, j: int, t: int): int
    requires 0 <= t < 6
  {
    VertexNumber(vpl, i + CornerDx(t), j + CornerDy(t))
  }

  /** The number of triangle slots: two triangles per interior quad. */
  function TriangleSlotCount(vpl: int): int {
    (vpl - 1) * (vpl - 1) * 6
  }

  /** The slot that receives corner t of quad (i, j). */
  function TriangleSlot(vpl: int, i: int, j: int, t: int): int {
    6 * (j * (vpl - 1) + i) + t
  }

  /** The value slot k of the finished triangle buffer holds. */
  function TriangleEntry(vpl: int, k: int): int
    requires vpl >= 1 && 0 <= k < TriangleSlotCount(vpl)
  {
    assert vpl >= 2;
    var q := k / 6;
    QuadCorner(vpl, q % (vpl - 1), q / (vpl - 1), k % 6)
  }

  /** Quad (i, j)'s slots lie in the buffer and hold its six corners. */
  lemma TriangleEntryAtSlot(vpl: int, i: int, j: int, t: int)
    requires 0 <= i < vpl - 1 && 0 <= j < vpl - 1 && 0 <= t < 6
    ensures 0 <= TriangleSlot(vpl, i, j, t) < TriangleSlotCount(vpl)
    ensures TriangleEntry(vpl, TriangleSlot(vpl, i, j, t)) == QuadCorner(vpl, i, j, t)
  {
    var w := vpl - 1;
    var q := j * w + i;
    IntArith.DivModUnique(q, t, 6);
    IntArith.DivModUnique(j, i, w);
    IntArith.MulMonotone(j, w - 1, w);
    assert q < w * w by {
      assert (w - 1) * w + w == w * w;
    }
    assert TriangleSlotCount(vpl) == 6 * (w * w);
  }

  /** Every slot of the buffer belongs to exactly one quad and corner. */
  lemma SlotRoundTrip(vpl: int, k: int)
    requires vpl >= 1 && 0 <= k < TriangleSlotCount(vpl)
    ensures vpl >= 2
    ensures var q := k / 6; var w := vpl - 1;
      0 <= q % w < w && 0 <= q / w < w && TriangleSlot(vpl, q % w, q / w, k % 6) == k
    ensures forall i, j, t :: 0 <= i < vpl - 1 && 0 <= j < vpl - 1 && 0 <= t < 6 && TriangleSlot(vpl, i, j, t) == k ==>
      i == (k / 6) % (vpl - 1) && j == (k / 6) / (vpl - 1) && t == k % 6
  {
    var w := vpl - 1;
    assert vpl >= 2;
    var q := k / 6;
    IntArith.DivBelow(k, 6, w * w);
    assert TriangleSlotCount(vpl) == (w * w) * 6;
    IntArith.DivBelow(q, w, w);
    forall i, j, t | 0 <= i < w && 0 <= j < w && 0 <= t < 6 && TriangleSlot(vpl, i, j, t) == k
      ensures i == q % w && j == q / w && t == k % 6
    {
      QuadOfSlot(vpl, i, j, t);
    }
  }

  /** A quad corner's slot gives back the quad and the corner. */
  lemma QuadOfSlot(vpl: int, i: int, j: int, t: int)
    requires 0 <= i < vpl - 1 && 0 <= j < vpl - 1 && 0 <= t < 6
    ensures var k := TriangleSlot(vpl, i, j, t);
      (k / 6) % (vpl - 1) == i && (k / 6) / (vpl - 1) == j && k % 6 == t
  {
    var w := vpl - 1;
    IntArith.DivModUnique(j * w + i, t, 6);
    IntArith.DivModUnique(j, i, w);
  }

  /** Every index in the finished triangle buffer names a vertex slot. */
  lemma TriangleEntryInRange(vpl: int, k: int)
    requires vpl >= 1 && 0 <= k < TriangleSlotCount(vpl)
    ensures 0 <= TriangleEntry(vpl, k) < vpl * vpl
  {
    SlotRoundTrip(vpl, k);
    var w, q, t := vpl - 1, k / 6, k % 6;
    var i, j := q % w, q / w;
    assert TriangleEntry(vpl, k) == QuadCorner(vpl, i, j, t);
    var di, dj := CornerDx(t), CornerDy(t);
    assert 0 <= di <= 1 && 0 <= dj <= 1;
    NumberRoundTrip(vpl, i + di, j + dj);
  }

  /** TriangleEntryInRange for every slot at once. */
  lemma TriangleEntriesInRange(vpl: int)
    requires vpl >= 1
    ensures forall k :: 0 <= k < TriangleSlotCount(vpl) ==> 0 <= TriangleEntry(vpl, k) < vpl * vpl
  {
    forall k | 0 <= k < TriangleSlotCount(vpl)
      ensures 0 <= TriangleEntry(vpl, k) < vpl * vpl
    {
      TriangleEntryInRange(vpl, k);
    }
  }

  /** The two triangles of a quad traverse their shared diagonal a-d in opposite directions and use all four corners. */
  lemma QuadWinding(vpl: int, i: int, j: int)
    requires 0 <= i < vpl - 1 && 0 <= j < vpl - 1
    ensures QuadCorner(vpl, i, j, 0) == QuadCorner(vpl, i, j, 4) == VertexNumber(vpl, i, j)
    ensures QuadCorner(vpl, i, j, 1) == QuadCorner(vpl, i, j, 3) == VertexNumber(vpl, i + 1, j + 1)
    ensures QuadCorner(vpl, i, j, 2) == VertexNumber(vpl, i, j + 1)
    ensures QuadCorner(vpl, i, j, 5) == VertexNumber(vpl, i + 1, j)
    ensures |{VertexNumber(vpl, i, j), VertexNumber(vpl, i + 1, j), VertexNumber(vpl, i, j + 1), VertexNumber(vpl, i + 1, j + 1)}| == 4
  {
    var a, b, c, d := VertexNumber(vpl, i, j), VertexNumber(vpl, i + 1, j), VertexNumber(vpl, i, j + 1), VertexNumber(vpl, i + 1, j + 1);
    assert a < b < c < d by {
      assert b == a + 1 && c == a + vpl && d == a + vpl + 1;
    }
  }

  /** The six slots of quad (i, j), in order, hold its corners a, d, c, d, a, b. */
  lemma QuadEntries(vpl: int, i: int, j: int)
    requires 0 <= i < vpl - 1 && 0 <= j < vpl - 1
    ensures 0 <= TriangleSlot(vpl, i, j, 0) && TriangleSlot(vpl, i, j, 5) < TriangleSlotCount(vpl)
    ensures TriangleEntry(vpl, TriangleSlot(vpl, i, j, 0)) == VertexNumber(vpl, i, j)
    ensures TriangleEntry(vpl, TriangleSlot(vpl, i, j, 1)) == VertexNumber(vpl, i + 1, j + 1)
    ensures TriangleEntry(vpl, TriangleSlot(vpl, i, j, 2)) == VertexNumber(vpl, i, j + 1)
    ensures TriangleEntry(vpl, TriangleSlot(vpl, i, j, 3)) == VertexNumber(vpl, i + 1, j + 1)
    ensures TriangleEntry(vpl, TriangleSlot(vpl, i, j, 4)) == VertexNumber(vpl, i, j)
    ensures TriangleEntry(vpl, TriangleSlot(vpl, i, j, 5)) == VertexNumber(vpl, i + 1, j)
  {
    TriangleEntryAtSlot(vpl, i, j, 0);
    TriangleEntryAtSlot(vpl, i, j, 1);
    TriangleEntryAtSlot(vpl, i, j, 2);
    TriangleEntryAtSlot(vpl, i, j, 3);
    TriangleEntryAtSlot(vpl, i, j, 4);
    TriangleEntryAtSlot(vpl, i, j, 5);
  }

  /** The number of slots filled once every quad before (i, j) in row-major order has emitted its two triangles. */
  function EmittedBefore(vpl: int, i: int, j: int): int {
    if j < vpl - 1 then TriangleSlot(vpl, if i < vpl - 1 then i else vpl - 1, j, 0)
    else TriangleSlotCount(vpl)
  }

  /** Finishing a row of quads moves the count to the start of the next row; after the last row the buffer is full. */
  lemma EmittedRowEnd(vpl: int, j: int)
    requires vpl >= 1 && 0 <= j < vpl
    ensures EmittedBefore(vpl, vpl, j) == EmittedBefore(vpl, 0, j + 1)
    ensures EmittedBefore(vpl, 0, vpl) == TriangleSlotCount(vpl)
  {
    var w := vpl - 1;
    assert j * w + w == (j + 1) * w;
    assert (vpl - 1) * (vpl - 1) * 6 == 6 * ((vpl - 1) * (vpl - 1));
  }

  /** Room for one more quad: the slots of quad (i, j) end within the buffer. */
  lemma QuadFits(vpl: int, i: int, j: int)
    requires 0 <= i < vpl - 1 && 0 <= j < vpl - 1
    ensures EmittedBefore(vpl, i, j) == TriangleSlot(vpl, i, j, 0)
    ensures TriangleSlot(vpl, i, j, 0) + 6 <= TriangleSlotCount(vpl)
    ensures EmittedBefore(vpl, i + 1, j) == TriangleSlot(vpl, i, j, 0) + 6
  {
    TriangleEntryAtSlot(vpl, i, j, 5);
  }
}
