/**
 * MeshGenerator.GenerateTerrainMesh and the MeshData buffers it fills: a
 * square height map becomes an indexed triangle mesh, optionally expanded
 * for flat shading or given per-vertex normals.
 */
module MeshGenerator {
  import opened Wrappers
  import opened UnityMath
  import opened MeshIndexing

  /** The exceptions GenerateTerrainMesh can raise. */
  datatype MeshError =
    | NullCurve         // the height curve is null when its keys are copied
    | NegativeMeshSize  // the vertex index map gets a negative dimension
    | IndexOutOfRange   // a neighbour lookup or a vertex read falls outside its array

  /** What a vertex's height is read from: the map, the multiplier and the copied curve with its evaluator. */
  datatype HeightSource = HeightSource(heightMap: array2<real>, heightMultiplier: real, keys: seq<Keyframe>, evaluate: CurveEvaluator)

  // ---------------------------------------------------------------------
  // Per-cell values

  /** The UV (`percent`) of cell (x, y): its offset from the first inner cell as a fraction of the mesh size. */
  function CellUv(l: Layout, x: int, y: int): (r: Vector2)
    requires l.meshSize != 0
    ensures x == l.inc ==> r.x == 0.0
    ensures y == l.inc ==> r.y == 0.0
    ensures x == l.inc + l.meshSize ==> r.x == 1.0
    ensures y == l.inc + l.meshSize ==> r.y == 1.0
  {
    assert l.meshSize as real / l.meshSize as real == 1.0;
    Vector2((x - l.inc) as real / l.meshSize as real, (y - l.inc) as real / l.meshSize as real)
  }

  /** The vertex of cell (x, y): centred on the origin in the XZ plane, raised by the curve-shaped height. */
  function CellVertex(src: HeightSource, l: Layout, x: int, y: int): (r: Vector3)
    reads src.heightMap
    requires l.meshSize != 0 && 0 <= x < src.heightMap.Length0 && 0 <= y < src.heightMap.Length1
    ensures r.y == src.evaluate(src.keys, src.heightMap[x, y]) * src.heightMultiplier
    ensures l.meshSize == l.meshSizeUnsimplified ==>
      && r.x == (x - l.inc) as real - (l.meshSizeUnsimplified - 1) as real / 2.0
      && r.z == (l.meshSizeUnsimplified - 1) as real / 2.0 - (y - l.inc) as real
  {
    var topLeftX := (l.meshSizeUnsimplified - 1) as real / -2.0;
    var topLeftZ := (l.meshSizeUnsimplified - 1) as real / 2.0;
    var percent := CellUv(l, x, y);
    Vector3(topLeftX + percent.x * l.meshSizeUnsimplified as real,
            src.evaluate(src.keys, src.heightMap[x, y]) * src.heightMultiplier,
            topLeftZ - percent.y * l.meshSizeUnsimplified as real)
  }

  /** Vertex slot k names a retained cell that lies inside the height map. */
  predicate SlotInMap(src: HeightSource, l: Layout, k: int) {
    var vpl := l.verticesPerLine;
    && l.meshSize >= 1 && vpl > 0 && 0 <= k < vpl * vpl
    && 0 <= Coord(ColumnOf(vpl, k), l.inc) < src.heightMap.Length0
    && 0 <= Coord(RowOf(vpl, k), l.inc) < src.heightMap.Length1
  }

  /** The vertex slot k receives: that of the cell numbered k. */
  function GridVertex(src: HeightSource, l: Layout, k: int): Vector3
    reads src.heightMap
    requires SlotInMap(src, l, k)
  {
    CellVertex(src, l, Coord(ColumnOf(l.verticesPerLine, k), l.inc), Coord(RowOf(l.verticesPerLine, k), l.inc))
  }

  /** The UV slot k receives. */
  function GridUv(l: Layout, k: int): Vector2
    requires l.meshSize >= 1 && l.verticesPerLine > 0
  {
    CellUv(l, Coord(ColumnOf(l.verticesPerLine, k), l.inc), Coord(RowOf(l.verticesPerLine, k), l.inc))
  }

  /** The passes get through: an aligned stride whose rows all lie in the map, or an empty mesh with a single untouched vertex slot. */
  predicate Completes(l: Layout, columns: int, rows: int) {
    || (Aligned(l) && l.meshSize <= columns && l.meshSize <= rows)
    || (l.meshSize == 0 && l.inc >= 2)
  }

  /** In an aligned layout within the map, every vertex slot's cell lies inside the height map. */
  lemma SlotsInMap(src: HeightSource, l: Layout)
    requires Consistent(l) && Aligned(l)
    requires l.meshSize <= src.heightMap.Length0 && l.meshSize <= src.heightMap.Length1
    ensures forall k :: 0 <= k < l.verticesPerLine * l.verticesPerLine ==> SlotInMap(src, l, k)
  {
    var vpl := l.verticesPerLine;
    forall k | 0 <= k < vpl * vpl
      ensures SlotInMap(src, l, k)
    {
      CellRoundTrip(vpl, k);
      StrideBound(l, ColumnOf(vpl, k));
      StrideBound(l, RowOf(vpl, k));
    }
  }

  /** Numbering and per-slot values agree: the slot numbered for cell (i, j) holds that cell's vertex and UV. */
  lemma GridVertexOfCell(src: HeightSource, l: Layout, i: int, j: int)
    requires Consistent(l) && l.meshSize >= 1
    requires 0 <= i < l.verticesPerLine && 0 <= j < l.verticesPerLine
    requires 0 <= Coord(i, l.inc) < src.heightMap.Length0 && 0 <= Coord(j, l.inc) < src.heightMap.Length1
    ensures SlotInMap(src, l, VertexNumber(l.verticesPerLine, i, j))
    ensures GridVertex(src, l, VertexNumber(l.verticesPerLine, i, j)) == CellVertex(src, l, Coord(i, l.inc), Coord(j, l.inc))
    ensures GridUv(l, VertexNumber(l.verticesPerLine, i, j)) == CellUv(l, Coord(i, l.inc), Coord(j, l.inc))
  {
    var vpl := l.verticesPerLine;
    var n := VertexNumber(vpl, i, j);
    NumberRoundTrip(vpl, i, j);
  }

  /** vertexIndicesMap holds at each retained cell (Coord(i), Coord(j)) the number of (i, j). */
  ghost predicate Numbered(vertexIndicesMap: array2<int>, l: Layout)
    reads vertexIndicesMap
  {
    forall i, j :: 0 <= i && 0 <= j && 0 <= Coord(i, l.inc) < vertexIndicesMap.Length0 && 0 <= Coord(j, l.inc) < vertexIndicesMap.Length1 ==>
      vertexIndicesMap[Coord(i, l.inc), Coord(j, l.inc)] == VertexNumber(l.verticesPerLine, i, j)
  }

  // ---------------------------------------------------------------------
  // Normals

  /** The unit normal of the triangle (pa, pb, pc): the normalised cross product of its sides from pa. */
  function SurfaceNormal(pa: Vector3, pb: Vector3, pc: Vector3, normalize: Normalizer): (r: Vector3)
    ensures pa == pb || pa == pc || pb == pc ==> r == normalize(Zero3)
  {
    normalize(Cross(Sub(pb, pa), Sub(pc, pa)))
  }

  /** Every triangle entry of tris names a slot of verts. */
  predicate IndicesWithin(tris: seq<int>, count: int) {
    forall k :: 0 <= k < |tris| ==> 0 <= tris[k] < count
  }

  /**
   * The accumulated normal of vertex v over the first n triangles of tris: each
   * triangle adds its face normal once for every corner that is v, corners in order.
   */
  function NormalSum(verts: seq<Vector3>, tris: seq<int>, normalize: Normalizer, n: nat, v: int): (r: Vector3)
    requires 3 * n <= |tris| && IndicesWithin(tris, |verts|)
    ensures !(0 <= v < |verts|) ==> r == Zero3
  {
    if n == 0 then Zero3
    else
      var s := NormalSum(verts, tris, normalize, n - 1, v);
      var a, b, c := tris[3 * (n - 1)], tris[3 * (n - 1) + 1], tris[3 * (n - 1) + 2];
      var fn := SurfaceNormal(verts[a], verts[b], verts[c], normalize);
      var s1 := if a == v then Add(s, fn) else s;
      var s2 := if b == v then Add(s1, fn) else s1;
      if c == v then Add(s2, fn) else s2
  }

  /** A vertex that no triangle among the first n uses accumulates nothing. */
  lemma {:induction false} NormalSumOfUnused(verts: seq<Vector3>, tris: seq<int>, normalize: Normalizer, n: nat, v: int)
    requires 3 * n <= |tris| && IndicesWithin(tris, |verts|)
    requires forall k :: 0 <= k < 3 * n ==> tris[k] != v
    ensures NormalSum(verts, tris, normalize, n, v) == Zero3
  {
    if n > 0 {
      NormalSumOfUnused(verts, tris, normalize, n - 1, v);
    }
  }

  /** Only the first 3n entries of the triangle buffer matter to the sum over n triangles. */
  lemma {:induction false} NormalSumPrefix(verts: seq<Vector3>, tris: seq<int>, tris': seq<int>, normalize: Normalizer, n: nat, v: int)
    requires 3 * n <= |tris| && 3 * n <= |tris'| && IndicesWithin(tris, |verts|) && IndicesWithin(tris', |verts|)
    requires tris[..3 * n] == tris'[..3 * n]
    ensures NormalSum(verts, tris, normalize, n, v) == NormalSum(verts, tris', normalize, n, v)
  {
    if n > 0 {
      assert tris[..3 * (n - 1)] == tris[..3 * n][..3 * (n - 1)];
      assert tris'[..3 * (n - 1)] == tris'[..3 * n][..3 * (n - 1)];
      NormalSumPrefix(verts, tris, tris', normalize, n - 1, v);
      assert tris[3 * (n - 1)] == tris[..3 * n][3 * (n - 1)];
      assert tris[3 * (n - 1) + 1] == tris[..3 * n][3 * (n - 1) + 1];
      assert tris[3 * (n - 1) + 2] == tris[..3 * n][3 * (n - 1) + 2];
    }
  }

  /** s with fn added to entry k. */
  function AddAt(s: seq<Vector3>, k: int, fn: Vector3): seq<Vector3>
    requires 0 <= k < |s|
  {
    s[k := Add(s[k], fn)]
  }

  /** The compound assignment `sums[k] += fn`. */
  method AddInPlace(sums: array<Vector3>, k: int, fn: Vector3)
    requires 0 <= k < sums.Length
    modifies sums
    ensures sums[..] == AddAt(old(sums[..]), k, fn)
  {
    sums[k] := Add(sums[k], fn);
  }

  /** One step of the accumulation: adding triangle i's face normal at its three corners, in order, turns the sums over i triangles into the sums over i + 1. */
  lemma AccumulateStep(verts: seq<Vector3>, tris: seq<int>, normalize: Normalizer, i: nat, sums: seq<Vector3>, next: seq<Vector3>)
    requires 3 * (i + 1) <= |tris| && IndicesWithin(tris, |verts|) && |sums| == |verts|
    requires forall v :: 0 <= v < |sums| ==> sums[v] == NormalSum(verts, tris, normalize, i, v)
    requires var fn := SurfaceNormal(verts[tris[3 * i]], verts[tris[3 * i + 1]], verts[tris[3 * i + 2]], normalize);
      next == AddAt(AddAt(AddAt(sums, tris[3 * i], fn), tris[3 * i + 1], fn), tris[3 * i + 2], fn)
    ensures |next| == |verts|
    ensures forall v :: 0 <= v < |next| ==> next[v] == NormalSum(verts, tris, normalize, i + 1, v)
  {
    var a, b, c := tris[3 * i], tris[3 * i + 1], tris[3 * i + 2];
    var fn := SurfaceNormal(verts[a], verts[b], verts[c], normalize);
    var s1 := AddAt(sums, a, fn);
    var s2 := AddAt(s1, b, fn);
    assert next == AddAt(s2, c, fn);
    forall v | 0 <= v < |next|
      ensures next[v] == NormalSum(verts, tris, normalize, i + 1, v)
    {
      assert s1[v] == if a == v then Add(sums[v], fn) else sums[v];
      assert s2[v] == if b == v then Add(s1[v], fn) else s1[v];
      assert next[v] == if c == v then Add(s2[v], fn) else s2[v];
    }
  }

  // ---------------------------------------------------------------------
  // MeshData

  class MeshData {
    var vertices: array<Vector3>
    var triangles: array<int>
    var uvs: array<Vector2>
    var bakedNormals: array?<Vector3>
    var triangleIndex: int
    const useFlatShading: bool

    /** One UV per vertex, and the write cursor within the triangle buffer. */
    ghost predicate Valid()
      reads this
    {
      vertices.Length == uvs.Length && 0 <= triangleIndex <= triangles.Length
    }

    /** Every triangle entry names a vertex slot. */
    ghost predicate IndicesInRange()
      reads this, triangles
    {
      IndicesWithin(triangles[..], vertices.Length)
    }

    /** bakedNormals holds, for every vertex, the normalised sum of the face normals of the triangles that use it. */
    ghost predicate NormalsBaked(normalize: Normalizer)
      reads this, vertices, triangles, bakedNormals
      requires IndicesInRange()
    {
      && bakedNormals != null
      && bakedNormals.Length == vertices.Length
      && forall v :: 0 <= v < vertices.Length ==>
           bakedNormals[v] == normalize(NormalSum(vertices[..], triangles[..], normalize, triangles.Length / 3, v))
    }

    /** The buffers are the flat-shaded form of (verts, uvSeq, tris): triangle slot k has private vertex k, copied from the corner it named. */
    ghost predicate FlatShadedFrom(verts: seq<Vector3>, uvSeq: seq<Vector2>, tris: seq<int>)
      reads this, vertices, uvs, triangles
    {
      && triangles.Length == |tris| && vertices.Length == |tris| && uvs.Length == |tris|
      && forall k :: 0 <= k < |tris| ==>
           && triangles[k] == k
           && 0 <= tris[k] < |verts| && tris[k] < |uvSeq|
           && vertices[k] == verts[tris[k]] && uvs[k] == uvSeq[tris[k]]
    }

    /** Allocates verticesPerLine² zeroed vertex and UV slots and (verticesPerLine - 1)² * 6 zeroed triangle slots. */
    constructor (verticesPerLine: int, useFlatShading: bool)
      ensures Valid() && this.useFlatShading == useFlatShading
      ensures vertices.Length == verticesPerLine * verticesPerLine
      ensures triangles.Length == TriangleSlotCount(verticesPerLine) && triangleIndex == 0
      ensures bakedNormals == null
      ensures forall k :: 0 <= k < vertices.Length ==> vertices[k] == Zero3 && uvs[k] == Zero2
      ensures forall k :: 0 <= k < triangles.Length ==> triangles[k] == 0
      ensures fresh(vertices) && fresh(uvs) && fresh(triangles)
    {
      this.useFlatShading := useFlatShading;
      var n := verticesPerLine * verticesPerLine;
      IntArith.MulMonotone(0, if verticesPerLine < 0 then -verticesPerLine else verticesPerLine, if verticesPerLine < 0 then -verticesPerLine else verticesPerLine);
      vertices := new Vector3[n](_ => Zero3);
      uvs := new Vector2[n](_ => Zero2);
      var w := verticesPerLine - 1;
      IntArith.MulMonotone(0, if w < 0 then -w else w, if w < 0 then -w else w);
      triangles := new int[w * w * 6](_ => 0);
      triangleIndex := 0;
      bakedNormals := null;
    }

    /** Stores a vertex and its UV at slot vertexIndex; nothing else changes. */
    method AddVertex(vertexPosition: Vector3, uv: Vector2, vertexIndex: int)
      requires Valid() && 0 <= vertexIndex < vertices.Length
      modifies vertices, uvs
      ensures vertices[..] == old(vertices[..])[vertexIndex := vertexPosition]
      ensures uvs[..] == old(uvs[..])[vertexIndex := uv]
    {
      vertices[vertexIndex] := vertexPosition;
      uvs[vertexIndex] := uv;
    }

    /** Writes a, b, c at the cursor and advances it by 3; nothing else changes. */
    method AddTriangle(a: int, b: int, c: int)
      requires Valid() && triangleIndex + 3 <= triangles.Length
      modifies this`triangleIndex, triangles
      ensures Valid() && triangleIndex == old(triangleIndex) + 3
      ensures triangles[..] == old(triangles[..])[old(triangleIndex) := a][old(triangleIndex) + 1 := b][old(triangleIndex) + 2 := c]
    {
      triangles[triangleIndex] := a;
      triangles[triangleIndex + 1] := b;
      triangles[triangleIndex + 2] := c;
      triangleIndex := triangleIndex + 3;
    }

    function SurfaceNormalFromIndices(indexA: int, indexB: int, indexC: int, normalize: Normalizer): (r: Vector3)
      reads this, vertices
      requires 0 <= indexA < vertices.Length && 0 <= indexB < vertices.Length && 0 <= indexC < vertices.Length
      ensures indexA == indexB || indexA == indexC || indexB == indexC ==> r == normalize(Zero3)
    {
      SurfaceNormal(vertices[indexA], vertices[indexB], vertices[indexC], normalize)
    }

    /** A fresh array holding, for every vertex, its normalised accumulated face normal. */
    method CalculateNormals(normalize: Normalizer) returns (vertexNormals: array<Vector3>)
      requires IndicesInRange()
      ensures fresh(vertexNormals) && vertexNormals.Length == vertices.Length
      ensures forall v :: 0 <= v < vertexNormals.Length ==>
        vertexNormals[v] == normalize(NormalSum(vertices[..], triangles[..], normalize, triangles.Length / 3, v))
    {
      ghost var verts, tris := vertices[..], triangles[..];
      vertexNormals := new Vector3[vertices.Length](_ => Zero3);
      var triangleCount := triangles.Length / 3;
      for i := 0 to triangleCount
        invariant forall v :: 0 <= v < vertexNormals.Length ==> vertexNormals[v] == NormalSum(verts, tris, normalize, i, v)
      {
        AccumulateTriangle(vertexNormals, i, normalize);
      }
      for i := 0 to vertexNormals.Length
        invariant forall v :: 0 <= v < i ==> vertexNormals[v] == normalize(NormalSum(verts, tris, normalize, triangleCount, v))
        invariant forall v :: i <= v < vertexNormals.Length ==> vertexNormals[v] == NormalSum(verts, tris, normalize, triangleCount, v)
      {
        vertexNormals[i] := normalize(vertexNormals[i]);
      }
    }

    /** One pass of CalculateNormals' first loop: adds triangle i's face normal at each of its three corners. */
    method AccumulateTriangle(vertexNormals: array<Vector3>, i: nat, normalize: Normalizer)
      requires IndicesInRange() && vertexNormals != vertices && vertexNormals.Length == vertices.Length && 3 * i + 3 <= triangles.Length
      requires forall v :: 0 <= v < vertexNormals.Length ==>
        vertexNormals[v] == NormalSum(vertices[..], triangles[..], normalize, i, v)
      modifies vertexNormals
      ensures forall v :: 0 <= v < vertexNormals.Length ==>
        vertexNormals[v] == NormalSum(vertices[..], triangles[..], normalize, i + 1, v)
    {
      ghost var verts, tris := vertices[..], triangles[..];
      var normalTriangleIndex := i * 3;
      var vertexIndexA := triangles[normalTriangleIndex];
      var vertexIndexB := triangles[normalTriangleIndex + 1];
      var vertexIndexC := triangles[normalTriangleIndex + 2];
      var triangleNormal := SurfaceNormalFromIndices(vertexIndexA, vertexIndexB, vertexIndexC, normalize);
      assert vertexIndexA == tris[3 * i] && vertexIndexB == tris[3 * i + 1] && vertexIndexC == tris[3 * i + 2];
      ghost var sums := vertexNormals[..];
      AddInPlace(vertexNormals, vertexIndexA, triangleNormal);
      AddInPlace(vertexNormals, vertexIndexB, triangleNormal);
      AddInPlace(vertexNormals, vertexIndexC, triangleNormal);
      AccumulateStep(verts, tris, normalize, i, sums, vertexNormals[..]);
    }

    /** Non-flat processing: stores the per-vertex normals and changes nothing else. */
    method BakeNormals(normalize: Normalizer)
      requires IndicesInRange()
      modifies this`bakedNormals
      ensures fresh(bakedNormals) && NormalsBaked(normalize)
    {
      bakedNormals := CalculateNormals(normalize);
    }

    /** Gives every triangle corner a private vertex: the buffers become the flat-shaded form of the old ones. */
    method FlatShading()
      requires Valid() && IndicesInRange()
      modifies this`vertices, this`uvs, triangles
      ensures Valid() && IndicesInRange() && fresh(vertices) && fresh(uvs)
      ensures FlatShadedFrom(old(vertices[..]), old(uvs[..]), old(triangles[..]))
    {
      ghost var tris := triangles[..];
      var flatShadedVertices := new Vector3[triangles.Length](_ => Zero3);
      var flatShadedUvs := new Vector2[triangles.Length](_ => Zero2);
      for i := 0 to triangles.Length
        invariant vertices == old(vertices) && uvs == old(uvs)
        invariant forall k :: i <= k < triangles.Length ==> triangles[k] == tris[k]
        invariant forall k :: 0 <= k < i ==>
          triangles[k] == k && flatShadedVertices[k] == vertices[tris[k]] && flatShadedUvs[k] == uvs[tris[k]]
      {
        flatShadedVertices[i] := vertices[triangles[i]];
        flatShadedUvs[i] := uvs[triangles[i]];
        triangles[i] := i;
      }
      vertices := flatShadedVertices;
      uvs := flatShadedUvs;
    }

    /** Flat-shades when useFlatShading is set; otherwise bakes normals and leaves the buffers alone. */
    method ProcessMesh(normalize: Normalizer)
      requires Valid() && IndicesInRange()
      modifies this`vertices, this`uvs, this`bakedNormals, triangles
      ensures Valid() && IndicesInRange()
      ensures useFlatShading ==>
        && fresh(vertices) && fresh(uvs) && bakedNormals == old(bakedNormals)
        && FlatShadedFrom(old(vertices[..]), old(uvs[..]), old(triangles[..]))
      ensures !useFlatShading ==>
        && vertices == old(vertices) && uvs == old(uvs) && unchanged(triangles)
        && fresh(bakedNormals) && NormalsBaked(normalize)
    {
      if useFlatShading {
        FlatShading();
      } else {
        BakeNormals(normalize);
      }
    }
  }

  // ---------------------------------------------------------------------
  // GenerateTerrainMesh

  /** The six slots of quad (i, j), written as (a, d, c) then (d, a, b), extend the correctly filled prefix of the triangle buffer. */
  lemma QuadEmitted(before: seq<int>, after: seq<int>, vpl: int, i: int, j: int, a: int, b: int, c: int, d: int)
    requires 0 <= i < vpl - 1 && 0 <= j < vpl - 1 && |before| == TriangleSlotCount(vpl)
    requires a == VertexNumber(vpl, i, j) && b == VertexNumber(vpl, i + 1, j)
    requires c == VertexNumber(vpl, i, j + 1) && d == VertexNumber(vpl, i + 1, j + 1)
    requires var t := TriangleSlot(vpl, i, j, 0);
      && 0 <= t && t + 6 <= |before|
      && (forall k :: 0 <= k < t ==> before[k] == TriangleEntry(vpl, k))
      && after == before[t := a][t + 1 := d][t + 2 := c][t + 3 := d][t + 4 := a][t + 5 := b]
    ensures forall k :: 0 <= k < TriangleSlot(vpl, i, j, 0) + 6 ==> after[k] == TriangleEntry(vpl, k)
  {
    var t := TriangleSlot(vpl, i, j, 0);
    QuadEntries(vpl, i, j);
    forall k | 0 <= k < t + 6
      ensures after[k] == TriangleEntry(vpl, k)
    {
      if k < t {
        assert after[k] == before[k];
      }
    }
  }

  /** The retained cells of the rows below `rows` hold their numbers. */
  ghost predicate RowsNumbered(vertexIndicesMap: array2<int>, l: Layout, rows: int)
    reads vertexIndicesMap
  {
    forall i, j :: 0 <= i && 0 <= j < rows && 0 <= Coord(i, l.inc) < vertexIndicesMap.Length0 && 0 <= Coord(j, l.inc) < vertexIndicesMap.Length1 ==>
      vertexIndicesMap[Coord(i, l.inc), Coord(j, l.inc)] == VertexNumber(l.verticesPerLine, i, j)
  }

  /** Once every retained row is numbered, so is the map. */
  lemma AllRowsNumbered(vertexIndicesMap: array2<int>, l: Layout)
    requires Consistent(l) && l.meshSize >= 1 && vertexIndicesMap.Length1 == l.meshSize
    requires RowsNumbered(vertexIndicesMap, l, l.verticesPerLine)
    ensures Numbered(vertexIndicesMap, l)
  {
    forall i, j | 0 <= i && 0 <= j && 0 <= Coord(i, l.inc) < vertexIndicesMap.Length0 && 0 <= Coord(j, l.inc) < vertexIndicesMap.Length1
      ensures vertexIndicesMap[Coord(i, l.inc), Coord(j, l.inc)] == VertexNumber(l.verticesPerLine, i, j)
    {
      StrideBound(l, j);
    }
  }

  /** The first pass: numbers the retained cells 0, 1, 2, ... row by row, column by column. */
  method NumberVertices(l: Layout) returns (vertexIndicesMap: array2<int>)
    requires Consistent(l) && l.meshSize >= 0
    ensures fresh(vertexIndicesMap)
    ensures vertexIndicesMap.Length0 == l.meshSize && vertexIndicesMap.Length1 == l.meshSize
    ensures Numbered(vertexIndicesMap, l)
  {
    var inc, meshSize := l.inc, l.meshSize;
    ghost var vpl := l.verticesPerLine;
    vertexIndicesMap := new int[meshSize, meshSize]((_, _) => 0);
    if meshSize == 0 {
      return;
    }
    var meshVertexIndex := 0;
    var y := 0;
    ghost var j := 0;
    while y < meshSize
      invariant 0 <= j <= vpl && y == Coord(j, inc)
      invariant meshVertexIndex == VertexNumber(vpl, 0, j)
      invariant RowsNumbered(vertexIndicesMap, l, j)
    {
      StrideBound(l, j);
      meshVertexIndex := NumberRow(vertexIndicesMap, l, y, j, meshVertexIndex);
      CoordStep(j, inc);
      y := y + inc;
      j := j + 1;
    }
    StrideBound(l, j);
    AllRowsNumbered(vertexIndicesMap, l);
  }

  /** One row of the first pass: numbers the retained cells of row j (cell row y) from start on. */
  method NumberRow(vertexIndicesMap: array2<int>, l: Layout, y: int, ghost j: int, start: int) returns (next: int)
    requires Consistent(l) && l.meshSize >= 1
    requires vertexIndicesMap.Length0 == l.meshSize && vertexIndicesMap.Length1 == l.meshSize
    requires 0 <= j < l.verticesPerLine && y == Coord(j, l.inc) && start == VertexNumber(l.verticesPerLine, 0, j)
    requires RowsNumbered(vertexIndicesMap, l, j)
    modifies vertexIndicesMap
    ensures next == VertexNumber(l.verticesPerLine, 0, j + 1)
    ensures RowsNumbered(vertexIndicesMap, l, j + 1)
  {
    var inc, meshSize := l.inc, l.meshSize;
    ghost var vpl := l.verticesPerLine;
    StrideBoundAll(l);
    RowsAbove(j, inc);
    next := start;
    var x := 0;
    ghost var i := 0;
    while x < meshSize
      invariant 0 <= i <= vpl && x == Coord(i, inc)
      invariant next == VertexNumber(vpl, i, j)
      invariant forall i' :: 0 <= i' < i ==> vertexIndicesMap[Coord(i', inc), y] == VertexNumber(vpl, i', j)
      invariant RowsNumbered(vertexIndicesMap, l, j)
    {
      RowsAbove(i, inc);
      vertexIndicesMap[x, y] := next;
      next := next + 1;
      CoordStep(i, inc);
      x := x + inc;
      i := i + 1;
    }
    RowEndNumber(vpl, j);
    RowCompleted(vertexIndicesMap, l, j);
  }

  /** The rows (or columns) before j lie strictly before row j. */
  lemma RowsAbove(j: int, inc: int)
    requires inc >= 1
    ensures forall j' :: j' < j ==> Coord(j', inc) < Coord(j, inc)
  {
    forall j' | j' < j
      ensures Coord(j', inc) < Coord(j, inc)
    {
      IntArith.MulStrict(j', j, inc);
    }
  }

  /** Numbering every retained cell of row j extends the numbered rows by one. */
  lemma RowCompleted(vertexIndicesMap: array2<int>, l: Layout, j: int)
    requires Consistent(l) && l.meshSize >= 1 && vertexIndicesMap.Length0 == l.meshSize && 0 <= j
    requires 0 <= Coord(j, l.inc) < vertexIndicesMap.Length1
    requires RowsNumbered(vertexIndicesMap, l, j)
    requires forall i' :: 0 <= i' < l.verticesPerLine && 0 <= Coord(i', l.inc) < vertexIndicesMap.Length0 ==>
      vertexIndicesMap[Coord(i', l.inc), Coord(j, l.inc)] == VertexNumber(l.verticesPerLine, i', j)
    ensures RowsNumbered(vertexIndicesMap, l, j + 1)
  {
    forall i', j' | 0 <= i' && 0 <= j' < j + 1 && 0 <= Coord(i', l.inc) < vertexIndicesMap.Length0 && 0 <= Coord(j', l.inc) < vertexIndicesMap.Length1
      ensures vertexIndicesMap[Coord(i', l.inc), Coord(j', l.inc)] == VertexNumber(l.verticesPerLine, i', j')
    {
      StrideBound(l, i');
    }
  }

  /** The vertex and UV slots below n that name cells inside the height map hold those cells' values. */
  ghost predicate VerticesWritten(meshData: MeshData, src: HeightSource, l: Layout, n: int)
    reads meshData, meshData.vertices, meshData.uvs, src.heightMap
  {
    SlotsWritten(meshData.vertices[..], meshData.uvs[..], src, l, n)
  }

  /** VerticesWritten on the buffers' contents. */
  ghost predicate SlotsWritten(verts: seq<Vector3>, uvSeq: seq<Vector2>, src: HeightSource, l: Layout, n: int)
    reads src.heightMap
  {
    |verts| == |uvSeq| &&
    forall k :: 0 <= k < n && k < |verts| && SlotInMap(src, l, k) ==> verts[k] == GridVertex(src, l, k) && uvSeq[k] == GridUv(l, k)
  }

  /** Writing cell (i, j)'s vertex and UV at its number extends the written slots by one. */
  lemma CellWritten(verts: seq<Vector3>, uvSeq: seq<Vector2>, src: HeightSource, l: Layout, i: int, j: int)
    requires Consistent(l) && l.meshSize >= 1
    requires 0 <= i < l.verticesPerLine && 0 <= j < l.verticesPerLine
    requires 0 <= Coord(i, l.inc) < src.heightMap.Length0 && 0 <= Coord(j, l.inc) < src.heightMap.Length1
    requires 0 <= VertexNumber(l.verticesPerLine, i, j) < |verts| == l.verticesPerLine * l.verticesPerLine
    requires SlotsWritten(verts, uvSeq, src, l, VertexNumber(l.verticesPerLine, i, j))
    ensures var n := VertexNumber(l.verticesPerLine, i, j);
      SlotsWritten(verts[n := CellVertex(src, l, Coord(i, l.inc), Coord(j, l.inc))],
                   uvSeq[n := CellUv(l, Coord(i, l.inc), Coord(j, l.inc))], src, l, n + 1)
  {
    GridVertexOfCell(src, l, i, j);
  }

  /**
   * Which retained cells the second pass gets past: an interior cell exactly when
   * its quad's far corner is retained too, any other cell (which lies in the last
   * retained column or row of an aligned stride) always; an unaligned stride only
   * reaches row 0.
   */
  lemma CellOutcome(l: Layout, i: int, j: int)
    requires Consistent(l) && l.meshSize >= 1
    requires 0 <= i < l.verticesPerLine && 0 <= j < l.verticesPerLine && (!Aligned(l) ==> j == 0)
    ensures Coord(i, l.inc) < l.meshSize - 1 && Coord(j, l.inc) < l.meshSize - 1 ==>
      (i < l.verticesPerLine - 1 && j < l.verticesPerLine - 1 <==> Aligned(l) || i < l.verticesPerLine - 1)
    ensures !(Coord(i, l.inc) < l.meshSize - 1 && Coord(j, l.inc) < l.meshSize - 1) ==>
      Aligned(l) && (i == l.verticesPerLine - 1 || j == l.verticesPerLine - 1)
  {
    LastRetained(l);
    InteriorColumn(l, i);
    InteriorColumn(l, j);
  }

  /**
   * The state of the second pass before cell (i, j): the quads before it have
   * been emitted and the vertices numbered before it written.
   */
  ghost predicate FilledTo(meshData: MeshData, src: HeightSource, l: Layout, i: int, j: int)
    reads meshData, meshData.vertices, meshData.uvs, meshData.triangles, src.heightMap
  {
    var vpl := l.verticesPerLine;
    && meshData.Valid() && meshData.vertices.Length == vpl * vpl
    && meshData.triangleIndex == EmittedBefore(vpl, i, j)
    && TrianglesWritten(meshData, vpl)
    && VerticesWritten(meshData, src, l, VertexNumber(vpl, i, j))
  }

  /** The triangle slots below the cursor hold their final entries. */
  ghost predicate TrianglesWritten(meshData: MeshData, vpl: int)
    reads meshData, meshData.triangles
    requires meshData.Valid()
  {
    && vpl >= 1 && meshData.triangles.Length == TriangleSlotCount(vpl)
    && forall k :: 0 <= k < meshData.triangleIndex ==> meshData.triangles[k] == TriangleEntry(vpl, k)
  }

  /**
   * The second pass: writes every retained cell's vertex and UV at the number
   * the first pass gave it and, for every interior cell, the two triangles of its
   * quad at the cursor. It fails where the source raises IndexOutOfRangeException:
   * a row beyond the height map, or a neighbour beyond the vertex index map.
   */
  method FillMesh(meshData: MeshData, src: HeightSource, l: Layout, vertexIndicesMap: array2<int>) returns (ok: bool)
    requires Consistent(l) && 1 <= l.meshSize <= src.heightMap.Length0
    requires vertexIndicesMap.Length0 == l.meshSize && vertexIndicesMap.Length1 == l.meshSize
    requires Numbered(vertexIndicesMap, l)
    requires meshData.Valid() && meshData.triangleIndex == 0
    requires meshData.vertices.Length == l.verticesPerLine * l.verticesPerLine
    requires meshData.triangles.Length == TriangleSlotCount(l.verticesPerLine)
    modifies meshData`triangleIndex, meshData.vertices, meshData.uvs, meshData.triangles
    ensures meshData.Valid()
    ensures ok <==> Aligned(l) && l.meshSize <= src.heightMap.Length1
    ensures ok ==> meshData.triangleIndex == meshData.triangles.Length
    ensures ok ==> forall k :: 0 <= k < meshData.vertices.Length ==>
      SlotInMap(src, l, k) && meshData.vertices[k] == GridVertex(src, l, k) && meshData.uvs[k] == GridUv(l, k)
    ensures ok ==> forall k :: 0 <= k < meshData.triangles.Length ==> meshData.triangles[k] == TriangleEntry(l.verticesPerLine, k)
  {
    var inc, meshSize := l.inc, l.meshSize;
    ghost var vpl := l.verticesPerLine;
    var y := 0;
    ghost var j := 0;
    while y < meshSize
      invariant 0 <= j <= vpl && y == Coord(j, inc)
      invariant j > 0 ==> Aligned(l) && Coord(j - 1, inc) < src.heightMap.Length1
      invariant FilledTo(meshData, src, l, 0, j)
    {
      StrideBound(l, j);
      ok := FillRow(meshData, src, l, vertexIndicesMap, y, j);
      if !ok {
        return;
      }
      CoordStep(j, inc);
      y := y + inc;
      j := j + 1;
    }
    StrideBound(l, j);
    LastRowFits(l, src.heightMap.Length1, j);
    EmittedRowEnd(vpl, 0);
    AllVerticesWritten(meshData, src, l);
    return true;
  }

  /** Once the last retained row has been read, the whole mesh fits the map's second dimension. */
  lemma LastRowFits(l: Layout, length1: int, j: int)
    requires Consistent(l) && Aligned(l) && j == l.verticesPerLine
    requires Coord(j - 1, l.inc) < length1
    ensures l.meshSize <= length1
    ensures VertexNumber(l.verticesPerLine, 0, j) == l.verticesPerLine * l.verticesPerLine
  {
    LastRetained(l);
  }

  /** VerticesWritten up to vpl * vpl, read back on the arrays themselves. */
  lemma AllVerticesWritten(meshData: MeshData, src: HeightSource, l: Layout)
    requires Consistent(l) && Aligned(l)
    requires l.meshSize <= src.heightMap.Length0 && l.meshSize <= src.heightMap.Length1
    requires meshData.vertices.Length == l.verticesPerLine * l.verticesPerLine
    requires VerticesWritten(meshData, src, l, meshData.vertices.Length)
    ensures forall k :: 0 <= k < meshData.vertices.Length ==>
      SlotInMap(src, l, k) && meshData.vertices[k] == GridVertex(src, l, k) && meshData.uvs[k] == GridUv(l, k)
  {
    var verts, uvSeq := meshData.vertices[..], meshData.uvs[..];
    AllSlotsWritten(verts, uvSeq, src, l);
    forall k | 0 <= k < meshData.vertices.Length
      ensures SlotInMap(src, l, k) && meshData.vertices[k] == GridVertex(src, l, k) && meshData.uvs[k] == GridUv(l, k)
    {
      assert meshData.vertices[k] == verts[k] && meshData.uvs[k] == uvSeq[k];
    }
  }

  /** Once every number below vpl * vpl is written, every slot holds its grid vertex and uv. */
  lemma AllSlotsWritten(verts: seq<Vector3>, uvSeq: seq<Vector2>, src: HeightSource, l: Layout)
    requires Consistent(l) && Aligned(l)
    requires l.meshSize <= src.heightMap.Length0 && l.meshSize <= src.heightMap.Length1
    requires |verts| == l.verticesPerLine * l.verticesPerLine
    requires SlotsWritten(verts, uvSeq, src, l, |verts|)
    ensures forall k :: 0 <= k < |verts| ==>
      SlotInMap(src, l, k) && verts[k] == GridVertex(src, l, k) && uvSeq[k] == GridUv(l, k)
  {
    SlotsInMap(src, l);
  }

  /** The inner loop of the second pass, over the retained cells of row j (cell row y). */
  method FillRow(meshData: MeshData, src: HeightSource, l: Layout, vertexIndicesMap: array2<int>, y: int, ghost j: int) returns (ok: bool)
    requires Consistent(l) && 1 <= l.meshSize <= src.heightMap.Length0
    requires vertexIndicesMap.Length0 == l.meshSize && vertexIndicesMap.Length1 == l.meshSize
    requires Numbered(vertexIndicesMap, l)
    requires 0 <= j < l.verticesPerLine && y == Coord(j, l.inc)
    requires !Aligned(l) ==> j == 0
    requires FilledTo(meshData, src, l, 0, j)
    modifies meshData`triangleIndex, meshData.vertices, meshData.uvs, meshData.triangles
    ensures meshData.Valid()
    ensures ok <==> Aligned(l) && y < src.heightMap.Length1
    ensures ok ==> FilledTo(meshData, src, l, 0, j + 1)
  {
    var inc, meshSize := l.inc, l.meshSize;
    ghost var vpl := l.verticesPerLine;
    StrideBound(l, j);
    IntArith.MulMonotone(0, j, inc);
    var x := 0;
    ghost var i := 0;
    while x < meshSize
      invariant 0 <= i <= vpl && x == Coord(i, inc)
      invariant !Aligned(l) ==> i < vpl
      invariant i > 0 ==> y < src.heightMap.Length1
      invariant FilledTo(meshData, src, l, i, j)
    {
      StrideBound(l, i);
      IntArith.MulMonotone(0, i, inc);
      ok := FillCell(meshData, src, l, vertexIndicesMap, x, y, i, j);
      if !ok {
        return;
      }
      CoordStep(i, inc);
      x := x + inc;
      i := i + 1;
    }
    StrideBound(l, i);
    EmittedRowEnd(vpl, j);
    RowEndNumber(vpl, j);
    return true;
  }

  /**
   * The body of the inner loop for retained cell (i, j) at (x, y): its vertex and
   * UV, then, for an interior cell, the two triangles of its quad.
   */
  method FillCell(meshData: MeshData, src: HeightSource, l: Layout, vertexIndicesMap: array2<int>, x: int, y: int, ghost i: int, ghost j: int)
    returns (ok: bool)
    requires Consistent(l) && 1 <= l.meshSize <= src.heightMap.Length0
    requires vertexIndicesMap.Length0 == l.meshSize && vertexIndicesMap.Length1 == l.meshSize
    requires Numbered(vertexIndicesMap, l)
    requires 0 <= i < l.verticesPerLine && 0 <= j < l.verticesPerLine
    requires x == Coord(i, l.inc) && y == Coord(j, l.inc) && 0 <= x < l.meshSize && 0 <= y < l.meshSize
    requires !Aligned(l) ==> j == 0
    requires FilledTo(meshData, src, l, i, j)
    modifies meshData`triangleIndex, meshData.vertices, meshData.uvs, meshData.triangles
    ensures meshData.Valid()
    ensures ok <==> y < src.heightMap.Length1 && (Aligned(l) || i < l.verticesPerLine - 1)
    ensures ok ==> FilledTo(meshData, src, l, i + 1, j)
  {
    var inc, meshSize := l.inc, l.meshSize;
    ghost var vpl := l.verticesPerLine;
    var vertexIndex := vertexIndicesMap[x, y];
    if y >= src.heightMap.Length1 {
      // heightMap[x, y] is out of range
      return false;
    }
    WriteCell(meshData, src, l, x, y, i, j, vertexIndex);
    CellOutcome(l, i, j);
    if x < meshSize - 1 && y < meshSize - 1 {
      ok := EmitQuad(meshData, l, vertexIndicesMap, x, y, i, j);
      return;
    }
    return true;
  }

  /** The vertex and UV of retained cell (i, j) at (x, y), written at its number. */
  method WriteCell(meshData: MeshData, src: HeightSource, l: Layout, x: int, y: int, ghost i: int, ghost j: int, vertexIndex: int)
    requires Consistent(l) && 1 <= l.meshSize
    requires 0 <= i < l.verticesPerLine && 0 <= j < l.verticesPerLine
    requires x == Coord(i, l.inc) && y == Coord(j, l.inc) && 0 <= x < src.heightMap.Length0 && 0 <= y < src.heightMap.Length1
    requires vertexIndex == VertexNumber(l.verticesPerLine, i, j)
    requires meshData.Valid() && meshData.vertices.Length == l.verticesPerLine * l.verticesPerLine
    requires VerticesWritten(meshData, src, l, vertexIndex)
    modifies meshData.vertices, meshData.uvs
    ensures VerticesWritten(meshData, src, l, vertexIndex + 1)
  {
    var percent := CellUv(l, x, y);
    var vertexPosition := CellVertex(src, l, x, y);
    NumberRoundTrip(l.verticesPerLine, i, j);
    CellWritten(meshData.vertices[..], meshData.uvs[..], src, l, i, j);
    meshData.AddVertex(vertexPosition, percent, vertexIndex);
  }

  /**
   * The two triangles of the quad whose top-left corner is interior cell (i, j) at
   * (x, y). It fails, as the source's neighbour lookups would, when a neighbour
   * lies beyond the vertex index map.
   */
  method EmitQuad(meshData: MeshData, l: Layout, vertexIndicesMap: array2<int>, x: int, y: int, ghost i: int, ghost j: int)
    returns (ok: bool)
    requires Consistent(l) && l.meshSize >= 1
    requires vertexIndicesMap.Length0 == l.meshSize && vertexIndicesMap.Length1 == l.meshSize
    requires Numbered(vertexIndicesMap, l)
    requires 0 <= i < l.verticesPerLine && 0 <= j < l.verticesPerLine
    requires x == Coord(i, l.inc) && y == Coord(j, l.inc) && 0 <= x < l.meshSize - 1 && 0 <= y < l.meshSize - 1
    requires meshData.Valid() && meshData.triangleIndex == EmittedBefore(l.verticesPerLine, i, j)
    requires TrianglesWritten(meshData, l.verticesPerLine)
    modifies meshData`triangleIndex, meshData.triangles
    ensures meshData.Valid()
    ensures ok <==> i < l.verticesPerLine - 1 && j < l.verticesPerLine - 1
    ensures ok ==> meshData.triangleIndex == EmittedBefore(l.verticesPerLine, i + 1, j)
    ensures ok ==> TrianglesWritten(meshData, l.verticesPerLine)
  {
    var inc, meshSize := l.inc, l.meshSize;
    ghost var vpl := l.verticesPerLine;
    StrideBound(l, i + 1);
    StrideBound(l, j + 1);
    CoordStep(i, inc);
    CoordStep(j, inc);
    if x + inc >= meshSize || y + inc >= meshSize {
      // the neighbour lookups fall outside vertexIndicesMap
      return false;
    }
    var a := vertexIndicesMap[x, y];
    var b := vertexIndicesMap[x + inc, y];
    var c := vertexIndicesMap[x, y + inc];
    var d := vertexIndicesMap[x + inc, y + inc];
    QuadFits(vpl, i, j);
    ghost var before := meshData.triangles[..];
    meshData.AddTriangle(a, d, c);
    meshData.AddTriangle(d, a, b);
    QuadEmitted(before, meshData.triangles[..], vpl, i, j, a, b, c, d);
    return true;
  }

  /**
   * m holds the mesh built from src at layout l, processed as m's shading flag
   * says. With an aligned stride: flat-shaded, triangle slot k has a private vertex
   * copied from the cell TriangleEntry names; otherwise the cells' vertices in
   * numbering order, the quads' triangles and the baked normals. An empty mesh keeps
   * its single allocated vertex slot, or none once flat-shaded.
   */
  ghost predicate Built(m: MeshData, src: HeightSource, l: Layout, normalize: Normalizer)
    reads m, m.vertices, m.uvs, m.triangles, m.bakedNormals, src.heightMap
  {
    var vpl := l.verticesPerLine;
    && vpl >= 1 && m.Valid() && m.IndicesInRange()
    && (m.useFlatShading ==>
         && m.vertices.Length == m.triangles.Length == (if Aligned(l) then TriangleSlotCount(vpl) else 0)
         && (Aligned(l) ==> forall k :: 0 <= k < m.triangles.Length ==>
               && m.triangles[k] == k
               && SlotInMap(src, l, TriangleEntry(vpl, k))
               && m.vertices[k] == GridVertex(src, l, TriangleEntry(vpl, k))
               && m.uvs[k] == GridUv(l, TriangleEntry(vpl, k))))
    && (!m.useFlatShading ==>
         && m.vertices.Length == vpl * vpl && m.triangles.Length == TriangleSlotCount(vpl)
         && (forall k :: 0 <= k < m.triangles.Length ==> m.triangles[k] == TriangleEntry(vpl, k))
         && (Aligned(l) ==> forall k :: 0 <= k < m.vertices.Length ==>
               SlotInMap(src, l, k) && m.vertices[k] == GridVertex(src, l, k) && m.uvs[k] == GridUv(l, k))
         && (!Aligned(l) ==> m.vertices[0] == Zero3 && m.uvs[0] == Zero2)
         && m.NormalsBaked(normalize))
  }

  /** The buffers as the two passes leave them: the cells' vertices and UVs in numbering order and the quads' triangles. */
  ghost predicate Unprocessed(verts: seq<Vector3>, uvSeq: seq<Vector2>, tris: seq<int>, src: HeightSource, l: Layout)
    reads src.heightMap
  {
    var vpl := l.verticesPerLine;
    && vpl >= 1 && |verts| == |uvSeq| == vpl * vpl && |tris| == TriangleSlotCount(vpl)
    && (forall k :: 0 <= k < |tris| ==> tris[k] == TriangleEntry(vpl, k) && 0 <= tris[k] < |verts|)
    && (Aligned(l) ==> forall k :: 0 <= k < |verts| ==>
          SlotInMap(src, l, k) && verts[k] == GridVertex(src, l, k) && uvSeq[k] == GridUv(l, k))
    && (!Aligned(l) ==> |tris| == 0 && verts[0] == Zero3 && uvSeq[0] == Zero2)
  }

  /** Processing the buffers the passes left gives the mesh Built describes. */
  lemma ProcessedIsBuilt(m: MeshData, src: HeightSource, l: Layout, normalize: Normalizer,
                         verts: seq<Vector3>, uvSeq: seq<Vector2>, tris: seq<int>)
    requires Unprocessed(verts, uvSeq, tris, src, l)
    requires m.Valid() && m.IndicesInRange()
    requires m.useFlatShading ==> m.FlatShadedFrom(verts, uvSeq, tris)
    requires !m.useFlatShading ==>
      m.vertices[..] == verts && m.uvs[..] == uvSeq && m.triangles[..] == tris && m.NormalsBaked(normalize)
    ensures Built(m, src, l, normalize)
  {
    if !m.useFlatShading {
      assert forall k :: 0 <= k < m.vertices.Length ==> m.vertices[k] == verts[k] && m.uvs[k] == uvSeq[k];
      assert forall k :: 0 <= k < m.triangles.Length ==> m.triangles[k] == tris[k];
    }
  }

  /**
   * Builds the terrain mesh of a height map at a level of detail. Fails with
   * NullCurve on a null curve, with NegativeMeshSize when the map is narrower than
   * two strides, and with IndexOutOfRange exactly when the passes cannot complete.
   */
  method GenerateTerrainMesh(heightMap: array2<real>, heightMultiplier: real, heightCurve: Option<AnimationCurve>,
                             levelOfDetail: nat, useFlatShading: bool, evaluate: CurveEvaluator, normalize: Normalizer)
    returns (r: Result<MeshData, MeshError>)
    ensures heightCurve.None? ==> r == Failure(NullCurve)
    ensures heightCurve.Some? ==>
      var l := LayoutOf(heightMap.Length0, levelOfDetail);
      && (l.meshSize < 0 ==> r == Failure(NegativeMeshSize))
      && (l.meshSize >= 0 ==> (r.Success? <==> Completes(l, heightMap.Length0, heightMap.Length1)))
      && (l.meshSize >= 0 && r.Failure? ==> r.error == IndexOutOfRange)
    ensures r.Success? ==>
      && heightCurve.Some? && fresh(r.value) && r.value.useFlatShading == useFlatShading
      && Built(r.value, HeightSource(heightMap, heightMultiplier, heightCurve.value.keys, evaluate),
               LayoutOf(heightMap.Length0, levelOfDetail), normalize)
  {
    if heightCurve.None? {
      return Failure(NullCurve);
    }
    var curve := AnimationCurve(heightCurve.value.keys);
    var l := LayoutOf(heightMap.Length0, levelOfDetail);
    var meshSize := l.meshSize;
    var meshData := new MeshData(l.verticesPerLine, useFlatShading);
    if meshSize < 0 {
      return Failure(NegativeMeshSize);
    }
    var vertexIndicesMap := NumberVertices(l);
    var src := HeightSource(heightMap, heightMultiplier, curve.keys, evaluate);
    if meshSize >= 1 {
      var ok := FillMesh(meshData, src, l, vertexIndicesMap);
      if !ok {
        return Failure(IndexOutOfRange);
      }
    }
    if meshData.triangles.Length > 0 && meshData.vertices.Length == 0 {
      // ProcessMesh reads vertices[triangles[0]] from an empty vertex buffer
      return Failure(IndexOutOfRange);
    }
    if Aligned(l) {
      TriangleEntriesInRange(l.verticesPerLine);
    }
    assert Unprocessed(meshData.vertices[..], meshData.uvs[..], meshData.triangles[..], src, l);
    ghost var verts, uvSeq, tris := meshData.vertices[..], meshData.uvs[..], meshData.triangles[..];
    meshData.ProcessMesh(normalize);
    ProcessedIsBuilt(meshData, src, l, normalize, verts, uvSeq, tris);
    return Success(meshData);
  }
}
