# Procedural terrain core of Unity-AlReves, in Dafny

This project models the three scripts that turn parameters into terrain in the
Unity-AlReves project:

- **Noise** (`Noise.cs`): `GenerateNoiseMap` picks a generator by noise type.
  - The terrain generator sums octaves of Perlin noise at seeded random
    origins. It keeps a running maximum and minimum, then rescales every cell
    in place with `InverseLerp(min, max, cell)`.
  - The Vasarely generator starts its octave progression one power in. It
    passes each raw sum through a copy of an animation curve.
- **MeshGenerator** (`MeshGenerator.cs`): `GenerateTerrainMesh` works in two
  passes over a square height map, at a level-of-detail stride.
  - The first pass numbers the retained cells row by row.
  - The second pass writes each cell's vertex and UV at its number into a
    `MeshData`. It also emits two triangles for every interior quad.
  - `MeshData.ProcessMesh` then either flat-shades the buffers or bakes
    per-vertex normals.
- **MapGenerator** (`MapGenerator.cs`):
  - `GenerateColourMap` paints a 241 × 241 chunk from a noise map, using either
    the first matching colour band or a white-to-clear fade.
  - `GenerateDefaultRegions` installs the default eight-band table.
  - `OnValidate` sanitises lacunarity and the octave count.

The Dafny takes the scripts' own form:

- `MeshData` and `MapGenerator` are classes whose methods update their fields.
- Every loop of the source is a method with a `while` or `for` loop. Each loop
  is proved against a specification function: `RawHeight`, `ScanTo`,
  `TerrainHeight`, `VertexNumber`, `TriangleEntry`, `NormalSum`,
  `FirstMatch`, `DefaultRegions`.
- Facts about those functions are proved as lemmas.

Modules:

- `Wrappers`: `Option` and `Result`.
- `IntArith`: a few multiplication and division facts.
- `UnityMath`: Vector2 and Vector3, Color, `Mathf.Clamp01`, `InverseLerp`,
  `Color.Lerp`, C#'s truncating integer division, and `System.Random`.
- `Noise`, `MeshIndexing` (the mesh builder's index arithmetic),
  `MeshGenerator` and `MapGenerator`.

Except where "## Left out" says otherwise, exceptions the C# code would raise
become `Failure` values at the point where they arise:

- a null curve;
- a negative array size;
- an index outside the vertex index map, the height map or the noise map.

## Model

| member | source | states |
|---|---|---|
| UnityMath.Clamp01 | Assets/Scripts/Terrain/Noise.cs:67 | the result lies in [0, 1]: the value itself inside, 0 below, 1 above |
| UnityMath.InverseLerp | Assets/Scripts/Terrain/Noise.cs:67 | the result lies in [0, 1]; it is 0 when the bounds coincide, 0 at the lower bound and 1 at the upper |
| UnityMath.InverseLerpOfLerp | Assets/Scripts/Terrain/Noise.cs:67 | on a non-degenerate interval, InverseLerp undoes Lerp for every t in [0, 1] |
| UnityMath.Lerp | Assets/Scripts/Terrain/MapGenerator.cs:77 | Mathf.Lerp per channel: the first value for t ≤ 0, the second for t ≥ 1, and always between the two |
| UnityMath.ColourLerp | Assets/Scripts/Terrain/MapGenerator.cs:77 | Color.Lerp gives the first colour for t ≤ 0 and the second for t ≥ 1 |
| UnityMath.Rgba32 | Assets/Scripts/Terrain/MapGenerator.cs:89-121 | a `#RRGGBBAA` colour's four bytes become channels in [0, 1]; alpha byte 0 gives alpha 0 and byte 255 alpha 1, and no other byte does either |
| UnityMath.Cross | Assets/Scripts/Terrain/MeshGenerator.cs:120-122 | the face normal before normalisation is orthogonal to both sides of the triangle, and it is the zero vector when a side is zero or the two sides coincide |
| UnityMath.TruncDiv | Assets/Scripts/Terrain/MeshGenerator.cs:17 | C# division rounds toward zero: it agrees with Euclidean division on non-negative numerators, and for negative ones the remainder is non-positive and smaller than the divisor |
| UnityMath.NextValue | Assets/Scripts/Terrain/Noise.cs:22-23 | the k-th draw `Next(lo, hi)` of a seeded generator lies in [lo, hi) when lo < hi, and is lo otherwise |
| UnityMath.SeededRandom.constructor | Assets/Scripts/Terrain/Noise.cs:19 | `new System.Random(seed)`: a generator over the given seed that has drawn nothing yet |
| UnityMath.SeededRandom.Next | Assets/Scripts/Terrain/Noise.cs:22-23 | one call returns the next draw of the seeded stream and advances the draw count by one |
| Noise.ClampScale | Assets/Scripts/Terrain/Noise.cs:27-29 | a non-positive scale becomes 0.0001 and a positive one is kept, so the scale used is always positive |
| Noise.OctaveOffset | Assets/Scripts/Terrain/Noise.cs:19-25 | octave i's origin is draws 2i and 2i+1 of the seeded generator added to the offset, so each coordinate lies within 100000 of it |
| Noise.DrawOctaveOffsets | Assets/Scripts/Terrain/Noise.cs:19-25 | gives a fresh array of exactly `octaves` origins, where entry i is OctaveOffset(i), a function of the seed alone |
| Noise.MakeSampling | Assets/Scripts/Terrain/Noise.cs:19-35 | the sampling set up for a map has one origin per octave and records which generator (terrain or Vasarely) it is for, which fixes the starting exponent |
| Noise.OctaveExponent | Assets/Scripts/Terrain/Noise.cs:41-53 | octave i's amplitude and frequency are the i-th power of persistance and lacunarity in the terrain generator and one power further (lines 101-113) in the Vasarely one; the exponent is i + 1 exactly for Vasarely |
| Noise.SampleCoordinate | Assets/Scripts/Terrain/Noise.cs:46-47 | the sample coordinate of a cell: the centre cell, or a zero frequency, samples exactly at the octave's origin |
| Noise.OctavePerlin | Assets/Scripts/Terrain/Noise.cs:46-49 | octave i's Perlin sample at the running frequency; the centre cell of the map samples every octave exactly at its random origin |
| Noise.OctaveContribution | Assets/Scripts/Terrain/Noise.cs:49-50 | what octave i adds to a cell: its sample remapped to [-1, 1] times its amplitude, so a sample of 0.5 adds nothing |
| Noise.OctaveSum | Assets/Scripts/Terrain/Noise.cs:45-54 | the running sum after n octaves; with persistance 0 the Vasarely sum is 0, because its amplitude starts at persistance |
| Noise.RawHeight | Assets/Scripts/Terrain/Noise.cs:41-54 | a cell's sum over all octaves, the value the octave loop leaves in noiseHeight; with no octaves it is 0 |
| Noise.OctaveStep | Assets/Scripts/Terrain/Noise.cs:45-50 | one octave adds its Perlin sample remapped to [-1, 1], taken at the running frequency and weighted by the running amplitude |
| Noise.ProgressionStep | Assets/Scripts/Terrain/Noise.cs:52-53 | after each octave, amplitude and frequency are multiplied by persistance and lacunarity |
| Noise.ProgressionStart | Assets/Scripts/Terrain/Noise.cs:41-42 | before the first octave, amplitude and frequency are 1 in the terrain generator and persistance and lacunarity (lines 101-102) in the Vasarely one |
| Noise.AddOctave | Assets/Scripts/Terrain/Noise.cs:46-53 | one pass of the octave loop turns the sum, amplitude and frequency for i octaves into those for i+1 |
| Noise.SampleOctaves | Assets/Scripts/Terrain/Noise.cs:41-54 | the octave loop for one cell yields that cell's RawHeight |
| Noise.ContributionBounded | Assets/Scripts/Terrain/Noise.cs:49-50 | with Perlin samples in [0, 1] and persistance ≥ 0, octave i contributes at most plus or minus its running amplitude, persistance to the power OctaveExponent(i) |
| Noise.OctaveSumBounded | Assets/Scripts/Terrain/Noise.cs:45-54 | under the same conditions a raw height is bounded by the sum of the octave amplitudes |
| Noise.Step | Assets/Scripts/Terrain/Noise.cs:56-60 | the maximum grows to cover the value; the minimum changes only in the else-branch, so a value that sets a new maximum is never compared with it |
| Noise.ScanTo | Assets/Scripts/Terrain/Noise.cs:31-63 | the running extremes after the row-major scan reaches cell (x, y), starting from the float.MinValue and float.MaxValue sentinels; its properties are the lemmas below |
| Noise.MapExtremes | Assets/Scripts/Terrain/Noise.cs:31-63 | the extremes after the whole first pass: the maximum never falls below float.MinValue and the minimum never rises above float.MaxValue, and an empty map keeps both sentinels |
| Noise.ScanWithinSentinels | Assets/Scripts/Terrain/Noise.cs:31-60 | at every point of the scan the maximum is at least float.MinValue and the minimum at most float.MaxValue; before any cell both are the sentinels |
| Noise.ScanMaxDominates | Assets/Scripts/Terrain/Noise.cs:38-63 | after the first pass, the maximum is at least every raw height scanned |
| Noise.ScanMinBoundsNonRecords | Assets/Scripts/Terrain/Noise.cs:56-60 | the minimum is at most every scanned value that did not set a new maximum when it was scanned |
| Noise.ScanMaxSentinelOrAttained | Assets/Scripts/Terrain/Noise.cs:31-57 | the maximum is either still the float.MinValue sentinel or the raw height of a scanned cell |
| Noise.ScanMaxAttained | Assets/Scripts/Terrain/Noise.cs:56-57 | once any scanned cell is at or above float.MinValue, the maximum is the raw height of a scanned cell |
| Noise.FirstCellSkipsMinimum | Assets/Scripts/Terrain/Noise.cs:31-32 | the first cell always sets the maximum and leaves the minimum at float.MaxValue |
| Noise.IncreasingPairNormalisesToOne | Assets/Scripts/Terrain/Noise.cs:56-67 | two increasing values leave the minimum at float.MaxValue, and both then normalise to 1 |
| Noise.TerrainHeight | Assets/Scripts/Terrain/Noise.cs:65-69 | every normalised terrain cell lies in [0, 1] |
| Noise.SomeCellNormalisesToOne | Assets/Scripts/Terrain/Noise.cs:56-69 | on a map with some cell at or above float.MinValue whose extremes differ, some cell normalises to exactly 1 |
| Noise.FillRawHeights | Assets/Scripts/Terrain/Noise.cs:38-63 | the first pass writes every cell's raw height and ends with the extremes of the whole scan |
| Noise.NormaliseInPlace | Assets/Scripts/Terrain/Noise.cs:65-69 | the second pass replaces every cell by InverseLerp(min, max, old value) |
| Noise.GenerateTerrainNoiseMap | Assets/Scripts/Terrain/Noise.cs:15-72 | fails exactly on a negative dimension or octave count, with the matching error; otherwise gives a fresh width × height map in which every cell is its TerrainHeight |
| Noise.FillCurveHeights | Assets/Scripts/Terrain/Noise.cs:98-123 | every cell becomes the curve's value at its raw height; the extremes kept alongside are never used |
| Noise.VasarelyHeight | Assets/Scripts/Terrain/Noise.cs:121 | a Vasarely cell is the curve's value at its raw height; with no octaves every cell is the curve's value at 0 |
| Noise.GenerateVasarelyNoiseMap | Assets/Scripts/Terrain/Noise.cs:74-132 | fails exactly on a null curve (checked first), a negative dimension or octave count; otherwise gives a fresh map of VasarelyHeight cells with no normalisation |
| Noise.GenerateNoiseMap | Assets/Scripts/Terrain/Noise.cs:6-13 | Vasarely goes to the curve generator and every other type to the terrain generator (which ignores the curve); the failure cases and the cells follow the chosen generator |
| MeshIndexing.SimplificationIncrement | Assets/Scripts/Terrain/MeshGenerator.cs:8 | the stride is 1 at level 0 and 2·level otherwise: always ≥ 1, with level = stride / 2 |
| MeshIndexing.LayoutOf | Assets/Scripts/Terrain/MeshGenerator.cs:8-17 | meshSize = width − 2·stride, the unsimplified size is width − 2, and verticesPerLine is (meshSize − 1)/stride + 1 with C# division, related to the other sizes as Consistent says |
| MeshIndexing.TruncDivOfMinusOne | Assets/Scripts/Terrain/MeshGenerator.cs:17 | for an empty mesh, C#'s −1/stride is −1 at stride 1 and 0 otherwise, so verticesPerLine is 0 or 1 |
| MeshIndexing.StrideBound | Assets/Scripts/Terrain/MeshGenerator.cs:24-25 | the k-th retained column lies inside the mesh exactly when k < verticesPerLine |
| MeshIndexing.StrideBoundAll | Assets/Scripts/Terrain/MeshGenerator.cs:24-25 | StrideBound for every column at once; retained coordinates are non-negative |
| MeshIndexing.LastRetained | Assets/Scripts/Terrain/MeshGenerator.cs:24-25 | the last retained column is the mesh's last cell exactly when the stride divides meshSize − 1; otherwise it falls short of it |
| MeshIndexing.InteriorColumn | Assets/Scripts/Terrain/MeshGenerator.cs:40-44 | with an aligned stride, a retained cell passes the `x < meshSize − 1` test exactly when it is not in the last retained column; its neighbour one stride on is then retained |
| MeshIndexing.RowEndNumber | Assets/Scripts/Terrain/MeshGenerator.cs:24-28 | numbering the verticesPerLine cells of row j ends at the first number of row j + 1 |
| MeshIndexing.NumberRoundTrip | Assets/Scripts/Terrain/MeshGenerator.cs:21-29 | the number of a retained cell is below verticesPerLine², and its column and row can be read back from it |
| MeshIndexing.CellRoundTrip | Assets/Scripts/Terrain/MeshGenerator.cs:21-29 | every number below verticesPerLine² is the number of exactly the cell its remainder and quotient name, so the numbering covers 0 .. verticesPerLine² − 1 |
| MeshIndexing.NumberingInjective | Assets/Scripts/Terrain/MeshGenerator.cs:21-29 | different retained cells get different numbers |
| MeshIndexing.TriangleEntryAtSlot | Assets/Scripts/Terrain/MeshGenerator.cs:40-47 | corner t of quad (i, j) lands in slot 6·(j·(verticesPerLine − 1) + i) + t, inside the buffer, which holds that corner |
| MeshIndexing.QuadEntries | Assets/Scripts/Terrain/MeshGenerator.cs:45-46 | the six slots of a quad hold a, d, c, d, a, b in order |
| MeshIndexing.SlotRoundTrip | Assets/Scripts/Terrain/MeshGenerator.cs:75 | every slot of the (verticesPerLine − 1)²·6 triangle buffer belongs to a quad and corner, named by its quotient and remainder, and to no other |
| MeshIndexing.QuadOfSlot | Assets/Scripts/Terrain/MeshGenerator.cs:45-46 | a quad corner's slot gives back the quad's column and row and the corner |
| MeshIndexing.TriangleEntryInRange | Assets/Scripts/Terrain/MeshGenerator.cs:40-47 | every entry of the finished triangle buffer is below verticesPerLine² |
| MeshIndexing.TriangleEntriesInRange | Assets/Scripts/Terrain/MeshGenerator.cs:40-47 | TriangleEntryInRange for every slot at once |
| MeshIndexing.QuadWinding | Assets/Scripts/Terrain/MeshGenerator.cs:41-46 | a quad's triangles (a, d, c) and (d, a, b) cross their shared diagonal in opposite directions and use four distinct vertices |
| MeshIndexing.EmittedRowEnd | Assets/Scripts/Terrain/MeshGenerator.cs:31-47 | the cursor after a row equals the cursor at the start of the next row; after the last row it equals the buffer length |
| MeshIndexing.QuadFits | Assets/Scripts/Terrain/MeshGenerator.cs:45-46 | an interior quad's six slots start at the cursor, lie inside the buffer and move the cursor on by six |
| MeshGenerator.CellUv | Assets/Scripts/Terrain/MeshGenerator.cs:36 | a cell's `percent` UV is 0 at the first inner cell (coordinate inc) and 1 one mesh size further, on both axes |
| MeshGenerator.CellVertex | Assets/Scripts/Terrain/MeshGenerator.cs:13-37 | a cell's vertex: its height is the curve at the cell's height times the multiplier (line 35); at full detail the vertices lie on the unit grid centred on the origin, x growing with the column and z falling with the row (line 37) |
| MeshGenerator.GridVertex | Assets/Scripts/Terrain/MeshGenerator.cs:33-38 | the vertex slot k is to hold: CellVertex of the cell whose number is k; GridVertexOfCell states the correspondence |
| MeshGenerator.GridUv | Assets/Scripts/Terrain/MeshGenerator.cs:33-38 | the UV slot k is to hold: CellUv of the cell whose number is k; GridVertexOfCell states the correspondence |
| MeshGenerator.SlotsInMap | Assets/Scripts/Terrain/MeshGenerator.cs:31-35 | with an aligned stride inside the map, every vertex slot's cell lies in the height map |
| MeshGenerator.GridVertexOfCell | Assets/Scripts/Terrain/MeshGenerator.cs:33-38 | the slot numbered for cell (i, j) is to hold that cell's vertex and UV |
| MeshGenerator.SurfaceNormal | Assets/Scripts/Terrain/MeshGenerator.cs:115-123 | a triangle's normalised face normal; a triangle with two equal corners gets the normalised zero vector |
| MeshGenerator.NormalSum | Assets/Scripts/Terrain/MeshGenerator.cs:95-105 | the specification of the accumulation loop: vertex v's sum of face normals over the first n triangles, once per corner that is v; an index outside the vertex buffer sums to zero |
| MeshGenerator.NormalSumOfUnused | Assets/Scripts/Terrain/MeshGenerator.cs:95-105 | a vertex no triangle uses accumulates the zero vector |
| MeshGenerator.NormalSumPrefix | Assets/Scripts/Terrain/MeshGenerator.cs:95-105 | the sum over n triangles depends only on the first 3n triangle entries |
| MeshGenerator.AddInPlace | Assets/Scripts/Terrain/MeshGenerator.cs:102-104 | `sums[k] += normal` adds the normal to entry k only |
| MeshGenerator.AccumulateStep | Assets/Scripts/Terrain/MeshGenerator.cs:101-104 | adding triangle i's face normal at its three corners, in order, turns the sums over i triangles into the sums over i + 1, including repeated corners |
| MeshGenerator.MeshData.constructor | Assets/Scripts/Terrain/MeshGenerator.cs:70-77 | allocates verticesPerLine² zeroed vertex and UV slots and (verticesPerLine − 1)²·6 zeroed triangle slots, with the cursor at 0 |
| MeshGenerator.MeshData.SurfaceNormalFromIndices | Assets/Scripts/Terrain/MeshGenerator.cs:115-123 | the face normal of the triangle the three indices name; a repeated index gives the normalised zero vector |
| MeshGenerator.MeshData.AddVertex | Assets/Scripts/Terrain/MeshGenerator.cs:79-82 | stores the vertex and UV at the given slot and changes no other slot |
| MeshGenerator.MeshData.AddTriangle | Assets/Scripts/Terrain/MeshGenerator.cs:84-89 | writes a, b, c at the cursor, advances it by 3 and changes no other entry |
| MeshGenerator.MeshData.AccumulateTriangle | Assets/Scripts/Terrain/MeshGenerator.cs:96-104 | one pass of the accumulation loop extends the per-vertex sums from i triangles to i + 1 |
| MeshGenerator.MeshData.CalculateNormals | Assets/Scripts/Terrain/MeshGenerator.cs:91-113 | a fresh array in which every vertex's entry is the normalised sum of the face normals of the triangles that use it, counted once per use |
| MeshGenerator.MeshData.BakeNormals | Assets/Scripts/Terrain/MeshGenerator.cs:133-135 | stores those normals, one per vertex, and changes nothing else |
| MeshGenerator.MeshData.FlatShading | Assets/Scripts/Terrain/MeshGenerator.cs:137-149 | vertices and UVs become fresh arrays of the triangle buffer's length; entry i is copied from the old vertex and UV that triangles[i] named; triangles become 0, 1, 2, … |
| MeshGenerator.MeshData.ProcessMesh | Assets/Scripts/Terrain/MeshGenerator.cs:125-131 | flat-shades when useFlatShading is set; otherwise bakes normals and leaves vertices, UVs and triangles untouched |
| MeshGenerator.NumberVertices | Assets/Scripts/Terrain/MeshGenerator.cs:21-29 | the first pass gives a fresh meshSize × meshSize map in which every retained cell holds its row-major number |
| MeshGenerator.NumberRow | Assets/Scripts/Terrain/MeshGenerator.cs:25-28 | one row of the first pass numbers the row's retained cells consecutively and returns the next row's first number |
| MeshGenerator.RowsAbove | Assets/Scripts/Terrain/MeshGenerator.cs:24 | earlier retained rows lie at strictly smaller coordinates, so the writes of a row leave the rows before it alone |
| MeshGenerator.RowCompleted | Assets/Scripts/Terrain/MeshGenerator.cs:25-28 | numbering every retained cell of row j extends the numbered rows by one |
| MeshGenerator.AllRowsNumbered | Assets/Scripts/Terrain/MeshGenerator.cs:24-29 | once all verticesPerLine rows are numbered, every retained cell of the map is |
| MeshGenerator.CellWritten | Assets/Scripts/Terrain/MeshGenerator.cs:33-38 | writing a cell's vertex and UV at its number extends the written slots by one |
| MeshGenerator.WriteCell | Assets/Scripts/Terrain/MeshGenerator.cs:35-38 | computes the cell's height, UV and position and stores them at its number, extending the written slots by one |
| MeshGenerator.CellOutcome | Assets/Scripts/Terrain/MeshGenerator.cs:40-44 | for a cell that passes both `< meshSize − 1` tests, its quad's far corner is retained exactly when the stride is aligned or the cell is not in the last retained column; a cell that fails a test lies, with an aligned stride, in the last retained column or row |
| MeshGenerator.QuadEmitted | Assets/Scripts/Terrain/MeshGenerator.cs:45-46 | the two AddTriangle calls extend the correctly filled prefix of the triangle buffer by the quad's six slots |
| MeshGenerator.EmitQuad | Assets/Scripts/Terrain/MeshGenerator.cs:40-47 | an interior cell's quad succeeds exactly when its neighbours are retained; it then writes the quad's slots and advances the cursor to the next quad |
| MeshGenerator.FillCell | Assets/Scripts/Terrain/MeshGenerator.cs:32-49 | one cell of the second pass fails exactly when its row is beyond the height map, or when an unaligned stride reaches the last retained column; otherwise it extends the filled state by one cell |
| MeshGenerator.FillRow | Assets/Scripts/Terrain/MeshGenerator.cs:32-50 | one row succeeds exactly when the stride is aligned and the row lies in the height map; it then fills the state up to the next row |
| MeshGenerator.LastRowFits | Assets/Scripts/Terrain/MeshGenerator.cs:31 | once the last retained row has been read, the whole mesh fits the map's second dimension and every vertex number has been written |
| MeshGenerator.AllSlotsWritten | Assets/Scripts/Terrain/MeshGenerator.cs:31-38 | once every number is written, every vertex slot holds its cell's vertex and UV |
| MeshGenerator.AllVerticesWritten | Assets/Scripts/Terrain/MeshGenerator.cs:31-38 | the same fact, read back on the MeshData arrays |
| MeshGenerator.FillMesh | Assets/Scripts/Terrain/MeshGenerator.cs:31-51 | the second pass succeeds exactly when the stride is aligned and the mesh fits the map; every vertex slot then holds its cell's vertex and UV, and the triangle buffer is filled to its end with TriangleEntry |
| MeshGenerator.ProcessedIsBuilt | Assets/Scripts/Terrain/MeshGenerator.cs:53 | processing the buffers the two passes leave gives the mesh Built describes, for both shading modes |
| MeshGenerator.GenerateTerrainMesh | Assets/Scripts/Terrain/MeshGenerator.cs:5-57 | a null curve fails with NullCurve; a negative mesh size with NegativeMeshSize; otherwise it succeeds exactly when the passes complete (aligned stride inside the map, or an empty mesh at stride ≥ 2), fails only with IndexOutOfRange, and returns a fresh MeshData that is Built from the map |
| MapGenerator.FirstMatch | Assets/Scripts/Terrain/MapGenerator.cs:63-68 | the band chosen is the first, in array order, whose threshold is at or above the height; no band is chosen when every threshold is below it |
| MapGenerator.BandOfAscending | Assets/Scripts/Terrain/MapGenerator.cs:63-68 | with ascending thresholds, band i takes exactly the heights above the previous threshold and up to its own |
| MapGenerator.TerrainColour | Assets/Scripts/Terrain/MapGenerator.cs:62-68 | a terrain cell's colour is the colour of a band whose threshold reaches its height, or clear; it is clear when no threshold reaches it |
| MapGenerator.VasarelyColour | Assets/Scripts/Terrain/MapGenerator.cs:74-80 | a Vasarely cell is white at or above 0 and clear at or below −1 |
| MapGenerator.VasarelyColourIsFade | Assets/Scripts/Terrain/MapGenerator.cs:76-80 | the Vasarely colour is a uniform grey, alpha included, of Clamp01(1 + h): white for h ≥ 0, clear for h ≤ −1 |
| MapGenerator.CellColour | Assets/Scripts/Terrain/MapGenerator.cs:59-83 | the colour GenerateColourMap gives a cell: a Vasarely cell is always a uniform grey level, and a cell of any other noise type is left clear |
| MapGenerator.ChunkIndexRoundTrip | Assets/Scripts/Terrain/MapGenerator.cs:57-65 | cell (x, y) of the chunk has slot y·241 + x inside the map, and the cell can be read back from the slot |
| MapGenerator.SlotRoundTrip | Assets/Scripts/Terrain/MapGenerator.cs:57-65 | every slot of the 241² map is the slot of exactly one cell, so each slot is written at most once |
| MapGenerator.DefaultRegions | Assets/Scripts/Terrain/MapGenerator.cs:89-121 | the default table has exactly eight bands |
| MapGenerator.DefaultRegionsAscending | Assets/Scripts/Terrain/MapGenerator.cs:89-121 | its thresholds 0.3 … 1.0 ascend strictly and end at 1 |
| MapGenerator.DefaultRegionsCover | Assets/Scripts/Terrain/MapGenerator.cs:89-121 | with the default table a height finds a band exactly when it is at most 1, so every height in [0, 1] does |
| MapGenerator.ValidLacunarity | Assets/Scripts/Terrain/MapGenerator.cs:125-127 | a non-positive lacunarity becomes 0.001 and a positive one is kept, so the result is positive |
| MapGenerator.ValidOctaves | Assets/Scripts/Terrain/MapGenerator.cs:128-130 | a negative octave count becomes 0 and any other is kept, so the result is non-negative |
| MapGenerator.ValidationIdempotent | Assets/Scripts/Terrain/MapGenerator.cs:124-131 | validating twice changes nothing more than validating once |
| MapGenerator.MapGenerator.constructor | Assets/Scripts/Terrain/MapGenerator.cs:16-34 | the inspector fields the modelled methods read and write (lacunarity, octaves, regions) hold the given values |
| MapGenerator.MapGenerator.OnValidate | Assets/Scripts/Terrain/MapGenerator.cs:124-131 | lacunarity and octaves become their validated values; no other field changes |
| MapGenerator.MapGenerator.GenerateDefaultRegions | Assets/Scripts/Terrain/MapGenerator.cs:89-121 | regions becomes a fresh array holding exactly the default table, entry by entry |
| MapGenerator.MapGenerator.FillTerrainCell | Assets/Scripts/Terrain/MapGenerator.cs:62-68 | the band scan writes the first matching band's colour to the cell's slot, or leaves it clear, and touches no other slot |
| MapGenerator.MapGenerator.FillTerrainRow | Assets/Scripts/Terrain/MapGenerator.cs:61-69 | one row colours its 241 slots and leaves earlier rows as they were and later ones clear |
| MapGenerator.MapGenerator.FillTerrainColours | Assets/Scripts/Terrain/MapGenerator.cs:59-70 | every cell's slot holds the colour of its height's first matching band, or clear when none matches |
| MapGenerator.MapGenerator.FillVasarelyColours | Assets/Scripts/Terrain/MapGenerator.cs:71-83 | every cell's slot is white for a non-negative height and Color.Lerp(white, clear, −h) for a negative one |
| MapGenerator.MapGenerator.GenerateColourMap | Assets/Scripts/Terrain/MapGenerator.cs:55-87 | a fresh 241² map; terrain and Vasarely modes fail exactly when the noise map is smaller than 241 × 241 and otherwise hold each cell's colour at slot y·241 + x; any other noise type gives an all-clear map |

## Left out

- Floating point: `float` is modelled as `real`, so rounding, overflow to infinity and NaN are not modelled. The float sentinels keep their exact values.
- Integer width: C# `int` overflow is not modelled. This affects the vertex and triangle counts for huge maps and the `int` to `float` conversions.
- `Mathf.PerlinNoise`, `AnimationCurve.Evaluate`, `Vector3.normalized` / `Normalize`, and `System.Random`'s internal sample stream are foreign code. They are function-typed parameters. `Next(lo, hi)` is modelled as the .NET formula over that stream for a range of at most int.MaxValue.
- UnityMath.NextValue: a range `hi - lo` above int.MaxValue is excluded by `requires`. .NET then takes a separate path that draws two internal samples. The only calls, for the octave origins, use a range of 200000.
- UnityMath.SeededRandom.Next: the same large-range path, which would advance the stream by two, is excluded by `requires`.
- `ColorUtility.TryParseHtmlString` is not modelled. The default colours are the bytes of its `#RRGGBBAA` literals.
- The `NoiseType` declaration is not part of this model. Every type other than Terrain and Vasarely is `Other`.
- The `lineFactor` parameter of `GenerateTerrainMesh` is not used. The dead `vertexIndex++` at the end of its loop body is not modelled.
- `MapGenerator.GenerateMap`, `MeshData.CreateMesh` and `Mesh.RecalculateNormals` are Unity object plumbing and are not modelled. `GenerateMap` hands its maps to a `MapDisplay` and a `TextureGenerator`, and calls `MeshGenerator.GenerateVasarelyLineMesh`, none of which is part of this model. The same goes for `Assets/Editor/MapGeneratorEditor.cs` and the scripts outside `Assets/Scripts/Terrain`.
- MeshGenerator.MeshData.AddVertex: a slot outside the vertex buffer is excluded by `requires` instead of raising. `GenerateTerrainMesh` only writes slots inside the buffer.
- MeshGenerator.MeshData.AddTriangle: a cursor too close to the end is excluded by `requires` instead of raising. `GenerateTerrainMesh` never gets there.
- MeshGenerator.MeshData.ProcessMesh: a triangle entry outside the vertex buffer is excluded by `requires` instead of raising. `GenerateTerrainMesh` proves its entries are in range. It reports the one exception, an empty vertex buffer with triangle slots, as `IndexOutOfRange` before processing.
- MeshGenerator.GenerateTerrainMesh: `levelOfDetail` is a `nat`, so a negative level of detail is not modelled. The failure is returned before any partial result would become visible.
- MeshGenerator.GenerateTerrainMesh: a null `heightMap` is excluded by the non-null `array2` type. The source would raise at the first `heightMap[x, y]` read when meshSize > 0. `GenerateMap` always passes the array `GenerateNoiseMap` allocated.
- MapGenerator.MapGenerator.GenerateColourMap: a null `noiseMap` is excluded by the non-null `array2` type. The source would raise at the first `noiseMap[x, y]` read in terrain or Vasarely mode. `GenerateMap` always passes the array `GenerateNoiseMap` allocated.
- MapGenerator.MapGenerator.GenerateColourMap: the source would raise at the first read outside a too-small noise map. The model checks the bounds up front; the partly filled map is discarded either way. A null `regions` array is not modelled.
- Noise.GenerateTerrainNoiseMap: when the result is a failure, which error comes first is modelled from the order of the allocations. No partial map is returned.
- Some loop bodies are separate methods so that each proof stays small. Examples are `AddOctave`, `NumberRow`, `FillRow`, `FillCell`, `WriteCell`, `EmitQuad`, `AccumulateTriangle` and `FillTerrainRow`. They run the same statements in the same order.
