/**
 * MapGenerator: the colour map a noise map is painted with, the default band
 * table, and the inspector-value sanitiser.
 */
module MapGenerator {
  import opened Wrappers
  import opened UnityMath
  import Noise
  import IntArith

  /** The side of a map chunk, in cells. */
  const MapChunkSize: int := 241

  /** A named colour band: heights up to `height` that no earlier band takes. */
  datatype TerrainType = TerrainType(name: string, height: real, colour: Colour)

  /** The exception GenerateColourMap can raise. */
  datatype ColourMapError = NoiseMapTooSmall  // a noiseMap[x, y] read falls outside the map

  // ---------------------------------------------------------------------
  // Per-cell colours

  /** The index of the first band whose threshold is at or above h, if any. */
  function FirstMatch(regions: seq<TerrainType>, h: real): (r: Option<nat>)
    ensures r.Some? ==> r.value < |regions| && h <= regions[r.value].height
    ensures r.Some? ==> forall i :: 0 <= i < r.value ==> regions[i].height < h
    ensures r.None? ==> forall i :: 0 <= i < |regions| ==> regions[i].height < h
  {
    if |regions| == 0 then None
    else if h <= regions[0].height then Some(0)
    else match FirstMatch(regions[1..], h)
      case None => None
      case Some(i) => Some(i + 1)
  }

  /** Band thresholds in strictly ascending order. */
  predicate Ascending(regions: seq<TerrainType>) {
    forall i, j :: 0 <= i < j < |regions| ==> regions[i].height < regions[j].height
  }

  /** With ascending thresholds, band i takes exactly the heights above the previous threshold and up to its own. */
  lemma BandOfAscending(regions: seq<TerrainType>, h: real, i: int)
    requires Ascending(regions) && 0 <= i < |regions|
    ensures FirstMatch(regions, h) == Some(i) <==> (i == 0 || regions[i - 1].height < h) && h <= regions[i].height
  {
  }

  /** The terrain-mode colour of a cell of height h: its band's colour, or the unwritten slot's Color.clear. */
  function TerrainColour(regions: seq<TerrainType>, h: real): (r: Colour)
    ensures (forall i :: 0 <= i < |regions| ==> regions[i].height < h) ==> r == Clear
    ensures r == Clear || exists i :: 0 <= i < |regions| && h <= regions[i].height && r == regions[i].colour
  {
    match FirstMatch(regions, h)
    case Some(i) => regions[i].colour
    case None => Clear
  }

  /** The Vasarely-mode colour of a cell of height h: white at or above 0, fading to clear below. */
  function VasarelyColour(h: real): (r: Colour)
    ensures h >= 0.0 ==> r == White
    ensures h <= -1.0 ==> r == Clear
  {
    if h < 0.0 then ColourLerp(White, Clear, -h) else White
  }

  /** The Vasarely colour is a uniform grey level (alpha included) of Clamp01(1 + h). */
  lemma VasarelyColourIsFade(h: real)
    ensures var g := Clamp01(1.0 + h); VasarelyColour(h) == Colour(g, g, g, g)
  {
  }

  /** The colour GenerateColourMap gives a cell of height h under a noise type. */
  function CellColour(noiseType: Noise.NoiseType, regions: seq<TerrainType>, h: real): (r: Colour)
    ensures noiseType.Vasarely? ==> r.r == r.g == r.b == r.a
    ensures noiseType.Other? ==> r == Clear
  {
    VasarelyColourIsFade(h);
    match noiseType
    case Terrain => TerrainColour(regions, h)
    case Vasarely => VasarelyColour(h)
    case Other(_) => Clear
  }

  /** The row-major slot of cell (x, y) in a chunk's colour map. */
  function ChunkIndex(x: int, y: int): int {
    y * MapChunkSize + x
  }

  /** Cells of the chunk and slots of its colour map correspond one to one: a cell's slot is in range and gives the cell back. */
  lemma ChunkIndexRoundTrip(x: int, y: int)
    requires 0 <= x < MapChunkSize && 0 <= y < MapChunkSize
    ensures 0 <= ChunkIndex(x, y) < MapChunkSize * MapChunkSize
    ensures ChunkIndex(x, y) % MapChunkSize == x && ChunkIndex(x, y) / MapChunkSize == y
  {
    IntArith.DivModUnique(y, x, MapChunkSize);
  }

  /** Every slot of the colour map is the slot of the cell its remainder and quotient name. */
  lemma SlotRoundTrip(k: int)
    requires 0 <= k < MapChunkSize * MapChunkSize
    ensures 0 <= k % MapChunkSize < MapChunkSize && 0 <= k / MapChunkSize < MapChunkSize
    ensures ChunkIndex(k % MapChunkSize, k / MapChunkSize) == k
  {
    IntArith.DivBelow(k, MapChunkSize, MapChunkSize);
  }

  // ---------------------------------------------------------------------
  // The default band table

  /** GenerateDefaultRegions' table; colours are the bytes of its `#RRGGBBAA` literals. */
  function DefaultRegions(): (d: seq<TerrainType>)
    ensures |d| == 8
  {
    [ TerrainType("Water Deep", 0.3, Rgba32(0x32, 0x63, 0xC3, 0x00)),
      TerrainType("Water Shallow", 0.4, Rgba32(0x36, 0x66, 0xC6, 0x00)),
      TerrainType("Sand", 0.45, Rgba32(0xD2, 0xCF, 0x7D, 0x00)),
      TerrainType("Grass", 0.55, Rgba32(0x56, 0x97, 0x17, 0x00)),
      TerrainType("Grass 2", 0.6, Rgba32(0x3D, 0x6A, 0x12, 0x00)),
      TerrainType("Rock", 0.7, Rgba32(0x59, 0x45, 0x3C, 0x00)),
      TerrainType("Rock2", 0.9, Rgba32(0x4A, 0x3B, 0x35, 0x00)),
      TerrainType("Snow", 1.0, Rgba32(0xFF, 0xFF, 0xFF, 0x00)) ]
  }

  /** The default thresholds ascend strictly and end at 1. */
  lemma DefaultRegionsAscending()
    ensures Ascending(DefaultRegions()) && DefaultRegions()[7].height == 1.0
  {
  }

  /** With the default table, a height finds a band exactly when it is at most 1; so every height in [0, 1] does. */
  lemma DefaultRegionsCover(h: real)
    ensures FirstMatch(DefaultRegions(), h).Some? <==> h <= 1.0
  {
    var d := DefaultRegions();
    if h <= 1.0 {
      assert d[7].height == 1.0;
    }
  }

  // ---------------------------------------------------------------------
  // Inspector validation

  /** OnValidate's rule for lacunarity: a non-positive value becomes 0.001. */
  function ValidLacunarity(lacunarity: real): (r: real)
    ensures r > 0.0
    ensures lacunarity > 0.0 ==> r == lacunarity
    ensures lacunarity <= 0.0 ==> r == 0.001
  {
    if lacunarity <= 0.0 then 0.001 else lacunarity
  }

  /** OnValidate's rule for octaves: a negative count becomes 0. */
  function ValidOctaves(octaves: int): (r: int)
    ensures r >= 0
    ensures octaves >= 0 ==> r == octaves
    ensures octaves < 0 ==> r == 0
  {
    if octaves < 0 then 0 else octaves
  }

  /** Validation changes nothing the second time. */
  lemma ValidationIdempotent(lacunarity: real, octaves: int)
    ensures ValidLacunarity(ValidLacunarity(lacunarity)) == ValidLacunarity(lacunarity)
    ensures ValidOctaves(ValidOctaves(octaves)) == ValidOctaves(octaves)
  {
  }

  // ---------------------------------------------------------------------
  // The generator's state

  class MapGenerator {
    var lacunarity: real
    var octaves: int
    var regions: array<TerrainType>

    /** The inspector-set values this model reads and writes. */
    constructor (lacunarity: real, octaves: int, regions: array<TerrainType>)
      ensures this.lacunarity == lacunarity && this.octaves == octaves && this.regions == regions
    {
      this.lacunarity := lacunarity;
      this.octaves := octaves;
      this.regions := regions;
    }

    /**
     * A fresh MapChunkSize² colour map in which the slot of cell (x, y) holds
     * CellColour of that cell's height. Terrain and Vasarely modes read the first
     * MapChunkSize × MapChunkSize cells of the noise map and fail if it is smaller.
     */
    method GenerateColourMap(noiseType: Noise.NoiseType, noiseMap: array2<real>) returns (r: Result<array<Colour>, ColourMapError>)
      ensures r.Failure? <==> !noiseType.Other? && (noiseMap.Length0 < MapChunkSize || noiseMap.Length1 < MapChunkSize)
      ensures r.Success? ==> fresh(r.value) && r.value.Length == MapChunkSize * MapChunkSize
      ensures r.Success? && !noiseType.Other? ==>
        forall x, y :: 0 <= x < MapChunkSize && 0 <= y < MapChunkSize ==>
          r.value[ChunkIndex(x, y)] == CellColour(noiseType, regions[..], noiseMap[x, y])
      ensures r.Success? && noiseType.Other? ==> forall k :: 0 <= k < r.value.Length ==> r.value[k] == Clear
    {
      var colourMap := new Colour[MapChunkSize * MapChunkSize](_ => Clear);
      if !noiseType.Other? && (noiseMap.Length0 < MapChunkSize || noiseMap.Length1 < MapChunkSize) {
        // the first noiseMap[x, y] outside the map raises IndexOutOfRangeException
        return Failure(NoiseMapTooSmall);
      }
      if noiseType.Terrain? {
        FillTerrainColours(colourMap, noiseMap);
      } else if noiseType.Vasarely? {
        FillVasarelyColours(colourMap, noiseMap);
      }
      return Success(colourMap);
    }

    /** The terrain branch: each cell takes the colour of the first band at or above its height, or keeps Color.clear. */
    method FillTerrainColours(colourMap: array<Colour>, noiseMap: array2<real>)
      requires colourMap.Length == MapChunkSize * MapChunkSize
      requires forall k :: 0 <= k < colourMap.Length ==> colourMap[k] == Clear
      requires noiseMap.Length0 >= MapChunkSize && noiseMap.Length1 >= MapChunkSize
      modifies colourMap
      ensures forall x, y :: 0 <= x < MapChunkSize && 0 <= y < MapChunkSize ==>
        colourMap[ChunkIndex(x, y)] == TerrainColour(regions[..], noiseMap[x, y])
    {
      for y := 0 to MapChunkSize
        invariant forall x', y' :: 0 <= x' < MapChunkSize && 0 <= y' < y ==>
          colourMap[ChunkIndex(x', y')] == TerrainColour(regions[..], noiseMap[x', y'])
        invariant forall k :: ChunkIndex(0, y) <= k < colourMap.Length ==> colourMap[k] == Clear
      {
        FillTerrainRow(colourMap, noiseMap, y);
      }
    }

    /** One row of the terrain branch; slots outside the row are left as they were. */
    method FillTerrainRow(colourMap: array<Colour>, noiseMap: array2<real>, y: int)
      requires colourMap.Length == MapChunkSize * MapChunkSize && 0 <= y < MapChunkSize
      requires forall k :: ChunkIndex(0, y) <= k < colourMap.Length ==> colourMap[k] == Clear
      requires noiseMap.Length0 >= MapChunkSize && noiseMap.Length1 >= MapChunkSize
      modifies colourMap
      ensures forall x :: 0 <= x < MapChunkSize ==>
        colourMap[ChunkIndex(x, y)] == TerrainColour(regions[..], noiseMap[x, y])
      ensures forall k :: 0 <= k < ChunkIndex(0, y) ==> colourMap[k] == old(colourMap[k])
      ensures forall k :: ChunkIndex(0, y + 1) <= k < colourMap.Length ==> colourMap[k] == Clear
    {
      for x := 0 to MapChunkSize
        invariant forall x' :: 0 <= x' < x ==>
          colourMap[ChunkIndex(x', y)] == TerrainColour(regions[..], noiseMap[x', y])
        invariant forall k :: 0 <= k < ChunkIndex(0, y) ==> colourMap[k] == old(colourMap[k])
        invariant forall k :: ChunkIndex(x, y) <= k < colourMap.Length ==> colourMap[k] == Clear
      {
        FillTerrainCell(colourMap, noiseMap, x, y);
      }
    }

    /** The band scan for one cell: the first band at or above the cell's height colours its slot, which otherwise stays clear. */
    method FillTerrainCell(colourMap: array<Colour>, noiseMap: array2<real>, x: int, y: int)
      requires colourMap.Length == MapChunkSize * MapChunkSize
      requires 0 <= x < MapChunkSize && 0 <= y < MapChunkSize
      requires colourMap[ChunkIndex(x, y)] == Clear
      requires noiseMap.Length0 >= MapChunkSize && noiseMap.Length1 >= MapChunkSize
      modifies colourMap
      ensures colourMap[ChunkIndex(x, y)] == TerrainColour(regions[..], noiseMap[x, y])
      ensures forall k :: 0 <= k < colourMap.Length && k != ChunkIndex(x, y) ==> colourMap[k] == old(colourMap[k])
    {
      var currentHeight := noiseMap[x, y];
      for i := 0 to regions.Length
        invariant forall i' :: 0 <= i' < i ==> regions[i'].height < currentHeight
        invariant colourMap[..] == old(colourMap[..])
      {
        if currentHeight <= regions[i].height {
          colourMap[y * MapChunkSize + x] := regions[i].colour;
          break;
        }
      }
    }

    /** The Vasarely branch: each cell is white at or above 0 and fades to clear below. */
    method FillVasarelyColours(colourMap: array<Colour>, noiseMap: array2<real>)
      requires colourMap.Length == MapChunkSize * MapChunkSize
      requires noiseMap.Length0 >= MapChunkSize && noiseMap.Length1 >= MapChunkSize
      modifies colourMap
      ensures forall x, y :: 0 <= x < MapChunkSize && 0 <= y < MapChunkSize ==>
        colourMap[ChunkIndex(x, y)] == VasarelyColour(noiseMap[x, y])
    {
      for y := 0 to MapChunkSize
        invariant forall x', y' :: 0 <= x' < MapChunkSize && 0 <= y' < y ==>
          colourMap[ChunkIndex(x', y')] == VasarelyColour(noiseMap[x', y'])
      {
        for x := 0 to MapChunkSize
          invariant forall x', y' :: 0 <= x' < MapChunkSize && 0 <= y' < y ==>
            colourMap[ChunkIndex(x', y')] == VasarelyColour(noiseMap[x', y'])
          invariant forall x' :: 0 <= x' < x ==>
            colourMap[ChunkIndex(x', y)] == VasarelyColour(noiseMap[x', y])
        {
          var currentHeight := noiseMap[x, y];
          if currentHeight < 0.0 {
            colourMap[y * MapChunkSize + x] := ColourLerp(White, Clear, -currentHeight);
          } else {
            colourMap[y * MapChunkSize + x] := White;
          }
        }
      }
    }

    /** Replaces regions with a fresh array holding the default table, entry by entry. */
    method GenerateDefaultRegions()
      modifies this`regions
      ensures fresh(regions) && regions[..] == DefaultRegions()
    {
      regions := new TerrainType[8](_ => TerrainType("", 0.0, Clear));
      var i := 0;
      regions[i] := TerrainType("Water Deep", 0.3, Rgba32(0x32, 0x63, 0xC3, 0x00));
      i := i + 1;
      regions[i] := TerrainType("Water Shallow", 0.4, Rgba32(0x36, 0x66, 0xC6, 0x00));
      i := i + 1;
      regions[i] := TerrainType("Sand", 0.45, Rgba32(0xD2, 0xCF, 0x7D, 0x00));
      i := i + 1;
      regions[i] := TerrainType("Grass", 0.55, Rgba32(0x56, 0x97, 0x17, 0x00));
      i := i + 1;
      regions[i] := TerrainType("Grass 2", 0.6, Rgba32(0x3D, 0x6A, 0x12, 0x00));
      i := i + 1;
      regions[i] := TerrainType("Rock", 0.7, Rgba32(0x59, 0x45, 0x3C, 0x00));
      i := i + 1;
      regions[i] := TerrainType("Rock2", 0.9, Rgba32(0x4A, 0x3B, 0x35, 0x00));
      i := i + 1;
      regions[i] := TerrainType("Snow", 1.0, Rgba32(0xFF, 0xFF, 0xFF, 0x00));
    }

    /** Clamps lacunarity to a positive value and octaves to a non-negative count; other values are kept. */
    method OnValidate()
      modifies this`lacunarity, this`octaves
      ensures lacunarity == ValidLacunarity(old(lacunarity)) && octaves == ValidOctaves(old(octaves))
    {
      if lacunarity <= 0.0 {
        lacunarity := 0.001;
      }
      if octaves < 0 {
        octaves := 0;
      }
    }
  }
}
