/**
 * Noise-map assembly (Noise.GenerateNoiseMap and its two generators).
 *
 * Every cell of a map is the sum of `octaves` Perlin samples, octave i taken
 * at its own random origin, with geometrically growing frequency and
 * geometrically shrinking amplitude.  The terrain generator then rescales
 * the whole map from the observed [min, max] to [0, 1]; the Vasarely
 * generator passes each raw sum through a response curve instead.
 */
module Noise {
  import opened Wrappers
  import opened UnityMath

  /** NoiseType; its declaration is not part of the model, so every value other than the two named ones is `Other`. */
  datatype NoiseType = Terrain | Vasarely | Other(ordinal: int)

  /** The exceptions the generators can raise. */
  datatype NoiseError =
    | NullCurve            // the Vasarely generator copies the keys of a null curve
    | NegativeDimension    // `new float[mapWidth, mapHeight]` with a negative size
    | NegativeOctaveCount  // `new Vector2[octaves]` with a negative size

  /** Each octave origin coordinate is drawn by `prng.Next(-100000, 100000)`. */
  const OffsetRange: int := 100000

  type Positive = r: real | r > 0.0 witness 1.0

  /** The scale actually used: a non-positive scale is replaced by 0.0001. */
  function ClampScale(scale: real): (s: Positive)
    ensures scale > 0.0 ==> s == scale
    ensures scale <= 0.0 ==> s == 0.0001
  {
    if scale <= 0.0 then 0.0001 else scale
  }

  /**
   * The origin of octave i: draws 2i and 2i+1 of the generator seeded with
   * `seed`, shifted by the caller's offset.
   */
  function OctaveOffset(samples: SampleStream, seed: int, offset: Vector2, i: nat): (o: Vector2)
    ensures offset.x - OffsetRange as real <= o.x < offset.x + OffsetRange as real
    ensures offset.y - OffsetRange as real <= o.y < offset.y + OffsetRange as real
  {
    Vector2(NextValue(samples, seed, 2 * i, -OffsetRange, OffsetRange) as real + offset.x,
            NextValue(samples, seed, 2 * i + 1, -OffsetRange, OffsetRange) as real + offset.y)
  }

  /** The loop that fills `octaveOffsets` from a fresh generator seeded with `seed`. */
  method DrawOctaveOffsets(seed: int, samples: SampleStream, octaves: nat, offset: Vector2)
    returns (octaveOffsets: array<Vector2>)
    ensures fresh(octaveOffsets) && octaveOffsets.Length == octaves
    ensures forall i :: 0 <= i < octaves ==> octaveOffsets[i] == OctaveOffset(samples, seed, offset, i)
  {
    var prng := new SeededRandom(seed, samples);
    octaveOffsets := new Vector2[octaves](_ => Zero2);
    for i := 0 to octaves
      invariant prng.seed == seed && prng.samples == samples && prng.drawn == 2 * i
      invariant forall k :: 0 <= k < i ==> octaveOffsets[k] == OctaveOffset(samples, seed, offset, k)
    {
      var drawX := prng.Next(-OffsetRange, OffsetRange);
      var offsetX := drawX as real + offset.x;
      var drawY := prng.Next(-OffsetRange, OffsetRange);
      var offsetY := drawY as real + offset.y;
      octaveOffsets[i] := Vector2(offsetX, offsetY);
    }
  }

  function Pow(b: real, n: nat): real {
    if n == 0 then 1.0 else b * Pow(b, n - 1)
  }

  /**
   * How the cells of one map are sampled: the octave origins, the clamped
   * scale, the two progression factors, whether the progression starts one
   * power in (the Vasarely generator) and the map's centre.
   */
  datatype Sampling = Sampling(
    perlin: Perlin,
    offsets: seq<Vector2>,
    scale: Positive,
    persistance: real,
    lacunarity: real,
    vasarely: bool,
    halfWidth: real,
    halfHeight: real)

  /** The power of persistance and lacunarity that octave i uses. */
  function OctaveExponent(s: Sampling, i: nat): (e: nat)
    ensures i <= e <= i + 1
    ensures e == i + 1 <==> s.vasarely
  {
    if s.vasarely then i + 1 else i
  }

  /** What octave i adds to cell (x, y): its Perlin sample remapped to [-1, 1], weighted by its amplitude. */
  function OctaveContribution(s: Sampling, x: int, y: int, i: nat): (r: real)
    requires i < |s.offsets|
    ensures OctavePerlin(s, x, y, i) == 0.5 ==> r == 0.0
  {
    (OctavePerlin(s, x, y, i) * 2.0 - 1.0) * Pow(s.persistance, OctaveExponent(s, i))
  }

  /** The Perlin sample octave i takes for cell (x, y), at the octave's frequency. */
  function OctavePerlin(s: Sampling, x: int, y: int, i: nat): (r: real)
    requires i < |s.offsets|
    ensures x as real == s.halfWidth && y as real == s.halfHeight ==> r == s.perlin(s.offsets[i].x, s.offsets[i].y)
  {
    var frequency := Pow(s.lacunarity, OctaveExponent(s, i));
    s.perlin(SampleCoordinate(x, s.halfWidth, s.scale, frequency, s.offsets[i].x),
             SampleCoordinate(y, s.halfHeight, s.scale, frequency, s.offsets[i].y))
  }

  /** Where octave noise is sampled for a cell coordinate: re-centred, divided by the scale, times the frequency, shifted to the octave's origin. */
  function SampleCoordinate(cell: int, half: real, scale: Positive, frequency: real, origin: real): (r: real)
    ensures cell as real == half ==> r == origin
    ensures frequency == 0.0 ==> r == origin
  {
    (cell as real - half) / scale * frequency + origin
  }

  /** One turn of the octave loop adds the octave's sample, taken at the running frequency and weighted by the running amplitude. */
  lemma OctaveStep(s: Sampling, x: int, y: int, i: nat, amplitude: real, frequency: real)
    requires i < |s.offsets|
    requires amplitude == Pow(s.persistance, OctaveExponent(s, i))
    requires frequency == Pow(s.lacunarity, OctaveExponent(s, i))
    ensures OctaveSum(s, x, y, i + 1) == OctaveSum(s, x, y, i) +
      (s.perlin(SampleCoordinate(x, s.halfWidth, s.scale, frequency, s.offsets[i].x),
                SampleCoordinate(y, s.halfHeight, s.scale, frequency, s.offsets[i].y)) * 2.0 - 1.0) * amplitude
  {
    assert OctavePerlin(s, x, y, i) ==
      s.perlin(SampleCoordinate(x, s.halfWidth, s.scale, frequency, s.offsets[i].x),
               SampleCoordinate(y, s.halfHeight, s.scale, frequency, s.offsets[i].y));
  }

  /**
   * Before the first octave the running amplitude and frequency are 1 in the
   * terrain generator and persistance and lacunarity in the Vasarely one.
   */
  lemma ProgressionStart(s: Sampling, b: real)
    ensures Pow(b, OctaveExponent(s, 0)) == if s.vasarely then b else 1.0
  {
  }

  /** After every octave the running amplitude and frequency are multiplied by persistance and lacunarity. */
  lemma ProgressionStep(s: Sampling, b: real, i: nat)
    ensures Pow(b, OctaveExponent(s, i + 1)) == Pow(b, OctaveExponent(s, i)) * b
  {
    assert OctaveExponent(s, i + 1) == OctaveExponent(s, i) + 1;
  }

  /** The sum of the first n octaves at cell (x, y). */
  function OctaveSum(s: Sampling, x: int, y: int, n: nat): (r: real)
    requires n <= |s.offsets|
    ensures s.vasarely && s.persistance == 0.0 ==> r == 0.0
  {
    if n == 0 then 0.0 else OctaveSum(s, x, y, n - 1) + OctaveContribution(s, x, y, n - 1)
  }

  /** The raw (un-normalised) noise height of cell (x, y). */
  function RawHeight(s: Sampling, x: int, y: int): (r: real)
    ensures |s.offsets| == 0 ==> r == 0.0
  {
    OctaveSum(s, x, y, |s.offsets|)
  }

  /** If every Perlin sample lies in [0, 1], a raw height is bounded by the sum of the octave amplitudes. */
  lemma {:induction false} OctaveSumBounded(s: Sampling, x: int, y: int, n: nat)
    requires n <= |s.offsets|
    requires forall u, v :: 0.0 <= s.perlin(u, v) <= 1.0
    requires s.persistance >= 0.0
    ensures -SumOfAmplitudes(s, n) <= OctaveSum(s, x, y, n) <= SumOfAmplitudes(s, n)
  {
    if n > 0 {
      OctaveSumBounded(s, x, y, n - 1);
      ContributionBounded(s, x, y, n - 1);
    }
  }

  /** A Perlin sample in [0, 1] remapped to [-1, 1] contributes at most its amplitude either way. */
  lemma ContributionBounded(s: Sampling, x: int, y: int, i: nat)
    requires i < |s.offsets|
    requires forall u, v :: 0.0 <= s.perlin(u, v) <= 1.0
    requires s.persistance >= 0.0
    ensures -Pow(s.persistance, OctaveExponent(s, i)) <= OctaveContribution(s, x, y, i) <= Pow(s.persistance, OctaveExponent(s, i))
  {
    var a := Pow(s.persistance, OctaveExponent(s, i));
    var p := OctavePerlin(s, x, y, i);
    assert 0.0 <= p <= 1.0;
    PowNonNegative(s.persistance, OctaveExponent(s, i));
    RemappedSampleBounded(p, a);
    assert OctaveContribution(s, x, y, i) == (p * 2.0 - 1.0) * a;
  }

  /** A sample p in [0, 1], remapped to [-1, 1] and scaled by a >= 0, lies in [-a, a]. */
  lemma RemappedSampleBounded(p: real, a: real)
    requires 0.0 <= p <= 1.0 && a >= 0.0
    ensures -a <= (p * 2.0 - 1.0) * a <= a
  {
    NonNegativeProduct(2.0 - 2.0 * p, a);
    NonNegativeProduct(2.0 * p, a);
  }

  lemma NonNegativeProduct(u: real, v: real)
    requires u >= 0.0 && v >= 0.0
    ensures u * v >= 0.0
  {
  }

  /** The total weight of the first n octaves. */
  function SumOfAmplitudes(s: Sampling, n: nat): real {
    if n == 0 then 0.0 else SumOfAmplitudes(s, n - 1) + Pow(s.persistance, OctaveExponent(s, n - 1))
  }

  lemma {:induction false} PowNonNegative(b: real, n: nat)
    requires b >= 0.0
    ensures Pow(b, n) >= 0.0
  {
    if n > 0 {
      PowNonNegative(b, n - 1);
    }
  }

  /**
   * The octave loop for one cell: amplitude and frequency start at 1 (terrain)
   * or at persistance and lacunarity (Vasarely) and are multiplied by them
   * after every octave.
   */
  method SampleOctaves(s: Sampling, octaveOffsets: array<Vector2>, x: int, y: int)
    returns (noiseHeight: real)
    requires octaveOffsets[..] == s.offsets
    ensures noiseHeight == RawHeight(s, x, y)
  {
    var amplitude: real := if s.vasarely then s.persistance else 1.0;
    var frequency: real := if s.vasarely then s.lacunarity else 1.0;
    noiseHeight := 0.0;
    ProgressionStart(s, s.persistance);
    ProgressionStart(s, s.lacunarity);
    for i := 0 to octaveOffsets.Length
      invariant amplitude == Pow(s.persistance, OctaveExponent(s, i))
      invariant frequency == Pow(s.lacunarity, OctaveExponent(s, i))
      invariant noiseHeight == OctaveSum(s, x, y, i)
    {
      noiseHeight, amplitude, frequency := AddOctave(s, octaveOffsets, x, y, i, noiseHeight, amplitude, frequency);
    }
  }

  /** The body of the octave loop: add octave i's sample, then advance amplitude and frequency. */
  method AddOctave(s: Sampling, octaveOffsets: array<Vector2>, x: int, y: int, i: nat,
                   noiseHeight: real, amplitude: real, frequency: real)
    returns (noiseHeight': real, amplitude': real, frequency': real)
    requires octaveOffsets[..] == s.offsets && i < octaveOffsets.Length
    requires amplitude == Pow(s.persistance, OctaveExponent(s, i))
    requires frequency == Pow(s.lacunarity, OctaveExponent(s, i))
    requires noiseHeight == OctaveSum(s, x, y, i)
    ensures noiseHeight' == OctaveSum(s, x, y, i + 1)
    ensures amplitude' == Pow(s.persistance, OctaveExponent(s, i + 1))
    ensures frequency' == Pow(s.lacunarity, OctaveExponent(s, i + 1))
  {
    assert octaveOffsets[i] == s.offsets[i];
    var sampleX := SampleCoordinate(x, s.halfWidth, s.scale, frequency, octaveOffsets[i].x);
    var sampleY := SampleCoordinate(y, s.halfHeight, s.scale, frequency, octaveOffsets[i].y);
    var perlinValue := s.perlin(sampleX, sampleY) * 2.0 - 1.0;
    OctaveStep(s, x, y, i, amplitude, frequency);
    noiseHeight' := noiseHeight + perlinValue * amplitude;
    ProgressionStep(s, s.persistance, i);
    amplitude' := amplitude * s.persistance;
    ProgressionStep(s, s.lacunarity, i);
    frequency' := frequency * s.lacunarity;
  }

  /** The sampling both generators set up for a map of the given parameters. */
  function MakeSampling(mapWidth: nat, mapHeight: nat, seed: int, scale: real, octaves: nat,
                        persistance: real, lacunarity: real, offset: Vector2,
                        perlin: Perlin, samples: SampleStream, vasarely: bool): (s: Sampling)
    ensures |s.offsets| == octaves && s.vasarely == vasarely
  {
    Sampling(perlin,
             seq(octaves, i requires 0 <= i < octaves => OctaveOffset(samples, seed, offset, i)),
             ClampScale(scale), persistance, lacunarity, vasarely,
             mapWidth as real / 2.0, mapHeight as real / 2.0)
  }

  // ---------------------------------------------------------------------
  // The running maximum / minimum of the terrain generator's first pass.

  datatype Extremes = Extremes(max: real, min: real)

  /** The initial values float.MinValue (maximum) and float.MaxValue (minimum). */
  const Sentinels := Extremes(FloatMinValue, FloatMaxValue)

  /**
   * One step of the scan.  The minimum is consulted only in the `else` branch,
   * so a value that sets a new maximum is never compared against it.
   */
  function Step(e: Extremes, v: real): (r: Extremes)
    ensures r.max >= v && r.max >= e.max && (r.max == v || r.max == e.max)
    ensures v > e.max ==> r.min == e.min
    ensures v <= e.max ==> r.min <= v && r.min <= e.min && (r.min == v || r.min == e.min)
  {
    if v > e.max then Extremes(v, e.min)
    else if v < e.min then Extremes(e.max, v)
    else e
  }

  /** Cell (x', y') comes before cell (x, y) in the row-major scan (y outer, x inner). */
  predicate Before(x': int, y': int, x: int, y: int) {
    y' < y || (y' == y && x' < x)
  }

  /** The extremes after scanning every cell before (x, y) of a map `w` cells wide. */
  function ScanTo(s: Sampling, w: nat, y: nat, x: nat): Extremes
    requires x <= w
    decreases y, x
  {
    if x > 0 then Step(ScanTo(s, w, y, x - 1), RawHeight(s, x - 1, y))
    else if y > 0 then ScanTo(s, w, y - 1, w)
    else Sentinels
  }

  /** The extremes of a whole `w` by `h` map. */
  function MapExtremes(s: Sampling, w: nat, h: nat): (r: Extremes)
    ensures r.max >= FloatMinValue && r.min <= FloatMaxValue
    ensures w == 0 || h == 0 ==> r == Sentinels
  {
    ScanWithinSentinels(s, w, h, 0);
    ScanTo(s, w, h, 0)
  }

  /**
   * The scan never takes the maximum below float.MinValue or the minimum above
   * float.MaxValue, and a scan of nothing leaves both sentinels in place.
   */
  lemma {:induction false} ScanWithinSentinels(s: Sampling, w: nat, y: nat, x: nat)
    requires x <= w
    ensures ScanTo(s, w, y, x).max >= FloatMinValue && ScanTo(s, w, y, x).min <= FloatMaxValue
    ensures w == 0 || (x == 0 && y == 0) ==> ScanTo(s, w, y, x) == Sentinels
    decreases y, x
  {
    if x > 0 {
      ScanWithinSentinels(s, w, y, x - 1);
    } else if y > 0 {
      ScanWithinSentinels(s, w, y - 1, w);
    }
  }

  /** The maximum bounds every cell scanned so far. */
  lemma {:induction false} ScanMaxDominates(s: Sampling, w: nat, y: nat, x: nat, x': nat, y': nat)
    requires x <= w && x' < w && Before(x', y', x, y)
    ensures RawHeight(s, x', y') <= ScanTo(s, w, y, x).max
    decreases y, x
  {
    if x > 0 {
      if !(x' == x - 1 && y' == y) {
        ScanMaxDominates(s, w, y, x - 1, x', y');
      }
    } else if y > 0 {
      ScanMaxDominates(s, w, y - 1, w, x', y');
    }
  }

  /** A scanned cell that did not set a new maximum is bounded below by the minimum. */
  lemma {:induction false} ScanMinBoundsNonRecords(s: Sampling, w: nat, y: nat, x: nat, x': nat, y': nat)
    requires x <= w && x' < w && Before(x', y', x, y)
    requires RawHeight(s, x', y') <= ScanTo(s, w, y', x').max
    ensures ScanTo(s, w, y, x).min <= RawHeight(s, x', y')
    decreases y, x
  {
    if x > 0 {
      if !(x' == x - 1 && y' == y) {
        ScanMinBoundsNonRecords(s, w, y, x - 1, x', y');
      }
    } else if y > 0 {
      ScanMinBoundsNonRecords(s, w, y - 1, w, x', y');
    }
  }

  /** The maximum is still the float.MinValue sentinel, or it is the raw height of a cell scanned so far. */
  lemma {:induction false} ScanMaxSentinelOrAttained(s: Sampling, w: nat, y: nat, x: nat)
    requires x <= w
    ensures || ScanTo(s, w, y, x).max == FloatMinValue
            || exists x', y' :: 0 <= x' < w && 0 <= y' && Before(x', y', x, y) && RawHeight(s, x', y') == ScanTo(s, w, y, x).max
    decreases y, x
  {
    if x > 0 {
      var e := ScanTo(s, w, y, x - 1);
      if RawHeight(s, x - 1, y) > e.max {
        assert Before(x - 1, y, x, y);
      } else {
        ScanMaxSentinelOrAttained(s, w, y, x - 1);
        if e.max != FloatMinValue {
          var x', y' :| 0 <= x' < w && 0 <= y' && Before(x', y', x - 1, y) && RawHeight(s, x', y') == e.max;
          assert Before(x', y', x, y);
        }
      }
    } else if y > 0 {
      ScanMaxSentinelOrAttained(s, w, y - 1, w);
      var e := ScanTo(s, w, y - 1, w);
      if e.max != FloatMinValue {
        var x', y' :| 0 <= x' < w && 0 <= y' && Before(x', y', w, y - 1) && RawHeight(s, x', y') == e.max;
        assert Before(x', y', x, y);
      }
    }
  }

  /** Once some scanned cell is at or above float.MinValue, the maximum is the raw height of a scanned cell. */
  lemma ScanMaxAttained(s: Sampling, w: nat, y: nat, x: nat)
    requires x <= w
    requires exists x', y' :: 0 <= x' < w && 0 <= y' && Before(x', y', x, y) && RawHeight(s, x', y') >= FloatMinValue
    ensures exists x', y' :: 0 <= x' < w && 0 <= y' && Before(x', y', x, y) && RawHeight(s, x', y') == ScanTo(s, w, y, x).max
  {
    var x', y' :| 0 <= x' < w && 0 <= y' && Before(x', y', x, y) && RawHeight(s, x', y') >= FloatMinValue;
    ScanMaxDominates(s, w, y, x, x', y');
    ScanMaxSentinelOrAttained(s, w, y, x);
    if ScanTo(s, w, y, x).max == FloatMinValue {
      assert RawHeight(s, x', y') == ScanTo(s, w, y, x).max;
    }
  }

  /** The first cell scanned always sets a new maximum, so it is never compared against the minimum. */
  lemma FirstCellSkipsMinimum(s: Sampling, w: nat)
    requires w > 0 && RawHeight(s, 0, 0) > FloatMinValue
    ensures ScanTo(s, w, 0, 1) == Extremes(RawHeight(s, 0, 0), FloatMaxValue)
  {
  }

  /**
   * A consequence of the `else if`: after scanning two increasing values the
   * minimum is still float.MaxValue, and both values normalise to 1 rather
   * than to 0 and 1.
   */
  lemma IncreasingPairNormalisesToOne(a: real, b: real)
    requires FloatMinValue < a < b < FloatMaxValue
    ensures Step(Step(Sentinels, a), b) == Extremes(b, FloatMaxValue)
    ensures InverseLerp(FloatMaxValue, b, a) == 1.0 && InverseLerp(FloatMaxValue, b, b) == 1.0
  {
    var m := FloatMaxValue;
    assert (a - m) / (b - m) >= 1.0 by {
      assert b - m < 0.0;
      assert a - m <= b - m;
      assert (a - m) / (b - m) == (m - a) / (m - b);
    }
  }

  /** On a non-constant map, some cell of the terrain map normalises to exactly 1. */
  lemma SomeCellNormalisesToOne(s: Sampling, w: nat, h: nat)
    requires exists x, y :: 0 <= x < w && 0 <= y < h && RawHeight(s, x, y) >= FloatMinValue
    requires MapExtremes(s, w, h).min != MapExtremes(s, w, h).max
    ensures exists x, y :: 0 <= x < w && 0 <= y < h && TerrainHeight(s, w, h, x, y) == 1.0
  {
    var x0, y0 :| 0 <= x0 < w && 0 <= y0 < h && RawHeight(s, x0, y0) >= FloatMinValue;
    assert Before(x0, y0, 0, h);
    ScanMaxAttained(s, w, h, 0);
    var x, y :| 0 <= x < w && 0 <= y && Before(x, y, 0, h) && RawHeight(s, x, y) == ScanTo(s, w, h, 0).max;
    assert TerrainHeight(s, w, h, x, y) == 1.0;
  }

  /** Terrain mode: cell (x, y) after the normalisation pass. */
  function TerrainHeight(s: Sampling, w: nat, h: nat, x: int, y: int): (r: real)
    ensures 0.0 <= r <= 1.0
  {
    var e := MapExtremes(s, w, h);
    InverseLerp(e.min, e.max, RawHeight(s, x, y))
  }

  /** Vasarely mode: cell (x, y) is the curve's value at the raw height. */
  function VasarelyHeight(s: Sampling, keys: seq<Keyframe>, evaluate: CurveEvaluator, x: int, y: int): (r: real)
    ensures |s.offsets| == 0 ==> r == evaluate(keys, 0.0)
  {
    evaluate(keys, RawHeight(s, x, y))
  }

  // ---------------------------------------------------------------------
  // The generators.

  /** Noise.GenerateNoiseMap: Vasarely goes to the Vasarely generator, every other type to the terrain one, which never sees the curve. */
  method GenerateNoiseMap(noiseType: NoiseType, mapWidth: int, mapHeight: int, seed: int, scale: real,
                          octaves: int, persistance: real, lacunarity: real, offset: Vector2,
                          noiseFactorCurve: Option<AnimationCurve>,
                          perlin: Perlin, samples: SampleStream, evaluate: CurveEvaluator)
    returns (r: Result<array2<real>, NoiseError>)
    ensures noiseType == Vasarely ==>
      (r.Failure? <==> noiseFactorCurve.None? || mapWidth < 0 || mapHeight < 0 || octaves < 0)
    ensures noiseType != Vasarely ==>
      (r.Failure? <==> mapWidth < 0 || mapHeight < 0 || octaves < 0)
    ensures r.Success? ==> fresh(r.value) && r.value.Length0 == mapWidth && r.value.Length1 == mapHeight
    ensures r.Success? ==>
      var s := MakeSampling(mapWidth, mapHeight, seed, scale, octaves, persistance, lacunarity, offset,
                            perlin, samples, noiseType == Vasarely);
      forall x, y :: 0 <= x < mapWidth && 0 <= y < mapHeight ==>
        r.value[x, y] == if noiseType == Vasarely
                         then VasarelyHeight(s, noiseFactorCurve.value.keys, evaluate, x, y)
                         else TerrainHeight(s, mapWidth, mapHeight, x, y)
  {
    match noiseType {
      case Vasarely =>
        r := GenerateVasarelyNoiseMap(mapWidth, mapHeight, seed, scale, octaves, persistance, lacunarity,
                                      offset, noiseFactorCurve, perlin, samples, evaluate);
      case _ =>
        r := GenerateTerrainNoiseMap(mapWidth, mapHeight, seed, scale, octaves, persistance, lacunarity,
                                     offset, perlin, samples);
    }
  }

  /** The terrain generator: raw octave sums, a running max/min scan, then an in-place normalisation. */
  method GenerateTerrainNoiseMap(mapWidth: int, mapHeight: int, seed: int, scale: real, octaves: int,
                                 persistance: real, lacunarity: real, offset: Vector2,
                                 perlin: Perlin, samples: SampleStream)
    returns (r: Result<array2<real>, NoiseError>)
    ensures r.Failure? <==> mapWidth < 0 || mapHeight < 0 || octaves < 0
    ensures r.Failure? ==> r.error == if mapWidth < 0 || mapHeight < 0 then NegativeDimension else NegativeOctaveCount
    ensures r.Success? ==> fresh(r.value) && r.value.Length0 == mapWidth && r.value.Length1 == mapHeight
    ensures r.Success? ==>
      var s := MakeSampling(mapWidth, mapHeight, seed, scale, octaves, persistance, lacunarity, offset,
                            perlin, samples, false);
      forall x, y :: 0 <= x < mapWidth && 0 <= y < mapHeight ==>
        r.value[x, y] == TerrainHeight(s, mapWidth, mapHeight, x, y)
  {
    if mapWidth < 0 || mapHeight < 0 {
      return Failure(NegativeDimension);
    }
    var noiseMap := new real[mapWidth, mapHeight]((_, _) => 0.0);
    if octaves < 0 {
      return Failure(NegativeOctaveCount);
    }
    var octaveOffsets := DrawOctaveOffsets(seed, samples, octaves, offset);
    var clampedScale := ClampScale(scale);
    var halfWidth := mapWidth as real / 2.0;
    var halfHeight := mapHeight as real / 2.0;
    ghost var s := MakeSampling(mapWidth, mapHeight, seed, scale, octaves, persistance, lacunarity, offset,
                                perlin, samples, false);
    var sampling := Sampling(perlin, octaveOffsets[..], clampedScale, persistance, lacunarity, false,
                             halfWidth, halfHeight);
    assert sampling == s;

    var maxNoiseHeight, minNoiseHeight := FillRawHeights(noiseMap, sampling, octaveOffsets);
    NormaliseInPlace(noiseMap, minNoiseHeight, maxNoiseHeight);
    return Success(noiseMap);
  }

  /** The terrain generator's first pass: every cell gets its raw height while the running extremes are kept. */
  method FillRawHeights(noiseMap: array2<real>, s: Sampling, octaveOffsets: array<Vector2>)
    returns (maxNoiseHeight: real, minNoiseHeight: real)
    requires octaveOffsets[..] == s.offsets && !s.vasarely
    modifies noiseMap
    ensures Extremes(maxNoiseHeight, minNoiseHeight) == MapExtremes(s, noiseMap.Length0, noiseMap.Length1)
    ensures forall x, y :: 0 <= x < noiseMap.Length0 && 0 <= y < noiseMap.Length1 ==> noiseMap[x, y] == RawHeight(s, x, y)
  {
    var mapWidth, mapHeight := noiseMap.Length0, noiseMap.Length1;
    maxNoiseHeight := FloatMinValue;
    minNoiseHeight := FloatMaxValue;
    for y := 0 to mapHeight
      invariant Extremes(maxNoiseHeight, minNoiseHeight) == ScanTo(s, mapWidth, y, 0)
      invariant forall x', y' :: 0 <= x' < mapWidth && 0 <= y' < y ==> noiseMap[x', y'] == RawHeight(s, x', y')
    {
      for x := 0 to mapWidth
        invariant Extremes(maxNoiseHeight, minNoiseHeight) == ScanTo(s, mapWidth, y, x)
        invariant forall x', y' :: 0 <= x' < mapWidth && 0 <= y' < mapHeight && Before(x', y', x, y) ==>
          noiseMap[x', y'] == RawHeight(s, x', y')
      {
        var noiseHeight := SampleOctaves(s, octaveOffsets, x, y);
        if noiseHeight > maxNoiseHeight {
          maxNoiseHeight := noiseHeight;
        } else if noiseHeight < minNoiseHeight {
          minNoiseHeight := noiseHeight;
        }
        noiseMap[x, y] := noiseHeight;
      }
    }
  }

  /** The terrain generator's second pass: each cell is replaced in place by its inverse-lerp between the extremes. */
  method NormaliseInPlace(noiseMap: array2<real>, minNoiseHeight: real, maxNoiseHeight: real)
    modifies noiseMap
    ensures forall x, y :: 0 <= x < noiseMap.Length0 && 0 <= y < noiseMap.Length1 ==>
      noiseMap[x, y] == InverseLerp(minNoiseHeight, maxNoiseHeight, old(noiseMap[x, y]))
  {
    var mapWidth, mapHeight := noiseMap.Length0, noiseMap.Length1;
    for y := 0 to mapHeight
      invariant forall x', y' :: 0 <= x' < mapWidth && 0 <= y' < mapHeight ==>
        noiseMap[x', y'] == if y' < y then InverseLerp(minNoiseHeight, maxNoiseHeight, old(noiseMap[x', y']))
                            else old(noiseMap[x', y'])
    {
      for x := 0 to mapWidth
        invariant forall x', y' :: 0 <= x' < mapWidth && 0 <= y' < mapHeight ==>
          noiseMap[x', y'] == if Before(x', y', x, y) then InverseLerp(minNoiseHeight, maxNoiseHeight, old(noiseMap[x', y']))
                              else old(noiseMap[x', y'])
      {
        noiseMap[x, y] := InverseLerp(minNoiseHeight, maxNoiseHeight, noiseMap[x, y]);
      }
    }
  }

  /** The Vasarely generator: octave sums starting one power in, passed through a copy of the curve. */
  method GenerateVasarelyNoiseMap(mapWidth: int, mapHeight: int, seed: int, scale: real, octaves: int,
                                  persistance: real, lacunarity: real, offset: Vector2,
                                  noiseFactorCurve: Option<AnimationCurve>,
                                  perlin: Perlin, samples: SampleStream, evaluate: CurveEvaluator)
    returns (r: Result<array2<real>, NoiseError>)
    ensures r.Failure? <==> noiseFactorCurve.None? || mapWidth < 0 || mapHeight < 0 || octaves < 0
    ensures r.Failure? ==> r.error == if noiseFactorCurve.None? then NullCurve
                                      else if mapWidth < 0 || mapHeight < 0 then NegativeDimension
                                      else NegativeOctaveCount
    ensures r.Success? ==> fresh(r.value) && r.value.Length0 == mapWidth && r.value.Length1 == mapHeight
    ensures r.Success? ==>
      var s := MakeSampling(mapWidth, mapHeight, seed, scale, octaves, persistance, lacunarity, offset,
                            perlin, samples, true);
      forall x, y :: 0 <= x < mapWidth && 0 <= y < mapHeight ==>
        r.value[x, y] == VasarelyHeight(s, noiseFactorCurve.value.keys, evaluate, x, y)
  {
    if noiseFactorCurve.None? {
      return Failure(NullCurve);
    }
    var curve := AnimationCurve(noiseFactorCurve.value.keys);
    if mapWidth < 0 || mapHeight < 0 {
      return Failure(NegativeDimension);
    }
    var noiseMap := new real[mapWidth, mapHeight]((_, _) => 0.0);
    if octaves < 0 {
      return Failure(NegativeOctaveCount);
    }
    var octaveOffsets := DrawOctaveOffsets(seed, samples, octaves, offset);
    var clampedScale := ClampScale(scale);
    var halfWidth := mapWidth as real / 2.0;
    var halfHeight := mapHeight as real / 2.0;
    ghost var s := MakeSampling(mapWidth, mapHeight, seed, scale, octaves, persistance, lacunarity, offset,
                                perlin, samples, true);
    var sampling := Sampling(perlin, octaveOffsets[..], clampedScale, persistance, lacunarity, true,
                             halfWidth, halfHeight);
    assert sampling == s;

    FillCurveHeights(noiseMap, sampling, octaveOffsets, curve, evaluate);
    return Success(noiseMap);
  }

  /**
   * The Vasarely generator's only pass: each cell is the curve's value at its
   * raw height.  The running extremes are kept as in the terrain generator but
   * never read.
   */
  method FillCurveHeights(noiseMap: array2<real>, s: Sampling, octaveOffsets: array<Vector2>,
                          curve: AnimationCurve, evaluate: CurveEvaluator)
    requires octaveOffsets[..] == s.offsets && s.vasarely
    modifies noiseMap
    ensures forall x, y :: 0 <= x < noiseMap.Length0 && 0 <= y < noiseMap.Length1 ==>
      noiseMap[x, y] == VasarelyHeight(s, curve.keys, evaluate, x, y)
  {
    var mapWidth, mapHeight := noiseMap.Length0, noiseMap.Length1;
    var maxNoiseHeight := FloatMinValue;
    var minNoiseHeight := FloatMaxValue;
    for y := 0 to mapHeight
      invariant forall x', y' :: 0 <= x' < mapWidth && 0 <= y' < y ==>
        noiseMap[x', y'] == VasarelyHeight(s, curve.keys, evaluate, x', y')
    {
      for x := 0 to mapWidth
        invariant forall x', y' :: 0 <= x' < mapWidth && 0 <= y' < mapHeight && Before(x', y', x, y) ==>
          noiseMap[x', y'] == VasarelyHeight(s, curve.keys, evaluate, x', y')
      {
        var noiseHeight := SampleOctaves(s, octaveOffsets, x, y);
        if noiseHeight > maxNoiseHeight {
          maxNoiseHeight := noiseHeight;
        } else if noiseHeight < minNoiseHeight {
          minNoiseHeight := noiseHeight;
        }
        noiseMap[x, y] := evaluate(curve.keys, noiseHeight);
      }
    }
  }
}
