/**
 * Stand-ins for the Unity and .NET value types and numeric helpers that the
 * terrain scripts call.  Single-precision floats are modelled as reals; the
 * foreign primitives whose internals are not part of the model (Perlin noise,
 * curve evaluation, vector normalisation, the generator's sample stream) are
 * function-typed parameters of the operations that use them.
 */
module UnityMath {

  import IntArith

  datatype Vector2 = Vector2(x: real, y: real)

  datatype Vector3 = Vector3(x: real, y: real, z: real)

  const Zero2 := Vector2(0.0, 0.0)

  const Zero3 := Vector3(0.0, 0.0, 0.0)

  function Add(u: Vector3, v: Vector3): Vector3 {
    Vector3(u.x + v.x, u.y + v.y, u.z + v.z)
  }

  function Sub(u: Vector3, v: Vector3): Vector3 {
    Vector3(u.x - v.x, u.y - v.y, u.z - v.z)
  }

  /** Vector3.Cross. */
  function Cross(u: Vector3, v: Vector3): (w: Vector3)
    ensures w.x * u.x + w.y * u.y + w.z * u.z == 0.0
    ensures w.x * v.x + w.y * v.y + w.z * v.z == 0.0
    ensures u == Zero3 || v == Zero3 || u == v ==> w == Zero3
  {
    Vector3(u.y * v.z - u.z * v.y, u.z * v.x - u.x * v.z, u.x * v.y - u.y * v.x)
  }

  /** Vector3.normalized / Vector3.Normalize, supplied by the caller. */
  type Normalizer = Vector3 -> Vector3

  /** Mathf.PerlinNoise. */
  type Perlin = (real, real) -> real

  datatype Keyframe = Keyframe(time: real, value: real)

  /** An AnimationCurve is known through its keys. */
  datatype AnimationCurve = AnimationCurve(keys: seq<Keyframe>)

  /** AnimationCurve.Evaluate on the given keys. */
  type CurveEvaluator = (seq<Keyframe>, real) -> real

  /** float.MaxValue and float.MinValue. */
  const FloatMaxValue: real := 340282346638528859811704183484516925440.0
  const FloatMinValue: real := -FloatMaxValue

  /** Mathf.Clamp01. */
  function Clamp01(v: real): (r: real)
    ensures 0.0 <= r <= 1.0
    ensures 0.0 <= v <= 1.0 ==> r == v
    ensures v < 0.0 ==> r == 0.0
    ensures v > 1.0 ==> r == 1.0
  {
    if v < 0.0 then 0.0 else if v > 1.0 then 1.0 else v
  }

  /** Mathf.Lerp: the point a fraction t (clamped) of the way from a to b. */
  function Lerp(a: real, b: real, t: real): (r: real)
    ensures t <= 0.0 ==> r == a
    ensures t >= 1.0 ==> r == b
    ensures a <= b ==> a <= r <= b
    ensures b <= a ==> b <= r <= a
  {
    var c := Clamp01(t);
    var d := b - a;
    FractionWithin(d, c);
    a + d * c
  }

  /** A fraction c in [0, 1] of d lies between 0 and d. */
  lemma FractionWithin(d: real, c: real)
    requires 0.0 <= c <= 1.0
    ensures d >= 0.0 ==> 0.0 <= d * c <= d
    ensures d <= 0.0 ==> d <= d * c <= 0.0
  {
    assert d - d * c == d * (1.0 - c);
  }

  /** Mathf.InverseLerp: where value lies between a and b, clamped to [0, 1]; 0 when a == b. */
  function InverseLerp(a: real, b: real, value: real): (r: real)
    ensures 0.0 <= r <= 1.0
    ensures a == b ==> r == 0.0
    ensures a != b && value == a ==> r == 0.0
    ensures a != b && value == b ==> r == 1.0
  {
    if a != b then
      assert (b - a) / (b - a) == 1.0;
      Clamp01((value - a) / (b - a))
    else
      0.0
  }

  /** InverseLerp undoes Lerp on a non-degenerate interval. */
  lemma InverseLerpOfLerp(a: real, b: real, t: real)
    requires a != b && 0.0 <= t <= 1.0
    ensures InverseLerp(a, b, Lerp(a, b, t)) == t
  {
    assert (Lerp(a, b, t) - a) / (b - a) == t;
  }

  datatype Colour = Colour(r: real, g: real, b: real, a: real)

  /** Color.white and Color.clear; Color.clear is also the value of a fresh Color[] slot. */
  const White := Colour(1.0, 1.0, 1.0, 1.0)
  const Clear := Colour(0.0, 0.0, 0.0, 0.0)

  /** A colour given as four bytes, as `#RRGGBBAA` denotes it. */
  function Rgba32(r: nat, g: nat, b: nat, a: nat): (c: Colour)
    requires r < 256 && g < 256 && b < 256 && a < 256
    ensures 0.0 <= c.r <= 1.0 && 0.0 <= c.g <= 1.0 && 0.0 <= c.b <= 1.0 && 0.0 <= c.a <= 1.0
    ensures c.a == 0.0 <==> a == 0
    ensures c.a == 1.0 <==> a == 255
  {
    Colour(r as real / 255.0, g as real / 255.0, b as real / 255.0, a as real / 255.0)
  }

  /** Color.Lerp: channel-wise interpolation with t clamped to [0, 1]. */
  function ColourLerp(c: Colour, d: Colour, t: real): (e: Colour)
    ensures t <= 0.0 ==> e == c
    ensures t >= 1.0 ==> e == d
  {
    Colour(Lerp(c.r, d.r, t), Lerp(c.g, d.g, t), Lerp(c.b, d.b, t), Lerp(c.a, d.a, t))
  }

  /** C#'s integer division, which truncates toward zero (Dafny's `/` is Euclidean). */
  function TruncDiv(a: int, b: int): (q: int)
    requires b > 0
    ensures a >= 0 ==> q == a / b
    ensures a >= 0 ==> 0 <= a - q * b < b
    ensures a < 0 ==> 0 <= q * b - a < b
  {
    if a >= 0 then a / b else -((-a) / b)
  }

  /** The largest value System.Random's internal sample can take, plus one (int.MaxValue). */
  const MBig: int := 2147483647

  type InternalSample = s: int | 0 <= s < MBig

  /** The stream of internal samples a generator seeded with `seed` produces: (seed, k) is the k-th. */
  type SampleStream = (int, nat) -> InternalSample

  /**
   * The value of the k-th call Next(lo, hi) of a generator seeded with `seed`,
   * for a range of at most int.MaxValue (the branch that draws a single sample).
   */
  function NextValue(samples: SampleStream, seed: int, k: nat, lo: int, hi: int): (r: int)
    requires lo <= hi && hi - lo <= MBig
    ensures lo <= r && (lo < hi ==> r < hi)
  {
    var s := samples(seed, k);
    if lo < hi then
      IntArith.MulStrict(s, MBig, hi - lo);
      IntArith.DivBelow(s * (hi - lo), MBig, hi - lo);
      lo + (s * (hi - lo)) / MBig
    else
      lo
  }

  /** System.Random: a seeded generator whose state is the number of draws made so far. */
  class SeededRandom {
    const seed: int
    const samples: SampleStream
    var drawn: nat

    constructor (seed: int, samples: SampleStream)
      ensures this.seed == seed && this.samples == samples && drawn == 0
    {
      this.seed := seed;
      this.samples := samples;
      drawn := 0;
    }

    /** Random.Next(lo, hi) over a range of at most int.MaxValue: the next draw, in [lo, hi). */
    method Next(lo: int, hi: int) returns (r: int)
      requires lo <= hi && hi - lo <= MBig
      modifies this
      ensures drawn == old(drawn) + 1
      ensures r == NextValue(samples, seed, old(drawn), lo, hi)
    {
      r := NextValue(samples, seed, drawn, lo, hi);
      drawn := drawn + 1;
    }
  }
}
