/** Shared vocabulary of the stress engine: evaluation points, the domain
    errors every entry point raises before doing any work, and the numeric
    primitives that the model keeps uninterpreted. */
module Common {

  /** An evaluation point; z is depth, positive downwards, surface at z = 0. */
  datatype Point3 = Point3(x: real, y: real, z: real)

  /** A point (or offset) in the horizontal xy-plane. */
  datatype XY = XY(x: real, y: real)

  /** A closed interval [lo, hi] of one coordinate, as a pair of bounds. */
  datatype Bounds = Bounds(lo: real, hi: real)

  /** The ValueError (and, for missing z bounds, TypeError) cases of the engine. */
  datatype DomainError =
    | NonPositiveWidth      // strip width_b <= 0
    | NonPositiveRadius     // disk radius_a <= 0
    | NegativeDepth         // some evaluation point has z < 0
    | TooFewNodes           // n_r < 3 or n_theta < 3
    | TooFewLinePoints      // num_points < 2
    | TooFewGridPoints      // nx < 2 or ny < 2
    | UnknownPlane          // plane not one of xy, xz, yz
    | MissingZBounds        // plane xz or yz used without z bounds

  datatype Result<T> = Ok(value: T) | Err(error: DomainError)

  datatype Option<T> = None | Some(value: T)

  /** Strictly positive reals: the only depths the singular kernels are ever given. */
  type Depth = z: real | z > 0.0 witness 1.0

  /** The floating-point constant math.pi, taken as an exact real. */
  const PI: real := 3.141592653589793
  const TWOPI: real := 2.0 * PI

  /** Transcendental primitives of the math/numpy runtime. The model never
      looks inside them: every property proved holds for any choice. */
  datatype Transcendentals = Transcendentals(
    sin: real -> real,
    cos: real -> real,
    atan: real -> real,
    atan2: (real, real) -> real,   // atan2(y, x)
    hypot: (real, real) -> real)

  function Abs(x: real): real { if x < 0.0 then -x else x }

  function MinInt(a: int, b: int): int { if a <= b then a else b }

  function MaxInt(a: int, b: int): int { if a >= b then a else b }

  function MaxReal(a: real, b: real): real { if a >= b then a else b }

  /** The element-wise image of a sequence under a per-element function. */
  function MapSeq<P, T>(f: P -> T, s: seq<P>): (r: seq<T>)
    ensures |r| == |s|
    ensures forall k :: 0 <= k < |s| ==> r[k] == f(s[k])
  {
    seq(|s|, k requires 0 <= k < |s| => f(s[k]))
  }

  /** np.any(z < 0) over the depths of a point cloud. */
  function AnyNegativeDepth(pts: seq<Point3>): (r: bool)
    ensures r <==> exists k :: 0 <= k < |pts| && pts[k].z < 0.0
  {
    if |pts| == 0 then false
    else if pts[0].z < 0.0 then true
    else
      var rest := AnyNegativeDepth(pts[1..]);
      assert forall k :: 1 <= k < |pts| ==> pts[k] == pts[1..][k - 1];
      rest
  }
}
