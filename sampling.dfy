/** PointSampler: evaluation points along a segment and over a coordinate plane. */
module Sampling {
  import opened Common

  /** Entry i of np.linspace(lo, hi, n) for n >= 2, in exact arithmetic. */
  function LinspaceAt(lo: real, hi: real, n: int, i: int): real
    requires n >= 2
  {
    lo + (i as real) * (hi - lo) / ((n - 1) as real)
  }

  function Linspace(lo: real, hi: real, n: int): (r: seq<real>)
    requires n >= 2
    ensures |r| == n
  {
    seq(n, i requires 0 <= i < n => LinspaceAt(lo, hi, n, i))
  }

  /** linspace includes both bounds and steps by (hi - lo) / (n - 1). */
  lemma LinspaceShape(lo: real, hi: real, n: int, i: int)
    requires n >= 2 && 0 <= i < n - 1
    ensures Linspace(lo, hi, n)[0] == lo
    ensures Linspace(lo, hi, n)[n - 1] == hi
    ensures Linspace(lo, hi, n)[i + 1] - Linspace(lo, hi, n)[i] == (hi - lo) / ((n - 1) as real)
  {
    LinspaceAtLast(lo, hi, n);
    LinspaceAtStep(lo, hi, n, i);
  }

  lemma LinspaceAtLast(lo: real, hi: real, n: int)
    requires n >= 2
    ensures LinspaceAt(lo, hi, n, n - 1) == hi
  {
    MulDivCancel((n - 1) as real, hi - lo);
  }

  lemma LinspaceAtStep(lo: real, hi: real, n: int, i: int)
    requires n >= 2
    ensures LinspaceAt(lo, hi, n, i + 1) - LinspaceAt(lo, hi, n, i) == (hi - lo) / ((n - 1) as real)
  {
    var d := (n - 1) as real;
    MulDivAssoc((i + 1) as real, hi - lo, d);
    MulDivAssoc(i as real, hi - lo, d);
    assert ((i + 1) as real) == (i as real) + 1.0;
  }

  lemma MulDivCancel(d: real, x: real)
    requires d != 0.0
    ensures d * x / d == x
  {
  }

  lemma MulDivAssoc(a: real, b: real, d: real)
    requires d != 0.0
    ensures a * b / d == a * (b / d)
  {
  }

  lemma DivDifference(a: real, b: real, d: real)
    requires d != 0.0
    ensures a / d - b / d == (a - b) / d
  {
  }

  /** (1 - t) * p0 + t * p1, the parametrisation of generate_line_points. */
  function Lerp(p0: Point3, p1: Point3, t: real): Point3 {
    Point3((1.0 - t) * p0.x + t * p1.x,
           (1.0 - t) * p0.y + t * p1.y,
           (1.0 - t) * p0.z + t * p1.z)
  }

  function Sub(p: Point3, q: Point3): Point3 { Point3(p.x - q.x, p.y - q.y, p.z - q.z) }

  function Scale(c: real, p: Point3): Point3 { Point3(c * p.x, c * p.y, c * p.z) }

  /** generate_line_points: num_points points from start to end inclusive. */
  function LinePoints(start: Point3, end: Point3, numPoints: int): (r: Result<seq<Point3>>)
    ensures r.Err? <==> numPoints < 2
    ensures r.Err? ==> r.error == TooFewLinePoints
    ensures r.Ok? ==> |r.value| == numPoints && r.value[0] == start && r.value[numPoints - 1] == end
  {
    if numPoints < 2 then Err(TooFewLinePoints)
    else
      var ts := Linspace(0.0, 1.0, numPoints);
      LinspaceShape(0.0, 1.0, numPoints, 0);
      Ok(seq(numPoints, i requires 0 <= i < numPoints => Lerp(start, end, ts[i])))
  }

  /** Point i sits at parameter i / (n - 1), consecutive points are one equal
      step (end - start) / (n - 1) apart, and the parameter strictly increases. */
  lemma LinePointsSpacing(start: Point3, end: Point3, n: int, i: int)
    requires n >= 2 && 0 <= i < n - 1
    ensures LinePoints(start, end, n).Ok?
    ensures LinePoints(start, end, n).value[i] == Lerp(start, end, (i as real) / ((n - 1) as real))
    ensures Sub(LinePoints(start, end, n).value[i + 1], LinePoints(start, end, n).value[i])
            == Scale(1.0 / ((n - 1) as real), Sub(end, start))
    ensures (i as real) / ((n - 1) as real) < ((i + 1) as real) / ((n - 1) as real)
  {
    var pts := LinePoints(start, end, n).value;
    var d := (n - 1) as real;
    var t0, t1 := (i as real) / d, ((i + 1) as real) / d;
    LinspaceShape(0.0, 1.0, n, i);
    assert pts[i] == Lerp(start, end, t0);
    assert pts[i + 1] == Lerp(start, end, t1);
    DivDifference((i + 1) as real, i as real, d);
    LerpStep(start.x, end.x, t0, t1);
    LerpStep(start.y, end.y, t0, t1);
    LerpStep(start.z, end.z, t0, t1);
  }

  lemma LerpStep(a: real, b: real, t0: real, t1: real)
    ensures ((1.0 - t1) * a + t1 * b) - ((1.0 - t0) * a + t0 * b) == (t1 - t0) * (b - a)
  {
  }

  /** ASCII lower-casing, as str.lower() acts on the plane selector. */
  function LowerChar(c: char): char {
    if 'A' <= c <= 'Z' then (c as int + 32) as char else c
  }

  function Lower(s: string): (r: string)
    ensures |r| == |s|
  {
    seq(|s|, i requires 0 <= i < |s| => LowerChar(s[i]))
  }

  lemma LowerIdempotent(s: string)
    ensures Lower(Lower(s)) == Lower(s)
  {
    forall i | 0 <= i < |s| ensures Lower(Lower(s))[i] == Lower(s)[i] {
      assert Lower(Lower(s))[i] == LowerChar(LowerChar(s[i]));
    }
  }

  /** The three coordinate planes a grid can lie on. */
  datatype Plane = PlaneXY | PlaneXZ | PlaneYZ

  function ParsePlane(s: string): (r: Option<Plane>)
    ensures r.Some? <==> Lower(s) in {"xy", "xz", "yz"}
  {
    var p := Lower(s);
    if p == "xy" then Some(PlaneXY)
    else if p == "xz" then Some(PlaneXZ)
    else if p == "yz" then Some(PlaneYZ)
    else None
  }

  /** Three (ny, nx) coordinate arrays of a planar grid. */
  datatype Grid = Grid(xs: seq<seq<real>>, ys: seq<seq<real>>, zs: seq<seq<real>>)

  /** np.meshgrid(u, v, indexing="xy"): the first array repeats u along each
      of |v| rows, the second repeats v[j] along row j. */
  function MeshU(u: seq<real>, v: seq<real>): seq<seq<real>> {
    seq(|v|, j requires 0 <= j < |v| => u)
  }

  function MeshV(u: seq<real>, v: seq<real>): seq<seq<real>> {
    seq(|v|, j requires 0 <= j < |v| => seq(|u|, i requires 0 <= i < |u| => v[j]))
  }

  /** np.full_like: an array of the given shape holding c everywhere. */
  function Full(rows: nat, cols: nat, c: real): seq<seq<real>> {
    seq(rows, j requires 0 <= j < rows => seq(cols, i requires 0 <= i < cols => c))
  }

  /** generate_plane_grid. For "xz" and "yz" the z bounds are required; the
      source then fails indexing None, reported here as MissingZBounds. */
  function PlaneGrid(plane: string, constValue: real, xBounds: Bounds, yBounds: Bounds,
                     nx: int, ny: int, zBounds: Option<Bounds>): Result<Grid>
  {
    if nx < 2 || ny < 2 then Err(TooFewGridPoints)
    else match ParsePlane(plane)
      case None => Err(UnknownPlane)
      case Some(PlaneXY) =>
        var u, v := Linspace(xBounds.lo, xBounds.hi, nx), Linspace(yBounds.lo, yBounds.hi, ny);
        Ok(Grid(MeshU(u, v), MeshV(u, v), Full(ny, nx, constValue)))
      case Some(PlaneXZ) =>
        if zBounds.None? then Err(MissingZBounds)
        else
          var u, v := Linspace(xBounds.lo, xBounds.hi, nx), Linspace(zBounds.value.lo, zBounds.value.hi, ny);
          Ok(Grid(MeshU(u, v), Full(ny, nx, constValue), MeshV(u, v)))
      case Some(PlaneYZ) =>
        if zBounds.None? then Err(MissingZBounds)
        else
          var u, v := Linspace(yBounds.lo, yBounds.hi, nx), Linspace(zBounds.value.lo, zBounds.value.hi, ny);
          Ok(Grid(Full(ny, nx, constValue), MeshU(u, v), MeshV(u, v)))
  }

  ghost predicate Shaped(m: seq<seq<real>>, rows: int, cols: int) {
    |m| == rows && forall j :: 0 <= j < rows ==> |m[j]| == cols
  }

  /** The error cases of generate_plane_grid, in the order the source tests them. */
  lemma PlaneGridErrors(plane: string, c: real, xb: Bounds, yb: Bounds, nx: int, ny: int, zb: Option<Bounds>)
    ensures var r := PlaneGrid(plane, c, xb, yb, nx, ny, zb);
      && (nx < 2 || ny < 2 ==> r == Err(TooFewGridPoints))
      && (nx >= 2 && ny >= 2 && Lower(plane) !in {"xy", "xz", "yz"} ==> r == Err(UnknownPlane))
      && (nx >= 2 && ny >= 2 && Lower(plane) in {"xz", "yz"} && zb.None? ==> r == Err(MissingZBounds))
      && (r.Ok? <==> nx >= 2 && ny >= 2 && (Lower(plane) == "xy" || (Lower(plane) in {"xz", "yz"} && zb.Some?)))
  {
  }

  /** Shape and contents of a successful grid: every array is (ny, nx), entry
      [j][i] takes the i-th value of the first in-plane range and the j-th of
      the second, and the axis orthogonal to the plane is constValue. */
  lemma PlaneGridContents(plane: string, c: real, xb: Bounds, yb: Bounds, nx: int, ny: int, zb: Option<Bounds>)
    requires PlaneGrid(plane, c, xb, yb, nx, ny, zb).Ok?
    ensures var g := PlaneGrid(plane, c, xb, yb, nx, ny, zb).value;
      && nx >= 2 && ny >= 2
      && Shaped(g.xs, ny, nx) && Shaped(g.ys, ny, nx) && Shaped(g.zs, ny, nx)
      && (Lower(plane) == "xy" ==> forall j, i :: 0 <= j < ny && 0 <= i < nx ==>
            g.xs[j][i] == LinspaceAt(xb.lo, xb.hi, nx, i) && g.ys[j][i] == LinspaceAt(yb.lo, yb.hi, ny, j) && g.zs[j][i] == c)
      && (Lower(plane) == "xz" ==> zb.Some? && forall j, i :: 0 <= j < ny && 0 <= i < nx ==>
            g.xs[j][i] == LinspaceAt(xb.lo, xb.hi, nx, i) && g.ys[j][i] == c && g.zs[j][i] == LinspaceAt(zb.value.lo, zb.value.hi, ny, j))
      && (Lower(plane) == "yz" ==> zb.Some? && forall j, i :: 0 <= j < ny && 0 <= i < nx ==>
            g.xs[j][i] == c && g.ys[j][i] == LinspaceAt(yb.lo, yb.hi, nx, i) && g.zs[j][i] == LinspaceAt(zb.value.lo, zb.value.hi, ny, j))
  {
  }

  /** The selector is compared after lower-casing, and "yz" never reads x_bounds. */
  lemma PlaneGridSelector(plane: string, c: real, xb: Bounds, xb': Bounds, yb: Bounds, nx: int, ny: int, zb: Option<Bounds>)
    ensures PlaneGrid(plane, c, xb, yb, nx, ny, zb) == PlaneGrid(Lower(plane), c, xb, yb, nx, ny, zb)
    ensures Lower(plane) == "yz" ==> PlaneGrid(plane, c, xb, yb, nx, ny, zb) == PlaneGrid(plane, c, xb', yb, nx, ny, zb)
  {
    LowerIdempotent(plane);
  }

  /** generate_plane_grid("xy", 5.0, (-1, 1), (-2, 2), 3, 3). */
  lemma PlaneGridExample()
    ensures PlaneGrid("xy", 5.0, Bounds(-1.0, 1.0), Bounds(-2.0, 2.0), 3, 3, None)
         == Ok(Grid([[-1.0, 0.0, 1.0], [-1.0, 0.0, 1.0], [-1.0, 0.0, 1.0]],
                    [[-2.0, -2.0, -2.0], [0.0, 0.0, 0.0], [2.0, 2.0, 2.0]],
                    [[5.0, 5.0, 5.0], [5.0, 5.0, 5.0], [5.0, 5.0, 5.0]]))
  {
    assert Lower("xy") == "xy";
    var u, v := Linspace(-1.0, 1.0, 3), Linspace(-2.0, 2.0, 3);
    assert u[0] == -1.0 && u[1] == 0.0 && u[2] == 1.0;
    assert v[0] == -2.0 && v[1] == 0.0 && v[2] == 2.0;
    assert u == [-1.0, 0.0, 1.0];
    var g := PlaneGrid("xy", 5.0, Bounds(-1.0, 1.0), Bounds(-2.0, 2.0), 3, 3, None).value;
    assert g.xs == MeshU(u, v) == [u, u, u];
    assert g.ys == MeshV(u, v);
    assert MeshV(u, v)[0] == [-2.0, -2.0, -2.0];
    assert MeshV(u, v)[1] == [0.0, 0.0, 0.0];
    assert MeshV(u, v)[2] == [2.0, 2.0, 2.0];
    assert Full(3, 3, 5.0)[0] == [5.0, 5.0, 5.0];
    assert Full(3, 3, 5.0)[1] == [5.0, 5.0, 5.0];
    assert Full(3, 3, 5.0)[2] == [5.0, 5.0, 5.0];
    assert ParsePlane("xy") == Some(PlaneXY);
    assert g == Grid(MeshU(u, v), MeshV(u, v), Full(3, 3, 5.0));
    assert MeshV(u, v) == [MeshV(u, v)[0], MeshV(u, v)[1], MeshV(u, v)[2]];
    assert Full(3, 3, 5.0) == [Full(3, 3, 5.0)[0], Full(3, 3, 5.0)[1], Full(3, 3, 5.0)[2]];
  }
}
