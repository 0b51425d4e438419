/** Rotation of horizontal offsets about the vertical axis (_deg_to_rad and
    _rotate_points_xy). Cosine and sine come from the uninterpreted runtime. */
module Rotation {
  import opened Common

  function DegToRad(angleDeg: real): real {
    angleDeg * PI / 180.0
  }

  /** The row vector p times rot.T, where rot = [[c, -s], [s, c]]. */
  function RotatePoint(p: XY, c: real, s: real): XY {
    XY(c * p.x - s * p.y, s * p.x + c * p.y)
  }

  /** points_xy @ rot.T for the rotation matrix of angle theta (radians). */
  function RotateByMatrix(pts: seq<XY>, theta: real, num: Transcendentals): (r: seq<XY>)
    ensures |r| == |pts|
  {
    MapSeq((p: XY) => RotatePoint(p, num.cos(theta), num.sin(theta)), pts)
  }

  /** _rotate_points_xy: an angle of exactly zero returns the points unchanged
      without evaluating any trigonometry; any other angle applies the matrix. */
  function RotatePointsXY(pts: seq<XY>, rotationDeg: real, num: Transcendentals): (r: seq<XY>)
    ensures |r| == |pts|
    ensures rotationDeg == 0.0 ==> r == pts
    ensures rotationDeg != 0.0 ==> forall k :: 0 <= k < |pts| ==>
      r[k] == RotatePoint(pts[k], num.cos(DegToRad(rotationDeg)), num.sin(DegToRad(rotationDeg)))
  {
    if rotationDeg == 0.0 then pts else RotateByMatrix(pts, DegToRad(rotationDeg), num)
  }

  /** The zero-angle short circuit is exact: whenever cos 0 = 1 and sin 0 = 0,
      the matrix path would have produced the same points. */
  lemma ZeroRotationAgreesWithMatrix(pts: seq<XY>, num: Transcendentals)
    requires num.cos(0.0) == 1.0 && num.sin(0.0) == 0.0
    ensures RotatePointsXY(pts, 0.0, num) == RotateByMatrix(pts, DegToRad(0.0), num)
  {
    var r := RotateByMatrix(pts, DegToRad(0.0), num);
    assert DegToRad(0.0) == 0.0;
    forall k | 0 <= k < |pts| ensures r[k] == pts[k] {
      var p := pts[k];
      assert r[k] == RotatePoint(p, 1.0, 0.0);
    }
  }

  lemma InverseRotationPoint(p: XY, c: real, s: real)
    requires c * c + s * s == 1.0
    ensures RotatePoint(RotatePoint(p, c, s), c, -s) == p
  {
    var q := RotatePoint(p, c, s);
    calc {
      c * q.x - (-s) * q.y;
      c * (c * p.x - s * p.y) + s * (s * p.x + c * p.y);
      (c * c + s * s) * p.x;
    }
    calc {
      (-s) * q.x + c * q.y;
      -s * (c * p.x - s * p.y) + c * (s * p.x + c * p.y);
      (c * c + s * s) * p.y;
    }
  }

  /** Rotating by rotationDeg and then by -rotationDeg gives back the points,
      for any cosine and sine that are even and odd and satisfy
      cos^2 + sin^2 = 1 at that angle. */
  lemma RotateThenUnrotate(pts: seq<XY>, rotationDeg: real, num: Transcendentals)
    requires var t := DegToRad(rotationDeg);
      && num.cos(-t) == num.cos(t) && num.sin(-t) == -num.sin(t)
      && num.cos(t) * num.cos(t) + num.sin(t) * num.sin(t) == 1.0
    ensures RotatePointsXY(RotatePointsXY(pts, rotationDeg, num), -rotationDeg, num) == pts
  {
    if rotationDeg != 0.0 {
      var t := DegToRad(rotationDeg);
      assert DegToRad(-rotationDeg) == -t;
      var once := RotatePointsXY(pts, rotationDeg, num);
      var twice := RotatePointsXY(once, -rotationDeg, num);
      forall k | 0 <= k < |pts| ensures twice[k] == pts[k] {
        InverseRotationPoint(pts[k], num.cos(t), num.sin(t));
      }
    }
  }
}
