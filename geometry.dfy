/** The landmark geometry of the frame processor: pitch normalisation, the
    fixed landmark-index line tables, denormalised mesh points, the
    normalised eye distance, and the two re-centering laws used when the
    camera view is hidden. Python floats are modelled by exact `real`s. */
module Geometry {
  import opened Wrappers
  import opened ColorMath

  // ---------------------------------------------------------------- pitch

  /** Python's float `p % 360`, which floors, so the result is in [0, 360). */
  function Mod360(p: real): (m: real)
    ensures 0.0 <= m < 360.0
  {
    p - 360.0 * ((p / 360.0).Floor as real)
  }

  /** `normalize_pitch`: reduce into (-180, 180], then reflect values beyond
      ±90 about the nearer boundary. */
  function NormalizePitch(pitch: real): (r: real)
    ensures -90.0 <= r <= 90.0
  {
    var p0 := Mod360(pitch);
    var p := if p0 > 180.0 then p0 - 360.0 else p0;
    if p > 90.0 then 180.0 - p
    else if p < -90.0 then -180.0 - p
    else p
  }

  /** Adding a full turn does not change the normalised pitch. */
  lemma PitchPeriodic(pitch: real)
    ensures NormalizePitch(pitch + 360.0) == NormalizePitch(pitch)
  {
    var q := pitch / 360.0;
    assert (pitch + 360.0) / 360.0 == q + 1.0;
    assert (q + 1.0).Floor == q.Floor + 1;
    assert Mod360(pitch + 360.0) == Mod360(pitch);
  }

  /** A pitch already in [-90, 90] is left as it is. */
  lemma PitchFixesRange(pitch: real)
    requires -90.0 <= pitch <= 90.0
    ensures NormalizePitch(pitch) == pitch
  {
    if pitch >= 0.0 {
      assert (pitch / 360.0).Floor == 0;
    } else {
      assert (pitch / 360.0).Floor == -1;
    }
  }

  // ---------------------------------------------------------- line tables

  /** Landmark indices of the closed eyelid contours and the open eyebrow
      polylines, in drawing order. */
  const LeftEyeDetails: seq<int> := [33, 246, 161, 160, 159, 158, 157, 173, 133, 155, 154, 153, 145, 144, 163, 7]
  const RightEyeDetails: seq<int> := [362, 398, 384, 385, 386, 387, 388, 466, 263, 249, 390, 373, 374, 380, 381, 382]
  const LeftEyebrow: seq<int> := [70, 63, 105, 66, 107, 55, 65, 52, 53]
  const RightEyebrow: seq<int> := [300, 293, 334, 296, 336, 285, 295, 282, 283]

  /** Iris landmark indices, and the two outer-face landmarks whose
      horizontal distance is the face-width reference. */
  const LeftIris: seq<int> := [474, 475, 476, 477]
  const RightIris: seq<int> := [469, 470, 471, 472]
  const FaceLeft := 234
  const FaceRight := 454

  /** The smallest mesh every index above fits into: one more than the
      largest landmark index the processor reads. */
  const MinMeshLength := 478

  /** `np.roll(d, -1)`: every element moves one place to the front and the
      first one wraps around to the end. */
  function RollLeft(d: seq<int>): seq<int> {
    if d == [] then [] else d[1..] + [d[0]]
  }

  /** `np.column_stack((a, b))` for two index columns of equal length. */
  function ColumnStack(a: seq<int>, b: seq<int>): (r: seq<(int, int)>)
    requires |a| == |b|
    ensures |r| == |a|
    ensures forall i :: 0 <= i < |a| ==> r[i] == (a[i], b[i])
  {
    seq(|a|, i requires 0 <= i < |a| => (a[i], b[i]))
  }

  /** Line table of a closed contour: each index paired with the next. */
  function ClosedLines(d: seq<int>): seq<(int, int)> {
    ColumnStack(d, RollLeft(d))
  }

  /** Line table of an open polyline: every adjacent pair. */
  function OpenLines(e: seq<int>): seq<(int, int)>
    requires |e| >= 1
  {
    ColumnStack(e[..|e| - 1], e[1..])
  }

  /** A closed table has one segment per index, pairs index i with
      index (i + 1) mod n, and so ends where it starts. */
  lemma {:induction false} ClosedLinesShape(d: seq<int>)
    requires |d| >= 1
    ensures |ClosedLines(d)| == |d|
    ensures forall i :: 0 <= i < |d| ==> ClosedLines(d)[i] == (d[i], d[(i + 1) % |d|])
    ensures ClosedLines(d)[|d| - 1].1 == ClosedLines(d)[0].0
  {
    var r := RollLeft(d);
    assert |r| == |d|;
    forall i | 0 <= i < |d| ensures r[i] == d[(i + 1) % |d|] {
      if i < |d| - 1 {
        assert r[i] == d[1..][i];
      } else {
        assert r[i] == d[0];
      }
    }
  }

  /** An open table has one segment fewer than it has indices, and each
      segment starts where the previous one ends. */
  lemma OpenLinesShape(e: seq<int>)
    requires |e| >= 1
    ensures |OpenLines(e)| == |e| - 1
    ensures forall i :: 0 <= i < |e| - 1 ==> OpenLines(e)[i] == (e[i], e[i + 1])
  {
  }

  /** Every index of `t` is a valid index of a mesh with `n` points. */
  predicate IndicesBelow(t: seq<int>, n: int) {
    forall i :: 0 <= i < |t| ==> 0 <= t[i] < n
  }

  /** The two eyelid tables are closed contours of 16 segments. */
  lemma {:induction false} EyeLineTables()
    ensures |ClosedLines(LeftEyeDetails)| == 16 && |ClosedLines(RightEyeDetails)| == 16
    ensures forall i :: 0 <= i < 16 ==>
      ClosedLines(LeftEyeDetails)[i] == (LeftEyeDetails[i], LeftEyeDetails[(i + 1) % 16]) &&
      ClosedLines(RightEyeDetails)[i] == (RightEyeDetails[i], RightEyeDetails[(i + 1) % 16])
  {
    ClosedLinesShape(LeftEyeDetails);
    ClosedLinesShape(RightEyeDetails);
  }

  /** The two eyebrow tables are open polylines of 8 segments. */
  lemma {:induction false} EyebrowLineTables()
    ensures |OpenLines(LeftEyebrow)| == 8 && |OpenLines(RightEyebrow)| == 8
    ensures forall i :: 0 <= i < 8 ==>
      OpenLines(LeftEyebrow)[i] == (LeftEyebrow[i], LeftEyebrow[i + 1]) &&
      OpenLines(RightEyebrow)[i] == (RightEyebrow[i], RightEyebrow[i + 1])
  {
    OpenLinesShape(LeftEyebrow);
    OpenLinesShape(RightEyebrow);
  }

  /** Every landmark index the processor reads fits a mesh of
      `MinMeshLength` points. */
  lemma TablesFitMesh()
    ensures IndicesBelow(LeftEyeDetails, MinMeshLength) && IndicesBelow(RightEyeDetails, MinMeshLength)
    ensures IndicesBelow(LeftEyebrow, MinMeshLength) && IndicesBelow(RightEyebrow, MinMeshLength)
    ensures IndicesBelow(LeftIris, MinMeshLength) && IndicesBelow(RightIris, MinMeshLength)
    ensures FaceLeft < MinMeshLength && FaceRight < MinMeshLength
  {
  }

  // ---------------------------------------------------------- mesh points

  /** A detector landmark: coordinates normalised to the frame. */
  datatype Landmark = Landmark(x: real, y: real, z: real)

  /** A mesh point in pixel coordinates. */
  datatype Point = Point(x: int, y: int)

  /** `_process_landmarks`: each landmark scaled to the frame and truncated
      to integer pixels; the mesh has one point per landmark. */
  function ProcessLandmarks(landmarks: seq<Landmark>, imgW: nat, imgH: nat): (mesh: seq<Point>)
    ensures |mesh| == |landmarks|
  {
    seq(|landmarks|, i requires 0 <= i < |landmarks| => ToPixel(landmarks[i], imgW, imgH))
  }

  function ToPixel(l: Landmark, imgW: nat, imgH: nat): Point {
    Point(Trunc(l.x * imgW as real), Trunc(l.y * imgH as real))
  }

  lemma ScaledWithin(t: real, size: nat)
    requires 0.0 <= t <= 1.0
    ensures 0 <= Trunc(t * size as real) <= size
  {
    MulBounds(size as real, t);
  }

  /** Landmarks inside the unit square land inside the frame. */
  lemma {:induction false} LandmarksInFrame(landmarks: seq<Landmark>, imgW: nat, imgH: nat)
    requires forall i :: 0 <= i < |landmarks| ==>
      0.0 <= landmarks[i].x <= 1.0 && 0.0 <= landmarks[i].y <= 1.0
    ensures forall i :: 0 <= i < |landmarks| ==>
      0 <= ProcessLandmarks(landmarks, imgW, imgH)[i].x <= imgW &&
      0 <= ProcessLandmarks(landmarks, imgW, imgH)[i].y <= imgH
  {
    forall i | 0 <= i < |landmarks|
      ensures 0 <= ProcessLandmarks(landmarks, imgW, imgH)[i].x <= imgW
      ensures 0 <= ProcessLandmarks(landmarks, imgW, imgH)[i].y <= imgH
    {
      var p := ProcessLandmarks(landmarks, imgW, imgH)[i];
      assert p == ToPixel(landmarks[i], imgW, imgH);
      ScaledWithin(landmarks[i].x, imgW);
      ScaledWithin(landmarks[i].y, imgH);
    }
  }

  /** `mesh_points[indices]` for in-range indices. */
  function Select(mesh: seq<Point>, indices: seq<int>): (r: seq<Point>)
    requires forall i :: 0 <= i < |indices| ==> 0 <= indices[i] < |mesh|
    ensures |r| == |indices|
  {
    seq(|indices|, i requires 0 <= i < |indices| => mesh[indices[i]])
  }

  // -------------------------------------------------------- eye distance

  /** A minimum enclosing circle, as the foreign circle fitter returns it. */
  datatype Circle = Circle(cx: real, cy: real, radius: real)

  /** `eye_distance / face_width if face_width > 0 else 0`: never a division
      by zero, exactly 0 on a degenerate face width, and otherwise the
      quotient of the distance by the width. */
  function NormalizedEyeDistance(eyeDistance: real, faceWidth: int): (r: real)
    ensures faceWidth <= 0 ==> r == 0.0
    ensures faceWidth > 0 ==> r * faceWidth as real == eyeDistance
    ensures faceWidth > 0 && eyeDistance >= 0.0 ==> r >= 0.0
  {
    if faceWidth > 0 then eyeDistance / faceWidth as real else 0.0
  }

  function Abs(n: int): nat { if n < 0 then -n else n }

  /** What `_process_eyes` hands on: the truncated iris centres, the radii
      and the metric. */
  datatype EyeData = EyeData(centerLeft: Point, centerRight: Point,
                             leftRadius: real, rightRadius: real, normalizedEyeDistance: real)

  /** `_process_eyes`, with the circle fitter and `math.hypot` as the
      foreign functions they are. A mesh too short for the iris indices
      raises IndexError. */
  function ProcessEyes(mesh: seq<Point>, enclose: seq<Point> -> Circle, hypot: (real, real) -> real): (r: Result<EyeData>)
    ensures r.Err? <==> |mesh| < MinMeshLength
    ensures r.Err? ==> r.error == IndexError
    ensures r.Ok? ==>
      var l := enclose(Select(mesh, LeftIris));
      var rc := enclose(Select(mesh, RightIris));
      var faceWidth := Abs(mesh[FaceLeft].x - mesh[FaceRight].x);
      r.value.centerLeft == Point(Trunc(l.cx), Trunc(l.cy)) &&
      r.value.centerRight == Point(Trunc(rc.cx), Trunc(rc.cy)) &&
      r.value.leftRadius == l.radius && r.value.rightRadius == rc.radius &&
      r.value.normalizedEyeDistance == NormalizedEyeDistance(hypot(l.cx - rc.cx, l.cy - rc.cy), faceWidth) &&
      (faceWidth == 0 ==> r.value.normalizedEyeDistance == 0.0)
  {
    if |mesh| < MinMeshLength then Err(IndexError)
    else
      TablesFitMesh();
      var l := enclose(Select(mesh, LeftIris));
      var rc := enclose(Select(mesh, RightIris));
      var eyeDistance := hypot(l.cx - rc.cx, l.cy - rc.cy);
      var faceWidth := Abs(mesh[FaceLeft].x - mesh[FaceRight].x);
      Ok(EyeData(Point(Trunc(l.cx), Trunc(l.cy)), Point(Trunc(rc.cx), Trunc(rc.cy)),
                 l.radius, rc.radius, NormalizedEyeDistance(eyeDistance, faceWidth)))
  }

  // ----------------------------------------------- integer re-centering

  function SumX(s: seq<Point>): int { if s == [] then 0 else SumX(s[..|s| - 1]) + s[|s| - 1].x }
  function SumY(s: seq<Point>): int { if s == [] then 0 else SumY(s[..|s| - 1]) + s[|s| - 1].y }

  /** `np.mean` of one coordinate column. */
  function MeanX(s: seq<Point>): real requires |s| > 0 { SumX(s) as real / |s| as real }
  function MeanY(s: seq<Point>): real requires |s| > 0 { SumY(s) as real / |s| as real }

  function Add(p: Point, d: Point): Point { Point(p.x + d.x, p.y + d.y) }

  /** Every point moved by the same offset. */
  function Shift(s: seq<Point>, d: Point): (r: seq<Point>)
    ensures |r| == |s|
    ensures forall i :: 0 <= i < |s| ==> r[i] == Add(s[i], d)
  {
    seq(|s|, i requires 0 <= i < |s| => Add(s[i], d))
  }

  /** The offset `_center_mesh_points` applies: from the mesh mean to the
      frame centre `(w // 2, h // 2)`, truncated toward zero. */
  function CenterOffset(s: seq<Point>, imgW: nat, imgH: nat): Point
    requires |s| > 0
  {
    Point(Trunc((imgW / 2) as real - MeanX(s)), Trunc((imgH / 2) as real - MeanY(s)))
  }

  /** `_center_mesh_points`: the mesh is shifted in place, and both iris
      centres by the same offset, so every difference between two of these
      points is kept. */
  method CenterMeshPoints(mesh: array<Point>, centerLeft: Point, centerRight: Point, imgW: nat, imgH: nat)
    returns (newLeft: Point, newRight: Point)
    requires mesh.Length > 0
    modifies mesh
    ensures var d := CenterOffset(old(mesh[..]), imgW, imgH);
      mesh[..] == Shift(old(mesh[..]), d) && newLeft == Add(centerLeft, d) && newRight == Add(centerRight, d)
    ensures newRight.x - newLeft.x == centerRight.x - centerLeft.x
    ensures newRight.y - newLeft.y == centerRight.y - centerLeft.y
    ensures forall i, j :: 0 <= i < mesh.Length && 0 <= j < mesh.Length ==>
      mesh[i].x - mesh[j].x == old(mesh[i].x) - old(mesh[j].x) &&
      mesh[i].y - mesh[j].y == old(mesh[i].y) - old(mesh[j].y)
  {
    var d := CenterOffset(mesh[..], imgW, imgH);
    ghost var before := mesh[..];
    forall i | 0 <= i < mesh.Length {
      mesh[i] := Add(mesh[i], d);
    }
    assert mesh[..] == Shift(before, d);
    newLeft := Add(centerLeft, d);
    newRight := Add(centerRight, d);
  }

  lemma {:induction false} SumShift(s: seq<Point>, d: Point)
    ensures SumX(Shift(s, d)) == SumX(s) + |s| * d.x
    ensures SumY(Shift(s, d)) == SumY(s) + |s| * d.y
  {
    if s != [] {
      var n := |s| - 1;
      assert Shift(s, d)[..n] == Shift(s[..n], d);
      SumShift(s[..n], d);
    }
  }

  lemma MeanShift(s: seq<Point>, d: Point)
    requires |s| > 0
    ensures MeanX(Shift(s, d)) == MeanX(s) + d.x as real
    ensures MeanY(Shift(s, d)) == MeanY(s) + d.y as real
  {
    SumShift(s, d);
    MeanOfShiftedSum(SumX(s), |s|, d.x);
    MeanOfShiftedSum(SumY(s), |s|, d.y);
  }

  /** Adding `n` copies of `k` to a sum of `n` values adds `k` to its mean. */
  lemma MeanOfShiftedSum(sum: int, n: nat, k: int)
    requires n > 0
    ensures (sum + n * k) as real / n as real == sum as real / n as real + k as real
  {
    assert (sum + n * k) as real == sum as real + n as real * k as real;
  }

  /** After centering, the mean of each coordinate lies strictly within one
      pixel of the frame centre `(w // 2, h // 2)`. */
  lemma CenteredMeanNearCenter(s: seq<Point>, imgW: nat, imgH: nat)
    requires |s| > 0
    ensures var c := Shift(s, CenterOffset(s, imgW, imgH));
      (imgW / 2) as real - 1.0 < MeanX(c) < (imgW / 2) as real + 1.0 &&
      (imgH / 2) as real - 1.0 < MeanY(c) < (imgH / 2) as real + 1.0
  {
    MeanShift(s, CenterOffset(s, imgW, imgH));
  }

  // --------------------------------- scale about the iris midpoint

  /** A point with exact (float) coordinates. */
  datatype RPoint = RPoint(x: real, y: real)

  function ToReal(p: Point): RPoint { RPoint(p.x as real, p.y as real) }

  /** `(p - c) @ [[s, 0], [0, s]] + c + offset` for one point. */
  function ScaleMove(p: RPoint, c: RPoint, scale: real, offset: RPoint): RPoint {
    RPoint((p.x - c.x) * scale + c.x + offset.x, (p.y - c.y) * scale + c.y + offset.y)
  }

  datatype Recentered = Recentered(points: seq<RPoint>, left: RPoint, right: RPoint)

  /** The target of the iris midpoint: the horizontal centre of the frame,
      and the vertical centre moved by `height * eyes_vertical_offset`. */
  function Target(width: nat, height: nat, verticalOffset: real): RPoint {
    RPoint(width as real * 0.5, height as real * 0.5 + height as real * verticalOffset)
  }

  /** The re-centering of `_draw_mesh` when the camera view is hidden: scale
      every point and both iris centres by `scale` about the iris midpoint,
      then translate so that the scaled midpoint lands on the target. */
  function Recenter(points: seq<Point>, cl: Point, cr: Point, width: nat, height: nat,
                    scale: real, verticalOffset: real): (r: Recentered)
    ensures |r.points| == |points|
  {
    var l, rr := ToReal(cl), ToReal(cr);
    var eyes := RPoint((l.x + rr.x) * 0.5, (l.y + rr.y) * 0.5);
    var zero := RPoint(0.0, 0.0);
    var sl, sr := ScaleMove(l, eyes, scale, zero), ScaleMove(rr, eyes, scale, zero);
    var scaledEyes := RPoint((sl.x + sr.x) * 0.5, (sl.y + sr.y) * 0.5);
    var target := Target(width, height, verticalOffset);
    var offset := RPoint(target.x - scaledEyes.x, target.y - scaledEyes.y);
    Recentered(seq(|points|, i requires 0 <= i < |points| => ScaleMove(ToReal(points[i]), eyes, scale, offset)),
               ScaleMove(l, eyes, scale, offset), ScaleMove(rr, eyes, scale, offset))
  }

  /** The re-centering law: the new iris midpoint is exactly the target, the
      iris separation and every difference between two mesh points are
      multiplied by `scale`. */
  lemma {:induction false} RecenterLaw(points: seq<Point>, cl: Point, cr: Point, width: nat, height: nat,
                                       scale: real, verticalOffset: real)
    ensures var r := Recenter(points, cl, cr, width, height, scale, verticalOffset);
      var t := Target(width, height, verticalOffset);
      (r.left.x + r.right.x) * 0.5 == t.x && (r.left.y + r.right.y) * 0.5 == t.y &&
      r.right.x - r.left.x == scale * (cr.x - cl.x) as real &&
      r.right.y - r.left.y == scale * (cr.y - cl.y) as real
    ensures var r := Recenter(points, cl, cr, width, height, scale, verticalOffset);
      forall i, j :: 0 <= i < |points| && 0 <= j < |points| ==>
        r.points[i].x - r.points[j].x == scale * (points[i].x - points[j].x) as real &&
        r.points[i].y - r.points[j].y == scale * (points[i].y - points[j].y) as real
  {
    var l, rr := ToReal(cl), ToReal(cr);
    var eyes := RPoint((l.x + rr.x) * 0.5, (l.y + rr.y) * 0.5);
    var zero := RPoint(0.0, 0.0);
    var sl, sr := ScaleMove(l, eyes, scale, zero), ScaleMove(rr, eyes, scale, zero);
    ScaledMidpoint(l.x, rr.x, eyes.x, scale);
    ScaledMidpoint(l.y, rr.y, eyes.y, scale);
  }

  /** Scaling about the midpoint of two values keeps that midpoint and
      multiplies their distance. */
  lemma ScaledMidpoint(a: real, b: real, m: real, s: real)
    requires m == (a + b) * 0.5
    ensures ((a - m) * s + m + (b - m) * s + m) * 0.5 == m
    ensures ((b - m) * s + m) - ((a - m) * s + m) == s * (b - a)
  {
    assert (a - m) == -(b - m);
  }
}
