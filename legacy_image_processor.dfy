/** The older frame processor (`image_processor.py`): the same static
    colour and angle helpers as the current one (modelled once, in
    ColorMath and Geometry), the integer part of its gradient, and its
    single-function face-mesh flow, which takes its colours from RGB
    tuple constants and shifts the mesh before fitting the iris circles. */
module LegacyImageProcessor {
  import opened Wrappers
  import opened ColorMath
  import opened Geometry
  import opened Canvas

  /** The colour constants the older processor reads, as RGB triples. */
  datatype Theme = Theme(background: Rgb, backgroundDark: Rgb, mesh: Rgb,
                         meshLight: Rgb, meshDark: Rgb, yellow: Rgb)

  /** The tuple colour scheme the configuration module defines last. */
  const DefaultTheme := Theme(Rgb(12, 41, 81), Rgb(8, 27, 53), Rgb(70, 170, 254),
                              Rgb(174, 218, 255), Rgb(1, 112, 203), Rgb(246, 226, 127))

  /** The brightness increase `create_gradient_background` defaults to. */
  const DefaultBrightness := 40

  /** `np.minimum(base + brightness, 255)` for one channel. */
  function LighterChannel(base: int, brightness: int): (c: int)
    ensures c <= 255
    ensures c == base + brightness || c == 255
  {
    if base + brightness < 255 then base + brightness else 255
  }

  /** `lighter_color`, the colour at the centre of the gradient. */
  function LighterColor(base: Rgb, brightness: int): Rgb {
    Rgb(LighterChannel(base.r, brightness), LighterChannel(base.g, brightness), LighterChannel(base.b, brightness))
  }

  /** A non-negative increase lifts every byte channel into [base, 255];
      an increase of 0 keeps the colour. */
  lemma {:induction false} LighterColorBounds(base: Rgb, brightness: int)
    requires IsByteColor(base) && brightness >= 0
    ensures var l := LighterColor(base, brightness);
      IsByteColor(l) && base.r <= l.r && base.g <= l.g && base.b <= l.b
    ensures brightness == 0 ==> LighterColor(base, brightness) == base
  {
  }

  /** The integer centring of the older flow: the mesh is shifted in place
      by the offset from its mean to the frame centre, so every difference
      between two points is kept. */
  method CenterMesh(mesh: array<Point>, imgW: nat, imgH: nat)
    requires mesh.Length > 0
    modifies mesh
    ensures mesh[..] == Shift(old(mesh[..]), CenterOffset(old(mesh[..]), imgW, imgH))
    ensures forall i, j :: 0 <= i < mesh.Length && 0 <= j < mesh.Length ==>
      mesh[i].x - mesh[j].x == old(mesh[i].x) - old(mesh[j].x) &&
      mesh[i].y - mesh[j].y == old(mesh[i].y) - old(mesh[j].y)
  {
    var d := CenterOffset(mesh[..], imgW, imgH);
    ghost var before := mesh[..];
    var i := 0;
    while i < mesh.Length
      invariant 0 <= i <= mesh.Length
      invariant forall k :: 0 <= k < i ==> mesh[k] == Add(before[k], d)
      invariant forall k :: i <= k < mesh.Length ==> mesh[k] == before[k]
    {
      mesh[i] := Add(mesh[i], d);
      i := i + 1;
    }
    assert mesh[..] == Shift(before, d);
  }

  /** The mesh the older flow works on: the landmarks in pixels, shifted to
      the frame centre when the camera is hidden. An empty face gives the
      one-dimensional `np.array([])`, whose column index `[:, 0]` raises
      IndexError before any mean is taken. */
  function WorkingMesh(face: seq<Landmark>, frame: FrameSize, showCamera: bool): (r: Result<seq<Point>>)
    ensures r.Err? <==> !showCamera && |face| == 0
    ensures r.Err? ==> r.error == IndexError
    ensures r.Ok? ==> |r.value| == |face|
  {
    var mesh := ProcessLandmarks(face, frame.width, frame.height);
    if showCamera then Ok(mesh)
    else if |mesh| == 0 then Err(IndexError)
    else Ok(Shift(mesh, CenterOffset(mesh, frame.width, frame.height)))
  }

  /** `process_face_mesh` of the older processor. */
  function ProcessFaceMesh(theme: Theme, frame: FrameSize, faces: seq<seq<Landmark>>, showCamera: bool,
                           enclose: seq<Point> -> Circle, hypot: (real, real) -> real,
                           formatEyeDistance: real -> string): (r: Result<FaceMeshResult>)
    ensures r.Ok? ==> r.value.frame.height == frame.height && r.value.frame.width == frame.width
    ensures r.Err? <==> |faces| > 0 && |faces[0]| < MinMeshLength
    ensures r.Err? ==> r.error == IndexError
    ensures |faces| == 0 ==>
      r.Ok? && r.value.normalizedEyeDistance == 0.0 && r.value.meshPoints == None &&
      r.value.frame.caption == Caption(NoFaceText, RgbToBgr(theme.yellow)) && r.value.frame.drawing == None
    ensures r.Ok? && !showCamera ==>
      r.value.frame.background ==
        Gradient(RgbToBgr(if |faces| > 0 then theme.background else theme.backgroundDark), DefaultBrightness)
    ensures r.Ok? && showCamera ==> r.value.frame.background == CameraImage
    ensures |faces| > 0 && r.Ok? ==>
      r.value.meshPoints == Some(WorkingMesh(faces[0], frame, showCamera).value) &&
      r.value.frame.caption.colorBgr == RgbToBgr(theme.meshDark)
    ensures |faces| > 0 && r.Ok? ==>
      r.value.normalizedEyeDistance ==
        ProcessEyes(WorkingMesh(faces[0], frame, showCamera).value, enclose, hypot).value.normalizedEyeDistance
  {
    var background := if showCamera then CameraImage
                      else Gradient(RgbToBgr(if |faces| > 0 then theme.background else theme.backgroundDark),
                                    DefaultBrightness);
    if |faces| == 0 then
      Ok(FaceMeshResult(Canvas(frame.height, frame.width, background, Caption(NoFaceText, RgbToBgr(theme.yellow)), None),
                        0.0, None))
    else
      match WorkingMesh(faces[0], frame, showCamera)
      case Err(e) => Err(e)
      case Ok(mesh) =>
        match ProcessEyes(mesh, enclose, hypot)
        case Err(e) => Err(e)
        case Ok(eyes) =>
          var drawing := Drawing([], seq(|mesh|, i requires 0 <= i < |mesh| => ToReal(mesh[i])),
                                 ToReal(eyes.centerLeft), ToReal(eyes.centerRight),
                                 Trunc(eyes.leftRadius), Trunc(eyes.rightRadius),
                                 RgbToBgr(theme.mesh), RgbToBgr(theme.meshLight));
          var caption := Caption(formatEyeDistance(eyes.normalizedEyeDistance), RgbToBgr(theme.meshDark));
          Ok(FaceMeshResult(Canvas(frame.height, frame.width, background, caption, Some(drawing)),
                            eyes.normalizedEyeDistance, Some(mesh)))
  }

  /** Picking the iris points of a shifted mesh is the same as shifting the
      picked points: so the circles are fitted to points that all moved by
      one common offset. */
  lemma SelectShift(mesh: seq<Point>, d: Point, indices: seq<int>)
    requires forall i :: 0 <= i < |indices| ==> 0 <= indices[i] < |mesh|
    ensures Select(Shift(mesh, d), indices) == Shift(Select(mesh, indices), d)
  {
  }

  /** With the camera hidden, the older flow fits the iris circles to the
      iris points shifted by the centring offset, and its metric is 0
      whenever the outer-face landmarks share a column. */
  lemma {:induction false} HiddenCameraShiftBeforeCircles(theme: Theme, frame: FrameSize, faces: seq<seq<Landmark>>,
                                                          enclose: seq<Point> -> Circle, hypot: (real, real) -> real,
                                                          formatEyeDistance: real -> string)
    requires |faces| > 0
    requires ProcessFaceMesh(theme, frame, faces, false, enclose, hypot, formatEyeDistance).Ok?
    ensures var r := ProcessFaceMesh(theme, frame, faces, false, enclose, hypot, formatEyeDistance).value;
      var raw := ProcessLandmarks(faces[0], frame.width, frame.height);
      var d := CenterOffset(raw, frame.width, frame.height);
      |raw| >= MinMeshLength &&
      r.meshPoints == Some(Shift(raw, d)) &&
      r.frame.drawing.Some? &&
      r.frame.drawing.value.segments == [] &&
      r.frame.drawing.value.dots == seq(|raw|, i requires 0 <= i < |raw| => ToReal(Shift(raw, d)[i])) &&
      r.frame.drawing.value.left ==
        ToReal(Point(Trunc(enclose(Shift(Select(raw, LeftIris), d)).cx), Trunc(enclose(Shift(Select(raw, LeftIris), d)).cy))) &&
      r.frame.drawing.value.right ==
        ToReal(Point(Trunc(enclose(Shift(Select(raw, RightIris), d)).cx), Trunc(enclose(Shift(Select(raw, RightIris), d)).cy))) &&
      (raw[FaceLeft].x == raw[FaceRight].x ==> r.normalizedEyeDistance == 0.0)
  {
    var raw := ProcessLandmarks(faces[0], frame.width, frame.height);
    var d := CenterOffset(raw, frame.width, frame.height);
    TablesFitMesh();
    SelectShift(raw, d, LeftIris);
    SelectShift(raw, d, RightIris);
  }
}
