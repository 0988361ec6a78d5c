/** The frame processor's state (`src/image_processor.py`): the five
    editable theme colours, the BGR colours cached from three of them,
    the brightness of the gradient background and the display scale and
    offset of the hidden-camera view; and the face-mesh dispatch. */
module ImageProcessor {
  import opened Wrappers
  import opened ColorMath
  import opened Geometry
  import opened Canvas

  /** The theme colours as `#rrggbb` strings, one per editable name. */
  datatype Colors = Colors(backgroundDark: string, meshDark: string, mesh: string,
                           meshLight: string, background: string)

  /** BGR colours computed once from `mesh`, `meshLight` and `background`. */
  datatype Cache = Cache(meshBgr: Rgb, irisBgr: Rgb, backgroundBgr: Rgb)

  /** The names `update_colors` recognises. */
  const ColorNames: set<string> := {"Background Dark", "Mesh Dark", "Mesh", "Mesh Light", "Background"}

  /** The five names are pairwise distinct: four of them differ in length,
      and "Mesh Light" and "Background" differ in their first letter. */
  lemma NamesDistinct()
    ensures "Background Dark" != "Mesh Dark" && "Background Dark" != "Mesh"
    ensures "Background Dark" != "Mesh Light" && "Background Dark" != "Background"
    ensures "Mesh Dark" != "Mesh" && "Mesh Dark" != "Mesh Light" && "Mesh Dark" != "Background"
    ensures "Mesh" != "Mesh Light" && "Mesh" != "Background"
    ensures "Mesh Light" != "Background"
  {
    assert "Mesh Light"[0] != "Background"[0];
  }

  /** The colour stored under a name, if the name is recognised. */
  function Slot(c: Colors, name: string): Option<string> {
    if name == "Background Dark" then Some(c.backgroundDark)
    else if name == "Mesh Dark" then Some(c.meshDark)
    else if name == "Mesh" then Some(c.mesh)
    else if name == "Mesh Light" then Some(c.meshLight)
    else if name == "Background" then Some(c.background)
    else None
  }

  /** The field assignments of `update_colors`. */
  function SetColor(c: Colors, name: string, hex: string): Colors {
    if name == "Background Dark" then c.(backgroundDark := hex)
    else if name == "Mesh Dark" then c.(meshDark := hex)
    else if name == "Mesh" then c.(mesh := hex)
    else if name == "Mesh Light" then c.(meshLight := hex)
    else if name == "Background" then c.(background := hex)
    else c
  }

  /** Only the slot that is named changes, and an unknown name changes
      nothing. */
  lemma {:induction false} SetColorOnlyThatSlot(c: Colors, name: string, hex: string)
    ensures forall n :: (Slot(SetColor(c, name, hex), n) ==
      if n == name && n in ColorNames then Some(hex) else Slot(c, n))
    ensures name !in ColorNames ==> SetColor(c, name, hex) == c
    ensures forall n :: Slot(c, n).Some? <==> n in ColorNames
  {
  }

  /** Assigning the same colour to the same slot twice is assigning it
      once. */
  lemma SetColorTwice(c: Colors, name: string, hex: string)
    ensures SetColor(SetColor(c, name, hex), name, hex) == SetColor(c, name, hex)
  {
  }

  /** The cached BGR colours agree with the colour strings they were
      computed from. */
  predicate CacheTracks(c: Colors, k: Cache) {
    Tracks(c.mesh, k.meshBgr) && Tracks(c.meshLight, k.irisBgr) && Tracks(c.background, k.backgroundBgr)
  }

  /** A cached BGR colour read from its `#rrggbb` string. */
  predicate Tracks(hex: string, bgr: Rgb) {
    HexToRgb(hex) == Ok(Rgb(bgr.b, bgr.g, bgr.r))
  }

  /** `_update_colors`: recompute the three cached colours; a colour that
      does not parse raises ValueError. */
  function ComputeCache(c: Colors): (r: Result<Cache>)
    ensures r.Ok? <==> HexToRgb(c.mesh).Ok? && HexToRgb(c.meshLight).Ok? && HexToRgb(c.background).Ok?
    ensures r.Ok? ==> CacheTracks(c, r.value)
    ensures r.Err? ==> r.error == ValueError
  {
    match HexToRgb(c.mesh)
    case Err(e) => Err(e)
    case Ok(m) =>
      match HexToRgb(c.meshLight)
      case Err(e) => Err(e)
      case Ok(l) =>
        match HexToRgb(c.background)
        case Err(e) => Err(e)
        case Ok(b) => Ok(Cache(RgbToBgr(m), RgbToBgr(l), RgbToBgr(b)))
  }

  /** The cache computed from the colours is the only cache in step with
      them. */
  lemma {:induction false} TrackedCacheIsComputed(c: Colors, k: Cache)
    ensures CacheTracks(c, k) <==> ComputeCache(c) == Ok(k)
  {
    if CacheTracks(c, k) {
      var m, l, b := HexToRgb(c.mesh).value, HexToRgb(c.meshLight).value, HexToRgb(c.background).value;
      assert k == Cache(RgbToBgr(m), RgbToBgr(l), RgbToBgr(b));
    }
  }

  /** Refresh the cached colour that depends on the slot just assigned:
      `update_colors` as evidently intended. A colour that does not parse
      raises ValueError; a name without a cached colour keeps the cache. */
  function RefreshSlot(k: Cache, name: string, hex: string): (r: Result<Cache>)
    ensures r.Err? <==> name in {"Mesh", "Mesh Light", "Background"} && HexToRgb(hex).Err?
    ensures r.Err? ==> r.error == ValueError
  {
    if name == "Mesh" || name == "Mesh Light" || name == "Background" then
      match HexToRgb(hex)
      case Err(e) => Err(e)
      case Ok(rgb) =>
        var bgr := RgbToBgr(rgb);
        Ok(if name == "Mesh" then k.(meshBgr := bgr)
           else if name == "Mesh Light" then k.(irisBgr := bgr)
           else k.(backgroundBgr := bgr))
    else Ok(k)
  }

  /** Refreshing a slot a second time with the same colour changes
      nothing more. */
  lemma RefreshTwice(k: Cache, name: string, hex: string)
    requires RefreshSlot(k, name, hex).Ok?
    ensures RefreshSlot(RefreshSlot(k, name, hex).value, name, hex) == RefreshSlot(k, name, hex)
  {
  }

  /** With the refresh, an update that succeeds keeps a cache that was
      in step with the colours in step. */
  lemma KeepsInStep(c: Colors, k: Cache, name: string, hex: string)
    requires CacheTracks(c, k)
    requires RefreshSlot(k, name, hex).Ok?
    ensures CacheTracks(SetColor(c, name, hex), RefreshSlot(k, name, hex).value)
  {
    NamesDistinct();
    var c2 := SetColor(c, name, hex);
    var k2 := RefreshSlot(k, name, hex).value;
    if name == "Mesh" {
      assert c2 == c.(mesh := hex) && k2 == k.(meshBgr := RgbToBgr(HexToRgb(hex).value));
    } else if name == "Mesh Light" {
      assert c2 == c.(meshLight := hex) && k2 == k.(irisBgr := RgbToBgr(HexToRgb(hex).value));
    } else if name == "Background" {
      assert c2 == c.(background := hex) && k2 == k.(backgroundBgr := RgbToBgr(HexToRgb(hex).value));
    } else {
      assert k2 == k && c2.mesh == c.mesh && c2.meshLight == c.meshLight && c2.background == c.background;
    }
  }

  /** The outcome of the corrected `update_colors` keeps the cache in
      step with the colours whenever it reports no error. */
  lemma UpdateKeepsInStep(c: Colors, k: Cache, name: string, hex: string,
                          c2: Colors, k2: Cache, err: Option<PyError>)
    requires c2 == SetColor(c, name, hex)
    requires RefreshSlot(k, name, hex).Ok? ==> err == None && k2 == RefreshSlot(k, name, hex).value
    requires RefreshSlot(k, name, hex).Err? ==> err == Some(ValueError) && k2 == k
    ensures CacheTracks(c, k) && err == None ==> CacheTracks(c2, k2)
  {
    if CacheTracks(c, k) && err == None {
      KeepsInStep(c, k, name, hex);
    }
  }

  /** As written, `update_colors` assigns the string only: once "Mesh" is
      set to any valid colour other than the cached one (black, "#000000",
      while the cache holds the default mesh colour), the cache no longer
      agrees with the colours, and the mesh keeps being drawn in the old
      colour. */
  lemma StaleCacheAfterMeshEdit(c: Colors, k: Cache, hex: string)
    requires CacheTracks(c, k)
    requires HexToRgb(hex).Ok? && RgbToBgr(HexToRgb(hex).value) != k.meshBgr
    ensures !CacheTracks(SetColor(c, "Mesh", hex), k)
  {
    assert SetColor(c, "Mesh", hex).mesh == hex;
  }

  /** The processor state the face-mesh dispatch reads. */
  datatype ProcessorState = ProcessorState(colors: Colors, cache: Cache, brightnessIncrease: int,
                                           eyesDisplayScale: real, eyesVerticalOffset: real)

  class ImageProcessor {
    var colors: Colors
    var cache: Cache
    var brightnessIncrease: int
    var eyesDisplayScale: real
    var eyesVerticalOffset: real

    /** `__init__`: the configured colours and display settings, a
        brightness increase of 40, and the cache computed from the
        colours (which raises unless they parse). */
    constructor (initial: Colors, displayScale: real, verticalOffset: real)
      requires ComputeCache(initial).Ok?
      ensures colors == initial && ComputeCache(initial) == Ok(cache)
      ensures CacheTracks(colors, cache)
      ensures brightnessIncrease == 40
      ensures eyesDisplayScale == displayScale && eyesVerticalOffset == verticalOffset
    {
      var k := ComputeCache(initial);
      TrackedCacheIsComputed(initial, k.value);
      colors, cache, brightnessIncrease := initial, k.value, 40;
      eyesDisplayScale, eyesVerticalOffset := displayScale, verticalOffset;
    }

    function State(): ProcessorState
      reads this
    {
      ProcessorState(colors, cache, brightnessIncrease, eyesDisplayScale, eyesVerticalOffset)
    }

    /** `update_colors` with the cached colour refreshed: the named slot
        is assigned, and when its colour is cached the cache entry is
        recomputed, or ValueError is reported and the cache is kept. */
    method UpdateColors(name: string, hex: string) returns (err: Option<PyError>)
      modifies this
      ensures colors == SetColor(old(colors), name, hex)
      ensures RefreshSlot(old(cache), name, hex).Ok? ==>
        err == None && cache == RefreshSlot(old(cache), name, hex).value
      ensures RefreshSlot(old(cache), name, hex).Err? ==>
        err == Some(ValueError) && cache == old(cache)
      ensures CacheTracks(old(colors), old(cache)) && err == None ==> CacheTracks(colors, cache)
      ensures brightnessIncrease == old(brightnessIncrease)
      ensures eyesDisplayScale == old(eyesDisplayScale) && eyesVerticalOffset == old(eyesVerticalOffset)
    {
      ghost var c0, k0 := colors, cache;
      var refreshed := RefreshSlot(cache, name, hex);
      if refreshed.Ok? {
        colors, cache, err := SetColor(colors, name, hex), refreshed.value, None;
      } else {
        colors, err := SetColor(colors, name, hex), Some(refreshed.error);
      }
      UpdateKeepsInStep(c0, k0, name, hex, colors, cache, err);
    }

    /** `update_colors` as written: the named slot is assigned and nothing
        else; the cached colours are not refreshed and nothing is raised,
        whatever the string. */
    method UpdateColorsAsWritten(name: string, hex: string)
      modifies this
      ensures colors == SetColor(old(colors), name, hex)
      ensures cache == old(cache) && brightnessIncrease == old(brightnessIncrease)
      ensures eyesDisplayScale == old(eyesDisplayScale) && eyesVerticalOffset == old(eyesVerticalOffset)
    {
      colors := SetColor(colors, name, hex);
    }

    /** `update_brightness`: `int(value)`, truncating toward zero. */
    method UpdateBrightness(value: real)
      modifies this
      ensures brightnessIncrease == Trunc(value)
      ensures colors == old(colors) && cache == old(cache)
      ensures eyesDisplayScale == old(eyesDisplayScale) && eyesVerticalOffset == old(eyesVerticalOffset)
    {
      brightnessIncrease := Trunc(value);
    }
  }

  /** The background `_prepare_frame` chooses: the camera picture, or the
      gradient of the configured background colour. */
  function PrepareFrame(p: ProcessorState, showCamera: bool): (r: Result<Background>)
    ensures showCamera ==> r == Ok(CameraImage)
    ensures !showCamera ==> (r.Ok? <==> HexToRgb(p.colors.background).Ok?)
    ensures !showCamera && r.Ok? ==>
      r.value == Gradient(RgbToBgr(HexToRgb(p.colors.background).value), p.brightnessIncrease)
  {
    if showCamera then Ok(CameraImage)
    else
      match HexToRgb(p.colors.background)
      case Err(e) => Err(e)
      case Ok(rgb) => Ok(Gradient(RgbToBgr(rgb), p.brightnessIncrease))
  }

  /** `_process_face_mesh_noface`: the "No face detected" caption in the
      dark mesh colour, metric 0 and no mesh; with the camera hidden, the
      gradient of the dark background colour. */
  function NoFace(p: ProcessorState, frame: FrameSize, showCamera: bool): (r: Result<FaceMeshResult>)
    ensures r.Err? <==> HexToRgb(p.colors.meshDark).Err? || (!showCamera && HexToRgb(p.colors.backgroundDark).Err?)
    ensures r.Err? ==> r.error == ValueError
    ensures r.Ok? ==>
      r.value.normalizedEyeDistance == 0.0 && r.value.meshPoints == None &&
      r.value.frame.caption == Caption(NoFaceText, RgbToBgr(HexToRgb(p.colors.meshDark).value)) &&
      r.value.frame.drawing == None &&
      r.value.frame.height == frame.height && r.value.frame.width == frame.width &&
      (r.value.frame.background.Gradient? <==> !showCamera) &&
      (!showCamera ==>
        r.value.frame.background == Gradient(RgbToBgr(HexToRgb(p.colors.backgroundDark).value), p.brightnessIncrease))
  {
    match HexToRgb(p.colors.meshDark)
    case Err(e) => Err(e)
    case Ok(textRgb) =>
      var caption := Caption(NoFaceText, RgbToBgr(textRgb));
      if showCamera then
        Ok(FaceMeshResult(Canvas(frame.height, frame.width, CameraImage, caption, None), 0.0, None))
      else
        match HexToRgb(p.colors.backgroundDark)
        case Err(e) => Err(e)
        case Ok(bg) =>
          Ok(FaceMeshResult(Canvas(frame.height, frame.width, Gradient(RgbToBgr(bg), p.brightnessIncrease), caption, None),
                            0.0, None))
  }

  /** The radius `draw_eye` draws: scaled when the camera is hidden. */
  function DrawnRadius(radius: real, scale: real, showCamera: bool): int {
    if showCamera then Trunc(radius) else Trunc(radius * scale)
  }

  /** `points[indices]` for exact points. */
  function Pick(points: seq<RPoint>, indices: seq<int>): (r: seq<RPoint>)
    requires IndicesBelow(indices, |points|)
    ensures |r| == |indices| && forall k :: 0 <= k < |indices| ==> r[k] == points[indices[k]]
  {
    seq(|indices|, k requires 0 <= k < |indices| => points[indices[k]])
  }

  /** The segment of each table pair: its two end points. */
  function Segments(points: seq<RPoint>, lines: seq<(int, int)>): (r: seq<(RPoint, RPoint)>)
    requires forall k :: 0 <= k < |lines| ==> 0 <= lines[k].0 < |points| && 0 <= lines[k].1 < |points|
    ensures |r| == |lines| && forall k :: 0 <= k < |lines| ==> r[k] == (points[lines[k].0], points[lines[k].1])
  {
    seq(|lines|, k requires 0 <= k < |lines| => (points[lines[k].0], points[lines[k].1]))
  }

  /** `segs` draws the closed contour through the points `d` names:
      segment i joins point i to point i + 1, the last one wrapping round
      to the first. */
  predicate ClosedContour(segs: seq<(RPoint, RPoint)>, points: seq<RPoint>, d: seq<int>) {
    IndicesBelow(d, |points|) && |segs| == |d| &&
    forall i :: 0 <= i < |segs| ==> segs[i] == (points[d[i]], points[d[(i + 1) % |d|]])
  }

  /** `segs` draws the open polyline through the points `e` names:
      segment i joins point i to point i + 1. */
  predicate OpenPolyline(segs: seq<(RPoint, RPoint)>, points: seq<RPoint>, e: seq<int>) {
    IndicesBelow(e, |points|) && |segs| + 1 == |e| &&
    forall i :: 0 <= i < |segs| ==> segs[i] == (points[e[i]], points[e[i + 1]])
  }

  /** The segments of a closed line table draw its closed contour. */
  lemma {:induction false} SegmentsOfClosed(points: seq<RPoint>, d: seq<int>)
    requires |d| >= 1 && IndicesBelow(d, |points|)
    ensures forall k :: 0 <= k < |d| ==>
      0 <= ClosedLines(d)[k].0 < |points| && 0 <= ClosedLines(d)[k].1 < |points|
    ensures ClosedContour(Segments(points, ClosedLines(d)), points, d)
  {
    ClosedLinesShape(d);
    forall k | 0 <= k < |d| ensures 0 <= ClosedLines(d)[k].1 < |points| {
      assert ClosedLines(d)[k].1 == d[(k + 1) % |d|];
    }
  }

  /** The segments of an open line table draw its polyline. */
  lemma {:induction false} SegmentsOfOpen(points: seq<RPoint>, e: seq<int>)
    requires |e| >= 1 && IndicesBelow(e, |points|)
    ensures forall k :: 0 <= k < |e| - 1 ==>
      0 <= OpenLines(e)[k].0 < |points| && 0 <= OpenLines(e)[k].1 < |points|
    ensures OpenPolyline(Segments(points, OpenLines(e)), points, e)
  {
    OpenLinesShape(e);
    forall k | 0 <= k < |e| - 1 ensures 0 <= OpenLines(e)[k].1 < |points| {
      assert OpenLines(e)[k].1 == e[k + 1];
    }
  }

  /** Both ends of every contour or polyline segment are points of its
      table. */
  lemma ClosedEndsPicked(segs: seq<(RPoint, RPoint)>, points: seq<RPoint>, d: seq<int>)
    requires ClosedContour(segs, points, d)
    ensures forall i :: 0 <= i < |segs| ==> segs[i].0 in Pick(points, d) && segs[i].1 in Pick(points, d)
  {
    forall i | 0 <= i < |segs| ensures segs[i].0 in Pick(points, d) && segs[i].1 in Pick(points, d) {
      assert Pick(points, d)[i] == segs[i].0;
      assert Pick(points, d)[(i + 1) % |d|] == segs[i].1;
    }
  }

  lemma OpenEndsPicked(segs: seq<(RPoint, RPoint)>, points: seq<RPoint>, e: seq<int>)
    requires OpenPolyline(segs, points, e)
    ensures forall i :: 0 <= i < |segs| ==> segs[i].0 in Pick(points, e) && segs[i].1 in Pick(points, e)
  {
    forall i | 0 <= i < |segs| ensures segs[i].0 in Pick(points, e) && segs[i].1 in Pick(points, e) {
      assert segs[i] == (points[e[i]], points[e[i + 1]]);
      assert Pick(points, e)[i] == segs[i].0;
      assert Pick(points, e)[i + 1] == segs[i].1;
    }
  }

  /** Where `_draw_mesh` places the mesh and the iris centres: as they are
      with the camera shown, re-centred about the target otherwise. */
  function Positions(p: ProcessorState, frame: FrameSize, mesh: seq<Point>, cl: Point, cr: Point,
                     showCamera: bool): (r: Recentered)
    ensures |r.points| == |mesh|
  {
    if showCamera then Recentered(seq(|mesh|, i requires 0 <= i < |mesh| => ToReal(mesh[i])), ToReal(cl), ToReal(cr))
    else Recenter(mesh, cl, cr, frame.width, frame.height, p.eyesDisplayScale, p.eyesVerticalOffset)
  }

  /** The segments of two closed and two open line tables, in that order. */
  function FourTables(pos: seq<RPoint>, l: seq<int>, r: seq<int>, lb: seq<int>, rb: seq<int>)
    : (segs: seq<(RPoint, RPoint)>)
    requires |l| == 16 && |r| == 16 && |lb| == 9 && |rb| == 9
    requires IndicesBelow(l, |pos|) && IndicesBelow(r, |pos|) && IndicesBelow(lb, |pos|) && IndicesBelow(rb, |pos|)
    ensures |segs| == 48
    ensures ClosedContour(segs[..16], pos, l) && ClosedContour(segs[16..32], pos, r)
    ensures OpenPolyline(segs[32..40], pos, lb) && OpenPolyline(segs[40..], pos, rb)
  {
    SegmentsOfClosed(pos, l);
    SegmentsOfClosed(pos, r);
    SegmentsOfOpen(pos, lb);
    SegmentsOfOpen(pos, rb);
    var a, b := Segments(pos, ClosedLines(l)), Segments(pos, ClosedLines(r));
    var c, e := Segments(pos, OpenLines(lb)), Segments(pos, OpenLines(rb));
    ConcatSlices(a, b, c, e);
    a + b + c + e
  }

  /** Each part of a four-way concatenation is the slice at its place. */
  lemma ConcatSlices<T>(a: seq<T>, b: seq<T>, c: seq<T>, e: seq<T>)
    ensures var s := a + b + c + e;
      s[..|a|] == a && s[|a|..|a| + |b|] == b &&
      s[|a| + |b|..|a| + |b| + |c|] == c && s[|a| + |b| + |c|..] == e
  {
  }

  /** The segments of the four line tables over placed points: 16 closing
      each eyelid, then 8 along each eyebrow. */
  function TableSegments(pos: seq<RPoint>): (segs: seq<(RPoint, RPoint)>)
    requires |pos| >= MinMeshLength
    ensures |segs| == 48
    ensures ClosedContour(segs[..16], pos, LeftEyeDetails) && ClosedContour(segs[16..32], pos, RightEyeDetails)
    ensures OpenPolyline(segs[32..40], pos, LeftEyebrow) && OpenPolyline(segs[40..], pos, RightEyebrow)
  {
    TablesFitMesh();
    FourTables(pos, LeftEyeDetails, RightEyeDetails, LeftEyebrow, RightEyebrow)
  }

  /** The dots on the table points, eyelids first, then eyebrows. */
  function TableDots(pos: seq<RPoint>): (dots: seq<RPoint>)
    requires |pos| >= MinMeshLength
    ensures |dots| == 50
    ensures (TablesFitMesh();
      dots == Pick(pos, LeftEyeDetails) + Pick(pos, RightEyeDetails) + Pick(pos, LeftEyebrow) + Pick(pos, RightEyebrow))
  {
    TablesFitMesh();
    Pick(pos, LeftEyeDetails) + Pick(pos, RightEyeDetails) + Pick(pos, LeftEyebrow) + Pick(pos, RightEyebrow)
  }

  /** `_draw_mesh`: the four line tables drawn as segments between the
      placed mesh points, a dot on each of the 50 table points, and the two
      irises, all in the cached colours. The mesh has already passed the
      eye step, so every table index fits it. */
  function DrawMesh(p: ProcessorState, frame: FrameSize, mesh: seq<Point>, cl: Point, cr: Point,
                    leftRadius: real, rightRadius: real, showCamera: bool): (d: Drawing)
    requires |mesh| >= MinMeshLength
    ensures var pos := Positions(p, frame, mesh, cl, cr, showCamera).points;
      |d.segments| == 48 &&
      ClosedContour(d.segments[..16], pos, LeftEyeDetails) &&
      ClosedContour(d.segments[16..32], pos, RightEyeDetails) &&
      OpenPolyline(d.segments[32..40], pos, LeftEyebrow) &&
      OpenPolyline(d.segments[40..], pos, RightEyebrow) &&
      d.dots == TableDots(pos)
    ensures d.left == Positions(p, frame, mesh, cl, cr, showCamera).left
    ensures d.right == Positions(p, frame, mesh, cl, cr, showCamera).right
    ensures d.leftRadius == DrawnRadius(leftRadius, p.eyesDisplayScale, showCamera)
    ensures d.rightRadius == DrawnRadius(rightRadius, p.eyesDisplayScale, showCamera)
    ensures d.meshBgr == p.cache.meshBgr && d.irisBgr == p.cache.irisBgr
  {
    var pos := Positions(p, frame, mesh, cl, cr, showCamera);
    Drawing(TableSegments(pos.points), TableDots(pos.points), pos.left, pos.right,
            DrawnRadius(leftRadius, p.eyesDisplayScale, showCamera),
            DrawnRadius(rightRadius, p.eyesDisplayScale, showCamera), p.cache.meshBgr, p.cache.irisBgr)
  }

  /** Every segment drawn joins two drawn dots: the eyelid and eyebrow
      lines run through the marked points only. */
  lemma {:induction false} SegmentsJoinDots(p: ProcessorState, frame: FrameSize, mesh: seq<Point>, cl: Point, cr: Point,
                                            leftRadius: real, rightRadius: real, showCamera: bool)
    requires |mesh| >= MinMeshLength
    ensures var d := DrawMesh(p, frame, mesh, cl, cr, leftRadius, rightRadius, showCamera);
      forall k :: 0 <= k < |d.segments| ==> d.segments[k].0 in d.dots && d.segments[k].1 in d.dots
  {
    var d := DrawMesh(p, frame, mesh, cl, cr, leftRadius, rightRadius, showCamera);
    var pos := Positions(p, frame, mesh, cl, cr, showCamera).points;
    var s := d.segments;
    TablesFitMesh();
    assert d.dots == Pick(pos, LeftEyeDetails) + Pick(pos, RightEyeDetails) + Pick(pos, LeftEyebrow) + Pick(pos, RightEyebrow);
    ClosedEndsPicked(s[..16], pos, LeftEyeDetails);
    ClosedEndsPicked(s[16..32], pos, RightEyeDetails);
    OpenEndsPicked(s[32..40], pos, LeftEyebrow);
    OpenEndsPicked(s[40..], pos, RightEyebrow);
    forall k | 0 <= k < 48 ensures s[k].0 in d.dots && s[k].1 in d.dots {
      if k < 16 {
        assert s[k] == s[..16][k];
      } else if k < 32 {
        assert s[k] == s[16..32][k - 16];
      } else if k < 40 {
        assert s[k] == s[32..40][k - 32];
      } else {
        assert s[k] == s[40..][k - 40];
      }
    }
  }

  /** `_process_face_mesh_impl` for the first detected face. */
  function FaceImpl(p: ProcessorState, frame: FrameSize, face: seq<Landmark>, showCamera: bool,
                    enclose: seq<Point> -> Circle, hypot: (real, real) -> real,
                    formatEyeDistance: real -> string): (r: Result<FaceMeshResult>)
  {
    match PrepareFrame(p, showCamera)
    case Err(e) => Err(e)
    case Ok(background) =>
      var mesh := ProcessLandmarks(face, frame.width, frame.height);
      match ProcessEyes(mesh, enclose, hypot)
      case Err(e) => Err(e)
      case Ok(eyes) =>
        var d := CenterOffset(mesh, frame.width, frame.height);
        var (m, cl, cr) := if showCamera then (mesh, eyes.centerLeft, eyes.centerRight)
                           else (Shift(mesh, d), Add(eyes.centerLeft, d), Add(eyes.centerRight, d));
        var drawing := DrawMesh(p, frame, m, cl, cr, eyes.leftRadius, eyes.rightRadius, showCamera);
        match HexToRgb(p.colors.meshDark)
        case Err(e) => Err(e)
        case Ok(textRgb) =>
          var caption := Caption(formatEyeDistance(eyes.normalizedEyeDistance), RgbToBgr(textRgb));
          Ok(FaceMeshResult(Canvas(frame.height, frame.width, background, caption, Some(drawing)),
                            eyes.normalizedEyeDistance, Some(m)))
  }

  /** `process_face_mesh`: the face path when at least one face was
      detected, the no-face path otherwise. The circle fitter, `math.hypot`
      and the application's metric formatter are foreign functions. */
  function ProcessFaceMesh(p: ProcessorState, frame: FrameSize, faces: seq<seq<Landmark>>, showCamera: bool,
                           enclose: seq<Point> -> Circle, hypot: (real, real) -> real,
                           formatEyeDistance: real -> string): (r: Result<FaceMeshResult>)
    ensures r.Ok? ==> r.value.frame.height == frame.height && r.value.frame.width == frame.width
    ensures r.Ok? ==> (r.value.meshPoints.Some? <==> |faces| > 0)
    ensures |faces| == 0 ==> r == NoFace(p, frame, showCamera)
    ensures |faces| > 0 ==>
      (r.Err? <==> (!showCamera && HexToRgb(p.colors.background).Err?) ||
                   |faces[0]| < MinMeshLength || HexToRgb(p.colors.meshDark).Err?)
    ensures |faces| > 0 && r.Ok? ==>
      |r.value.meshPoints.value| == |faces[0]| && |faces[0]| >= MinMeshLength &&
      r.value.frame.background == PrepareFrame(p, showCamera).value &&
      r.value.frame.caption.colorBgr == RgbToBgr(HexToRgb(p.colors.meshDark).value)
    ensures |faces| > 0 && r.Ok? ==>
      r.value.normalizedEyeDistance ==
        ProcessEyes(ProcessLandmarks(faces[0], frame.width, frame.height), enclose, hypot).value.normalizedEyeDistance
    ensures |faces| > 0 && r.Ok? && showCamera ==>
      r.value.meshPoints == Some(ProcessLandmarks(faces[0], frame.width, frame.height))
  {
    if |faces| > 0 then FaceImpl(p, frame, faces[0], showCamera, enclose, hypot, formatEyeDistance)
    else NoFace(p, frame, showCamera)
  }

  /** With the camera hidden and a face found: the mesh handed back is the
      landmark mesh shifted by one common offset whose mean lies within a
      pixel of the frame centre, and the drawn iris midpoint lies exactly
      on the target, with the iris separation scaled by the display
      scale. */
  lemma {:induction false} HiddenCameraFaceLayout(p: ProcessorState, frame: FrameSize, faces: seq<seq<Landmark>>,
                                                  enclose: seq<Point> -> Circle, hypot: (real, real) -> real,
                                                  formatEyeDistance: real -> string)
    requires |faces| > 0
    requires ProcessFaceMesh(p, frame, faces, false, enclose, hypot, formatEyeDistance).Ok?
    ensures var r := ProcessFaceMesh(p, frame, faces, false, enclose, hypot, formatEyeDistance).value;
      var mesh := ProcessLandmarks(faces[0], frame.width, frame.height);
      var t := Target(frame.width, frame.height, p.eyesVerticalOffset);
      var dr := r.frame.drawing.value;
      r.frame.drawing.Some? &&
      r.meshPoints == Some(Shift(mesh, CenterOffset(mesh, frame.width, frame.height))) &&
      (frame.width / 2) as real - 1.0 < MeanX(r.meshPoints.value) < (frame.width / 2) as real + 1.0 &&
      (frame.height / 2) as real - 1.0 < MeanY(r.meshPoints.value) < (frame.height / 2) as real + 1.0 &&
      (dr.left.x + dr.right.x) * 0.5 == t.x && (dr.left.y + dr.right.y) * 0.5 == t.y
  {
    var mesh := ProcessLandmarks(faces[0], frame.width, frame.height);
    var eyes := ProcessEyes(mesh, enclose, hypot).value;
    var d := CenterOffset(mesh, frame.width, frame.height);
    CenteredMeanNearCenter(mesh, frame.width, frame.height);
    RecenterLaw(Shift(mesh, d), Add(eyes.centerLeft, d), Add(eyes.centerRight, d),
                frame.width, frame.height, p.eyesDisplayScale, p.eyesVerticalOffset);
  }

  /** With a face found, the metric handed back is exactly 0 whenever the
      two outer-face landmarks share a column. */
  lemma FaceMetricGuard(p: ProcessorState, frame: FrameSize, faces: seq<seq<Landmark>>, showCamera: bool,
                        enclose: seq<Point> -> Circle, hypot: (real, real) -> real,
                        formatEyeDistance: real -> string)
    requires |faces| > 0
    requires ProcessFaceMesh(p, frame, faces, showCamera, enclose, hypot, formatEyeDistance).Ok?
    requires var mesh := ProcessLandmarks(faces[0], frame.width, frame.height);
      mesh[FaceLeft].x == mesh[FaceRight].x
    ensures ProcessFaceMesh(p, frame, faces, showCamera, enclose, hypot, formatEyeDistance).value.normalizedEyeDistance == 0.0
  {
  }
}
