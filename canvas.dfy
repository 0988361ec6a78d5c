/** What the frame processors hand back, with the OpenCV drawing reduced to
    a description of what is drawn: the background chosen, the caption and
    its colour, and where the mesh and the irises end up. */
module Canvas {
  import opened Wrappers
  import opened ColorMath
  import opened Geometry

  /** The frame the camera delivered, by its dimensions (the pixels
      themselves are foreign). */
  datatype FrameSize = FrameSize(height: nat, width: nat)

  /** Either the camera picture is kept, or it is replaced by the radial
      gradient built from a BGR base colour and a brightness increase. */
  datatype Background = CameraImage | Gradient(baseBgr: Rgb, brightnessIncrease: int)

  /** The text drawn centred near the bottom of the frame. */
  datatype Caption = Caption(text: string, colorBgr: Rgb)

  /** The mesh as it is drawn: the line segments and the dots in the mesh
      colour, the iris centres and radii (in pixels) in the iris colour.
      Positions are those computed before OpenCV's integer cast. */
  datatype Drawing = Drawing(segments: seq<(RPoint, RPoint)>, dots: seq<RPoint>, left: RPoint, right: RPoint,
                             leftRadius: int, rightRadius: int, meshBgr: Rgb, irisBgr: Rgb)

  datatype Canvas = Canvas(height: nat, width: nat, background: Background,
                           caption: Caption, drawing: Option<Drawing>)

  /** The result dictionary of `process_face_mesh`. */
  datatype FaceMeshResult = FaceMeshResult(frame: Canvas, normalizedEyeDistance: real,
                                           meshPoints: Option<seq<Point>>)

  const NoFaceText := "No face detected"
}
