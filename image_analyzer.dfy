/** The image analysis rules: EXIF orientation to rotation, and the success paths of
    face boxes, contour tracing, face mesh and selfie segmentation. The on-device
    detectors are not modelled: what they return (or that they failed) is an input.
    Drawing is a list of primitives recorded on a canvas, not pixels. */
module ImageAnalyzer {
  import opened Wrappers

  // ---------------------------------------------------------------------------
  // Orientation

  /** Values of the EXIF orientation tag, as `android.media.ExifInterface` numbers them. */
  const OrientationUndefined: int := 0
  const OrientationNormal: int := 1
  const OrientationFlipHorizontal: int := 2
  const OrientationRotate180: int := 3
  const OrientationFlipVertical: int := 4
  const OrientationTranspose: int := 5
  const OrientationRotate90: int := 6
  const OrientationTransverse: int := 7
  const OrientationRotate270: int := 8

  /** `getAttributeInt(TAG_ORIENTATION, ORIENTATION_NORMAL)`: the tag, or NORMAL when absent. */
  function OrientationAttribute(tag: Option<int>): (v: int)
    ensures tag.Some? ==> v == tag.value
    ensures tag.None? ==> v == OrientationNormal
  {
    tag.GetOr(OrientationNormal)
  }

  /** Clockwise rotation, in degrees, that makes a photo with this orientation upright.
      Only the three pure rotations are honoured; flips, transpositions, NORMAL and
      unknown values all give 0. */
  function RotationDegrees(orientation: int): (deg: int)
    ensures deg == 0 || deg == 90 || deg == 180 || deg == 270
    ensures deg == 90 <==> orientation == OrientationRotate90
    ensures deg == 180 <==> orientation == OrientationRotate180
    ensures deg == 270 <==> orientation == OrientationRotate270
  {
    if orientation == OrientationRotate90 then 90
    else if orientation == OrientationRotate180 then 180
    else if orientation == OrientationRotate270 then 270
    else 0
  }

  /** A photo in memory: its size in pixels and the clockwise rotation applied to the
      decoded file. Pixel values are not modelled. */
  datatype Bitmap = Bitmap(width: nat, height: nat, rotation: int)

  /** `getRotatedBitmap`: decode a file of the given size and turn it by the angle its
      orientation tag asks for; a quarter turn swaps width and height. */
  function GetRotatedBitmap(decodedWidth: nat, decodedHeight: nat, orientationTag: Option<int>): (b: Bitmap)
    requires decodedWidth > 0 && decodedHeight > 0
    ensures b.rotation == RotationDegrees(OrientationAttribute(orientationTag))
    ensures orientationTag.None? ==> b.rotation == 0
    ensures b.rotation == 90 || b.rotation == 270 ==> b.width == decodedHeight && b.height == decodedWidth
    ensures b.rotation == 0 || b.rotation == 180 ==> b.width == decodedWidth && b.height == decodedHeight
    ensures b.width * b.height == decodedWidth * decodedHeight
  {
    var deg := RotationDegrees(OrientationAttribute(orientationTag));
    if deg == 90 || deg == 270 then Bitmap(decodedHeight, decodedWidth, deg)
    else Bitmap(decodedWidth, decodedHeight, deg)
  }

  // ---------------------------------------------------------------------------
  // Drawing

  datatype Point = Point(x: real, y: real)

  /** `android.graphics.Rect`: integer edges. */
  datatype Rect = Rect(left: int, top: int, right: int, bottom: int)

  /** `Rect.width()` and `Rect.height()`. */
  function Width(r: Rect): int { r.right - r.left }
  function Height(r: Rect): int { r.bottom - r.top }

  datatype Color = Red | Blue
  datatype Style = Stroke | Fill
  datatype Paint = Paint(color: Color, style: Style, strokeWidth: real)

  /** The paints the analyses configure (a fresh `Paint` has stroke width 0). */
  const FacePaint := Paint(Red, Stroke, 36.0)
  const ContourPaint := Paint(Red, Stroke, 10.0)
  const MeshPointPaint := Paint(Red, Fill, 0.0)
  const MeshLinePaint := Paint(Blue, Stroke, 2.0)
  const MeshPointRadius: real := 5.0

  datatype Primitive =
    | RectOp(bounds: Rect, paint: Paint)
    | LineOp(start: Point, end: Point, paint: Paint)
    | CircleOp(center: Point, radius: real, paint: Paint)

  /** A canvas over a mutable copy of a photo; it records what is drawn on it, in order. */
  class Canvas {
    var ops: seq<Primitive>

    constructor()
      ensures ops == []
    {
      ops := [];
    }

    method DrawRect(bounds: Rect, paint: Paint)
      modifies this
      ensures ops == old(ops) + [RectOp(bounds, paint)]
    {
      ops := ops + [RectOp(bounds, paint)];
    }

    method DrawLine(start: Point, end: Point, paint: Paint)
      modifies this
      ensures ops == old(ops) + [LineOp(start, end, paint)]
    {
      ops := ops + [LineOp(start, end, paint)];
    }

    method DrawCircle(center: Point, radius: real, paint: Paint)
      modifies this
      ensures ops == old(ops) + [CircleOp(center, radius, paint)]
    {
      ops := ops + [CircleOp(center, radius, paint)];
    }
  }

  // ---------------------------------------------------------------------------
  // Outcomes

  /** What a detector task delivered: its result, or a failure. */
  datatype Task<T> = Succeeded(result: T) | Failed

  /** What a file in the files directory holds: the photo as the camera saved it (its
      decoded size and EXIF orientation tag), or what an analysis wrote (JPEG, quality
      90) and showed in the image view. */
  datatype Image =
    | Camera(width: nat, height: nat, orientationTag: Option<int>)
    | Plain(base: Bitmap)
    | Overlay(base: Bitmap, ops: seq<Primitive>)
    | Composite(base: Bitmap, maskWidth: nat, maskHeight: nat, maskColors: seq<int>)

  /** Either nothing is written, or the image is written and shown, and the face
      count is passed to the caller's callback when the analysis reports one. */
  datatype Outcome = NothingWritten | Written(image: Image, reportedFaces: Option<nat>)

  // ---------------------------------------------------------------------------
  // Face boxes

  /** One stroked rectangle per detected face, in detection order. */
  function FaceBoxes(faces: seq<Rect>): seq<Primitive> {
    seq(|faces|, i requires 0 <= i < |faces| => RectOp(faces[i], FacePaint))
  }

  /** `detectFaces`: on success, boxes on a copy of the photo, file written, face count
      reported; on failure only a log line. */
  function FacesOutcome(bitmap: Bitmap, task: Task<seq<Rect>>): (out: Outcome)
    ensures out.Written? <==> task.Succeeded?
    ensures task.Succeeded? ==>
      && out.reportedFaces == Some(|task.result|)
      && out.image.Overlay? && out.image.base == bitmap
      && |out.image.ops| == |task.result|
      && forall i :: 0 <= i < |task.result| ==> out.image.ops[i] == RectOp(task.result[i], FacePaint)
  {
    match task
    case Failed => NothingWritten
    case Succeeded(faces) => Written(Overlay(bitmap, FaceBoxes(faces)), Some(|faces|))
  }

  method DetectFaces(bitmap: Bitmap, task: Task<seq<Rect>>) returns (out: Outcome)
    ensures out == FacesOutcome(bitmap, task)
    ensures out.Written? <==> task.Succeeded?
    ensures task.Succeeded? ==>
      && out.reportedFaces == Some(|task.result|)
      && out.image.Overlay? && out.image.base == bitmap
      && |out.image.ops| == |task.result|
      && forall i :: 0 <= i < |task.result| ==> out.image.ops[i] == RectOp(task.result[i], FacePaint)
  {
    var canvas := new Canvas();
    match task {
      case Failed =>
        out := NothingWritten;
      case Succeeded(faces) =>
        for i := 0 to |faces|
          invariant |canvas.ops| == i
          invariant forall k :: 0 <= k < i ==> canvas.ops[k] == RectOp(faces[k], FacePaint)
        {
          canvas.DrawRect(faces[i], FacePaint);
        }
        assert canvas.ops == FaceBoxes(faces);
        out := Written(Overlay(bitmap, canvas.ops), Some(|faces|));
    }
  }

  // ---------------------------------------------------------------------------
  // Contours

  /** A detected face with the point lists of all its contours. */
  datatype Face = Face(contours: seq<seq<Point>>)

  /** Every contour has a first point (the drawing reads `points[0]`). */
  predicate ContoursNonEmpty(faces: seq<Face>) {
    forall i, j :: 0 <= i < |faces| && 0 <= j < |faces[i].contours| ==> |faces[i].contours[j]| >= 1
  }

  /** The closed polygon through `points`: segment i joins point i to the next point,
      cyclically. */
  function Polygon(points: seq<Point>): (lines: seq<Primitive>)
    requires |points| >= 1
  {
    seq(|points|, i requires 0 <= i < |points| =>
      LineOp(points[i], points[(i + 1) % |points|], ContourPaint))
  }

  /** The first `k` segments of the open path through `points`. */
  function OpenPath(points: seq<Point>, k: nat): seq<Primitive>
    requires k < |points|
  {
    seq(k, i requires 0 <= i < k => LineOp(points[i], points[i + 1], ContourPaint))
  }

  /** Drawing the open path and then the segment from the last point back to the first
      draws the closed polygon: n points give n segments. */
  lemma PolygonIsClosedPath(points: seq<Point>)
    requires |points| >= 1
    ensures Polygon(points) == OpenPath(points, |points| - 1)
                               + [LineOp(points[|points| - 1], points[0], ContourPaint)]
    ensures |Polygon(points)| == |points|
  {
    var n := |points|;
    var rhs := OpenPath(points, n - 1) + [LineOp(points[n - 1], points[0], ContourPaint)];
    forall i | 0 <= i < n
      ensures Polygon(points)[i] == rhs[i]
    {
      if i < n - 1 {
        assert (i + 1) % n == i + 1;
      } else {
        assert (i + 1) % n == 0;
      }
    }
  }

  /** Consecutive segments of a polygon meet, and the last one ends at the first point. */
  lemma PolygonSegmentsConnect(points: seq<Point>)
    requires |points| >= 1
    ensures forall i :: 0 <= i < |points| - 1 ==> Polygon(points)[i].end == Polygon(points)[i + 1].start
    ensures Polygon(points)[|points| - 1].end == Polygon(points)[0].start
  {
    var n := |points|;
    assert n % n == 0;
    forall i | 0 <= i < n - 1
      ensures Polygon(points)[i].end == Polygon(points)[i + 1].start
    {
      assert (i + 1) % n == i + 1;
    }
  }

  function ContoursLines(contours: seq<seq<Point>>): seq<Primitive>
    requires forall j :: 0 <= j < |contours| ==> |contours[j]| >= 1
  {
    if contours == [] then []
    else ContoursLines(contours[..|contours| - 1]) + Polygon(contours[|contours| - 1])
  }

  /** All contour segments, face by face, contour by contour. */
  function FacesLines(faces: seq<Face>): seq<Primitive>
    requires ContoursNonEmpty(faces)
  {
    if faces == [] then []
    else FacesLines(faces[..|faces| - 1]) + ContoursLines(faces[|faces| - 1].contours)
  }

  function PointCount(contours: seq<seq<Point>>): nat {
    if contours == [] then 0 else PointCount(contours[..|contours| - 1]) + |contours[|contours| - 1]|
  }

  function FacesPointCount(faces: seq<Face>): nat {
    if faces == [] then 0 else FacesPointCount(faces[..|faces| - 1]) + PointCount(faces[|faces| - 1].contours)
  }

  /** Every primitive is a segment drawn with the contour paint. */
  predicate ContourSegments(ops: seq<Primitive>) {
    forall i :: 0 <= i < |ops| ==> ops[i].LineOp? && ops[i].paint == ContourPaint
  }

  lemma {:induction false} ContoursLinesPaint(contours: seq<seq<Point>>)
    requires forall j :: 0 <= j < |contours| ==> |contours[j]| >= 1
    ensures ContourSegments(ContoursLines(contours))
    decreases |contours|
  {
    if contours != [] {
      ContoursLinesPaint(contours[..|contours| - 1]);
    }
  }

  lemma {:induction false} FacesLinesPaint(faces: seq<Face>)
    requires ContoursNonEmpty(faces)
    ensures ContourSegments(FacesLines(faces))
    decreases |faces|
  {
    if faces != [] {
      FacesLinesPaint(faces[..|faces| - 1]);
      ContoursLinesPaint(faces[|faces| - 1].contours);
    }
  }

  lemma {:induction false} ContoursLineCount(contours: seq<seq<Point>>)
    requires forall j :: 0 <= j < |contours| ==> |contours[j]| >= 1
    ensures |ContoursLines(contours)| == PointCount(contours)
    decreases |contours|
  {
    if contours != [] {
      ContoursLineCount(contours[..|contours| - 1]);
    }
  }

  /** Contour tracing draws exactly as many segments as the contours have points. */
  lemma {:induction false} FacesLineCount(faces: seq<Face>)
    requires ContoursNonEmpty(faces)
    ensures |FacesLines(faces)| == FacesPointCount(faces)
    decreases |faces|
  {
    if faces != [] {
      var last := faces[|faces| - 1];
      assert forall j :: 0 <= j < |last.contours| ==> |last.contours[j]| >= 1;
      FacesLineCount(faces[..|faces| - 1]);
      ContoursLineCount(last.contours);
    }
  }

  /** `contour`: on success, the polygons on a copy of the photo and the file written
      (no count is reported); on failure only a log line. */
  function ContourOutcome(bitmap: Bitmap, task: Task<seq<Face>>): (out: Outcome)
    requires task.Succeeded? ==> ContoursNonEmpty(task.result)
    ensures out.Written? <==> task.Succeeded?
    ensures task.Succeeded? ==>
      && out.reportedFaces.None?
      && out.image.Overlay? && out.image.base == bitmap
      && |out.image.ops| == FacesPointCount(task.result)
      && ContourSegments(out.image.ops)
  {
    match task
    case Failed => NothingWritten
    case Succeeded(faces) =>
      FacesLineCount(faces);
      FacesLinesPaint(faces);
      Written(Overlay(bitmap, FacesLines(faces)), None)
  }

  method Contour(bitmap: Bitmap, task: Task<seq<Face>>) returns (out: Outcome)
    requires task.Succeeded? ==> ContoursNonEmpty(task.result)
    ensures out == ContourOutcome(bitmap, task)
  {
    var canvas := new Canvas();
    match task {
      case Failed =>
        out := NothingWritten;
      case Succeeded(faces) =>
        for f := 0 to |faces|
          invariant canvas.ops == FacesLines(faces[..f])
        {
          var contours := faces[f].contours;
          assert forall j :: 0 <= j < |contours| ==> |contours[j]| >= 1;
          for c := 0 to |contours|
            invariant canvas.ops == FacesLines(faces[..f]) + ContoursLines(contours[..c])
          {
            var points := contours[c];
            ghost var before := canvas.ops;
            for i := 0 to |points| - 1
              invariant canvas.ops == before + OpenPath(points, i)
            {
              canvas.DrawLine(points[i], points[i + 1], ContourPaint);
            }
            canvas.DrawLine(points[|points| - 1], points[0], ContourPaint);
            PolygonIsClosedPath(points);
            assert contours[..c + 1][..c] == contours[..c];
          }
          assert contours[..|contours|] == contours;
          assert faces[..f + 1][..f] == faces[..f];
        }
        assert faces[..|faces|] == faces;
        out := Written(Overlay(bitmap, canvas.ops), None);
    }
  }

  // ---------------------------------------------------------------------------
  // Face mesh

  /** A mesh triangle; `TrianglePoints` is its `allPoints` list. */
  datatype Triangle = Triangle(a: Point, b: Point, c: Point)

  function TrianglePoints(t: Triangle): (ps: seq<Point>)
    ensures |ps| == 3
  {
    [t.a, t.b, t.c]
  }

  /** A detected face mesh: its bounding box, its vertices and its triangles. */
  datatype FaceMesh = FaceMesh(boundingBox: Rect, points: seq<Point>, triangles: seq<Triangle>)

  /** Every mesh box has non-zero width and height (the scale divides by them). */
  predicate BoxesNonDegenerate(meshes: seq<FaceMesh>) {
    forall i :: 0 <= i < |meshes| ==> Width(meshes[i].boundingBox) != 0 && Height(meshes[i].boundingBox) != 0
  }

  /** `bounds.width() / (right - left)`: the box's width over itself, always 1. */
  function ScaleX(m: FaceMesh): (s: real)
    requires Width(m.boundingBox) != 0
    ensures s == 1.0
  {
    var span := (m.boundingBox.right - m.boundingBox.left) as real;
    DivideBySelf(span);
    Width(m.boundingBox) as real / span
  }

  /** `bounds.height() / (bottom - top)`: always 1. */
  function ScaleY(m: FaceMesh): (s: real)
    requires Height(m.boundingBox) != 0
    ensures s == 1.0
  {
    var span := (m.boundingBox.bottom - m.boundingBox.top) as real;
    DivideBySelf(span);
    Height(m.boundingBox) as real / span
  }

  lemma DivideBySelf(d: real)
    requires d != 0.0
    ensures d / d == 1.0
  {
    assert (d / d) * d == 1.0 * d;
  }

  function Scaled(p: Point, sx: real, sy: real): Point {
    Point(p.x * sx, p.y * sy)
  }

  /** One filled dot per mesh vertex. */
  function Dots(points: seq<Point>, sx: real, sy: real): seq<Primitive> {
    seq(|points|, i requires 0 <= i < |points| =>
      CircleOp(Scaled(points[i], sx, sy), MeshPointRadius, MeshPointPaint))
  }

  /** The edges of a triangle: from point i to point (i + 1) % 3, for i = 0, 1, 2. */
  function TriangleEdges(t: Triangle, sx: real, sy: real): seq<Primitive> {
    var ps := TrianglePoints(t);
    seq(3, i requires 0 <= i < 3 =>
      LineOp(Scaled(ps[i], sx, sy), Scaled(ps[(i + 1) % 3], sx, sy), MeshLinePaint))
  }

  /** The wrap-around index closes every triangle: its edges are ab, bc and ca. */
  lemma TriangleEdgesClose(t: Triangle, sx: real, sy: real)
    ensures TriangleEdges(t, sx, sy) == [
      LineOp(Scaled(t.a, sx, sy), Scaled(t.b, sx, sy), MeshLinePaint),
      LineOp(Scaled(t.b, sx, sy), Scaled(t.c, sx, sy), MeshLinePaint),
      LineOp(Scaled(t.c, sx, sy), Scaled(t.a, sx, sy), MeshLinePaint)]
  {
    var e := TriangleEdges(t, sx, sy);
    assert e[0].start == Scaled(t.a, sx, sy) && e[0].end == Scaled(t.b, sx, sy);
    assert e[1].start == Scaled(t.b, sx, sy) && e[1].end == Scaled(t.c, sx, sy);
    assert e[2].start == Scaled(t.c, sx, sy) && e[2].end == Scaled(t.a, sx, sy);
  }

  function TrianglesEdges(ts: seq<Triangle>, sx: real, sy: real): seq<Primitive> {
    if ts == [] then []
    else TrianglesEdges(ts[..|ts| - 1], sx, sy) + TriangleEdges(ts[|ts| - 1], sx, sy)
  }

  /** Each triangle contributes exactly three edges. */
  lemma {:induction false} TrianglesEdgeCount(ts: seq<Triangle>, sx: real, sy: real)
    ensures |TrianglesEdges(ts, sx, sy)| == 3 * |ts|
    decreases |ts|
  {
    if ts != [] {
      TrianglesEdgeCount(ts[..|ts| - 1], sx, sy);
    }
  }

  /** What one mesh adds to the canvas: its dots, then its triangles' edges. */
  function MeshOps(m: FaceMesh): seq<Primitive>
    requires Width(m.boundingBox) != 0 && Height(m.boundingBox) != 0
  {
    Dots(m.points, ScaleX(m), ScaleY(m)) + TrianglesEdges(m.triangles, ScaleX(m), ScaleY(m))
  }

  function MeshesOps(meshes: seq<FaceMesh>): seq<Primitive>
    requires BoxesNonDegenerate(meshes)
  {
    if meshes == [] then []
    else MeshesOps(meshes[..|meshes| - 1]) + MeshOps(meshes[|meshes| - 1])
  }

  /** Since the scale is 1, every vertex dot sits exactly on the vertex, and the mesh
      draws one dot per vertex and three edges per triangle. */
  lemma MeshDrawnUnscaled(m: FaceMesh)
    requires Width(m.boundingBox) != 0 && Height(m.boundingBox) != 0
    ensures |MeshOps(m)| == |m.points| + 3 * |m.triangles|
    ensures forall i :: 0 <= i < |m.points| ==>
      MeshOps(m)[i] == CircleOp(m.points[i], MeshPointRadius, MeshPointPaint)
    ensures MeshOps(m)[|m.points|..] == TrianglesEdges(m.triangles, 1.0, 1.0)
  {
    TrianglesEdgeCount(m.triangles, 1.0, 1.0);
    forall i | 0 <= i < |m.points|
      ensures MeshOps(m)[i] == CircleOp(m.points[i], MeshPointRadius, MeshPointPaint)
    {
      assert Scaled(m.points[i], 1.0, 1.0) == m.points[i];
    }
  }

  /** `detectFaceMesh`: on success the meshes are drawn and the file is always written,
      even for zero meshes; no failure listener is registered, so a failure has no effect. */
  function MeshOutcome(bitmap: Bitmap, task: Task<seq<FaceMesh>>): (out: Outcome)
    requires task.Succeeded? ==> BoxesNonDegenerate(task.result)
    ensures out.Written? <==> task.Succeeded?
    ensures task.Succeeded? ==> out.reportedFaces.None? && out.image.Overlay? && out.image.base == bitmap
    ensures task == Succeeded([]) ==> out == Written(Overlay(bitmap, []), None)
  {
    match task
    case Failed => NothingWritten
    case Succeeded(meshes) => Written(Overlay(bitmap, MeshesOps(meshes)), None)
  }

  method DetectFaceMesh(bitmap: Bitmap, task: Task<seq<FaceMesh>>) returns (out: Outcome)
    requires task.Succeeded? ==> BoxesNonDegenerate(task.result)
    ensures out == MeshOutcome(bitmap, task)
  {
    var canvas := new Canvas();
    match task {
      case Failed =>
        out := NothingWritten;
      case Succeeded(meshes) =>
        for m := 0 to |meshes|
          invariant canvas.ops == MeshesOps(meshes[..m])
        {
          DrawMesh(canvas, meshes[m]);
          assert meshes[..m + 1][..m] == meshes[..m];
        }
        assert meshes[..|meshes|] == meshes;
        out := Written(Overlay(bitmap, canvas.ops), None);
    }
  }

  /** The body of the per-mesh loop of `detectFaceMesh`. */
  method DrawMesh(canvas: Canvas, mesh: FaceMesh)
    requires Width(mesh.boundingBox) != 0 && Height(mesh.boundingBox) != 0
    modifies canvas
    ensures canvas.ops == old(canvas.ops) + MeshOps(mesh)
  {
    var scaleX := ScaleX(mesh);
    var scaleY := ScaleY(mesh);
    for p := 0 to |mesh.points|
      invariant canvas.ops == old(canvas.ops) + Dots(mesh.points[..p], scaleX, scaleY)
    {
      var position := mesh.points[p];
      canvas.DrawCircle(Scaled(position, scaleX, scaleY), MeshPointRadius, MeshPointPaint);
      assert Dots(mesh.points[..p + 1], scaleX, scaleY)
          == Dots(mesh.points[..p], scaleX, scaleY) + [CircleOp(Scaled(position, scaleX, scaleY), MeshPointRadius, MeshPointPaint)];
    }
    assert mesh.points[..|mesh.points|] == mesh.points;
    ghost var dotted := canvas.ops;
    for t := 0 to |mesh.triangles|
      invariant canvas.ops == dotted + TrianglesEdges(mesh.triangles[..t], scaleX, scaleY)
    {
      DrawTriangle(canvas, mesh.triangles[t], scaleX, scaleY);
      assert mesh.triangles[..t + 1][..t] == mesh.triangles[..t];
    }
    assert mesh.triangles[..|mesh.triangles|] == mesh.triangles;
  }

  /** The body of the per-triangle loop: three lines, from point i to point (i + 1) % 3. */
  method DrawTriangle(canvas: Canvas, triangle: Triangle, scaleX: real, scaleY: real)
    modifies canvas
    ensures canvas.ops == old(canvas.ops) + TriangleEdges(triangle, scaleX, scaleY)
  {
    var connectedPoints := TrianglePoints(triangle);
    ghost var edges := TriangleEdges(triangle, scaleX, scaleY);
    for i := 0 to 3
      invariant |canvas.ops| == |old(canvas.ops)| + i
      invariant canvas.ops[..|old(canvas.ops)|] == old(canvas.ops)
      invariant forall k :: 0 <= k < i ==> canvas.ops[|old(canvas.ops)| + k] == edges[k]
    {
      var start := connectedPoints[i];
      var end := connectedPoints[(i + 1) % 3];
      assert edges[i] == LineOp(Scaled(start, scaleX, scaleY), Scaled(end, scaleX, scaleY), MeshLinePaint);
      canvas.DrawLine(Scaled(start, scaleX, scaleY), Scaled(end, scaleX, scaleY), MeshLinePaint);
    }
    assert canvas.ops == old(canvas.ops) + edges;
  }

  // ---------------------------------------------------------------------------
  // Selfie segmentation

  /** A segmentation mask: per-pixel foreground probabilities, row by row. */
  datatype Mask = Mask(buffer: seq<real>, width: nat, height: nat)

  /** The buffer holds one value per pixel. */
  predicate MaskComplete(m: Mask) {
    m.width > 0 && m.height > 0 && |m.buffer| == m.width * m.height
  }

  const BackgroundThreshold: real := 0.20
  const MaxBackgroundFraction: real := 0.95

  /** A pixel is background when its background chance exceeds the threshold. */
  predicate IsBackground(foregroundChance: real)
    ensures IsBackground(foregroundChance) <==> foregroundChance < 0.80
  {
    1.0 - foregroundChance > BackgroundThreshold
  }

  /** `Color.argb`: the four channels packed into a 32-bit `Int`, read as signed. */
  function Argb(alpha: nat, red: nat, green: nat, blue: nat): (c: int)
    requires alpha < 256 && red < 256 && green < 256 && blue < 256
    ensures -0x8000_0000 <= c < 0x8000_0000
    ensures (c + 0x1_0000_0000) % 0x1_0000_0000 == alpha * 0x100_0000 + red * 0x1_0000 + green * 0x100 + blue
  {
    var packed := alpha * 0x100_0000 + red * 0x1_0000 + green * 0x100 + blue;
    if packed >= 0x8000_0000 then packed - 0x1_0000_0000 else packed
  }

  /** Opaque magenta, the colour that tags background pixels. */
  const Magenta: int := Argb(255, 255, 0, 255)

  /** The `colors` array the segmentation fills: magenta for background pixels,
      0 (the array's initial value) elsewhere. */
  function BackgroundColors(buffer: seq<real>): (colors: seq<int>)
    ensures |colors| == |buffer|
    ensures forall i :: 0 <= i < |buffer| ==> (colors[i] == Magenta <==> IsBackground(buffer[i]))
    ensures forall i :: 0 <= i < |buffer| ==> (colors[i] == 0 <==> !IsBackground(buffer[i]))
  {
    seq(|buffer|, i requires 0 <= i < |buffer| => if IsBackground(buffer[i]) then Magenta else 0)
  }

  /** Number of background pixels. */
  function CountBackground(buffer: seq<real>): (n: nat)
    ensures n <= |buffer|
  {
    if buffer == [] then 0
    else CountBackground(buffer[..|buffer| - 1]) + (if IsBackground(buffer[|buffer| - 1]) then 1 else 0)
  }

  function Occurrences(s: seq<int>, v: int): nat {
    if s == [] then 0 else Occurrences(s[..|s| - 1], v) + (if s[|s| - 1] == v then 1 else 0)
  }

  /** The background counter equals the number of magenta entries in `colors`. */
  lemma {:induction false} CountIsMagentaEntries(buffer: seq<real>)
    ensures CountBackground(buffer) == Occurrences(BackgroundColors(buffer), Magenta)
    decreases |buffer|
  {
    if buffer != [] {
      var n := |buffer|;
      assert Magenta != 0;
      CountIsMagentaEntries(buffer[..n - 1]);
      assert BackgroundColors(buffer)[..n - 1] == BackgroundColors(buffer[..n - 1]);
    }
  }

  /** `amtBg > w * h * 0.95`: too much background, probably not a selfie. */
  predicate TooMuchBackground(amtBg: nat, width: nat, height: nat)
    ensures TooMuchBackground(amtBg, width, height) <==> 20 * amtBg > 19 * (width * height)
  {
    amtBg as real > (width * height) as real * MaxBackgroundFraction
  }

  /** `segment`: on success the mask is read into `colors`; if the background share is
      too high nothing is written, otherwise the composite is written; on failure
      nothing happens. */
  function SegmentOutcome(bitmap: Bitmap, task: Task<Mask>): (out: Outcome)
    requires task.Succeeded? ==> MaskComplete(task.result)
    ensures out.Written? <==>
      task.Succeeded? && !TooMuchBackground(CountBackground(task.result.buffer), task.result.width, task.result.height)
    ensures out.Written? ==>
      && out.reportedFaces.None?
      && out.image.Composite? && out.image.base == bitmap
      && out.image.maskWidth == task.result.width && out.image.maskHeight == task.result.height
      && |out.image.maskColors| == task.result.width * task.result.height
  {
    match task
    case Failed => NothingWritten
    case Succeeded(mask) =>
      if TooMuchBackground(CountBackground(mask.buffer), mask.width, mask.height) then NothingWritten
      else Written(Composite(bitmap, mask.width, mask.height, BackgroundColors(mask.buffer)), None)
  }

  /** A mask with no background pixel is always accepted. */
  lemma ForegroundMaskAccepted(bitmap: Bitmap, mask: Mask)
    requires MaskComplete(mask)
    requires forall i :: 0 <= i < |mask.buffer| ==> !IsBackground(mask.buffer[i])
    ensures SegmentOutcome(bitmap, Succeeded(mask)).Written?
  {
    AllForegroundCount(mask.buffer);
  }

  lemma {:induction false} AllForegroundCount(buffer: seq<real>)
    requires forall i :: 0 <= i < |buffer| ==> !IsBackground(buffer[i])
    ensures CountBackground(buffer) == 0
    decreases |buffer|
  {
    if buffer != [] {
      AllForegroundCount(buffer[..|buffer| - 1]);
    }
  }

  lemma {:induction false} AllBackgroundCount(buffer: seq<real>)
    requires forall i :: 0 <= i < |buffer| ==> IsBackground(buffer[i])
    ensures CountBackground(buffer) == |buffer|
    decreases |buffer|
  {
    if buffer != [] {
      AllBackgroundCount(buffer[..|buffer| - 1]);
    }
  }

  /** A non-empty mask that is background everywhere is rejected. */
  lemma BackgroundMaskRejected(bitmap: Bitmap, mask: Mask)
    requires MaskComplete(mask)
    requires forall i :: 0 <= i < |mask.buffer| ==> IsBackground(mask.buffer[i])
    ensures SegmentOutcome(bitmap, Succeeded(mask)) == NothingWritten
  {
    AllBackgroundCount(mask.buffer);
  }

  /** Row-major addressing: pixel (x, y) of a w-by-h mask is at y * w + x, which lies in
      [0, w * h). */
  lemma RowMajorInBounds(x: nat, y: nat, w: nat, h: nat)
    requires x < w && y < h
    ensures y * w + x < w * h
  {
    assert y * w + x < (y + 1) * w;
    assert (y + 1) * w <= h * w by {
      MulMonotone(y + 1, h, w);
    }
  }

  lemma MulMonotone(a: nat, b: nat, w: nat)
    requires a <= b
    ensures a * w <= b * w
  {
  }

  /** The first `cursor` entries of `colors` are classified from the mask and the rest
      still hold their initial 0. */
  ghost predicate ColorsReadUpTo(colors: array<int>, buffer: seq<real>, cursor: nat)
    reads colors
  {
    && cursor <= colors.Length == |buffer|
    && (forall k :: 0 <= k < cursor ==> colors[k] == if IsBackground(buffer[k]) then Magenta else 0)
    && (forall k :: cursor <= k < colors.Length ==> colors[k] == 0)
  }

  method Segment(bitmap: Bitmap, task: Task<Mask>) returns (out: Outcome)
    requires task.Succeeded? ==> MaskComplete(task.result)
    ensures out == SegmentOutcome(bitmap, task)
  {
    match task {
      case Failed =>
        out := NothingWritten;
      case Succeeded(mask) =>
        var maskWidth, maskHeight := mask.width, mask.height;
        var colors := new int[maskWidth * maskHeight](_ => 0);
        var amtBg := 0;
        var cursor := 0;  // read position of `mask.getFloat()`
        for y := 0 to maskHeight
          invariant cursor == y * maskWidth
          invariant ColorsReadUpTo(colors, mask.buffer, cursor)
          invariant amtBg == CountBackground(mask.buffer[..cursor])
        {
          cursor, amtBg := ReadMaskRow(mask, colors, y, cursor, amtBg);
        }
        assert mask.buffer[..cursor] == mask.buffer;
        if TooMuchBackground(amtBg, maskWidth, maskHeight) {
          out := NothingWritten;
          return;
        }
        assert colors[..] == BackgroundColors(mask.buffer);
        out := Written(Composite(bitmap, maskWidth, maskHeight, colors[..]), None);
    }
  }

  /** The body of the row loop of `segment`: reads row `y` of the mask, tagging its
      background pixels in `colors` and counting them. */
  method ReadMaskRow(mask: Mask, colors: array<int>, y: nat, cursor: nat, amtBg: nat)
    returns (next: nat, amt: nat)
    requires MaskComplete(mask) && y < mask.height
    requires cursor == y * mask.width
    requires ColorsReadUpTo(colors, mask.buffer, cursor)
    requires amtBg == CountBackground(mask.buffer[..cursor])
    modifies colors
    ensures next == (y + 1) * mask.width
    ensures ColorsReadUpTo(colors, mask.buffer, next)
    ensures amt == CountBackground(mask.buffer[..next])
  {
    var maskWidth := mask.width;
    next, amt := cursor, amtBg;
    for x := 0 to maskWidth
      invariant next == cursor + x
      invariant ColorsReadUpTo(colors, mask.buffer, next)
      invariant amt == CountBackground(mask.buffer[..next])
    {
      RowMajorInBounds(x, y, maskWidth, mask.height);
      assert y * maskWidth + x == next;
      var foregroundChance := mask.buffer[next];
      assert mask.buffer[..next + 1][..next] == mask.buffer[..next];
      next := next + 1;
      var backgroundChance := 1.0 - foregroundChance;
      if backgroundChance > BackgroundThreshold {
        colors[y * maskWidth + x] := Magenta;
        amt := amt + 1;
      }
    }
  }
}
