/**
 * The offline point-cloud path of the ImageProcessing library: an ImageSet
 * holds the colour and depth images of one frame, the per-pixel Point3f
 * buffer and the minified (compacted) output. The k4a SDK, turbojpeg and the
 * float world transform are outside this model; their outcomes are inputs.
 */
module ImageToPointcloud {
  import opened Bytes
  import opened Points
  import opened Wrappers

  /** Colour of a minified point (red, green, blue as copied, plus the struct's alpha). */
  datatype RGBA = RGBA(red: byte, green: byte, blue: byte, alpha: byte)

  /** The pipeline stages CreatePointcloudFromImages runs, in order. */
  datatype Stage = DecodeJpeg | MapDepth | Generate | Convert

  /** The stages that are due: the JPEG decode only when the JPEG is not yet converted. */
  function StageOrder(jpegConverted: bool): (r: seq<Stage>)
    ensures |r| == if jpegConverted then 3 else 4
    ensures r[|r| - 1] == Convert
    ensures DecodeJpeg in r <==> !jpegConverted
  {
    (if jpegConverted then [] else [DecodeJpeg]) + [MapDepth, Generate, Convert]
  }

  /** Pixel k of the int16 point-cloud image (X, Y, Z triples) copied into a Point3f. */
  function ConvertedPixel(p: Point3f, data: seq<int>, k: nat): (q: Point3f)
    requires 3 * k + 2 < |data|
    ensures q.x == data[3 * k] as real && q.y == data[3 * k + 1] as real && q.z == data[3 * k + 2] as real
    ensures q.invalid <==> p.invalid || q.z < 1.0
  {
    var q := p.(x := data[3 * k] as real, y := data[3 * k + 1] as real, z := data[3 * k + 2] as real);
    if q.z < 1.0 then q.(invalid := true) else q
  }

  /** Pointcloud3fMinify's first loop on one vertex: a valid vertex outside the box becomes invalid. */
  function MarkOutside(p: Point3f, box: seq<real>): (q: Point3f)
    requires |box| == 6
    ensures q.x == p.x && q.y == p.y && q.z == p.z
    ensures q.invalid <==> p.invalid || OutsideBox(p, box)
  {
    if !p.invalid && OutsideBox(p, box) then p.(invalid := true) else p
  }

  /** The colour of minified point taken from source pixel i: bytes 4i, 4i+1, 4i+2. */
  function ColorOfPixel(colorValues: seq<byte>, i: nat, defaultColor: RGBA): RGBA
    requires 4 * i + 2 < |colorValues|
  {
    defaultColor.(red := colorValues[4 * i], green := colorValues[4 * i + 1], blue := colorValues[4 * i + 2])
  }

  /** Row-major index arithmetic of the nested pixel loops. */
  lemma {:induction false} RowMajor(i: int, w: int, h: int)
    requires 0 <= i < h && 0 <= w
    ensures 0 <= i * w && i * w + w <= w * h
    ensures (i + 1) * w == i * w + w
  {
    var k := h - (i + 1);
    assert (i + 1) * w == i * w + w;
    assert h * w == (i + 1) * w + k * w;
    assert k * w >= 0;
    assert w * h == h * w;
  }

  /**
   * After marking every vertex, a vertex is valid exactly when it was valid
   * before and lies inside the (inclusive) box.
   */
  lemma {:induction false} MarkedValidIndices(before: seq<Point3f>, after: seq<Point3f>, box: seq<real>, i: nat)
    requires |box| == 6 && |before| == |after|
    requires forall k :: 0 <= k < |after| ==> after[k] == MarkOutside(before[k], box)
    requires i < |after|
    ensures i in ValidIndices(after) <==> !before[i].invalid && !OutsideBox(before[i], box)
  {
    ValidIndicesUpToSpec(after, |after|);
  }

  /** Every member of an ImageSet, as one value: the arrays by reference. */
  datatype ImageSetFields = ImageSetFields(
    colorImageWidth: int, colorImageHeight: int, depthImageWidth: int, depthImageHeight: int,
    jpegConvertedToBGRA: bool, depthConvertedToPointcloud: bool, pointcloud3f: array<Point3f>,
    pointcloudMinified: array<Point3s>, colorMinified: array<RGBA>, minifiedPointcloudSize: int)

  class ImageSet {
    var colorImageWidth: int
    var colorImageHeight: int
    var depthImageWidth: int
    var depthImageHeight: int
    var jpegConvertedToBGRA: bool
    var depthConvertedToPointcloud: bool
    var pointcloud3f: array<Point3f>
    var pointcloudMinified: array<Point3s>
    var colorMinified: array<RGBA>
    var minifiedPointcloudSize: int

    function Fields(): ImageSetFields
      reads this
    {
      ImageSetFields(colorImageWidth, colorImageHeight, depthImageWidth, depthImageHeight, jpegConvertedToBGRA,
                     depthConvertedToPointcloud, pointcloud3f, pointcloudMinified, colorMinified, minifiedPointcloudSize)
    }

    /** CreateImageSet. */
    constructor ()
      ensures colorImageWidth == 0 && colorImageHeight == 0
      ensures !jpegConvertedToBGRA && !depthConvertedToPointcloud
      ensures pointcloud3f.Length == 0 && minifiedPointcloudSize == 0
    {
      colorImageWidth, colorImageHeight := 0, 0;
      depthImageWidth, depthImageHeight := 0, 0;
      jpegConvertedToBGRA, depthConvertedToPointcloud := false, false;
      pointcloud3f := new Point3f[0];
      pointcloudMinified := new Point3s[0];
      colorMinified := new RGBA[0];
      minifiedPointcloudSize := 0;
    }

    /**
     * ChangeJPEGFromBuffer: rejects a non-positive size, a null buffer or an
     * empty JPEG; otherwise records the size, marks the JPEG unconverted and
     * reports whether the SDK accepted the buffer.
     */
    method ChangeJPEGFromBuffer(jpegWidth: int, jpegHeight: int, jpegBuffer: Option<seq<byte>>, jpegSize: int, sdkAccepts: bool)
      returns (ok: bool)
      modifies this
      ensures (jpegWidth < 1 || jpegHeight < 1 || jpegBuffer.None? || jpegSize < 1) ==>
        !ok && unchanged(this)
      ensures !(jpegWidth < 1 || jpegHeight < 1 || jpegBuffer.None? || jpegSize < 1) ==>
        ok == sdkAccepts &&
        Fields() == old(Fields()).(colorImageWidth := jpegWidth, colorImageHeight := jpegHeight,
                                   jpegConvertedToBGRA := false)
    {
      if jpegWidth < 1 || jpegHeight < 1 || jpegBuffer.None? || jpegSize < 1 {
        return false;
      }
      colorImageWidth := jpegWidth;
      colorImageHeight := jpegHeight;
      jpegConvertedToBGRA := false;
      ok := sdkAccepts;
    }

    /** ChangeBGRA32FromBuffer: the same guards without the size argument. */
    method ChangeBGRA32FromBuffer(colorWidth: int, colorHeight: int, colorBuffer: Option<seq<byte>>, sdkAccepts: bool)
      returns (ok: bool)
      modifies this
      ensures (colorWidth < 1 || colorHeight < 1 || colorBuffer.None?) ==> !ok && unchanged(this)
      ensures !(colorWidth < 1 || colorHeight < 1 || colorBuffer.None?) ==>
        ok == sdkAccepts &&
        Fields() == old(Fields()).(colorImageWidth := colorWidth, colorImageHeight := colorHeight)
    {
      if colorWidth < 1 || colorHeight < 1 || colorBuffer.None? {
        return false;
      }
      colorImageWidth := colorWidth;
      colorImageHeight := colorHeight;
      ok := sdkAccepts;
    }

    /**
     * ChangeDepthFromBuffer: rejects with false; on the accepting path the
     * source returns no value, modelled as None.
     */
    method ChangeDepthFromBuffer(depthWidth: int, depthHeight: int, depthBuffer: Option<seq<byte>>)
      returns (result: Option<bool>)
      modifies this
      ensures (depthWidth < 1 || depthHeight < 1 || depthBuffer.None?) ==>
        result == Some(false) && unchanged(this)
      ensures !(depthWidth < 1 || depthHeight < 1 || depthBuffer.None?) ==>
        result.None? &&
        Fields() == old(Fields()).(depthImageWidth := depthWidth, depthImageHeight := depthHeight,
                                   depthConvertedToPointcloud := false)
    {
      if depthWidth < 1 || depthHeight < 1 || depthBuffer.None? {
        return Some(false);
      }
      depthImageWidth := depthWidth;
      depthImageHeight := depthHeight;
      depthConvertedToPointcloud := false;
      result := None;
    }

    /**
     * CreatePointcloudFromImages: decode (only when the JPEG is not yet
     * converted), map, generate, convert, stopping at the first stage that
     * fails. `succeeds` gives each stage's outcome; a successful decode marks
     * the JPEG converted.
     */
    method CreatePointcloudFromImages(succeeds: Stage -> bool) returns (ok: bool, ran: seq<Stage>)
      modifies this`jpegConvertedToBGRA
      ensures var order := StageOrder(old(jpegConvertedToBGRA));
        0 < |ran| <= |order| && ran == order[..|ran|] &&
        (forall k :: 0 <= k < |ran| - 1 ==> succeeds(ran[k])) &&
        (ok <==> succeeds(ran[|ran| - 1]) && |ran| == |order|)
      ensures ok <==> ((old(jpegConvertedToBGRA) || succeeds(DecodeJpeg)) &&
                       succeeds(MapDepth) && succeeds(Generate) && succeeds(Convert))
      ensures jpegConvertedToBGRA <==> old(jpegConvertedToBGRA) || succeeds(DecodeJpeg)
    {
      ran := [];
      if !jpegConvertedToBGRA {
        ran := ran + [DecodeJpeg];
        if !succeeds(DecodeJpeg) {
          return false, ran;
        }
        jpegConvertedToBGRA := true;
      }
      ran := ran + [MapDepth];
      if !succeeds(MapDepth) {
        return false, ran;
      }
      ran := ran + [Generate];
      if !succeeds(Generate) {
        return false, ran;
      }
      ran := ran + [Convert];
      if !succeeds(Convert) {
        return false, ran;
      }
      return true, ran;
    }

    /**
     * PointCloudImageToPoint3f, per pixel: copies X, Y, Z of pixel (i, j) from
     * the int16 triple at 3 * (j + i * width) and sets Invalid when Z < 1; an
     * Invalid flag already set is never cleared. A missing point-cloud image
     * gives false. (The buffer reallocation and the missing return value of the
     * source are outside this model: the buffer already has width * height
     * entries, and success is reported as true.)
     */
    method PointCloudImageToPoint3f(pointcloud: Option<seq<int>>) returns (ok: bool)
      requires colorImageWidth >= 0 && colorImageHeight >= 0
      requires pointcloud3f.Length == colorImageWidth * colorImageHeight
      requires pointcloud.Some? ==> |pointcloud.value| >= 3 * colorImageWidth * colorImageHeight
      modifies pointcloud3f
      ensures ok <==> pointcloud.Some?
      ensures !ok ==> unchanged(pointcloud3f)
      ensures ok ==> forall k :: 0 <= k < pointcloud3f.Length ==>
        pointcloud3f[k] == ConvertedPixel(old(pointcloud3f[k]), pointcloud.value, k)
    {
      if pointcloud.None? {
        return false;
      }
      var data := pointcloud.value;
      var w, h := colorImageWidth, colorImageHeight;
      var pc := pointcloud3f;
      ghost var before := pc[..];
      ghost var done := 0;
      for i := 0 to h
        invariant done == i * w && done <= pc.Length
        invariant forall k :: 0 <= k < done ==> pc[k] == ConvertedPixel(before[k], data, k)
        invariant forall k :: done <= k < pc.Length ==> pc[k] == before[k]
      {
        RowMajor(i, w, h);
        ConvertRow(pc, data, i, w, before);
        done := done + w;
      }
      return true;
    }

    /**
     * Pointcloud3fMinify: marks invalid, in place, every valid vertex strictly
     * outside the box; then allocates the outputs and copies into them, in
     * scan order, every vertex still valid together with the colour bytes of
     * its own pixel. When none survives, the outputs are the single sentinel
     * point (0, 0, 0) with the default colour and the size is 1.
     * `toShort` is the Point3s converting constructor (not part of this model).
     */
    method Pointcloud3fMinify(boundingBox: seq<real>, colorValues: seq<byte>, toShort: Point3f -> Point3s, defaultColor: RGBA)
      requires |boundingBox| == 6
      requires colorImageWidth >= 0 && colorImageHeight >= 0
      requires pointcloud3f.Length == colorImageWidth * colorImageHeight
      requires |colorValues| >= 4 * pointcloud3f.Length
      modifies this, pointcloud3f
      ensures Fields() == old(Fields()).(pointcloudMinified := pointcloudMinified, colorMinified := colorMinified,
                                         minifiedPointcloudSize := minifiedPointcloudSize)
      ensures forall k :: 0 <= k < pointcloud3f.Length ==>
        pointcloud3f[k] == MarkOutside(old(pointcloud3f[k]), boundingBox)
      ensures fresh(pointcloudMinified) && fresh(colorMinified)
      ensures minifiedPointcloudSize >= 1
      ensures minifiedPointcloudSize == pointcloudMinified.Length == colorMinified.Length
      ensures var idx := ValidIndices(pointcloud3f[..]);
        if |idx| > 0 then
          minifiedPointcloudSize == |idx| &&
          forall k :: 0 <= k < |idx| ==>
            pointcloudMinified[k] == toShort(pointcloud3f[idx[k]]) &&
            colorMinified[k] == ColorOfPixel(colorValues, idx[k], defaultColor)
        else
          minifiedPointcloudSize == 1 &&
          pointcloudMinified[0] == Point3s(0, 0, 0) && colorMinified[0] == defaultColor
    {
      var goodVerticesCount := MarkOutsideBox(pointcloud3f, boundingBox);
      if goodVerticesCount > 0 {
        pointcloudMinified, colorMinified := CopyValid(pointcloud3f, colorValues, toShort, defaultColor, goodVerticesCount);
        minifiedPointcloudSize := goodVerticesCount;
      } else {
        pointcloudMinified := new Point3s[1](_ => Point3s(0, 0, 0));
        colorMinified := new RGBA[1](_ => defaultColor);
        minifiedPointcloudSize := 1;
      }
    }
  }

  /** The inner loop of PointCloudImageToPoint3f: row i, pixel by pixel, after the rows before it. */
  method ConvertRow(pc: array<Point3f>, data: seq<int>, i: nat, w: nat, ghost before: seq<Point3f>)
    requires |before| == pc.Length && i * w + w <= pc.Length && 3 * pc.Length <= |data|
    requires forall k :: 0 <= k < i * w ==> pc[k] == ConvertedPixel(before[k], data, k)
    requires forall k :: i * w <= k < pc.Length ==> pc[k] == before[k]
    modifies pc
    ensures forall k :: 0 <= k < i * w + w ==> pc[k] == ConvertedPixel(before[k], data, k)
    ensures forall k :: i * w + w <= k < pc.Length ==> pc[k] == before[k]
  {
    var done := i * w;
    for j := 0 to w
      invariant done == i * w + j
      invariant forall k :: 0 <= k < done ==> pc[k] == ConvertedPixel(before[k], data, k)
      invariant forall k :: done <= k < pc.Length ==> pc[k] == before[k]
    {
      var k := j + i * w;
      pc[k] := pc[k].(x := data[3 * k] as real, y := data[3 * k + 1] as real, z := data[3 * k + 2] as real);
      if pc[k].z < 1.0 {
        pc[k] := pc[k].(invalid := true);
      }
      done := done + 1;
    }
  }

  /** The first loop of Pointcloud3fMinify: marks out-of-box vertices and counts the survivors. */
  method MarkOutsideBox(pc: array<Point3f>, box: seq<real>) returns (goodVerticesCount: nat)
    requires |box| == 6
    modifies pc
    ensures forall k :: 0 <= k < pc.Length ==> pc[k] == MarkOutside(old(pc[k]), box)
    ensures goodVerticesCount == |ValidIndices(pc[..])|
  {
    ghost var before := pc[..];
    goodVerticesCount := 0;
    for vertexIndex := 0 to pc.Length
      invariant forall k :: 0 <= k < vertexIndex ==> pc[k] == MarkOutside(before[k], box)
      invariant forall k :: vertexIndex <= k < pc.Length ==> pc[k] == before[k]
      invariant goodVerticesCount == |ValidIndicesUpTo(pc[..], vertexIndex)|
    {
      ghost var prev := pc[..];
      if !pc[vertexIndex].invalid {
        if OutsideBox(pc[vertexIndex], box) {
          pc[vertexIndex] := pc[vertexIndex].(invalid := true);
          ValidIndicesUpToFrame(prev, pc[..], vertexIndex);
          continue;
        }
        goodVerticesCount := goodVerticesCount + 1;
      }
      assert pc[..] == prev;
    }
    assert pc[..] == pc[..][..pc.Length];
  }

  /** The second loop of Pointcloud3fMinify: copies the valid vertices and their colours in scan order. */
  method CopyValid(pc: array<Point3f>, colorValues: seq<byte>, toShort: Point3f -> Point3s, defaultColor: RGBA, count: nat)
    returns (points: array<Point3s>, colors: array<RGBA>)
    requires |colorValues| >= 4 * pc.Length
    requires count == |ValidIndices(pc[..])|
    ensures fresh(points) && fresh(colors)
    ensures points.Length == count && colors.Length == count
    ensures var idx := ValidIndices(pc[..]);
      forall k :: 0 <= k < count ==>
        points[k] == toShort(pc[idx[k]]) && colors[k] == ColorOfPixel(colorValues, idx[k], defaultColor)
  {
    points := new Point3s[count](_ => Point3s(0, 0, 0));
    colors := new RGBA[count](_ => defaultColor);
    ghost var s := pc[..];
    var j := 0;
    for i := 0 to pc.Length
      invariant j == |ValidIndicesUpTo(s, i)| <= count
      invariant forall k :: 0 <= k < j ==>
        points[k] == toShort(s[ValidIndicesUpTo(s, i)[k]]) &&
        colors[k] == ColorOfPixel(colorValues, ValidIndicesUpTo(s, i)[k], defaultColor)
    {
      j := CopyVertex(pc, colorValues, toShort, defaultColor, points, colors, i, j, s);
    }
  }

  /** One turn of the copy loop: vertex i, when still valid, goes to position j of the outputs. */
  method CopyVertex(pc: array<Point3f>, colorValues: seq<byte>, toShort: Point3f -> Point3s, defaultColor: RGBA,
                    points: array<Point3s>, colors: array<RGBA>, i: nat, j: nat, ghost s: seq<Point3f>)
    returns (next: nat)
    requires s == pc[..] && i < |s| && |colorValues| >= 4 * |s|
    requires points.Length == colors.Length == |ValidIndices(s)|
    requires j == |ValidIndicesUpTo(s, i)| <= points.Length
    requires forall k :: 0 <= k < j ==>
      points[k] == toShort(s[ValidIndicesUpTo(s, i)[k]]) &&
      colors[k] == ColorOfPixel(colorValues, ValidIndicesUpTo(s, i)[k], defaultColor)
    modifies points, colors
    ensures next == |ValidIndicesUpTo(s, i + 1)| <= points.Length
    ensures forall k :: 0 <= k < next ==>
      points[k] == toShort(s[ValidIndicesUpTo(s, i + 1)[k]]) &&
      colors[k] == ColorOfPixel(colorValues, ValidIndicesUpTo(s, i + 1)[k], defaultColor)
  {
    ValidIndicesUpToMonotone(s, i + 1, |s|);
    next := j;
    if !pc[i].invalid {
      var color := defaultColor.(red := colorValues[i * 4], green := colorValues[i * 4 + 1], blue := colorValues[i * 4 + 2]);
      points[j] := toShort(pc[i]);
      colors[j] := color;
      next := j + 1;
    }
  }

  /** Setting the flag at the current index leaves the count of the prefix before it unchanged. */
  lemma {:induction false} ValidIndicesUpToFrame(s: seq<Point3f>, t: seq<Point3f>, n: nat)
    requires |s| == |t| && n <= |s|
    requires forall k :: 0 <= k < n ==> s[k] == t[k]
    ensures ValidIndicesUpTo(s, n) == ValidIndicesUpTo(t, n)
  {
    if n > 0 {
      ValidIndicesUpToFrame(s, t, n - 1);
    }
  }
}
