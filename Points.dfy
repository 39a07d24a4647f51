/**
 * The point and colour records shared by the client, the offline image
 * processing library and the server (Point3f, Point3s, RGB in utils.h),
 * the inclusive bounding-box test, and the "valid entries in scan order"
 * bookkeeping that both compaction loops are specified by.
 */
module Points {
  import opened Bytes

  /** A camera- or world-space point with its validity flag (coordinates as reals). */
  datatype Point3f = Point3f(x: real, y: real, z: real, invalid: bool)

  /** The point both frame paths write for a rejected pixel: Point3f(0, 0, 0, true). */
  const InvalidPoint := Point3f(0.0, 0.0, 0.0, true)

  /** A point with int16 coordinates, as sent over the wire (millimetres). */
  datatype Point3s = Point3s(x: int, y: int, z: int)

  predicate IsShortPoint(p: Point3s) { IsInt16(p.x) && IsInt16(p.y) && IsInt16(p.z) }

  /** RGBQUAD layout: blue, green, red, reserved (the reserved byte is 255 on valid pixels). */
  datatype RGB = RGB(blue: byte, green: byte, red: byte, reserved: byte)

  /** The value-initialised RGB of a freshly sized vector. */
  const ZeroRGB := RGB(0, 0, 0, 0)

  datatype Vec3 = Vec3(x: real, y: real, z: real)

  /**
   * The rejection test of both bounding-box filters, over the six bounds
   * [minX, minY, minZ, maxX, maxY, maxZ]: strictly below a minimum or
   * strictly above a maximum.
   */
  predicate OutsideBox(p: Point3f, b: seq<real>)
    requires |b| == 6
  {
    p.x < b[0] || p.x > b[3] || p.y < b[1] || p.y > b[4] || p.z < b[2] || p.z > b[5]
  }

  /** The box is closed: a point is kept exactly when each coordinate lies in [min, max]. */
  lemma {:induction false} InsideBoxIffWithinBounds(p: Point3f, b: seq<real>)
    requires |b| == 6
    ensures !OutsideBox(p, b) <==>
      (b[0] <= p.x <= b[3] && b[1] <= p.y <= b[4] && b[2] <= p.z <= b[5])
  {
  }

  /** Indices of the non-invalid entries among s[..n], ascending. */
  function ValidIndicesUpTo(s: seq<Point3f>, n: nat): (idx: seq<nat>)
    requires n <= |s|
    ensures |idx| <= n
    ensures forall k :: 0 <= k < |idx| ==> idx[k] < n
  {
    if n == 0 then []
    else ValidIndicesUpTo(s, n - 1) + (if !s[n - 1].invalid then [n - 1] else [])
  }

  function ValidIndices(s: seq<Point3f>): (idx: seq<nat>)
    ensures |idx| <= |s|
    ensures forall k :: 0 <= k < |idx| ==> idx[k] < |s|
  {
    ValidIndicesUpTo(s, |s|)
  }

  /**
   * ValidIndicesUpTo lists exactly the valid positions below n, each once and
   * in increasing (scan) order.
   */
  lemma {:induction false} ValidIndicesUpToSpec(s: seq<Point3f>, n: nat)
    requires n <= |s|
    ensures forall k :: 0 <= k < |ValidIndicesUpTo(s, n)| ==> !s[ValidIndicesUpTo(s, n)[k]].invalid
    ensures forall k, l :: 0 <= k < l < |ValidIndicesUpTo(s, n)| ==>
      ValidIndicesUpTo(s, n)[k] < ValidIndicesUpTo(s, n)[l]
    ensures forall i :: 0 <= i < n && !s[i].invalid ==> i in ValidIndicesUpTo(s, n)
  {
    if n > 0 {
      ValidIndicesUpToSpec(s, n - 1);
    }
  }

  /** The points at the given indices, in that order. */
  function Gather<T>(s: seq<T>, idx: seq<nat>): (r: seq<T>)
    requires forall k :: 0 <= k < |idx| ==> idx[k] < |s|
    ensures |r| == |idx|
    ensures forall k :: 0 <= k < |idx| ==> r[k] == s[idx[k]]
  {
    if |idx| == 0 then [] else [s[idx[0]]] + Gather(s, idx[1..])
  }

  /** The count of valid entries never decreases as the prefix grows. */
  lemma {:induction false} ValidIndicesUpToMonotone(s: seq<Point3f>, n: nat, m: nat)
    requires n <= m <= |s|
    ensures |ValidIndicesUpTo(s, n)| <= |ValidIndicesUpTo(s, m)|
    decreases m - n
  {
    if n < m {
      ValidIndicesUpToMonotone(s, n, m - 1);
    }
  }

}
