/**
 * The calibration-marker detector (MarkerDetector): decoding the 3x3 cell
 * pattern of a marker, ordering its five outline corners, the mirrored retry,
 * the choice of the largest marker and the contour segments the corners are
 * refined from. Every OpenCV result (contours, polygon approximation,
 * convexity, hull indices, warped cell means, line fits, intersections and
 * areas) is an input of the model.
 */
module Marker {
  import opened Wrappers

  /**
   * Detector configuration set by the MarkerDetector constructor. Its
   * binarisation threshold (120) is used only by OpenCV's threshold call,
   * whose contours are an input here.
   */
  const MinSize: real := 100.0
  const MaxSize: real := 1000000000.0
  const ApproxPolyCoef: real := 0.12
  const MarkerFrame: real := 0.4
  const MarkerCorners: nat := 5

  datatype IntPoint = IntPoint(x: int, y: int)
  datatype Point2 = Point2(x: real, y: real)
  datatype Point3 = Point3(x: real, y: real, z: real)
  /** A fitted line: direction (vx, vy) through (x0, y0). */
  datatype Line = Line(vx: real, vy: real, x0: real, y0: real)
  datatype MarkerInfo = MarkerInfo(id: int, corners: seq<Point2>, points: seq<Point3>)

  function ToFloat(p: IntPoint): Point2 { Point2(p.x as real, p.y as real) }

  // ---------------------------------------------------------------------
  // GetCode: the cell pattern
  // ---------------------------------------------------------------------

  /** A cell is active (1) when its mean intensity is at least 128. */
  function CellBit(mean: int): (b: int)
    ensures b == 0 || b == 1
    ensures b == 1 <==> mean >= 128
  {
    if mean < 128 then 0 else 1
  }

  /** The nine cell values, row by row, from the nine cell means. */
  function Cells(means: seq<int>): (v: seq<int>)
    requires |means| == 9
    ensures |v| == 9
  {
    seq(9, k requires 0 <= k < 9 => CellBit(means[k]))
  }

  predicate IsGrid(v: seq<int>) { |v| == 9 && forall k :: 0 <= k < 9 ==> 0 <= v[k] <= 1 }

  function Pow2(e: nat): (r: nat)
    ensures r >= 1
  {
    if e == 0 then 1 else 2 * Pow2(e - 1)
  }

  /** The weight 2^(3-i) of each active cell among the first i of cells 0..3. */
  function PartialCode(v: seq<int>, i: nat): int
    requires i <= 4 && |v| == 9
  {
    if i == 0 then 0 else PartialCode(v, i - 1) + (if v[i - 1] == 1 then Pow2(3 - (i - 1)) else 0)
  }

  /** The number of active cells among the first i of cells 0..3. */
  function PartialOnes(v: seq<int>, i: nat): int
    requires i <= 4 && |v| == 9
  {
    if i == 0 then 0 else PartialOnes(v, i - 1) + (if v[i - 1] == 1 then 1 else 0)
  }

  function Bit(b: int): int { if b == 1 then 1 else 0 }

  /**
   * What GetCode decides for a grid: -1 unless cells 4..7 differ from cells
   * 0..3 pairwise and cell 8 is set exactly when an even number of cells 0..3
   * is set; otherwise the four-bit number read from cells 0..3, most
   * significant first.
   */
  function Decode(v: seq<int>): (code: int)
    requires |v| == 9
    ensures -1 <= code <= 15
    ensures code >= 0 ==> forall i :: 0 <= i < 4 ==> v[i] != v[i + 4]
  {
    var ones := Bit(v[0]) + Bit(v[1]) + Bit(v[2]) + Bit(v[3]);
    if v[0] == v[4] || v[1] == v[5] || v[2] == v[6] || v[3] == v[7] then -1
    else if ones % 2 == 0 && v[8] == 0 then -1
    else if ones % 2 == 1 && v[8] == 1 then -1
    else 8 * Bit(v[0]) + 4 * Bit(v[1]) + 2 * Bit(v[2]) + Bit(v[3])
  }

  /** The grid a marker with the given id carries: id bits, their complements, the parity cell. */
  function GridOf(id: int): (v: seq<int>)
    requires 0 <= id < 16
    ensures IsGrid(v)
  {
    GridOfBits(id / 8 % 2, id / 4 % 2, id / 2 % 2, id % 2)
  }

  /** The grid for the id bits a b c d, most significant first. */
  function GridOfBits(a: int, b: int, c: int, d: int): seq<int>
  {
    [a, b, c, d, 1 - a, 1 - b, 1 - c, 1 - d, if (a + b + c + d) % 2 == 0 then 1 else 0]
  }

  /** Every id 0..15 has a grid that decodes to it. */
  lemma {:induction false} DecodeGridOf(id: int)
    requires 0 <= id < 16
    ensures Decode(GridOf(id)) == id
  {
    var b0, b1, b2, b3 := id / 8 % 2, id / 4 % 2, id / 2 % 2, id % 2;
    assert id == 8 * b0 + 4 * b1 + 2 * b2 + b3;
    var v := GridOf(id);
    assert Bit(v[0]) == b0 && Bit(v[1]) == b1 && Bit(v[2]) == b2 && Bit(v[3]) == b3;
    assert v[0] != v[4] && v[1] != v[5] && v[2] != v[6] && v[3] != v[7];
  }

  /** Reading four bits as a number and taking the bits back out gives the same bits. */
  lemma {:induction false} FourBits(a: int, b: int, c: int, d: int)
    requires 0 <= a <= 1 && 0 <= b <= 1 && 0 <= c <= 1 && 0 <= d <= 1
    ensures var id := 8 * a + 4 * b + 2 * c + d;
      id / 8 % 2 == a && id / 4 % 2 == b && id / 2 % 2 == c && id % 2 == d
  {
  }

  /** A grid is accepted only if it is exactly the grid of the id it decodes to. */
  lemma {:induction false} GridOfDecode(v: seq<int>)
    requires IsGrid(v) && Decode(v) >= 0
    ensures GridOf(Decode(v)) == v
  {
    var a, b, c, d := v[0], v[1], v[2], v[3];
    CellIsBit(a);
    CellIsBit(b);
    CellIsBit(c);
    CellIsBit(d);
    var id := 8 * a + 4 * b + 2 * c + d;
    assert Decode(v) == id;
    FourBits(a, b, c, d);
    assert GridOf(id) == GridOfBits(a, b, c, d);
    assert v[8] == if (a + b + c + d) % 2 == 0 then 1 else 0;
    assert v[4] == 1 - a && v[5] == 1 - b && v[6] == 1 - c && v[7] == 1 - d;
    assert v == GridOfBits(a, b, c, d);
  }

  lemma {:induction false} CellIsBit(x: int)
    requires 0 <= x <= 1
    ensures Bit(x) == x
  {
  }

  /** The example of the source's comment: O X O / X X O / X O X is marker 5. */
  lemma {:induction false} DocumentedExample()
    ensures Decode([0, 1, 0, 1, 1, 0, 1, 0, 1]) == 5
    ensures GridOf(5) == [0, 1, 0, 1, 1, 0, 1, 0, 1]
  {
  }

  /** After all four cells, the running sums are the weighted bits and the count of set cells. */
  lemma {:induction false} PartialSums(v: seq<int>)
    requires |v| == 9
    ensures PartialCode(v, 4) == 8 * Bit(v[0]) + 4 * Bit(v[1]) + 2 * Bit(v[2]) + Bit(v[3])
    ensures PartialOnes(v, 4) == Bit(v[0]) + Bit(v[1]) + Bit(v[2]) + Bit(v[3])
  {
    assert Pow2(3) == 8 && Pow2(2) == 4 && Pow2(1) == 2 && Pow2(0) == 1;
    assert PartialCode(v, 1) == 8 * Bit(v[0]) && PartialOnes(v, 1) == Bit(v[0]);
    assert PartialCode(v, 2) == 8 * Bit(v[0]) + 4 * Bit(v[1]);
    assert PartialCode(v, 3) == 8 * Bit(v[0]) + 4 * Bit(v[1]) + 2 * Bit(v[2]);
    assert PartialOnes(v, 2) == Bit(v[0]) + Bit(v[1]);
    assert PartialOnes(v, 3) == Bit(v[0]) + Bit(v[1]) + Bit(v[2]);
  }

  /**
   * GetCode after the warp: thresholds the nine cell means into vals (row i,
   * column j at j + 3i) and decodes them.
   */
  method GetCode(cellMeans: seq<int>) returns (code: int)
    requires |cellMeans| == 9
    ensures code == Decode(Cells(cellMeans))
  {
    var vals := new int[9];
    for i := 0 to 3
      invariant forall k :: 0 <= k < 3 * i ==> vals[k] == CellBit(cellMeans[k])
    {
      for j := 0 to 3
        invariant forall k :: 0 <= k < 3 * i + j ==> vals[k] == CellBit(cellMeans[k])
      {
        var temp := cellMeans[j + i * 3];
        if temp < 128 {
          vals[j + i * 3] := 0;
        } else if temp >= 128 {
          vals[j + i * 3] := 1;
        }
      }
    }
    assert vals[..] == Cells(cellMeans);

    var ones := 0;
    code := 0;
    for i := 0 to 4
      invariant vals[..] == Cells(cellMeans)
      invariant forall k :: 0 <= k < i ==> vals[k] != vals[k + 4]
      invariant code == PartialCode(vals[..], i)
      invariant ones == PartialOnes(vals[..], i)
    {
      if vals[i] == vals[i + 4] {
        ghost var v := Cells(cellMeans);
        assert v[i] == v[i + 4];
        assert v[0] == v[4] || v[1] == v[5] || v[2] == v[6] || v[3] == v[7];
        return -1;
      } else if vals[i] == 1 {
        code := code + Pow2(3 - i);
        ones := ones + 1;
      }
    }
    PartialSums(vals[..]);
    // (ones / 2 == (float)ones / 2.0) holds exactly for an even count
    if ones % 2 == 0 {
      if vals[8] == 0 {
        return -1;
      }
    }
    if ones % 2 != 0 {
      if vals[8] == 1 {
        return -1;
      }
    }
  }

  // ---------------------------------------------------------------------
  // OrderCorners and the mirrored retry
  // ---------------------------------------------------------------------

  /** The lowest index in [from, n) that is not in the hull, or -1. */
  function LowestOutsideFrom(hull: seq<int>, n: nat, from: nat): (r: int)
    requires from <= n
    ensures r == -1 || (from <= r < n && r !in hull)
    ensures forall k :: from <= k < (if r == -1 then n else r) ==> k in hull
    decreases n - from
  {
    if from == n then -1
    else if from !in hull then from
    else LowestOutsideFrom(hull, n, from + 1)
  }

  function LowestOutside(hull: seq<int>, n: nat): int { LowestOutsideFrom(hull, n, 0) }

  /** The elements of a sequence form a set no larger than the sequence. */
  lemma {:induction false} ElementsCard(s: seq<int>)
    ensures |set x | x in s| <= |s|
  {
    if |s| > 0 {
      ElementsCard(s[1..]);
      assert (set x | x in s) == (set x | x in s[1..]) + {s[0]};
    }
  }

  /** The indices 0 .. n-1 as a set. */
  function IndexSet(n: nat): (r: set<int>)
    ensures |r| == n
    ensures forall k :: k in r <==> 0 <= k < n
  {
    if n == 0 then {} else IndexSet(n - 1) + {n - 1}
  }

  /** Pigeonhole: a hull of fewer than n indices misses some index below n. */
  lemma {:induction false} HullMissesAnIndex(hull: seq<int>, n: nat)
    requires |hull| < n
    ensures 0 <= LowestOutside(hull, n) < n
  {
    if LowestOutside(hull, n) == -1 {
      var elems := set x | x in hull;
      var range := IndexSet(n);
      assert range <= elems;
      assert elems == range + (elems - range);
      assert range * (elems - range) == {};
      ElementsCard(hull);
      assert false;
    }
  }

  /** The cyclic rotation of s that starts at index start. */
  function Rotation<T>(s: seq<T>, start: nat): (r: seq<T>)
    requires start < |s|
    ensures |r| == |s|
  {
    seq(|s|, k requires 0 <= k < |s| => s[(start + k) % |s|])
  }

  /** A rotation is the tail from start followed by the head: same elements, same cyclic order. */
  lemma {:induction false} RotationSplits<T>(s: seq<T>, start: nat)
    requires start < |s|
    ensures Rotation(s, start) == s[start..] + s[..start]
    ensures multiset(Rotation(s, start)) == multiset(s)
  {
    var r := Rotation(s, start);
    forall k | 0 <= k < |s|
      ensures r[k] == (s[start..] + s[..start])[k]
    {
      if start + k < |s| {
        assert (start + k) % |s| == start + k;
      } else {
        assert (start + k) % |s| == start + k - |s|;
      }
    }
    assert s == s[..start] + s[start..];
  }

  /**
   * OrderCorners: fails unless the hull has exactly one index fewer than the
   * corners; otherwise rotates the corners to start at the lowest index that
   * is not on the hull (the marker's concave tip).
   */
  method OrderCorners(corners: seq<Point2>, hull: seq<int>) returns (ok: bool, ordered: seq<Point2>)
    ensures ok <==> |hull| == |corners| - 1
    ensures !ok ==> ordered == corners
    ensures ok ==> (0 <= LowestOutside(hull, |corners|) < |corners| &&
                    ordered == Rotation(corners, LowestOutside(hull, |corners|)))
  {
    ordered := corners;
    if |hull| != |corners| - 1 {
      return false, ordered;
    }
    var n := |corners|;
    HullMissesAnIndex(hull, n);
    ghost var lowest := LowestOutside(hull, n);
    var index := -1;
    for i := 0 to n
      invariant index == -1 && i <= lowest
    {
      var found := false;
      for j := 0 to |hull|
        invariant !found
        invariant forall m :: 0 <= m < j ==> hull[m] != i
      {
        if hull[j] == i {
          found := true;
          break;
        }
      }
      if !found {
        assert i !in hull;
        index := i;
        break;
      }
    }
    assert index == lowest;
    var corners2: seq<Point2> := [];
    for i := 0 to n
      invariant |corners2| == i
      invariant forall k :: 0 <= k < i ==> corners2[k] == corners[(index + k) % n]
    {
      corners2 := corners2 + [corners[(index + i) % n]];
    }
    ordered := corners2;
    return true, ordered;
  }

  function Reverse<T>(s: seq<T>): (r: seq<T>)
    ensures |r| == |s|
    ensures forall k :: 0 <= k < |s| ==> r[k] == s[|s| - 1 - k]
  {
    if s == [] then [] else Reverse(s[1..]) + [s[0]]
  }

  /** reverse(begin() + 1, end()): the first corner stays, the others run backwards. */
  function MirrorTail<T>(s: seq<T>): (r: seq<T>)
    requires |s| >= 1
    ensures |r| == |s|
  {
    [s[0]] + Reverse(s[1..])
  }

  /** Mirroring keeps the tip first, visits the other corners in the opposite cyclic direction, and undoes itself. */
  lemma {:induction false} MirrorTailSpec<T>(s: seq<T>)
    requires |s| >= 1
    ensures MirrorTail(s)[0] == s[0]
    ensures forall k :: 1 <= k < |s| ==> MirrorTail(s)[k] == s[|s| - k]
    ensures MirrorTail(MirrorTail(s)) == s
    ensures multiset(MirrorTail(s)) == multiset(s)
  {
    var r := MirrorTail(s);
    assert forall k :: 1 <= k < |s| ==> r[k] == Reverse(s[1..])[k - 1];
    assert MirrorTail(r) == s;
    ReverseMultiset(s[1..]);
    assert s == [s[0]] + s[1..];
  }

  lemma {:induction false} ReverseMultiset<T>(s: seq<T>)
    ensures multiset(Reverse(s)) == multiset(s)
  {
    if s != [] {
      ReverseMultiset(s[1..]);
      assert s == [s[0]] + s[1..];
    }
  }

  // ---------------------------------------------------------------------
  // CornersSubPix: the contour segment between consecutive corners
  // ---------------------------------------------------------------------

  /** Every corner is one of the contour's points (approxPolyDP keeps contour vertices). */
  predicate OnContour(corners: seq<Point2>, contour: seq<IntPoint>)
  {
    forall i :: 0 <= i < |corners| ==> AtContour(corners[i], contour)
  }

  predicate AtContour(c: Point2, contour: seq<IntPoint>)
  {
    exists j :: 0 <= j < |contour| && ToFloat(contour[j]) == c
  }

  function FirstMatchFrom(c: Point2, contour: seq<IntPoint>, from: nat): (j: nat)
    requires from <= |contour|
    requires exists j :: from <= j < |contour| && ToFloat(contour[j]) == c
    ensures from <= j < |contour| && ToFloat(contour[j]) == c
    ensures forall m :: from <= m < j ==> ToFloat(contour[m]) != c
    decreases |contour| - from
  {
    if ToFloat(contour[from]) == c then from else FirstMatchFrom(c, contour, from + 1)
  }

  /** The contour index recorded for a corner: its first occurrence in the contour. */
  function CornerIndex(c: Point2, contour: seq<IntPoint>): (j: nat)
    requires AtContour(c, contour)
    ensures j < |contour| && ToFloat(contour[j]) == c
    ensures forall m :: 0 <= m < j ==> ToFloat(contour[m]) != c
  {
    FirstMatchFrom(c, contour, 0)
  }

  /** Adding less than n to an index below n wraps at most once. */
  lemma {:induction false} WrapOnce(a: int, k: int, n: int)
    requires 0 <= a < n && 0 <= k <= n
    ensures (a + k) % n == if a + k < n then a + k else a + k - n
  {
  }

  /**
   * The points of contour[index1 .. index2), wrapping around the end of the
   * contour when index1 >= index2.
   */
  function Segment(contour: seq<IntPoint>, index1: nat, index2: nat): (seg: seq<IntPoint>)
    requires index1 < |contour| && index2 < |contour|
    ensures |seg| == if index1 < index2 then index2 - index1 else index2 + |contour| - index1
  {
    if index1 < index2 then contour[index1..index2] else contour[index1..] + contour[..index2]
  }

  /** A segment walks the contour forwards from index1, wrapping past its end. */
  lemma {:induction false} SegmentWalksForward(contour: seq<IntPoint>, index1: nat, index2: nat)
    requires index1 < |contour| && index2 < |contour|
    ensures var seg := Segment(contour, index1, index2);
      forall k :: 0 <= k < |seg| ==> seg[k] == contour[(index1 + k) % |contour|]
  {
    var seg := Segment(contour, index1, index2);
    forall k | 0 <= k < |seg|
      ensures seg[k] == contour[(index1 + k) % |contour|]
    {
      WrapOnce(index1, k, |contour|);
    }
  }

  /** The segment of edge i: from corner i to corner i + 1, or backwards when the order is mirrored. */
  function EdgeSegment(corners: seq<Point2>, contour: seq<IntPoint>, order: bool, i: nat): seq<IntPoint>
    requires OnContour(corners, contour) && i < |corners|
  {
    var a := CornerIndex(corners[i], contour);
    var b := CornerIndex(corners[(i + 1) % |corners|], contour);
    if order then Segment(contour, a, b) else Segment(contour, b, a)
  }

  /** The cyclic predecessor of index k among n. */
  function Previous(k: nat, n: nat): (r: nat)
    requires k < n
    ensures r < n
  {
    (k + n - 1) % n
  }

  /**
   * The refined corners: corner k is the intersection of the lines fitted to
   * edge k and edge k - 1 (cyclically).
   */
  function SubPixCorners(corners: seq<Point2>, contour: seq<IntPoint>, order: bool,
                         fitLine: seq<IntPoint> -> Line, intersect: (Line, Line) -> Point2): (r: seq<Point2>)
    requires OnContour(corners, contour) && |corners| > 0
    ensures |r| == |corners|
  {
    var n := |corners|;
    seq(n, k requires 0 <= k < n =>
      intersect(fitLine(EdgeSegment(corners, contour, order, k)),
                fitLine(EdgeSegment(corners, contour, order, Previous(k, n)))))
  }

  /** The first loop of CornersSubPix: each corner's first index in the contour. */
  method CornerIndices(corners: seq<Point2>, contour: seq<IntPoint>) returns (indices: array<nat>)
    requires OnContour(corners, contour)
    ensures fresh(indices) && indices.Length == |corners|
    ensures forall k :: 0 <= k < |corners| ==> indices[k] == CornerIndex(corners[k], contour)
  {
    var n := |corners|;
    indices := new nat[n](_ => 0);
    for i := 0 to n
      invariant forall k :: 0 <= k < i ==> indices[k] == CornerIndex(corners[k], contour)
    {
      ghost var first := CornerIndex(corners[i], contour);
      for j := 0 to |contour|
        invariant j <= first
        invariant forall k :: 0 <= k < i ==> indices[k] == CornerIndex(corners[k], contour)
      {
        if corners[i].x == contour[j].x as real && corners[i].y == contour[j].y as real {
          indices[i] := j;
          break;
        }
      }
    }
  }

  /** The second loop of CornersSubPix: the contour segment of every edge. */
  method EdgeSegments(corners: seq<Point2>, contour: seq<IntPoint>, order: bool, indices: array<nat>)
    returns (pts: seq<seq<IntPoint>>)
    requires OnContour(corners, contour) && |corners| > 0
    requires indices.Length == |corners|
    requires forall k :: 0 <= k < |corners| ==> indices[k] == CornerIndex(corners[k], contour)
    ensures |pts| == |corners|
    ensures forall k :: 0 <= k < |corners| ==> pts[k] == EdgeSegment(corners, contour, order, k)
  {
    var n := |corners|;
    pts := [];
    for i := 0 to n
      invariant |pts| == i
      invariant forall k :: 0 <= k < i ==> pts[k] == EdgeSegment(corners, contour, order, k)
    {
      var index1, index2;
      if order {
        index1 := indices[i];
        index2 := indices[(i + 1) % n];
      } else {
        index1 := indices[(i + 1) % n];
        index2 := indices[i];
      }
      var segment;
      if index1 < index2 {
        segment := contour[index1..index2];
      } else {
        segment := contour[index1..] + contour[..index2];
      }
      assert segment == EdgeSegment(corners, contour, order, i);
      pts := pts + [segment];
    }
  }

  /**
   * The last loop of CornersSubPix: for i from n - 1 to 2n - 2, the
   * intersection of line (i + 1) mod n with line i mod n, so that corner k
   * lies between line k and its predecessor.
   */
  method IntersectNeighbours(lines: seq<Line>, intersect: (Line, Line) -> Point2) returns (corners2: seq<Point2>)
    requires |lines| > 0
    ensures |corners2| == |lines|
    ensures forall k :: 0 <= k < |lines| ==> corners2[k] == intersect(lines[k], lines[Previous(k, |lines|)])
  {
    var n := |lines|;
    corners2 := [];
    for i := n - 1 to 2 * n - 1
      invariant |corners2| == i - (n - 1)
      invariant forall k :: 0 <= k < |corners2| ==>
        corners2[k] == intersect(lines[k], lines[Previous(k, n)])
    {
      ghost var k := i - (n - 1);
      WrapOnce(k, n, n);
      assert i % n == Previous(k, n);
      var corner := intersect(lines[(i + 1) % n], lines[i % n]);
      assert corner == intersect(lines[k], lines[Previous(k, n)]);
      corners2 := corners2 + [corner];
    }
  }

  /**
   * CornersSubPix: finds each corner's first contour index, cuts the contour
   * into the segments between consecutive corners, fits a line to each and
   * intersects neighbouring lines. The line fit and the intersection
   * (fitLine, GetIntersection) are inputs.
   */
  method CornersSubPix(corners: seq<Point2>, contour: seq<IntPoint>, order: bool,
                       fitLine: seq<IntPoint> -> Line, intersect: (Line, Line) -> Point2)
    returns (refined: seq<Point2>)
    requires OnContour(corners, contour) && |corners| > 0
    ensures refined == SubPixCorners(corners, contour, order, fitLine, intersect)
  {
    var n := |corners|;
    var indices := CornerIndices(corners, contour);
    var pts := EdgeSegments(corners, contour, order, indices);

    var lines: seq<Line> := [];
    for i := 0 to n
      invariant |lines| == i
      invariant forall k :: 0 <= k < i ==> lines[k] == fitLine(pts[k])
    {
      lines := lines + [fitLine(pts[i])];
    }

    var corners2 := IntersectNeighbours(lines, intersect);
    ghost var spec := SubPixCorners(corners, contour, order, fitLine, intersect);
    forall k | 0 <= k < n
      ensures corners2[k] == spec[k]
    {
      assert lines[k] == fitLine(EdgeSegment(corners, contour, order, k));
      assert lines[Previous(k, n)] == fitLine(EdgeSegment(corners, contour, order, Previous(k, n)));
    }
    refined := corners2;
  }

  // ---------------------------------------------------------------------
  // GetMarkerPoints and the warp template
  // ---------------------------------------------------------------------

  /** GetMarkerPointsForWarp: the marker outline in the warp's 2D template frame. */
  function WarpPoints(): (r: seq<Point2>)
    ensures |r| == MarkerCorners
  {
    [Point2(0.0, 1.0), Point2(-1.0, 1.6667), Point2(-1.0, -1.0), Point2(1.0, -1.0), Point2(1.0, 1.6667)]
  }

  /**
   * GetMarkerPoints: appends the five 3D marker points. They are the warp
   * template reflected in the x axis and placed in the plane z = 0, so the
   * detected corner k corresponds to model point k.
   */
  method GetMarkerPoints(pts: seq<Point3>) returns (r: seq<Point3>)
    ensures |r| == |pts| + MarkerCorners && r[..|pts|] == pts
    ensures forall k :: 0 <= k < MarkerCorners ==>
      r[|pts| + k] == Point3(WarpPoints()[k].x, -WarpPoints()[k].y, 0.0)
  {
    r := pts;
    r := r + [Point3(0.0, -1.0, 0.0)];
    r := r + [Point3(-1.0, -1.6667, 0.0)];
    r := r + [Point3(-1.0, 1.0, 0.0)];
    r := r + [Point3(1.0, 1.0, 0.0)];
    r := r + [Point3(1.0, -1.6667, 0.0)];
  }

  /** The five model points GetMarkerPoints appends to an empty vector. */
  function MarkerPoints(): (r: seq<Point3>)
    ensures |r| == MarkerCorners
  {
    seq(MarkerCorners, k requires 0 <= k < MarkerCorners => Point3(WarpPoints()[k].x, -WarpPoints()[k].y, 0.0))
  }

  // ---------------------------------------------------------------------
  // GetMarker: candidate filter, mirrored retry, largest marker
  // ---------------------------------------------------------------------

  /** What OpenCV reports about one contour of the thresholded image. */
  datatype Candidate = Candidate(
    contour: seq<IntPoint>,  // the contour's points (findContours)
    area: real,              // contourArea of the contour
    approx: seq<IntPoint>,   // approxPolyDP vertices
    convex: bool,            // isContourConvex of those vertices
    hull: seq<int>)          // convexHull indices of those vertices

  /**
   * The image-dependent OpenCV steps: the nine cell means GetCode samples
   * for a given corner order (homography, warp and integral image), the line
   * fit, the line intersection and the hull area of a marker's corners.
   */
  datatype Vision = Vision(
    cellMeans: seq<Point2> -> seq<int>,
    fitLine: seq<IntPoint> -> Line,
    intersect: (Line, Line) -> Point2,
    hullArea: seq<Point2> -> real)

  ghost predicate WellFormedVision(v: Vision)
  {
    (forall c :: |v.cellMeans(c)| == 9) && (forall c :: v.hullArea(c) >= 0.0)
  }

  function Floats(ps: seq<IntPoint>): (r: seq<Point2>)
    ensures |r| == |ps|
  {
    seq(|ps|, k requires 0 <= k < |ps| => ToFloat(ps[k]))
  }

  /** approxPolyDP returns vertices of the contour it approximates. */
  predicate WellFormedCandidate(c: Candidate) { OnContour(Floats(c.approx), c.contour) }

  /** GetMarkerArea: the area of the convex hull of the marker's corners. */
  function MarkerArea(v: Vision, m: MarkerInfo): real { v.hullArea(m.corners) }

  /** Reordering corners among themselves keeps them on the contour. */
  lemma {:induction false} OnContourReordered(s: seq<Point2>, t: seq<Point2>, contour: seq<IntPoint>)
    requires OnContour(s, contour)
    requires forall i :: 0 <= i < |t| ==> t[i] in s
    ensures OnContour(t, contour)
  {
    forall i | 0 <= i < |t|
      ensures AtContour(t[i], contour)
    {
      var k :| 0 <= k < |s| && t[i] == s[k];
    }
  }

  lemma {:induction false} OnContourRotation(s: seq<Point2>, start: nat, contour: seq<IntPoint>)
    requires OnContour(s, contour) && start < |s|
    ensures OnContour(Rotation(s, start), contour)
  {
    var t := Rotation(s, start);
    forall i | 0 <= i < |t|
      ensures t[i] in s
    {
      assert t[i] == s[(start + i) % |s|];
    }
    OnContourReordered(s, t, contour);
  }

  lemma {:induction false} OnContourMirror(s: seq<Point2>, contour: seq<IntPoint>)
    requires OnContour(s, contour) && |s| >= 1
    ensures OnContour(MirrorTail(s), contour)
  {
    var t := MirrorTail(s);
    MirrorTailSpec(s);
    forall i | 0 <= i < |t|
      ensures t[i] in s
    {
      if i == 0 {
        assert t[i] == s[0];
      } else {
        assert t[i] == s[|s| - i];
      }
    }
    OnContourReordered(s, t, contour);
  }

  /**
   * The marker one contour yields, if any: its area must lie in
   * [MinSize, MaxSize], its polygon must be non-convex with five vertices and
   * orderable; the ordered corners are decoded, and if that fails the
   * mirrored corners are decoded once more (a mirrored marker refines its
   * edges in the opposite direction).
   */
  function Detect(c: Candidate, v: Vision): Option<MarkerInfo>
    requires WellFormedVision(v) && WellFormedCandidate(c)
  {
    var cornersFloat := Floats(c.approx);
    if c.area < MinSize || c.area > MaxSize then None
    else if c.convex || |c.approx| != MarkerCorners || |c.hull| != |cornersFloat| - 1 then None
    else
      HullMissesAnIndex(c.hull, |cornersFloat|);
      var ordered := Rotation(cornersFloat, LowestOutside(c.hull, |cornersFloat|));
      OnContourRotation(cornersFloat, LowestOutside(c.hull, |cornersFloat|), c.contour);
      var code := Decode(Cells(v.cellMeans(ordered)));
      if code >= 0 then
        Some(MarkerInfo(code, SubPixCorners(ordered, c.contour, true, v.fitLine, v.intersect), MarkerPoints()))
      else
        var mirrored := MirrorTail(ordered);
        OnContourMirror(ordered, c.contour);
        var code2 := Decode(Cells(v.cellMeans(mirrored)));
        if code2 < 0 then None
        else Some(MarkerInfo(code2, SubPixCorners(mirrored, c.contour, false, v.fitLine, v.intersect), MarkerPoints()))
  }

  /** The markers found in the contours, in contour order. */
  function Detected(cs: seq<Candidate>, v: Vision): (ms: seq<MarkerInfo>)
    requires WellFormedVision(v)
    requires forall i :: 0 <= i < |cs| ==> WellFormedCandidate(cs[i])
    ensures |ms| <= |cs|
  {
    if cs == [] then []
    else
      var last := Detect(cs[|cs| - 1], v);
      Detected(cs[..|cs| - 1], v) + (if last.Some? then [last.value] else [])
  }

  /** The area, convexity and corner-count filters GetMarker applies before it orders the corners. */
  predicate PassesFilters(c: Candidate)
  {
    MinSize <= c.area <= MaxSize && !c.convex && |c.approx| == MarkerCorners && |c.hull| == |c.approx| - 1
  }

  /** The candidate's corners in OrderCorners' order: starting at the one vertex outside the hull. */
  function OrderedCorners(c: Candidate): (r: seq<Point2>)
    requires PassesFilters(c)
    ensures |r| == MarkerCorners
  {
    HullMissesAnIndex(c.hull, |c.approx|);
    Rotation(Floats(c.approx), LowestOutside(c.hull, |c.approx|))
  }

  /**
   * A contour yields a marker exactly when it passes the filters and its
   * ordered or its mirrored corners decode; the id is the first decode, or the
   * mirrored one when the first fails.
   */
  lemma {:induction false} DetectPassesFilters(c: Candidate, v: Vision)
    requires WellFormedVision(v) && WellFormedCandidate(c)
    ensures Detect(c, v).Some? <==>
      PassesFilters(c) &&
      (Decode(Cells(v.cellMeans(OrderedCorners(c)))) >= 0 ||
       Decode(Cells(v.cellMeans(MirrorTail(OrderedCorners(c))))) >= 0)
    ensures Detect(c, v).Some? ==>
      var first := Decode(Cells(v.cellMeans(OrderedCorners(c))));
      Detect(c, v).value.id ==
        (if first >= 0 then first else Decode(Cells(v.cellMeans(MirrorTail(OrderedCorners(c))))))
  {
  }

  /** Some contour of the list yields the marker. */
  predicate YieldedBy(cs: seq<Candidate>, v: Vision, m: MarkerInfo)
    requires WellFormedVision(v)
  {
    exists i :: 0 <= i < |cs| && WellFormedCandidate(cs[i]) && Detect(cs[i], v) == Some(m)
  }

  /**
   * Every detected marker is what Detect gives for one of the contours, so it
   * passed the filters; it has a valid id and five refined corners.
   */
  lemma {:induction false} DetectedMarkersAreValid(cs: seq<Candidate>, v: Vision)
    requires WellFormedVision(v)
    requires forall i :: 0 <= i < |cs| ==> WellFormedCandidate(cs[i])
    ensures forall k :: 0 <= k < |Detected(cs, v)| ==>
      0 <= Detected(cs, v)[k].id <= 15 && |Detected(cs, v)[k].corners| == MarkerCorners &&
      Detected(cs, v)[k].points == MarkerPoints()
    ensures forall k :: 0 <= k < |Detected(cs, v)| ==> YieldedBy(cs, v, Detected(cs, v)[k])
  {
    if cs != [] {
      var front := cs[..|cs| - 1];
      DetectedMarkersAreValid(front, v);
      var ms := Detected(cs, v);
      forall k | 0 <= k < |ms|
        ensures 0 <= ms[k].id <= 15 && |ms[k].corners| == MarkerCorners && ms[k].points == MarkerPoints()
        ensures YieldedBy(cs, v, ms[k])
      {
        if k < |Detected(front, v)| {
          assert ms[k] == Detected(front, v)[k];
          var i :| 0 <= i < |front| && WellFormedCandidate(front[i]) && Detect(front[i], v) == Some(ms[k]);
          assert front[i] == cs[i];
        } else {
          assert Detect(cs[|cs| - 1], v) == Some(ms[k]);
        }
      }
    }
  }

  /**
   * GetMarker over the contours OpenCV found: collects every candidate that
   * decodes, then returns the first one of strictly largest hull area (the
   * search starts from area 0). With no candidate the marker argument is
   * left as it was and the result is false.
   */
  method GetMarker(candidates: seq<Candidate>, v: Vision, marker0: MarkerInfo) returns (found: bool, marker: MarkerInfo)
    requires WellFormedVision(v)
    requires forall i :: 0 <= i < |candidates| ==> WellFormedCandidate(candidates[i])
    ensures found <==> |Detected(candidates, v)| > 0
    ensures !found ==> marker == marker0
    ensures found ==> exists m :: (0 <= m < |Detected(candidates, v)| && marker == Detected(candidates, v)[m] &&
                                  (forall k :: 0 <= k < |Detected(candidates, v)| ==>
                                     MarkerArea(v, Detected(candidates, v)[k]) <= MarkerArea(v, marker)) &&
                                  (forall k :: 0 <= k < m ==>
                                     MarkerArea(v, Detected(candidates, v)[k]) < MarkerArea(v, marker)))
  {
    var markers: seq<MarkerInfo> := [];
    for i := 0 to |candidates|
      invariant markers == Detected(candidates[..i], v)
    {
      assert candidates[..i + 1][..i] == candidates[..i];
      var ok, m := DetectCandidate(candidates[i], v);
      if ok {
        markers := markers + [m];
      }
    }
    assert candidates[..|candidates|] == candidates;
    if |markers| > 0 {
      var maxInd := LargestMarker(markers, v);
      return true, markers[maxInd];
    }
    return false, marker0;
  }

  /** The body of GetMarker's contour loop: the marker one contour yields, if any. */
  method DetectCandidate(c: Candidate, v: Vision) returns (ok: bool, marker: MarkerInfo)
    requires WellFormedVision(v) && WellFormedCandidate(c)
    ensures ok <==> Detect(c, v).Some?
    ensures ok ==> marker == Detect(c, v).value
  {
    ok := false;
    marker := MarkerInfo(0, [], []);
    if c.area < MinSize || c.area > MaxSize {
      return;
    }
    var cornersFloat := ToFloats(c.approx);
    if !c.convex && |c.approx| == MarkerCorners {
      var ordered;
      ok, ordered := OrderCorners(cornersFloat, c.hull);
      if ok {
        OnContourRotation(cornersFloat, LowestOutside(c.hull, |cornersFloat|), c.contour);
        var order := true;
        var corners := ordered;
        var code := GetCode(v.cellMeans(corners));
        if code < 0 {
          corners := MirrorTail(ordered);
          OnContourMirror(ordered, c.contour);
          code := GetCode(v.cellMeans(corners));
          if code < 0 {
            ok := false;
            return;
          }
          order := false;
        }
        var refined := CornersSubPix(corners, c.contour, order, v.fitLine, v.intersect);
        var points3D := GetMarkerPoints([]);
        assert points3D == MarkerPoints();
        marker := MarkerInfo(code, refined, points3D);
      }
    }
  }

  /** The loop converting the approximated polygon's integer vertices to floating point. */
  method ToFloats(approx: seq<IntPoint>) returns (cornersFloat: seq<Point2>)
    ensures cornersFloat == Floats(approx)
  {
    cornersFloat := [];
    for j := 0 to |approx|
      invariant |cornersFloat| == j
      invariant forall k :: 0 <= k < j ==> cornersFloat[k] == ToFloat(approx[k])
    {
      cornersFloat := cornersFloat + [ToFloat(approx[j])];
    }
  }

  /**
   * GetMarker's search for the largest marker: the first index of strictly
   * largest hull area, starting from area 0.
   */
  method LargestMarker(markers: seq<MarkerInfo>, v: Vision) returns (maxInd: nat)
    requires |markers| > 0 && WellFormedVision(v)
    ensures maxInd < |markers|
    ensures forall k :: 0 <= k < |markers| ==> MarkerArea(v, markers[k]) <= MarkerArea(v, markers[maxInd])
    ensures forall k :: 0 <= k < maxInd ==> MarkerArea(v, markers[k]) < MarkerArea(v, markers[maxInd])
  {
    var maxArea := 0.0;
    maxInd := 0;
    for i := 0 to |markers|
      invariant 0 <= maxInd < |markers| && maxInd <= i
      invariant maxArea == MarkerArea(v, markers[maxInd]) || (maxArea == 0.0 && maxInd == 0)
      invariant forall k :: 0 <= k < i ==> MarkerArea(v, markers[k]) <= maxArea
      invariant forall k :: 0 <= k < maxInd ==> MarkerArea(v, markers[k]) < maxArea
    {
      if MarkerArea(v, markers[i]) > maxArea {
        maxInd := i;
        maxArea := MarkerArea(v, markers[i]);
      }
    }
  }
}
