/**
 * The live client's frame compaction (LiveScanClient::StoreFrame): every
 * pixel's camera-space point is checked for validity, optionally moved into
 * world space and clipped to the bounding box, and the surviving points and
 * their colours are copied, in scan order, into dense vectors.
 */
module ClientFrame {
  import opened Bytes
  import opened Points

  /** Points nearer than this (in the source's units) are the resizer's "no depth" pixels. */
  const MinDepth: real := 0.0001

  /**
   * The client state StoreFrame consults. `rotate` is RotatePoint applied with
   * the calibration's rotation (float code outside this model); `defaultPoint`
   * is what a default-constructed Point3f holds (its constructor is not part of
   * this model).
   */
  datatype StoreParams = StoreParams(
    streamOnlyBodies: bool,
    nBodies: nat,
    calibrated: bool,
    worldT: Vec3,
    rotate: Point3f -> Point3f,
    bounds: seq<real>,
    defaultPoint: Point3f)

  predicate WellFormedParams(prm: StoreParams) { |prm.bounds| == 6 }

  /** What the first loop decides for one pixel. */
  datatype Verdict = Skipped | Rejected | Kept(p: Point3f)

  function Translate(p: Point3f, t: Vec3): Point3f
  {
    p.(x := p.x + t.x, y := p.y + t.y, z := p.z + t.z)
  }

  predicate SkippedAt(prm: StoreParams, bodyIndex: seq<byte>, i: nat)
    requires prm.streamOnlyBodies ==> i < |bodyIndex|
  {
    prm.streamOnlyBodies && bodyIndex[i] >= prm.nBodies
  }

  function Classify(prm: StoreParams, skip: bool, p: Point3f, c: RGB): Verdict
    requires WellFormedParams(prm)
  {
    if skip then Skipped
    else if p.z >= MinDepth && c.reserved == 255 then
      if prm.calibrated then
        var t := prm.rotate(Translate(p, prm.worldT));
        if OutsideBox(t, prm.bounds) then Rejected else Kept(t)
      else Kept(p)
    else Rejected
  }

  /** The entry AllVertices holds for a verdict. */
  function Written(prm: StoreParams, v: Verdict): Point3f
  {
    match v
    case Skipped => prm.defaultPoint
    case Rejected => InvalidPoint
    case Kept(t) => t
  }

  predicate InputsFit(prm: StoreParams, vertices: seq<Point3f>, colors: seq<RGB>, bodyIndex: seq<byte>)
  {
    WellFormedParams(prm) && |colors| >= |vertices| &&
    (prm.streamOnlyBodies ==> |bodyIndex| >= |vertices|)
  }

  function VerdictAt(prm: StoreParams, vertices: seq<Point3f>, colors: seq<RGB>, bodyIndex: seq<byte>, i: nat): Verdict
    requires InputsFit(prm, vertices, colors, bodyIndex) && i < |vertices|
  {
    Classify(prm, SkippedAt(prm, bodyIndex, i), vertices[i], colors[i])
  }

  /** Indices below n whose verdict is Kept: the ones goodVerticesCount counts. */
  function KeptIndicesUpTo(prm: StoreParams, vertices: seq<Point3f>, colors: seq<RGB>, bodyIndex: seq<byte>, n: nat): (idx: seq<nat>)
    requires InputsFit(prm, vertices, colors, bodyIndex) && n <= |vertices|
    ensures |idx| <= n
    ensures forall k :: 0 <= k < |idx| ==> idx[k] < n
  {
    if n == 0 then []
    else
      var tail := if VerdictAt(prm, vertices, colors, bodyIndex, n - 1).Kept? then [n - 1] else [];
      KeptIndicesUpTo(prm, vertices, colors, bodyIndex, n - 1) + tail
  }

  /**
   * The vertex rule: a pixel that is not skipped becomes the invalid point
   * unless its depth is at least MinDepth and its colour's reserved byte is 255;
   * when uncalibrated, a pixel passing both tests is kept as it is.
   */
  lemma {:induction false} VertexRule(prm: StoreParams, p: Point3f, c: RGB)
    requires WellFormedParams(prm)
    ensures !(p.z >= MinDepth && c.reserved == 255) ==> Written(prm, Classify(prm, false, p, c)) == InvalidPoint
    ensures p.z >= MinDepth && c.reserved == 255 && !prm.calibrated ==> Classify(prm, false, p, c) == Kept(p)
  {
  }

  /**
   * The box is applied only when calibrated, after translate-then-rotate, and is
   * inclusive: the point is rejected exactly when the transformed point lies
   * strictly outside some bound.
   */
  lemma {:induction false} BoxRule(prm: StoreParams, p: Point3f, c: RGB)
    requires WellFormedParams(prm) && prm.calibrated
    requires p.z >= MinDepth && c.reserved == 255
    ensures var t := prm.rotate(Translate(p, prm.worldT));
      var b := prm.bounds;
      (Classify(prm, false, p, c) == Kept(t)) <==>
        (b[0] <= t.x <= b[3] && b[1] <= t.y <= b[4] && b[2] <= t.z <= b[5])
    ensures var t := prm.rotate(Translate(p, prm.worldT));
      !Classify(prm, false, p, c).Kept? ==> Classify(prm, false, p, c) == Rejected
  {
  }

  /** StoreFrame's first loop: fill AllVertices and count the kept pixels. */
  method MarkVertices(prm: StoreParams, vertices: seq<Point3f>, colors: seq<RGB>, bodyIndex: seq<byte>)
    returns (all: array<Point3f>, goodCount: nat)
    requires InputsFit(prm, vertices, colors, bodyIndex)
    ensures all.Length == |vertices|
    ensures forall i :: 0 <= i < |vertices| ==> all[i] == Written(prm, VerdictAt(prm, vertices, colors, bodyIndex, i))
    ensures goodCount == |KeptIndicesUpTo(prm, vertices, colors, bodyIndex, |vertices|)|
  {
    all := new Point3f[|vertices|](_ => prm.defaultPoint);
    goodCount := 0;
    for v := 0 to |vertices|
      invariant forall i :: 0 <= i < v ==> all[i] == Written(prm, VerdictAt(prm, vertices, colors, bodyIndex, i))
      invariant forall i :: v <= i < |vertices| ==> all[i] == prm.defaultPoint
      invariant goodCount == |KeptIndicesUpTo(prm, vertices, colors, bodyIndex, v)|
    {
      if prm.streamOnlyBodies && bodyIndex[v] >= prm.nBodies {
        continue;
      }
      if vertices[v].z >= MinDepth && colors[v].reserved == 255 {
        var temp := vertices[v];
        if prm.calibrated {
          temp := Translate(temp, prm.worldT);
          temp := prm.rotate(temp);
          if OutsideBox(temp, prm.bounds) {
            all[v] := InvalidPoint;
            continue;
          }
        }
        all[v] := temp;
        goodCount := goodCount + 1;
      } else {
        all[v] := InvalidPoint;
      }
    }
  }

  /**
   * StoreFrame's second loop: goodVertices and goodColorPoints are sized by the
   * count of the first loop and receive, in scan order, every non-invalid entry
   * of AllVertices and the colour at the same index. Entries beyond the number of
   * valid points keep their default value. (A count below the number of valid
   * entries would write out of bounds in the source, hence the requires.)
   */
  method CompactValid(all: array<Point3f>, colors: seq<RGB>, count: nat, defaultPoint: Point3f)
    returns (good: array<Point3f>, goodColors: array<RGB>)
    requires |colors| >= all.Length
    requires |ValidIndices(all[..])| <= count
    ensures good.Length == count && goodColors.Length == count
    ensures var idx := ValidIndices(all[..]);
      (forall k :: 0 <= k < |idx| ==> good[k] == all[idx[k]] && goodColors[k] == colors[idx[k]]) &&
      (forall k :: |idx| <= k < count ==> good[k] == defaultPoint && goodColors[k] == ZeroRGB)
  {
    good := new Point3f[count](_ => defaultPoint);
    goodColors := new RGB[count](_ => ZeroRGB);
    ghost var s := all[..];
    var counter := 0;
    for i := 0 to all.Length
      invariant counter == |ValidIndicesUpTo(s, i)| <= count
      invariant forall k :: 0 <= k < counter ==>
        good[k] == s[ValidIndicesUpTo(s, i)[k]] && goodColors[k] == colors[ValidIndicesUpTo(s, i)[k]]
      invariant forall k :: counter <= k < count ==> good[k] == defaultPoint && goodColors[k] == ZeroRGB
    {
      counter := CompactOne(all, colors, count, defaultPoint, good, goodColors, i, counter, s);
    }
  }

  /** One turn of CompactValid's loop: the invariant at i becomes the invariant at i + 1. */
  method CompactOne(all: array<Point3f>, colors: seq<RGB>, count: nat, defaultPoint: Point3f,
                    good: array<Point3f>, goodColors: array<RGB>, i: nat, counter: nat, ghost s: seq<Point3f>)
    returns (next: nat)
    requires s == all[..] && i < |s| && |colors| >= |s|
    requires good.Length == count && goodColors.Length == count && |ValidIndices(s)| <= count
    requires counter == |ValidIndicesUpTo(s, i)| <= count
    requires forall k :: 0 <= k < counter ==>
      good[k] == s[ValidIndicesUpTo(s, i)[k]] && goodColors[k] == colors[ValidIndicesUpTo(s, i)[k]]
    requires forall k :: counter <= k < count ==> good[k] == defaultPoint && goodColors[k] == ZeroRGB
    modifies good, goodColors
    ensures next == |ValidIndicesUpTo(s, i + 1)| <= count
    ensures forall k :: 0 <= k < next ==>
      good[k] == s[ValidIndicesUpTo(s, i + 1)[k]] && goodColors[k] == colors[ValidIndicesUpTo(s, i + 1)[k]]
    ensures forall k :: next <= k < count ==> good[k] == defaultPoint && goodColors[k] == ZeroRGB
  {
    ValidIndicesUpToMonotone(s, i + 1, |s|);
    next := counter;
    if !all[i].invalid {
      good[counter] := all[i];
      goodColors[counter] := colors[i];
      next := counter + 1;
    }
  }

  /**
   * When no entry of AllVertices can be valid without having been counted (skipped
   * pixels default to invalid, camera points arrive unflagged, and RotatePoint
   * yields unflagged points), the valid entries are exactly the kept pixels, so
   * the compacted vectors hold exactly the kept points in scan order.
   */
  lemma {:induction false} ValidAreKept(prm: StoreParams, vertices: seq<Point3f>, colors: seq<RGB>, bodyIndex: seq<byte>, all: seq<Point3f>, n: nat)
    requires InputsFit(prm, vertices, colors, bodyIndex)
    requires |all| == |vertices| && n <= |vertices|
    requires forall i :: 0 <= i < |vertices| ==> all[i] == Written(prm, VerdictAt(prm, vertices, colors, bodyIndex, i))
    requires prm.streamOnlyBodies ==> prm.defaultPoint.invalid
    requires forall i :: 0 <= i < |vertices| ==> !vertices[i].invalid
    requires prm.calibrated ==> forall p :: !prm.rotate(p).invalid
    ensures ValidIndicesUpTo(all, n) == KeptIndicesUpTo(prm, vertices, colors, bodyIndex, n)
  {
    if n > 0 {
      ValidAreKept(prm, vertices, colors, bodyIndex, all, n - 1);
    }
  }

  /**
   * The compaction of StoreFrame, both loops together (before the optional
   * outlier filter): under the conditions of ValidAreKept the result holds
   * exactly the kept points, in scan order, each with the colour of its own
   * pixel, and nothing else; it may be empty (there is no sentinel).
   */
  method CompactFrame(prm: StoreParams, vertices: seq<Point3f>, colors: seq<RGB>, bodyIndex: seq<byte>)
    returns (good: array<Point3f>, goodColors: array<RGB>)
    requires InputsFit(prm, vertices, colors, bodyIndex)
    requires prm.streamOnlyBodies ==> prm.defaultPoint.invalid
    requires forall i :: 0 <= i < |vertices| ==> !vertices[i].invalid
    requires prm.calibrated ==> forall p :: !prm.rotate(p).invalid
    ensures var kept := KeptIndicesUpTo(prm, vertices, colors, bodyIndex, |vertices|);
      good.Length == |kept| && goodColors.Length == |kept| &&
      forall k :: 0 <= k < |kept| ==>
        VerdictAt(prm, vertices, colors, bodyIndex, kept[k]) == Kept(good[k]) &&
        goodColors[k] == colors[kept[k]]
  {
    var all, count := MarkVertices(prm, vertices, colors, bodyIndex);
    ValidAreKept(prm, vertices, colors, bodyIndex, all[..], |vertices|);
    KeptIndicesSpec(prm, vertices, colors, bodyIndex, |vertices|);
    good, goodColors := CompactValid(all, colors, count, prm.defaultPoint);
  }

  /** Each kept index is a pixel whose verdict is Kept, listed once, in increasing order. */
  lemma {:induction false} KeptIndicesSpec(prm: StoreParams, vertices: seq<Point3f>, colors: seq<RGB>, bodyIndex: seq<byte>, n: nat)
    requires InputsFit(prm, vertices, colors, bodyIndex) && n <= |vertices|
    ensures forall k :: 0 <= k < |KeptIndicesUpTo(prm, vertices, colors, bodyIndex, n)| ==>
      VerdictAt(prm, vertices, colors, bodyIndex, KeptIndicesUpTo(prm, vertices, colors, bodyIndex, n)[k]).Kept?
    ensures forall k, l :: 0 <= k < l < |KeptIndicesUpTo(prm, vertices, colors, bodyIndex, n)| ==>
      KeptIndicesUpTo(prm, vertices, colors, bodyIndex, n)[k] < KeptIndicesUpTo(prm, vertices, colors, bodyIndex, n)[l]
    ensures forall i :: 0 <= i < n && VerdictAt(prm, vertices, colors, bodyIndex, i).Kept? ==>
      i in KeptIndicesUpTo(prm, vertices, colors, bodyIndex, n)
  {
    if n > 0 {
      KeptIndicesSpec(prm, vertices, colors, bodyIndex, n - 1);
      var prev := KeptIndicesUpTo(prm, vertices, colors, bodyIndex, n - 1);
      var kept := KeptIndicesUpTo(prm, vertices, colors, bodyIndex, n);
      if VerdictAt(prm, vertices, colors, bodyIndex, n - 1).Kept? {
        assert kept == prev + [n - 1];
      } else {
        assert kept == prev;
      }
    }
  }

}
