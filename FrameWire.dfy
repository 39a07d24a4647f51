/**
 * The frame payload the client sends after every capture (SendFrame) and the
 * server parses (KinectSocket.ReceiveFrame): a vertex count, per vertex the
 * colour bytes R, G, B and three int16 coordinates in millimetres, then a
 * body count and per body a tracked byte, a joint count and 28 bytes per
 * joint. The 8-byte header in front of it carries the payload length and the
 * compression flag.
 */
module FrameWire {
  import opened Bytes
  import opened Points
  import opened Wrappers

  /** A skeleton as SendFrame sees it: only the tracked flag and the joint count reach the wire. */
  datatype Body = Body(tracked: bool, jointCount: nat)

  /** A joint as the server reads it: type, tracking state, position and colour-space position. */
  datatype Joint = Joint(jointType: int, trackingState: int, x: Float32, y: Float32, z: Float32, colorX: Float32, colorY: Float32)
  const ZeroJoint := Joint(0, 0, 0, 0, 0, 0, 0)

  datatype ServerBody = ServerBody(tracked: bool, joints: seq<Joint>)

  /** What ReceiveFrame leaves in lFrameRGB, lFrameVerts (before the mm to m scaling) and lBodies. */
  datatype Frame = Frame(rgb: seq<byte>, verts: seq<int>, bodies: seq<ServerBody>)

  /** Bytes reserved per joint: 3 floats and 2 ints for the joint, 2 floats for its colour-space point. */
  const JointRecordSize: nat := 28
  /** Bytes per vertex: 3 colour bytes and 3 shorts. */
  const PointRecordSize: nat := 9

  // ---------------------------------------------------------------------
  // Encoding (client)
  // ---------------------------------------------------------------------

  function PointRecord(c: RGB, v: Point3s): (r: seq<byte>)
    requires IsShortPoint(v)
    ensures |r| == PointRecordSize
  {
    [c.red, c.green, c.blue] + EncodeInt16(v.x) + EncodeInt16(v.y) + EncodeInt16(v.z)
  }

  /** Every vertex sent is a short point and there is one for every colour. */
  predicate PointsFit(vertices: seq<Point3s>, colors: seq<RGB>)
  {
    |colors| <= |vertices| && forall i :: 0 <= i < |colors| ==> IsShortPoint(vertices[i])
  }

  /** The records of the first n vertices. */
  function PointsUpTo(vertices: seq<Point3s>, colors: seq<RGB>, n: nat): (r: seq<byte>)
    requires PointsFit(vertices, colors) && n <= |colors|
    ensures |r| == PointRecordSize * n
  {
    if n == 0 then [] else PointsUpTo(vertices, colors, n - 1) + PointRecord(colors[n - 1], vertices[n - 1])
  }

  function BodyHeader(b: Body): (r: seq<byte>)
    requires IsInt32(b.jointCount)
    ensures |r| == 5
  {
    [if b.tracked then 1 else 0] + EncodeInt32(b.jointCount)
  }

  /** The bytes SendFrame reserves for one body: its header and 28 per joint. */
  function BodyRecordSize(b: Body): nat
  {
    5 + JointRecordSize * b.jointCount
  }

  /** One body as the server expects it: the header, then its joint records (left zero). */
  function BodyRecord(b: Body): (r: seq<byte>)
    requires IsInt32(b.jointCount)
    ensures |r| == BodyRecordSize(b)
  {
    BodyHeader(b) + Zeros(JointRecordSize * b.jointCount)
  }

  predicate BodiesFit(bodies: seq<Body>)
  {
    forall i :: 0 <= i < |bodies| ==> IsInt32(bodies[i].jointCount)
  }

  /** The bytes SendFrame reserves for the body section after the body count. */
  function BodyBytes(bodies: seq<Body>): (r: nat)
    ensures r >= 5 * |bodies|
  {
    if |bodies| == 0 then 0 else BodyRecordSize(bodies[0]) + BodyBytes(bodies[1..])
  }

  /** The total of the joint counts. */
  function TotalJoints(bodies: seq<Body>): nat
  {
    if |bodies| == 0 then 0 else bodies[0].jointCount + TotalJoints(bodies[1..])
  }

  /** Each body's header followed by its (zero) joint records: the layout ReceiveFrame reads. */
  function BodySection(bodies: seq<Body>): (r: seq<byte>)
    requires BodiesFit(bodies)
    ensures |r| == BodyBytes(bodies)
  {
    if |bodies| == 0 then [] else BodyRecord(bodies[0]) + BodySection(bodies[1..])
  }

  /** The headers of all bodies back to back. */
  function HeaderSection(bodies: seq<Body>): (r: seq<byte>)
    requires BodiesFit(bodies)
    ensures |r| == 5 * |bodies|
  {
    if |bodies| == 0 then [] else BodyHeader(bodies[0]) + HeaderSection(bodies[1..])
  }

  lemma {:induction false} BodyBytesSplit(bodies: seq<Body>)
    ensures BodyBytes(bodies) == 5 * |bodies| + JointRecordSize * TotalJoints(bodies)
  {
    if |bodies| > 0 {
      BodyBytesSplit(bodies[1..]);
    }
  }

  /** Everything SendFrame writes must fit the int sizes it uses. */
  predicate FrameFits(vertices: seq<Point3s>, colors: seq<RGB>, bodies: seq<Body>)
  {
    PointsFit(vertices, colors) && BodiesFit(bodies) &&
    IsInt32(8 + PointRecordSize * |colors| + BodyBytes(bodies))
  }

  /** The vertex count, the vertex records and the body count: what precedes the bodies. */
  function FrameHead(vertices: seq<Point3s>, colors: seq<RGB>, bodies: seq<Body>): (r: seq<byte>)
    requires FrameFits(vertices, colors, bodies)
    ensures |r| == 8 + PointRecordSize * |colors|
  {
    EncodeInt32(|colors|) + PointsUpTo(vertices, colors, |colors|) + EncodeInt32(|bodies|)
  }

  /** The payload with every joint's 28 bytes reserved right after its body's header. */
  function FramePayload(vertices: seq<Point3s>, colors: seq<RGB>, bodies: seq<Body>): (r: seq<byte>)
    requires FrameFits(vertices, colors, bodies)
    ensures |r| == 8 + PointRecordSize * |colors| + BodyBytes(bodies)
  {
    FrameHead(vertices, colors, bodies) + BodySection(bodies)
  }

  /**
   * The payload as SendFrame writes it: the joint writes are disabled, so pos
   * never advances over a joint; the headers come back to back and all
   * reserved joint bytes trail at the end.
   */
  function AsWrittenPayload(vertices: seq<Point3s>, colors: seq<RGB>, bodies: seq<Body>): (r: seq<byte>)
    requires FrameFits(vertices, colors, bodies)
    ensures |r| == 8 + PointRecordSize * |colors| + BodyBytes(bodies)
  {
    BodyBytesSplit(bodies);
    FrameHead(vertices, colors, bodies) + HeaderSection(bodies) + Zeros(JointRecordSize * TotalJoints(bodies))
  }

  /** The 8-byte header: payload length, then 1 if compressed else 0. */
  function FrameHeader(size: int, compressed: bool): (r: seq<byte>)
    requires IsInt32(size)
    ensures |r| == 8
  {
    EncodeInt32(size) + EncodeInt32(if compressed then 1 else 0)
  }

  // ---------------------------------------------------------------------
  // Decoding (server)
  // ---------------------------------------------------------------------

  /** The colour bytes and short coordinates of the first n vertex records at `at`. */
  function PointsAt(buf: seq<byte>, at: nat, n: nat): (r: (seq<byte>, seq<int>))
    requires at + PointRecordSize * n <= |buf|
    ensures |r.0| == 3 * n && |r.1| == 3 * n
  {
    if n == 0 then ([], [])
    else
      var prev := PointsAt(buf, at, n - 1);
      var p := at + PointRecordSize * (n - 1);
      (prev.0 + [buf[p], buf[p + 1], buf[p + 2]],
       prev.1 + [ReadInt16(buf, p + 3), ReadInt16(buf, p + 5), ReadInt16(buf, p + 7)])
  }

  function JointAt(buf: seq<byte>, at: nat): Joint
    requires at + JointRecordSize <= |buf|
  {
    Joint(ReadInt32(buf, at), ReadInt32(buf, at + 4), ReadFloat(buf, at + 8), ReadFloat(buf, at + 12),
          ReadFloat(buf, at + 16), ReadFloat(buf, at + 20), ReadFloat(buf, at + 24))
  }

  function JointsAt(buf: seq<byte>, at: nat, n: nat): (r: seq<Joint>)
    requires at + JointRecordSize * n <= |buf|
    ensures |r| == n
  {
    if n == 0 then [] else JointsAt(buf, at, n - 1) + [JointAt(buf, at + JointRecordSize * (n - 1))]
  }

  /**
   * One body at `at` and the offset after it. None where the C# code would
   * throw: a read past the end, or a negative joint count (a List with
   * negative capacity).
   */
  function BodyAt(buf: seq<byte>, at: nat): Option<(ServerBody, nat)>
  {
    if at + 5 > |buf| then None
    else
      var nJoints := ReadInt32(buf, at + 1);
      if nJoints < 0 || at + 5 + JointRecordSize * nJoints > |buf| then None
      else Some((ServerBody(buf[at] != 0, JointsAt(buf, at + 5, nJoints)), at + 5 + JointRecordSize * nJoints))
  }

  function BodiesAt(buf: seq<byte>, at: nat, n: nat): Option<seq<ServerBody>>
    decreases n
  {
    if n == 0 then Some([])
    else match BodyAt(buf, at)
      case None => None
      case Some((b, next)) =>
        match BodiesAt(buf, next, n - 1)
        case None => None
        case Some(rest) => Some([b] + rest)
  }

  function Max0(v: int): nat { if v < 0 then 0 else v }

  /**
   * ReceiveFrame's parse of a (decompressed) payload. A negative count reads
   * nothing, as the C# for loops do. None where a read would throw.
   */
  function ParseFrame(buf: seq<byte>): Option<Frame>
  {
    if |buf| < 4 then None
    else
      var n := Max0(ReadInt32(buf, 0));
      if 8 + PointRecordSize * n > |buf| then None
      else
        var pts := PointsAt(buf, 4, n);
        var nBodies := Max0(ReadInt32(buf, 4 + PointRecordSize * n));
        match BodiesAt(buf, 8 + PointRecordSize * n, nBodies)
        case None => None
        case Some(bodies) => Some(Frame(pts.0, pts.1, bodies))
  }

  // ---------------------------------------------------------------------
  // What the server gets back
  // ---------------------------------------------------------------------

  function RgbOf(colors: seq<RGB>, n: nat): (r: seq<byte>)
    requires n <= |colors|
    ensures |r| == 3 * n
  {
    if n == 0 then [] else RgbOf(colors, n - 1) + [colors[n - 1].red, colors[n - 1].green, colors[n - 1].blue]
  }

  function CoordsOf(vertices: seq<Point3s>, n: nat): (r: seq<int>)
    requires n <= |vertices|
    ensures |r| == 3 * n
  {
    if n == 0 then [] else CoordsOf(vertices, n - 1) + [vertices[n - 1].x, vertices[n - 1].y, vertices[n - 1].z]
  }

  /** n joints with every field zero: what 28·n zero bytes decode to. */
  function ZeroJoints(n: nat): (r: seq<Joint>)
    ensures |r| == n
  {
    if n == 0 then [] else ZeroJoints(n - 1) + [ZeroJoint]
  }

  /** The server's view of a sent body: its flag and as many joints as it had, all zero. */
  function Received(b: Body): ServerBody
  {
    ServerBody(b.tracked, ZeroJoints(b.jointCount))
  }

  function ReceivedBodies(bodies: seq<Body>): (r: seq<ServerBody>)
    ensures |r| == |bodies|
  {
    if |bodies| == 0 then [] else [Received(bodies[0])] + ReceivedBodies(bodies[1..])
  }

  function ExpectedFrame(vertices: seq<Point3s>, colors: seq<RGB>, bodies: seq<Body>): Frame
    requires |colors| <= |vertices|
  {
    Frame(RgbOf(colors, |colors|), CoordsOf(vertices, |colors|), ReceivedBodies(bodies))
  }

  // ---------------------------------------------------------------------
  // Round trip
  // ---------------------------------------------------------------------

  /** The fields of one vertex record read back from where it was placed. */
  lemma {:induction false} PointRecordFields(buf: seq<byte>, at: nat, c: RGB, v: Point3s)
    requires IsShortPoint(v) && at + PointRecordSize <= |buf|
    requires buf[at..at + PointRecordSize] == PointRecord(c, v)
    ensures buf[at] == c.red && buf[at + 1] == c.green && buf[at + 2] == c.blue
    ensures ReadInt16(buf, at + 3) == v.x && ReadInt16(buf, at + 5) == v.y && ReadInt16(buf, at + 7) == v.z
  {
    var end := at + PointRecordSize;
    var rgb, x, y, z := [c.red, c.green, c.blue], EncodeInt16(v.x), EncodeInt16(v.y), EncodeInt16(v.z);
    Slices4(rgb, x, y, z);
    SliceOfSlice(buf, at, end, 0, 3);
    assert buf[at] == rgb[0] && buf[at + 1] == rgb[1] && buf[at + 2] == rgb[2];
    SliceOfSlice(buf, at, end, 3, 5);
    SliceOfSlice(buf, at, end, 5, 7);
    SliceOfSlice(buf, at, end, 7, 9);
    ReadInt16Of(buf, at + 3, v.x);
    ReadInt16Of(buf, at + 5, v.y);
    ReadInt16Of(buf, at + 7, v.z);
  }

  /** The first n vertex records split into the first n - 1 and the last. */
  lemma {:induction false} PointsSplit(buf: seq<byte>, at: nat, vertices: seq<Point3s>, colors: seq<RGB>, n: nat)
    requires PointsFit(vertices, colors) && 0 < n <= |colors|
    requires at + PointRecordSize * n <= |buf|
    requires buf[at..at + PointRecordSize * n] == PointsUpTo(vertices, colors, n)
    ensures var m := PointRecordSize * (n - 1);
      buf[at..at + m] == PointsUpTo(vertices, colors, n - 1) &&
      buf[at + m..at + m + PointRecordSize] == PointRecord(colors[n - 1], vertices[n - 1])
  {
    var m := PointRecordSize * (n - 1);
    var prev, last := PointsUpTo(vertices, colors, n - 1), PointRecord(colors[n - 1], vertices[n - 1]);
    Slices2(prev, last);
    SliceOfSlice(buf, at, at + m + PointRecordSize, 0, m);
    SliceOfSlice(buf, at, at + m + PointRecordSize, m, m + PointRecordSize);
  }

  /** The fields of the last of n vertex records. */
  lemma {:induction false} LastRecordFields(buf: seq<byte>, at: nat, vertices: seq<Point3s>, colors: seq<RGB>, n: nat)
    requires PointsFit(vertices, colors) && 0 < n <= |colors|
    requires at + PointRecordSize * n <= |buf|
    requires buf[at..at + PointRecordSize * n] == PointsUpTo(vertices, colors, n)
    ensures var p, c, v := at + PointRecordSize * (n - 1), colors[n - 1], vertices[n - 1];
      buf[p] == c.red && buf[p + 1] == c.green && buf[p + 2] == c.blue &&
      ReadInt16(buf, p + 3) == v.x && ReadInt16(buf, p + 5) == v.y && ReadInt16(buf, p + 7) == v.z
  {
    PointsSplit(buf, at, vertices, colors, n);
    PointRecordFields(buf, at + PointRecordSize * (n - 1), colors[n - 1], vertices[n - 1]);
  }

  /** PointsAt of n records from that of n - 1 and the fields of the last. */
  lemma {:induction false} PointsAtStep(buf: seq<byte>, at: nat, vertices: seq<Point3s>, colors: seq<RGB>, n: nat)
    requires 0 < n <= |colors| <= |vertices| && at + PointRecordSize * n <= |buf|
    requires PointsAt(buf, at, n - 1) == (RgbOf(colors, n - 1), CoordsOf(vertices, n - 1))
    requires var p, c, v := at + PointRecordSize * (n - 1), colors[n - 1], vertices[n - 1];
      buf[p] == c.red && buf[p + 1] == c.green && buf[p + 2] == c.blue &&
      ReadInt16(buf, p + 3) == v.x && ReadInt16(buf, p + 5) == v.y && ReadInt16(buf, p + 7) == v.z
    ensures PointsAt(buf, at, n) == (RgbOf(colors, n), CoordsOf(vertices, n))
  {
  }

  /** The vertex records read back as the colours' R, G, B and the vertices' coordinates. */
  lemma {:induction false} PointsRoundTrip(buf: seq<byte>, at: nat, vertices: seq<Point3s>, colors: seq<RGB>, n: nat)
    requires PointsFit(vertices, colors) && n <= |colors|
    requires at + PointRecordSize * n <= |buf|
    requires buf[at..at + PointRecordSize * n] == PointsUpTo(vertices, colors, n)
    ensures PointsAt(buf, at, n) == (RgbOf(colors, n), CoordsOf(vertices, n))
  {
    if n > 0 {
      PointsSplit(buf, at, vertices, colors, n);
      PointsRoundTrip(buf, at, vertices, colors, n - 1);
      LastRecordFields(buf, at, vertices, colors, n);
      PointsAtStep(buf, at, vertices, colors, n);
    }
  }

  /** Zero bytes read back as zero joints. */
  lemma {:induction false} ZeroJointsAt(buf: seq<byte>, at: nat, n: nat, end: nat)
    requires end == at + JointRecordSize * n <= |buf|
    requires forall k :: at <= k < end ==> buf[k] == 0
    ensures JointsAt(buf, at, n) == ZeroJoints(n)
  {
    if n > 0 {
      var p := end - JointRecordSize;
      ZeroJointsAt(buf, at, n - 1, p);
      UnsignedZeros(buf, p, p + 4);
      UnsignedZeros(buf, p + 4, p + 8);
      UnsignedZeros(buf, p + 8, p + 12);
      UnsignedZeros(buf, p + 12, p + 16);
      UnsignedZeros(buf, p + 16, p + 20);
      UnsignedZeros(buf, p + 20, p + 24);
      UnsignedZeros(buf, p + 24, p + 28);
    }
  }

  /** A body record reads back as the body received, and the parse moves past it. */
  lemma {:induction false} BodyRecordAt(buf: seq<byte>, at: nat, b: Body)
    requires IsInt32(b.jointCount) && at + BodyRecordSize(b) <= |buf|
    requires buf[at..at + BodyRecordSize(b)] == BodyRecord(b)
    ensures BodyAt(buf, at) == Some((Received(b), at + BodyRecordSize(b)))
  {
    var j := JointRecordSize * b.jointCount;
    var end := at + 5 + j;
    Slices2(BodyHeader(b), Zeros(j));
    SliceOfSlice(buf, at, end, 0, 5);
    assert buf[at] == BodyHeader(b)[0];
    SliceOfSlice(buf, at, end, 1, 5);
    ReadInt32Of(buf, at + 1, b.jointCount);
    SliceOfSlice(buf, at, end, 5, 5 + j);
    forall k | at + 5 <= k < end
      ensures buf[k] == 0
    {
      assert buf[k] == buf[at + 5..end][k - (at + 5)];
    }
    ZeroJointsAt(buf, at + 5, b.jointCount, end);
  }

  /** A body record followed by the rest of a section: the body reads back and the rest follows it. */
  lemma {:induction false} FirstBodyAt(buf: seq<byte>, at: nat, b: Body, rest: seq<byte>)
    requires IsInt32(b.jointCount) && at + BodyRecordSize(b) + |rest| <= |buf|
    requires buf[at..at + BodyRecordSize(b) + |rest|] == BodyRecord(b) + rest
    ensures var next := at + BodyRecordSize(b);
      BodyAt(buf, at) == Some((Received(b), next)) && buf[next..next + |rest|] == rest
  {
    var size := BodyRecordSize(b);
    var end := at + size + |rest|;
    Slices2(BodyRecord(b), rest);
    SliceOfSlice(buf, at, end, 0, size);
    SliceOfSlice(buf, at, end, size, size + |rest|);
    BodyRecordAt(buf, at, b);
  }

  /** A body and the bodies after it parse as one list. */
  lemma {:induction false} BodiesAtStep(buf: seq<byte>, at: nat, n: nat, b: ServerBody, next: nat, rest: seq<ServerBody>)
    requires n > 0 && BodyAt(buf, at) == Some((b, next)) && BodiesAt(buf, next, n - 1) == Some(rest)
    ensures BodiesAt(buf, at, n) == Some([b] + rest)
  {
  }

  /** The first body of a section reads back, and the rest of the section follows it. */
  lemma {:induction false} FirstOfSection(buf: seq<byte>, at: nat, bodies: seq<Body>)
    requires BodiesFit(bodies) && |bodies| > 0
    requires at + BodyBytes(bodies) <= |buf|
    requires buf[at..at + BodyBytes(bodies)] == BodySection(bodies)
    ensures var next := at + BodyRecordSize(bodies[0]);
      BodyAt(buf, at) == Some((Received(bodies[0]), next)) &&
      next + BodyBytes(bodies[1..]) <= |buf| && buf[next..next + BodyBytes(bodies[1..])] == BodySection(bodies[1..])
  {
    var b, rest := bodies[0], bodies[1..];
    assert BodyBytes(bodies) == BodyRecordSize(b) + BodyBytes(rest);
    assert BodySection(bodies) == BodyRecord(b) + BodySection(rest);
    FirstBodyAt(buf, at, b, BodySection(rest));
  }

  /** The intended body section reads back as the bodies sent, with zero joints. */
  lemma {:induction false} BodiesRoundTrip(buf: seq<byte>, at: nat, bodies: seq<Body>)
    requires BodiesFit(bodies)
    requires at + BodyBytes(bodies) <= |buf|
    requires buf[at..at + BodyBytes(bodies)] == BodySection(bodies)
    ensures BodiesAt(buf, at, |bodies|) == Some(ReceivedBodies(bodies))
    decreases bodies
  {
    if |bodies| > 0 {
      var next := at + BodyRecordSize(bodies[0]);
      FirstOfSection(buf, at, bodies);
      BodiesRoundTrip(buf, next, bodies[1..]);
      BodiesAtStep(buf, at, |bodies|, Received(bodies[0]), next, ReceivedBodies(bodies[1..]));
    }
  }

  /** ParseFrame in terms of its four reads. */
  lemma {:induction false} ParseFrameOf(buf: seq<byte>, n: nat, m: nat, rgb: seq<byte>, verts: seq<int>, nBodies: nat, bodies: seq<ServerBody>)
    requires m == PointRecordSize * n && 8 + m <= |buf|
    requires ReadInt32(buf, 0) == n && PointsAt(buf, 4, n) == (rgb, verts)
    requires ReadInt32(buf, 4 + m) == nBodies
    requires BodiesAt(buf, 8 + m, nBodies) == Some(bodies)
    ensures ParseFrame(buf) == Some(Frame(rgb, verts, bodies))
  {
    assert Max0(ReadInt32(buf, 0)) == n;
    assert Max0(ReadInt32(buf, 4 + PointRecordSize * n)) == nBodies;
  }

  /** A buffer made of the four payload parts parses as the frame sent. */
  lemma {:induction false} ParseParts(buf: seq<byte>, vertices: seq<Point3s>, colors: seq<RGB>, bodies: seq<Body>)
    requires FrameFits(vertices, colors, bodies)
    requires var m := PointRecordSize * |colors|;
      |buf| == 8 + m + BodyBytes(bodies) &&
      buf[0..4] == EncodeInt32(|colors|) && buf[4..4 + m] == PointsUpTo(vertices, colors, |colors|) &&
      buf[4 + m..8 + m] == EncodeInt32(|bodies|) && buf[8 + m..|buf|] == BodySection(bodies)
    ensures ParseFrame(buf) == Some(ExpectedFrame(vertices, colors, bodies))
  {
    var n := |colors|;
    var m := PointRecordSize * n;
    ReadInt32Of(buf, 0, n);
    PointsRoundTrip(buf, 4, vertices, colors, n);
    ReadInt32Of(buf, 4 + m, |bodies|);
    BodiesRoundTrip(buf, 8 + m, bodies);
    ParseFrameOf(buf, n, m, RgbOf(colors, n), CoordsOf(vertices, n), |bodies|, ReceivedBodies(bodies));
  }

  /** What SendFrame should send is what ReceiveFrame reads back: colours, coordinates and bodies. */
  lemma {:induction false} FrameRoundTrip(vertices: seq<Point3s>, colors: seq<RGB>, bodies: seq<Body>)
    requires FrameFits(vertices, colors, bodies)
    ensures ParseFrame(FramePayload(vertices, colors, bodies)) == Some(ExpectedFrame(vertices, colors, bodies))
  {
    var a, p, c := EncodeInt32(|colors|), PointsUpTo(vertices, colors, |colors|), EncodeInt32(|bodies|);
    var d := BodySection(bodies);
    assert FramePayload(vertices, colors, bodies) == a + p + c + d;
    Slices4(a, p, c, d);
    ParseParts(FramePayload(vertices, colors, bodies), vertices, colors, bodies);
  }

  /** The header reads back as the payload length and the compression flag. */
  lemma {:induction false} HeaderRoundTrip(size: int, compressed: bool)
    requires IsInt32(size)
    ensures ReadInt32(FrameHeader(size, compressed), 0) == size
    ensures ReadInt32(FrameHeader(size, compressed), 4) == 1 <==> compressed
  {
    var h, flag := FrameHeader(size, compressed), if compressed then 1 else 0;
    Slices2(EncodeInt32(size), EncodeInt32(flag));
    ReadInt32Of(h, 0, size);
    ReadInt32Of(h, 4, flag);
  }

  // ---------------------------------------------------------------------
  // Writing the payload (SendFrame)
  // ---------------------------------------------------------------------

  lemma {:induction false} HeaderSectionAppend(bodies: seq<Body>, b: Body)
    requires BodiesFit(bodies) && IsInt32(b.jointCount)
    ensures BodiesFit(bodies + [b])
    ensures HeaderSection(bodies + [b]) == HeaderSection(bodies) + BodyHeader(b)
  {
    if |bodies| > 0 {
      assert (bodies + [b])[1..] == bodies[1..] + [b];
      HeaderSectionAppend(bodies[1..], b);
    }
  }

  /**
   * The first part of SendFrame: a zeroed buffer of 4 + 9n bytes holding the
   * vertex count and one record per colour, R, G, B then the vertex's three shorts.
   */
  method WritePoints(vertices: seq<Point3s>, colors: seq<RGB>) returns (buffer: array<byte>)
    requires PointsFit(vertices, colors) && IsInt32(|colors|)
    ensures fresh(buffer)
    ensures buffer[..] == EncodeInt32(|colors|) + PointsUpTo(vertices, colors, |colors|)
  {
    var n := |colors|;
    buffer := new byte[4 + PointRecordSize * n](_ => 0);
    assert buffer[0..] == Zeros(buffer.Length);
    Append(buffer, 0, EncodeInt32(n));
    WriteRecords(buffer, vertices, colors);
  }

  /** One turn of the vertex loop: record i right after the first i. */
  method WriteNextPoint(buffer: array<byte>, pos: nat, vertices: seq<Point3s>, colors: seq<RGB>, i: nat, ghost head: seq<byte>)
    requires PointsFit(vertices, colors) && i < |colors| && pos + PointRecordSize <= buffer.Length
    requires buffer[..pos] == head + PointsUpTo(vertices, colors, i)
    requires buffer[pos..] == Zeros(buffer.Length - pos)
    modifies buffer
    ensures buffer[..pos + PointRecordSize] == head + PointsUpTo(vertices, colors, i + 1)
    ensures buffer[pos + PointRecordSize..] == Zeros(buffer.Length - pos - PointRecordSize)
  {
    PointsStep(vertices, colors, i, head);
    WritePoint(buffer, pos, colors[i], vertices[i]);
  }

  /** The loop over the vertices, each record written after the previous one. */
  method WriteRecords(buffer: array<byte>, vertices: seq<Point3s>, colors: seq<RGB>)
    requires PointsFit(vertices, colors) && buffer.Length == 4 + PointRecordSize * |colors|
    requires buffer[4..] == Zeros(buffer.Length - 4)
    modifies buffer
    ensures buffer[..] == old(buffer[..4]) + PointsUpTo(vertices, colors, |colors|)
  {
    var pos := 4;
    ghost var head := buffer[..4];
    for i := 0 to |colors|
      invariant pos == 4 + PointRecordSize * i
      invariant buffer[..pos] == head + PointsUpTo(vertices, colors, i)
      invariant buffer[pos..] == Zeros(buffer.Length - pos)
    {
      WriteNextPoint(buffer, pos, vertices, colors, i, head);
      pos := pos + PointRecordSize;
    }
    assert buffer[..] == buffer[..pos];
  }

  /** The records of i + 1 vertices after some leading bytes: those of i, then the next. */
  lemma {:induction false} PointsStep(vertices: seq<Point3s>, colors: seq<RGB>, i: nat, lead: seq<byte>)
    requires PointsFit(vertices, colors) && i < |colors|
    ensures lead + PointsUpTo(vertices, colors, i + 1) ==
            lead + PointsUpTo(vertices, colors, i) + PointRecord(colors[i], vertices[i])
  {
  }

  /** One vertex record: the colour bytes, then a memcpy of the three shorts. */
  method WritePoint(buffer: array<byte>, pos: nat, c: RGB, v: Point3s)
    requires IsShortPoint(v) && pos + PointRecordSize <= buffer.Length
    requires buffer[pos..] == Zeros(buffer.Length - pos)
    modifies buffer
    ensures buffer[..pos + PointRecordSize] == old(buffer[..pos]) + PointRecord(c, v)
    ensures buffer[pos + PointRecordSize..] == Zeros(buffer.Length - pos - PointRecordSize)
  {
    Append(buffer, pos, [c.red, c.green, c.blue]);
    Append(buffer, pos + 3, EncodeInt16(v.x) + EncodeInt16(v.y) + EncodeInt16(v.z));
  }

  /** One body header: a memcpy of the tracked flag, then of the joint count. */
  method WriteBodyHeader(buffer: array<byte>, pos: nat, b: Body)
    requires IsInt32(b.jointCount) && pos + 5 <= buffer.Length
    requires buffer[pos..] == Zeros(buffer.Length - pos)
    modifies buffer
    ensures buffer[..pos + 5] == old(buffer[..pos]) + BodyHeader(b)
    ensures buffer[pos + 5..] == Zeros(buffer.Length - pos - 5)
  {
    Append(buffer, pos, [if b.tracked then 1 else 0]);
    Append(buffer, pos + 1, EncodeInt32(b.jointCount));
  }

  /**
   * SendFrame's size computation: 4 + 9n for the vertices, then 4 for the
   * body count and, per body, 1 + 4 + 28 bytes per joint.
   */
  method FrameSize(colors: seq<RGB>, bodies: seq<Body>) returns (size: int)
    ensures size == 8 + PointRecordSize * |colors| + BodyBytes(bodies)
  {
    size := PointRecordSize * |colors| + 4;
    size := size + 4;
    for i := 0 to |bodies|
      invariant size + BodyBytes(bodies[i..]) == 8 + PointRecordSize * |colors| + BodyBytes(bodies)
    {
      assert bodies[i..][1..] == bodies[i + 1..];
      size := size + 1;
      size := size + 4;
      size := size + JointRecordSize * bodies[i].jointCount;
    }
  }

  /** The buffer after the vertex records: resized to the full frame size, with the body count written. */
  method StartBodies(vertices: seq<Point3s>, colors: seq<RGB>, bodies: seq<Body>) returns (buffer: array<byte>, pos: nat)
    requires FrameFits(vertices, colors, bodies)
    ensures fresh(buffer)
    ensures pos == 8 + PointRecordSize * |colors| && buffer.Length == pos + BodyBytes(bodies)
    ensures buffer[..pos] == FrameHead(vertices, colors, bodies)
    ensures buffer[pos..] == Zeros(buffer.Length - pos)
  {
    var points := WritePoints(vertices, colors);
    var size := FrameSize(colors, bodies);
    buffer := Resize(points, size);
    pos := points.Length;
    assert buffer[pos..] == Zeros(size - pos);
    assert buffer[..pos] == points[..];
    Append(buffer, pos, EncodeInt32(|bodies|));
    pos := pos + 4;
  }

  /** One turn of the as-written body loop: the next header right after the previous one. */
  method WriteNextHeader(buffer: array<byte>, pos: nat, bodies: seq<Body>, i: nat, ghost head: seq<byte>)
    requires BodiesFit(bodies) && i < |bodies| && pos + 5 <= buffer.Length
    requires buffer[..pos] == head + HeaderSection(bodies[..i])
    requires buffer[pos..] == Zeros(buffer.Length - pos)
    modifies buffer
    ensures buffer[..pos + 5] == head + HeaderSection(bodies[..i + 1])
    ensures buffer[pos + 5..] == Zeros(buffer.Length - pos - 5)
  {
    var b := bodies[i];
    assert bodies[..i + 1] == bodies[..i] + [b];
    HeaderSectionAppend(bodies[..i], b);
    WriteBodyHeader(buffer, pos, b);
  }

  /** The body headers written back to back into a zeroed tail, as SendFrame's body loop does. */
  method WriteHeaders(buffer: array<byte>, start: nat, bodies: seq<Body>)
    requires BodiesFit(bodies) && start + 5 * |bodies| <= buffer.Length
    requires buffer[start..] == Zeros(buffer.Length - start)
    modifies buffer
    ensures buffer[..] == old(buffer[..start]) + HeaderSection(bodies) + Zeros(buffer.Length - start - 5 * |bodies|)
  {
    var pos := start;
    ghost var head := buffer[..start];
    for i := 0 to |bodies|
      invariant pos == start + 5 * i
      invariant buffer[..pos] == head + HeaderSection(bodies[..i])
      invariant buffer[pos..] == Zeros(buffer.Length - pos)
    {
      WriteNextHeader(buffer, pos, bodies, i, head);
      pos := pos + 5;
    }
    assert bodies[..|bodies|] == bodies;
    assert buffer[..] == buffer[..pos] + buffer[pos..];
  }

  /**
   * The payload as SendFrame builds it: the joint loop writes nothing and
   * leaves pos where it was, so each body header lands right after the
   * previous one. The result is the as-written layout, not the one the server reads.
   */
  method WriteFrameAsWritten(vertices: seq<Point3s>, colors: seq<RGB>, bodies: seq<Body>) returns (buffer: array<byte>)
    requires FrameFits(vertices, colors, bodies)
    ensures fresh(buffer)
    ensures buffer[..] == AsWrittenPayload(vertices, colors, bodies)
  {
    var pos: nat;
    buffer, pos := StartBodies(vertices, colors, bodies);
    BodyBytesSplit(bodies);
    WriteHeaders(buffer, pos, bodies);
  }

  /** The first body record split off the bodies still to write. */
  lemma {:induction false} SectionStep(bodies: seq<Body>, i: nat, written: seq<byte>)
    requires BodiesFit(bodies) && i < |bodies|
    ensures var b := bodies[i];
      BodyBytes(bodies[i..]) == BodyRecordSize(b) + BodyBytes(bodies[i + 1..]) &&
      written + BodySection(bodies[i..]) == written + BodyRecord(b) + BodySection(bodies[i + 1..])
  {
    assert bodies[i..][1..] == bodies[i + 1..];
  }

  /** A body header, then pos moved past the body's joint records, which stay zero. */
  method WriteBody(buffer: array<byte>, pos: nat, b: Body)
    requires IsInt32(b.jointCount) && pos + BodyRecordSize(b) <= buffer.Length
    requires buffer[pos..] == Zeros(buffer.Length - pos)
    modifies buffer
    ensures var next := pos + BodyRecordSize(b);
      buffer[..next] == old(buffer[..pos]) + BodyRecord(b) && buffer[next..] == Zeros(buffer.Length - next)
  {
    WriteBodyHeader(buffer, pos, b);
    SkipZeros(buffer[..], pos + 5, JointRecordSize * b.jointCount);
  }

  /**
   * One turn of the body loop: the written bytes followed by the bodies still
   * to write make up the same section before and after.
   */
  method WriteNextBody(buffer: array<byte>, pos: nat, bodies: seq<Body>, i: nat, ghost goal: seq<byte>) returns (next: nat)
    requires BodiesFit(bodies) && i < |bodies|
    requires pos + BodyBytes(bodies[i..]) == buffer.Length
    requires buffer[..pos] + BodySection(bodies[i..]) == goal
    requires buffer[pos..] == Zeros(buffer.Length - pos)
    modifies buffer
    ensures next + BodyBytes(bodies[i + 1..]) == buffer.Length
    ensures buffer[..next] + BodySection(bodies[i + 1..]) == goal
    ensures buffer[next..] == Zeros(buffer.Length - next)
  {
    SectionStep(bodies, i, buffer[..pos]);
    WriteBody(buffer, pos, bodies[i]);
    next := pos + BodyRecordSize(bodies[i]);
  }

  /** The bodies with pos advanced over every joint's 28 bytes, filling the buffer to its end. */
  method WriteBodies(buffer: array<byte>, start: nat, bodies: seq<Body>)
    requires BodiesFit(bodies) && start + BodyBytes(bodies) == buffer.Length
    requires buffer[start..] == Zeros(buffer.Length - start)
    modifies buffer
    ensures buffer[..] == old(buffer[..start]) + BodySection(bodies)
  {
    var pos: nat := start;
    ghost var goal := buffer[..start] + BodySection(bodies);
    assert bodies[0..] == bodies;
    for i := 0 to |bodies|
      invariant pos + BodyBytes(bodies[i..]) == buffer.Length
      invariant buffer[..pos] + BodySection(bodies[i..]) == goal
      invariant buffer[pos..] == Zeros(buffer.Length - pos)
    {
      pos := WriteNextBody(buffer, pos, bodies, i, goal);
    }
    assert buffer[..] == buffer[..pos];
  }

  /** SendFrame with pos advanced over every joint's 28 bytes: the layout ReceiveFrame reads. */
  method WriteFrame(vertices: seq<Point3s>, colors: seq<RGB>, bodies: seq<Body>) returns (buffer: array<byte>)
    requires FrameFits(vertices, colors, bodies)
    ensures fresh(buffer)
    ensures buffer[..] == FramePayload(vertices, colors, bodies)
  {
    var pos: nat;
    buffer, pos := StartBodies(vertices, colors, bodies);
    WriteBodies(buffer, pos, bodies);
  }

  /**
   * Two tracked bodies, the first with one joint, and no vertices: in the
   * as-written payload the second body's header sits where the server reads
   * the first body's joint, so that joint comes back with type 1 where the
   * client sent nothing but zeros.
   */
  lemma {:induction false} AsWrittenJointMisread()
    ensures var bodies := [Body(true, 1), Body(true, 0)];
      FrameFits([], [], bodies) && ParseFrame(AsWrittenPayload([], [], bodies)) != Some(ExpectedFrame([], [], bodies))
  {
    var bodies := [Body(true, 1), Body(true, 0)];
    assert BodiesFit(bodies);
    var p := AsWrittenPayload([], [], bodies);
    SampleLayout(p, bodies);
    ReadInt32Of(p, 0, 0);
    ReadInt32Of(p, 4, 2);
    FirstBodyMisread(p);
    JointMisread(p);
    var e := ExpectedFrame([], [], bodies);
    assert ReceivedBodies(bodies)[0] == Received(bodies[0]);
    assert e.bodies[0].joints[0] == ZeroJoint;
  }

  /** With no joints anywhere, each body's record is its header alone. */
  lemma {:induction false} HeadersWithoutJoints(bodies: seq<Body>)
    requires BodiesFit(bodies) && TotalJoints(bodies) == 0
    ensures HeaderSection(bodies) == BodySection(bodies)
  {
    if |bodies| > 0 {
      assert BodiesFit(bodies[1..]) by {
        forall i | 0 <= i < |bodies[1..]|
          ensures IsInt32(bodies[1..][i].jointCount)
        {
          assert bodies[1..][i] == bodies[i + 1];
        }
      }
      assert bodies[0].jointCount == 0 && TotalJoints(bodies[1..]) == 0;
      HeadersWithoutJoints(bodies[1..]);
      var z := Zeros(JointRecordSize * bodies[0].jointCount);
      assert z == [] by { assert |z| == 0; }
      assert BodyRecord(bodies[0]) == BodyHeader(bodies[0]) + z;
      calc {
        BodySection(bodies);
        BodyRecord(bodies[0]) + BodySection(bodies[1..]);
        BodyHeader(bodies[0]) + HeaderSection(bodies[1..]);
        HeaderSection(bodies);
      }
    }
  }

  /**
   * When no body has a joint, the payload SendFrame builds as written is the
   * one ReceiveFrame reads, so the server reads back the frame sent.
   */
  lemma {:induction false} AsWrittenWithoutJoints(vertices: seq<Point3s>, colors: seq<RGB>, bodies: seq<Body>)
    requires FrameFits(vertices, colors, bodies)
    ensures TotalJoints(bodies) == 0 ==>
      AsWrittenPayload(vertices, colors, bodies) == FramePayload(vertices, colors, bodies) &&
      ParseFrame(AsWrittenPayload(vertices, colors, bodies)) == Some(ExpectedFrame(vertices, colors, bodies))
  {
    if TotalJoints(bodies) == 0 {
      HeadersWithoutJoints(bodies);
      assert |Zeros(JointRecordSize * TotalJoints(bodies))| == 0;
      FrameRoundTrip(vertices, colors, bodies);
    }
  }

  /** Where the counts of the sample above land in its as-written payload. */
  lemma {:induction false} SampleLayout(p: seq<byte>, bodies: seq<Body>)
    requires bodies == [Body(true, 1), Body(true, 0)] && FrameFits([], [], bodies)
    requires p == AsWrittenPayload([], [], bodies)
    ensures |p| >= 41
    ensures p[0..4] == EncodeInt32(0) && p[4..8] == EncodeInt32(2)
    ensures p[9..13] == EncodeInt32(1) && p[13..17] == EncodeInt32(1)
  {
    assert EncodeInt32(0) == [0, 0, 0, 0];
    assert EncodeInt32(1) == [1, 0, 0, 0];
    assert EncodeInt32(2) == [2, 0, 0, 0];
    assert HeaderSection(bodies) == [1, 1, 0, 0, 0] + [1, 0, 0, 0, 0];
    assert TotalJoints(bodies[1..]) == 0;
    assert TotalJoints(bodies) == 1;
    assert p[..18] == [0, 0, 0, 0, 2, 0, 0, 0, 1, 1, 0, 0, 0, 1, 0, 0, 0, 0];
  }

  /** A payload with no vertices and two bodies parses, if at all, with the body at byte 8 first. */
  lemma {:induction false} JointMisread(p: seq<byte>)
    requires |p| >= 41 && ReadInt32(p, 0) == 0 && ReadInt32(p, 4) == 2
    requires BodyAt(p, 8).Some? && BodyAt(p, 8).value.0.joints == [JointAt(p, 13)] && JointAt(p, 13).jointType == 1
    ensures ParseFrame(p).Some? ==>
      (|ParseFrame(p).value.bodies| > 0 && |ParseFrame(p).value.bodies[0].joints| > 0 &&
       ParseFrame(p).value.bodies[0].joints[0].jointType == 1)
  {
    match BodiesAt(p, 8, 2)
    case None =>
    case Some(bs) =>
      ParseFrameOf(p, 0, 0, [], [], 2, bs);
      assert bs[0] == BodyAt(p, 8).value.0;
  }

  /** The body at byte 8 has one joint, read from bytes 13 on, whose type is 1. */
  lemma {:induction false} FirstBodyMisread(p: seq<byte>)
    requires |p| >= 41
    requires p[9..13] == EncodeInt32(1) && p[13..17] == EncodeInt32(1)
    ensures BodyAt(p, 8).Some? && BodyAt(p, 8).value.0.joints == [JointAt(p, 13)]
    ensures JointAt(p, 13).jointType == 1
  {
    ReadInt32Of(p, 9, 1);
    ReadInt32Of(p, 13, 1);
    assert JointsAt(p, 13, 1) == [JointAt(p, 13)];
  }
}
