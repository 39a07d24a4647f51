/**
 * The server's side of one client connection (KinectSocket.cs): the
 * requests it sends, the flags those requests reset and the replies set,
 * and the parse of a frame payload into colours, vertices and bodies.
 *
 * The socket is modelled by its effects: every byte sent is appended to
 * `sent`, and each receive takes the bytes the client has put on the wire
 * as a parameter. SocketConnected() is a parameter too.
 */
module KinectSocket {
  import opened Bytes
  import opened Wrappers
  import opened Points
  import opened FrameWire
  import opened Messages
  import KinectConfiguration
  import ClientSettings

  /** The state the socket's methods read and write, apart from the configuration object. */
  datatype SocketState = SocketState(
    frameCaptured: bool, latestFrameReceived: bool, storedFrameReceived: bool, noMoreStoredFrames: bool,
    configurationReceived: bool, calibrated: bool, reinitialized: bool, reinitializationError: bool,
    worldR: seq<Float32>, worldT: seq<Float32>, frame: Frame, sent: seq<byte>)

  const NoFrame := Frame([], [], [])

  /** The payload ReceiveFrame parses: decompressed exactly when the header's second int is 1. */
  function Unpacked(header: seq<byte>, payload: seq<byte>, decompress: seq<byte> -> seq<byte>): seq<byte>
    requires |header| == 8
  {
    if ReadInt32(header, 4) == 1 then decompress(payload) else payload
  }

  /** What a restart confirmation byte means to the server: any byte but 0 is an error. */
  function RestartError(reply: seq<byte>): (error: bool)
    requires |reply| >= 1
    ensures error <==> reply[0] != 0
  {
    reply[0] != 0
  }

  /** The server reads a failed restart from exactly the client's failure reply. */
  lemma {:induction false} RestartReplyDecoded(t: Tags, success: bool)
    ensures RestartError(RestartConfirmation(t, success)[1..]) <==> !success
  {
    var m := RestartConfirmation(t, success);
    assert m[1..][0] == m[1];
  }

  // ---------------------------------------------------------------------
  // The frame parse
  // ---------------------------------------------------------------------

  /** The vertex section: three colour bytes, then three shorts, per vertex. */
  method ReadPoints(buf: seq<byte>, n: nat) returns (rgb: seq<byte>, verts: seq<int>)
    requires 4 + PointRecordSize * n <= |buf|
    ensures (rgb, verts) == PointsAt(buf, 4, n)
  {
    var start := 4;
    rgb, verts := [], [];
    var i := 0;
    while i < n
      invariant 0 <= i <= n
      invariant start == 4 + PointRecordSize * i
      invariant (rgb, verts) == PointsAt(buf, 4, i)
    {
      rgb := rgb + [buf[start], buf[start + 1], buf[start + 2]];
      start := start + 3;
      verts := verts + [ReadInt16(buf, start), ReadInt16(buf, start + 2), ReadInt16(buf, start + 4)];
      start := start + 6;
      i := i + 1;
    }
  }

  /** One body: the tracked flag (any nonzero byte is true), the joint count, then 28 bytes per joint. */
  method ReadBody(buf: seq<byte>, at: nat) returns (body: ServerBody, next: nat)
    requires BodyAt(buf, at).Some?
    ensures BodyAt(buf, at) == Some((body, next))
  {
    var start := at;
    var tracked := buf[start] != 0;
    start := start + 1;
    var nJoints := ReadInt32(buf, start);
    start := start + 4;
    var joints := [];
    var j := 0;
    while j < nJoints
      invariant 0 <= j <= nJoints
      invariant start == at + 5 + JointRecordSize * j
      invariant joints == JointsAt(buf, at + 5, j)
    {
      joints := joints + [JointAt(buf, start)];
      start := start + JointRecordSize;
      j := j + 1;
    }
    body, next := ServerBody(tracked, joints), start;
  }

  /** The body section: `n` bodies one after the other from `at`. */
  method ReadBodies(buf: seq<byte>, at: nat, n: int) returns (bodies: seq<ServerBody>)
    requires BodiesAt(buf, at, Max0(n)).Some?
    ensures BodiesAt(buf, at, Max0(n)) == Some(bodies)
  {
    var start := at;
    bodies := [];
    var i := 0;
    while i < n
      invariant 0 <= i <= Max0(n)
      invariant BodiesAt(buf, start, Max0(n) - i).Some?
      invariant BodiesAt(buf, at, Max0(n)).value == bodies + BodiesAt(buf, start, Max0(n) - i).value
    {
      ghost var rest := BodiesAt(buf, start, Max0(n) - i).value;
      var body, next := ReadBody(buf, start);
      assert rest == [body] + BodiesAt(buf, next, Max0(n) - i - 1).value;
      bodies := bodies + [body];
      start := next;
      i := i + 1;
    }
    assert BodiesAt(buf, start, 0) == Some([]);
    assert bodies + [] == bodies;
  }

  /** ReceiveFrame's parse of a whole payload, which must be well formed (the C# code throws otherwise). */
  method ReadFrame(buf: seq<byte>) returns (frame: Frame)
    requires ParseFrame(buf).Some?
    ensures ParseFrame(buf) == Some(frame)
  {
    var nVertices := ReadInt32(buf, 0);
    var n := Max0(nVertices);
    var rgb, verts := ReadPoints(buf, n);
    var start := 4 + PointRecordSize * n;
    var nBodies := ReadInt32(buf, start);
    var bodies := ReadBodies(buf, start + 4, nBodies);
    frame := Frame(rgb, verts, bodies);
  }

  /**
   * The server unpacks the payload a client sent, compressed or not,
   * provided decompression undoes the client's compression; when no body has
   * a joint, that payload parses as the frame sent.
   */
  lemma {:induction false} SentFrameUnpacks(compress: (seq<byte>, int) -> seq<byte>, decompress: seq<byte> -> seq<byte>,
                                           compression: bool, level: int,
                                           vertices: seq<Point3s>, colors: seq<RGB>, bodies: seq<Body>)
    requires FrameFits(vertices, colors, bodies)
    requires var raw := AsWrittenPayload(vertices, colors, bodies); decompress(compress(raw, level)) == raw
    requires var raw := AsWrittenPayload(vertices, colors, bodies); IsInt32(|compress(raw, level)|)
    ensures var raw := AsWrittenPayload(vertices, colors, bodies);
      var payload := if compression then compress(raw, level) else raw;
      var m := FrameHeader(|payload|, compression) + payload;
      ReadInt32(m[..8], 0) == |payload| && Unpacked(m[..8], m[8..], decompress) == raw &&
      (TotalJoints(bodies) == 0 ==> ParseFrame(raw) == Some(ExpectedFrame(vertices, colors, bodies)))
  {
    var raw := AsWrittenPayload(vertices, colors, bodies);
    var payload := if compression then compress(raw, level) else raw;
    var h := FrameHeader(|payload|, compression);
    var m := h + payload;
    assert m[..8] == h && m[8..] == payload;
    HeaderRoundTrip(|payload|, compression);
    AsWrittenWithoutJoints(vertices, colors, bodies);
  }

  /** A positive length announces a payload of that many bytes that parses (the C# code throws otherwise). */
  predicate FrameArrives(header: seq<byte>, payload: seq<byte>, decompress: seq<byte> -> seq<byte>, connected: bool)
    requires |header| == 8
  {
    connected && ReadInt32(header, 0) > 0 ==>
      |payload| == ReadInt32(header, 0) && ParseFrame(Unpacked(header, payload, decompress)).Some?
  }

  /** The frame the lists hold after ReceiveFrame: empty unless a positive length arrived while connected. */
  function IncomingFrame(header: seq<byte>, payload: seq<byte>, decompress: seq<byte> -> seq<byte>, connected: bool): Frame
    requires |header| == 8 && FrameArrives(header, payload, decompress, connected)
  {
    if connected && ReadInt32(header, 0) > 0 then ParseFrame(Unpacked(header, payload, decompress)).value else NoFrame
  }

  /** A length of -1 on a live connection: the client has no stored frames left. */
  predicate EndOfStoredFrames(header: seq<byte>, connected: bool)
    requires |header| == 8
  {
    connected && ReadInt32(header, 0) == -1
  }

  /**
   * ReceiveFrame after the lists are cleared: a lost connection returns at
   * once, a length of -1 reports the end of the stored frames, any other
   * length below 1 is ignored, and otherwise the payload is decompressed
   * when the header's flag is 1 and parsed.
   */
  method TakeFrame(header: seq<byte>, payload: seq<byte>, decompress: seq<byte> -> seq<byte>, connected: bool)
    returns (frame: Frame, endOfStored: bool)
    requires |header| == 8 && FrameArrives(header, payload, decompress, connected)
    ensures frame == IncomingFrame(header, payload, decompress, connected)
    ensures endOfStored == EndOfStoredFrames(header, connected)
  {
    frame, endOfStored := NoFrame, false;
    if !connected {
      return;
    }
    var nToRead := ReadInt32(header, 0);
    var compressed := ReadInt32(header, 4);
    if nToRead == -1 {
      endOfStored := true;
      return;
    }
    if nToRead <= 0 {
      return;
    }
    var buffer := payload;
    if compressed == 1 {
      buffer := decompress(buffer);
    }
    frame := ReadFrame(buffer);
  }

  // ---------------------------------------------------------------------
  // The socket
  // ---------------------------------------------------------------------

  class KinectSocket {
    var frameCaptured: bool
    var latestFrameReceived: bool
    var storedFrameReceived: bool
    var noMoreStoredFrames: bool
    var configurationReceived: bool
    var calibrated: bool
    var reinitialized: bool
    var reinitializationError: bool
    var configuration: KinectConfiguration.KinectConfiguration?
    /** oWorldTransform: a 3x3 rotation row by row and a translation. */
    var worldR: seq<Float32>
    var worldT: seq<Float32>
    /** lFrameRGB, lFrameVerts (in millimetres) and lBodies. */
    var frameRGB: seq<byte>
    var frameVerts: seq<int>
    var bodies: seq<ServerBody>
    var sent: seq<byte>

    function State(): SocketState
      reads this
    {
      SocketState(frameCaptured, latestFrameReceived, storedFrameReceived, noMoreStoredFrames,
                  configurationReceived, calibrated, reinitialized, reinitializationError,
                  worldR, worldT, Frame(frameRGB, frameVerts, bodies), sent)
    }

    /** A new connection: no frame, no configuration yet, and no stored frames until some are requested. */
    constructor (worldR: seq<Float32>, worldT: seq<Float32>)
      ensures State() == SocketState(false, false, false, true, false, false, false, false,
                                     worldR, worldT, NoFrame, [])
      ensures configuration == null
    {
      frameCaptured, latestFrameReceived, storedFrameReceived, noMoreStoredFrames := false, false, false, true;
      configurationReceived, calibrated, reinitialized, reinitializationError := false, false, false, false;
      configuration := null;
      this.worldR, this.worldT := worldR, worldT;
      frameRGB, frameVerts, bodies := [], [], [];
      sent := [];
    }

    method CaptureFrame(t: Tags)
      modifies this
      ensures State() == old(State()).(frameCaptured := false, sent := old(sent) + [t.captureFrame])
      ensures configuration == old(configuration)
    {
      frameCaptured := false;
      sent := sent + [t.captureFrame];
    }

    method Calibrate(t: Tags)
      modifies this
      ensures State() == old(State()).(calibrated := false, sent := old(sent) + [t.calibrate])
      ensures configuration == old(configuration)
    {
      calibrated := false;
      sent := sent + [t.calibrate];
    }

    /** The settings' byte list behind the tag and its length, sent only while connected. */
    method SendSettings(t: Tags, settings: ClientSettings.ClientSettings, connected: bool)
      requires ClientSettings.WellFormed(settings.Wire())
      requires IsInt32(|ClientSettings.ByteList(settings.Wire())|)
      modifies this
      ensures State() == old(State()).(sent := old(sent) +
        if connected then SettingsMessage(t, ClientSettings.ByteList(settings.Wire())) else [])
      ensures configuration == old(configuration)
    {
      var data := settings.ToByteList();
      var message := [t.receiveSettings] + (EncodeInt32(|data|) + data);
      if connected {
        sent := sent + message;
      }
    }

    method RequestStoredFrame(t: Tags)
      modifies this
      ensures State() == old(State()).(noMoreStoredFrames := false, storedFrameReceived := false,
                                       sent := old(sent) + [t.requestStoredFrame])
      ensures configuration == old(configuration)
    {
      sent := sent + [t.requestStoredFrame];
      noMoreStoredFrames := false;
      storedFrameReceived := false;
    }

    method RequestConfiguration(t: Tags)
      modifies this
      ensures State() == old(State()).(configurationReceived := false, sent := old(sent) + [t.requestConfiguration])
      ensures configuration == old(configuration)
    {
      sent := sent + [t.requestConfiguration];
      configurationReceived := false;
    }

    method RequestLastFrame(t: Tags)
      modifies this
      ensures State() == old(State()).(latestFrameReceived := false, sent := old(sent) + [t.requestLastFrame])
      ensures configuration == old(configuration)
    {
      sent := sent + [t.requestLastFrame];
      latestFrameReceived := false;
    }

    /**
     * The tag and the configuration's bytes, sent only while connected; the
     * new configuration is kept either way. ToBytes' buffer length is a
     * parameter (the C# field it uses is not declared).
     */
    method SendConfiguration(t: Tags, newConfig: KinectConfiguration.KinectConfiguration, length: nat, connected: bool)
      requires length >= KinectConfiguration.FilledBytes && |newConfig.serialNumber| >= KinectConfiguration.SerialLength
      modifies this
      ensures State() == old(State()).(sent := old(sent) +
        if connected then ConfigurationMessage(t, KinectConfiguration.Layout(
          newConfig.depthMode, newConfig.softwareSyncState, newConfig.hardwareSyncState, newConfig.serialNumber,
          newConfig.filterDepthMap, newConfig.filterDepthMapSize, length)) else [])
      ensures configuration == newConfig
    {
      var data := newConfig.ToBytes(length);
      assert data[..] == KinectConfiguration.Layout(
        newConfig.depthMode, newConfig.softwareSyncState, newConfig.hardwareSyncState, newConfig.serialNumber,
        newConfig.filterDepthMap, newConfig.filterDepthMapSize, length);
      var message := [t.setConfiguration] + data[..];
      if connected {
        sent := sent + message;
      }
      configuration := newConfig;
    }

    /** The tag, the world rotation row by row and the world translation, sent only while connected. */
    method SendCalibrationData(t: Tags, connected: bool)
      requires IsPose(worldR, worldT)
      modifies this
      ensures State() == old(State()).(sent := old(sent) + if connected then CalibrationMessage(t, old(worldR), old(worldT)) else [])
      ensures configuration == old(configuration)
    {
      var data := [t.receiveCalibration] + (EncodeFloats(worldR) + EncodeFloats(worldT));
      if connected {
        sent := sent + data;
      }
    }

    method ClearStoredFrames(t: Tags)
      modifies this
      ensures State() == old(State()).(sent := old(sent) + [t.clearStoredFrames])
      ensures configuration == old(configuration)
    {
      sent := sent + [t.clearStoredFrames];
    }

    method ReinitializeAndConfirm(t: Tags)
      modifies this
      ensures State() == old(State()).(reinitialized := false, reinitializationError := false,
                                       sent := old(sent) + [t.reinitializeWithCurrentSettings])
      ensures configuration == old(configuration)
    {
      reinitialized := false;
      reinitializationError := false;
      sent := sent + [t.reinitializeWithCurrentSettings];
    }

    /**
     * The bytes after a calibration tag: the marker id (read and unused),
     * nine rotation floats, then three translation floats.
     */
    method ReceiveCalibrationData(reply: seq<byte>)
      requires |reply| >= 4 + 4 * 12
      modifies this
      ensures State() == old(State()).(calibrated := true, worldR := ServerCalibration(reply).r,
                                       worldT := ServerCalibration(reply).tr)
      ensures configuration == old(configuration)
    {
      calibrated := true;
      var markerId := ReadInt32(reply, 0);
      worldR := ReadFloats(reply, 4, 9);
      worldT := ReadFloats(reply, 40, 3);
    }

    method RecieveRestartConfirmation(reply: seq<byte>)
      requires |reply| >= 1
      modifies this
      ensures State() == old(State()).(reinitialized := true, reinitializationError := RestartError(reply))
      ensures configuration == old(configuration)
    {
      reinitialized := true;
      if reply[0] == 0 {
        reinitializationError := false;
      } else {
        reinitializationError := true;
      }
    }

    /** Four bytes become a new configuration object. */
    method RecieveConfiguration(reply: seq<byte>)
      requires |reply| >= 4
      modifies this
      ensures State() == old(State()).(configurationReceived := true)
      ensures fresh(configuration) && configuration != null
      ensures KinectConfiguration.ConfigHead(configuration.depthMode, configuration.softwareSyncState,
                                             configuration.hardwareSyncState, configuration.syncOffset)
              == KinectConfiguration.HeadOf(reply[..4])
    {
      var buffer := reply[..4];
      configuration := new KinectConfiguration.KinectConfiguration.FromBytes(buffer);
      configurationReceived := true;
    }

    /**
     * ReceiveFrame: the frame lists are cleared, then filled with what
     * arrived; a length of -1 also records that no stored frames are left.
     */
    method ReceiveFrame(header: seq<byte>, payload: seq<byte>, decompress: seq<byte> -> seq<byte>, connected: bool)
      requires |header| == 8
      requires FrameArrives(header, payload, decompress, connected)
      modifies this
      ensures State() == old(State()).(frame := IncomingFrame(header, payload, decompress, connected),
        noMoreStoredFrames := old(noMoreStoredFrames) || EndOfStoredFrames(header, connected))
      ensures configuration == old(configuration)
    {
      frameRGB, frameVerts, bodies := [], [], [];
      var frame, endOfStored := TakeFrame(header, payload, decompress, connected);
      if endOfStored {
        noMoreStoredFrames := true;
      }
      frameRGB, frameVerts, bodies := frame.rgb, frame.verts, frame.bodies;
    }
  }
}
