/**
 * The client's side of a session (liveScanClient.cpp): the socket loop that
 * reads the server's messages out of a received buffer and the replies it
 * sends after the loop, the per-frame update that acts on the requests the
 * loop recorded, device reinitialisation, and the post-sync rewrite of a
 * recording. Everything the client sends is appended to `outbox`; file and
 * device actions are appended to `actions`; outcomes of the device, the file
 * system, zstd and the unseen KinectConfiguration code are parameters.
 */
module ClientProtocol {
  import opened Bytes
  import opened Wrappers
  import opened Points
  import opened FrameWire
  import opened Messages
  import opened ClientState
  import opened ClientUpdate

  // ---------------------------------------------------------------------
  // SendFrame
  // ---------------------------------------------------------------------

  /**
   * SendFrame: the 8-byte header with the size and compression flag of what
   * follows, then the frame payload as SendFrame builds it (joint bytes at the
   * end), compressed at the client's level when compression is on.
   */
  function FrameMessage(env: Env, compression: bool, level: int, vertices: seq<Point3s>, colors: seq<RGB>,
                        bodies: seq<Body>): (m: seq<byte>)
    requires FrameFits(vertices, colors, bodies)
    ensures |m| >= 8
  {
    var raw: FrameBytes := AsWrittenPayload(vertices, colors, bodies);
    var payload := if compression then env.compress(raw, level) else raw;
    FrameHeader(|payload|, compression) + payload
  }

  /**
   * An uncompressed frame message announces its length and flag 0 and carries
   * the as-written payload; when no body has a joint, it reads back on the
   * server as the frame that was sent.
   */
  lemma {:induction false} FrameMessageReadsBack(env: Env, level: int, vertices: seq<Point3s>, colors: seq<RGB>,
                                                  bodies: seq<Body>)
    requires FrameFits(vertices, colors, bodies)
    ensures var m := FrameMessage(env, false, level, vertices, colors, bodies);
      ReadInt32(m, 0) == |m| - 8 && ReadInt32(m, 4) != 1 && m[8..] == AsWrittenPayload(vertices, colors, bodies) &&
      (TotalJoints(bodies) == 0 ==> ParseFrame(m[8..]) == Some(ExpectedFrame(vertices, colors, bodies)))
  {
    var raw := AsWrittenPayload(vertices, colors, bodies);
    var m := FrameMessage(env, false, level, vertices, colors, bodies);
    var h := FrameHeader(|raw|, false);
    assert m == h + raw;
    assert m[8..] == raw;
    HeaderRoundTrip(|raw|, false);
    ReadInt32Front(h, raw, 0);
    ReadInt32Front(h, raw, 4);
    AsWrittenWithoutJoints(vertices, colors, bodies);
  }

  /** A compressed frame message carries the compressor's output and announces its size and the flag 1. */
  lemma {:induction false} CompressedFrameMessage(env: Env, level: int, vertices: seq<Point3s>, colors: seq<RGB>,
                                                  bodies: seq<Body>)
    requires FrameFits(vertices, colors, bodies)
    ensures var m := FrameMessage(env, true, level, vertices, colors, bodies);
      ReadInt32(m, 0) == |m| - 8 && ReadInt32(m, 4) == 1 &&
      m[8..] == env.compress(AsWrittenPayload(vertices, colors, bodies), level)
  {
    var z := env.compress(AsWrittenPayload(vertices, colors, bodies), level);
    var m := FrameMessage(env, true, level, vertices, colors, bodies);
    var h := FrameHeader(|z|, true);
    assert m == h + z;
    assert m[8..] == z;
    HeaderRoundTrip(|z|, true);
    ReadInt32Front(h, z, 0);
    ReadInt32Front(h, z, 4);
  }

  // ---------------------------------------------------------------------
  // The socket loop (HandleSocket)
  // ---------------------------------------------------------------------

  predicate RecordFits(r: Record, bodies: seq<Body>)
  {
    FrameFits(r.points, r.colors, bodies)
  }

  /** Every frame the socket loop may send fits SendFrame's int fields. */
  predicate FramesFit(last: StoredFrame, records: seq<Record>)
  {
    FrameFits(last.vertices, last.rgb, last.bodies) &&
    forall k :: 0 <= k < |records| ==> RecordFits(records[k], last.bodies)
  }

  /** What the socket loop leaves alone: the recording, the frames it sends, the pending replies, the marker id. */
  predicate KeepsRecording(c: Client, d: Client)
  {
    d.connected == c.connected && d.counters == c.counters && d.files.records == c.files.records &&
    d.lastFrame == c.lastFrame && d.pending == c.pending &&
    d.calibration.usedMarkerId == c.calibration.usedMarkerId &&
    (CalibrationFits(c.calibration) ==> CalibrationFits(d.calibration)) &&
    (|c.settings.bounds| == 6 ==> |d.settings.bounds| == 6) &&
    (|c.sync.frameID| == |c.sync.postSyncedFrameID| ==> |d.sync.frameID| == |d.sync.postSyncedFrameID|)
  }

  /** A pass of the loop that succeeds moves the cursor forward and keeps the recording. */
  predicate Advances(c: Client, i: nat, r: Option<(Client, nat)>)
  {
    r.Some? ==> r.value.1 > i && KeepsRecording(c, r.value.0)
  }

  /** MSG_SET_CONFIGURATION: the next 42 bytes go to SetFromBytes and the cursor resumes right after them. */
  function ConfigurationStep(env: Env, c: Client, received: seq<byte>, i: nat): (r: Option<(Client, nat)>)
    ensures Advances(c, i, r)
  {
    if i + 1 + ConfigurationLength > |received| then None
    else
      var message := received[i + 1..i + 1 + ConfigurationLength];
      Some((c.(configuration := env.setFromBytes(c.configuration, message)), i + 1 + ConfigurationLength))
  }

  /** exportFormat 0 selects BGRA32, 1 selects MJPG; any other value keeps the current format. */
  function ExportColorFormat(exportFormat: int, current: ColorFormat): ColorFormat
  {
    if exportFormat == 1 then MJPG else if exportFormat == 0 then BGRA32 else current
  }

  /** The members a settings message sets; the length field is read and ignored. */
  function ApplySettings(c: Client, m: SettingsMsg): Client
  {
    c.(settings := Settings(m.bounds, m.filter, m.filterNeighbors, m.filterThreshold, m.streamOnlyBodies,
                            m.compressionLevel, m.compressionLevel > 0, m.autoExposureEnabled, m.exposureStep,
                            m.extrinsicsStyle),
       calibration := c.calibration.(markerPoses := m.markers),
       configuration := c.configuration.(colorFormat := ExportColorFormat(m.exportFormat, c.configuration.colorFormat)),
       requests := c.requests.(updateSettings := true))
  }

  /** MSG_RECEIVE_SETTINGS: the settings after the tag, and the cursor right after them. */
  function SettingsStep(c: Client, received: seq<byte>, i: nat): (r: Option<(Client, nat)>)
    ensures Advances(c, i, r)
  {
    match ParseSettings(received, i + 1)
    case None => None
    case Some(m) => Some((ApplySettings(c, m), SettingsEnd(i + 1, |m.markers|)))
  }

  /** SendFrame with the client's compression settings. */
  function SentFrame(env: Env, c: Client, vertices: seq<Point3s>, colors: seq<RGB>): seq<byte>
    requires FrameFits(vertices, colors, c.lastFrame.bodies)
  {
    FrameMessage(env, c.settings.frameCompression, c.settings.compressionLevel, vertices, colors, c.lastFrame.bodies)
  }

  /** MSG_REQUEST_STORED_FRAME: the tag, then the next recorded frame, or the size -1 when there is none. */
  function StoredFrameStep(t: Tags, env: Env, c: Client): (d: Client)
    requires FramesFit(c.lastFrame, c.files.records)
    ensures KeepsRecording(c, d)
  {
    var out := c.outbox + [t.storedFrame];
    if c.files.readPos < |c.files.records| then
      var r := c.files.records[c.files.readPos];
      c.(outbox := out + SentFrame(env, c, r.points, r.colors), files := c.files.(readPos := c.files.readPos + 1))
    else
      c.(outbox := out + EncodeInt32(-1))
  }

  /** MSG_REQUEST_LAST_FRAME: the tag, then the last stored frame. */
  function LastFrameStep(t: Tags, env: Env, c: Client): (d: Client)
    requires FramesFit(c.lastFrame, c.files.records)
    ensures KeepsRecording(c, d)
  {
    c.(outbox := c.outbox + [t.lastFrame] + SentFrame(env, c, c.lastFrame.vertices, c.lastFrame.rgb))
  }

  /** MSG_RECEIVE_CALIBRATION: the world pose after the tag, and the cursor right after it. */
  function CalibrationStep(c: Client, received: seq<byte>, i: nat): (r: Option<(Client, nat)>)
    ensures Advances(c, i, r)
  {
    if i + 49 > |received| then None
    else
      var pose := ClientCalibration(received, i);
      Some((c.(calibration := c.calibration.(worldR := pose.0, worldT := pose.1)), i + 49))
  }

  /** std::string::assign(received, at, len): at most len characters from `at`; a negative len takes the rest. */
  function DirPath(received: seq<byte>, at: nat, len: int): seq<byte>
    requires at <= |received|
  {
    if len < 0 || at + len > |received| then received[at..] else received[at..at + len]
  }

  /**
   * MSG_CREATE_DIR: the path after the length field, the confirmation of
   * CreateRecordDirectory, and the calibration file for raw recordings. The
   * cursor moves past the length field only, so the path's bytes after its
   * first are read as messages.
   */
  function CreateDirStep(t: Tags, env: Env, c: Client, received: seq<byte>, i: nat): (r: Option<(Client, nat)>)
    ensures Advances(c, i, r)
  {
    if i + 5 > |received| then None
    else
      var path := DirPath(received, i + 5, ReadInt32(received, i + 1));
      var json := if c.configuration.colorFormat != BGRA32 then [CalibrationJsonWritten] else [];
      Some((c.(outbox := c.outbox + DirConfirmation(t, env.dirCreated(path)),
               actions := c.actions + [RecordDirectoryCreated(path)] + json), i + 6))
  }

  /** Where the two id lists of a post-sync list of n entries end. */
  function ListsEnd(i: nat, n: nat): nat
  {
    i + 5 + 8 * n
  }

  /**
   * MSG_RECEIVE_POSTSYNC_LIST: the count, the local frame ids and the synced
   * ids. There is no step back before the loop's increment, so the cursor
   * resumes one byte after the lists.
   */
  function PostsyncListStep(c: Client, received: seq<byte>, i: nat): (r: Option<(Client, nat)>)
    ensures Advances(c, i, r)
  {
    if i + 5 > |received| then None
    else
      var n := ReadInt32(received, i + 1);
      if n < 0 || ListsEnd(i, n) > |received| then None
      else
        Some((c.(sync := SyncLists(ReadInt32s(received, i + 5, n), ReadInt32s(received, i + 5 + 4 * n, n)),
                 requests := c.requests.(postSyncedListReceived := true)), ListsEnd(i, n) + 1))
  }

  /** A request the server makes with its tag alone. */
  function FlagStep(c: Client, k: Kind): (d: Client)
    ensures KeepsRecording(c, d)
  {
    var q := c.requests;
    match k
    case CaptureSingleFrame => c.(requests := q.(captureSingleFrame := true))
    case StartCapturingFrames => c.(requests := q.(captureFrames := true))
    case StopCapturingFrames => c.(requests := q.(captureFrames := false))
    case PreRecordProcessStart => c.(requests := q.(startPreRecordingProcess := true))
    case PostRecordProcessStart => c.(requests := q.(startPostRecordingProcess := true))
    case Calibrate => c.(requests := q.(calibrate := true))
    case Reinitialize => c.(requests := q.(restartCamera := true))
    case RequestConfiguration => c.(requests := q.(requestConfiguration := true))
    case RequestTimestampList => c.(requests := q.(sendTimestampList := true))
    case ClearStoredFrames => c.(actions := c.actions + [StoredFramesClosed])
    case _ => c
  }

  /**
   * One pass of the socket loop at cursor i: the new client and where the
   * loop goes on. None where the C++ code would read past the received
   * bytes or throw on a negative count.
   */
  function Step(t: Tags, env: Env, c: Client, received: seq<byte>, i: nat): (r: Option<(Client, nat)>)
    requires i < |received| && FramesFit(c.lastFrame, c.files.records)
    ensures Advances(c, i, r)
  {
    match KindOf(t, received[i])
    case None => Some((c, i + 1))
    case Some(k) =>
      match k
      case SetConfiguration => ConfigurationStep(env, c, received, i)
      case ReceiveSettings => SettingsStep(c, received, i)
      case RequestStoredFrame => Some((StoredFrameStep(t, env, c), i + 1))
      case RequestLastFrame => Some((LastFrameStep(t, env, c), i + 1))
      case ReceiveCalibration => CalibrationStep(c, received, i)
      case CreateDir => CreateDirStep(t, env, c, received, i)
      case ReceivePostsyncList => PostsyncListStep(c, received, i)
      case _ => Some((FlagStep(c, k), i + 1))
  }

  /** The socket loop from cursor i to the end of the received bytes. */
  function Run(t: Tags, env: Env, c: Client, received: seq<byte>, i: nat): (r: Option<Client>)
    requires FramesFit(c.lastFrame, c.files.records)
    ensures r.Some? ==> KeepsRecording(c, r.value)
    decreases |received| - i
  {
    if i >= |received| then Some(c)
    else
      match Step(t, env, c, received, i)
      case None => None
      case Some((d, next)) => Run(t, env, d, received, next)
  }

  /** The replies after the loop need a calibration and a timestamp list that fit their int fields. */
  predicate RepliesFit(c: Client)
  {
    (c.pending.confirmCalibrated ==> CalibrationFits(c.calibration)) &&
    (c.requests.sendTimestampList ==> TimestampsFit(c.counters.frameTimestamps, c.counters.frameCount))
  }

  /** The replies after the loop, in the order the code sends them. */
  function Replies(t: Tags, env: Env, c: Client): seq<byte>
    requires RepliesFit(c)
  {
    var p, cal := c.pending, c.calibration;
    (if p.confirmCaptured then [t.confirmCaptured] else []) +
    (if p.confirmCalibrated then CalibrationConfirmation(t, cal.usedMarkerId, cal.worldR, cal.worldT) else []) +
    (if p.confirmPreRecordingProcess then [t.confirmPreRecordProcess] else []) +
    (if p.confirmPostRecordingProcess then [t.confirmPostRecordProcess] else []) +
    (if p.sendConfiguration then [t.configuration] + env.toBytes(c.configuration) else []) +
    (if c.requests.sendTimestampList then TimestampList(t, c.counters.frameTimestamps, c.counters.frameCount) else [])
  }

  /** After the loop: every pending reply is appended to what was sent, in order, and its flag cleared. */
  function Flush(t: Tags, env: Env, c: Client): Client
    requires RepliesFit(c)
  {
    var p, cal, k := c.pending, c.calibration, c.counters;
    c.(outbox := c.outbox
         + (if p.confirmCaptured then [t.confirmCaptured] else [])
         + (if p.confirmCalibrated then CalibrationConfirmation(t, cal.usedMarkerId, cal.worldR, cal.worldT) else [])
         + (if p.confirmPreRecordingProcess then [t.confirmPreRecordProcess] else [])
         + (if p.confirmPostRecordingProcess then [t.confirmPostRecordProcess] else [])
         + (if p.sendConfiguration then [t.configuration] + env.toBytes(c.configuration) else [])
         + (if c.requests.sendTimestampList then TimestampList(t, k.frameTimestamps, k.frameCount) else []),
       pending := NoPending,
       requests := c.requests.(sendTimestampList := false))
  }

  /** What Flush sends is the replies, in the order the code tests their flags. */
  lemma {:induction false} FlushSendsReplies(t: Tags, env: Env, c: Client)
    requires RepliesFit(c)
    ensures Flush(t, env, c).outbox == c.outbox + Replies(t, env, c)
  {
    var p, cal, k := c.pending, c.calibration, c.counters;
    var r1 := if p.confirmCaptured then [t.confirmCaptured] else [];
    var r2 := if p.confirmCalibrated then CalibrationConfirmation(t, cal.usedMarkerId, cal.worldR, cal.worldT) else [];
    var r3 := if p.confirmPreRecordingProcess then [t.confirmPreRecordProcess] else [];
    var r4 := if p.confirmPostRecordingProcess then [t.confirmPostRecordProcess] else [];
    var r5 := if p.sendConfiguration then [t.configuration] + env.toBytes(c.configuration) else [];
    var r6 := if c.requests.sendTimestampList then TimestampList(t, k.frameTimestamps, k.frameCount) else [];
    var o := c.outbox;
    assert Replies(t, env, c) == r1 + r2 + r3 + r4 + r5 + r6;
    AppendRegroups(o, r1 + r2 + r3 + r4 + r5, r6);
    AppendRegroups(o, r1 + r2 + r3 + r4, r5);
    AppendRegroups(o, r1 + r2 + r3, r4);
    AppendRegroups(o, r1 + r2, r3);
    AppendRegroups(o, r1, r2);
  }

  lemma AppendRegroups(o: seq<byte>, a: seq<byte>, b: seq<byte>)
    ensures o + (a + b) == o + a + b
  {
  }

  /** The loop leaves a consistent client consistent, and its replies fit their int fields. */
  lemma {:induction false} RepliesAfterRun(c: Client, d: Client)
    requires Consistent(c) && TimestampsFit(c.counters.frameTimestamps, c.counters.frameCount)
    requires KeepsRecording(c, d)
    ensures Consistent(d) && RepliesFit(d)
  {
  }

  /** Sending the replies keeps the client consistent. */
  lemma {:induction false} FlushConsistent(t: Tags, env: Env, c: Client)
    requires Consistent(c) && RepliesFit(c)
    ensures Consistent(Flush(t, env, c))
  {
  }

  /** The cursor loops that read `n` floats one after another from `at`. */
  method ReadFloatsFrom(received: seq<byte>, at: nat, n: nat) returns (fs: seq<Float32>)
    requires at + 4 * n <= |received|
    ensures fs == ReadFloats(received, at, n)
  {
    fs := [];
    var pos := at;
    var j := 0;
    while j < n
      invariant 0 <= j <= n && pos == at + 4 * j
      invariant fs + ReadFloats(received, pos, n - j) == ReadFloats(received, at, n)
    {
      fs := fs + [ReadFloat(received, pos)];
      pos := pos + 4;
      j := j + 1;
    }
  }

  /** One marker pose of a settings message: the rotation row by row, the translation, the id. */
  method ReadMarkerPose(received: seq<byte>, at: nat) returns (pose: MarkerPoseMsg)
    requires at + MarkerMsgSize <= |received|
    ensures pose == ParseMarker(received, at)
  {
    var r := ReadFloatsFrom(received, at, 9);
    var tr := ReadFloatsFrom(received, at + 36, 3);
    pose := MarkerPoseMsg(r, tr, ReadInt32(received, at + 48));
  }

  /** The settings fields before the markers, read one after another from `at`. */
  method ReadSettingsHead(received: seq<byte>, at: nat) returns (h: SettingsHead)
    requires at + 41 <= |received|
    ensures h == ParseHead(received, at)
  {
    var pos := at;
    var nBytes := ReadInt32(received, pos);
    pos := pos + 4;
    var bounds := ReadFloatsFrom(received, pos, 6);
    pos := pos + 24;
    var filter := received[pos] != 0;
    pos := pos + 1;
    var filterNeighbors := ReadInt32(received, pos);
    pos := pos + 4;
    var filterThreshold := ReadFloat(received, pos);
    pos := pos + 4;
    var nMarkers := ReadInt32(received, pos);
    h := SettingsHead(nBytes, bounds, filter, filterNeighbors, filterThreshold, nMarkers);
  }

  /** The marker loop of the settings reader: n poses of 52 bytes each from `at`. */
  method ReadMarkerPoses(received: seq<byte>, at: nat, n: int) returns (poses: seq<MarkerPoseMsg>)
    requires 0 <= n && at + MarkerMsgSize * n <= |received|
    ensures poses == ParseMarkers(received, at, n)
  {
    poses := [];
    var pos := at;
    var j := 0;
    while j < n
      invariant 0 <= j <= n && pos == at + MarkerMsgSize * j
      invariant poses + ParseMarkers(received, pos, n - j) == ParseMarkers(received, at, n)
    {
      var pose := ReadMarkerPose(received, pos);
      poses := poses + [pose];
      pos := pos + MarkerMsgSize;
      j := j + 1;
    }
  }

  /** The settings fields after the markers, read one after another from `at`. */
  method ReadSettingsTail(received: seq<byte>, at: nat) returns (tl: SettingsTail)
    requires at + 18 <= |received|
    ensures tl == ParseTail(received, at)
  {
    var pos := at;
    var streamOnlyBodies := received[pos] != 0;
    pos := pos + 1;
    var compressionLevel := ReadInt32(received, pos);
    pos := pos + 4;
    var autoExposureEnabled := received[pos] != 0;
    pos := pos + 1;
    var exposureStep := ReadInt32(received, pos);
    pos := pos + 4;
    var exportFormat := ReadInt32(received, pos);
    pos := pos + 4;
    var extrinsicsStyle := ReadInt32(received, pos);
    tl := SettingsTail(streamOnlyBodies, compressionLevel, autoExposureEnabled, exposureStep, exportFormat,
                       extrinsicsStyle);
  }

  /** The settings reader: the head, the marker loop, the tail. */
  method ReadSettings(received: seq<byte>, at: nat) returns (m: SettingsMsg)
    requires ParseSettings(received, at).Some?
    ensures ParseSettings(received, at) == Some(m)
  {
    var h := ReadSettingsHead(received, at);
    var poses := ReadMarkerPoses(received, at + 41, h.nMarkers);
    var tl := ReadSettingsTail(received, TailStart(at, h.nMarkers));
    m := Assemble(h, poses, tl);
  }

  /** The memcpy of n ints from `at`, one after another. */
  method ReadInt32sFrom(received: seq<byte>, at: nat, n: nat) returns (xs: seq<int>)
    requires at + 4 * n <= |received|
    ensures xs == ReadInt32s(received, at, n)
  {
    xs := [];
    var pos := at;
    var j := 0;
    while j < n
      invariant 0 <= j <= n && pos == at + 4 * j
      invariant xs + ReadInt32s(received, pos, n - j) == ReadInt32s(received, at, n)
    {
      xs := xs + [ReadInt32(received, pos)];
      pos := pos + 4;
      j := j + 1;
    }
  }

  /** The byte is the tag of one of the four requests the loop tests before its else-if chain. */
  predicate Leading(t: Tags, b: byte)
  {
    b == t.captureSingleFrame || b == t.startCapturingFrames || b == t.stopCapturingFrames ||
    b == t.preRecordProcessStart
  }

  /** The byte is one of the tags the else-if chain tests. */
  predicate InChain(t: Tags, b: byte)
  {
    b == t.postRecordProcessStart || b == t.calibrate || b == t.reinitializeWithCurrentSettings ||
    b == t.setConfiguration || FromSettings(t, b)
  }

  /** The byte is one of the tags the else-if chain tests from MSG_RECEIVE_SETTINGS on. */
  predicate FromSettings(t: Tags, b: byte)
  {
    b == t.receiveSettings || b == t.requestConfiguration || b == t.requestStoredFrame || FromLastFrame(t, b)
  }

  /** The byte is one of the tags the else-if chain tests from MSG_REQUEST_LAST_FRAME on. */
  predicate FromLastFrame(t: Tags, b: byte)
  {
    b == t.requestLastFrame || b == t.receiveCalibration || b == t.clearStoredFrames || FromCreateDir(t, b)
  }

  /** The byte is one of the last three tags the else-if chain tests. */
  predicate FromCreateDir(t: Tags, b: byte)
  {
    b == t.createDir || b == t.requestTimestampList || b == t.receivePostsyncList
  }

  /** The payload after the byte at i is in the received bytes, for every message that has one. */
  predicate Readable(t: Tags, env: Env, c: Client, received: seq<byte>, i: nat)
    requires i < |received|
  {
    var b := received[i];
    (b == t.setConfiguration ==> ConfigurationStep(env, c, received, i).Some?) &&
    (b == t.receiveSettings ==> SettingsStep(c, received, i).Some?) &&
    (b == t.receiveCalibration ==> CalibrationStep(c, received, i).Some?) &&
    (b == t.createDir ==> CreateDirStep(t, env, c, received, i).Some?) &&
    (b == t.receivePostsyncList ==> PostsyncListStep(c, received, i).Some?)
  }

  /** What one pass of the loop did with the byte at i, message by message: d is the client after it, next the cursor. */
  predicate Dispatched(t: Tags, env: Env, c: Client, received: seq<byte>, i: nat, d: Client, next: nat)
  {
    i < |received| && FramesFit(c.lastFrame, c.files.records) &&
    var b := received[i];
    (b == t.captureSingleFrame ==> d == FlagStep(c, CaptureSingleFrame) && next == i + 1) &&
    (b == t.startCapturingFrames ==> d == FlagStep(c, StartCapturingFrames) && next == i + 1) &&
    (b == t.stopCapturingFrames ==> d == FlagStep(c, StopCapturingFrames) && next == i + 1) &&
    (b == t.preRecordProcessStart ==> d == FlagStep(c, PreRecordProcessStart) && next == i + 1) &&
    (b == t.postRecordProcessStart ==> d == FlagStep(c, PostRecordProcessStart) && next == i + 1) &&
    (b == t.calibrate ==> d == FlagStep(c, Calibrate) && next == i + 1) &&
    (b == t.reinitializeWithCurrentSettings ==> d == FlagStep(c, Reinitialize) && next == i + 1) &&
    (b == t.setConfiguration ==> ConfigurationStep(env, c, received, i) == Some((d, next))) &&
    (b == t.receiveSettings ==> SettingsStep(c, received, i) == Some((d, next))) &&
    (b == t.requestConfiguration ==> d == FlagStep(c, RequestConfiguration) && next == i + 1) &&
    (b == t.requestStoredFrame ==> d == StoredFrameStep(t, env, c) && next == i + 1) &&
    (b == t.requestLastFrame ==> d == LastFrameStep(t, env, c) && next == i + 1) &&
    (b == t.receiveCalibration ==> CalibrationStep(c, received, i) == Some((d, next))) &&
    (b == t.clearStoredFrames ==> d == FlagStep(c, ClearStoredFrames) && next == i + 1) &&
    (b == t.createDir ==> CreateDirStep(t, env, c, received, i) == Some((d, next))) &&
    (b == t.requestTimestampList ==> d == FlagStep(c, RequestTimestampList) && next == i + 1) &&
    (b == t.receivePostsyncList ==> PostsyncListStep(c, received, i) == Some((d, next))) &&
    (b !in Inbound(t) ==> d == c && next == i + 1)
  }

  /** What the four tests before the else-if chain did with the byte b: c before them, mid after. */
  predicate LeadingDone(t: Tags, b: byte, c: Client, mid: Client)
  {
    (b == t.captureSingleFrame ==> mid == FlagStep(c, CaptureSingleFrame)) &&
    (b == t.startCapturingFrames ==> mid == FlagStep(c, StartCapturingFrames)) &&
    (b == t.stopCapturingFrames ==> mid == FlagStep(c, StopCapturingFrames)) &&
    (b == t.preRecordProcessStart ==> mid == FlagStep(c, PreRecordProcessStart)) &&
    (!Leading(t, b) ==> mid == c)
  }

  /** What the else-if chain did with the byte at i: c before it, d and next after. */
  predicate ChainDone(t: Tags, env: Env, c: Client, received: seq<byte>, i: nat, d: Client, next: nat)
    requires i < |received|
  {
    FramesFit(c.lastFrame, c.files.records) &&
    var b := received[i];
    (b == t.postRecordProcessStart ==> d == FlagStep(c, PostRecordProcessStart) && next == i + 1) &&
    (b == t.calibrate ==> d == FlagStep(c, Kind.Calibrate) && next == i + 1) &&
    (b == t.reinitializeWithCurrentSettings ==> d == FlagStep(c, Reinitialize) && next == i + 1) &&
    (b == t.setConfiguration ==> ConfigurationStep(env, c, received, i) == Some((d, next))) &&
    (b == t.receiveSettings ==> SettingsStep(c, received, i) == Some((d, next))) &&
    (b == t.requestConfiguration ==> d == FlagStep(c, RequestConfiguration) && next == i + 1) &&
    (b == t.requestStoredFrame ==> d == StoredFrameStep(t, env, c) && next == i + 1) &&
    (b == t.requestLastFrame ==> d == LastFrameStep(t, env, c) && next == i + 1) &&
    (b == t.receiveCalibration ==> CalibrationStep(c, received, i) == Some((d, next))) &&
    (b == t.clearStoredFrames ==> d == FlagStep(c, ClearStoredFrames) && next == i + 1) &&
    (b == t.createDir ==> CreateDirStep(t, env, c, received, i) == Some((d, next))) &&
    (b == t.requestTimestampList ==> d == FlagStep(c, RequestTimestampList) && next == i + 1) &&
    (b == t.receivePostsyncList ==> PostsyncListStep(c, received, i) == Some((d, next))) &&
    (!InChain(t, b) ==> d == c && next == i + 1)
  }

  /** The four leading tests change nothing a message with a payload reads. */
  lemma {:induction false} ReadableAfterLeading(t: Tags, env: Env, c: Client, mid: Client, received: seq<byte>, i: nat)
    requires Distinct(t) && i < |received|
    requires LeadingDone(t, received[i], c, mid) && Readable(t, env, c, received, i)
    ensures Readable(t, env, mid, received, i)
  {
    AllTagsRead(t);
  }

  /** The leading tests followed by the chain make up one pass as Dispatched describes it. */
  lemma {:induction false} PassDispatched(t: Tags, env: Env, c: Client, mid: Client, received: seq<byte>, i: nat, d: Client, next: nat)
    requires Distinct(t) && i < |received| && FramesFit(c.lastFrame, c.files.records)
    requires LeadingDone(t, received[i], c, mid) && ChainDone(t, env, mid, received, i, d, next)
    ensures Dispatched(t, env, c, received, i, d, next)
  {
    AllTagsRead(t);
  }

  /** A step that does not fail has its payload in the received bytes. */
  lemma {:induction false} StepReadable(t: Tags, env: Env, c: Client, received: seq<byte>, i: nat)
    requires Distinct(t) && i < |received| && FramesFit(c.lastFrame, c.files.records)
    requires Step(t, env, c, received, i).Some?
    ensures Readable(t, env, c, received, i)
  {
    AllTagsRead(t);
  }

  /** With distinct tags, the pass the client's tests make is the step that reads the byte as its message. */
  lemma {:induction false} DispatchedIsStep(t: Tags, env: Env, c: Client, received: seq<byte>, i: nat, d: Client, next: nat)
    requires Distinct(t) && Dispatched(t, env, c, received, i, d, next)
    ensures Step(t, env, c, received, i) == Some((d, next))
  {
    var b := received[i];
    TagOfKind(t, b);
    match KindOf(t, b)
    case None =>
    case Some(k) =>
      match k
      case CaptureSingleFrame => assert b == t.captureSingleFrame;
      case StartCapturingFrames => assert b == t.startCapturingFrames;
      case StopCapturingFrames => assert b == t.stopCapturingFrames;
      case PreRecordProcessStart => assert b == t.preRecordProcessStart;
      case PostRecordProcessStart => assert b == t.postRecordProcessStart;
      case Calibrate => assert b == t.calibrate;
      case Reinitialize => assert b == t.reinitializeWithCurrentSettings;
      case SetConfiguration => assert b == t.setConfiguration;
      case ReceiveSettings => assert b == t.receiveSettings;
      case RequestConfiguration => assert b == t.requestConfiguration;
      case RequestStoredFrame => assert b == t.requestStoredFrame;
      case RequestLastFrame => assert b == t.requestLastFrame;
      case ReceiveCalibration => assert b == t.receiveCalibration;
      case ClearStoredFrames => assert b == t.clearStoredFrames;
      case CreateDir => assert b == t.createDir;
      case RequestTimestampList => assert b == t.requestTimestampList;
      case ReceivePostsyncList => assert b == t.receivePostsyncList;
  }

  /** With distinct tags every tag is read as its own message, so at most one test of the loop succeeds. */
  lemma {:induction false} AllTagsRead(t: Tags)
    requires Distinct(t)
    ensures KindOf(t, t.captureSingleFrame) == Some(CaptureSingleFrame)
    ensures KindOf(t, t.startCapturingFrames) == Some(StartCapturingFrames)
    ensures KindOf(t, t.stopCapturingFrames) == Some(StopCapturingFrames)
    ensures KindOf(t, t.preRecordProcessStart) == Some(PreRecordProcessStart)
    ensures KindOf(t, t.postRecordProcessStart) == Some(PostRecordProcessStart)
    ensures KindOf(t, t.calibrate) == Some(Calibrate)
    ensures KindOf(t, t.reinitializeWithCurrentSettings) == Some(Reinitialize)
    ensures KindOf(t, t.setConfiguration) == Some(SetConfiguration)
    ensures KindOf(t, t.receiveSettings) == Some(ReceiveSettings)
    ensures KindOf(t, t.requestConfiguration) == Some(RequestConfiguration)
    ensures KindOf(t, t.requestStoredFrame) == Some(RequestStoredFrame)
    ensures KindOf(t, t.requestLastFrame) == Some(RequestLastFrame)
    ensures KindOf(t, t.receiveCalibration) == Some(ReceiveCalibration)
    ensures KindOf(t, t.clearStoredFrames) == Some(ClearStoredFrames)
    ensures KindOf(t, t.createDir) == Some(CreateDir)
    ensures KindOf(t, t.requestTimestampList) == Some(RequestTimestampList)
    ensures KindOf(t, t.receivePostsyncList) == Some(ReceivePostsyncList)
  {
    KindOfTag(t, CaptureSingleFrame);
    KindOfTag(t, StartCapturingFrames);
    KindOfTag(t, StopCapturingFrames);
    KindOfTag(t, PreRecordProcessStart);
    KindOfTag(t, PostRecordProcessStart);
    KindOfTag(t, Calibrate);
    KindOfTag(t, Reinitialize);
    KindOfTag(t, SetConfiguration);
    KindOfTag(t, ReceiveSettings);
    KindOfTag(t, RequestConfiguration);
    KindOfTag(t, RequestStoredFrame);
    KindOfTag(t, RequestLastFrame);
    KindOfTag(t, Kind.ReceiveCalibration);
    KindOfTag(t, ClearStoredFrames);
    KindOfTag(t, Kind.CreateDir);
    KindOfTag(t, RequestTimestampList);
    KindOfTag(t, Kind.ReceivePostsyncList);
  }

  /** The bytes of the replies pending after the loop, collected flag by flag. */
  method CollectReplies(t: Tags, env: Env, c: Client) returns (sent: seq<byte>)
    requires RepliesFit(c)
    ensures sent == Replies(t, env, c)
  {
    var p, cal, k := c.pending, c.calibration, c.counters;
    ghost var r1 := if p.confirmCaptured then [t.confirmCaptured] else [];
    ghost var r2 := if p.confirmCalibrated then CalibrationConfirmation(t, cal.usedMarkerId, cal.worldR, cal.worldT) else [];
    ghost var r3 := if p.confirmPreRecordingProcess then [t.confirmPreRecordProcess] else [];
    ghost var r4 := if p.confirmPostRecordingProcess then [t.confirmPostRecordProcess] else [];
    ghost var r5 := if p.sendConfiguration then [t.configuration] + env.toBytes(c.configuration) else [];
    sent := [];
    if p.confirmCaptured {
      sent := [t.confirmCaptured];
    }
    if p.confirmCalibrated {
      sent := sent + CalibrationConfirmation(t, cal.usedMarkerId, cal.worldR, cal.worldT);
    }
    assert sent == r1 + r2;
    if p.confirmPreRecordingProcess {
      sent := sent + [t.confirmPreRecordProcess];
    }
    assert sent == r1 + r2 + r3;
    if p.confirmPostRecordingProcess {
      sent := sent + [t.confirmPostRecordProcess];
    }
    assert sent == r1 + r2 + r3 + r4;
    if p.sendConfiguration {
      sent := sent + ([t.configuration] + env.toBytes(c.configuration));
    }
    assert sent == r1 + r2 + r3 + r4 + r5;
    if c.requests.sendTimestampList {
      sent := sent + TimestampList(t, k.frameTimestamps, k.frameCount);
    }
  }

  /** LiveScanClient: the members the modelled code uses, and what it sent. */
  class LiveScanClient {
    var connected: bool
    var restartingCamera: bool
    var requests: Requests
    var pending: Pending
    var settings: Settings
    var calibration: Calibration
    var configuration: Configuration
    var counters: Counters
    var sync: SyncLists
    var files: Archive
    var lastFrame: StoredFrame
    /** Everything sent on the client socket, in order. */
    var outbox: seq<byte>
    /** Every file and device action, in order. */
    var actions: seq<Action>

    function State(): Client
      reads this
    {
      Client(connected, restartingCamera, requests, pending, settings, calibration, configuration, counters, sync,
             files, lastFrame, outbox, actions)
    }

    ghost predicate Valid()
      reads this
    {
      Consistent(State())
    }

    /**
     * The constructor's defaults; the calibration and configuration objects' own
     * constructors are not part of this model, and the three flags the
     * initialiser list leaves unset take whatever values they start with.
     */
    constructor (calibration0: Calibration, configuration0: Configuration,
                 updateSettings0: bool, confirmPre0: bool, confirmPost0: bool)
      requires CalibrationFits(calibration0)
      ensures State() == Initial(calibration0, configuration0, updateSettings0, confirmPre0, confirmPost0) && Valid()
    {
      connected, restartingCamera := false, false;
      requests := NoRequests.(updateSettings := updateSettings0);
      pending := NoPending.(confirmPreRecordingProcess := confirmPre0, confirmPostRecordingProcess := confirmPost0);
      settings := DefaultSettings;
      calibration, configuration := calibration0, configuration0;
      counters := Counters(0, [], []);
      sync := SyncLists([], []);
      files := Archive([], 0);
      lastFrame := StoredFrame([], [], []);
      outbox, actions := [], [];
      InitialConsistent(calibration0, configuration0, updateSettings0, confirmPre0, confirmPost0);
    }

    /** SendFrame: the header, then the (compressed) payload. */
    method SendFrame(env: Env, vertices: seq<Point3s>, colors: seq<RGB>, bodies: seq<Body>)
      requires FrameFits(vertices, colors, bodies) && bodies == lastFrame.bodies
      modifies this
      ensures State() == old(State()).(outbox := old(outbox) + SentFrame(env, old(State()), vertices, colors))
    {
      var buffer := WriteFrameAsWritten(vertices, colors, bodies);
      var payload: FrameBytes := buffer[..];
      if settings.frameCompression {
        payload := env.compress(payload, settings.compressionLevel);
      }
      outbox := outbox + FrameHeader(|payload|, settings.frameCompression) + payload;
    }

    /** MSG_SET_CONFIGURATION: copy the 42 bytes after the tag and hand them to SetFromBytes. */
    method SetConfiguration(env: Env, received: seq<byte>, i: nat) returns (next: nat)
      requires ConfigurationStep(env, State(), received, i).Some?
      modifies this
      ensures ConfigurationStep(env, old(State()), received, i) == Some((State(), next))
    {
      var pos := i + 1;
      var message: seq<byte> := [];
      var x := 0;
      while x < ConfigurationLength
        invariant 0 <= x <= ConfigurationLength && message == received[pos..pos + x]
      {
        message := message + [received[pos + x]];
        x := x + 1;
      }
      configuration := env.setFromBytes(configuration, message);
      next := pos + ConfigurationLength;
    }

    /** MSG_RECEIVE_SETTINGS: read the fields in order, then step back so the loop resumes right after them. */
    method ReceiveSettings(received: seq<byte>, i: nat) returns (next: nat)
      requires SettingsStep(State(), received, i).Some?
      modifies this
      ensures SettingsStep(old(State()), received, i) == Some((State(), next))
    {
      var m := ReadSettings(received, i + 1);
      StoreSettings(m);
      next := SettingsEnd(i + 1, |m.markers|);
    }

    /** The assignments of MSG_RECEIVE_SETTINGS once the fields are read. */
    method StoreSettings(m: SettingsMsg)
      modifies this
      ensures State() == ApplySettings(old(State()), m)
    {
      var frameCompression := false;
      if m.compressionLevel > 0 {
        frameCompression := true;
      }
      if m.exportFormat == 0 {
        configuration := configuration.(colorFormat := BGRA32);
      }
      if m.exportFormat == 1 {
        configuration := configuration.(colorFormat := MJPG);
      }
      settings := Settings(m.bounds, m.filter, m.filterNeighbors, m.filterThreshold, m.streamOnlyBodies,
                           m.compressionLevel, frameCompression, m.autoExposureEnabled, m.exposureStep,
                           m.extrinsicsStyle);
      calibration := calibration.(markerPoses := m.markers);
      requests := requests.(updateSettings := true);
    }

    /** MSG_REQUEST_STORED_FRAME: the tag, then the next frame of the recording, or the size -1 when it has none. */
    method SendStoredFrame(t: Tags, env: Env)
      requires FramesFit(lastFrame, files.records)
      modifies this
      ensures State() == StoredFrameStep(t, env, old(State()))
    {
      outbox := outbox + [t.storedFrame];
      if files.readPos < |files.records| {
        var r := files.records[files.readPos];
        files := files.(readPos := files.readPos + 1);
        SendFrame(env, r.points, r.colors, lastFrame.bodies);
      } else {
        outbox := outbox + EncodeInt32(-1);
      }
    }

    /** MSG_REQUEST_LAST_FRAME: the tag, then the last stored frame. */
    method SendLastFrame(t: Tags, env: Env)
      requires FramesFit(lastFrame, files.records)
      modifies this
      ensures State() == LastFrameStep(t, env, old(State()))
    {
      outbox := outbox + [t.lastFrame];
      SendFrame(env, lastFrame.vertices, lastFrame.rgb, lastFrame.bodies);
    }

    /** MSG_RECEIVE_CALIBRATION: the rotation row by row, then the translation; the loop resumes after them. */
    method ReceiveCalibration(received: seq<byte>, i: nat) returns (next: nat)
      requires CalibrationStep(State(), received, i).Some?
      modifies this
      ensures CalibrationStep(old(State()), received, i) == Some((State(), next))
    {
      var pos := i + 1;
      var r := ReadFloatsFrom(received, pos, 9);
      pos := pos + 36;
      var tr := ReadFloatsFrom(received, pos, 3);
      pos := pos + 12;
      calibration := calibration.(worldR := r, worldT := tr);
      next := pos;
    }

    /** MSG_CREATE_DIR: the path, the confirmation, the calibration file for raw recordings; the cursor skips the length only. */
    method CreateDir(t: Tags, env: Env, received: seq<byte>, i: nat) returns (next: nat)
      requires CreateDirStep(t, env, State(), received, i).Some?
      modifies this
      ensures CreateDirStep(t, env, old(State()), received, i) == Some((State(), next))
    {
      var pos := i + 1;
      var stringLength := ReadInt32(received, pos);
      pos := pos + 4;
      var dirPath := DirPath(received, pos, stringLength);
      var created := env.dirCreated(dirPath);
      actions := actions + [RecordDirectoryCreated(dirPath)];
      if created {
        outbox := outbox + [t.confirmDirCreation, 1];
      } else {
        outbox := outbox + [t.confirmDirCreation, 0];
      }
      assert outbox == old(outbox) + DirConfirmation(t, created);
      if configuration.colorFormat != BGRA32 {
        actions := actions + [CalibrationJsonWritten];
      }
      next := pos + 1;
      assert actions == old(actions) + [RecordDirectoryCreated(dirPath)] + (if configuration.colorFormat != BGRA32 then [CalibrationJsonWritten] else []);
    }

    /** MSG_RECEIVE_POSTSYNC_LIST: the count, then the two id arrays copied as they are. */
    method ReceivePostsyncList(received: seq<byte>, i: nat) returns (next: nat)
      requires PostsyncListStep(State(), received, i).Some?
      modifies this
      ensures PostsyncListStep(old(State()), received, i) == Some((State(), next))
    {
      var pos := i + 1;
      var size := ReadInt32(received, pos);
      pos := pos + 4;
      var ids := ReadInt32sFrom(received, pos, size);
      pos := pos + 4 * size;
      var synced := ReadInt32sFrom(received, pos, size);
      pos := pos + 4 * size;
      sync := SyncLists(ids, synced);
      requests := requests.(postSyncedListReceived := true);
      next := pos + 1;
    }

    /**
     * One pass of the socket loop: the first four tests stand alone, the
     * rest form one else-if chain starting at MSG_POST_RECORD_PROCESS_START.
     */
    method HandleMessage(t: Tags, env: Env, received: seq<byte>, i: nat) returns (next: nat)
      requires Distinct(t) && i < |received| && FramesFit(lastFrame, files.records)
      requires Readable(t, env, State(), received, i)
      modifies this
      ensures Dispatched(t, env, old(State()), received, i, State(), next)
    {
      ghost var c := State();
      LeadingTests(t, received[i]);
      ghost var mid := State();
      ReadableAfterLeading(t, env, c, mid, received, i);
      next := ChainedTests(t, env, received, i);
      PassDispatched(t, env, c, mid, received, i, State(), next);
    }

    /** The four tests before the else-if chain. */
    method LeadingTests(t: Tags, b: byte)
      requires Distinct(t)
      modifies this
      ensures LeadingDone(t, b, old(State()), State())
    {
      AllTagsRead(t);
      if b == t.captureSingleFrame {
        requests := requests.(captureSingleFrame := true);
      }
      if b == t.startCapturingFrames {
        requests := requests.(captureFrames := true);
      }
      if b == t.stopCapturingFrames {
        requests := requests.(captureFrames := false);
      }
      if b == t.preRecordProcessStart {
        requests := requests.(startPreRecordingProcess := true);
      }
    }

    /** The else-if chain, from MSG_POST_RECORD_PROCESS_START on. */
    method ChainedTests(t: Tags, env: Env, received: seq<byte>, i: nat) returns (next: nat)
      requires Distinct(t) && i < |received| && FramesFit(lastFrame, files.records)
      requires received[i] == t.setConfiguration ==> ConfigurationStep(env, State(), received, i).Some?
      requires received[i] == t.receiveSettings ==> SettingsStep(State(), received, i).Some?
      requires received[i] == t.receiveCalibration ==> CalibrationStep(State(), received, i).Some?
      requires received[i] == t.createDir ==> CreateDirStep(t, env, State(), received, i).Some?
      requires received[i] == t.receivePostsyncList ==> PostsyncListStep(State(), received, i).Some?
      modifies this
      ensures ChainDone(t, env, old(State()), received, i, State(), next)
    {
      AllTagsRead(t);
      var b := received[i];
      next := i + 1;
      if b == t.postRecordProcessStart {
        requests := requests.(startPostRecordingProcess := true);
      } else if b == t.calibrate {
        requests := requests.(calibrate := true);
      } else if b == t.reinitializeWithCurrentSettings {
        requests := requests.(restartCamera := true);
      } else if b == t.setConfiguration {
        next := SetConfiguration(env, received, i);
      } else {
        next := ChainFromSettings(t, env, received, i);
      }
    }

    /** The else-if chain from MSG_RECEIVE_SETTINGS on. */
    method ChainFromSettings(t: Tags, env: Env, received: seq<byte>, i: nat) returns (next: nat)
      requires Distinct(t) && i < |received| && FramesFit(lastFrame, files.records)
      requires received[i] == t.receiveSettings ==> SettingsStep(State(), received, i).Some?
      requires received[i] == t.receiveCalibration ==> CalibrationStep(State(), received, i).Some?
      requires received[i] == t.createDir ==> CreateDirStep(t, env, State(), received, i).Some?
      requires received[i] == t.receivePostsyncList ==> PostsyncListStep(State(), received, i).Some?
      modifies this
      ensures received[i] == t.receiveSettings ==> SettingsStep(old(State()), received, i) == Some((State(), next))
      ensures received[i] == t.requestConfiguration ==> State() == FlagStep(old(State()), RequestConfiguration) && next == i + 1
      ensures received[i] == t.requestStoredFrame ==> Some((StoredFrameStep(t, env, old(State())), i + 1)) == Some((State(), next))
      ensures received[i] == t.requestLastFrame ==> Some((LastFrameStep(t, env, old(State())), i + 1)) == Some((State(), next))
      ensures received[i] == t.receiveCalibration ==> CalibrationStep(old(State()), received, i) == Some((State(), next))
      ensures received[i] == t.clearStoredFrames ==> State() == FlagStep(old(State()), ClearStoredFrames) && next == i + 1
      ensures received[i] == t.createDir ==> CreateDirStep(t, env, old(State()), received, i) == Some((State(), next))
      ensures received[i] == t.requestTimestampList ==> State() == FlagStep(old(State()), RequestTimestampList) && next == i + 1
      ensures received[i] == t.receivePostsyncList ==> PostsyncListStep(old(State()), received, i) == Some((State(), next))
      ensures !FromSettings(t, received[i]) ==> State() == old(State()) && next == i + 1
    {
      AllTagsRead(t);
      var b := received[i];
      next := i + 1;
      if b == t.receiveSettings {
        next := ReceiveSettings(received, i);
      } else if b == t.requestConfiguration {
        requests := requests.(requestConfiguration := true);
      } else if b == t.requestStoredFrame {
        SendStoredFrame(t, env);
      } else {
        next := ChainFromLastFrame(t, env, received, i);
      }
    }

    /** The else-if chain from MSG_REQUEST_LAST_FRAME on. */
    method ChainFromLastFrame(t: Tags, env: Env, received: seq<byte>, i: nat) returns (next: nat)
      requires Distinct(t) && i < |received| && FramesFit(lastFrame, files.records)
      requires received[i] == t.receiveCalibration ==> CalibrationStep(State(), received, i).Some?
      requires received[i] == t.createDir ==> CreateDirStep(t, env, State(), received, i).Some?
      requires received[i] == t.receivePostsyncList ==> PostsyncListStep(State(), received, i).Some?
      modifies this
      ensures received[i] == t.requestLastFrame ==> Some((LastFrameStep(t, env, old(State())), i + 1)) == Some((State(), next))
      ensures received[i] == t.receiveCalibration ==> CalibrationStep(old(State()), received, i) == Some((State(), next))
      ensures received[i] == t.clearStoredFrames ==> State() == FlagStep(old(State()), ClearStoredFrames) && next == i + 1
      ensures received[i] == t.createDir ==> CreateDirStep(t, env, old(State()), received, i) == Some((State(), next))
      ensures received[i] == t.requestTimestampList ==> State() == FlagStep(old(State()), RequestTimestampList) && next == i + 1
      ensures received[i] == t.receivePostsyncList ==> PostsyncListStep(old(State()), received, i) == Some((State(), next))
      ensures !FromLastFrame(t, received[i]) ==> State() == old(State()) && next == i + 1
    {
      AllTagsRead(t);
      var b := received[i];
      next := i + 1;
      if b == t.requestLastFrame {
        SendLastFrame(t, env);
      } else if b == t.receiveCalibration {
        next := ReceiveCalibration(received, i);
      } else if b == t.clearStoredFrames {
        actions := actions + [StoredFramesClosed];
      } else {
        next := ChainFromCreateDir(t, env, received, i);
      }
    }

    /** The end of the else-if chain, from MSG_CREATE_DIR on. */
    method ChainFromCreateDir(t: Tags, env: Env, received: seq<byte>, i: nat) returns (next: nat)
      requires Distinct(t) && i < |received| && FramesFit(lastFrame, files.records)
      requires received[i] == t.createDir ==> CreateDirStep(t, env, State(), received, i).Some?
      requires received[i] == t.receivePostsyncList ==> PostsyncListStep(State(), received, i).Some?
      modifies this
      ensures received[i] == t.createDir ==> CreateDirStep(t, env, old(State()), received, i) == Some((State(), next))
      ensures received[i] == t.requestTimestampList ==> State() == FlagStep(old(State()), RequestTimestampList) && next == i + 1
      ensures received[i] == t.receivePostsyncList ==> PostsyncListStep(old(State()), received, i) == Some((State(), next))
      ensures !FromCreateDir(t, received[i]) ==> State() == old(State()) && next == i + 1
    {
      AllTagsRead(t);
      var b := received[i];
      next := i + 1;
      if b == t.createDir {
        next := CreateDir(t, env, received, i);
      } else if b == t.requestTimestampList {
        requests := requests.(sendTimestampList := true);
      } else if b == t.receivePostsyncList {
        next := ReceivePostsyncList(received, i);
      }
    }

    /** The replies after the loop, each sent and its flag cleared, in the order the code tests the flags. */
    method SendReplies(t: Tags, env: Env)
      requires RepliesFit(State())
      modifies this
      ensures State() == Flush(t, env, old(State()))
    {
      FlushSendsReplies(t, env, State());
      var sent := CollectReplies(t, env, State());
      outbox := outbox + sent;
      pending := NoPending;
      requests := requests.(sendTimestampList := false);
    }

    /**
     * HandleSocket: nothing while disconnected; otherwise every message in
     * the received bytes, then the pending replies.
     */
    method HandleSocket(t: Tags, env: Env, received: seq<byte>)
      requires Distinct(t) && Valid() && FramesFit(lastFrame, files.records)
      requires TimestampsFit(counters.frameTimestamps, counters.frameCount)
      requires connected ==> Run(t, env, State(), received, 0).Some?
      modifies this
      ensures !old(connected) ==> State() == old(State())
      ensures old(connected) ==> State() == Flush(t, env, Run(t, env, old(State()), received, 0).value)
      ensures Valid()
    {
      if !connected {
        return;
      }
      ghost var goal := Run(t, env, State(), received, 0);
      var i: nat := 0;
      while i < |received|
        invariant FramesFit(lastFrame, files.records)
        invariant Run(t, env, State(), received, i) == goal
        decreases |received| - i
      {
        ghost var c := State();
        StepReadable(t, env, c, received, i);
        var next := HandleMessage(t, env, received, i);
        DispatchedIsStep(t, env, c, received, i, State(), next);
        i := next;
      }
      RepliesAfterRun(old(State()), State());
      FlushConsistent(t, env, State());
      SendReplies(t, env);
    }

    // -------------------------------------------------------------------
    // UpdateFrame
    // -------------------------------------------------------------------

    /**
     * UpdateFrame: nothing while the device is not initialised or is
     * restarting; otherwise the recorded requests in the order the code
     * tests them, then the new frame, if there is one, in the device's mode.
     */
    method UpdateFrame(t: Tags, dev: Device)
      requires Valid() && DeviceFits(dev)
      modifies this
      ensures State() == Updated(t, dev, old(State()))
      ensures Valid()
    {
      if !dev.initialized || restartingCamera {
        return;
      }
      RefreshConfiguration(dev);
      ApplyExposure();
      RestartCamera(t, dev);
      StartPreRecording();
      FinishRecording();
      PostSync(t, dev);
      if !dev.acquiresPointcloud {
        if !dev.frameAcquired {
          return;
        }
        CaptureRawFrame(dev);
      }
      if dev.acquiresPointcloud {
        if !dev.frameAcquired {
          return;
        }
        CapturePointcloudFrame(dev);
      }
    }

    method RefreshConfiguration(dev: Device)
      modifies this
      ensures State() == RefreshedConfiguration(dev, old(State()))
    {
      if requests.requestConfiguration {
        configuration := configuration.(hardwareSyncState := dev.syncJackState);
        requests := requests.(requestConfiguration := false);
        pending := pending.(sendConfiguration := true);
      }
    }

    method ApplyExposure()
      modifies this
      ensures State() == ExposureApplied(old(State()))
    {
      if requests.updateSettings {
        actions := actions + [ExposureSet(settings.autoExposureEnabled, settings.exposureStep)];
        requests := requests.(updateSettings := false);
      }
    }

    method RestartCamera(t: Tags, dev: Device)
      modifies this
      ensures State() == Restarted(t, dev, old(State()))
    {
      if requests.restartCamera {
        var success := Reinit(t, dev);
        outbox := outbox + RestartConfirmation(t, success);
        requests := requests.(restartCamera := false);
      }
    }

    /** Reinit: close and initialise the device; a failure is confirmed at once. */
    method Reinit(t: Tags, dev: Device) returns (ok: bool)
      modifies this
      ensures (State(), ok) == Reinitialized(t, dev, old(State()))
    {
      restartingCamera := true;
      if !dev.closeOk {
        outbox := outbox + RestartConfirmation(t, false);
        restartingCamera := false;
        return false;
      }
      if !dev.initializeOk {
        outbox := outbox + RestartConfirmation(t, false);
        restartingCamera := false;
        return false;
      } else {
        configuration := configuration.(hardwareSyncState := dev.syncJackState);
      }
      restartingCamera := false;
      ok := true;
    }

    method StartPreRecording()
      modifies this
      ensures State() == PreRecorded(old(State()))
    {
      if requests.startPreRecordingProcess {
        counters := Counters(0, [], []);
        requests := requests.(startPreRecordingProcess := false);
        pending := pending.(confirmPreRecordingProcess := true);
      }
    }

    method FinishRecording()
      modifies this
      ensures State() == PostRecorded(old(State()))
    {
      if requests.startPostRecordingProcess {
        actions := actions + [TimestampLogWritten(counters.frameCount, counters.frameTimestamps)];
        requests := requests.(startPostRecordingProcess := false);
        pending := pending.(confirmPostRecordingProcess := true);
      }
    }

    method PostSync(t: Tags, dev: Device)
      requires SyncPaired(State())
      modifies this
      ensures State() == PostSynced(t, dev, old(State()))
    {
      if requests.postSyncedListReceived {
        requests := requests.(postSyncedListReceived := false);
        var success := true;
        if configuration.colorFormat == MJPG {
          success := PostSyncRawFrames(dev);
        }
        if configuration.colorFormat == BGRA32 {
          success := PostSyncPointclouds(dev);
        }
        outbox := outbox + PostSyncConfirmation(t, success);
      }
    }

    /** PostSyncPointclouds: the synced file replaces the recording and is read from its start. */
    method PostSyncPointclouds(dev: Device) returns (success: bool)
      modifies this
      ensures State() == old(State()).(files := Archive(SyncedRecords(old(files.records), old(sync.frameID), dev.unrecorded), 0))
      ensures success == AllWritten(dev.writeOk, |old(sync.frameID)|)
    {
      var synced;
      synced, success := WriteSynced(files.records, sync.frameID, dev.writeOk, dev.unrecorded);
      files := Archive(synced, 0);
    }

    /** PostSyncRawFrames: the frame pairs written or renamed under their synced ids. */
    method PostSyncRawFrames(dev: Device) returns (success: bool)
      requires |sync.frameID| == |sync.postSyncedFrameID|
      modifies this
      ensures State() == old(State()).(actions := old(actions) + RawSyncActions(old(sync.frameID), old(sync.postSyncedFrameID)))
      ensures success == AllRenamed(old(sync.frameID), dev.renameOk, |old(sync.frameID)|)
    {
      var acts;
      acts, success := RenameSynced(sync.frameID, sync.postSyncedFrameID, dev.renameOk);
      actions := actions + acts;
    }

    method CaptureRawFrame(dev: Device)
      modifies this
      ensures State() == RawCaptured(dev, old(State()))
    {
      if requests.captureFrames || requests.captureSingleFrame {
        counters := counters.(frameCount := counters.frameCount + [counters.frameIndex],
                              frameTimestamps := counters.frameTimestamps + [dev.timestamp]);
        actions := actions + [RawFrameWritten(counters.frameIndex)];
        counters := counters.(frameIndex := counters.frameIndex + 1);
        AnswerSingleFrame();
      }
    }

    method AnswerSingleFrame()
      modifies this
      ensures State() == SingleFrameDone(old(State()))
    {
      if requests.captureSingleFrame {
        pending := pending.(confirmCaptured := true);
        requests := requests.(captureSingleFrame := false);
      }
    }

    method CapturePointcloudFrame(dev: Device)
      modifies this
      ensures State() == PointcloudCaptured(dev, old(State()))
    {
      lastFrame := dev.stored;
      if requests.captureFrames || requests.captureSingleFrame {
        counters := counters.(frameCount := counters.frameCount + [counters.frameIndex],
                              frameTimestamps := counters.frameTimestamps + [dev.timestamp]);
        counters := counters.(frameIndex := counters.frameIndex + 1);
        files := files.(records := files.records + [Record(lastFrame.vertices, lastFrame.rgb, dev.timestamp)]);
        AnswerSingleFrame();
      }
      CalibrateClient(dev);
    }

    method CalibrateClient(dev: Device)
      modifies this
      ensures State() == Calibrated(dev, old(State()))
    {
      if requests.calibrate {
        if dev.calibrated.Some? {
          var p := dev.calibrated.value;
          calibration := calibration.(worldR := p.r, worldT := p.t, usedMarkerId := p.markerId);
          actions := actions + [CalibrationSaved];
          pending := pending.(confirmCalibrated := true);
          requests := requests.(calibrate := false);
        }
      }
    }
  }
}
