/**
 * The messages between the server and its clients: the tag bytes, the
 * client's reading of a received tag, and the byte layout of every message
 * that carries a payload, each with the reader on the other side. The tag
 * values live in utils.h, which is not part of this model; they are a
 * parameter here.
 */
module Messages {
  import opened Bytes
  import opened Wrappers

  /** The tag byte of every message kind either side sends. */
  datatype Tags = Tags(
    // server to client
    captureSingleFrame: byte, startCapturingFrames: byte, stopCapturingFrames: byte,
    preRecordProcessStart: byte, postRecordProcessStart: byte, calibrate: byte,
    reinitializeWithCurrentSettings: byte, setConfiguration: byte, receiveSettings: byte,
    requestConfiguration: byte, requestStoredFrame: byte, requestLastFrame: byte,
    receiveCalibration: byte, clearStoredFrames: byte, createDir: byte,
    requestTimestampList: byte, receivePostsyncList: byte,
    /** The server's MSG_CAPTURE_FRAME, sent by KinectSocket.CaptureFrame. */
    captureFrame: byte,
    // client to server
    storedFrame: byte, lastFrame: byte, confirmDirCreation: byte, confirmCaptured: byte,
    confirmCalibrated: byte, confirmPreRecordProcess: byte, confirmPostRecordProcess: byte,
    configuration: byte, sendTimestampList: byte, confirmRestart: byte, confirmPostsynced: byte)

  /** The messages the client's socket loop recognises, in the order it tests for them. */
  datatype Kind =
    | CaptureSingleFrame | StartCapturingFrames | StopCapturingFrames | PreRecordProcessStart
    | PostRecordProcessStart | Calibrate | Reinitialize | SetConfiguration | ReceiveSettings
    | RequestConfiguration | RequestStoredFrame | RequestLastFrame | ReceiveCalibration
    | ClearStoredFrames | CreateDir | RequestTimestampList | ReceivePostsyncList

  /** The tags the client recognises, in Kind order. */
  function Inbound(t: Tags): (r: seq<byte>)
    ensures |r| == 17
  {
    [t.captureSingleFrame, t.startCapturingFrames, t.stopCapturingFrames, t.preRecordProcessStart,
     t.postRecordProcessStart, t.calibrate, t.reinitializeWithCurrentSettings, t.setConfiguration,
     t.receiveSettings, t.requestConfiguration, t.requestStoredFrame, t.requestLastFrame,
     t.receiveCalibration, t.clearStoredFrames, t.createDir, t.requestTimestampList, t.receivePostsyncList]
  }

  /** The enum values of utils.h are distinct: no two recognised messages share a tag. */
  predicate Distinct(t: Tags)
  {
    forall a, b :: 0 <= a < b < |Inbound(t)| ==> Inbound(t)[a] != Inbound(t)[b]
  }

  function KindIndex(k: Kind): (n: nat)
    ensures n < 17
  {
    match k
    case CaptureSingleFrame => 0
    case StartCapturingFrames => 1
    case StopCapturingFrames => 2
    case PreRecordProcessStart => 3
    case PostRecordProcessStart => 4
    case Calibrate => 5
    case Reinitialize => 6
    case SetConfiguration => 7
    case ReceiveSettings => 8
    case RequestConfiguration => 9
    case RequestStoredFrame => 10
    case RequestLastFrame => 11
    case ReceiveCalibration => 12
    case ClearStoredFrames => 13
    case CreateDir => 14
    case RequestTimestampList => 15
    case ReceivePostsyncList => 16
  }

  /** The tag the server sends for a message kind. */
  function TagOf(t: Tags, k: Kind): byte
  {
    Inbound(t)[KindIndex(k)]
  }

  /** The message a received byte starts: the first tag it equals, in the client's order; None for any other byte. */
  function KindOf(t: Tags, b: byte): Option<Kind>
  {
    if b == t.captureSingleFrame then Some(CaptureSingleFrame)
    else if b == t.startCapturingFrames then Some(StartCapturingFrames)
    else if b == t.stopCapturingFrames then Some(StopCapturingFrames)
    else if b == t.preRecordProcessStart then Some(PreRecordProcessStart)
    else if b == t.postRecordProcessStart then Some(PostRecordProcessStart)
    else if b == t.calibrate then Some(Calibrate)
    else if b == t.reinitializeWithCurrentSettings then Some(Reinitialize)
    else if b == t.setConfiguration then Some(SetConfiguration)
    else if b == t.receiveSettings then Some(ReceiveSettings)
    else if b == t.requestConfiguration then Some(RequestConfiguration)
    else if b == t.requestStoredFrame then Some(RequestStoredFrame)
    else if b == t.requestLastFrame then Some(RequestLastFrame)
    else if b == t.receiveCalibration then Some(ReceiveCalibration)
    else if b == t.clearStoredFrames then Some(ClearStoredFrames)
    else if b == t.createDir then Some(CreateDir)
    else if b == t.requestTimestampList then Some(RequestTimestampList)
    else if b == t.receivePostsyncList then Some(ReceivePostsyncList)
    else None
  }

  /** With distinct tags, the client reads every tag the server sends as the message it stands for. */
  lemma {:induction false} KindOfTag(t: Tags, k: Kind)
    requires Distinct(t)
    ensures KindOf(t, TagOf(t, k)) == Some(k)
  {
    var s := Inbound(t);
    match k
    case CaptureSingleFrame =>
    case StartCapturingFrames => assert s[0] != s[1];
    case StopCapturingFrames => assert s[0] != s[2] && s[1] != s[2];
    case PreRecordProcessStart => assert s[0] != s[3] && s[1] != s[3] && s[2] != s[3];
    case PostRecordProcessStart => assert s[0] != s[4] && s[1] != s[4] && s[2] != s[4] && s[3] != s[4];
    case Calibrate => assert s[0] != s[5] && s[1] != s[5] && s[2] != s[5] && s[3] != s[5] && s[4] != s[5];
    case Reinitialize =>
      assert s[0] != s[6] && s[1] != s[6] && s[2] != s[6] && s[3] != s[6] && s[4] != s[6] && s[5] != s[6];
    case SetConfiguration =>
      assert s[0] != s[7] && s[1] != s[7] && s[2] != s[7] && s[3] != s[7] && s[4] != s[7] && s[5] != s[7]
        && s[6] != s[7];
    case ReceiveSettings =>
      assert s[0] != s[8] && s[1] != s[8] && s[2] != s[8] && s[3] != s[8] && s[4] != s[8] && s[5] != s[8]
        && s[6] != s[8] && s[7] != s[8];
    case RequestConfiguration =>
      assert s[0] != s[9] && s[1] != s[9] && s[2] != s[9] && s[3] != s[9] && s[4] != s[9] && s[5] != s[9]
        && s[6] != s[9] && s[7] != s[9] && s[8] != s[9];
    case RequestStoredFrame =>
      assert s[0] != s[10] && s[1] != s[10] && s[2] != s[10] && s[3] != s[10] && s[4] != s[10] && s[5] != s[10]
        && s[6] != s[10] && s[7] != s[10] && s[8] != s[10] && s[9] != s[10];
    case RequestLastFrame =>
      assert s[0] != s[11] && s[1] != s[11] && s[2] != s[11] && s[3] != s[11] && s[4] != s[11] && s[5] != s[11]
        && s[6] != s[11] && s[7] != s[11] && s[8] != s[11] && s[9] != s[11] && s[10] != s[11];
    case ReceiveCalibration =>
      assert s[0] != s[12] && s[1] != s[12] && s[2] != s[12] && s[3] != s[12] && s[4] != s[12] && s[5] != s[12]
        && s[6] != s[12] && s[7] != s[12] && s[8] != s[12] && s[9] != s[12] && s[10] != s[12] && s[11] != s[12];
    case ClearStoredFrames =>
      assert s[0] != s[13] && s[1] != s[13] && s[2] != s[13] && s[3] != s[13] && s[4] != s[13] && s[5] != s[13]
        && s[6] != s[13] && s[7] != s[13] && s[8] != s[13] && s[9] != s[13] && s[10] != s[13] && s[11] != s[13]
        && s[12] != s[13];
    case CreateDir =>
      assert s[0] != s[14] && s[1] != s[14] && s[2] != s[14] && s[3] != s[14] && s[4] != s[14] && s[5] != s[14]
        && s[6] != s[14] && s[7] != s[14] && s[8] != s[14] && s[9] != s[14] && s[10] != s[14] && s[11] != s[14]
        && s[12] != s[14] && s[13] != s[14];
    case RequestTimestampList =>
      assert s[0] != s[15] && s[1] != s[15] && s[2] != s[15] && s[3] != s[15] && s[4] != s[15] && s[5] != s[15]
        && s[6] != s[15] && s[7] != s[15] && s[8] != s[15] && s[9] != s[15] && s[10] != s[15] && s[11] != s[15]
        && s[12] != s[15] && s[13] != s[15] && s[14] != s[15];
    case ReceivePostsyncList =>
      assert s[0] != s[16] && s[1] != s[16] && s[2] != s[16] && s[3] != s[16] && s[4] != s[16] && s[5] != s[16]
        && s[6] != s[16] && s[7] != s[16] && s[8] != s[16] && s[9] != s[16] && s[10] != s[16] && s[11] != s[16]
        && s[12] != s[16] && s[13] != s[16] && s[14] != s[16] && s[15] != s[16];
  }

  /** A recognised byte is the tag of the kind it is read as; a byte is unrecognised exactly when it is no tag. */
  lemma {:induction false} TagOfKind(t: Tags, b: byte)
    ensures KindOf(t, b).Some? ==> TagOf(t, KindOf(t, b).value) == b
    ensures KindOf(t, b).None? <==> b !in Inbound(t)
  {
    var s := Inbound(t);
    if KindOf(t, b).None? {
      forall a | 0 <= a < 17
        ensures s[a] != b
      {
      }
    }
  }

  // ---------------------------------------------------------------------
  // Client to server
  // ---------------------------------------------------------------------

  /** SendReinitConfirmation: the tag, then 0 for success and 1 for failure. */
  function RestartConfirmation(t: Tags, success: bool): (m: seq<byte>)
    ensures |m| == 2 && m[0] == t.confirmRestart
    ensures m[1] == 0 <==> success
  {
    [t.confirmRestart, if success then 0 else 1]
  }

  /** SendPostSyncConfirmation: the tag, then 1 for success and 0 for failure. */
  function PostSyncConfirmation(t: Tags, success: bool): (m: seq<byte>)
    ensures |m| == 2 && m[0] == t.confirmPostsynced
    ensures m[1] == 1 <==> success
  {
    [t.confirmPostsynced, BoolByte(success)]
  }

  /** The reply to a directory request: the tag, then 1 when the directory was created and 0 otherwise. */
  function DirConfirmation(t: Tags, created: bool): (m: seq<byte>)
    ensures |m| == 2 && m[0] == t.confirmDirCreation
    ensures m[1] == 1 <==> created
  {
    [t.confirmDirCreation, BoolByte(created)]
  }

  /** A 3x3 rotation (row by row) and a translation, as float bit patterns. */
  predicate IsPose(r: seq<Float32>, tr: seq<Float32>)
  {
    |r| == 9 && |tr| == 3
  }

  /** The calibration confirmation: the tag, the marker id, the rotation row by row, then the translation. */
  function CalibrationConfirmation(t: Tags, markerId: int, r: seq<Float32>, tr: seq<Float32>): (m: seq<byte>)
    requires IsInt32(markerId) && IsPose(r, tr)
    ensures |m| == 1 + 4 + 4 * 12
  {
    [t.confirmCalibrated] + (EncodeInt32(markerId) + (EncodeFloats(r) + EncodeFloats(tr)))
  }

  /** What the server's ReceiveCalibrationData takes from the bytes after the tag. */
  datatype CalibrationReply = CalibrationReply(markerId: int, r: seq<Float32>, tr: seq<Float32>)

  function ServerCalibration(reply: seq<byte>): CalibrationReply
    requires |reply| >= 4 + 4 * 12
  {
    CalibrationReply(ReadInt32(reply, 0), ReadFloats(reply, 4, 9), ReadFloats(reply, 40, 3))
  }

  /** The server reads back the marker id, the rotation and the translation the client sent. */
  lemma {:induction false} CalibrationConfirmationRoundTrip(t: Tags, markerId: int, r: seq<Float32>, tr: seq<Float32>)
    requires IsInt32(markerId) && IsPose(r, tr)
    ensures ServerCalibration(CalibrationConfirmation(t, markerId, r, tr)[1..]) == CalibrationReply(markerId, r, tr)
  {
    var reply := CalibrationConfirmation(t, markerId, r, tr)[1..];
    var a, b, c := EncodeInt32(markerId), EncodeFloats(r), EncodeFloats(tr);
    assert reply == a + (b + c);
    assert reply[0..52] == a + (b + c);
    Peel(reply, 0, a, b + c);
    Peel(reply, 4, b, c);
    ReadInt32Of(reply, 0, markerId);
    ReadFloatsOf(reply, 4, r);
    ReadFloatsOf(reply, 40, tr);
  }

  /** The timestamp list: tag, count, the uint64 timestamps, count, the int32 frame numbers. */
  predicate TimestampsFit(timestamps: seq<int>, frameCounts: seq<int>)
  {
    (forall k :: 0 <= k < |timestamps| ==> IsUInt64(timestamps[k])) &&
    (forall k :: 0 <= k < |frameCounts| ==> IsInt32(frameCounts[k])) &&
    IsInt32(1 + 4 + 8 * |timestamps| + 4 + 4 * |frameCounts|)
  }

  function TimestampList(t: Tags, timestamps: seq<int>, frameCounts: seq<int>): (m: seq<byte>)
    requires TimestampsFit(timestamps, frameCounts)
    ensures |m| == 1 + 4 + 8 * |timestamps| + 4 + 4 * |frameCounts|
  {
    [t.sendTimestampList] + (EncodeInt32(|timestamps|) + (EncodeUInt64s(timestamps) +
      (EncodeInt32(|frameCounts|) + EncodeInt32s(frameCounts))))
  }

  /**
   * A reader for the timestamp list (the server's reader is not part of this
   * model): None unless both counts are non-negative and the lists fit.
   */
  function ParseTimestampList(m: seq<byte>): Option<(seq<int>, seq<int>)>
  {
    if |m| < 5 then None
    else
      var n := ReadInt32(m, 1);
      if n < 0 || CountAt(n) + 4 > |m| then None
      else
        var k := ReadInt32(m, CountAt(n));
        if k < 0 || CountAt(n) + 4 + 4 * k > |m| then None
        else Some((ReadUInt64s(m, 5, n), ReadInt32s(m, CountAt(n) + 4, k)))
  }

  /** Where the frame-number count sits after n timestamps. */
  function CountAt(n: nat): nat
  {
    5 + 8 * n
  }

  /** Each encoded field of the list sits at its offset. */
  lemma {:induction false} TimestampListParts(t: Tags, timestamps: seq<int>, frameCounts: seq<int>)
    requires TimestampsFit(timestamps, frameCounts)
    ensures var m, n := TimestampList(t, timestamps, frameCounts), |timestamps|;
      m[1..5] == EncodeInt32(n) && m[5..CountAt(n)] == EncodeUInt64s(timestamps) &&
      m[CountAt(n)..CountAt(n) + 4] == EncodeInt32(|frameCounts|) && m[CountAt(n) + 4..|m|] == EncodeInt32s(frameCounts)
  {
    var m := TimestampList(t, timestamps, frameCounts);
    var n, k := |timestamps|, |frameCounts|;
    var a, b, c, d := EncodeInt32(n), EncodeUInt64s(timestamps), EncodeInt32(k), EncodeInt32s(frameCounts);
    assert m[1..|m|] == a + (b + (c + d));
    Peel(m, 1, a, b + (c + d));
    Peel(m, 5, b, c + d);
    Peel(m, CountAt(n), c, d);
  }

  /** Each field of the list reads back from its offset. */
  lemma {:induction false} TimestampListFields(t: Tags, timestamps: seq<int>, frameCounts: seq<int>)
    requires TimestampsFit(timestamps, frameCounts)
    ensures var m, n := TimestampList(t, timestamps, frameCounts), |timestamps|;
      ReadInt32(m, 1) == n && ReadUInt64s(m, 5, n) == timestamps &&
      ReadInt32(m, CountAt(n)) == |frameCounts| && ReadInt32s(m, CountAt(n) + 4, |frameCounts|) == frameCounts
  {
    var m, n := TimestampList(t, timestamps, frameCounts), |timestamps|;
    TimestampListParts(t, timestamps, frameCounts);
    ReadInt32Of(m, 1, n);
    ReadUInt64sOf(m, 5, timestamps);
    ReadInt32Of(m, CountAt(n), |frameCounts|);
    ReadInt32sOf(m, CountAt(n) + 4, frameCounts);
  }

  /** The reader returns whatever lists the counts it finds select. */
  lemma {:induction false} ParseTimestampListOf(m: seq<byte>, ts: seq<int>, fc: seq<int>)
    requires CountAt(|ts|) + 4 + 4 * |fc| <= |m| && ReadInt32(m, 1) == |ts| && ReadUInt64s(m, 5, |ts|) == ts
    requires ReadInt32(m, CountAt(|ts|)) == |fc| && ReadInt32s(m, CountAt(|ts|) + 4, |fc|) == fc
    ensures ParseTimestampList(m) == Some((ts, fc))
  {
  }

  /** The list reads back as the timestamps and frame numbers sent, in order. */
  lemma {:induction false} TimestampListRoundTrip(t: Tags, timestamps: seq<int>, frameCounts: seq<int>)
    requires TimestampsFit(timestamps, frameCounts)
    ensures ParseTimestampList(TimestampList(t, timestamps, frameCounts)) == Some((timestamps, frameCounts))
  {
    TimestampListFields(t, timestamps, frameCounts);
    ParseTimestampListOf(TimestampList(t, timestamps, frameCounts), timestamps, frameCounts);
  }

  // ---------------------------------------------------------------------
  // Server to client
  // ---------------------------------------------------------------------

  /** SendSettings: the tag, the data's length, then the data. */
  function SettingsMessage(t: Tags, data: seq<byte>): (m: seq<byte>)
    requires IsInt32(|data|)
    ensures |m| == 5 + |data|
  {
    [t.receiveSettings] + (EncodeInt32(|data|) + data)
  }

  /** The length field the client reads right after the tag is the data's length, and the data follows it. */
  lemma {:induction false} SettingsMessageFields(t: Tags, data: seq<byte>)
    requires IsInt32(|data|)
    ensures var m := SettingsMessage(t, data); ReadInt32(m, 1) == |data| && m[5..] == data
  {
    var m := SettingsMessage(t, data);
    assert m[1..|m|] == EncodeInt32(|data|) + data;
    Peel(m, 1, EncodeInt32(|data|), data);
    ReadInt32Of(m, 1, |data|);
  }

  /** SendCalibrationData: the tag, the world rotation, then the world translation. */
  function CalibrationMessage(t: Tags, r: seq<Float32>, tr: seq<Float32>): (m: seq<byte>)
    requires IsPose(r, tr)
    ensures |m| == 1 + 4 * 12
  {
    [t.receiveCalibration] + (EncodeFloats(r) + EncodeFloats(tr))
  }

  /** What the client reads after a calibration tag at `at`: nine rotation floats, then three translation floats. */
  function ClientCalibration(buf: seq<byte>, at: nat): (seq<Float32>, seq<Float32>)
    requires at + 1 + 48 <= |buf|
  {
    (ReadFloats(buf, at + 1, 9), ReadFloats(buf, at + 37, 3))
  }

  /** The client reads back the pose the server sent, wherever in the stream the message starts. */
  lemma {:induction false} CalibrationMessageRoundTrip(t: Tags, r: seq<Float32>, tr: seq<Float32>, pre: seq<byte>, post: seq<byte>)
    requires IsPose(r, tr)
    ensures var buf := pre + CalibrationMessage(t, r, tr) + post;
      |pre| + 49 <= |buf| && ClientCalibration(buf, |pre|) == (r, tr)
  {
    var buf, at := pre + CalibrationMessage(t, r, tr) + post, |pre|;
    var b, c := EncodeFloats(r), EncodeFloats(tr);
    assert buf[at + 1..at + 49] == b + c;
    Peel(buf, at + 1, b, c);
    ReadFloatsOf(buf, at + 1, r);
    ReadFloatsOf(buf, at + 37, tr);
  }

  /** SendConfiguration: the tag, then the configuration's bytes. */
  function ConfigurationMessage(t: Tags, data: seq<byte>): (m: seq<byte>)
    ensures |m| == 1 + |data| && m[0] == t.setConfiguration && m[1..] == data
  {
    [t.setConfiguration] + data
  }

  // ---------------------------------------------------------------------
  // The settings the client reads (MSG_RECEIVE_SETTINGS)
  // ---------------------------------------------------------------------

  /** A marker pose as the client reads it: a 3x3 rotation row by row, a translation and the marker id. */
  datatype MarkerPoseMsg = MarkerPoseMsg(r: seq<Float32>, tr: seq<Float32>, markerId: int)

  /** The fields of a settings message, in the order the client reads them. */
  datatype SettingsMsg = SettingsMsg(
    nBytes: int, bounds: seq<Float32>, filter: bool, filterNeighbors: int, filterThreshold: Float32,
    markers: seq<MarkerPoseMsg>, streamOnlyBodies: bool, compressionLevel: int,
    autoExposureEnabled: bool, exposureStep: int, exportFormat: int, extrinsicsStyle: int)

  /** Bytes per marker: 9 + 3 floats and the id. */
  const MarkerMsgSize: nat := 52

  predicate MarkerFits(m: MarkerPoseMsg)
  {
    IsPose(m.r, m.tr) && IsInt32(m.markerId)
  }

  predicate SettingsFit(s: SettingsMsg)
  {
    |s.bounds| == 6 && IsInt32(s.nBytes) && IsInt32(s.filterNeighbors) && IsInt32(|s.markers|) &&
    (forall k :: 0 <= k < |s.markers| ==> MarkerFits(s.markers[k])) &&
    IsInt32(s.compressionLevel) && IsInt32(s.exposureStep) && IsInt32(s.exportFormat) && IsInt32(s.extrinsicsStyle)
  }

  function ParseMarker(buf: seq<byte>, at: nat): MarkerPoseMsg
    requires at + MarkerMsgSize <= |buf|
  {
    MarkerPoseMsg(ReadFloats(buf, at, 9), ReadFloats(buf, at + 36, 3), ReadInt32(buf, at + 48))
  }

  function ParseMarkers(buf: seq<byte>, at: nat, n: nat): (r: seq<MarkerPoseMsg>)
    requires at + MarkerMsgSize * n <= |buf|
    ensures |r| == n
    decreases n
  {
    if n == 0 then [] else [ParseMarker(buf, at)] + ParseMarkers(buf, at + MarkerMsgSize, n - 1)
  }

  /** Where the client's cursor ends after the settings that start at `at` (just after the tag). */
  function SettingsEnd(at: nat, nMarkers: nat): nat
  {
    TailStart(at, nMarkers) + 18
  }

  /** Where the fields after the markers start. */
  function TailStart(at: nat, nMarkers: nat): nat
  {
    at + 41 + MarkerMsgSize * nMarkers
  }

  /**
   * The client's settings reader, starting just after the tag. None where
   * the C++ code would read past the received bytes, or where a negative
   * marker count makes the vector resize throw.
   */
  function ParseSettings(buf: seq<byte>, at: nat): Option<SettingsMsg>
  {
    if at + 41 > |buf| then None
    else
      var h := ParseHead(buf, at);
      if h.nMarkers < 0 || SettingsEnd(at, h.nMarkers) > |buf| then None
      else Some(Assemble(h, ParseMarkers(buf, at + 41, h.nMarkers), ParseTail(buf, TailStart(at, h.nMarkers))))
  }

  /** The fields before the markers: length, bounds, filter flag, neighbours, threshold, marker count. */
  datatype SettingsHead = SettingsHead(nBytes: int, bounds: seq<Float32>, filter: bool, filterNeighbors: int,
                                       filterThreshold: Float32, nMarkers: int)

  /** The fields after the markers. */
  datatype SettingsTail = SettingsTail(streamOnlyBodies: bool, compressionLevel: int, autoExposureEnabled: bool,
                                       exposureStep: int, exportFormat: int, extrinsicsStyle: int)

  function ParseHead(buf: seq<byte>, at: nat): SettingsHead
    requires at + 41 <= |buf|
  {
    SettingsHead(ReadInt32(buf, at), ReadFloats(buf, at + 4, 6), buf[at + 28] != 0, ReadInt32(buf, at + 29),
      ReadFloat(buf, at + 33), ReadInt32(buf, at + 37))
  }

  function ParseTail(buf: seq<byte>, e: nat): SettingsTail
    requires e + 18 <= |buf|
  {
    SettingsTail(buf[e] != 0, ReadInt32(buf, e + 1), buf[e + 5] != 0, ReadInt32(buf, e + 6), ReadInt32(buf, e + 10),
      ReadInt32(buf, e + 14))
  }

  function Assemble(h: SettingsHead, markers: seq<MarkerPoseMsg>, tl: SettingsTail): SettingsMsg
  {
    SettingsMsg(h.nBytes, h.bounds, h.filter, h.filterNeighbors, h.filterThreshold, markers,
      tl.streamOnlyBodies, tl.compressionLevel, tl.autoExposureEnabled, tl.exposureStep, tl.exportFormat, tl.extrinsicsStyle)
  }

  function HeadOf(s: SettingsMsg): SettingsHead
  {
    SettingsHead(s.nBytes, s.bounds, s.filter, s.filterNeighbors, s.filterThreshold, |s.markers|)
  }

  function TailOf(s: SettingsMsg): SettingsTail
  {
    SettingsTail(s.streamOnlyBodies, s.compressionLevel, s.autoExposureEnabled, s.exposureStep, s.exportFormat, s.extrinsicsStyle)
  }

  function MarkerBytes(m: MarkerPoseMsg): (r: seq<byte>)
    requires MarkerFits(m)
    ensures |r| == MarkerMsgSize
  {
    EncodeFloats(m.r) + (EncodeFloats(m.tr) + EncodeInt32(m.markerId))
  }

  function MarkersBytes(ms: seq<MarkerPoseMsg>): (r: seq<byte>)
    requires forall k :: 0 <= k < |ms| ==> MarkerFits(ms[k])
    ensures |r| == MarkerMsgSize * |ms|
  {
    if |ms| == 0 then [] else MarkerBytes(ms[0]) + MarkersBytes(ms[1..])
  }

  /** The 41 bytes before the markers: length, bounds, filter flag, neighbours, threshold, marker count. */
  function SettingsHeadBytes(s: SettingsMsg): (r: seq<byte>)
    requires SettingsFit(s)
    ensures |r| == 41
  {
    EncodeInt32(s.nBytes) + (EncodeFloats(s.bounds) + ([BoolByte(s.filter)] + (EncodeInt32(s.filterNeighbors) +
      (EncodeFloat(s.filterThreshold) + EncodeInt32(|s.markers|)))))
  }

  /** The 18 bytes after the markers. */
  function SettingsTailBytes(s: SettingsMsg): (r: seq<byte>)
    requires SettingsFit(s)
    ensures |r| == 18
  {
    [BoolByte(s.streamOnlyBodies)] + (EncodeInt32(s.compressionLevel) + ([BoolByte(s.autoExposureEnabled)] +
      (EncodeInt32(s.exposureStep) + (EncodeInt32(s.exportFormat) + EncodeInt32(s.extrinsicsStyle)))))
  }

  /** The layout the client's reader expects (the server's ToByteList writes another one). */
  function SettingsBytes(s: SettingsMsg): (r: seq<byte>)
    requires SettingsFit(s)
    ensures |r| == SettingsEnd(0, |s.markers|)
  {
    SettingsHeadBytes(s) + (MarkersBytes(s.markers) + SettingsTailBytes(s))
  }

  lemma {:induction false} ParseMarkerOf(buf: seq<byte>, at: nat, m: MarkerPoseMsg)
    requires MarkerFits(m) && at + MarkerMsgSize <= |buf| && buf[at..at + MarkerMsgSize] == MarkerBytes(m)
    ensures ParseMarker(buf, at) == m
  {
    var a, b, c := EncodeFloats(m.r), EncodeFloats(m.tr), EncodeInt32(m.markerId);
    Peel(buf, at, a, b + c);
    Peel(buf, at + 36, b, c);
    ReadFloatsOf(buf, at, m.r);
    ReadFloatsOf(buf, at + 36, m.tr);
    ReadInt32Of(buf, at + 48, m.markerId);
  }

  lemma {:induction false} ParseMarkersOf(buf: seq<byte>, at: nat, ms: seq<MarkerPoseMsg>)
    requires forall k :: 0 <= k < |ms| ==> MarkerFits(ms[k])
    requires at + MarkerMsgSize * |ms| <= |buf| && buf[at..at + MarkerMsgSize * |ms|] == MarkersBytes(ms)
    ensures ParseMarkers(buf, at, |ms|) == ms
    decreases |ms|
  {
    if |ms| > 0 {
      Peel(buf, at, MarkerBytes(ms[0]), MarkersBytes(ms[1..]));
      ParseMarkerOf(buf, at, ms[0]);
      ParseMarkersOf(buf, at + MarkerMsgSize, ms[1..]);
    }
  }

  /** The fields before the markers read back from their offsets. */
  lemma {:induction false} SettingsHeadOf(buf: seq<byte>, at: nat, s: SettingsMsg)
    requires SettingsFit(s) && at + 41 <= |buf| && buf[at..at + 41] == SettingsHeadBytes(s)
    ensures ParseHead(buf, at) == HeadOf(s)
  {
    var a, b, c := EncodeInt32(s.nBytes), EncodeFloats(s.bounds), [BoolByte(s.filter)];
    var d, e, f := EncodeInt32(s.filterNeighbors), EncodeFloat(s.filterThreshold), EncodeInt32(|s.markers|);
    Peel(buf, at, a, b + (c + (d + (e + f))));
    Peel(buf, at + 4, b, c + (d + (e + f)));
    Peel(buf, at + 28, c, d + (e + f));
    Peel(buf, at + 29, d, e + f);
    Peel(buf, at + 33, e, f);
    ReadInt32Of(buf, at, s.nBytes);
    ReadFloatsOf(buf, at + 4, s.bounds);
    assert buf[at + 28] == buf[at + 28..at + 29][0];
    ReadInt32Of(buf, at + 29, s.filterNeighbors);
    ReadFloatOf(buf, at + 33, s.filterThreshold);
    ReadInt32Of(buf, at + 37, |s.markers|);
  }

  /** The fields after the markers read back from their offsets. */
  lemma {:induction false} SettingsTailOf(buf: seq<byte>, e: nat, s: SettingsMsg)
    requires SettingsFit(s) && e + 18 <= |buf| && buf[e..e + 18] == SettingsTailBytes(s)
    ensures ParseTail(buf, e) == TailOf(s)
  {
    var a, b, c := [BoolByte(s.streamOnlyBodies)], EncodeInt32(s.compressionLevel), [BoolByte(s.autoExposureEnabled)];
    var d, f, g := EncodeInt32(s.exposureStep), EncodeInt32(s.exportFormat), EncodeInt32(s.extrinsicsStyle);
    Peel(buf, e, a, b + (c + (d + (f + g))));
    Peel(buf, e + 1, b, c + (d + (f + g)));
    Peel(buf, e + 5, c, d + (f + g));
    Peel(buf, e + 6, d, f + g);
    Peel(buf, e + 10, f, g);
    assert buf[e] == buf[e..e + 1][0];
    ReadInt32Of(buf, e + 1, s.compressionLevel);
    assert buf[e + 5] == buf[e + 5..e + 6][0];
    ReadInt32Of(buf, e + 6, s.exposureStep);
    ReadInt32Of(buf, e + 10, s.exportFormat);
    ReadInt32Of(buf, e + 14, s.extrinsicsStyle);
  }

  /** The three parts of the settings lie at their offsets. */
  lemma {:induction false} SettingsParts(buf: seq<byte>, at: nat, s: SettingsMsg)
    requires SettingsFit(s)
    requires SettingsEnd(at, |s.markers|) <= |buf| && buf[at..SettingsEnd(at, |s.markers|)] == SettingsBytes(s)
    ensures var e := TailStart(at, |s.markers|);
      e + 18 <= |buf| && buf[at..at + 41] == SettingsHeadBytes(s) &&
      buf[at + 41..e] == MarkersBytes(s.markers) && buf[e..e + 18] == SettingsTailBytes(s)
  {
    var h, ms, tl := SettingsHeadBytes(s), MarkersBytes(s.markers), SettingsTailBytes(s);
    Peel(buf, at, h, ms + tl);
    Peel(buf, at + 41, ms, tl);
  }

  /** The reader assembles whatever its three part readers find. */
  lemma {:induction false} ParseSettingsOfParts(buf: seq<byte>, at: nat, h: SettingsHead, ms: seq<MarkerPoseMsg>, tl: SettingsTail)
    requires SettingsEnd(at, |ms|) <= |buf| && ParseHead(buf, at) == h && h.nMarkers == |ms|
    requires ParseMarkers(buf, at + 41, |ms|) == ms && ParseTail(buf, TailStart(at, |ms|)) == tl
    ensures ParseSettings(buf, at) == Some(Assemble(h, ms, tl))
  {
  }

  /** The head of laid-out settings reads back as the settings' head. */
  lemma {:induction false} SettingsHeadRoundTrip(buf: seq<byte>, at: nat, s: SettingsMsg)
    requires SettingsFit(s)
    requires SettingsEnd(at, |s.markers|) <= |buf| && buf[at..SettingsEnd(at, |s.markers|)] == SettingsBytes(s)
    ensures ParseHead(buf, at) == HeadOf(s)
  {
    SettingsParts(buf, at, s);
    SettingsHeadOf(buf, at, s);
  }

  /** The markers of laid-out settings read back as themselves. */
  lemma {:induction false} SettingsMarkersRoundTrip(buf: seq<byte>, at: nat, s: SettingsMsg)
    requires SettingsFit(s)
    requires SettingsEnd(at, |s.markers|) <= |buf| && buf[at..SettingsEnd(at, |s.markers|)] == SettingsBytes(s)
    ensures ParseMarkers(buf, at + 41, |s.markers|) == s.markers
  {
    SettingsParts(buf, at, s);
    ParseMarkersOf(buf, at + 41, s.markers);
  }

  /** The tail of laid-out settings reads back as the settings' tail. */
  lemma {:induction false} SettingsTailRoundTrip(buf: seq<byte>, at: nat, s: SettingsMsg)
    requires SettingsFit(s)
    requires SettingsEnd(at, |s.markers|) <= |buf| && buf[at..SettingsEnd(at, |s.markers|)] == SettingsBytes(s)
    ensures ParseTail(buf, TailStart(at, |s.markers|)) == TailOf(s)
  {
    SettingsParts(buf, at, s);
    SettingsTailOf(buf, TailStart(at, |s.markers|), s);
  }

  /**
   * Settings laid out as the client expects, wherever they start, read back
   * as themselves; the cursor then lands just after them.
   */
  lemma {:induction false} SettingsRoundTrip(buf: seq<byte>, at: nat, s: SettingsMsg)
    requires SettingsFit(s)
    requires SettingsEnd(at, |s.markers|) <= |buf| && buf[at..SettingsEnd(at, |s.markers|)] == SettingsBytes(s)
    ensures ParseSettings(buf, at) == Some(s)
  {
    SettingsHeadRoundTrip(buf, at, s);
    SettingsMarkersRoundTrip(buf, at, s);
    SettingsTailRoundTrip(buf, at, s);
    ParseSettingsOfParts(buf, at, HeadOf(s), s.markers, TailOf(s));
    assert Assemble(HeadOf(s), s.markers, TailOf(s)) == s;
  }
}
