/**
 * The members of LiveScanClient (liveScanClient.cpp) that the modelled code
 * reads and writes, the device and file outcomes it depends on, and the
 * recording invariant that holds between calls.
 */
module ClientState {
  import opened Bytes
  import opened Wrappers
  import opened Points
  import opened FrameWire
  import opened Messages

  /** KinectConfiguration::byteLength: the size of a serialised configuration. */
  const ConfigurationLength: nat := 42

  /** The float bit patterns of the client's default bounds and filter threshold. */
  const MinusHalf: Float32 := 0xBF00_0000
  const PlusHalf: Float32 := 0x3F00_0000
  const DefaultFilterThreshold: Float32 := 0x3C23_D70A

  datatype ColorFormat = BGRA32 | MJPG | OtherColorFormat

  /**
   * The client's KinectConfiguration as far as this file reads it: the colour
   * format and the hardware sync state; `device` stands for everything else
   * in it (KinectConfiguration.cpp is not part of this model).
   */
  datatype Configuration = Configuration(colorFormat: ColorFormat, hardwareSyncState: int, device: seq<byte>)

  /** The calibration member: the marker poses from the settings, the world pose and the marker it came from. */
  datatype Calibration = Calibration(markerPoses: seq<MarkerPoseMsg>, worldR: seq<Float32>, worldT: seq<Float32>,
                                     usedMarkerId: int)

  predicate CalibrationFits(cal: Calibration)
  {
    IsPose(cal.worldR, cal.worldT) && IsInt32(cal.usedMarkerId)
  }

  /** One frame of the binary recording: its points, their colours and its timestamp. */
  datatype Record = Record(points: seq<Point3s>, colors: seq<RGB>, timestamp: int)

  const EmptyRecord := Record([], [], 0)

  /** The recording file of m_framesFileWriterReader: its frames and the index readNextBinaryFrame returns next. */
  datatype Archive = Archive(records: seq<Record>, readPos: nat)

  /** What StoreFrame leaves in m_vLastFrameVertices, m_vLastFrameRGB and m_vLastFrameBody. */
  datatype StoredFrame = StoredFrame(vertices: seq<Point3s>, rgb: seq<RGB>, bodies: seq<Body>)

  /** File and device actions whose effect lies outside this model. */
  datatype Action =
    | StoredFramesClosed
    | RecordDirectoryCreated(path: seq<byte>)
    | CalibrationJsonWritten
    | ExposureSet(autoExposure: bool, exposureStep: int)
    | TimestampLogWritten(frameCount: seq<int>, frameTimestamps: seq<int>)
    | RawFrameWritten(index: int)
    | EmptyRawFrameWritten(index: int)
    | RawFramePairRenamed(from: int, to: int)
    | CalibrationSaved

  /** A compressed buffer whose size SendFrame can put in its int header field. */
  type FrameBytes = s: seq<byte> | IsInt32(|s|)

  type ConfigurationBytes = s: seq<byte> | |s| == ConfigurationLength witness seq(ConfigurationLength, _ => 0)

  /**
   * The code this file calls but does not model: ZSTD_compress at a level,
   * CreateRecordDirectory, KinectConfiguration::SetFromBytes and ToBytes.
   */
  datatype Env = Env(compress: (seq<byte>, int) -> FrameBytes, dirCreated: seq<byte> -> bool,
                     setFromBytes: (Configuration, seq<byte>) -> Configuration,
                     toBytes: Configuration -> ConfigurationBytes)

  /** What Calibration::Calibrate finds: the world rotation and translation and the marker they came from. */
  datatype WorldPose = WorldPose(r: seq<Float32>, t: seq<Float32>, markerId: int)

  /**
   * The device and the recording files as UpdateFrame and Reinit see them
   * during one call: the capture object's flags and outcomes, the frame
   * StoreFrame leaves from the acquired point cloud, the outcome of the
   * calibration on it, and whether the i-th write or rename of a post-sync
   * pass succeeds. `acquiresPointcloud` is the flag as read after a restart.
   * `unrecorded` is what seeking the recording to a frame it does not hold and
   * reading there yields (FrameFileWriterReader is not part of this model).
   */
  datatype Device = Device(
    initialized: bool, acquiresPointcloud: bool, syncJackState: int, closeOk: bool, initializeOk: bool,
    frameAcquired: bool, timestamp: int, stored: StoredFrame, calibrated: Option<WorldPose>,
    writeOk: nat -> bool, renameOk: nat -> bool, unrecorded: int -> Record)

  /** The device's values fit the fields the client sends them in. */
  predicate DeviceFits(dev: Device)
  {
    IsUInt64(dev.timestamp) &&
    (dev.calibrated.Some? ==> IsPose(dev.calibrated.value.r, dev.calibrated.value.t) &&
                              IsInt32(dev.calibrated.value.markerId))
  }

  /** The server's requests the socket loop records for UpdateFrame (m_bCaptureSingleFrame, ...). */
  datatype Requests = Requests(
    captureSingleFrame: bool, captureFrames: bool, startPreRecordingProcess: bool,
    startPostRecordingProcess: bool, calibrate: bool, restartCamera: bool, requestConfiguration: bool,
    updateSettings: bool, sendTimestampList: bool, postSyncedListReceived: bool)

  const NoRequests := Requests(false, false, false, false, false, false, false, false, false, false)

  /** The replies UpdateFrame leaves for the socket loop to send (m_bConfirmCaptured, ...). */
  datatype Pending = Pending(confirmCaptured: bool, confirmCalibrated: bool, confirmPreRecordingProcess: bool,
                             confirmPostRecordingProcess: bool, sendConfiguration: bool)

  const NoPending := Pending(false, false, false, false, false)

  /** The members a settings message sets (m_vBounds, m_bFilter, ...). */
  datatype Settings = Settings(
    bounds: seq<Float32>, filter: bool, filterNeighbors: int, filterThreshold: Float32,
    streamOnlyBodies: bool, compressionLevel: int, frameCompression: bool,
    autoExposureEnabled: bool, exposureStep: int, extrinsicsStyle: int)

  /** The constructor's initialiser list and its six pushes onto m_vBounds. */
  const DefaultSettings := Settings([MinusHalf, MinusHalf, MinusHalf, PlusHalf, PlusHalf, PlusHalf], false, 10,
                                    DefaultFilterThreshold, false, 2, true, true, -5, 0)

  /** The recording counters: m_nFrameIndex, m_vFrameCount and m_vFrameTimestamps. */
  datatype Counters = Counters(frameIndex: int, frameCount: seq<int>, frameTimestamps: seq<int>)

  /** The post-sync map from the server: m_vFrameID and m_vPostSyncedFrameID. */
  datatype SyncLists = SyncLists(frameID: seq<int>, postSyncedFrameID: seq<int>)

  /** Every member of LiveScanClient that the modelled code reads or writes, and what left the client. */
  datatype Client = Client(
    connected: bool, restartingCamera: bool, requests: Requests, pending: Pending, settings: Settings,
    calibration: Calibration, configuration: Configuration, counters: Counters, sync: SyncLists,
    files: Archive, lastFrame: StoredFrame, outbox: seq<byte>, actions: seq<Action>)

  /**
   * The client right after its constructor. The initialiser list leaves
   * m_bUpdateSettings, m_bConfirmPreRecordingProcess and
   * m_bConfirmPostRecordingProcess unset, so their first values are parameters.
   */
  function Initial(calibration: Calibration, configuration: Configuration,
                   updateSettings: bool, confirmPre: bool, confirmPost: bool): Client
  {
    Client(false, false, NoRequests.(updateSettings := updateSettings),
           NoPending.(confirmPreRecordingProcess := confirmPre, confirmPostRecordingProcess := confirmPost),
           DefaultSettings, calibration, configuration, Counters(0, [], []),
           SyncLists([], []), Archive([], 0), StoredFrame([], [], []), [], [])
  }

  /** The frame numbers 0 .. n-1 in order. */
  function Upto(n: nat): (r: seq<int>)
    ensures |r| == n
  {
    if n == 0 then [] else Upto(n - 1) + [n - 1]
  }

  /** The recording bookkeeping: the frame numbers so far are 0 .. frameIndex-1, one timestamp each. */
  predicate Recording(k: Counters)
  {
    k.frameIndex >= 0 && k.frameCount == Upto(k.frameIndex) && |k.frameTimestamps| == |k.frameCount|
  }

  /** What holds of the client between calls. */
  predicate Consistent(c: Client)
  {
    Recording(c.counters) && CalibrationFits(c.calibration) && |c.sync.frameID| == |c.sync.postSyncedFrameID| &&
    |c.settings.bounds| == 6
  }

  /** The constructed client is consistent. */
  lemma {:induction false} InitialConsistent(calibration: Calibration, configuration: Configuration,
                                             updateSettings: bool, confirmPre: bool, confirmPost: bool)
    requires CalibrationFits(calibration)
    ensures Consistent(Initial(calibration, configuration, updateSettings, confirmPre, confirmPost))
  {
  }
}
