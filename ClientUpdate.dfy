/**
 * LiveScanClient::UpdateFrame (liveScanClient.cpp) as a function of the
 * client and the device: the requests the socket loop recorded are acted on
 * in the order the code tests them, then a new frame, if the device has one,
 * is captured as raw files or as a point cloud. Reinit and the two post-sync
 * passes are here too. The replies UpdateFrame sends itself (the restart and
 * post-sync confirmations) go straight to the outbox.
 */
module ClientUpdate {
  import opened Bytes
  import opened Wrappers
  import opened Messages
  import opened ClientState

  // ---------------------------------------------------------------------
  // The stages before the capture
  // ---------------------------------------------------------------------

  /** The post-sync list, the recorded frames and the colour format are as they were. */
  predicate SameSync(c: Client, d: Client)
  {
    d.sync == c.sync && d.files.records == c.files.records &&
    d.configuration.colorFormat == c.configuration.colorFormat
  }

  /** m_bRequestConfiguration: the hardware sync state is read from the device and the configuration is to be sent. */
  function RefreshedConfiguration(dev: Device, c: Client): (d: Client)
    ensures SameSync(c, d) && (Consistent(c) ==> Consistent(d))
  {
    if c.requests.requestConfiguration then
      c.(configuration := c.configuration.(hardwareSyncState := dev.syncJackState),
         requests := c.requests.(requestConfiguration := false),
         pending := c.pending.(sendConfiguration := true))
    else c
  }

  /** m_bUpdateSettings: the exposure settings go to the device. */
  function ExposureApplied(c: Client): (d: Client)
    ensures SameSync(c, d) && (Consistent(c) ==> Consistent(d))
  {
    if c.requests.updateSettings then
      c.(actions := c.actions + [ExposureSet(c.settings.autoExposureEnabled, c.settings.exposureStep)],
         requests := c.requests.(updateSettings := false))
    else c
  }

  /**
   * Reinit: the device is closed and initialised again. A failure sends a
   * negative restart confirmation at once; a success reads the hardware sync
   * state anew. The restarting flag is set for the call and cleared on every
   * way out.
   */
  function Reinitialized(t: Tags, dev: Device, c: Client): (Client, bool)
  {
    var d := c.(restartingCamera := false);
    if !dev.closeOk || !dev.initializeOk then
      (d.(outbox := d.outbox + RestartConfirmation(t, false)), false)
    else
      (d.(configuration := d.configuration.(hardwareSyncState := dev.syncJackState)), true)
  }

  /** m_bRestartCamera: Reinit, then the restart confirmation of its outcome. */
  function Restarted(t: Tags, dev: Device, c: Client): (d: Client)
    ensures SameSync(c, d) && (Consistent(c) ==> Consistent(d))
  {
    if c.requests.restartCamera then
      var (d, ok) := Reinitialized(t, dev, c);
      d.(outbox := d.outbox + RestartConfirmation(t, ok), requests := d.requests.(restartCamera := false))
    else c
  }

  /** m_bStartPreRecordingProcess: the recording counters start again from nothing. */
  function PreRecorded(c: Client): (d: Client)
    ensures SameSync(c, d) && (Consistent(c) ==> Consistent(d))
  {
    if c.requests.startPreRecordingProcess then
      c.(counters := Counters(0, [], []),
         requests := c.requests.(startPreRecordingProcess := false),
         pending := c.pending.(confirmPreRecordingProcess := true))
    else c
  }

  /** m_bStartPostRecordingProcess: the timestamp log is written from the counters. */
  function PostRecorded(c: Client): (d: Client)
    ensures SameSync(c, d) && (Consistent(c) ==> Consistent(d))
  {
    if c.requests.startPostRecordingProcess then
      c.(actions := c.actions + [TimestampLogWritten(c.counters.frameCount, c.counters.frameTimestamps)],
         requests := c.requests.(startPostRecordingProcess := false),
         pending := c.pending.(confirmPostRecordingProcess := true))
    else c
  }

  // ---------------------------------------------------------------------
  // Post-sync
  // ---------------------------------------------------------------------

  /**
   * The frame the synced file gets for one id: an empty frame with timestamp 0
   * for -1, the recorded frame for an index of the recording, and whatever the
   * reader yields for any other id, which the code seeks to unchecked.
   */
  function SyncedRecord(records: seq<Record>, id: int, unrecorded: int -> Record): Record
  {
    if id == -1 then EmptyRecord else if 0 <= id < |records| then records[id] else unrecorded(id)
  }

  /** PostSyncPointclouds: the synced file, one frame per id, in the order of the ids. */
  function SyncedRecords(records: seq<Record>, ids: seq<int>, unrecorded: int -> Record): seq<Record>
  {
    if ids == [] then []
    else SyncedRecords(records, ids[..|ids| - 1], unrecorded) + [SyncedRecord(records, ids[|ids| - 1], unrecorded)]
  }

  /** The synced file has a frame for every id, each the one its id names. */
  lemma {:induction false} SyncedRecordsSlots(records: seq<Record>, ids: seq<int>, unrecorded: int -> Record)
    ensures |SyncedRecords(records, ids, unrecorded)| == |ids|
    ensures forall k :: 0 <= k < |ids| ==>
      SyncedRecords(records, ids, unrecorded)[k] ==
        (if ids[k] == -1 then EmptyRecord else if 0 <= ids[k] < |records| then records[ids[k]] else unrecorded(ids[k]))
  {
    if ids != [] {
      var front := ids[..|ids| - 1];
      SyncedRecordsSlots(records, front, unrecorded);
      forall k | 0 <= k < |front| ensures front[k] == ids[k] {
      }
    }
  }

  /** Every one of the first n writes succeeds. */
  predicate AllWritten(writeOk: nat -> bool, n: nat)
  {
    forall k :: 0 <= k < n ==> writeOk(k)
  }

  /** The loop of PostSyncPointclouds: one write per id, and success unless some write failed. */
  method WriteSynced(records: seq<Record>, ids: seq<int>, writeOk: nat -> bool, unrecorded: int -> Record)
    returns (synced: seq<Record>, success: bool)
    ensures synced == SyncedRecords(records, ids, unrecorded)
    ensures success == AllWritten(writeOk, |ids|)
  {
    synced, success := [], true;
    var i := 0;
    while i < |ids|
      invariant 0 <= i <= |ids|
      invariant synced == SyncedRecords(records, ids[..i], unrecorded)
      invariant success == AllWritten(writeOk, i)
    {
      assert ids[..i + 1][..i] == ids[..i];
      if ids[i] == -1 {
        synced := synced + [EmptyRecord];
      } else if 0 <= ids[i] < |records| {
        synced := synced + [records[ids[i]]];
      } else {
        synced := synced + [unrecorded(ids[i])];
      }
      if !writeOk(i) {
        success := false;
      }
      i := i + 1;
    }
    assert ids[..i] == ids;
  }

  /** PostSyncRawFrames: for each id, an empty frame pair or the rename of the recorded pair, under its synced id. */
  function RawSyncActions(ids: seq<int>, syncedIds: seq<int>): (r: seq<Action>)
    requires |ids| == |syncedIds|
  {
    if ids == [] then []
    else
      var n := |ids| - 1;
      RawSyncActions(ids[..n], syncedIds[..n]) +
        [if ids[n] == -1 then EmptyRawFrameWritten(syncedIds[n]) else RawFramePairRenamed(ids[n], syncedIds[n])]
  }

  /** One action per id, each naming the frame the id stands for and its synced id. */
  lemma {:induction false} RawSyncActionsSlots(ids: seq<int>, syncedIds: seq<int>)
    requires |ids| == |syncedIds|
    ensures |RawSyncActions(ids, syncedIds)| == |ids|
    ensures forall k :: 0 <= k < |ids| ==>
      RawSyncActions(ids, syncedIds)[k] ==
        (if ids[k] == -1 then EmptyRawFrameWritten(syncedIds[k]) else RawFramePairRenamed(ids[k], syncedIds[k]))
  {
    if ids != [] {
      var n := |ids| - 1;
      RawSyncActionsSlots(ids[..n], syncedIds[..n]);
      forall k | 0 <= k < n ensures ids[..n][k] == ids[k] && syncedIds[..n][k] == syncedIds[k] {
      }
    }
  }

  /** Every rename among the first n ids succeeds; the empty frames written for -1 report nothing. */
  predicate AllRenamed(ids: seq<int>, renameOk: nat -> bool, n: nat)
    requires n <= |ids|
  {
    forall k :: 0 <= k < n ==> ids[k] == -1 || renameOk(k)
  }

  /** The loop of PostSyncRawFrames: one action per id, and success unless some rename failed. */
  method RenameSynced(ids: seq<int>, syncedIds: seq<int>, renameOk: nat -> bool) returns (acts: seq<Action>, success: bool)
    requires |ids| == |syncedIds|
    ensures acts == RawSyncActions(ids, syncedIds)
    ensures success == AllRenamed(ids, renameOk, |ids|)
  {
    acts, success := [], true;
    var i := 0;
    while i < |ids|
      invariant 0 <= i <= |ids|
      invariant acts == RawSyncActions(ids[..i], syncedIds[..i])
      invariant success == AllRenamed(ids, renameOk, i)
    {
      assert ids[..i + 1][..i] == ids[..i] && syncedIds[..i + 1][..i] == syncedIds[..i];
      if ids[i] == -1 {
        acts := acts + [EmptyRawFrameWritten(syncedIds[i])];
      } else {
        acts := acts + [RawFramePairRenamed(ids[i], syncedIds[i])];
        if !renameOk(i) {
          success := false;
        }
      }
      i := i + 1;
    }
    assert ids[..i] == ids && syncedIds[..i] == syncedIds;
  }

  /** The two post-sync lists have one entry each per capture: the socket loop resizes both to the same size. */
  predicate SyncPaired(c: Client)
  {
    |c.sync.frameID| == |c.sync.postSyncedFrameID|
  }

  /** The pass for the colour format: raw frame pairs for MJPG, the point-cloud file for BGRA32, nothing otherwise. */
  function PostSyncPass(dev: Device, c: Client): (Client, bool)
    requires SyncPaired(c)
  {
    var ids := c.sync.frameID;
    match c.configuration.colorFormat
    case MJPG => (c.(actions := c.actions + RawSyncActions(ids, c.sync.postSyncedFrameID)),
                  AllRenamed(ids, dev.renameOk, |ids|))
    case BGRA32 => (c.(files := Archive(SyncedRecords(c.files.records, ids, dev.unrecorded), 0)), AllWritten(dev.writeOk, |ids|))
    case OtherColorFormat => (c, true)
  }

  /** m_bPostSyncedListReceived: the pass for the colour format, then the post-sync confirmation of its outcome. */
  function PostSynced(t: Tags, dev: Device, c: Client): (d: Client)
    requires SyncPaired(c)
    ensures Consistent(c) ==> Consistent(d)
    ensures d.sync == c.sync
  {
    if c.requests.postSyncedListReceived then
      var (d, ok) := PostSyncPass(dev, c.(requests := c.requests.(postSyncedListReceived := false)));
      d.(outbox := d.outbox + PostSyncConfirmation(t, ok))
    else c
  }

  // ---------------------------------------------------------------------
  // The capture
  // ---------------------------------------------------------------------

  /** A frame is captured while frames are requested or a single frame is. */
  predicate Capturing(q: Requests)
  {
    q.captureFrames || q.captureSingleFrame
  }

  /** The counters after a captured frame: its index and its timestamp side by side, and the next index. */
  function Counted(k: Counters, timestamp: int): (r: Counters)
    ensures Recording(k) ==> Recording(r) && r.frameCount == Upto(k.frameIndex + 1)
  {
    Counters(k.frameIndex + 1, k.frameCount + [k.frameIndex], k.frameTimestamps + [timestamp])
  }

  /** A single-frame request is answered by the capture: its flag goes down and the confirmation is due. */
  function SingleFrameDone(c: Client): Client
  {
    if c.requests.captureSingleFrame then
      c.(pending := c.pending.(confirmCaptured := true), requests := c.requests.(captureSingleFrame := false))
    else c
  }

  /** The raw branch: a requested frame is counted and its colour and depth files are written under its index. */
  function RawCaptured(dev: Device, c: Client): Client
  {
    if Capturing(c.requests) then
      SingleFrameDone(c.(counters := Counted(c.counters, dev.timestamp),
                         actions := c.actions + [RawFrameWritten(c.counters.frameIndex)]))
    else c
  }

  /** m_bCalibrate: a calibration that succeeds becomes the client's world pose, is saved and confirmed. */
  function Calibrated(dev: Device, c: Client): Client
  {
    if c.requests.calibrate && dev.calibrated.Some? then
      var p := dev.calibrated.value;
      c.(calibration := c.calibration.(worldR := p.r, worldT := p.t, usedMarkerId := p.markerId),
         actions := c.actions + [CalibrationSaved],
         pending := c.pending.(confirmCalibrated := true),
         requests := c.requests.(calibrate := false))
    else c
  }

  /**
   * The point-cloud branch: StoreFrame's frame becomes the last frame, a
   * requested frame is counted and appended to the recording, then a
   * requested calibration runs.
   */
  function PointcloudCaptured(dev: Device, c: Client): Client
  {
    var s := dev.stored;
    var d := c.(lastFrame := s);
    var e := if Capturing(d.requests) then
               SingleFrameDone(d.(counters := Counted(d.counters, dev.timestamp),
                                  files := d.files.(records := d.files.records + [Record(s.vertices, s.rgb, dev.timestamp)])))
             else d;
    Calibrated(dev, e)
  }

  /** The capture at the end of UpdateFrame: nothing when the device has no new frame. */
  function Captured(dev: Device, c: Client): (d: Client)
    ensures Consistent(c) && DeviceFits(dev) ==> Consistent(d)
    ensures d.sync == c.sync
  {
    if !dev.frameAcquired then c
    else if dev.acquiresPointcloud then PointcloudCaptured(dev, c)
    else RawCaptured(dev, c)
  }

  /** The stages before the capture, in the order UpdateFrame runs them. */
  function Prepared(t: Tags, dev: Device, c: Client): (d: Client)
    requires SyncPaired(c)
    ensures Consistent(c) ==> Consistent(d)
    ensures d.sync == c.sync
  {
    var c1 := Restarted(t, dev, ExposureApplied(RefreshedConfiguration(dev, c)));
    PostSynced(t, dev, PostRecorded(PreRecorded(c1)))
  }

  /** UpdateFrame: nothing while the device is not initialised or restarting, else every stage and the capture. */
  function Updated(t: Tags, dev: Device, c: Client): (d: Client)
    requires SyncPaired(c)
    ensures Consistent(c) && DeviceFits(dev) ==> Consistent(d)
    ensures d.sync == c.sync
  {
    if !dev.initialized || c.restartingCamera then c
    else Captured(dev, Prepared(t, dev, c))
  }

  // ---------------------------------------------------------------------
  // What UpdateFrame promises
  // ---------------------------------------------------------------------

  /** Counting a frame extends 0 .. n-1 by n and keeps the two lists side by side. */
  lemma {:induction false} CountedRecording(k: Counters, timestamp: int)
    requires Recording(k)
    ensures Recording(Counted(k, timestamp))
    ensures Counted(k, timestamp).frameCount == Upto(k.frameIndex + 1)
    ensures Counted(k, timestamp).frameTimestamps[k.frameIndex] == timestamp
  {
    assert Upto(k.frameIndex + 1) == Upto(k.frameIndex) + [k.frameIndex];
  }

  /**
   * A restart sends one confirmation when Reinit succeeds and two negative
   * ones when it fails: Reinit sends one itself and UpdateFrame another.
   */
  lemma {:induction false} RestartReplies(t: Tags, dev: Device, c: Client)
    requires c.requests.restartCamera
    ensures var d := Restarted(t, dev, c);
      !d.requests.restartCamera && !d.restartingCamera &&
      if dev.closeOk && dev.initializeOk then
        d.outbox == c.outbox + RestartConfirmation(t, true) &&
        d.configuration.hardwareSyncState == dev.syncJackState
      else
        d.outbox == c.outbox + RestartConfirmation(t, false) + RestartConfirmation(t, false) &&
        d.configuration == c.configuration
  {
  }

  /** A pre-recording request resets the counters to nothing and leaves its confirmation due. */
  lemma {:induction false} PreRecordResets(c: Client)
    requires c.requests.startPreRecordingProcess
    ensures var d := PreRecorded(c);
      Recording(d.counters) && d.counters.frameIndex == 0 && d.counters.frameCount == [] &&
      d.counters.frameTimestamps == [] && d.pending.confirmPreRecordingProcess &&
      !d.requests.startPreRecordingProcess
  {
  }

  /**
   * The point-cloud post-sync replaces the recording by one frame per id,
   * each the frame the id names, read from the start, and confirms success
   * exactly when every write succeeded.
   */
  lemma {:induction false} PointcloudPostSync(t: Tags, dev: Device, c: Client)
    requires SyncPaired(c) && c.requests.postSyncedListReceived && c.configuration.colorFormat == BGRA32
    ensures var d, ids := PostSynced(t, dev, c), c.sync.frameID;
      |d.files.records| == |ids| && d.files.readPos == 0 &&
      (forall k :: 0 <= k < |ids| ==>
         d.files.records[k] ==
           (if ids[k] == -1 then EmptyRecord
            else if 0 <= ids[k] < |c.files.records| then c.files.records[ids[k]]
            else dev.unrecorded(ids[k]))) &&
      d.outbox == c.outbox + PostSyncConfirmation(t, forall k :: 0 <= k < |ids| ==> dev.writeOk(k)) &&
      !d.requests.postSyncedListReceived
  {
    SyncedRecordsSlots(c.files.records, c.sync.frameID, dev.unrecorded);
  }

  /**
   * The raw post-sync writes or renames one frame pair per id, under its
   * synced id, and confirms success exactly when every rename succeeded.
   */
  lemma {:induction false} RawPostSync(t: Tags, dev: Device, c: Client)
    requires SyncPaired(c) && c.requests.postSyncedListReceived && c.configuration.colorFormat == MJPG
    ensures var d, ids, to := PostSynced(t, dev, c), c.sync.frameID, c.sync.postSyncedFrameID;
      |d.actions| == |c.actions| + |ids| && d.actions[..|c.actions|] == c.actions &&
      (forall k :: 0 <= k < |ids| ==>
         d.actions[|c.actions| + k] ==
           (if ids[k] == -1 then EmptyRawFrameWritten(to[k]) else RawFramePairRenamed(ids[k], to[k]))) &&
      d.outbox == c.outbox + PostSyncConfirmation(t, forall k :: 0 <= k < |ids| ==> ids[k] == -1 || dev.renameOk(k)) &&
      d.files == c.files
  {
    var ids, to := c.sync.frameID, c.sync.postSyncedFrameID;
    RawSyncActionsSlots(ids, to);
    var d := PostSynced(t, dev, c);
    assert d.actions == c.actions + RawSyncActions(ids, to);
  }

  /**
   * A captured frame appends its index, which is the number of frames
   * counted before it, and its timestamp; a single-frame request is answered.
   * In point-cloud mode the frame StoreFrame left joins the recording.
   */
  lemma {:induction false} CaptureCounts(dev: Device, c: Client)
    requires Recording(c.counters) && dev.frameAcquired && Capturing(c.requests)
    ensures var d, k := Captured(dev, c), c.counters;
      Recording(d.counters) && d.counters.frameCount == Upto(k.frameIndex + 1) &&
      d.counters.frameTimestamps == k.frameTimestamps + [dev.timestamp] &&
      !d.requests.captureSingleFrame &&
      (c.requests.captureSingleFrame ==> d.pending.confirmCaptured) &&
      (dev.acquiresPointcloud ==>
         d.lastFrame == dev.stored &&
         d.files.records == c.files.records + [Record(dev.stored.vertices, dev.stored.rgb, dev.timestamp)])
  {
    CountedRecording(c.counters, dev.timestamp);
  }

  /** A frame that is not requested is not counted; in point-cloud mode it still becomes the last frame. */
  lemma {:induction false} IdleFrame(dev: Device, c: Client)
    requires !Capturing(c.requests)
    ensures var d := Captured(dev, c);
      d.counters == c.counters && d.files.records == c.files.records &&
      (dev.frameAcquired && dev.acquiresPointcloud ==> d.lastFrame == dev.stored)
  {
  }
}
