# LiveScan3D core in Dafny

LiveScan3D records 3D video with several Azure Kinect sensors. Each sensor
runs a client (C++). The client captures point clouds or raw colour and
depth frames, finds a fiducial marker to calibrate itself, and talks to
one server (C#) over a byte protocol. The server sends captures, settings,
calibrations and configurations. The client answers with frames,
confirmations and timestamp lists. An offline image library
(ImageToPointcloud) turns recorded depth and colour images into the same
point clouds.

This project models the byte-level and array-level bookkeeping of that
system and proves properties about it:

- `Points`, `ClientFrame`, `ImageToPointcloud`: the validity rules, the
  inclusive bounding box and the compaction of a frame into its valid
  points in scan order. The client's `StoreFrame` and the offline
  `PointCloudImageToPoint3f` / `Pointcloud3fMinify` are both modelled, as
  imperative code over arrays.
- `Marker`: the 9-cell code of a marker, the corner ordering, the mirrored
  retry, the choice of the largest marker and the contour segments between
  corners. Everything OpenCV computes is an input.
- `Bytes`, `FrameWire`, `Messages`, `ClientState`, `ClientUpdate`,
  `ClientProtocol`: the client's side of the protocol.
  - The frame payload writer and its header.
  - The socket loop that dispatches on tag bytes and moves a cursor over
    the received bytes.
  - The replies and confirmations.
  - `UpdateFrame` with its recording counters.
  - The post-sync rewrite of a recording.
- `KinectSocket`, `ClientSettings`, `KinectConfiguration`,
  `KinectConfigurationForm`: the server's side.
  - The frame parser and the request and reply flags.
  - The settings and configuration byte layouts.
  - The take-number dictionary.
  - The configuration dialog's list mappings and its apply-all rule.

The tag byte values of the messages live in a header that is not part of
this model. They are a parameter (`Messages.Tags`), and the properties that
need them assume that they are pairwise distinct. Floats on the wire are
carried as their 32-bit patterns (`Float32`). The geometry uses `real`.
Calls into code that is not modelled become function parameters. These
are zstd, RotatePoint, the file writers, the k4a SDK, SetFromBytes and the
OpenCV routines.

## Model

| member | source | states |
|---|---|---|
| Points.InsideBoxIffWithinBounds | src/LiveScanClient/liveScanClient.cpp:1283-1285 | A point passes the box test exactly when every coordinate lies in the closed interval [min, max]: the box is inclusive |
| Points.ValidIndicesUpToSpec | ImageProcessing/ImageToPointcloud.cpp:289-302 | The indices the compaction visits are exactly the valid entries, each once, in increasing (scan) order |
| Points.ValidIndicesUpToMonotone | ImageProcessing/ImageToPointcloud.cpp:257-273 | The count of valid points never falls as the scan advances |
| Points.Gather | src/LiveScanClient/liveScanClient.cpp:1331-1339 | Output k is the source entry at the k-th selected index, and there is one output per index |
| ClientFrame.VertexRule | src/LiveScanClient/liveScanClient.cpp:1272-1300 | A vertex with Z below 0.0001 or a colour whose reserved byte is not 255 becomes the invalid point; an accepted vertex of an uncalibrated client is kept unchanged |
| ClientFrame.BoxRule | src/LiveScanClient/liveScanClient.cpp:1276-1289 | A calibrated client translates, then rotates, then rejects the point exactly when it lies strictly outside a bound |
| ClientFrame.MarkVertices | src/LiveScanClient/liveScanClient.cpp:1262-1301 | AllVertices holds each pixel's verdict, and goodVerticesCount is the number of kept pixels |
| ClientFrame.CompactValid | src/LiveScanClient/liveScanClient.cpp:1326-1339 | The outputs hold exactly the non-invalid entries of AllVertices, in scan order, each with the colour of its own pixel; there is no sentinel |
| ClientFrame.CompactOne | src/LiveScanClient/liveScanClient.cpp:1333-1338 | One pass of the copy loop keeps the invariant that the first j outputs are the first j valid entries |
| ClientFrame.ValidAreKept | src/LiveScanClient/liveScanClient.cpp:1265-1301 | The entries the first loop leaves valid are exactly the pixels it counted as kept |
| ClientFrame.CompactFrame | src/LiveScanClient/liveScanClient.cpp:1252-1339 | StoreFrame before the outlier filter: one output per kept pixel, in scan order, with the colour of that pixel |
| ClientFrame.KeptIndicesSpec | src/LiveScanClient/liveScanClient.cpp:1265-1301 | The kept indices are exactly the pixels whose verdict is Kept, each once, in increasing order |
| ImageToPointcloud.StageOrder | ImageProcessing/ImageToPointcloud.cpp:81-97 | The JPEG decode is due exactly when the JPEG is not yet converted, and the conversion to Point3f is always the last stage |
| ImageToPointcloud.ConvertedPixel | ImageProcessing/ImageToPointcloud.cpp:219-225 | Pixel k copies the int16 triple at 3k; it is invalid exactly when it already was or its Z is below 1 (Invalid is never cleared) |
| ImageToPointcloud.MarkOutside | ImageProcessing/ImageToPointcloud.cpp:261-269 | The coordinates stay; a vertex becomes invalid exactly when it was invalid or lies strictly outside the box |
| ImageToPointcloud.RowMajor | ImageProcessing/ImageToPointcloud.cpp:215-219 | Row i of width w covers indices i*w up to i*w+w, all within w*h |
| ImageToPointcloud.MarkedValidIndices | ImageProcessing/ImageToPointcloud.cpp:257-273 | After marking, an index is valid exactly when it was valid and lies inside the box |
| ImageToPointcloud.ImageSet.constructor | ImageProcessing/ImageToPointcloud.cpp:22-26 | A new image set has no images, no conversions done and no points |
| ImageToPointcloud.ImageSet.ChangeJPEGFromBuffer | ImageProcessing/ImageToPointcloud.cpp:28-41 | Width or height below 1, a null buffer or a size below 1 is refused and changes nothing; otherwise only the colour size and the JPEG's unconverted flag change, and the result is the SDK's verdict |
| ImageToPointcloud.ImageSet.ChangeBGRA32FromBuffer | ImageProcessing/ImageToPointcloud.cpp:43-56 | The same guards without the size; a valid call changes only the colour size, and the result is the SDK's verdict |
| ImageToPointcloud.ImageSet.ChangeDepthFromBuffer | ImageProcessing/ImageToPointcloud.cpp:58-69 | The same guards for the depth image; a valid call changes only the depth size and the depth's unconverted flag |
| ImageToPointcloud.ImageSet.CreatePointcloudFromImages | ImageProcessing/ImageToPointcloud.cpp:81-97 | The stages run in order until the first failure; the result is true exactly when every due stage succeeded |
| ImageToPointcloud.ImageSet.PointCloudImageToPoint3f | ImageProcessing/ImageToPointcloud.cpp:191-228 | Without a point-cloud image nothing changes; otherwise every pixel of the row-major grid is ConvertedPixel of its old value |
| ImageToPointcloud.ImageSet.Pointcloud3fMinify | ImageProcessing/ImageToPointcloud.cpp:250-318 | Out-of-box vertices are marked in place; the outputs hold exactly the valid in-box points in scan order, with colour bytes 4i..4i+2 of their pixel, or the one-point sentinel when none survive; no other member changes |
| ImageToPointcloud.ConvertRow | ImageProcessing/ImageToPointcloud.cpp:217-226 | The inner loop converts row i and leaves every later pixel unchanged |
| ImageToPointcloud.MarkOutsideBox | ImageProcessing/ImageToPointcloud.cpp:257-273 | Every vertex becomes MarkOutside of itself, and goodVerticesCount is the number of valid vertices after marking |
| ImageToPointcloud.CopyValid | ImageProcessing/ImageToPointcloud.cpp:288-302 | Output j is the j-th valid vertex, converted to short, with the colour of its pixel |
| ImageToPointcloud.CopyVertex | ImageProcessing/ImageToPointcloud.cpp:291-301 | One pass of the copy loop keeps the prefix invariant with counter j |
| ImageToPointcloud.ValidIndicesUpToFrame | ImageProcessing/ImageToPointcloud.cpp:267 | Marking vertex i leaves the valid indices before i unchanged |
| Marker.CellBit | src/LiveScanClient/marker.cpp:228-233 | A cell is 1 exactly when its mean is at least 128, else 0 |
| Marker.Decode | src/LiveScanClient/marker.cpp:237-287 | The code is -1 or 0..15, and a non-negative code implies cells 4..7 complement cells 0..3 |
| Marker.DecodeGridOf | src/LiveScanClient/marker.cpp:240-287 | Every id 0..15 has a grid (id bits, their complements, the parity cell) that decodes to that id |
| Marker.GridOfDecode | src/LiveScanClient/marker.cpp:240-287 | A grid is accepted only if it is exactly the grid of the id it decodes to: the complement and parity checks reject every other grid |
| Marker.FourBits | src/LiveScanClient/marker.cpp:248-272 | The 2^(3-i) weights read four bits as a number that gives the same bits back |
| Marker.DocumentedExample | src/LiveScanClient/marker.cpp:251-265 | The grid O X O / X X O / X O X decodes to 5, and it is the grid of 5 |
| Marker.PartialSums | src/LiveScanClient/marker.cpp:238-273 | After the loop, code is the weighted sum of cells 0..3 and ones is their count |
| Marker.GetCode | src/LiveScanClient/marker.cpp:218-287 | The loops compute Decode of the cells of the nine cell means |
| Marker.LowestOutsideFrom | src/LiveScanClient/marker.cpp:153-171 | The search finds the lowest index not in the hull, or -1 when every index is in it |
| Marker.HullMissesAnIndex | src/LiveScanClient/marker.cpp:150-171 | A hull of n-1 indices misses some index below n, so the search always finds one |
| Marker.IndexSet | src/LiveScanClient/marker.cpp:154 | The indices 0..n-1 form a set of n elements |
| Marker.RotationSplits | src/LiveScanClient/marker.cpp:173-177 | The rotation is the tail from the start index followed by the head: the same elements in the same cyclic order |
| Marker.OrderCorners | src/LiveScanClient/marker.cpp:144-181 | It fails, leaving the corners, exactly when the hull does not have n-1 indices; otherwise it rotates them to start at the lowest index outside the hull |
| Marker.Reverse | src/LiveScanClient/marker.cpp:73 | Position k of the reversal holds element n-1-k |
| Marker.MirrorTailSpec | src/LiveScanClient/marker.cpp:73 | reverse(begin()+1, end()) keeps the tip first, walks the other corners backwards, keeps the multiset and undoes itself |
| Marker.ReverseMultiset | src/LiveScanClient/marker.cpp:73 | Reversing keeps the same corners |
| Marker.FirstMatchFrom | src/LiveScanClient/marker.cpp:296-303 | The search returns the first contour index at or after `from` whose point equals the corner |
| Marker.CornerIndex | src/LiveScanClient/marker.cpp:294-304 | A corner's index is the first contour point equal to it |
| Marker.WrapOnce | src/LiveScanClient/marker.cpp:329-331 | An index plus less than n wraps past the end at most once |
| Marker.Segment | src/LiveScanClient/marker.cpp:322-332 | The segment has index2-index1 points, or index2+n-index1 when it wraps |
| Marker.SegmentWalksForward | src/LiveScanClient/marker.cpp:322-332 | Point k of a segment is contour point (index1+k) mod n: the segment walks the contour forwards and wraps past its end |
| Marker.Previous | src/LiveScanClient/marker.cpp:343-344 | The cyclic predecessor of an index is again an index |
| Marker.SubPixCorners | src/LiveScanClient/marker.cpp:290-347 | Refining keeps one corner per corner |
| Marker.CornerIndices | src/LiveScanClient/marker.cpp:294-304 | The first loop records the first contour index of every corner |
| Marker.EdgeSegments | src/LiveScanClient/marker.cpp:308-333 | Edge i gets the segment from corner i to i+1, or from i+1 to i when the order is mirrored |
| Marker.IntersectNeighbours | src/LiveScanClient/marker.cpp:342-344 | Corner k is the intersection of line k with line k-1, cyclically |
| Marker.CornersSubPix | src/LiveScanClient/marker.cpp:290-347 | The refined corners are the intersections of the lines fitted to the edge segments |
| Marker.WarpPoints | src/LiveScanClient/marker.cpp:385-392 | The warp template has the five marker corners |
| Marker.GetMarkerPoints | src/LiveScanClient/marker.cpp:376-383 | The five model points are appended after what the vector held |
| Marker.MarkerPoints | src/LiveScanClient/marker.cpp:376-383 | The model outline has the five marker corners |
| Marker.Floats | src/LiveScanClient/marker.cpp:58-62 | One float point per integer vertex |
| Marker.OnContourReordered | src/LiveScanClient/marker.cpp:65-83 | Reordering the corners keeps every corner on the contour, which CornersSubPix relies on |
| Marker.OnContourRotation | src/LiveScanClient/marker.cpp:173-179 | A rotated corner list stays on the contour |
| Marker.OnContourMirror | src/LiveScanClient/marker.cpp:73 | A mirrored corner list stays on the contour |
| Marker.Detected | src/LiveScanClient/marker.cpp:48-108 | At most one marker per contour |
| Marker.DetectedMarkersAreValid | src/LiveScanClient/marker.cpp:48-108 | Every marker found is what Detect gives for one of the contours (so DetectPassesFilters applies to it), has an id 0..15 and five refined corners |
| Marker.DetectPassesFilters | src/LiveScanClient/marker.cpp:53-95 | A contour yields a marker exactly when its area is within [MinSize, MaxSize], its polygon is non-convex with five vertices and a hull of four, and its ordered or mirrored corners decode; the id is the first decode, or the mirrored one when the first fails |
| Marker.GetMarker | src/LiveScanClient/marker.cpp:35-142 | It returns true exactly when some candidate decoded; the marker is then the first detected one of largest area |
| Marker.DetectCandidate | src/LiveScanClient/marker.cpp:50-96 | The loop body yields the marker Detect gives for its contour, if any |
| Marker.ToFloats | src/LiveScanClient/marker.cpp:58-62 | The loop converts every vertex to floating point, in order |
| Marker.LargestMarker | src/LiveScanClient/marker.cpp:110-125 | maxInd has the largest area, and every marker before it is strictly smaller: the first wins ties |
| Bytes.Int32RoundTrip | LiveScanServer/KinectSocket.cs:279 | An int written little-endian by memcpy reads back with BitConverter.ToInt32 |
| Bytes.Memcpy | src/LiveScanClient/liveScanClient.cpp:1171 | memcpy changes only the bytes it copies to |
| Bytes.Resize | src/LiveScanClient/liveScanClient.cpp:1195 | vector::resize keeps the contents and adds zeros |
| FrameWire.PointRecord | src/LiveScanClient/liveScanClient.cpp:1176-1182 | A vertex record is 9 bytes: red, green, blue, then three shorts |
| FrameWire.BodyBytesSplit | src/LiveScanClient/liveScanClient.cpp:1185-1194 | The body section has 5 bytes per body and 28 per joint |
| FrameWire.FramePayload | src/LiveScanClient/liveScanClient.cpp:1164-1230 | The payload is 4 + 9n bytes of vertices, 4 bytes of body count and the body section |
| FrameWire.FrameHeader | src/LiveScanClient/liveScanClient.cpp:1244-1246 | The header has 8 bytes |
| FrameWire.HeaderRoundTrip | src/LiveScanClient/liveScanClient.cpp:1232-1249 | The header reads back as the payload length, and its second int is 1 exactly when the frame is compressed |
| FrameWire.PointsAt | LiveScanServer/KinectSocket.cs:279-296 | The server collects 3n colour bytes and 3n coordinates |
| FrameWire.PointRecordFields | LiveScanServer/KinectSocket.cs:283-294 | Each field of a vertex record reads back from its offset |
| FrameWire.PointsRoundTrip | LiveScanServer/KinectSocket.cs:279-296 | The vertex records read back as the colours' R, G, B and the vertices' coordinates, in order |
| FrameWire.ZeroJointsAt | LiveScanServer/KinectSocket.cs:310-333 | Zero bytes read back as zero joints |
| FrameWire.BodyRecordAt | LiveScanServer/KinectSocket.cs:303-335 | A body record reads back as the body sent, with zero joints, and the parse moves past it |
| FrameWire.BodiesRoundTrip | LiveScanServer/KinectSocket.cs:299-337 | The body section reads back as the bodies sent: the tracked flags and the joint counts |
| FrameWire.ParseFrameOf | LiveScanServer/KinectSocket.cs:276-337 | The frame parse is the result of its four reads |
| FrameWire.ParseParts | LiveScanServer/KinectSocket.cs:276-337 | A buffer made of the four payload parts parses as the frame sent |
| FrameWire.FrameRoundTrip | LiveScanServer/KinectSocket.cs:276-337 | What the client sends with every joint's 28 bytes reserved is read back by the server as the colours, the coordinates and the bodies sent |
| FrameWire.WritePoints | src/LiveScanClient/liveScanClient.cpp:1164-1183 | The buffer holds the vertex count, then one record per vertex |
| FrameWire.WriteRecords | src/LiveScanClient/liveScanClient.cpp:1174-1183 | The vertex loop writes the records back to back after the count |
| FrameWire.WriteNextPoint | src/LiveScanClient/liveScanClient.cpp:1176-1182 | One pass of the vertex loop appends record i |
| FrameWire.WritePoint | src/LiveScanClient/liveScanClient.cpp:1176-1182 | One record: the colour bytes, then a memcpy of the shorts; the tail stays zero |
| FrameWire.PointsStep | src/LiveScanClient/liveScanClient.cpp:1174-1183 | The records of i+1 vertices are those of i followed by the next |
| FrameWire.WriteBodyHeader | src/LiveScanClient/liveScanClient.cpp:1202-1207 | A body header is the tracked flag, then the joint count |
| FrameWire.FrameSize | src/LiveScanClient/liveScanClient.cpp:1164-1194 | The computed size is 8 + 9n plus the body section |
| FrameWire.StartBodies | src/LiveScanClient/liveScanClient.cpp:1185-1198 | After the resize, the buffer holds the vertices and the body count, with zeros behind them |
| FrameWire.WriteHeaders | src/LiveScanClient/liveScanClient.cpp:1200-1230 | The as-written body loop writes the headers back to back, with zeros behind them |
| FrameWire.WriteNextHeader | src/LiveScanClient/liveScanClient.cpp:1202-1207 | One pass of the as-written body loop appends the next header |
| FrameWire.WriteFrameAsWritten | src/LiveScanClient/liveScanClient.cpp:1164-1230 | The payload SendFrame builds as written: every header back to back, with all joint bytes at the end |
| FrameWire.WriteBody | src/LiveScanClient/liveScanClient.cpp:1200-1229 | One body: its header, then pos moves past its zero joint records |
| FrameWire.WriteNextBody | src/LiveScanClient/liveScanClient.cpp:1200-1229 | One pass of the corrected body loop keeps the suffix invariant |
| FrameWire.WriteBodies | src/LiveScanClient/liveScanClient.cpp:1200-1230 | The corrected body loop writes the body section that the server reads |
| FrameWire.WriteFrame | src/LiveScanClient/liveScanClient.cpp:1164-1230 | The corrected payload: the layout ReceiveFrame reads |
| FrameWire.AsWrittenJointMisread | src/LiveScanClient/liveScanClient.cpp:1209-1229 | With bodies (tracked, 1 joint) and (tracked, 0 joints), the as-written payload does not parse as the frame sent |
| FrameWire.HeadersWithoutJoints | src/LiveScanClient/liveScanClient.cpp:1200-1229 | When no body has a joint, the headers written back to back are the body section the server reads |
| FrameWire.AsWrittenWithoutJoints | src/LiveScanClient/liveScanClient.cpp:1160-1230 | When no body has a joint, the payload SendFrame builds as written is the corrected one, and the server reads it back as the frame sent |
| FrameWire.JointMisread | LiveScanServer/KinectSocket.cs:299-337 | That payload parses, if at all, with a first joint of type 1 |
| Messages.KindOfTag | src/LiveScanClient/liveScanClient.cpp:696-981 | With distinct tags, the client reads every tag the server sends as the message it stands for |
| Messages.TagOfKind | src/LiveScanClient/liveScanClient.cpp:696-981 | A recognised byte is the tag of the message it is read as; a byte is ignored exactly when it is no tag |
| Messages.RestartConfirmation | src/LiveScanClient/liveScanClient.cpp:1125-1141 | The restart reply is 2 bytes: its tag, then 0 exactly on success |
| Messages.PostSyncConfirmation | src/LiveScanClient/liveScanClient.cpp:1143-1158 | The post-sync reply is 2 bytes: its tag, then 1 exactly on success |
| Messages.DirConfirmation | src/LiveScanClient/liveScanClient.cpp:937-945 | The directory reply is 2 bytes: its tag, then 1 exactly when the directory was created |
| Messages.CalibrationConfirmation | src/LiveScanClient/liveScanClient.cpp:994-1016 | The calibration reply is 53 bytes: tag, marker id, 9 rotation and 3 translation floats |
| Messages.CalibrationConfirmationRoundTrip | LiveScanServer/KinectSocket.cs:170-195 | The server reads back the marker id, the rotation and the translation the client sent |
| Messages.TimestampList | src/LiveScanClient/liveScanClient.cpp:1048-1082 | The list is 1 + 4 + 8 per timestamp + 4 + 4 per frame number bytes |
| Messages.TimestampListParts | src/LiveScanClient/liveScanClient.cpp:1055-1078 | Tag, count, the 8-byte timestamps, count, the 4-byte frame numbers, each at its offset |
| Messages.TimestampListFields | src/LiveScanClient/liveScanClient.cpp:1055-1078 | Each field of the list reads back from its offset |
| Messages.ParseTimestampListOf | src/LiveScanClient/liveScanClient.cpp:1055-1078 | The reader returns the lists that its counts select |
| Messages.TimestampListRoundTrip | src/LiveScanClient/liveScanClient.cpp:1048-1082 | The list reads back as the timestamps and the frame numbers sent, in order |
| Messages.SettingsMessage | LiveScanServer/KinectSocket.cs:85-96 | A settings message is 5 bytes longer than its data |
| Messages.SettingsMessageFields | LiveScanServer/KinectSocket.cs:85-96 | After the tag comes the data's length, and the data follows it |
| Messages.CalibrationMessage | LiveScanServer/KinectSocket.cs:135-151 | The calibration message is the tag and 12 floats |
| Messages.CalibrationMessageRoundTrip | src/LiveScanClient/liveScanClient.cpp:891-912 | The client reads back the pose the server sent, wherever in the stream the message starts |
| Messages.ConfigurationMessage | LiveScanServer/KinectSocket.cs:121-133 | The configuration message is the tag followed by the configuration's bytes |
| Messages.ParseMarkers | src/LiveScanClient/liveScanClient.cpp:790-812 | The marker loop reads one pose per marker |
| Messages.SettingsBytes | src/LiveScanClient/liveScanClient.cpp:762-852 | The settings the client reads end where its cursor stops |
| Messages.ParseMarkerOf | src/LiveScanClient/liveScanClient.cpp:795-810 | A marker laid out at an offset reads back as itself |
| Messages.ParseMarkersOf | src/LiveScanClient/liveScanClient.cpp:790-812 | The markers laid out back to back read back as themselves |
| Messages.SettingsHeadOf | src/LiveScanClient/liveScanClient.cpp:764-789 | The fields before the markers read back from their offsets |
| Messages.SettingsTailOf | src/LiveScanClient/liveScanClient.cpp:814-851 | The fields after the markers read back from their offsets |
| Messages.SettingsParts | src/LiveScanClient/liveScanClient.cpp:762-852 | The three parts of the settings lie at their offsets |
| Messages.ParseSettingsOfParts | src/LiveScanClient/liveScanClient.cpp:762-852 | The reader assembles what its three part readers find |
| Messages.SettingsHeadRoundTrip | src/LiveScanClient/liveScanClient.cpp:764-789 | The head of laid-out settings reads back as the settings' head |
| Messages.SettingsMarkersRoundTrip | src/LiveScanClient/liveScanClient.cpp:790-812 | The markers of laid-out settings read back as themselves |
| Messages.SettingsTailRoundTrip | src/LiveScanClient/liveScanClient.cpp:814-851 | The tail of laid-out settings reads back as the settings' tail |
| Messages.SettingsRoundTrip | src/LiveScanClient/liveScanClient.cpp:762-852 | Settings in the layout the client reads parse back as themselves |
| ClientState.Upto | src/LiveScanClient/liveScanClient.cpp:330-336 | The frame numbers 0..n-1 are n numbers |
| ClientState.InitialConsistent | src/LiveScanClient/liveScanClient.cpp:68-123 | The constructed client is consistent: no frames counted, with bounds of six floats |
| ClientUpdate.RefreshedConfiguration | src/LiveScanClient/liveScanClient.cpp:261-266 | Refreshing the configuration keeps the recording and keeps the client consistent |
| ClientUpdate.ExposureApplied | src/LiveScanClient/liveScanClient.cpp:269-273 | Applying the exposure keeps the recording and keeps the client consistent |
| ClientUpdate.Restarted | src/LiveScanClient/liveScanClient.cpp:275-284 | A restart keeps the recording and keeps the client consistent |
| ClientUpdate.PreRecorded | src/LiveScanClient/liveScanClient.cpp:286-294 | Pre-recording keeps the post-sync list and keeps the client consistent |
| ClientUpdate.PostRecorded | src/LiveScanClient/liveScanClient.cpp:296-302 | Post-recording keeps the recording and keeps the client consistent |
| ClientUpdate.SyncedRecordsSlots | src/LiveScanClient/liveScanClient.cpp:1457-1475 | The synced file has one frame per id: the empty frame with timestamp 0 for -1, the recorded frame for an index of the recording, and what the reader yields for any other id |
| ClientUpdate.WriteSynced | src/LiveScanClient/liveScanClient.cpp:1457-1475 | The loop writes the synced frames and succeeds exactly when every write succeeded; it never stops early |
| ClientUpdate.RawSyncActionsSlots | src/LiveScanClient/liveScanClient.cpp:1490-1504 | One action per id: an empty frame pair for -1, else the rename of the recorded pair, under its synced id |
| ClientUpdate.RenameSynced | src/LiveScanClient/liveScanClient.cpp:1490-1504 | The loop performs those actions and succeeds exactly when every rename succeeded |
| ClientUpdate.PostSynced | src/LiveScanClient/liveScanClient.cpp:304-318 | The post-sync stage keeps the client consistent and keeps both post-sync lists; it needs only that the two lists have one entry each per capture |
| ClientUpdate.Counted | src/LiveScanClient/liveScanClient.cpp:366-369 | Counting a frame extends the frame numbers 0..n-1 by n |
| ClientUpdate.Captured | src/LiveScanClient/liveScanClient.cpp:320-402 | The capture keeps the client consistent |
| ClientUpdate.Prepared | src/LiveScanClient/liveScanClient.cpp:260-318 | The stages before the capture keep the client consistent and keep the post-sync lists |
| ClientUpdate.Updated | src/LiveScanClient/liveScanClient.cpp:252-410 | UpdateFrame keeps the client consistent (the counters stay 0..n-1 with one timestamp each) and keeps the post-sync lists, so it can run again on every loop iteration |
| ClientUpdate.CountedRecording | src/LiveScanClient/liveScanClient.cpp:362-377 | A counted frame appends its index, which is the number of frames before it, and its timestamp, side by side |
| ClientUpdate.RestartReplies | src/LiveScanClient/liveScanClient.cpp:275-284 | A restart sends one positive confirmation when Reinit succeeds and two negative ones when it fails, and clears its request |
| ClientUpdate.PreRecordResets | src/LiveScanClient/liveScanClient.cpp:286-294 | Pre-recording resets the index to 0, clears both lists and leaves its confirmation due |
| ClientUpdate.PointcloudPostSync | src/LiveScanClient/liveScanClient.cpp:304-318 | In BGRA32 mode, the recording becomes one frame per id (empty for -1, the recorded frame for a recorded index, the reader's result for any other id), read from its start, and the confirmation says whether every write succeeded |
| ClientUpdate.RawPostSync | src/LiveScanClient/liveScanClient.cpp:304-318 | In MJPG mode, one frame pair is written or renamed per id, and the confirmation says whether every rename succeeded |
| ClientUpdate.CaptureCounts | src/LiveScanClient/liveScanClient.cpp:320-379 | A requested frame is counted with its timestamp, a single-frame request is answered, and in point-cloud mode the stored frame joins the recording |
| ClientUpdate.IdleFrame | src/LiveScanClient/liveScanClient.cpp:320-379 | A frame nobody requested is not counted; in point-cloud mode it still becomes the last frame |
| ClientProtocol.FrameMessage | src/LiveScanClient/liveScanClient.cpp:1232-1249 | A frame message, built from the as-written payload, has at least its 8-byte header |
| ClientProtocol.FrameMessageReadsBack | src/LiveScanClient/liveScanClient.cpp:1160-1250 | An uncompressed frame message announces its length and flag 0 and carries the as-written payload, which reads back on the server as the frame sent when no body has a joint |
| ClientProtocol.CompressedFrameMessage | src/LiveScanClient/liveScanClient.cpp:1232-1249 | A compressed frame message carries the compressor's output for the as-written payload and announces its size and the flag 1 |
| ClientProtocol.ConfigurationStep | src/LiveScanClient/liveScanClient.cpp:742-758 | SET_CONFIGURATION resumes right after its 42 bytes and keeps the recording |
| ClientProtocol.SettingsStep | src/LiveScanClient/liveScanClient.cpp:762-852 | RECEIVE_SETTINGS resumes right after the settings and keeps the recording |
| ClientProtocol.StoredFrameStep | src/LiveScanClient/liveScanClient.cpp:862-879 | REQUEST_STORED_FRAME sends the next recorded frame, or the size -1, and keeps the recording |
| ClientProtocol.LastFrameStep | src/LiveScanClient/liveScanClient.cpp:881-888 | REQUEST_LAST_FRAME sends the last stored frame and keeps the recording |
| ClientProtocol.CalibrationStep | src/LiveScanClient/liveScanClient.cpp:891-912 | RECEIVE_CALIBRATION resumes right after the pose and keeps the recording |
| ClientProtocol.CreateDirStep | src/LiveScanClient/liveScanClient.cpp:919-953 | CREATE_DIR advances the cursor and keeps the recording |
| ClientProtocol.PostsyncListStep | src/LiveScanClient/liveScanClient.cpp:961-981 | RECEIVE_POSTSYNC_LIST advances the cursor and keeps the recording |
| ClientProtocol.FlagStep | src/LiveScanClient/liveScanClient.cpp:696-725 | A request made by its tag alone keeps the recording |
| ClientProtocol.Step | src/LiveScanClient/liveScanClient.cpp:696-981 | Every step of the socket loop moves the cursor forward and keeps the recording |
| ClientProtocol.Run | src/LiveScanClient/liveScanClient.cpp:688-983 | The socket loop over the received bytes keeps the recording |
| ClientProtocol.FlushSendsReplies | src/LiveScanClient/liveScanClient.cpp:985-1082 | What the reply pass sends is the pending replies, in the order the code tests their flags |
| ClientProtocol.RepliesAfterRun | src/LiveScanClient/liveScanClient.cpp:985-1082 | After the loop the client is consistent, and its replies fit their int fields |
| ClientProtocol.FlushConsistent | src/LiveScanClient/liveScanClient.cpp:985-1082 | Sending the replies keeps the client consistent |
| ClientProtocol.ReadFloatsFrom | src/LiveScanClient/liveScanClient.cpp:764-775 | The cursor loop reads n floats one after another |
| ClientProtocol.ReadMarkerPose | src/LiveScanClient/liveScanClient.cpp:795-810 | One marker pose is read as the parser defines it |
| ClientProtocol.ReadSettingsHead | src/LiveScanClient/liveScanClient.cpp:764-789 | The fields before the markers are read as the parser defines them |
| ClientProtocol.ReadMarkerPoses | src/LiveScanClient/liveScanClient.cpp:790-812 | The marker loop reads n poses of 52 bytes each |
| ClientProtocol.ReadSettingsTail | src/LiveScanClient/liveScanClient.cpp:814-851 | The fields after the markers are read as the parser defines them |
| ClientProtocol.ReadSettings | src/LiveScanClient/liveScanClient.cpp:762-852 | The reader returns the settings the parser finds |
| ClientProtocol.ReadInt32sFrom | src/LiveScanClient/liveScanClient.cpp:965-980 | The memcpy of n ints reads them one after another |
| ClientProtocol.ReadableAfterLeading | src/LiveScanClient/liveScanClient.cpp:696-725 | The four leading tests leave the payload of the message still readable |
| ClientProtocol.PassDispatched | src/LiveScanClient/liveScanClient.cpp:696-981 | The leading tests followed by the else-if chain make up one pass of the loop |
| ClientProtocol.StepReadable | src/LiveScanClient/liveScanClient.cpp:696-981 | A step that does not fail had its payload in the received bytes |
| ClientProtocol.DispatchedIsStep | src/LiveScanClient/liveScanClient.cpp:696-981 | With distinct tags, the pass the client's tests make is the step that reads the byte as its message |
| ClientProtocol.AllTagsRead | src/LiveScanClient/liveScanClient.cpp:696-981 | With distinct tags, each of the 17 tags is read as its own message, so at most one test succeeds |
| ClientProtocol.CollectReplies | src/LiveScanClient/liveScanClient.cpp:985-1082 | The reply pass collects exactly the pending replies |
| ClientProtocol.LiveScanClient.constructor | src/LiveScanClient/liveScanClient.cpp:68-123 | The client starts with the initialiser list's defaults: bounds of plus or minus 0.5, compression level 2, no request and no reply due, except that the three flags the list leaves unset (m_bUpdateSettings and the two recording confirmations) start with the values given |
| ClientProtocol.LiveScanClient.SendFrame | src/LiveScanClient/liveScanClient.cpp:1160-1250 | The header and the (compressed) payload, built as written with every joint byte at the end, are appended to what was sent |
| ClientProtocol.LiveScanClient.SetConfiguration | src/LiveScanClient/liveScanClient.cpp:742-758 | The state and the cursor are those of ConfigurationStep |
| ClientProtocol.LiveScanClient.ReceiveSettings | src/LiveScanClient/liveScanClient.cpp:762-852 | The state and the cursor are those of SettingsStep |
| ClientProtocol.LiveScanClient.StoreSettings | src/LiveScanClient/liveScanClient.cpp:814-850 | Compression is on exactly when the level is above 0; export format 0 selects BGRA32, 1 selects MJPG, and any other value keeps the colour format |
| ClientProtocol.LiveScanClient.SendStoredFrame | src/LiveScanClient/liveScanClient.cpp:862-879 | The state is that of StoredFrameStep |
| ClientProtocol.LiveScanClient.SendLastFrame | src/LiveScanClient/liveScanClient.cpp:881-888 | The state is that of LastFrameStep |
| ClientProtocol.LiveScanClient.ReceiveCalibration | src/LiveScanClient/liveScanClient.cpp:891-912 | The state and the cursor are those of CalibrationStep |
| ClientProtocol.LiveScanClient.CreateDir | src/LiveScanClient/liveScanClient.cpp:919-953 | The state and the cursor are those of CreateDirStep |
| ClientProtocol.LiveScanClient.ReceivePostsyncList | src/LiveScanClient/liveScanClient.cpp:961-981 | The state and the cursor are those of PostsyncListStep |
| ClientProtocol.LiveScanClient.HandleMessage | src/LiveScanClient/liveScanClient.cpp:696-981 | One pass of the loop does what Dispatched describes for the byte at the cursor |
| ClientProtocol.LiveScanClient.LeadingTests | src/LiveScanClient/liveScanClient.cpp:696-725 | The four tests before the chain set the flags of their requests |
| ClientProtocol.LiveScanClient.ChainedTests | src/LiveScanClient/liveScanClient.cpp:728-981 | The else-if chain performs the step of the first tag that matches |
| ClientProtocol.LiveScanClient.ChainFromSettings | src/LiveScanClient/liveScanClient.cpp:762-981 | The chain from RECEIVE_SETTINGS on performs each message's step, and an unrecognised byte only moves the cursor |
| ClientProtocol.LiveScanClient.ChainFromLastFrame | src/LiveScanClient/liveScanClient.cpp:881-981 | The chain from REQUEST_LAST_FRAME on performs each message's step |
| ClientProtocol.LiveScanClient.ChainFromCreateDir | src/LiveScanClient/liveScanClient.cpp:919-981 | The chain from CREATE_DIR on performs each message's step |
| ClientProtocol.LiveScanClient.SendReplies | src/LiveScanClient/liveScanClient.cpp:985-1082 | Every pending reply is sent and its flag cleared, in order |
| ClientProtocol.LiveScanClient.HandleSocket | src/LiveScanClient/liveScanClient.cpp:679-1083 | A disconnected client changes nothing; otherwise the loop runs over the received bytes, then the replies go out |
| ClientProtocol.LiveScanClient.UpdateFrame | src/LiveScanClient/liveScanClient.cpp:252-410 | The new state is Updated of the old one, which keeps the client consistent; it needs only the consistency it re-establishes |
| ClientProtocol.LiveScanClient.RefreshConfiguration | src/LiveScanClient/liveScanClient.cpp:261-266 | The hardware sync state is read from the device and the configuration is due to be sent |
| ClientProtocol.LiveScanClient.ApplyExposure | src/LiveScanClient/liveScanClient.cpp:269-273 | The exposure goes to the device and the request is cleared |
| ClientProtocol.LiveScanClient.RestartCamera | src/LiveScanClient/liveScanClient.cpp:275-284 | Reinit, then the confirmation of its outcome |
| ClientProtocol.LiveScanClient.Reinit | src/LiveScanClient/liveScanClient.cpp:1088-1123 | Closes and initialises the device; a failure is confirmed at once |
| ClientProtocol.LiveScanClient.StartPreRecording | src/LiveScanClient/liveScanClient.cpp:286-294 | The state is that of PreRecorded |
| ClientProtocol.LiveScanClient.FinishRecording | src/LiveScanClient/liveScanClient.cpp:296-302 | The timestamp log is written and the confirmation is due |
| ClientProtocol.LiveScanClient.PostSync | src/LiveScanClient/liveScanClient.cpp:304-318 | The state is that of PostSynced |
| ClientProtocol.LiveScanClient.PostSyncPointclouds | src/LiveScanClient/liveScanClient.cpp:1440-1484 | The synced frames, one per id whatever the id, replace the recording, read from the start; the result says whether every write succeeded |
| ClientProtocol.LiveScanClient.PostSyncRawFrames | src/LiveScanClient/liveScanClient.cpp:1486-1507 | The synced actions are logged; the result says whether every rename succeeded |
| ClientProtocol.LiveScanClient.CaptureRawFrame | src/LiveScanClient/liveScanClient.cpp:328-343 | A requested raw frame is counted and its files are written under its index |
| ClientProtocol.LiveScanClient.AnswerSingleFrame | src/LiveScanClient/liveScanClient.cpp:338-342 | The single-frame flag goes down and the confirmation is due |
| ClientProtocol.LiveScanClient.CapturePointcloudFrame | src/LiveScanClient/liveScanClient.cpp:354-379 | The stored frame becomes the last frame, and a requested one is counted and recorded |
| ClientProtocol.LiveScanClient.CalibrateClient | src/LiveScanClient/liveScanClient.cpp:381-401 | A successful calibration becomes the world pose, is saved and is confirmed |
| KinectSocket.RestartReplyDecoded | LiveScanServer/KinectSocket.cs:201-213 | The server reads an error from the client's restart reply exactly when the restart failed |
| KinectSocket.ReadPoints | LiveScanServer/KinectSocket.cs:279-296 | The vertex loop collects what PointsAt describes: 3n colour bytes and 3n coordinates |
| KinectSocket.ReadBody | LiveScanServer/KinectSocket.cs:303-335 | One body and the position after it, as BodyAt describes them |
| KinectSocket.ReadBodies | LiveScanServer/KinectSocket.cs:299-337 | The body loop reads nBodies bodies, or none when the count is negative |
| KinectSocket.ReadFrame | LiveScanServer/KinectSocket.cs:276-337 | The whole parse returns the frame that ParseFrame gives |
| KinectSocket.SentFrameUnpacks | LiveScanServer/KinectSocket.cs:229-337 | A frame the client sends, compressed or not, is unpacked by the server to the as-written payload, which parses as the frame sent when no body has a joint |
| KinectSocket.TakeFrame | LiveScanServer/KinectSocket.cs:223-338 | A length of -1 ends the stored frames; a non-positive length leaves the lists empty; otherwise the payload is decompressed exactly when the flag is 1 and then parsed |
| KinectSocket.KinectSocket.constructor | LiveScanServer/KinectSocket.cs:20-67 | A new socket has no stored frames left and no configuration |
| KinectSocket.KinectSocket.CaptureFrame | LiveScanServer/KinectSocket.cs:69-74 | The capture tag is sent and frameCaptured is reset |
| KinectSocket.KinectSocket.Calibrate | LiveScanServer/KinectSocket.cs:75-83 | The calibrate tag is sent and calibrated is reset |
| KinectSocket.KinectSocket.SendSettings | LiveScanServer/KinectSocket.cs:85-96 | When connected, the tag, the 4-byte length of the settings bytes, then those bytes are sent |
| KinectSocket.KinectSocket.RequestStoredFrame | LiveScanServer/KinectSocket.cs:98-104 | The tag is sent; storedFrameReceived and noMoreStoredFrames are reset |
| KinectSocket.KinectSocket.RequestConfiguration | LiveScanServer/KinectSocket.cs:106-111 | The tag is sent and configurationReceived is reset |
| KinectSocket.KinectSocket.RequestLastFrame | LiveScanServer/KinectSocket.cs:113-118 | The tag is sent and latestFrameReceived is reset |
| KinectSocket.KinectSocket.SendConfiguration | LiveScanServer/KinectSocket.cs:121-133 | The configuration becomes the socket's own, and when connected its tag and bytes are sent |
| KinectSocket.KinectSocket.SendCalibrationData | LiveScanServer/KinectSocket.cs:135-151 | When connected, the tag, the world rotation and the world translation are sent |
| KinectSocket.KinectSocket.ClearStoredFrames | LiveScanServer/KinectSocket.cs:153-157 | The tag is sent and nothing else changes |
| KinectSocket.KinectSocket.ReinitializeAndConfirm | LiveScanServer/KinectSocket.cs:162-168 | The tag is sent and both restart flags are reset |
| KinectSocket.KinectSocket.ReceiveCalibrationData | LiveScanServer/KinectSocket.cs:170-195 | The world pose is read from the reply and calibrated is set |
| KinectSocket.KinectSocket.RecieveRestartConfirmation | LiveScanServer/KinectSocket.cs:201-213 | reinitialized is set, and the error flag holds exactly when the reply byte is not 0 |
| KinectSocket.KinectSocket.RecieveConfiguration | LiveScanServer/KinectSocket.cs:215-221 | A fresh configuration holds the four bytes the byte constructor reads, and configurationReceived is set |
| KinectSocket.KinectSocket.ReceiveFrame | LiveScanServer/KinectSocket.cs:223-338 | The frame becomes the one TakeFrame reads, and a length of -1 sets noMoreStoredFrames |
| ClientSettings.MarkerRecord | LiveScanServer/ClientSettings.cs:98-103 | A marker record is 68 bytes |
| ClientSettings.Head | LiveScanServer/ClientSettings.cs:86-94 | The bounds and the marker count take 28 bytes |
| ClientSettings.Tail | LiveScanServer/ClientSettings.cs:106-133 | The fields after the markers take 23 bytes |
| ClientSettings.ByteListLength | LiveScanServer/ClientSettings.cs:82-135 | The list is 51 bytes plus 68 per marker |
| ClientSettings.HeadFields | LiveScanServer/ClientSettings.cs:86-94 | The three min floats, then the three max floats, 24 bytes in all, then the marker count |
| ClientSettings.TailFields | LiveScanServer/ClientSettings.cs:106-133 | Each field after the markers lands at its offset, with the two booleans as one byte 1 or 0 |
| ClientSettings.MarkersPrefix | LiveScanServer/ClientSettings.cs:96-104 | The first markers' records are a prefix of any longer run of them |
| ClientSettings.MarkerFields | LiveScanServer/ClientSettings.cs:96-104 | Marker i's 64-byte matrix lies at 28 + 68i, and its id follows it |
| ClientSettings.DefaultMarkers | LiveScanServer/ClientSettings.cs:72-78 | The default list has six markers |
| ClientSettings.DefaultMarkersIdempotent | LiveScanServer/ClientSettings.cs:68-80 | Adding the default markers is idempotent; from an empty list it gives ids 0..5 in order, and it leaves a non-empty list alone |
| ClientSettings.Increment32 | LiveScanServer/ClientSettings.cs:172 | takeIndex++ stays a 32-bit int and adds 1 below the largest int |
| ClientSettings.NextTake | LiveScanServer/ClientSettings.cs:168-179 | A known name gets its number plus one, an unknown one gets the first number, and the number is stored under the name |
| ClientSettings.GetNewTakeIndexAsWritten | LiveScanServer/ClientSettings.cs:145-193 | As written: -1 when the file cannot be read or written, otherwise NextTake starting from 0 |
| ClientSettings.NewTakeAsWritten | LiveScanServer/ClientSettings.cs:168-179 | As written, a new name gets 0, not the 1 the initialiser suggests |
| ClientSettings.GetNewTakeIndex | LiveScanServer/ClientSettings.cs:145-193 | -1 and nothing saved on a read or write error; otherwise 1 for a new name, the stored number plus one for a known one, and the number stored back |
| ClientSettings.ClientSettings.constructor | LiveScanServer/ClientSettings.cs:26-66 | The defaults: bounds -3..3 on every axis, compression 2, no markers, auto exposure on, step -5, Open3D extrinsics, preview on |
| ClientSettings.ClientSettings.AddDefaultMarkers | LiveScanServer/ClientSettings.cs:68-80 | The marker list becomes WithDefaultMarkers of the old one; every other field, sent or not, is unchanged |
| ClientSettings.ClientSettings.ToByteList | LiveScanServer/ClientSettings.cs:82-136 | The appends build the byte list of the fields |
| KinectConfiguration.ToByte | LiveScanServer/KinectConfiguration.cs:58-67 | A cast to byte keeps the value modulo 256, and a value that fits is kept |
| KinectConfiguration.Layout | LiveScanServer/KinectConfiguration.cs:52-69 | The laid-out configuration has the requested length |
| KinectConfiguration.KinectConfiguration.constructor | LiveScanServer/KinectConfiguration.cs:26-33 | The defaults: NFOV 640 unbinned, stand-alone, unknown hardware state, offset 0 |
| KinectConfiguration.KinectConfiguration.FromBytes | LiveScanServer/KinectConfiguration.cs:44-50 | Bytes 0..3 become the depth mode, both sync states and the sync offset |
| KinectConfiguration.KinectConfiguration.ToBytes | LiveScanServer/KinectConfiguration.cs:52-69 | Bytes 0..2 are the depth mode and the sync states, 3..15 the serial number, 16 the filter flag, 17 the filter size, the rest zero |
| KinectConfiguration.HeadRoundTrip | LiveScanServer/KinectConfiguration.cs:44-69 | Depth mode and sync states survive ToBytes and the byte constructor; the sync offset survives exactly when it equals the serial number's first character |
| KinectConfigurationForm.ColorMappingInverse | LiveScanServer/KinectConfigurationForm.cs:53-59 | Colour rows 0..5 and colour resolutions 1..6 correspond one to one in both directions; rows 3 and 4 trade places |
| KinectConfigurationForm.DepthMappingInverse | LiveScanServer/KinectConfigurationForm.cs:141-144 | Depth rows 0..3 and depth resolutions 1..4 correspond one to one in both directions |
| KinectConfigurationForm.OddFilterSize | LiveScanServer/KinectConfigurationForm.cs:164-175 | The stored size is odd: an even size is lowered by one and an odd one is kept |
| KinectConfigurationForm.OddFilterSizeIdempotent | LiveScanServer/KinectConfigurationForm.cs:164-175 | Applying the rule twice changes nothing more |
| KinectConfigurationForm.KinectConfigurationForm.constructor | LiveScanServer/KinectConfigurationForm.cs:19-24 | The dialog starts with no configuration (displayedConfiguration is null) and nothing selected in either list |
| KinectConfigurationForm.KinectConfigurationForm.Initialize | LiveScanServer/KinectConfigurationForm.cs:26-32 | The title says the configuration is loading, and nothing else of the dialog changes |
| KinectConfigurationForm.KinectConfigurationForm.UpdateFormItems | LiveScanServer/KinectConfigurationForm.cs:35-62 | The configuration is shown and titled with its serial number; the rows map back to its resolutions; when the size control's value changes, its handler re-fires and the shown size becomes odd, otherwise it stays as received |
| KinectConfigurationForm.KinectConfigurationForm.DepthResSelected | LiveScanServer/KinectConfigurationForm.cs:141-144 | The list keeps the row and the shown depth resolution becomes one above it; nothing else changes; with no configuration yet the handler fails |
| KinectConfigurationForm.KinectConfigurationForm.ColorResSelected | LiveScanServer/KinectConfigurationForm.cs:146-157 | The list keeps the row, and the shown colour resolution becomes the one that maps back to the row; nothing else changes; with no configuration yet the handler fails |
| KinectConfigurationForm.KinectConfigurationForm.FilterDepthMapChanged | LiveScanServer/KinectConfigurationForm.cs:159-162 | The check box and the shown filter flag take the new value; nothing else changes; with no configuration yet the handler fails |
| KinectConfigurationForm.KinectConfigurationForm.DepthFilterSizeChanged | LiveScanServer/KinectConfigurationForm.cs:164-175 | The control holds the odd size in every case, and the shown size too when there is a configuration; nothing else changes |
| KinectConfigurationForm.Apply | LiveScanServer/KinectConfigurationForm.cs:96-108 | A confirmed configuration restarts, with the temporal sync pattern exactly when it is enabled |
| KinectConfigurationForm.ApplyAll | LiveScanServer/KinectConfigurationForm.cs:110-139 | Every socket's configuration gets the four shown fields and keeps its own serial number, sync states and offset; the clients restart exactly when every confirmation succeeded |
| KinectConfigurationForm.CopyShownIsApplied | LiveScanServer/KinectConfigurationForm.cs:121-126 | Having the shown fields and the sensor's own fields is exactly being the copy of the shown fields into the sensor's configuration |

## Left out

- Window, dialog and drawing code is left out, because it has no logic to verify. This covers the client's Win32 and Direct2D code, `ShowColor`, `ShowDepth`, `ShowFPS` and the status messages, the server's WinForms (MainWindowForm.cs, SettingsForm.cs), and the marker outlines that `GetMarker` draws.
- The socket thread, its mutex and the transport calls are left out; the model is sequential. Bytes received are a `seq<byte>` parameter, and bytes sent are appended to an outbox or `sent` log.
- `SocketConnected()` on the server is a parameter.
- The server's receive loop that waits on `Available` is not modelled. `ReceiveFrame` takes the header and the whole payload as parameters.
- zstd compression, turbojpeg, the k4a SDK, the OpenCV routines, `RotatePoint`, `filter()` (the outlier filter) and `Calibration::Calibrate` are parameters. Their own behaviour is not part of this model.
- `GetIntersection` and `Pointcloud3fTransformToWorld` are float geometry and are left out.
- The server's division of the coordinates from millimetres to metres is left out; the parsed frame holds the int16 values.
- The server's camera-pose computation after a calibration (the inverse of the world transform) is left out, because it is float matrix code.
- The initial world transform of `KinectSocket` is a constructor parameter, because its type is not part of this model.
- The recording files of FrameFileWriterReader are a sequence of records with a read position. Whether each write or rename succeeds is a parameter.
- The tag byte values are a parameter, because the header that defines them is not part of this model. The dispatch proofs assume the values are pairwise distinct.
- The client's parsers and the server's `ReceiveFrame` read without length checks. The model requires the bytes to be present (`Readable`, `FrameArrives`), and malformed payloads are outside it.
- KinectConfiguration.cs does not compile: `bytelength` is undeclared, and the default constructor's lines 34-39 read an undeclared `bytes`. `ToBytes` takes the buffer length as a parameter of at least 18, and those lines of the default constructor are left out.
- `KinectConfiguration.KinectConfiguration.ToBytes`: requires a serial number of at least 13 characters (C# would throw otherwise).
- KinectConfigurationForm.cs does not compile either; its handlers are modelled as written, with `SetAndConfirmConfig`'s outcomes as a parameter. The socket configurations are a sequence of values, so aliasing between them is not captured.
- The dialog's `displayedConfiguration` is the received configuration object itself. The model holds it as a value, so the handlers' writes are not seen through the socket's own reference.
- The dialog's handlers throw a NullReferenceException when no configuration has arrived yet. The model returns `false` in that case, after the control writes that precede the throw.
- `UpdateFormItems`: the event wiring, the lists' item counts and the size control's Minimum and Maximum live in the designer file, which is not part of this model. The model assumes the handlers are wired, and it does not model the exceptions WinForms raises for a row outside a list or a size outside the control's range.
- The dialog's server and socket references (set by `Initialize`) and the window's drawing are left out.
- `ClientSettings.ToByteList` and the client's settings reader use different layouts, so no round trip between them is claimed. `Messages.SettingsRoundTrip` is about the reader's own layout.
- `KinectSocket.RecieveConfiguration` reads 4 of the 42 bytes the client sends, so no round trip of the whole configuration is claimed.
- `ClientUpdate.Captured`: the frame number `m_nFrameIndex` is an unbounded integer; its 32-bit overflow after 2^31 frames is not modelled.
- `ClientProtocol.LiveScanClient.UpdateFrame`: StoreFrame's result reaches it as a device input (`Device.stored`). The compaction itself is `ClientFrame.CompactFrame`, and the outlier filter and the short conversion that follow it are not modelled.
- `ClientFrame.CompactFrame`: stated for input vertices that are all valid, and for a RotatePoint that keeps points valid. A default-constructed point (body-only streaming) is a parameter, because its constructor is not part of this model.
- `ImageToPointcloud.ImageSet.PointCloudImageToPoint3f`: the per-pixel semantics only. The source frees the array before its size check and never returns a value; the model returns whether a point-cloud image was present.
- `ErodeDepthImageFilter`, `ChangeCalibrationFromBuffer`, `JPEG2BGRA32`, `MapDepthToColor` and `GeneratePointcloud` call only SDK and OpenCV code. They appear only as stages of `CreatePointcloudFromImages`, each with a success parameter.
- `ClientProtocol.LiveScanClient.CalibrateClient`: a failed calibration leaves the calibration unchanged (calibration.cpp is not part of this model).
- `PostSyncPointclouds` and `PointcloudPostSync`: the synced recording is modelled as if every write landed, so record k is the synced frame even when `writeOk(k)` is false. The source only lowers `success` after a failed `writeNextBinaryFrame`. What the file then holds is decided in FrameFileWriterReader, which is not part of this model. The reported success is modelled exactly.
- `PostSyncPointclouds` and `PointcloudPostSync`: an id from the server that is neither -1 nor an index of the recording is sought to unchecked. What the reader then yields is a device input (`Device.unrecorded`), because FrameFileWriterReader is not part of this model.
- `FlagStep`: after CLEAR_STORED_FRAMES closes the recording file, the model keeps serving records from the read position. What `readNextBinaryFrame` does on a closed file lies in FrameFileWriterReader, which is not part of this model.
- The CREATE_DIR handler does not move the cursor past the path, and the post-sync list handler lacks the final `i--`. Both are modelled as written.
- The client's constructor: the calibration and configuration objects' own constructors are not part of this model and are parameters.
- `ClientState.Initial`: m_bUpdateSettings, m_bConfirmPreRecordingProcess and m_bConfirmPostRecordingProcess are not in the constructor's initialiser list, so their first values are parameters. `m_bRestartCamera` is used at liveScanClient.cpp:275 and 738 but not declared in the header; the model gives it the request field `restartCamera`, starting false.
- `KinectConfiguration.KinectConfiguration.FromBytes`: the byte constructor leaves `SerialNumber` null. The model has no null string and uses the empty serial number instead.
- `ClientProtocol.FrameMessage`, `ClientProtocol.LiveScanClient.SendFrame` and `KinectSocket.SentFrameUnpacks` send the payload as written. The server reads it back as the frame sent only when no body has a joint. With joints it is misread, as `FrameWire.AsWrittenJointMisread` shows, and no property of the server's parse of that payload is claimed.

## Findings

| source | as written | input that shows it | evidently intended | confidence | as-written member | corrected member |
|---|---|---|---|---|---|---|
| src/LiveScanClient/liveScanClient.cpp:1209-1229 | The joint loop's body is commented out, so `pos` does not move past a body's joints. The next body's header lands where the joint bytes were reserved, and the reserved bytes all sit at the end. | No vertices; bodies (tracked, 1 joint) and (tracked, 0 joints). The server reads the first body's joint from the second body's header, giving a joint of type 1. | Advance `pos` by 28 bytes per joint, so that the payload has the layout `ReceiveFrame` reads | not executed | FrameWire.WriteFrameAsWritten, FrameWire.AsWrittenJointMisread | FrameWire.WriteFrame, FrameWire.FrameRoundTrip |
| LiveScanServer/ClientSettings.cs:168-179 | `TryGetValue` sets its out argument to 0 when the name is missing, so the initial value 1 is lost and a new take is numbered 0 | A take name not yet in temp/takes.json | A new take name gets 1, as the initialiser at line 168 suggests | not executed | ClientSettings.GetNewTakeIndexAsWritten, ClientSettings.NewTakeAsWritten | ClientSettings.GetNewTakeIndex |
