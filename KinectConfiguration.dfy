/**
 * The server's per-sensor configuration (KinectConfiguration.cs): the depth
 * mode, the software and hardware sync states, the sync offset, the serial
 * number and the depth-filter settings, with the byte layout it is sent in
 * and the constructor that reads one back.
 */
module KinectConfiguration {
  import opened Bytes

  // SyncState
  const Main: int := 0
  const Subordinate: int := 1
  const Standalone: int := 2
  const Unknown: int := 3

  // depthMode
  const NFOV320Binned: int := 1
  const NFOV640Unbinned: int := 2
  const WFOV512Binned: int := 3
  const WFOV1024Unbinned: int := 4

  /** Bytes ToBytes fills; the rest of the buffer stays zero. */
  const FilledBytes: nat := 18
  /** Characters of the serial number that go on the wire. */
  const SerialLength: nat := 13

  /** An unchecked C# cast to byte: the low eight bits. */
  function ToByte(v: int): (b: byte)
    ensures (v - b) % 256 == 0
    ensures 0 <= v < 256 ==> b == v
  {
    v % 256
  }

  /** What the byte constructor reads: depth mode, both sync states and the sync offset. */
  datatype ConfigHead = ConfigHead(depthMode: int, softwareSyncState: int, hardwareSyncState: int, syncOffset: byte)

  function HeadOf(bytes: seq<byte>): ConfigHead
    requires |bytes| >= 4
  {
    ConfigHead(bytes[0], bytes[1], bytes[2], bytes[3])
  }

  /**
   * The buffer ToBytes fills, as a value: depth mode, the two sync states,
   * the 13 serial characters from byte 3 on, the filter flag and size, then
   * zeros.
   */
  function Layout(depthMode: int, softwareSyncState: int, hardwareSyncState: int, serialNumber: string,
                  filterDepthMap: bool, filterDepthMapSize: int, length: nat): (r: seq<byte>)
    requires length >= FilledBytes && |serialNumber| >= SerialLength
    ensures |r| == length
  {
    [ToByte(depthMode), ToByte(softwareSyncState), ToByte(hardwareSyncState)] +
    seq(SerialLength, k requires 0 <= k < SerialLength => ToByte(serialNumber[k] as int)) +
    [if filterDepthMap then 1 else 0, ToByte(filterDepthMapSize)] +
    seq(length - FilledBytes, _ => 0)
  }

  class KinectConfiguration {
    var filterDepthMap: bool
    var filterDepthMapSize: int
    var serialNumber: string
    var softwareSyncState: int
    var hardwareSyncState: int
    var syncOffset: byte
    var depthMode: int

    /** The defaults: NFOV 640 unbinned, stand-alone, unknown hardware state, offset 0, no serial. */
    constructor ()
      ensures depthMode == NFOV640Unbinned && softwareSyncState == Standalone && hardwareSyncState == Unknown
      ensures syncOffset == 0 && serialNumber == ""
      ensures !filterDepthMap && filterDepthMapSize == 0
    {
      depthMode := NFOV640Unbinned;
      softwareSyncState := Standalone;
      hardwareSyncState := Unknown;
      syncOffset := 0;
      serialNumber := "";
      filterDepthMap := false;
      filterDepthMapSize := 0;
    }

    /**
     * The byte constructor: the first four bytes become depth mode, software
     * and hardware sync state and sync offset; the other fields keep their
     * defaults (a null serial number is modelled as the empty one).
     */
    constructor FromBytes(bytes: seq<byte>)
      requires |bytes| >= 4
      ensures ConfigHead(depthMode, softwareSyncState, hardwareSyncState, syncOffset) == HeadOf(bytes)
      ensures serialNumber == "" && !filterDepthMap && filterDepthMapSize == 0
    {
      depthMode := bytes[0];
      softwareSyncState := bytes[1];
      hardwareSyncState := bytes[2];
      syncOffset := bytes[3];
      serialNumber := "";
      filterDepthMap := false;
      filterDepthMapSize := 0;
    }

    /**
     * ToBytes into a buffer of `length` bytes: depth mode, the two sync
     * states, then the sync offset at byte 3, which the first character of
     * the 13-character serial number overwrites; then the filter flag and the
     * filter size. Every value is cut to its low byte.
     */
    method ToBytes(length: nat) returns (data: array<byte>)
      requires length >= FilledBytes && |serialNumber| >= SerialLength
      ensures data.Length == length
      ensures data[0] == ToByte(depthMode) && data[1] == ToByte(softwareSyncState) && data[2] == ToByte(hardwareSyncState)
      ensures forall k :: 0 <= k < SerialLength ==> data[3 + k] == ToByte(serialNumber[k] as int)
      ensures data[16] == (if filterDepthMap then 1 else 0) && data[17] == ToByte(filterDepthMapSize)
      ensures forall k :: FilledBytes <= k < length ==> data[k] == 0
    {
      data := new byte[length](_ => 0);
      data[0] := ToByte(depthMode);
      data[1] := ToByte(softwareSyncState);
      data[2] := ToByte(hardwareSyncState);
      data[3] := syncOffset;
      for i := 0 to SerialLength
        invariant data[0] == ToByte(depthMode) && data[1] == ToByte(softwareSyncState) && data[2] == ToByte(hardwareSyncState)
        invariant forall k :: 0 <= k < i ==> data[3 + k] == ToByte(serialNumber[k] as int)
        invariant forall k :: 16 <= k < length ==> data[k] == 0
      {
        data[i + 3] := ToByte(serialNumber[i] as int);
      }
      data[16] := if filterDepthMap then 1 else 0;
      data[17] := ToByte(filterDepthMapSize);
    }
  }

  /**
   * Reading back what ToBytes wrote: depth mode and sync states come back
   * exactly when they fit a byte, but the sync offset read from byte 3 is the
   * serial number's first character, so the offset survives only when the two
   * agree.
   */
  lemma {:induction false} HeadRoundTrip(data: seq<byte>, depthMode: int, softwareSyncState: int, hardwareSyncState: int,
                                         syncOffset: byte, serialNumber: string)
    requires |data| >= FilledBytes && |serialNumber| >= SerialLength
    requires data[0] == ToByte(depthMode) && data[1] == ToByte(softwareSyncState) && data[2] == ToByte(hardwareSyncState)
    requires forall k :: 0 <= k < SerialLength ==> data[3 + k] == ToByte(serialNumber[k] as int)
    requires 0 <= depthMode < 256 && 0 <= softwareSyncState < 256 && 0 <= hardwareSyncState < 256
    ensures HeadOf(data).depthMode == depthMode
    ensures HeadOf(data).softwareSyncState == softwareSyncState && HeadOf(data).hardwareSyncState == hardwareSyncState
    ensures HeadOf(data).syncOffset == syncOffset <==> ToByte(serialNumber[0] as int) == syncOffset
  {
    assert data[3 + 0] == ToByte(serialNumber[0] as int);
  }
}
