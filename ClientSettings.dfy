/**
 * The server's client settings (ClientSettings.cs): their defaults, the
 * default marker list, the byte list sent to the clients and the take
 * numbering kept in a JSON file.
 */
module ClientSettings {
  import opened Bytes
  import opened Wrappers

  /** The bit patterns of the floats 3 and -3. */
  const PlusThree: Float32 := 0x4040_0000
  const MinusThree: Float32 := 0xC040_0000

  /** A marker pose as the server keeps it: a 4x4 float matrix and the marker id. */
  datatype MarkerPose = MarkerPose(mat: seq<Float32>, id: int)

  /** The fields ToByteList puts on the wire. */
  datatype Settings = Settings(
    minBounds: seq<Float32>, maxBounds: seq<Float32>, markerPoses: seq<MarkerPose>,
    compressionLevel: int, autoExposureEnabled: bool, exposureStep: int,
    autoWhiteBalanceEnabled: bool, kelvin: int, exportMode: int, extrinsicsFormat: int, previewEnabled: bool)

  /** C# ints are 32-bit, the bounds arrays hold 3 floats and each pose 16. */
  predicate WellFormed(s: Settings)
  {
    |s.minBounds| == 3 && |s.maxBounds| == 3 && IsInt32(|s.markerPoses|) &&
    (forall i :: 0 <= i < |s.markerPoses| ==> |s.markerPoses[i].mat| == 16 && IsInt32(s.markerPoses[i].id)) &&
    IsInt32(s.compressionLevel) && IsInt32(s.exposureStep) && IsInt32(s.kelvin) &&
    IsInt32(s.exportMode) && IsInt32(s.extrinsicsFormat)
  }

  /** Bytes per marker: 16 floats and the id. */
  const MarkerRecordSize: nat := 68

  function MarkerRecord(m: MarkerPose): (r: seq<byte>)
    requires |m.mat| == 16 && IsInt32(m.id)
    ensures |r| == MarkerRecordSize
  {
    EncodeFloats(m.mat) + EncodeInt32(m.id)
  }

  /** The records of the first n markers. */
  function MarkersUpTo(s: Settings, n: nat): (r: seq<byte>)
    requires WellFormed(s) && n <= |s.markerPoses|
    ensures |r| == MarkerRecordSize * n
  {
    if n == 0 then [] else MarkersUpTo(s, n - 1) + MarkerRecord(s.markerPoses[n - 1])
  }

  /** Bounds and marker count: the 28 bytes before the marker records. */
  function Head(s: Settings): (r: seq<byte>)
    requires WellFormed(s)
    ensures |r| == 28
  {
    EncodeFloats(s.minBounds) + EncodeFloats(s.maxBounds) + EncodeInt32(|s.markerPoses|)
  }

  /**
   * The bytes after the marker records: the compression level, the
   * auto-exposure flag, the exposure step, the auto-white-balance flag, the
   * colour temperature, export mode, extrinsics style and the preview flag.
   */
  function Tail(s: Settings): (r: seq<byte>)
    requires WellFormed(s)
    ensures |r| == 23
  {
    EncodeInt32(s.compressionLevel) + [BoolByte(s.autoExposureEnabled)] + EncodeInt32(s.exposureStep) +
    [BoolByte(s.autoWhiteBalanceEnabled)] + EncodeInt32(s.kelvin) + EncodeInt32(s.exportMode) +
    EncodeInt32(s.extrinsicsFormat) + [BoolByte(s.previewEnabled)]
  }

  /** The byte list: bounds and marker count, the marker records, then the other fields. */
  function ByteList(s: Settings): seq<byte>
    requires WellFormed(s)
  {
    Head(s) + MarkersUpTo(s, |s.markerPoses|) + Tail(s)
  }

  /** The list is 51 bytes plus 68 per marker. */
  lemma {:induction false} ByteListLength(s: Settings)
    requires WellFormed(s)
    ensures |ByteList(s)| == 51 + MarkerRecordSize * |s.markerPoses|
  {
  }

  /** Bounds first: the three min floats, then the three max floats, 24 bytes in all; then the marker count. */
  lemma {:induction false} HeadFields(s: Settings)
    requires WellFormed(s)
    ensures var r := ByteList(s);
      r[..12] == EncodeFloats(s.minBounds) && r[12..24] == EncodeFloats(s.maxBounds) && ReadInt32(r, 24) == |s.markerPoses|
  {
    var r, h := ByteList(s), Head(s);
    var a, b, c := EncodeFloats(s.minBounds), EncodeFloats(s.maxBounds), EncodeInt32(|s.markerPoses|);
    assert r[..28] == h;
    Slices3(a, b, c);
    ReadInt32At(r, 24, |s.markerPoses|);
  }

  /** Appending the fields one by one builds the body followed by the tail. */
  lemma {:induction false} AppendTail(body: seq<byte>, c: seq<byte>, ae: seq<byte>, ex: seq<byte>, awb: seq<byte>,
                                      k: seq<byte>, em: seq<byte>, xs: seq<byte>, pv: seq<byte>)
    ensures body + c + ae + ex + awb + k + em + xs + pv == body + (c + ae + ex + awb + k + em + xs + pv)
  {
  }

  /** Where each field after the markers lands, whatever comes before them. */
  lemma {:induction false} TailLayout(pre: seq<byte>, c: int, ae: byte, ex: int, awb: byte, k: int, em: int, xs: int, pv: byte)
    requires IsInt32(c) && IsInt32(ex) && IsInt32(k) && IsInt32(em) && IsInt32(xs)
    ensures var r, t := pre + (EncodeInt32(c) + [ae] + EncodeInt32(ex) + [awb] + EncodeInt32(k) + EncodeInt32(em) + EncodeInt32(xs) + [pv]), |pre|;
      |r| == t + 23 && ReadInt32(r, t) == c && r[t + 4] == ae && ReadInt32(r, t + 5) == ex && r[t + 9] == awb &&
      ReadInt32(r, t + 10) == k && ReadInt32(r, t + 14) == em && ReadInt32(r, t + 18) == xs && r[t + 22] == pv
  {
    var C, AE, EX, AWB, K, EM, XS, PV := EncodeInt32(c), [ae], EncodeInt32(ex), [awb], EncodeInt32(k), EncodeInt32(em), EncodeInt32(xs), [pv];
    var t := |pre|;
    assert pre + (C + AE + EX + AWB + K + EM + XS + PV) == pre + C + AE + EX + AWB + K + EM + XS + PV;
    ReadInt32Last(pre, c);
    ReadInt32Front(pre + C, AE + EX + AWB + K + EM + XS + PV, t);
    assert pre + C + AE + EX + AWB + K + EM + XS + PV == pre + C + (AE + EX + AWB + K + EM + XS + PV);
    ReadInt32Last(pre + C + AE, ex);
    ReadInt32Front(pre + C + AE + EX, AWB + K + EM + XS + PV, t + 5);
    assert pre + C + AE + EX + AWB + K + EM + XS + PV == pre + C + AE + EX + (AWB + K + EM + XS + PV);
    ReadInt32Last(pre + C + AE + EX + AWB, k);
    ReadInt32Front(pre + C + AE + EX + AWB + K, EM + XS + PV, t + 10);
    assert pre + C + AE + EX + AWB + K + EM + XS + PV == pre + C + AE + EX + AWB + K + (EM + XS + PV);
    ReadInt32Last(pre + C + AE + EX + AWB + K, em);
    ReadInt32Front(pre + C + AE + EX + AWB + K + EM, XS + PV, t + 14);
    assert pre + C + AE + EX + AWB + K + EM + XS + PV == pre + C + AE + EX + AWB + K + EM + (XS + PV);
    ReadInt32Last(pre + C + AE + EX + AWB + K + EM, xs);
    ReadInt32Front(pre + C + AE + EX + AWB + K + EM + XS, PV, t + 18);
  }

  /**
   * The fields after the markers, at t = 28 + 68m: the compression level,
   * the auto-exposure byte, the exposure step, the auto-white-balance byte,
   * the colour temperature, export mode, extrinsics style and the preview byte;
   * each flag is one byte, 1 or 0.
   */
  lemma {:induction false} TailFields(s: Settings)
    requires WellFormed(s)
    ensures var r, t := ByteList(s), 28 + MarkerRecordSize * |s.markerPoses|;
      |r| == t + 23 &&
      ReadInt32(r, t) == s.compressionLevel && r[t + 4] == BoolByte(s.autoExposureEnabled) &&
      ReadInt32(r, t + 5) == s.exposureStep && r[t + 9] == BoolByte(s.autoWhiteBalanceEnabled) &&
      ReadInt32(r, t + 10) == s.kelvin && ReadInt32(r, t + 14) == s.exportMode &&
      ReadInt32(r, t + 18) == s.extrinsicsFormat && r[t + 22] == BoolByte(s.previewEnabled)
  {
    TailLayout(Head(s) + MarkersUpTo(s, |s.markerPoses|), s.compressionLevel, BoolByte(s.autoExposureEnabled),
      s.exposureStep, BoolByte(s.autoWhiteBalanceEnabled), s.kelvin, s.exportMode, s.extrinsicsFormat,
      BoolByte(s.previewEnabled));
  }

  /** The first n marker records are a prefix of any longer run of them. */
  lemma {:induction false} MarkersPrefix(s: Settings, i: nat, n: nat)
    requires WellFormed(s) && i <= n <= |s.markerPoses|
    ensures MarkersUpTo(s, n)[..MarkerRecordSize * i] == MarkersUpTo(s, i)
    decreases n
  {
    if i < n {
      MarkersPrefix(s, i, n - 1);
      assert MarkersUpTo(s, n)[..MarkerRecordSize * i] == MarkersUpTo(s, n - 1)[..MarkerRecordSize * i];
    }
  }

  /** A record that ends a prefix of the marker bytes lands right after the earlier records, whatever surrounds them. */
  lemma {:induction false} RecordLayout(h: seq<byte>, m: seq<byte>, post: seq<byte>, q: seq<byte>, fl: seq<byte>, id: int)
    requires IsInt32(id) && |q| + |fl| + 4 <= |m| && m[..|q| + |fl| + 4] == q + fl + EncodeInt32(id)
    ensures var r, at := h + m + post, |h| + |q|;
      at + |fl| + 4 <= |r| && r[at..at + |fl|] == fl && ReadInt32(r, at + |fl|) == id
  {
    var r, at, n := h + m + post, |h| + |q|, |q| + |fl| + 4;
    assert forall j :: at <= j < at + |fl| + 4 ==> r[j] == m[..n][j - |h|];
    assert r[at..at + |fl|] == fl;
    ReadInt32At(r, at + |fl|, id);
  }

  /** Marker i's record: its 64-byte matrix at 28 + 68i, and its id read back right after it. */
  lemma {:induction false} MarkerFields(s: Settings, i: nat)
    requires WellFormed(s) && i < |s.markerPoses|
    ensures var r, at := ByteList(s), 28 + MarkerRecordSize * i;
      r[at..at + 64] == EncodeFloats(s.markerPoses[i].mat) && ReadInt32(r, at + 64) == s.markerPoses[i].id
  {
    var m := s.markerPoses[i];
    MarkersPrefix(s, i + 1, |s.markerPoses|);
    RecordLayout(Head(s), MarkersUpTo(s, |s.markerPoses|), Tail(s), MarkersUpTo(s, i), EncodeFloats(m.mat), m.id);
  }

  /** AddDefaultMarkers' list: six markers with ids 0..5 and the default pose. */
  function DefaultMarkers(defaultMat: seq<Float32>): (r: seq<MarkerPose>)
    ensures |r| == 6
  {
    seq(6, i => MarkerPose(defaultMat, i))
  }

  /** The marker list after AddDefaultMarkers: unchanged unless it was empty. */
  function WithDefaultMarkers(markers: seq<MarkerPose>, defaultMat: seq<Float32>): seq<MarkerPose>
  {
    if |markers| == 0 then DefaultMarkers(defaultMat) else markers
  }

  /** Adding the default markers is idempotent; from an empty list it gives ids 0..5 in order. */
  lemma {:induction false} DefaultMarkersIdempotent(markers: seq<MarkerPose>, defaultMat: seq<Float32>)
    ensures WithDefaultMarkers(WithDefaultMarkers(markers, defaultMat), defaultMat) == WithDefaultMarkers(markers, defaultMat)
    ensures |markers| == 0 ==> forall i :: 0 <= i < 6 ==> WithDefaultMarkers(markers, defaultMat)[i].id == i
    ensures |markers| > 0 ==> WithDefaultMarkers(markers, defaultMat) == markers
  {
  }

  /** The take-number file: absent, unreadable (a read or parse error, or null), or a dictionary. */
  datatype TakeFile = Missing | Unreadable | Parsed(dict: map<string, int>)

  /** `takeIndex++` on a C# int: wraps from the largest int to the smallest. */
  function Increment32(v: int): (r: int)
    requires IsInt32(v)
    ensures IsInt32(r)
    ensures v < 0x7FFF_FFFF ==> r == v + 1
  {
    if v == 0x7FFF_FFFF then -0x8000_0000 else v + 1
  }

  /**
   * The number given to a take and the dictionary stored back: a known
   * name gets its stored number plus one, a new one `first`.
   */
  function NextTake(dict: map<string, int>, takeName: string, first: int): (r: (int, map<string, int>))
    requires forall k :: k in dict ==> IsInt32(dict[k])
    ensures r.1 == dict[takeName := r.0]
    ensures takeName in dict ==> r.0 == Increment32(dict[takeName])
    ensures takeName !in dict ==> r.0 == first
  {
    if takeName in dict then
      var index := Increment32(dict[takeName]);
      (index, dict[takeName := index])
    else (first, dict[takeName := first])
  }

  predicate Int32Values(file: TakeFile)
  {
    file.Parsed? ==> forall k :: k in file.dict ==> IsInt32(file.dict[k])
  }

  /**
   * GetNewTakeIndex as written: TryGetValue resets its out argument to 0
   * when the name is missing, so a new take is numbered 0, not 1.
   */
  method GetNewTakeIndexAsWritten(takeName: string, file: TakeFile, writeOk: bool) returns (index: int, saved: Option<map<string, int>>)
    requires Int32Values(file)
    ensures file.Unreadable? ==> index == -1 && saved == None
    ensures !file.Unreadable? ==>
      var dict := if file.Parsed? then file.dict else map[];
      (writeOk ==> index == NextTake(dict, takeName, 0).0 && saved == Some(NextTake(dict, takeName, 0).1)) &&
      (!writeOk ==> index == -1 && saved == None)
  {
    var takeDict: map<string, int> := map[];
    match file {
      case Unreadable => return -1, None;
      case Parsed(d) => takeDict := d;
      case Missing =>
    }
    var takeIndex := 1;
    if takeName in takeDict {
      takeIndex := takeDict[takeName];
      takeIndex := Increment32(takeIndex);
      takeDict := takeDict[takeName := takeIndex];
    } else {
      takeIndex := 0;
      takeDict := takeDict[takeName := takeIndex];
    }
    if !writeOk {
      return -1, None;
    }
    return takeIndex, Some(takeDict);
  }

  /** A name not in the file gets number 0 from the code as written. */
  lemma {:induction false} NewTakeAsWritten(dict: map<string, int>, takeName: string)
    requires forall k :: k in dict ==> IsInt32(dict[k])
    requires takeName !in dict
    ensures NextTake(dict, takeName, 0).0 == 0 && NextTake(dict, takeName, 0).0 != NextTake(dict, takeName, 1).0
  {
  }

  /**
   * GetNewTakeIndex as intended: 1 for a new name, the stored number plus
   * one for a known one, and the number stored back; -1 and nothing saved
   * when the file cannot be read or written.
   */
  method GetNewTakeIndex(takeName: string, file: TakeFile, writeOk: bool) returns (index: int, saved: Option<map<string, int>>)
    requires Int32Values(file)
    ensures file.Unreadable? || !writeOk ==> index == -1 && saved == None
    ensures !file.Unreadable? && writeOk ==>
      var dict := if file.Parsed? then file.dict else map[];
      saved == Some(dict[takeName := index]) &&
      (takeName in dict ==> index == Increment32(dict[takeName])) &&
      (takeName !in dict ==> index == 1)
  {
    var takeDict: map<string, int> := map[];
    match file {
      case Unreadable => return -1, None;
      case Parsed(d) => takeDict := d;
      case Missing =>
    }
    var takeIndex := 1;
    if takeName in takeDict {
      takeIndex := Increment32(takeDict[takeName]);
    }
    takeDict := takeDict[takeName := takeIndex];
    if !writeOk {
      return -1, None;
    }
    return takeIndex, Some(takeDict);
  }

  class ClientSettings {
    var minBounds: seq<Float32>
    var maxBounds: seq<Float32>
    var markerPoses: seq<MarkerPose>
    var compressionLevel: int
    var numICPIterations: int
    var numRefineIters: int
    var mergeScansForSave: bool
    var saveAsBinaryPLY: bool
    var autoExposureEnabled: bool
    var exposureStep: int
    var autoWhiteBalanceEnabled: bool
    var kelvin: int
    var exportMode: int
    var extrinsicsFormat: int
    var syncMode: int
    var previewEnabled: bool

    function Wire(): Settings
      reads this
    {
      Settings(minBounds, maxBounds, markerPoses, compressionLevel, autoExposureEnabled, exposureStep,
               autoWhiteBalanceEnabled, kelvin, exportMode, extrinsicsFormat, previewEnabled)
    }

    /** The fields that stay on the server: they are not in the byte list. */
    function Unsent(): (int, int, bool, bool, int)
      reads this
    {
      (numICPIterations, numRefineIters, mergeScansForSave, saveAsBinaryPLY, syncMode)
    }

    /** The defaults: bounds -3..3 on every axis, compression 2, no markers, auto exposure on, Open3D extrinsics. */
    constructor ()
      ensures minBounds == [MinusThree, MinusThree, MinusThree] && maxBounds == [PlusThree, PlusThree, PlusThree]
      ensures markerPoses == [] && compressionLevel == 2 && numICPIterations == 10 && numRefineIters == 2
      ensures mergeScansForSave && saveAsBinaryPLY && autoExposureEnabled && exposureStep == -5
      ensures !autoWhiteBalanceEnabled && kelvin == 8 && exportMode == 0 && extrinsicsFormat == 1 && syncMode == 0
      ensures previewEnabled
      ensures WellFormed(Wire())
    {
      minBounds := [MinusThree, MinusThree, MinusThree];
      maxBounds := [PlusThree, PlusThree, PlusThree];
      markerPoses := [];
      compressionLevel := 2;
      numICPIterations := 10;
      numRefineIters := 2;
      mergeScansForSave := true;
      saveAsBinaryPLY := true;
      autoExposureEnabled := true;
      exposureStep := -5;
      autoWhiteBalanceEnabled := false;
      kelvin := 8;
      exportMode := 0;
      extrinsicsFormat := 1;
      syncMode := 0;
      previewEnabled := true;
    }

    /** Six markers with ids 0..5 when there are none; otherwise nothing changes. */
    method AddDefaultMarkers(defaultMat: seq<Float32>)
      modifies this
      ensures markerPoses == WithDefaultMarkers(old(markerPoses), defaultMat)
      ensures Wire() == old(Wire()).(markerPoses := markerPoses)
      ensures Unsent() == old(Unsent())
    {
      ghost var before := Wire();
      if |markerPoses| == 0 {
        for i := 0 to 6
          invariant markerPoses == DefaultMarkers(defaultMat)[..i]
          invariant Wire() == before.(markerPoses := markerPoses)
          invariant Unsent() == old(Unsent())
        {
          markerPoses := markerPoses + [MarkerPose(defaultMat, i)];
        }
        assert DefaultMarkers(defaultMat)[..6] == DefaultMarkers(defaultMat);
      }
    }

    /** ToByteList: the fields appended in order. */
    method ToByteList() returns (data: seq<byte>)
      requires WellFormed(Wire())
      ensures data == ByteList(Wire())
    {
      ghost var s := Wire();
      data := [];
      data := data + EncodeFloats(minBounds);
      data := data + EncodeFloats(maxBounds);
      data := data + EncodeInt32(|markerPoses|);
      assert data == Head(s);
      for i := 0 to |markerPoses|
        invariant data == Head(s) + MarkersUpTo(s, i)
      {
        data := data + EncodeFloats(markerPoses[i].mat);
        data := data + EncodeInt32(markerPoses[i].id);
      }
      ghost var body := data;
      data := data + EncodeInt32(compressionLevel);
      data := data + [BoolByte(autoExposureEnabled)];
      data := data + EncodeInt32(exposureStep);
      data := data + [BoolByte(autoWhiteBalanceEnabled)];
      data := data + EncodeInt32(kelvin);
      data := data + EncodeInt32(exportMode);
      data := data + EncodeInt32(extrinsicsFormat);
      data := data + [BoolByte(previewEnabled)];
      AppendTail(body, EncodeInt32(compressionLevel), [BoolByte(autoExposureEnabled)], EncodeInt32(exposureStep),
        [BoolByte(autoWhiteBalanceEnabled)], EncodeInt32(kelvin), EncodeInt32(exportMode), EncodeInt32(extrinsicsFormat),
        [BoolByte(previewEnabled)]);
    }
  }
}
