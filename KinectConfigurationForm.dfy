/**
 * The per-device configuration dialog of the server (KinectConfigurationForm.cs):
 * the mapping between list positions and resolution enums, the rule that keeps
 * the depth-filter size odd, the handlers of the dialog's controls, and
 * "apply to all" over the connected sensors.
 */
module KinectConfigurationForm {
  import opened Wrappers

  /**
   * A sensor's KinectConfiguration as the dialog reads and writes it: its own
   * serial number, sync states and sync offset, and the four fields the
   * dialog edits.
   */
  datatype Config = Config(serialNumber: string, depthRes: int, colorRes: int, softwareSyncState: int,
                           hardwareSyncState: int, syncOffset: int, filterDepthMap: bool, filterDepthMapSize: int)

  /** What the server does after the configurations were sent. */
  datatype Restart = NoRestart | RestartWithTemporalSyncPattern | RestartClient | RestartAllClients

  /** Colour list order puts the two 4:3 modes last: enum values 4 and 5 trade places. */
  function SwapFourFive(v: int): int
  {
    if v == 4 then 5 else if v == 5 then 4 else v
  }

  /** The depth list row of a depth resolution. */
  function DepthIndexOf(depthRes: int): int
  {
    depthRes - 1
  }

  /** The depth resolution of a depth list row. */
  function DepthResOf(index: int): int
  {
    index + 1
  }

  /** The colour list row of a colour resolution. */
  function ColorIndexOf(colorRes: int): int
  {
    SwapFourFive(colorRes) - 1
  }

  /** The colour resolution of a colour list row. */
  function ColorResOf(index: int): int
  {
    SwapFourFive(index + 1)
  }

  /** The colour rows 0..5 and the colour resolutions 1..6 correspond one to one, in both directions. */
  lemma {:induction false} ColorMappingInverse(colorRes: int, index: int)
    ensures ColorResOf(ColorIndexOf(colorRes)) == colorRes
    ensures ColorIndexOf(ColorResOf(index)) == index
    ensures 0 <= ColorIndexOf(colorRes) < 6 <==> 1 <= colorRes <= 6
    ensures ColorResOf(3) == 5 && ColorResOf(4) == 4
    ensures ColorResOf(index) == index + 1 <==> index != 3 && index != 4
  {
  }

  /** The rows of the depth list and the depth resolutions 1..4 correspond one to one. */
  lemma {:induction false} DepthMappingInverse(depthRes: int, index: int)
    ensures DepthResOf(DepthIndexOf(depthRes)) == depthRes && DepthIndexOf(DepthResOf(index)) == index
    ensures 0 <= DepthIndexOf(depthRes) < 4 <==> 1 <= depthRes <= 4
  {
  }

  /** An even filter size is lowered by one; an odd one is kept. */
  function OddFilterSize(size: int): (r: int)
    ensures r % 2 == 1
    ensures r == size || r == size - 1
    ensures size % 2 == 1 ==> r == size
  {
    if size % 2 == 0 then size - 1 else size
  }

  /** Applying the rule twice changes nothing more: the handler that re-fires on its own write stops there. */
  lemma {:induction false} OddFilterSizeIdempotent(size: int)
    ensures OddFilterSize(OddFilterSize(size)) == OddFilterSize(size)
  {
  }

  /** Apply-all copies these four fields of the shown configuration into a sensor's configuration. */
  function CopyShown(shown: Config, config: Config): Config
  {
    config.(depthRes := shown.depthRes, colorRes := shown.colorRes,
            filterDepthMap := shown.filterDepthMap, filterDepthMapSize := shown.filterDepthMapSize)
  }

  /** The fields that belong to the sensor itself and that apply-all must not overwrite. */
  predicate SameSensor(a: Config, b: Config)
  {
    a.serialNumber == b.serialNumber && a.softwareSyncState == b.softwareSyncState &&
    a.hardwareSyncState == b.hardwareSyncState && a.syncOffset == b.syncOffset
  }

  /** The four fields the dialog edits agree. */
  predicate SameShown(a: Config, b: Config)
  {
    a.depthRes == b.depthRes && a.colorRes == b.colorRes &&
    a.filterDepthMap == b.filterDepthMap && a.filterDepthMapSize == b.filterDepthMapSize
  }

  /** The window title, the configuration shown (null until one arrives) and the controls. */
  datatype FormState = FormState(title: string, shown: Option<Config>, depthResIndex: int, colorResIndex: int,
                                 filterChecked: bool, filterSizeValue: int)

  const LoadingTitle := "Loading Configuration..."
  const DeviceTitle := "Configuration for device: "

  class KinectConfigurationForm {
    var title: string
    /** displayedConfiguration: None while it is still null. */
    var shown: Option<Config>
    /** lbDepthRes.SelectedIndex and lbColorRes.SelectedIndex; -1 is no selection. */
    var depthResIndex: int
    var colorResIndex: int
    /** cbFilterDepthMap.Checked and nDepthFilterSize.Value. */
    var filterChecked: bool
    var filterSizeValue: int

    function State(): FormState
      reads this
    {
      FormState(title, shown, depthResIndex, colorResIndex, filterChecked, filterSizeValue)
    }

    /**
     * The constructor: no configuration yet and nothing selected in the two
     * lists; the check box and the size control start at the values the
     * designer file gives them, which are parameters here.
     */
    constructor (designerTitle: string, designerChecked: bool, designerSize: int)
      ensures State() == FormState(designerTitle, None, -1, -1, designerChecked, designerSize)
    {
      title := designerTitle;
      shown := None;
      depthResIndex, colorResIndex := -1, -1;
      filterChecked := designerChecked;
      filterSizeValue := designerSize;
    }

    /** Initialize: the window says the configuration is loading; nothing else of the dialog changes. */
    method Initialize()
      modifies this
      ensures State() == old(State()).(title := LoadingTitle)
    {
      title := LoadingTitle;
    }

    /**
     * UpdateFormItemsFromConfiguration. Setting the size control fires its
     * handler when the value changes, and that handler makes the shown size
     * odd; setting the check box and the two lists fires handlers that write
     * back the values just read, so they change nothing.
     */
    method UpdateFormItems(kc: Config)
      modifies this
      ensures title == DeviceTitle + kc.serialNumber
      ensures filterSizeValue ==
        (if old(filterSizeValue) == kc.filterDepthMapSize then kc.filterDepthMapSize
         else OddFilterSize(kc.filterDepthMapSize))
      ensures shown == Some(kc.(filterDepthMapSize := filterSizeValue))
      ensures filterChecked == kc.filterDepthMap
      ensures DepthResOf(depthResIndex) == kc.depthRes && ColorResOf(colorResIndex) == kc.colorRes
    {
      shown := Some(kc);
      title := DeviceTitle + kc.serialNumber;
      filterChecked := kc.filterDepthMap;
      if filterSizeValue != kc.filterDepthMapSize {
        var ok := DepthFilterSizeChanged(kc.filterDepthMapSize);
      }
      depthResIndex := kc.depthRes - 1;
      var colorRes := kc.colorRes;
      if colorRes == 4 {
        colorRes := 5;
      } else if colorRes == 5 {
        colorRes := 4;
      }
      colorResIndex := colorRes - 1;
      ColorMappingInverse(kc.colorRes, colorResIndex);
    }

    /** Selecting a depth row sets the depth resolution one above the row; without a configuration the handler fails. */
    method DepthResSelected(selectedIndex: int) returns (ok: bool)
      modifies this
      ensures ok == old(shown).Some?
      ensures State() == old(State()).(depthResIndex := selectedIndex,
        shown := if ok then Some(old(shown).value.(depthRes := DepthResOf(selectedIndex))) else None)
    {
      depthResIndex := selectedIndex;
      if shown.None? {
        return false;
      }
      shown := Some(shown.value.(depthRes := selectedIndex + 1));
      ok := true;
    }

    /** Selecting a colour row sets the colour resolution one above it, with 4 and 5 swapped. */
    method ColorResSelected(selectedIndex: int) returns (ok: bool)
      modifies this
      ensures ok == old(shown).Some?
      ensures State() == old(State()).(colorResIndex := selectedIndex,
        shown := if ok then Some(old(shown).value.(colorRes := ColorResOf(selectedIndex))) else None)
      ensures ok ==> ColorIndexOf(shown.value.colorRes) == selectedIndex
    {
      colorResIndex := selectedIndex;
      var selected := selectedIndex + 1;
      if selected == 4 {
        selected := 5;
      } else if selected == 5 {
        selected := 4;
      }
      ColorMappingInverse(selected, selectedIndex);
      if shown.None? {
        return false;
      }
      shown := Some(shown.value.(colorRes := selected));
      ok := true;
    }

    /** Ticking the check box sets the filter flag. */
    method FilterDepthMapChanged(checked: bool) returns (ok: bool)
      modifies this
      ensures ok == old(shown).Some?
      ensures State() == old(State()).(filterChecked := checked,
        shown := if ok then Some(old(shown).value.(filterDepthMap := checked)) else None)
    {
      filterChecked := checked;
      if shown.None? {
        return false;
      }
      shown := Some(shown.value.(filterDepthMap := checked));
      ok := true;
    }

    /**
     * A new filter size is made odd and written back to the control (which
     * fires the handler once more, to no further effect) and stored; the
     * control is written before the configuration is reached.
     */
    method DepthFilterSizeChanged(value: int) returns (ok: bool)
      modifies this
      ensures ok == old(shown).Some?
      ensures State() == old(State()).(filterSizeValue := OddFilterSize(value),
        shown := if ok then Some(old(shown).value.(filterDepthMapSize := OddFilterSize(value))) else None)
    {
      var size := value;
      if size % 2 == 0 {
        size := size - 1;
      }
      filterSizeValue := size;
      if shown.None? {
        return false;
      }
      shown := Some(shown.value.(filterDepthMapSize := size));
      ok := true;
    }
  }

  /**
   * Apply: send the shown configuration to its sensor; only when that is
   * confirmed is the sensor restarted, with the temporal pattern when
   * hardware sync is on.
   */
  function Apply(confirmed: bool, tempHwSyncEnabled: bool): (r: Restart)
    ensures r != NoRestart <==> confirmed
    ensures r == RestartWithTemporalSyncPattern <==> confirmed && tempHwSyncEnabled
  {
    if !confirmed then NoRestart
    else if tempHwSyncEnabled then RestartWithTemporalSyncPattern
    else RestartClient
  }

  /**
   * Apply-all: every sensor's configuration gets the shown depth and colour
   * resolution and filter settings and keeps its own serial number, sync
   * states and offset; every one is sent even after a failure, and
   * `confirmed[k]` is what the server's confirmation for sensor k returned.
   * The sensors are restarted only when no confirmation failed.
   */
  method ApplyAll(shown: Config, configs: seq<Config>, confirmed: seq<bool>, tempHwSyncEnabled: bool)
    returns (updated: seq<Config>, restart: Restart)
    requires |confirmed| == |configs|
    ensures |updated| == |configs|
    ensures forall k :: 0 <= k < |updated| ==> SameShown(updated[k], shown) && SameSensor(updated[k], configs[k])
    ensures restart != NoRestart <==> forall k :: 0 <= k < |confirmed| ==> confirmed[k]
    ensures restart != NoRestart ==> (restart == RestartWithTemporalSyncPattern <==> tempHwSyncEnabled)
    ensures restart != RestartClient
  {
    var socketError := false;
    updated := [];
    for i := 0 to |configs|
      invariant |updated| == i
      invariant forall k :: 0 <= k < i ==> SameShown(updated[k], shown) && SameSensor(updated[k], configs[k])
      invariant socketError <==> exists k :: 0 <= k < i && !confirmed[k]
    {
      var config := configs[i].(depthRes := shown.depthRes, colorRes := shown.colorRes,
                                filterDepthMap := shown.filterDepthMap, filterDepthMapSize := shown.filterDepthMapSize);
      updated := updated + [config];
      if !confirmed[i] {
        socketError := true;
      }
    }
    if !socketError {
      if tempHwSyncEnabled {
        restart := RestartWithTemporalSyncPattern;
      } else {
        restart := RestartAllClients;
      }
    } else {
      restart := NoRestart;
    }
  }

  /** What apply-all writes is exactly the copy of the shown fields into each sensor's own configuration. */
  lemma {:induction false} CopyShownIsApplied(shown: Config, config: Config, updated: Config)
    ensures SameShown(updated, shown) && SameSensor(updated, config) <==> updated == CopyShown(shown, config)
  {
  }
}
