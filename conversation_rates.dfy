/**
 * The chart component's state after its data has loaded: the selected
 * series, the time range, the processed series for that range, and the
 * zoom state machine (`isZoomActive`, `zoomArea`, `data`, `zoomHistory`)
 * with one method per event handler.  Each handler is one atomic
 * transition that already includes the effects React runs after it.
 */
module ConversationRates {
  import opened Wrappers
  import opened SharedTypes
  import opened Variations
  import opened DailyRates
  import opened WeeklyRollup

  /** A drag in progress, between two category labels. */
  datatype ZoomArea = ZoomArea(left: string, right: string)

  /**
   * The `useMemo` value: no series without variations, the daily series for
   * `"day"`, and the weekly rollup of it for any other time range.
   */
  function ProcessedFor(td: TestData, vs: seq<EnhancedVariation>, timeRange: string, dayOf: DayOfMonth): seq<Point> {
    if |vs| == 0 then []
    else
      var daily := ProcessedSeries(td.data, vs, dayOf);
      if timeRange == "day" then daily else WeeklySeries(daily, vs, td.data, dayOf)
  }

  /** Whether the series is empty does not depend on the time range. */
  lemma ProcessedEmptiness(td: TestData, vs: seq<EnhancedVariation>, timeRange: string, dayOf: DayOfMonth)
    ensures ProcessedFor(td, vs, timeRange, dayOf) == [] <==> |vs| == 0 || |td.data| == 0
  {
    if |vs| > 0 && timeRange != "day" {
      assert |ProcessedFor(td, vs, timeRange, dayOf)| == WeekCount(|td.data|);
    }
  }

  /** The memo's computation, for the current time range. */
  method ComputeProcessed(td: TestData, vs: seq<EnhancedVariation>, timeRange: string, dayOf: DayOfMonth)
    returns (r: seq<Point>)
    ensures r == ProcessedFor(td, vs, timeRange, dayOf)
    ensures r == [] <==> |vs| == 0 || |td.data| == 0
  {
    ProcessedEmptiness(td, vs, timeRange, dayOf);
    if |vs| == 0 {
      return [];
    }
    var daily := ProcessData(td.data, vs, dayOf);
    if timeRange == "day" {
      r := daily;
    } else {
      r := AggregateWeeklyData(daily, vs, td.data, dayOf);
    }
  }

  /** `data.findIndex((item) => item.date === date)`: the first point with that label. */
  function FindIndex(s: seq<Point>, date: string): (r: Option<nat>)
    ensures r.Some? ==> r.value < |s| && s[r.value].date == date && forall j :: 0 <= j < r.value ==> s[j].date != date
    ensures r.None? ==> forall j :: 0 <= j < |s| ==> s[j].date != date
  {
    if s == [] then None
    else if s[0].date == date then Some(0)
    else match FindIndex(s[1..], date)
      case Some(k) => Some(k + 1)
      case None => None
  }

  /**
   * The index range a drag from `left` to `right` selects in `s`: from the
   * first point with one label to the first point with the other, whichever
   * comes first; `None` when either label is missing.
   */
  function ZoomRange(s: seq<Point>, left: string, right: string): (r: Option<(nat, nat)>)
    ensures r.None? <==> FindIndex(s, left).None? || FindIndex(s, right).None?
    ensures r.Some? ==> r.value.0 <= r.value.1 < |s|
    ensures r.Some? ==>
      (s[r.value.0].date == left && s[r.value.1].date == right) ||
      (s[r.value.0].date == right && s[r.value.1].date == left)
    ensures r.Some? && left != right ==> r.value.0 < r.value.1
    ensures r.Some? ==>
      var li, ri := FindIndex(s, left).value, FindIndex(s, right).value;
      r.value == if li < ri then (li, ri) else (ri, li)
  {
    match (FindIndex(s, left), FindIndex(s, right))
    case (Some(li), Some(ri)) => if li < ri then Some((li, ri)) else Some((ri, li))
    case _ => None
  }

  /** `inner` is `outer[lo..hi]`. */
  ghost predicate SliceAt(inner: seq<Point>, outer: seq<Point>, lo: int, hi: int) {
    0 <= lo <= hi <= |outer| && inner == outer[lo..hi]
  }

  ghost predicate IsSliceOf(inner: seq<Point>, outer: seq<Point>) {
    exists lo, hi :: SliceAt(inner, outer, lo, hi)
  }

  /** A committed zoom: a contiguous run of at least two points of the window it was taken in. */
  ghost predicate IsZoomOf(inner: seq<Point>, outer: seq<Point>) {
    exists lo, hi :: SliceAt(inner, outer, lo, hi) && hi - lo >= 2
  }

  /** Each history entry is a zoom of the one before it. */
  ghost predicate ZoomChain(history: seq<seq<Point>>) {
    forall k :: 0 < k < |history| ==> IsZoomOf(history[k], history[k - 1])
  }

  /** Pushing a zoom of the last window keeps the history a chain. */
  lemma PushZoom(history: seq<seq<Point>>, w: seq<Point>)
    requires history != [] && ZoomChain(history) && IsZoomOf(w, history[|history| - 1])
    ensures ZoomChain(history + [w])
  {
    var h := history + [w];
    forall k | 0 < k < |h|
      ensures IsZoomOf(h[k], h[k - 1])
    {
      if k < |history| {
        assert h[k] == history[k] && h[k - 1] == history[k - 1];
      }
    }
  }

  lemma SliceOfSlice(a: seq<Point>, b: seq<Point>, c: seq<Point>)
    requires IsSliceOf(a, b) && IsSliceOf(b, c)
    ensures IsSliceOf(a, c)
  {
    var lo1, hi1 :| SliceAt(a, b, lo1, hi1);
    var lo2, hi2 :| SliceAt(b, c, lo2, hi2);
    assert a == c[lo2 + lo1..lo2 + hi1] by {
      assert forall i :: 0 <= i < |a| ==> a[i] == b[lo1 + i] == c[lo2 + lo1 + i];
    }
    assert SliceAt(a, c, lo2 + lo1, lo2 + hi1);
  }

  /** However many zooms were committed, the last window is a contiguous run of the first. */
  lemma {:induction false} ChainedZoomsAreSlices(history: seq<seq<Point>>)
    requires |history| > 0 && ZoomChain(history)
    ensures IsSliceOf(history[|history| - 1], history[0])
    ensures |history| > 1 ==> |history[|history| - 1]| >= 2
  {
    var n := |history|;
    if n == 1 {
      assert SliceAt(history[0], history[0], 0, |history[0]|);
    } else {
      var init := history[..n - 1];
      assert forall k :: 0 <= k < n - 1 ==> init[k] == history[k];
      assert ZoomChain(init);
      ChainedZoomsAreSlices(init);
      assert IsZoomOf(history[n - 1], history[n - 2]);
      var lo, hi :| SliceAt(history[n - 1], history[n - 2], lo, hi) && hi - lo >= 2;
      SliceOfSlice(history[n - 1], history[n - 2], history[0]);
    }
  }

  class ConversationRatesComponent {
    const testData: TestData
    const enhancedVariations: seq<EnhancedVariation>
    /** Date parsing, which the labels of the points depend on. */
    const dayOf: DayOfMonth

    var timeRange: string
    var selectedVariations: seq<string>
    var processedData: seq<Point>

    var isZoomActive: bool
    var zoomArea: Option<ZoomArea>
    var zoomHistory: seq<seq<Point>>
    var data: seq<Point>

    /**
     * The memo is up to date; the history is empty only before any series
     * existed, and otherwise starts with the full series and ends with the
     * window on show, each entry a zoom of the one before; a drag exists only
     * in zoom mode, between non-empty labels.
     */
    ghost predicate Valid()
      reads this
    {
      && processedData == ProcessedFor(testData, enhancedVariations, timeRange, dayOf)
      && (zoomHistory == [] ==> data == [] && processedData == [])
      && (zoomHistory != [] ==> zoomHistory[0] == processedData && data == zoomHistory[|zoomHistory| - 1])
      && ZoomChain(zoomHistory)
      && (zoomArea.Some? ==> isZoomActive && zoomArea.value.left != "" && zoomArea.value.right != "")
    }

    /** The reset button is enabled: `disabled={zoomHistory.length <= 1}` is false. */
    predicate ResetEnabled()
      reads this
    {
      |zoomHistory| > 1
    }

    /**
     * The state once the dataset has loaded (the fetch itself is not
     * modelled): series keys assigned, all distinct keys selected, the daily
     * series computed and, if it is not empty, installed as the window and
     * the only history entry.
     */
    constructor (td: TestData, uuids: seq<string>, dayOf: DayOfMonth)
      requires |uuids| == |td.variations|
      ensures Valid()
      ensures testData == td && this.dayOf == dayOf
      ensures enhancedVariations == EnhanceVariationsWithIds(td.variations, uuids)
      ensures selectedVariations == Distinct(StableIds(enhancedVariations))
      ensures timeRange == "day" && processedData == ProcessedFor(td, enhancedVariations, "day", dayOf)
      ensures !isZoomActive && zoomArea.None?
      ensures data == processedData
      ensures zoomHistory == if processedData == [] then [] else [processedData]
    {
      var enhanced := EnhanceVariationsWithIds(td.variations, uuids);
      var ids := GetAvailableVariationIds(enhanced);
      var processed := ComputeProcessed(td, enhanced, "day", dayOf);
      testData := td;
      enhancedVariations := enhanced;
      this.dayOf := dayOf;
      selectedVariations := ids;
      timeRange := "day";
      processedData := processed;
      isZoomActive := false;
      zoomArea := None;
      if |processed| > 0 {
        data := processed;
        zoomHistory := [processed];
      } else {
        data := [];
        zoomHistory := [];
      }
    }

    /** `handleZoom`: enter zoom mode; nothing else changes. */
    method HandleZoom()
      requires Valid()
      modifies this`isZoomActive
      ensures Valid() && isZoomActive
    {
      if !isZoomActive {
        isZoomActive := true;
      }
    }

    /** `handleResetZoom`: back to the full series, a one-entry history, zoom mode off. */
    method HandleResetZoom()
      requires Valid()
      modifies this`data, this`zoomArea, this`isZoomActive, this`zoomHistory
      ensures Valid()
      ensures data == processedData && zoomHistory == [processedData]
      ensures zoomArea.None? && !isZoomActive && !ResetEnabled()
    {
      data := processedData;
      zoomArea := None;
      isZoomActive := false;
      zoomHistory := [processedData];
    }

    /** `handleMouseDown`: in zoom mode, a non-empty label starts a drag at that label. */
    method HandleMouseDown(activeLabel: Option<string>)
      requires Valid()
      modifies this`zoomArea
      ensures Valid()
      ensures if old(isZoomActive) && activeLabel.Some? && activeLabel.value != ""
        then zoomArea == Some(ZoomArea(activeLabel.value, activeLabel.value))
        else zoomArea == old(zoomArea)
    {
      if !isZoomActive || activeLabel.None? {
        return;
      }
      if activeLabel.value != "" {
        zoomArea := Some(ZoomArea(activeLabel.value, activeLabel.value));
      }
    }

    /**
     * `handleMouseMove`: during a drag, a non-empty label other than the
     * drag's start moves its right end; the left end never moves.
     */
    method HandleMouseMove(activeLabel: Option<string>)
      requires Valid()
      modifies this`zoomArea
      ensures Valid()
      ensures if isZoomActive && old(zoomArea).Some? && activeLabel.Some? && activeLabel.value != ""
                 && activeLabel.value != old(zoomArea).value.left
        then zoomArea == Some(ZoomArea(old(zoomArea).value.left, activeLabel.value))
        else zoomArea == old(zoomArea)
      ensures zoomArea.Some? <==> old(zoomArea).Some?
      ensures zoomArea.Some? ==> zoomArea.value.left == old(zoomArea).value.left
    {
      if !isZoomActive || zoomArea.None? || activeLabel.None? {
        return;
      }
      if activeLabel.value != "" && zoomArea.value.left != activeLabel.value {
        zoomArea := Some(zoomArea.value.(right := activeLabel.value));
      }
    }

    /**
     * `handleMouseUp`: a drag that never left its start is dropped and zoom
     * mode stays on.  Otherwise both labels are looked up (first match) in the
     * window on show; when both are found, the points between them,
     * inclusive and in order, become the window and are pushed on the
     * history; found or not, the drag ends and zoom mode is left.
     */
    method HandleMouseUp()
      requires Valid()
      modifies this`zoomArea, this`isZoomActive, this`data, this`zoomHistory
      ensures Valid()
      ensures !old(isZoomActive) || old(zoomArea).None? ==>
        zoomArea == old(zoomArea) && isZoomActive == old(isZoomActive) &&
        data == old(data) && zoomHistory == old(zoomHistory)
      ensures old(isZoomActive) && old(zoomArea).Some? && old(zoomArea).value.left == old(zoomArea).value.right ==>
        zoomArea.None? && isZoomActive && data == old(data) && zoomHistory == old(zoomHistory)
      ensures old(isZoomActive) && old(zoomArea).Some? && old(zoomArea).value.left != old(zoomArea).value.right ==>
        zoomArea.None? && !isZoomActive &&
        var r := ZoomRange(old(data), old(zoomArea).value.left, old(zoomArea).value.right);
        if r.Some? then
          data == old(data)[r.value.0..r.value.1 + 1] && |data| >= 2 &&
          zoomHistory == old(zoomHistory) + [data] && ResetEnabled()
        else
          data == old(data) && zoomHistory == old(zoomHistory)
    {
      if !isZoomActive || zoomArea.None? {
        return;
      }
      var left, right := zoomArea.value.left, zoomArea.value.right;
      if left == right {
        zoomArea := None;
        return;
      }
      var range := ZoomRange(data, left, right);
      if range.Some? {
        var start, end := range.value.0, range.value.1;
        var zoomedData := data[start..end + 1];
        assert SliceAt(zoomedData, data, start, end + 1);
        PushZoom(zoomHistory, zoomedData);
        data := zoomedData;
        zoomHistory := zoomHistory + [zoomedData];
      }
      zoomArea := None;
      isZoomActive := false;
    }

    /** `handleVariationSelect`: only a non-empty list replaces the selection. */
    method HandleVariationSelect(value: Selection)
      requires Valid()
      modifies this`selectedVariations
      ensures Valid()
      ensures selectedVariations == if value.Many? && |value.values| > 0 then value.values else old(selectedVariations)
      ensures old(selectedVariations) != [] ==> selectedVariations != []
    {
      if value.Many? {
        if |value.values| > 0 {
          selectedVariations := value.values;
        }
      }
    }

    /**
     * `handleTimeRangeChange`: a string sets the time range and resets the
     * zoom; the memo then recomputes the series for the new range and the
     * effect installs it, so the window and the one history entry are the
     * new full series.
     */
    method HandleTimeRangeChange(value: Selection)
      requires Valid()
      modifies this`timeRange, this`processedData, this`data, this`zoomHistory, this`zoomArea, this`isZoomActive
      ensures Valid()
      ensures value.Many? ==>
        timeRange == old(timeRange) && processedData == old(processedData) && data == old(data) &&
        zoomHistory == old(zoomHistory) && zoomArea == old(zoomArea) && isZoomActive == old(isZoomActive)
      ensures value.Single? ==>
        timeRange == value.value && processedData == ProcessedFor(testData, enhancedVariations, value.value, dayOf) &&
        data == processedData && zoomHistory == [processedData] && zoomArea.None? && !isZoomActive
    {
      if value.Single? {
        HandleResetZoom();
        timeRange := value.value;
        var recomputed := ComputeProcessed(testData, enhancedVariations, timeRange, dayOf);
        processedData := recomputed;
        if |recomputed| > 0 {
          data := recomputed;
          zoomHistory := [recomputed];
        } else {
          ProcessedEmptiness(testData, enhancedVariations, old(timeRange), dayOf);
        }
      }
    }

    /** The window on show is always a contiguous run of the full series. */
    lemma WindowWithinSeries()
      requires Valid()
      ensures IsSliceOf(data, processedData)
      ensures ResetEnabled() ==> |data| >= 2
    {
      if zoomHistory == [] {
        assert SliceAt(data, processedData, 0, 0);
      } else {
        ChainedZoomsAreSlices(zoomHistory);
      }
    }
  }
}
