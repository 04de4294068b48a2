/** The beat timeline of the VR client: it holds the R-peak sample indices the
    backend reported, shows one marker per beat, finds the beat nearest to a
    scrubbed time, highlights its marker and, once scrubbing has paused for the
    debounce time, requests that beat's detail. Rendering, marker positions,
    coroutine scheduling and the network request are not modelled: the clock
    is a parameter, and each detail request is recorded in `requestedBeats`. */
module Timeline {
  import opened Wrappers
  import opened EcgData

  function Abs(x: int): nat
  {
    if x < 0 then -x else x
  }

  /** Mathf.RoundToInt: to the nearest integer, halves to the even one. */
  function RoundToInt(x: real): (n: int)
    ensures -0.5 <= n as real - x <= 0.5
    ensures n as real - x == 0.5 || x - n as real == 0.5 ==> n % 2 == 0
  {
    var f := x.Floor;
    var d := x - f as real;
    if d < 0.5 then f
    else if d > 0.5 then f + 1
    else if f % 2 == 0 then f
    else f + 1
  }

  /** The index of the peak nearest to `target`, the first among equally near
      ones; -1 when there are no peaks. */
  function NearestIndex(peaks: seq<int>, target: int): (k: int)
    ensures -1 <= k < |peaks|
    ensures k == -1 <==> |peaks| == 0
  {
    if |peaks| == 0 then -1
    else if |peaks| == 1 then 0
    else
      var k := NearestIndex(peaks[..|peaks| - 1], target);
      if Abs(peaks[|peaks| - 1] - target) < Abs(peaks[k] - target) then |peaks| - 1 else k
  }

  /** Among some peaks, none is nearer than the one NearestIndex picks, and
      every earlier peak is strictly farther. */
  lemma {:induction false} NearestIndexIsNearest(peaks: seq<int>, target: int)
    requires |peaks| > 0
    ensures forall j :: 0 <= j < |peaks| ==>
      Abs(peaks[NearestIndex(peaks, target)] - target) <= Abs(peaks[j] - target)
    ensures forall j :: 0 <= j < NearestIndex(peaks, target) ==>
      Abs(peaks[NearestIndex(peaks, target)] - target) < Abs(peaks[j] - target)
  {
    if |peaks| > 1 {
      var init := peaks[..|peaks| - 1];
      NearestIndexIsNearest(init, target);
      assert forall j :: 0 <= j < |init| ==> init[j] == peaks[j];
    }
  }

  /** The sample a slider time corresponds to. */
  function TargetSample(timeSeconds: real, samplingRate: real): int
  {
    RoundToInt(timeSeconds * samplingRate)
  }

  /** Peaks in strictly increasing sample order, as the detector reports them. */
  predicate Increasing(peaks: seq<int>)
  {
    forall a, b :: 0 <= a < b < |peaks| ==> peaks[a] < peaks[b]
  }

  /** A beat's time maps back to its own sample, and with increasing peaks
      that beat is the nearest one: when a jump's slider write runs the
      listener, the jumped-to beat becomes the pending one. */
  lemma JumpTargetsOwnBeat(peaks: seq<int>, fs: real, i: int)
    requires fs > 0.0 && Increasing(peaks) && 0 <= i < |peaks|
    ensures TargetSample(peaks[i] as real / fs, fs) == peaks[i]
    ensures NearestIndex(peaks, TargetSample(peaks[i] as real / fs, fs)) == i
  {
    assert (peaks[i] as real / fs) * fs == peaks[i] as real;
    NearestIndexIsNearest(peaks, peaks[i]);
  }

  /** Every marker is cyan except the one at `k`, which is yellow; with `k`
      outside the markers, all are cyan. */
  predicate HighlightedOnly(colors: seq<Color>, k: int)
  {
    forall i :: 0 <= i < |colors| ==> colors[i] == (if i == k then Yellow else Cyan)
  }

  /** Mathf.Clamp(v, 0, max): the value a slider with range [0, max] stores. */
  function ClampSlider(v: real, max: real): (r: real)
    requires max >= 0.0
    ensures 0.0 <= r <= max
    ensures 0.0 <= v <= max ==> r == v
  {
    if v < 0.0 then 0.0 else if v > max then max else v
  }

  class TimelineController {
    var samplingRate: real
    var scrubDebounceTime: real
    var ecgLoaded: bool
    var ecgDurationSeconds: real
    var rPeaks: seq<int>
    var totalBeats: int
    var lastScrubTime: real
    var pendingBeatIndex: int
    /** Whether the timeline slider is assigned; Start then registers
        OnTimelineValueChanged as its onValueChanged listener. */
    var hasSlider: bool
    /** The slider's range is [0, sliderMax]; its minimum is never changed. */
    var sliderMax: real
    var sliderValue: real
    /** The colour of each beat marker's image. */
    var markerColors: array<Color>
    /** The beats whose detail has been requested, in order. */
    var requestedBeats: seq<int>

    ghost predicate Valid()
      reads this
    {
      samplingRate > 0.0 && scrubDebounceTime >= 0.0 && 0.0 <= sliderValue <= sliderMax
    }

    /** The settings, the loaded signal and its beats, and the marker array
        itself are as they were. */
    twostate predicate SameLoad()
      reads this
    {
      && samplingRate == old(samplingRate) && scrubDebounceTime == old(scrubDebounceTime)
      && hasSlider == old(hasSlider) && ecgLoaded == old(ecgLoaded)
      && ecgDurationSeconds == old(ecgDurationSeconds)
      && rPeaks == old(rPeaks) && totalBeats == old(totalBeats) && markerColors == old(markerColors)
    }

    /** What the slider listener leaves behind: when the stored slider value
        changed, the scrub time is `now` and, with beats loaded, the beat
        nearest to the new value is pending and alone highlighted; otherwise
        the scrub time, the pending beat and the marker colours are as they
        were. */
    twostate predicate ListenerRan(now: real)
      reads this, markerColors
    {
      var changed := sliderValue != old(sliderValue);
      var k := NearestIndex(rPeaks, TargetSample(sliderValue, samplingRate));
      && lastScrubTime == (if changed then now else old(lastScrubTime))
      && if changed && k >= 0 then pendingBeatIndex == k && HighlightedOnly(markerColors[..], k)
         else pendingBeatIndex == old(pendingBeatIndex) && markerColors[..] == old(markerColors[..])
    }

    /** A controller with the inspector's defaults after Start: 400 Hz, a
        half-second debounce, no signal, no beats, no pending beat, and a
        slider (if assigned) at 0 in Unity's default range [0, 1]. */
    constructor (hasSlider: bool)
      ensures Valid() && this.hasSlider == hasSlider
      ensures samplingRate == 400.0 && scrubDebounceTime == 0.5
      ensures !ecgLoaded && rPeaks == [] && totalBeats == 0 && pendingBeatIndex == -1
      ensures markerColors.Length == 0 && requestedBeats == []
      ensures sliderValue == 0.0 && sliderMax == 1.0 && lastScrubTime == 0.0
    {
      samplingRate := 400.0;
      scrubDebounceTime := 0.5;
      ecgLoaded := false;
      ecgDurationSeconds := 0.0;
      rPeaks := [];
      totalBeats := 0;
      lastScrubTime := 0.0;
      pendingBeatIndex := -1;
      this.hasSlider := hasSlider;
      sliderMax := 1.0;
      sliderValue := 0.0;
      markerColors := new Color[0];
      requestedBeats := [];
    }

    /** InitializeTimeline and its success callback, at clock time `now`: a
        null signal changes nothing; otherwise the signal is kept, and when
        the beat request succeeds (`beats` is not None) its peaks and count
        are taken over and one cyan marker is made per peak (none if the
        marker prefab or its parent is missing, or there is no slider to
        place the markers along). With a slider, its range becomes
        [0, duration] and its value 0; the listener then runs exactly when the
        value was not already 0, and leaves the beat nearest to sample 0
        pending and highlighted. */
    method InitializeTimeline(signalRows: Option<nat>, beats: Option<(seq<int>, int)>,
                              prefabAndParent: bool, now: real)
      requires Valid()
      modifies this
      ensures Valid()
      ensures samplingRate == old(samplingRate) && scrubDebounceTime == old(scrubDebounceTime)
      ensures hasSlider == old(hasSlider) && requestedBeats == old(requestedBeats)
      ensures signalRows.None? ==> unchanged(this)
      ensures signalRows.Some? ==>
        ecgLoaded && ecgDurationSeconds == signalRows.value as real / samplingRate
      ensures signalRows.Some? && beats.None? ==>
        && rPeaks == old(rPeaks) && totalBeats == old(totalBeats) && markerColors == old(markerColors)
        && sliderValue == old(sliderValue) && sliderMax == old(sliderMax)
        && lastScrubTime == old(lastScrubTime) && pendingBeatIndex == old(pendingBeatIndex)
      ensures signalRows.Some? && beats.Some? ==>
        && rPeaks == beats.value.0 && totalBeats == beats.value.1
        && fresh(markerColors)
        && markerColors.Length == (if prefabAndParent && hasSlider then |rPeaks| else 0)
        && (hasSlider ==> sliderMax == ecgDurationSeconds && sliderValue == 0.0)
        && (!hasSlider ==> sliderMax == old(sliderMax) && sliderValue == old(sliderValue))
        && var fired := hasSlider && old(sliderValue) != 0.0;
           var k := NearestIndex(rPeaks, 0);
           && lastScrubTime == (if fired then now else old(lastScrubTime))
           && if fired && k >= 0 then pendingBeatIndex == k && HighlightedOnly(markerColors[..], k)
              else pendingBeatIndex == old(pendingBeatIndex) && HighlightedOnly(markerColors[..], -1)
    {
      if signalRows.None? {
        return;
      }
      ecgLoaded := true;
      ecgDurationSeconds := signalRows.value as real / samplingRate;
      if beats.Some? {
        rPeaks := beats.value.0;
        totalBeats := beats.value.1;
        CreateBeatMarkers(prefabAndParent);
        if hasSlider {
          UpdateTimelineRange(ecgDurationSeconds, now);
        }
      }
    }

    /** The range update after the beats arrive: minValue = 0 leaves the range
        as it is (its minimum is already 0), maxValue = `m`, then value = 0.
        The listener runs, once or twice, exactly when the value was not
        already 0, and its last run is for the value 0. */
    method UpdateTimelineRange(m: real, now: real)
      requires Valid() && hasSlider && m >= 0.0
      modifies this, markerColors
      ensures Valid() && SameLoad() && requestedBeats == old(requestedBeats)
      ensures sliderMax == m && sliderValue == 0.0
      ensures var fired := old(sliderValue) != 0.0;
        var k := NearestIndex(rPeaks, 0);
        && lastScrubTime == (if fired then now else old(lastScrubTime))
        && if fired && k >= 0 then pendingBeatIndex == k && HighlightedOnly(markerColors[..], k)
           else pendingBeatIndex == old(pendingBeatIndex) && markerColors[..] == old(markerColors[..])
    {
      SetSliderMax(m, now);
      SetSliderValue(0.0, now);
    }

    /** CreateBeatMarkers: the old markers are dropped; when the marker prefab
        and its parent are both assigned (`prefabAndParent`) and a slider is
        there to place them along, one cyan marker is made per R-peak, and
        otherwise none. */
    method CreateBeatMarkers(prefabAndParent: bool)
      modifies this`markerColors
      ensures fresh(markerColors)
      ensures markerColors.Length == (if prefabAndParent && hasSlider then |rPeaks| else 0)
      ensures HighlightedOnly(markerColors[..], -1)
    {
      var n := if prefabAndParent && hasSlider then |rPeaks| else 0;
      var markers := new Color[n];
      var i := 0;
      while i < n
        invariant 0 <= i <= n
        invariant forall k :: 0 <= k < i ==> markers[k] == Cyan
      {
        markers[i] := Cyan;
        i := i + 1;
      }
      markerColors := markers;
    }

    /** The slider's maxValue setter: the range becomes [0, m], and a value
        above `m` is clamped to it, which runs the listener. */
    method SetSliderMax(m: real, now: real)
      requires Valid() && hasSlider && m >= 0.0
      modifies this, markerColors
      ensures Valid() && SameLoad() && requestedBeats == old(requestedBeats)
      ensures sliderMax == m && sliderValue == ClampSlider(old(sliderValue), m)
      ensures ListenerRan(now)
    {
      sliderMax := m;
      if sliderValue > m {
        sliderValue := m;
        OnTimelineValueChanged(m, now);
      }
    }

    /** The slider's value setter, whether the user drags it or code assigns
        it: the value is clamped to the range, and only when that changes the
        stored value is it stored and the listener run at clock time `now`. */
    method SetSliderValue(v: real, now: real)
      requires Valid() && hasSlider
      modifies this, markerColors
      ensures Valid() && SameLoad() && requestedBeats == old(requestedBeats)
      ensures sliderMax == old(sliderMax) && sliderValue == ClampSlider(v, sliderMax)
      ensures ListenerRan(now)
    {
      var nv := ClampSlider(v, sliderMax);
      if nv != sliderValue {
        sliderValue := nv;
        OnTimelineValueChanged(nv, now);
      }
    }

    /** FindNearestBeat: -1 when there are no peaks; otherwise the index of the
        peak nearest to the target sample, the first among equally near ones. */
    method FindNearestBeat(timeSeconds: real) returns (nearestIndex: int)
      ensures nearestIndex == NearestIndex(rPeaks, TargetSample(timeSeconds, samplingRate))
    {
      if |rPeaks| == 0 {
        return -1;
      }
      var targetSample := RoundToInt(timeSeconds * samplingRate);
      nearestIndex := 0;
      var minDistance := Abs(rPeaks[0] - targetSample);
      var i := 1;
      while i < |rPeaks|
        invariant 1 <= i <= |rPeaks|
        invariant nearestIndex == NearestIndex(rPeaks[..i], targetSample)
        invariant 0 <= nearestIndex < i
        invariant minDistance == Abs(rPeaks[nearestIndex] - targetSample)
      {
        assert rPeaks[..i + 1][..i] == rPeaks[..i];
        var distance := Abs(rPeaks[i] - targetSample);
        if distance < minDistance {
          minDistance := distance;
          nearestIndex := i;
        }
        i := i + 1;
      }
      assert rPeaks[..i] == rPeaks;
    }

    /** HighlightBeatMarker: every marker is reset to cyan, and the marker of
        the given beat, if there is one, becomes yellow. */
    method HighlightBeatMarker(beatIndex: int)
      modifies markerColors
      ensures HighlightedOnly(markerColors[..], beatIndex)
    {
      var i := 0;
      while i < markerColors.Length
        invariant 0 <= i <= markerColors.Length
        invariant forall k :: 0 <= k < i ==> markerColors[k] == Cyan
      {
        markerColors[i] := Cyan;
        i := i + 1;
      }
      if 0 <= beatIndex < markerColors.Length {
        markerColors[beatIndex] := Yellow;
      }
    }

    /** OnTimelineValueChanged, at clock time `now`: the scrub time is noted;
        if there is a nearest beat it becomes the pending beat and its marker
        alone is highlighted; with no beats nothing else changes. Restarting
        the debounce coroutine is left to the caller of
        DebounceAndFetchBeatDetail. */
    method OnTimelineValueChanged(timeSeconds: real, now: real)
      requires Valid()
      modifies this, markerColors
      ensures Valid() && SameLoad() && requestedBeats == old(requestedBeats)
      ensures sliderValue == old(sliderValue) && sliderMax == old(sliderMax)
      ensures lastScrubTime == now
      ensures var k := NearestIndex(rPeaks, TargetSample(timeSeconds, samplingRate));
        if k >= 0 then pendingBeatIndex == k && HighlightedOnly(markerColors[..], k)
        else pendingBeatIndex == old(pendingBeatIndex) && markerColors[..] == old(markerColors[..])
    {
      lastScrubTime := now;
      var nearestBeatIndex := FindNearestBeat(timeSeconds);
      if nearestBeatIndex >= 0 {
        pendingBeatIndex := nearestBeatIndex;
        HighlightBeatMarker(nearestBeatIndex);
      }
    }

    /** FetchBeatDetail: a request for the beat's detail, made only when a
        signal is loaded. */
    method FetchBeatDetail(beatIndex: int)
      modifies this`requestedBeats
      ensures requestedBeats == if ecgLoaded then old(requestedBeats) + [beatIndex] else old(requestedBeats)
    {
      if ecgLoaded {
        requestedBeats := requestedBeats + [beatIndex];
      }
    }

    /** The debounce coroutine, resumed at clock time `now` after its wait:
        if scrubbing has paused for the debounce time and a beat is pending,
        its detail is requested and nothing is pending afterwards. */
    method DebounceAndFetchBeatDetail(now: real)
      modifies this
      ensures var fire := now - old(lastScrubTime) >= old(scrubDebounceTime) && old(pendingBeatIndex) >= 0;
        && (fire ==>
              (pendingBeatIndex == -1
               && requestedBeats == if ecgLoaded then old(requestedBeats) + [old(pendingBeatIndex)] else old(requestedBeats)))
        && (!fire ==> (pendingBeatIndex == old(pendingBeatIndex) && requestedBeats == old(requestedBeats)))
      ensures SameLoad() && lastScrubTime == old(lastScrubTime)
      ensures sliderValue == old(sliderValue) && sliderMax == old(sliderMax)
    {
      if now - lastScrubTime >= scrubDebounceTime && pendingBeatIndex >= 0 {
        FetchBeatDetail(pendingBeatIndex);
        pendingBeatIndex := -1;
      }
    }

    /** JumpToBeat, at clock time `now`: an index outside the beats changes
        nothing; otherwise the slider (if assigned) is set to the beat's time,
        which runs the listener when the value changes, and the beat's detail
        is requested. For increasing peaks and a time within the slider's
        range, the listener makes that very beat pending, so the debounce
        coroutine later requests it a second time. */
    method JumpToBeat(beatIndex: int, now: real)
      requires Valid()
      modifies this, markerColors
      ensures Valid() && SameLoad() && sliderMax == old(sliderMax)
      ensures !(0 <= beatIndex < |rPeaks|) ==> unchanged(this) && unchanged(markerColors)
      ensures 0 <= beatIndex < |rPeaks| ==>
        && sliderValue == (if hasSlider then ClampSlider(rPeaks[beatIndex] as real / samplingRate, sliderMax)
                           else old(sliderValue))
        && ListenerRan(now)
        && requestedBeats == (if ecgLoaded then old(requestedBeats) + [beatIndex] else old(requestedBeats))
      ensures 0 <= beatIndex < |rPeaks| && Increasing(rPeaks) && hasSlider && sliderValue != old(sliderValue)
              && 0 <= rPeaks[beatIndex] && rPeaks[beatIndex] as real / samplingRate <= sliderMax
              ==> pendingBeatIndex == beatIndex
    {
      if beatIndex < 0 || beatIndex >= |rPeaks| {
        return;
      }
      var timeSeconds := rPeaks[beatIndex] as real / samplingRate;
      if Increasing(rPeaks) {
        JumpTargetsOwnBeat(rPeaks, samplingRate, beatIndex);
      }
      if hasSlider {
        SetSliderValue(timeSeconds, now);
      }
      FetchBeatDetail(beatIndex);
    }

    /** GetBeatCount: the count the backend reported, which need not be the
        number of peaks. */
    method GetBeatCount() returns (count: int)
      ensures count == totalBeats
    {
      count := totalBeats;
    }
  }
}
