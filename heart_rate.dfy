/** The heartbeat detector with multi-lead fallback (ECGHeartRateAnalyzer):
    the signal-quality scorer, the lead-priority scan that picks the lead whose
    R-peaks are reported, and the rate summary built from those peaks.

    The Pan-Tompkins chain of one lead (bandpass filter, derivative, squaring,
    moving-window integration, find_peaks) is floating-point code in scipy and
    numpy; the model takes it as the `detectPeaks` field of an `Analyzer`, an
    arbitrary function constrained only by what find_peaks guarantees
    (`PeaksSpaced` and indices inside the signal). The square root that np.std
    applies to the variance of the RR intervals is the `sqrt` field. */
module HeartRate {
  import opened Wrappers
  import opened Stats

  /** One entry of LEAD_PRIORITY: a column of the samples × leads matrix and its name. */
  datatype Lead = Lead(index: nat, name: string)

  const LeadPriority: seq<Lead> :=
    [Lead(1, "II"), Lead(6, "V1"), Lead(10, "V5"), Lead(0, "I"), Lead(7, "aVF")]
  const PrimaryLead: string := "II"
  /** Quality lead II must exceed for the scan to stop at it. */
  const EarlyExitQuality: real := 0.8
  /** Variance below which a lead counts as flat (dead). */
  const FlatLeadPower: real := 0.001
  /** Variance at which the power sub-score saturates. */
  const PowerReference: real := 0.1
  /** Rate reported when fewer than two beats were found. */
  const DefaultBpm: real := 60.0

  /** The analyzer's configuration: the sampling rate in Hz and the two numeric
      routines the model does not interpret. */
  datatype Analyzer = Analyzer(fs: real, detectPeaks: seq<real> -> seq<nat>, sqrt: real -> real)

  /** int(0.2 * fs): the find_peaks `distance`, 200 ms in samples. */
  function MinPeakDistance(fs: real): nat
    requires fs > 0.0
  {
    (0.2 * fs).Floor
  }

  /** Consecutive peaks are strictly increasing and at least `minDistance` apart. */
  predicate PeaksSpaced(peaks: seq<nat>, minDistance: nat)
  {
    forall i :: 0 <= i < |peaks| - 1 ==> peaks[i] < peaks[i + 1] && peaks[i] + minDistance <= peaks[i + 1]
  }

  /** What find_peaks promises about the indices it returns for a signal of `n` samples. */
  predicate IsPeakSet(peaks: seq<nat>, n: nat, minDistance: nat)
  {
    PeaksSpaced(peaks, minDistance) && forall i :: 0 <= i < |peaks| ==> peaks[i] < n
  }

  /** A positive sampling rate and a per-lead detector that keeps the find_peaks contract. */
  ghost predicate WellBehaved(az: Analyzer)
  {
    az.fs > 0.0 && forall s: seq<real> :: IsPeakSet(az.detectPeaks(s), |s|, MinPeakDistance(az.fs))
  }

  /** No two consecutive peaks coincide, so no RR interval is zero. */
  predicate NoZeroInterval(peaks: seq<nat>)
  {
    forall i :: 0 <= i < |peaks| - 1 ==> peaks[i] != peaks[i + 1]
  }

  /** What the quality scorer needs of a lead and its peaks: a non-empty
      signal and no zero interval once there are two peaks. */
  predicate Assessable(signal: seq<real>, peaks: seq<nat>)
  {
    |peaks| >= 2 ==> |signal| > 0 && NoZeroInterval(peaks)
  }

  lemma DetectorOutputAssessable(az: Analyzer, s: seq<real>)
    requires WellBehaved(az)
    ensures Assessable(s, az.detectPeaks(s))
    ensures PeaksSpaced(az.detectPeaks(s), MinPeakDistance(az.fs))
  {
    var p := az.detectPeaks(s);
    assert IsPeakSet(p, |s|, MinPeakDistance(az.fs));
    if |p| >= 2 {
      assert p[0] < |s|;
    }
  }

  /** np.diff of the peak indices, in samples. */
  function Intervals(peaks: seq<nat>): (rr: seq<real>)
    requires |peaks| >= 1
    ensures |rr| == |peaks| - 1
  {
    seq(|peaks| - 1, i requires 0 <= i < |peaks| - 1 => (peaks[i + 1] as real) - (peaks[i] as real))
  }

  /** rr_std / rr_mean, or 1.0 when the mean interval is not positive. */
  function CoefficientOfVariation(az: Analyzer, rr: seq<real>): real
    requires |rr| > 0
  {
    var m := Mean(rr);
    if m > 0.0 then az.sqrt(Variance(rr)) / m else 1.0
  }

  function RegularityScore(az: Analyzer, rr: seq<real>): (r: real)
    requires |rr| > 0
    ensures r >= 0.0
  {
    Max(0.0, 1.0 - CoefficientOfVariation(az, rr))
  }

  /** 60 / (interval / fs): the instantaneous rate of each interval, in BPM. */
  function RatesPerInterval(az: Analyzer, rr: seq<real>): (hr: seq<real>)
    requires az.fs > 0.0
    requires forall i :: 0 <= i < |rr| ==> rr[i] != 0.0
    ensures |hr| == |rr|
  {
    seq(|rr|, i requires 0 <= i < |rr| => 60.0 / (rr[i] / az.fs))
  }

  /** Full credit for a median rate in [30, 200] BPM, half in [20, 250], else none. */
  function RateScore(hrMedian: real): (r: real)
    ensures r == 1.0 <==> 30.0 <= hrMedian <= 200.0
    ensures r == 0.5 <==> (20.0 <= hrMedian < 30.0 || 200.0 < hrMedian <= 250.0)
    ensures r == 0.0 <==> (hrMedian < 20.0 || 250.0 < hrMedian)
  {
    if 30.0 <= hrMedian <= 200.0 then 1.0
    else if 20.0 <= hrMedian <= 250.0 then 0.5
    else 0.0
  }

  /** Full credit for 0.3 to 3.5 peaks per second, else half. */
  function DensityScore(peaksPerSecond: real): (r: real)
    ensures r == 1.0 <==> 0.3 <= peaksPerSecond <= 3.5
    ensures r == 0.5 <==> !(0.3 <= peaksPerSecond <= 3.5)
  {
    if 0.3 <= peaksPerSecond <= 3.5 then 1.0 else 0.5
  }

  function PowerScore(power: real): real
  {
    Min(1.0, power / PowerReference)
  }

  /** The weighted sum before clamping; each weight multiplies a sub-score. */
  function WeightedQuality(az: Analyzer, signal: seq<real>, peaks: seq<nat>): real
    requires az.fs > 0.0
    requires |peaks| >= 3 && |signal| > 0 && NoZeroInterval(peaks)
  {
    var rr := Intervals(peaks);
    var hr := RatesPerInterval(az, rr);
    var density := (|peaks| as real) / ((|signal| as real) / az.fs);
    0.3 * RegularityScore(az, rr)
      + 0.3 * RateScore(Median(hr))
      + 0.2 * DensityScore(density)
      + 0.2 * PowerScore(Variance(signal))
  }

  /** assess_signal_quality: 0.0 for fewer than two peaks or a flat lead, 0.3
      for a single interval, otherwise the clamped weighted sum. */
  function AssessSignalQuality(az: Analyzer, signal: seq<real>, peaks: seq<nat>): (q: real)
    requires az.fs > 0.0
    requires Assessable(signal, peaks)
    ensures 0.0 <= q <= 1.0
    ensures |peaks| < 2 ==> q == 0.0
    ensures |peaks| >= 2 && Variance(signal) < FlatLeadPower ==> q == 0.0
    ensures |peaks| == 2 && Variance(signal) >= FlatLeadPower ==> q == 0.3
  {
    if |peaks| < 2 then
      0.0
    else if Variance(signal) < FlatLeadPower then
      0.0
    else if |peaks| - 1 < 2 then
      0.3
    else
      Clamp01(WeightedQuality(az, signal, peaks))
  }

  /** A lead scores above zero exactly when it has at least two peaks and is
      not flat: the density and power terms alone contribute at least 0.1. */
  lemma QualityPositiveIff(az: Analyzer, signal: seq<real>, peaks: seq<nat>)
    requires az.fs > 0.0
    requires Assessable(signal, peaks)
    ensures AssessSignalQuality(az, signal, peaks) > 0.0 <==> |peaks| >= 2 && Variance(signal) >= FlatLeadPower
    ensures |peaks| >= 2 && Variance(signal) >= FlatLeadPower ==> AssessSignalQuality(az, signal, peaks) >= 0.1
  {
    if |peaks| >= 3 && Variance(signal) >= FlatLeadPower {
      var rr := Intervals(peaks);
      var hr := RatesPerInterval(az, rr);
      var density := (|peaks| as real) / ((|signal| as real) / az.fs);
      assert RateScore(Median(hr)) >= 0.0;
      assert DensityScore(density) >= 0.5;
      assert PowerScore(Variance(signal)) >= 0.0;
      assert WeightedQuality(az, signal, peaks) >= 0.1;
    }
  }

  /** A perfectly regular rhythm at a plausible rate, with a plausible peak
      density and a strong signal, scores the maximum 1.0 (given a square root
      that maps 0 to 0). */
  lemma RegularRhythmScoresOne(az: Analyzer, signal: seq<real>, peaks: seq<nat>, gap: real)
    requires az.fs > 0.0 && az.sqrt(0.0) == 0.0
    requires |peaks| >= 3 && |signal| > 0 && NoZeroInterval(peaks)
    requires gap > 0.0 && AllEqual(Intervals(peaks), gap)
    requires 30.0 <= 60.0 * az.fs / gap <= 200.0
    requires 0.3 <= (|peaks| as real) / ((|signal| as real) / az.fs) <= 3.5
    requires Variance(signal) >= PowerReference
    ensures AssessSignalQuality(az, signal, peaks) == 1.0
  {
    var rr := Intervals(peaks);
    ConstantHasZeroVariance(rr, gap);
    assert CoefficientOfVariation(az, rr) == 0.0;
    var hr := RatesPerInterval(az, rr);
    forall i | 0 <= i < |hr| ensures hr[i] == 60.0 * az.fs / gap {
      assert hr[i] == 60.0 / (gap / az.fs);
    }
    MedianOfConstant(hr, 60.0 * az.fs / gap);
  }

  // ---------------------------------------------------------------------------
  // The lead-priority scan
  // ---------------------------------------------------------------------------

  /** The recording: a 1-D single lead, or the samples × leads matrix given by
      its columns (`leads[k]` is `ecg_signal[:, k]`, so shape[1] is |leads|). */
  datatype EcgSignal = SingleLead(samples: seq<real>) | MultiLead(leads: seq<seq<real>>)

  /** (r_peaks, lead_used, lead_quality, fallback_triggered). */
  datatype Detection = Detection(peaks: seq<nat>, leadUsed: string, quality: real, fallbackTriggered: bool)

  /** The lead of priority rank `r` exists in the input. */
  predicate Present(leads: seq<seq<real>>, r: int)
    requires 0 <= r < |LeadPriority|
  {
    LeadPriority[r].index < |leads|
  }

  ghost function LeadPeaks(az: Analyzer, leads: seq<seq<real>>, r: int): seq<nat>
    requires 0 <= r < |LeadPriority| && Present(leads, r)
  {
    az.detectPeaks(leads[LeadPriority[r].index])
  }

  ghost function LeadQuality(az: Analyzer, leads: seq<seq<real>>, r: int): real
    requires WellBehaved(az)
    requires 0 <= r < |LeadPriority| && Present(leads, r)
  {
    var s := leads[LeadPriority[r].index];
    DetectorOutputAssessable(az, s);
    AssessSignalQuality(az, s, az.detectPeaks(s))
  }

  /** Lead II exists and is excellent: the scan stops at it. */
  ghost predicate EarlyExit(az: Analyzer, leads: seq<seq<real>>)
    requires WellBehaved(az)
  {
    Present(leads, 0) && LeadQuality(az, leads, 0) > EarlyExitQuality
  }

  /** No existing priority lead scores above zero. */
  ghost predicate NoUsableLead(az: Analyzer, leads: seq<seq<real>>)
    requires WellBehaved(az)
  {
    forall r :: 0 <= r < |LeadPriority| && Present(leads, r) ==> LeadQuality(az, leads, r) <= 0.0
  }

  /** The quality of the lead of each priority rank below `n`, scored as the
      scan scores it; the entry of an absent lead is 0.0 and is never
      consulted. */
  ghost function QualitiesBelow(az: Analyzer, leads: seq<seq<real>>, n: nat): (q: seq<real>)
    requires WellBehaved(az) && n <= |LeadPriority|
    ensures |q| == n
  {
    if n == 0 then []
    else QualitiesBelow(az, leads, n - 1) + [if Present(leads, n - 1) then LeadQuality(az, leads, n - 1) else 0.0]
  }

  /** Entry `k` of the qualities below `n` is the quality of rank `k`. */
  lemma {:induction false} QualitiesBelowAt(az: Analyzer, leads: seq<seq<real>>, n: nat, k: nat)
    requires WellBehaved(az) && k < n <= |LeadPriority| && Present(leads, k)
    ensures QualitiesBelow(az, leads, n)[k] == LeadQuality(az, leads, k)
    decreases n
  {
    if k < n - 1 {
      QualitiesBelowAt(az, leads, n - 1, k);
    }
  }

  /** The quality of every priority rank's lead. */
  ghost function Qualities(az: Analyzer, leads: seq<seq<real>>): (q: seq<real>)
    requires WellBehaved(az)
    ensures |q| == |LeadPriority|
    ensures forall r {:trigger LeadQuality(az, leads, r)} ::
      0 <= r < |LeadPriority| && Present(leads, r) ==> q[r] == LeadQuality(az, leads, r)
  {
    forall r | 0 <= r < |LeadPriority| && Present(leads, r)
      ensures QualitiesBelow(az, leads, |LeadPriority|)[r] == LeadQuality(az, leads, r)
    {
      QualitiesBelowAt(az, leads, |LeadPriority|, r);
    }
    QualitiesBelow(az, leads, |LeadPriority|)
  }

  /** Rank `w` is usable, at least as good as every existing lead of rank below
      `bound`, and strictly better than every existing lead tried before it
      (`q` gives each rank's quality). */
  predicate BestAmong(leads: seq<seq<real>>, q: seq<real>, w: int, bound: int)
    requires |q| == |LeadPriority|
  {
    && 0 <= w < |LeadPriority| && Present(leads, w) && q[w] > 0.0
    && (forall r :: 0 <= r < bound && r < |LeadPriority| && Present(leads, r) ==> q[r] <= q[w])
    && (forall r :: 0 <= r < w && Present(leads, r) ==> q[r] < q[w])
  }

  /** Some lead of rank 1 up to `bound` - 1 exists: a scan over ranks below
      `bound` evaluates at least one lead other than II. */
  predicate FallbackLeadBefore(leads: seq<seq<real>>, bound: int)
    requires 0 <= bound <= |LeadPriority|
  {
    bound > 1 && (Present(leads, bound - 1) || FallbackLeadBefore(leads, bound - 1))
  }

  /** The fallback flag after rank `i`: it latches once a lead other than II
      has been found. */
  lemma FallbackStep(leads: seq<seq<real>>, i: int)
    requires 0 <= i < |LeadPriority|
    ensures FallbackLeadBefore(leads, i + 1) == (FallbackLeadBefore(leads, i) || (i > 0 && Present(leads, i)))
  {
  }

  /** Some lead other than II exists, so a scan that does not stop at II evaluates it. */
  predicate FallbackLeadPresent(leads: seq<seq<real>>)
  {
    FallbackLeadBefore(leads, |LeadPriority|)
  }

  /** The detection a multi-lead scan must return: lead II when it is
      excellent; otherwise the earliest-ranked lead of maximal positive quality,
      flagged as a fallback whenever another lead was evaluated; and the empty
      "none" result when no lead scores above zero. */
  ghost predicate IsMultiLeadDetection(az: Analyzer, leads: seq<seq<real>>, d: Detection)
    requires WellBehaved(az)
  {
    if EarlyExit(az, leads) then
      d == Detection(LeadPeaks(az, leads, 0), PrimaryLead, LeadQuality(az, leads, 0), false)
    else if NoUsableLead(az, leads) then
      d == Detection([], "none", 0.0, true)
    else
      exists w :: IsWinner(az, leads, w, d)
  }

  /** `d` reports lead `w` as the best lead of the whole scan. */
  ghost predicate IsWinner(az: Analyzer, leads: seq<seq<real>>, w: int, d: Detection)
    requires WellBehaved(az)
  {
    && BestAmong(leads, Qualities(az, leads), w, |LeadPriority|)
    && d == Detection(LeadPeaks(az, leads, w), LeadPriority[w].name, LeadQuality(az, leads, w), FallbackLeadPresent(leads))
  }

  ghost predicate IsDetectionOf(az: Analyzer, input: EcgSignal, d: Detection)
    requires WellBehaved(az)
  {
    match input
    case SingleLead(s) =>
      DetectorOutputAssessable(az, s);
      d == Detection(az.detectPeaks(s), "unknown", AssessSignalQuality(az, s, az.detectPeaks(s)), false)
    case MultiLead(leads) =>
      IsMultiLeadDetection(az, leads, d)
  }

  lemma PriorityNames(r: int)
    requires 0 <= r < |LeadPriority|
    ensures LeadPriority[r].name == PrimaryLead <==> r == 0
    ensures LeadPriority[r].name != "none" && LeadPriority[r].name != "unknown"
  {
    var n := LeadPriority[r].name;
    assert n == "II" || n == "V1" || n == "V5" || n == "I" || n == "aVF";
    if r != 0 {
      assert n[0] != 'I' || |n| != 2;
    }
    assert n[0] != 'n' && n[0] != 'u';
  }

  /** What the scan knows after trying the ranks below `i`: `best` is the
      kept rank (the earliest of maximal positive quality so far), or -1 when
      no lead tried so far scored above zero. */
  predicate BestBefore(leads: seq<seq<real>>, q: seq<real>, best: int, i: int)
    requires |q| == |LeadPriority|
  {
    if best == -1 then
      forall r :: 0 <= r < i && r < |LeadPriority| && Present(leads, r) ==> q[r] <= 0.0
    else
      0 <= best < i && BestAmong(leads, q, best, i)
  }

  /** The quality the scan holds for the kept rank: 0.0 before any lead is kept. */
  function KeptQuality(q: seq<real>, best: int): real
    requires best == -1 || 0 <= best < |q|
  {
    if best == -1 then 0.0 else q[best]
  }

  /** One step of the scan, an absent lead: the kept rank stays. */
  lemma ScanSkip(leads: seq<seq<real>>, q: seq<real>, best: int, i: int)
    requires |q| == |LeadPriority| && 0 <= i < |LeadPriority| && !Present(leads, i)
    requires BestBefore(leads, q, best, i)
    ensures BestBefore(leads, q, best, i + 1)
  {
    if best != -1 {
      assert forall r :: 0 <= r < i + 1 && r < |LeadPriority| && Present(leads, r) ==> r < i;
    }
  }

  /** One step of the scan, a lead no better than the kept one: the kept rank
      stays. */
  lemma ScanKeep(leads: seq<seq<real>>, q: seq<real>, best: int, i: int)
    requires |q| == |LeadPriority| && 0 <= i < |LeadPriority| && Present(leads, i)
    requires BestBefore(leads, q, best, i)
    requires q[i] <= KeptQuality(q, best)
    ensures BestBefore(leads, q, best, i + 1)
  {
  }

  /** One step of the scan, a strictly better lead: it becomes the kept rank. */
  lemma ScanReplace(leads: seq<seq<real>>, q: seq<real>, best: int, i: int)
    requires |q| == |LeadPriority| && 0 <= i < |LeadPriority| && Present(leads, i)
    requires BestBefore(leads, q, best, i)
    requires q[i] > KeptQuality(q, best)
    ensures BestBefore(leads, q, i, i + 1)
  {
    var kept := KeptQuality(q, best);
    assert kept >= 0.0;
    assert forall r :: 0 <= r < i && Present(leads, r) ==> q[r] <= kept;
  }

  /** A scan that stops at an excellent lead II reports it, without the
      fallback flag. */
  lemma EarlyExitOutcome(az: Analyzer, leads: seq<seq<real>>)
    requires WellBehaved(az) && EarlyExit(az, leads)
    ensures IsMultiLeadDetection(az, leads, Detection(LeadPeaks(az, leads, 0), PrimaryLead, LeadQuality(az, leads, 0), false))
  {
  }

  /** A scan that runs past the last rank without stopping ends with the
      specified detection: the kept lead with the fallback flag, or "none". */
  lemma ScanOutcomes(az: Analyzer, leads: seq<seq<real>>, q: seq<real>, rank: int,
                     peaks: Option<seq<nat>>, quality: real, name: string, fallback: bool)
    requires WellBehaved(az) && q == Qualities(az, leads)
    requires ScanState(az, leads, q, |LeadPriority|, rank, peaks, quality, name, fallback)
    ensures peaks.Some? ==> IsMultiLeadDetection(az, leads, Detection(peaks.value, name, quality, fallback))
    ensures peaks.None? ==> IsMultiLeadDetection(az, leads, Detection([], "none", 0.0, true))
  {
    if peaks.Some? {
      assert IsWinner(az, leads, rank, Detection(peaks.value, name, quality, fallback));
    }
  }

  /** Peak detection and quality scoring of one lead. */
  method EvaluateLead(az: Analyzer, signal: seq<real>) returns (peaks: seq<nat>, quality: real)
    requires WellBehaved(az)
    ensures peaks == az.detectPeaks(signal) && Assessable(signal, peaks)
    ensures quality == AssessSignalQuality(az, signal, peaks)
  {
    peaks := az.detectPeaks(signal);
    DetectorOutputAssessable(az, signal);
    quality := AssessSignalQuality(az, signal, peaks);
  }

  /** Evaluation of the lead of priority rank `r`. */
  method EvaluateRank(az: Analyzer, leads: seq<seq<real>>, r: int) returns (peaks: seq<nat>, quality: real)
    requires WellBehaved(az) && 0 <= r < |LeadPriority| && Present(leads, r)
    ensures peaks == LeadPeaks(az, leads, r) && quality == LeadQuality(az, leads, r)
  {
    peaks, quality := EvaluateLead(az, leads[LeadPriority[r].index]);
  }

  /** detect_r_peaks: scan LEAD_PRIORITY, skipping absent leads, keeping the
      best-so-far lead (replaced only on strictly greater quality), stopping
      early at an excellent lead II and latching the fallback flag once a lead
      other than II has been evaluated. */
  method DetectRPeaks(az: Analyzer, input: EcgSignal) returns (d: Detection)
    requires WellBehaved(az)
    ensures IsDetectionOf(az, input, d)
  {
    match input
    case SingleLead(samples) =>
      var peaks, quality := EvaluateLead(az, samples);
      d := Detection(peaks, "unknown", quality, false);
    case MultiLead(leads) =>
      d := ScanLeads(az, leads);
  }

  /** The kept lead after the ranks below `i`: `rank` is the kept rank as in
      BestBefore, and the kept peaks, quality and lead name are that rank's,
      or none and 0.0 while nothing is kept. */
  ghost predicate KeptLead(az: Analyzer, leads: seq<seq<real>>, q: seq<real>, i: int, rank: int,
                           peaks: Option<seq<nat>>, quality: real, name: string)
    requires WellBehaved(az) && |q| == |LeadPriority|
  {
    && BestBefore(leads, q, rank, i)
    && (peaks.None? <==> rank == -1)
    && quality == KeptQuality(q, rank)
    && (rank != -1 ==> peaks == Some(LeadPeaks(az, leads, rank)) && name == LeadPriority[rank].name)
  }

  /** The loop body of detect_r_peaks for an existing lead of rank `i`: the
      lead's peaks and quality, and the kept lead after comparing with it
      (replaced only on strictly greater quality). */
  method ConsiderRank(az: Analyzer, leads: seq<seq<real>>, ghost q: seq<real>, i: int, ghost bestRank: int,
                      bestPeaks: Option<seq<nat>>, bestQuality: real, bestLeadName: string)
    returns (peaks: seq<nat>, quality: real, ghost rank: int,
             keptPeaks: Option<seq<nat>>, keptQuality: real, keptName: string)
    requires WellBehaved(az) && q == Qualities(az, leads)
    requires 0 <= i < |LeadPriority| && Present(leads, i)
    requires KeptLead(az, leads, q, i, bestRank, bestPeaks, bestQuality, bestLeadName)
    ensures peaks == LeadPeaks(az, leads, i) && quality == LeadQuality(az, leads, i)
    ensures KeptLead(az, leads, q, i + 1, rank, keptPeaks, keptQuality, keptName)
  {
    peaks, quality := EvaluateRank(az, leads, i);
    if quality > bestQuality {
      ScanReplace(leads, q, bestRank, i);
      rank, keptPeaks, keptQuality, keptName := i, Some(peaks), quality, LeadPriority[i].name;
    } else {
      ScanKeep(leads, q, bestRank, i);
      rank, keptPeaks, keptQuality, keptName := bestRank, bestPeaks, bestQuality, bestLeadName;
    }
  }

  /** What the scan knows before rank `i`: it has not stopped at lead II, the
      fallback flag records whether a lead other than II was evaluated, and
      the kept lead is as in KeptLead. */
  ghost predicate ScanState(az: Analyzer, leads: seq<seq<real>>, q: seq<real>, i: int, rank: int,
                            peaks: Option<seq<nat>>, quality: real, name: string, fallback: bool)
    requires WellBehaved(az) && |q| == |LeadPriority|
  {
    && 0 <= i <= |LeadPriority|
    && (i > 0 ==> !EarlyExit(az, leads))
    && fallback == FallbackLeadBefore(leads, i)
    && KeptLead(az, leads, q, i, rank, peaks, quality, name)
  }

  /** One pass of the loop of detect_r_peaks, at rank `i`: an absent lead is
      skipped; an existing one is evaluated and compared with the kept lead;
      the scan stops with an excellent lead II, and otherwise the fallback
      flag is set for any lead other than II. */
  method ScanRank(az: Analyzer, leads: seq<seq<real>>, ghost q: seq<real>, i: int, ghost rank: int,
                  peaks: Option<seq<nat>>, quality: real, name: string, fallback: bool)
    returns (exit: Option<Detection>, ghost rank': int,
             peaks': Option<seq<nat>>, quality': real, name': string, fallback': bool)
    requires WellBehaved(az) && q == Qualities(az, leads) && i < |LeadPriority|
    requires ScanState(az, leads, q, i, rank, peaks, quality, name, fallback)
    ensures exit.Some? ==>
              && i == 0 && EarlyExit(az, leads)
              && exit.value == Detection(LeadPeaks(az, leads, 0), PrimaryLead, LeadQuality(az, leads, 0), false)
    ensures exit.None? ==> ScanState(az, leads, q, i + 1, rank', peaks', quality', name', fallback')
  {
    var lead := LeadPriority[i];
    FallbackStep(leads, i);
    exit, rank', peaks', quality', name', fallback' := None, rank, peaks, quality, name, fallback;
    if lead.index >= |leads| {
      ScanSkip(leads, q, rank, i);
    } else {
      var leadPeaks, leadQuality;
      leadPeaks, leadQuality, rank', peaks', quality', name' :=
        ConsiderRank(az, leads, q, i, rank, peaks, quality, name);
      PriorityNames(i);
      if lead.name == PrimaryLead && leadQuality > EarlyExitQuality {
        exit := Some(Detection(leadPeaks, lead.name, leadQuality, false));
      } else if lead.name != PrimaryLead {
        fallback' := true;
      }
    }
  }

  /** The multi-lead branch of detect_r_peaks. */
  method ScanLeads(az: Analyzer, leads: seq<seq<real>>) returns (d: Detection)
    requires WellBehaved(az)
    ensures IsMultiLeadDetection(az, leads, d)
  {
    var bestPeaks: Option<seq<nat>> := None;
    var bestQuality := 0.0;
    var bestLeadName := "";
    ghost var bestRank := -1;
    ghost var q := Qualities(az, leads);
    var fallbackTriggered := false;
    var i := 0;
    while i < |LeadPriority|
      invariant ScanState(az, leads, q, i, bestRank, bestPeaks, bestQuality, bestLeadName, fallbackTriggered)
    {
      var exit;
      exit, bestRank, bestPeaks, bestQuality, bestLeadName, fallbackTriggered :=
        ScanRank(az, leads, q, i, bestRank, bestPeaks, bestQuality, bestLeadName, fallbackTriggered);
      if exit.Some? {
        EarlyExitOutcome(az, leads);
        return exit.value;
      }
      i := i + 1;
    }
    ScanOutcomes(az, leads, q, bestRank, bestPeaks, bestQuality, bestLeadName, fallbackTriggered);
    if bestPeaks.Some? {
      d := Detection(bestPeaks.value, bestLeadName, bestQuality, fallbackTriggered);
    } else {
      d := Detection([], "none", 0.0, true);
    }
  }

  /** Two ranks that are both best of the whole scan are the same rank. */
  lemma BestIsUnique(leads: seq<seq<real>>, q: seq<real>, w1: int, w2: int)
    requires |q| == |LeadPriority|
    requires BestAmong(leads, q, w1, |LeadPriority|) && BestAmong(leads, q, w2, |LeadPriority|)
    ensures w1 == w2
  {
  }

  /** The scan's outcome is determined: two detections that both meet the
      specification are equal (the tie-break leaves no choice). */
  lemma DetectionIsUnique(az: Analyzer, input: EcgSignal, d1: Detection, d2: Detection)
    requires WellBehaved(az)
    requires IsDetectionOf(az, input, d1) && IsDetectionOf(az, input, d2)
    ensures d1 == d2
  {
    if input.MultiLead? {
      var leads := input.leads;
      if !EarlyExit(az, leads) && !NoUsableLead(az, leads) {
        var w1 :| IsWinner(az, leads, w1, d1);
        var w2 :| IsWinner(az, leads, w2, d2);
        BestIsUnique(leads, Qualities(az, leads), w1, w2);
      }
    }
  }

  /** For a matrix input the fallback flag is set exactly when the scan did not
      stop at an excellent lead II; in particular any lead other than II comes
      with the flag set. */
  lemma FallbackIffNoEarlyExit(az: Analyzer, leads: seq<seq<real>>, d: Detection)
    requires WellBehaved(az)
    requires IsMultiLeadDetection(az, leads, d)
    ensures d.fallbackTriggered <==> !EarlyExit(az, leads)
    ensures d.leadUsed != PrimaryLead ==> d.fallbackTriggered
  {
    if !EarlyExit(az, leads) && !NoUsableLead(az, leads) {
      var w :| IsWinner(az, leads, w, d);
      assert |leads| > 0;
      assert Present(leads, 3);
      assert FallbackLeadBefore(leads, 4);
    }
  }

  /** The lead of rank `r` has at least two peaks and is not flat. */
  ghost predicate Usable(az: Analyzer, leads: seq<seq<real>>, r: int)
    requires 0 <= r < |LeadPriority| && Present(leads, r)
  {
    var s := leads[LeadPriority[r].index];
    |az.detectPeaks(s)| >= 2 && |s| > 0 && Variance(s) >= FlatLeadPower
  }

  lemma UsableIffPositive(az: Analyzer, leads: seq<seq<real>>, r: int)
    requires WellBehaved(az)
    requires 0 <= r < |LeadPriority| && Present(leads, r)
    ensures LeadQuality(az, leads, r) > 0.0 <==> Usable(az, leads, r)
  {
    var s := leads[LeadPriority[r].index];
    DetectorOutputAssessable(az, s);
    QualityPositiveIff(az, s, az.detectPeaks(s));
  }

  /** The "none" result comes back exactly when every existing priority lead
      has fewer than two peaks or is flat; any other result carries a positive
      quality, so a flat lead is never selected. */
  lemma NoneIffNoLeadUsable(az: Analyzer, leads: seq<seq<real>>, d: Detection)
    requires WellBehaved(az)
    requires IsMultiLeadDetection(az, leads, d)
    ensures d.leadUsed == "none" <==>
      forall r :: 0 <= r < |LeadPriority| && Present(leads, r) ==> !Usable(az, leads, r)
    ensures d.leadUsed != "none" ==> 0.0 < d.quality <= 1.0
  {
    forall r | 0 <= r < |LeadPriority| && Present(leads, r)
      ensures LeadQuality(az, leads, r) > 0.0 <==> Usable(az, leads, r)
    {
      UsableIffPositive(az, leads, r);
    }
    PriorityNames(0);
    if !EarlyExit(az, leads) && !NoUsableLead(az, leads) {
      var w :| IsWinner(az, leads, w, d);
      PriorityNames(w);
    }
  }

  /** Whatever lead is chosen, the reported peaks keep the find_peaks spacing. */
  lemma DetectedPeaksSpaced(az: Analyzer, input: EcgSignal, d: Detection)
    requires WellBehaved(az)
    requires IsDetectionOf(az, input, d)
    ensures PeaksSpaced(d.peaks, MinPeakDistance(az.fs))
  {
    match input
    case SingleLead(s) =>
      DetectorOutputAssessable(az, s);
    case MultiLead(leads) =>
      if EarlyExit(az, leads) {
        DetectorOutputAssessable(az, leads[LeadPriority[0].index]);
      } else if !NoUsableLead(az, leads) {
        var w :| IsWinner(az, leads, w, d);
        DetectorOutputAssessable(az, leads[LeadPriority[w].index]);
      }
  }

  // ---------------------------------------------------------------------------
  // Rate summary
  // ---------------------------------------------------------------------------

  datatype RateSummary = RateSummary(bpm: real, rrIntervalsMs: seq<real>)

  /** (p[i+1] - p[i]) / fs * 1000 for each consecutive pair of peaks. */
  function RRIntervalsMs(az: Analyzer, peaks: seq<nat>): (ms: seq<real>)
    requires az.fs > 0.0 && |peaks| >= 1
    ensures |ms| == |peaks| - 1
  {
    seq(|peaks| - 1, i requires 0 <= i < |peaks| - 1 => ((peaks[i + 1] as real - peaks[i] as real) / az.fs) * 1000.0)
  }

  /** 60000 / interval_ms for each interval. */
  function RatesFromMs(ms: seq<real>): (hr: seq<real>)
    requires forall i :: 0 <= i < |ms| ==> ms[i] != 0.0
    ensures |hr| == |ms|
  {
    seq(|ms|, i requires 0 <= i < |ms| => 60000.0 / ms[i])
  }

  lemma IntervalsMsNonZero(az: Analyzer, peaks: seq<nat>)
    requires az.fs > 0.0 && |peaks| >= 1 && NoZeroInterval(peaks)
    ensures forall i :: 0 <= i < |peaks| - 1 ==> RRIntervalsMs(az, peaks)[i] != 0.0
  {
    forall i | 0 <= i < |peaks| - 1 ensures RRIntervalsMs(az, peaks)[i] != 0.0 {
      var g := peaks[i + 1] as real - peaks[i] as real;
      assert g != 0.0;
      assert g / az.fs != 0.0;
    }
  }

  /** calculate_bpm: the median instantaneous rate and the RR intervals in ms;
      (60.0, []) for fewer than two peaks. */
  function CalculateBpm(az: Analyzer, peaks: seq<nat>): (r: RateSummary)
    requires az.fs > 0.0 && NoZeroInterval(peaks)
    ensures |peaks| < 2 ==> r == RateSummary(DefaultBpm, [])
    ensures |peaks| >= 2 ==> |r.rrIntervalsMs| == |peaks| - 1
  {
    if |peaks| < 2 then
      RateSummary(DefaultBpm, [])
    else
      var ms := RRIntervalsMs(az, peaks);
      IntervalsMsNonZero(az, peaks);
      RateSummary(Median(RatesFromMs(ms)), ms)
  }

  /** get_beat_timestamps: each peak index divided by fs, in seconds. */
  function GetBeatTimestamps(az: Analyzer, peaks: seq<nat>): (ts: seq<real>)
    requires az.fs > 0.0
    ensures |ts| == |peaks|
  {
    seq(|peaks|, i requires 0 <= i < |peaks| => peaks[i] as real / az.fs)
  }

  lemma DivideDifference(a: real, b: real, c: real)
    requires c != 0.0
    ensures (b - a) / c == b / c - a / c
  {
  }

  /** The two outputs agree: each RR interval is the gap between consecutive
      beat timestamps, in milliseconds. */
  lemma IntervalsMatchTimestamps(az: Analyzer, peaks: seq<nat>)
    requires az.fs > 0.0 && |peaks| >= 2 && NoZeroInterval(peaks)
    ensures CalculateBpm(az, peaks).rrIntervalsMs == RRIntervalsMs(az, peaks)
    ensures forall i :: 0 <= i < |peaks| - 1 ==>
      RRIntervalsMs(az, peaks)[i] == (GetBeatTimestamps(az, peaks)[i + 1] - GetBeatTimestamps(az, peaks)[i]) * 1000.0
  {
    var ts := GetBeatTimestamps(az, peaks);
    var ms := RRIntervalsMs(az, peaks);
    forall i | 0 <= i < |peaks| - 1 ensures ms[i] == (ts[i + 1] - ts[i]) * 1000.0 {
      DivideDifference(peaks[i] as real, peaks[i + 1] as real, az.fs);
    }
  }

  /** The instantaneous rate of an interval of `gap` samples is 60 * fs / gap. */
  lemma RateOfGap(fs: real, gap: real)
    requires fs > 0.0 && gap > 0.0
    ensures (gap / fs) * 1000.0 != 0.0
    ensures 60000.0 / ((gap / fs) * 1000.0) == 60.0 * fs / gap
  {
    var ms := (gap / fs) * 1000.0;
    assert ms == 1000.0 * gap / fs;
    assert ms * (60.0 * fs / gap) == 60000.0;
  }

  lemma DivideByLargerIsSmaller(n: real, a: real, b: real)
    requires n > 0.0 && 0.0 < a <= b
    ensures 0.0 < n / b <= n / a
  {
    var x := n / a;
    var y := n / b;
    assert y * b == x * a;
    assert y * a <= y * b;
  }

  /** The rates of the intervals: 60 * fs / gap for each gap of the peaks. */
  lemma RatesOfPeaks(az: Analyzer, peaks: seq<nat>)
    requires az.fs > 0.0 && |peaks| >= 2 && NoZeroInterval(peaks)
    requires forall i :: 0 <= i < |peaks| - 1 ==> peaks[i] < peaks[i + 1]
    ensures forall i :: 0 <= i < |peaks| - 1 ==> RRIntervalsMs(az, peaks)[i] != 0.0
    ensures forall i :: 0 <= i < |peaks| - 1 ==>
      RatesFromMs(RRIntervalsMs(az, peaks))[i] == 60.0 * az.fs / (peaks[i + 1] as real - peaks[i] as real)
  {
    IntervalsMsNonZero(az, peaks);
    forall i | 0 <= i < |peaks| - 1
      ensures RatesFromMs(RRIntervalsMs(az, peaks))[i] == 60.0 * az.fs / (peaks[i + 1] as real - peaks[i] as real)
    {
      RateOfGap(az.fs, peaks[i + 1] as real - peaks[i] as real);
    }
  }

  /** Beats at least `lo` samples apart cap the reported rate at 60 * fs / lo;
      the rate is always positive. */
  lemma BpmAtMost(az: Analyzer, peaks: seq<nat>, lo: real)
    requires az.fs > 0.0 && |peaks| >= 2 && lo > 0.0
    requires forall i :: 0 <= i < |peaks| - 1 ==> lo <= peaks[i + 1] as real - peaks[i] as real
    ensures NoZeroInterval(peaks)
    ensures 0.0 < CalculateBpm(az, peaks).bpm <= 60.0 * az.fs / lo
  {
    RatesAtMost(az, peaks, lo);
    var hr := RatesFromMs(RRIntervalsMs(az, peaks));
    MedianAtMost(hr, 60.0 * az.fs / lo);
    MedianAbove(hr, 0.0);
  }

  /** Every interval rate of beats at least `lo` samples apart lies in (0, 60 * fs / lo]. */
  lemma RatesAtMost(az: Analyzer, peaks: seq<nat>, lo: real)
    requires az.fs > 0.0 && |peaks| >= 2 && lo > 0.0
    requires forall i :: 0 <= i < |peaks| - 1 ==> lo <= peaks[i + 1] as real - peaks[i] as real
    ensures NoZeroInterval(peaks)
    ensures var hr := RatesFromMs(RRIntervalsMs(az, peaks));
      |hr| == |peaks| - 1 && forall i :: 0 <= i < |hr| ==> 0.0 < hr[i] <= 60.0 * az.fs / lo
  {
    IntervalsMsNonZero(az, peaks);
    var hr := RatesFromMs(RRIntervalsMs(az, peaks));
    forall i | 0 <= i < |hr| ensures 0.0 < hr[i] <= 60.0 * az.fs / lo {
      GapRateAtMost(az.fs, peaks[i + 1] as real - peaks[i] as real, lo);
    }
  }

  /** The rate of one gap of at least `lo` samples lies in (0, 60 * fs / lo]. */
  lemma GapRateAtMost(fs: real, gap: real, lo: real)
    requires fs > 0.0 && 0.0 < lo <= gap
    ensures (gap / fs) * 1000.0 != 0.0
    ensures 0.0 < 60000.0 / ((gap / fs) * 1000.0) <= 60.0 * fs / lo
  {
    RateOfGap(fs, gap);
    DivideByLargerIsSmaller(60.0 * fs, lo, gap);
  }

  /** Beats at most `hi` samples apart keep the reported rate at or above 60 * fs / hi. */
  lemma BpmAtLeast(az: Analyzer, peaks: seq<nat>, hi: real)
    requires az.fs > 0.0 && |peaks| >= 2
    requires forall i :: 0 <= i < |peaks| - 1 ==> peaks[i] < peaks[i + 1] && peaks[i + 1] as real - peaks[i] as real <= hi
    ensures NoZeroInterval(peaks) && hi > 0.0
    ensures 60.0 * az.fs / hi <= CalculateBpm(az, peaks).bpm
  {
    assert peaks[0] < peaks[1];
    RatesAtLeast(az, peaks, hi);
    MedianAtLeast(RatesFromMs(RRIntervalsMs(az, peaks)), 60.0 * az.fs / hi);
  }

  /** Every interval rate of beats at most `hi` samples apart is at least 60 * fs / hi. */
  lemma RatesAtLeast(az: Analyzer, peaks: seq<nat>, hi: real)
    requires az.fs > 0.0 && |peaks| >= 2 && hi > 0.0
    requires forall i :: 0 <= i < |peaks| - 1 ==> peaks[i] < peaks[i + 1] && peaks[i + 1] as real - peaks[i] as real <= hi
    ensures NoZeroInterval(peaks)
    ensures var hr := RatesFromMs(RRIntervalsMs(az, peaks));
      |hr| == |peaks| - 1 && forall i :: 0 <= i < |hr| ==> 60.0 * az.fs / hi <= hr[i]
  {
    IntervalsMsNonZero(az, peaks);
    var hr := RatesFromMs(RRIntervalsMs(az, peaks));
    forall i | 0 <= i < |hr| ensures 60.0 * az.fs / hi <= hr[i] {
      GapRateAtLeast(az.fs, peaks[i + 1] as real - peaks[i] as real, hi);
    }
  }

  /** The rate of one gap of at most `hi` samples is at least 60 * fs / hi. */
  lemma GapRateAtLeast(fs: real, gap: real, hi: real)
    requires fs > 0.0 && 0.0 < gap <= hi
    ensures (gap / fs) * 1000.0 != 0.0
    ensures 60.0 * fs / hi <= 60000.0 / ((gap / fs) * 1000.0)
  {
    RateOfGap(fs, gap);
    DivideByLargerIsSmaller(60.0 * fs, gap, hi);
  }

  /** A regular rhythm of `gap` samples per beat reports exactly 60 * fs / gap BPM. */
  lemma RegularRhythmBpm(az: Analyzer, peaks: seq<nat>, gap: real)
    requires az.fs > 0.0 && |peaks| >= 2 && gap > 0.0
    requires forall i :: 0 <= i < |peaks| - 1 ==> peaks[i + 1] as real - peaks[i] as real == gap
    ensures NoZeroInterval(peaks)
    ensures CalculateBpm(az, peaks).bpm == 60.0 * az.fs / gap
  {
    BpmAtMost(az, peaks, gap);
    BpmAtLeast(az, peaks, gap);
  }

  /** The find_peaks spacing caps the reported rate: peaks at least
      MinPeakDistance(fs) samples apart give at most 60 * fs / MinPeakDistance(fs)
      BPM (300 BPM at 400 Hz). */
  lemma SpacingCapsBpm(az: Analyzer, peaks: seq<nat>)
    requires az.fs > 0.0 && |peaks| >= 2 && MinPeakDistance(az.fs) > 0
    requires PeaksSpaced(peaks, MinPeakDistance(az.fs))
    ensures NoZeroInterval(peaks)
    ensures 0.0 < CalculateBpm(az, peaks).bpm <= 60.0 * az.fs / MinPeakDistance(az.fs) as real
  {
    BpmAtMost(az, peaks, MinPeakDistance(az.fs) as real);
  }

  /** The RR intervals add up to the span from the first to the last beat. */
  lemma {:induction false} IntervalsSumToSpan(az: Analyzer, peaks: seq<nat>)
    requires az.fs > 0.0 && |peaks| >= 1
    ensures Sum(RRIntervalsMs(az, peaks)) == ((peaks[|peaks| - 1] as real - peaks[0] as real) / az.fs) * 1000.0
  {
    var ms := RRIntervalsMs(az, peaks);
    if |peaks| == 1 {
      assert ms == [];
    } else {
      var init := peaks[..|peaks| - 1];
      IntervalsSumToSpan(az, init);
      assert RRIntervalsMs(az, init) == ms[..|ms| - 1];
      var a := peaks[0] as real;
      var b := peaks[|peaks| - 2] as real;
      var c := peaks[|peaks| - 1] as real;
      DivideDifference(a, b, az.fs);
      DivideDifference(b, c, az.fs);
      DivideDifference(a, c, az.fs);
    }
  }

  // ---------------------------------------------------------------------------
  // analyze
  // ---------------------------------------------------------------------------

  datatype AnalysisReport = AnalysisReport(
    bpm: real,
    rrIntervalsMs: seq<real>,
    beatTimestamps: seq<real>,
    rPeakCount: nat,
    leadUsed: string,
    leadQuality: real,
    fallbackTriggered: bool)

  /** The report built from one detection (before rounding for output). */
  function Report(az: Analyzer, d: Detection): (r: AnalysisReport)
    requires az.fs > 0.0 && NoZeroInterval(d.peaks)
    ensures r.rPeakCount == |d.peaks| == |r.beatTimestamps|
    ensures |d.peaks| < 2 ==> r.bpm == DefaultBpm && r.rrIntervalsMs == []
    ensures |d.peaks| >= 2 ==> |r.rrIntervalsMs| == |d.peaks| - 1
    ensures r.leadUsed == d.leadUsed && r.leadQuality == d.quality && r.fallbackTriggered == d.fallbackTriggered
  {
    var rate := CalculateBpm(az, d.peaks);
    AnalysisReport(rate.bpm, rate.rrIntervalsMs, GetBeatTimestamps(az, d.peaks), |d.peaks|,
                   d.leadUsed, d.quality, d.fallbackTriggered)
  }

  /** analyze: detection followed by the rate summary of the chosen peaks. */
  method Analyze(az: Analyzer, input: EcgSignal) returns (report: AnalysisReport)
    requires WellBehaved(az)
    ensures exists d :: (IsDetectionOf(az, input, d) && PeaksSpaced(d.peaks, MinPeakDistance(az.fs))
      && report == Report(az, d))
    ensures report.rPeakCount == |report.beatTimestamps|
    ensures report.rPeakCount < 2 ==> report.bpm == DefaultBpm && report.rrIntervalsMs == []
  {
    var d := DetectRPeaks(az, input);
    DetectedPeaksSpaced(az, input, d);
    var rate := CalculateBpm(az, d.peaks);
    var timestamps := GetBeatTimestamps(az, d.peaks);
    report := AnalysisReport(rate.bpm, rate.rrIntervalsMs, timestamps, |d.peaks|,
                             d.leadUsed, d.quality, d.fallbackTriggered);
  }
}
