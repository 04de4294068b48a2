# HoloHuman XR ECG: the decision logic around the ECG pipeline

This project models the deterministic decision code of the HoloHuman XR ECG
system in Dafny and proves properties of it. The system detects heartbeats
in a 12-lead ECG, maps the diagnosed conditions onto ten anatomical regions
of a VR heart, explains the result through a language model with built-in
fallbacks, and shows all of it in Unity.

The modules follow the program's own files.

- `HeartRate` (heart_rate.dfy) is the heartbeat detector with multi-lead
  fallback.
  - The signal-quality scorer.
  - The scan over the lead priority list II, V1, V5, I, aVF. It skips
    missing leads, keeps the best lead on strictly greater quality, stops
    early at an excellent lead II, and latches the fallback flag.
  - The rate summary (RR intervals, median BPM, beat timestamps) and the
    combined analysis report.
  - The scan is an imperative method proved against a declarative
    description of the detection it must return.
- `Stats` (stats.dfy) holds numpy's population mean, variance and median
  over reals. The median is defined over an insertion sort.
- `RegionMapper` (region_mapper.dfy) is the heart region mapper.
  - The severity-to-colour ramp.
  - The per-region severity: a maximum, not a sum.
  - The list of affecting conditions.
  - The activation delay, where the last likely abnormal condition wins.
  - The health status of all ten regions.
  - The stable sort of the activation sequence.
- `PyText` (py_text.dfy) holds the Python string operations the backend
  uses: `find`, slicing with negative indices, `strip`, `lower`, and a
  one-character `replace`.
- `LlmResponse` (llm_response.dfy) covers the code-fence stripping that both
  language-model modules apply before decoding JSON, and the truthiness test
  on the decoded value.
- `MedicalInterpreter` (interpreter.dfy) is the patient-facing interpreter.
  It uses the language model's reply when it is usable, and otherwise a
  fallback from a fixed table: default entry, most affected region,
  highlight list.
- `ClinicalSupport` (clinical.dfy) is the clinical decision-support module.
  - The mode check of `analyze`.
  - The clinical-expert fallback: the work-up split, referrals and emphasis.
  - The storytelling fallback: focus region, narrative choice and severity
    bands.
  - The legacy entry point.
- `EcgData` (ecg_data.dfy) holds the Unity helpers over the analysis
  records: readable names, severity colours, RGB conversion, and the
  healthy, normal-range, category, wide-QRS and prolonged-PR predicates.
- `Timeline` (timeline.dfy) is the timeline controller, a class.
  - The nearest-beat search.
  - Marker highlighting, which works in place on an array of marker colours.
  - The pending-beat and debounce handling, the jump guard, and beat-marker
    creation.
  - The slider, whose writes, by the user or by the controller itself, run
    the registered value-changed listener when the value changes.
- `RegionLookup` (region_lookup.dfy) is the Unity region registry, a class
  over a map of marker objects.
  - Insert-if-absent registration.
  - The count of missing required regions.
  - Lookup and position.
  - The update and reset of every marker, which change the marker objects
    in place.
- `Wrappers` (wrappers.dfy) holds `Option` and `Result`, used for Python's
  `None` and exceptions and C#'s `null`.

Numbers are `real` throughout. The model states its properties on exact
values, before any rounding (see "Left out").

## Model

| member | source | states |
|---|---|---|
| HeartRate.DetectorOutputAssessable | Backend/ecg_heartrate_analyzer.py:106-111 | peaks from a detector that keeps the find_peaks contract are spaced by int(0.2·fs), and the scorer can be applied to them (no zero RR interval, non-empty lead) |
| Stats.Clamp01 | Backend/ecg_heartrate_analyzer.py:84 | the result is in [0, 1], and a value already in [0, 1] is returned unchanged; the one clamp also serves np.clip in heart_region_mapper.py:109 and Mathf.Clamp01 in CardiacRegionMarker.cs:89 |
| HeartRate.Intervals | Backend/ecg_heartrate_analyzer.py:47 | np.diff of n peaks gives n − 1 RR intervals |
| HeartRate.RegularityScore | Backend/ecg_heartrate_analyzer.py:51-56 | the regularity score max(0, 1 − cv) is never negative |
| HeartRate.RatesPerInterval | Backend/ecg_heartrate_analyzer.py:59 | there is one instantaneous rate per RR interval |
| HeartRate.RateScore | Backend/ecg_heartrate_analyzer.py:62-67 | 1.0 exactly for a median rate in [30, 200]; 0.5 exactly for [20, 30) or (200, 250]; 0.0 exactly outside [20, 250] |
| HeartRate.DensityScore | Backend/ecg_heartrate_analyzer.py:70-74 | 1.0 exactly for 0.3 to 3.5 peaks per second, and 0.5 exactly otherwise |
| HeartRate.AssessSignalQuality | Backend/ecg_heartrate_analyzer.py:27-84 | quality is in [0, 1]; it is 0.0 for fewer than two peaks and for a flat lead (variance < 0.001); it is 0.3 for exactly two peaks on a live lead |
| HeartRate.QualityPositiveIff | Backend/ecg_heartrate_analyzer.py:38-84 | quality is positive if and only if there are at least two peaks and the lead is not flat; a positive quality is at least 0.1 |
| HeartRate.RegularRhythmScoresOne | Backend/ecg_heartrate_analyzer.py:51-84 | a perfectly regular rhythm with a rate in [30, 200], a density in [0.3, 3.5] and a variance of at least 0.1 scores exactly 1.0 |
| HeartRate.Qualities | Backend/ecg_heartrate_analyzer.py:141-151 | entry r is the quality the scan computes for the lead of priority rank r, for every rank present in the input |
| HeartRate.FallbackStep | Backend/ecg_heartrate_analyzer.py:164-166 | after rank i the fallback flag is the flag before it, or-ed with "rank i is a present lead other than II": it latches and never resets |
| HeartRate.PriorityNames | Backend/ecg_heartrate_analyzer.py:12-18 | only rank 0 of the priority list is named "II", and no priority lead is named "none" or "unknown" |
| HeartRate.ScanSkip | Backend/ecg_heartrate_analyzer.py:142-143 | skipping a lead missing from the input keeps the best-so-far invariant |
| HeartRate.ScanKeep | Backend/ecg_heartrate_analyzer.py:154 | a lead whose quality does not exceed the kept quality leaves the best lead as it was |
| HeartRate.ScanReplace | Backend/ecg_heartrate_analyzer.py:154-158 | a lead with strictly greater quality becomes the best lead |
| HeartRate.EarlyExitOutcome | Backend/ecg_heartrate_analyzer.py:161-162 | when lead II is present and scores above 0.8, the detection is (II's peaks, "II", its quality, false) |
| HeartRate.ScanOutcomes | Backend/ecg_heartrate_analyzer.py:168-173 | once every rank has been tried, the kept lead (or the empty "none" result with fallback true) is the detection the specification requires |
| HeartRate.EvaluateLead | Backend/ecg_heartrate_analyzer.py:145-151 | the peaks are the detector's peaks for the lead, and the quality is the scorer's quality for them |
| HeartRate.EvaluateRank | Backend/ecg_heartrate_analyzer.py:141-151 | evaluating priority rank r yields that lead's peaks and quality |
| HeartRate.ConsiderRank | Backend/ecg_heartrate_analyzer.py:145-158 | one step of the best-so-far update: the lead is evaluated, and the kept lead is the earliest one of maximal positive quality among the ranks tried |
| HeartRate.ScanRank | Backend/ecg_heartrate_analyzer.py:141-166 | one iteration of the scan: it exits only at rank 0 when II is excellent, and otherwise it keeps the scan invariant (best lead, fallback flag) for the next rank |
| HeartRate.ScanLeads | Backend/ecg_heartrate_analyzer.py:134-173 | the multi-lead scan returns the required detection: II on early exit; otherwise the earliest lead of maximal positive quality with the latched fallback flag; otherwise ([], "none", 0.0, true) |
| HeartRate.DetectRPeaks | Backend/ecg_heartrate_analyzer.py:115-173 | single-lead input gives (peaks, "unknown", quality, false), and multi-lead input gives the scan's detection |
| HeartRate.BestIsUnique | Backend/ecg_heartrate_analyzer.py:154-158 | because replacement needs strictly greater quality, at most one rank is the winner (the tie-break goes to the earlier rank) |
| HeartRate.DetectionIsUnique | Backend/ecg_heartrate_analyzer.py:115-173 | the specification of detect_r_peaks determines the detection completely |
| HeartRate.FallbackIffNoEarlyExit | Backend/ecg_heartrate_analyzer.py:139-166 | for multi-lead input the fallback flag is false exactly when the scan stopped early at II; any lead other than II implies fallback |
| HeartRate.UsableIffPositive | Backend/ecg_heartrate_analyzer.py:38-44 | a lead scores above zero exactly when it has at least two peaks and is not flat, so a flat lead is never selected |
| HeartRate.NoneIffNoLeadUsable | Backend/ecg_heartrate_analyzer.py:135-173 | the result is "none" exactly when no present priority lead is usable; otherwise the reported quality is in (0, 1] |
| HeartRate.DetectedPeaksSpaced | Backend/ecg_heartrate_analyzer.py:106-111 | the peaks reported for any input are strictly increasing and at least int(0.2·fs) samples apart |
| HeartRate.RRIntervalsMs | Backend/ecg_heartrate_analyzer.py:179-180 | n peaks give n − 1 RR intervals in milliseconds |
| HeartRate.RatesFromMs | Backend/ecg_heartrate_analyzer.py:182 | there is one rate 60000 / interval per interval |
| HeartRate.IntervalsMsNonZero | Backend/ecg_heartrate_analyzer.py:179-182 | distinct consecutive peaks give non-zero millisecond intervals, so the rate division is defined |
| HeartRate.CalculateBpm | Backend/ecg_heartrate_analyzer.py:175-185 | fewer than two peaks give (60.0, []); otherwise there are n − 1 intervals |
| HeartRate.GetBeatTimestamps | Backend/ecg_heartrate_analyzer.py:187-188 | there is one timestamp per peak |
| HeartRate.IntervalsMatchTimestamps | Backend/ecg_heartrate_analyzer.py:179-188 | each reported RR interval is the difference of consecutive beat timestamps, times 1000 |
| HeartRate.RateOfGap | Backend/ecg_heartrate_analyzer.py:180-182 | a gap of g samples gives the rate 60·fs/g |
| HeartRate.RatesOfPeaks | Backend/ecg_heartrate_analyzer.py:179-182 | each instantaneous rate is 60·fs / (p[i+1] − p[i]) |
| HeartRate.BpmAtMost | Backend/ecg_heartrate_analyzer.py:182-183 | if every gap is at least lo samples, the median BPM is positive and at most 60·fs/lo |
| HeartRate.RatesAtMost | Backend/ecg_heartrate_analyzer.py:180-182 | if every gap is at least lo, every instantaneous rate is in (0, 60·fs/lo] |
| HeartRate.GapRateAtMost | Backend/ecg_heartrate_analyzer.py:182 | the rate of one gap of at least lo samples is in (0, 60·fs/lo] |
| HeartRate.BpmAtLeast | Backend/ecg_heartrate_analyzer.py:182-183 | if every gap is at most hi samples, the median BPM is at least 60·fs/hi |
| HeartRate.RatesAtLeast | Backend/ecg_heartrate_analyzer.py:180-182 | if every gap is at most hi, every instantaneous rate is at least 60·fs/hi |
| HeartRate.GapRateAtLeast | Backend/ecg_heartrate_analyzer.py:182 | the rate of one gap of at most hi samples is at least 60·fs/hi |
| HeartRate.RegularRhythmBpm | Backend/ecg_heartrate_analyzer.py:175-185 | equally spaced peaks g samples apart give exactly 60·fs/g BPM |
| HeartRate.SpacingCapsBpm | Backend/ecg_heartrate_analyzer.py:106-111 | the 200 ms minimum peak distance caps the reported BPM at 60·fs / int(0.2·fs) |
| HeartRate.IntervalsSumToSpan | Backend/ecg_heartrate_analyzer.py:179-180 | the RR intervals add up to the time from the first peak to the last, in milliseconds |
| HeartRate.Report | Backend/ecg_heartrate_analyzer.py:205-216 | r_peak_count and the number of timestamps equal the number of peaks; fewer than two peaks give 60 BPM and no intervals; lead, quality and fallback flag are passed through |
| HeartRate.Analyze | Backend/ecg_heartrate_analyzer.py:190-217 | the report is built from the detection the specification requires, with spaced peaks; peak count equals timestamp count; fewer than two beats give 60 BPM |
| Stats.SquaredDeviations | Backend/ecg_heartrate_analyzer.py:52 | the terms np.var averages; what they are for is proved in VarianceNonNegative (the variance is never negative) and ConstantHasZeroVariance (a constant lead is flat) |
| Stats.SumOfConstant | Backend/ecg_heartrate_analyzer.py:51 | n equal values c sum to n·c |
| Stats.SumNonNegative | Backend/ecg_heartrate_analyzer.py:42 | a sum of non-negative values is non-negative |
| Stats.SumAppend | Backend/ecg_heartrate_analyzer.py:51 | the sum distributes over concatenation |
| Stats.VarianceNonNegative | Backend/ecg_heartrate_analyzer.py:42-43 | the population variance np.var is never negative |
| Stats.ConstantHasZeroVariance | Backend/ecg_heartrate_analyzer.py:42-44 | a constant lead has mean c and variance 0, so it counts as flat |
| Stats.InsertSorted | Backend/ecg_heartrate_analyzer.py:60 | inserting into a sorted sequence keeps it sorted and adds exactly one copy of the value |
| Stats.Sort | Backend/ecg_heartrate_analyzer.py:60 | the sort np.median relies on gives a sorted permutation of its input |
| Stats.MedianBetweenValues | Backend/ecg_heartrate_analyzer.py:183 | the median lies between two values of the input |
| Stats.MedianWithin | Backend/ecg_heartrate_analyzer.py:60 | values all in [lo, hi] have their median in [lo, hi] |
| Stats.MedianAtMost | Backend/ecg_heartrate_analyzer.py:183 | values all at most hi have a median at most hi |
| Stats.MedianAtLeast | Backend/ecg_heartrate_analyzer.py:183 | values all at least lo have a median at least lo |
| Stats.MedianAbove | Backend/ecg_heartrate_analyzer.py:183 | values all above lo have a median above lo |
| Stats.MedianOfConstant | Backend/ecg_heartrate_analyzer.py:60 | the median of equal values is that value |
| RegionMapper.RegionsAreTheDelayKeys | Backend/heart_region_mapper.py:33-44 | the ten regions are exactly the keys of the normal delay table, each once |
| RegionMapper.MultipliersInUnitRange | Backend/heart_region_mapper.py:47-77 | every condition-to-region multiplier is in (0, 1] |
| RegionMapper.SeverityToColor | Backend/heart_region_mapper.py:98-135 | red and green are in [0, 1], and blue is always 0 |
| RegionMapper.ColorAnchors | Backend/heart_region_mapper.py:111-133 | severities 0, 0.25, 0.5, 0.75 and 1 map to green, yellow, orange (green channel 0.65), red and red |
| RegionMapper.ColorSaturates | Backend/heart_region_mapper.py:109-133 | any severity ≤ 0 is pure green, and any severity ≥ 0.75 is pure red |
| RegionMapper.ColorMonotone | Backend/heart_region_mapper.py:111-133 | as severity grows, green never increases and red never decreases |
| RegionMapper.SeverityIsMax | Backend/heart_region_mapper.py:148-157 | region severity is at least every mapped contribution (probability × multiplier) and equals one of them, or 0.0: a maximum, not a sum |
| RegionMapper.SeverityBounded | Backend/heart_region_mapper.py:148-157 | with probabilities in [0, 1], severity is in [0, 1], and it is 0.0 when no condition maps to the region |
| RegionMapper.ContributionInUnitRange | Backend/heart_region_mapper.py:155-156 | one contribution of a probability in [0, 1] is in [0, 1] |
| RegionMapper.AffectingIff | Backend/heart_region_mapper.py:151-159 | a condition is listed as affecting exactly when it maps to the region and its probability exceeds 0.05 |
| RegionMapper.FoldStep | Backend/heart_region_mapper.py:151-159 | one loop step: a mapped condition raises the severity to the maximum of the two, and is listed if significant; an unmapped one changes nothing |
| RegionMapper.CalculateRegionSeverity | Backend/heart_region_mapper.py:137-161 | the loop computes the maximum contribution and the list of significant mapped conditions, in prediction order |
| RegionMapper.ActivationDelay | Backend/heart_region_mapper.py:174 | a delay exists exactly for the regions of the normal delay table |
| RegionMapper.NoOverrideKeepsNormal | Backend/heart_region_mapper.py:175-184 | without a likely condition that has an abnormal entry for the region, the delay stays normal |
| RegionMapper.LastOverrideWins | Backend/heart_region_mapper.py:178-182 | the delay is the abnormal delay of the last condition with probability > 0.5 that has an entry for the region |
| RegionMapper.OverrideStep | Backend/heart_region_mapper.py:178-182 | one loop step: a likely overriding condition replaces the delay; anything else keeps it |
| RegionMapper.GetActivationDelay | Backend/heart_region_mapper.py:163-184 | the loop computes the normal delay overridden by the last likely abnormal entry |
| RegionMapper.GetRegionHealthStatus | Backend/heart_region_mapper.py:186-232 | there is exactly one entry per region, in table order; severity, affecting list and delay are those of the specification, and the colour is severity_to_color of the severity |
| RegionMapper.StableInsert | Backend/heart_region_mapper.py:251 | insertion adds one element |
| RegionMapper.StableInsertSorted | Backend/heart_region_mapper.py:251 | inserting into a delay-sorted sequence keeps it sorted |
| RegionMapper.StableInsertPermutes | Backend/heart_region_mapper.py:251 | insertion adds exactly the inserted pair |
| RegionMapper.SortByDelay | Backend/heart_region_mapper.py:251 | sorting keeps the length |
| RegionMapper.SortByDelaySorted | Backend/heart_region_mapper.py:251 | the sorted sequence is non-decreasing in delay |
| RegionMapper.SortByDelayPermutes | Backend/heart_region_mapper.py:251 | the sorted sequence is a permutation of the input |
| RegionMapper.StableInsertKeepsTies | Backend/heart_region_mapper.py:251 | inserting x after the pairs it sorts after leaves every delay class in order, with x at the end of its own |
| RegionMapper.SortIsStable | Backend/heart_region_mapper.py:251 | for every delay, the pairs with that delay appear in the same order before and after sorting |
| RegionMapper.GetActivationSequence | Backend/heart_region_mapper.py:234-253 | the sequence is the (region, delay) pairs sorted by delay: sorted, a permutation, and stable |
| RegionMapper.Pairs | Backend/heart_region_mapper.py:245-248 | one (region, delay) pair per health entry, in order |
| PyText.Find | Backend/llm_medical_interpreter.py:169-174 | str.find gives −1 or an index at or after start where the substring occurs, with no occurrence between start and that index |
| PyText.ContainsIffFound | Backend/llm_medical_interpreter.py:168-172 | `sub in s` holds exactly when find does not return −1 |
| PyText.FindIsFirstOccurrence | Backend/llm_medical_interpreter.py:169-174 | the first occurrence at or after start is the one found |
| PyText.OccurrenceMatches | Backend/llm_medical_interpreter.py:169-174 | at an occurrence, the text matches the substring character by character |
| PyText.SliceIndex | Backend/llm_medical_interpreter.py:171 | a Python slice index is clamped to the length, and a negative index counts from the end |
| PyText.Slice | Backend/llm_medical_interpreter.py:171 | for in-range bounds, a Python slice is the Dafny subsequence; it is never longer than the text |
| PyText.SkipSpace | Backend/llm_medical_interpreter.py:171 | skips exactly the leading whitespace |
| PyText.SkipSpaceBack | Backend/llm_medical_interpreter.py:171 | skips exactly the trailing whitespace |
| PyText.StripIsTrimmedInfix | Backend/llm_medical_interpreter.py:171 | str.strip leaves the infix between the leading and trailing whitespace, and it neither starts nor ends with whitespace |
| PyText.StripIdempotent | Backend/llm_medical_interpreter.py:171 | stripping twice is stripping once |
| PyText.Lower | Backend/clinical_decision_support_llm.py:659 | str.lower maps each character through the lowercase map and keeps the length |
| PyText.LowerIdempotent | Backend/clinical_decision_support_llm.py:659 | lowering twice is lowering once, and text without capitals is unchanged |
| PyText.ReplaceChar | Unity/Scripts/API/ECGDataStructures.cs:347 | each occurrence of the character is replaced, and nothing else changes |
| PyText.ReplaceCharRemovesAll | Unity/Scripts/API/ECGDataStructures.cs:347 | after the replacement no occurrence is left; text without the character is unchanged |
| LlmResponse.ParseLlmResponse | Backend/llm_medical_interpreter.py:155-183 | the result is the decoder's value on the fence-stripped text, and None exactly when decoding fails |
| LlmResponse.UsableReply | Backend/llm_medical_interpreter.py:252-272 | a reply is used exactly when the call returned text whose parse is present and truthy |
| LlmResponse.FenceStartsWithBacktick | Backend/llm_medical_interpreter.py:168-174 | an occurrence of a fence starts at a backtick |
| LlmResponse.FirstFenceAfter | Backend/llm_medical_interpreter.py:169-174 | in text without backticks before the fence, find locates the fence right after that text |
| LlmResponse.JsonFenceHasFence | Backend/llm_medical_interpreter.py:168-172 | text containing "```json" also contains "```" |
| LlmResponse.NoFenceUnchanged | Backend/llm_medical_interpreter.py:168-177 | text without any fence is decoded unchanged |
| LlmResponse.JsonFencedBody | Backend/llm_medical_interpreter.py:168-171 | for pre + "```json" + body + "```" + post, the decoded text is the stripped body |
| LlmResponse.BareFencedBody | Backend/llm_medical_interpreter.py:172-175 | for pre + "```" + body + "```" + post without a json fence, the decoded text is the stripped body |
| LlmResponse.FencedBody | Backend/llm_medical_interpreter.py:168-175 | with either opening fence, the opening fence is found right after pre, and the text between the fences strips to the body |
| LlmResponse.FencedBetween | Backend/llm_medical_interpreter.py:170-175 | the slice up to the next fence, stripped, is the stripped body |
| LlmResponse.BodyBetweenFences | Backend/llm_medical_interpreter.py:170-171 | when the closing fence directly follows the body, slicing to it and stripping gives the stripped body |
| LlmResponse.FencedOpen | Backend/llm_medical_interpreter.py:169 | the opening fence is found right after the backtick-free prefix |
| LlmResponse.FencedClose | Backend/llm_medical_interpreter.py:170 | the closing fence is found right after the backtick-free body |
| LlmResponse.FencedSlice | Backend/llm_medical_interpreter.py:171 | the text between the fences is the body |
| LlmResponse.FindBodyEnd | Backend/llm_medical_interpreter.py:170 | find from the body's start stops at the fence that follows the body |
| LlmResponse.UnclosedJsonFenceDropsLastChar | Backend/llm_medical_interpreter.py:168-171 | with no closing fence, find returns −1 and the slice [start:-1] drops the last character of the body before stripping |
| LlmResponse.NoClosingFence | Backend/llm_medical_interpreter.py:170 | without a closing fence after the body, find returns −1 |
| LlmResponse.SliceToEndDropsLast | Backend/llm_medical_interpreter.py:171 | slicing with end −1 drops the last character |
| MedicalInterpreter.MostSevereIndex | Backend/llm_medical_interpreter.py:206-209 | Python's max: an entry whose severity is at least every severity, and strictly above every earlier one (the first maximum) |
| MedicalInterpreter.MostAffected | Backend/llm_medical_interpreter.py:206-209 | ("none", 0.0) for no regions; otherwise the first region of maximal severity |
| MedicalInterpreter.HighlightRegions | Backend/llm_medical_interpreter.py:227 | [] exactly for "none", and otherwise [region] |
| MedicalInterpreter.GetFallbackInterpretation | Backend/llm_medical_interpreter.py:185-234 | a known condition uses its own entry and an unknown one uses "normal" (low); the most affected region has maximal severity; the highlight list is empty exactly when the region is "none" |
| MedicalInterpreter.HighOnlyForAtrialFibrillation | Backend/llm_medical_interpreter.py:49-85 | the fallback's overall severity is high exactly for atrial fibrillation |
| MedicalInterpreter.InterpretEcgAnalysis | Backend/llm_medical_interpreter.py:236-285 | the model's reply is returned exactly when it is usable (it returned text whose parse is truthy); otherwise the fallback interpretation |
| ClinicalSupport.SplitWorkup | Backend/clinical_decision_support_llm.py:580-581 | immediate tests followed by follow-up tests give back the work-up, and the immediate tests are its first min(2, len) items |
| ClinicalSupport.ClinicalExpertFallback | Backend/clinical_decision_support_llm.py:539-610 | a known condition uses its own entry and an unknown one uses "normal"; the urgency and work-up split come from that entry; referrals exist exactly when urgency is not routine; stroke risk is elevated exactly for AF; emphasis is empty exactly for "none" |
| ClinicalSupport.UnknownConditionIsRoutine | Backend/clinical_decision_support_llm.py:546-549 | an unknown condition gives routine urgency, the single "none required" test and no referral |
| ClinicalSupport.ReferredConditions | Backend/clinical_decision_support_llm.py:582 | a cardiology referral is made exactly for LBBB and atrial fibrillation, the two non-routine entries |
| ClinicalSupport.SeverityBand | Backend/clinical_decision_support_llm.py:688-702 | level normal exactly below 0.2 and critical exactly at 0.8 or more; urgency routine exactly below 0.4 and immediate exactly at 0.8 or more |
| ClinicalSupport.BandMonotone | Backend/clinical_decision_support_llm.py:688-702 | both level and urgency are monotone in severity |
| ClinicalSupport.SeverityOf | Backend/clinical_decision_support_llm.py:671-672 | the severity of a region present in the health data, or 0.0 for a region absent from it |
| ClinicalSupport.StorytellingFallback | Backend/clinical_decision_support_llm.py:650-732 | the entry is the focus region if it has a story, and sa_node otherwise; severity is the focus region's; the abnormal narrative is chosen exactly above 0.5; the band is SeverityBand of the severity; the impact is known exactly for the listed conditions |
| ClinicalSupport.StoryFocus | Backend/clinical_decision_support_llm.py:658-665 | the focus is the lowercased given focus; else a region of maximal severity; else the lowercased top condition with normal narrative and band |
| ClinicalSupport.SeverityIsFirstMatch | Backend/clinical_decision_support_llm.py:671 | the severity looked up is the one recorded for the region |
| ClinicalSupport.NarrativeAndUrgency | Backend/clinical_decision_support_llm.py:677-702 | an abnormal narrative always comes with non-routine urgency, and severities in [0.4, 0.5] are urgent with the normal narrative |
| ClinicalSupport.Analyze | Backend/clinical_decision_support_llm.py:763-842 | it fails exactly for a mode outside the three allowed; the model's reply is used exactly when usable; otherwise the result is the mode's own fallback: ClinicalExpertFallback, StorytellingFallback with the given focus, or the patient-education fallback, each from the same condition and region health |
| ClinicalSupport.InterpretEcgAnalysis | Backend/clinical_decision_support_llm.py:843-849 | the legacy entry point never fails (patient-education mode is valid) |
| ClinicalSupport.LegacyAgreesWithInterpreter | Backend/clinical_decision_support_llm.py:843-849 | the legacy entry point returns exactly what the medical interpreter returns |
| EcgData.AllCodesAreTheNamedCodes | Unity/Scripts/API/ECGDataStructures.cs:327-356 | GetAllCodes lists exactly the codes of the name table, each once |
| EcgData.GetReadableName | Unity/Scripts/API/ECGDataStructures.cs:341-348 | a known code gives its table name; any other code keeps its length and characters, except that "_" becomes " " |
| EcgData.GetColorForSeverity | Unity/Scripts/API/ECGDataStructures.cs:372-382 | green exactly below 0.3, yellow exactly in [0.3, 0.6), orange exactly in [0.6, 0.8), red exactly from 0.8 |
| EcgData.ColorForSeverityMonotone | Unity/Scripts/API/ECGDataStructures.cs:372-382 | as severity grows, red never decreases and green never increases |
| EcgData.FromRGBArray | Unity/Scripts/API/ECGDataStructures.cs:387-393 | white for a null or short array, and otherwise the first three components, opaque |
| EcgData.BackendColorRoundTrip | Unity/Scripts/API/ECGDataStructures.cs:387-393 | the backend's severity colour survives conversion into a Unity colour |
| EcgData.NoLikelyCondition | Unity/Scripts/API/ECGDataStructures.cs:416-421 | the foreach finds no condition more likely than 0.5 exactly when there is none |
| EcgData.IsHealthy | Unity/Scripts/API/ECGDataStructures.cs:408-424 | true for null and for confident NSR; it throws exactly on a null condition list; false only when some condition is above 0.5 |
| EcgData.UnhealthyIff | Unity/Scripts/API/ECGDataStructures.cs:408-424 | unhealthy exactly when not confident NSR and some condition is above 0.5 |
| EcgData.IsNormalRange | Unity/Scripts/API/ECGDataStructures.cs:429-433 | true for null, and otherwise exactly 60 ≤ bpm ≤ 100 |
| EcgData.GetCategory | Unity/Scripts/API/ECGDataStructures.cs:438-448 | "Unknown" exactly for null, "Bradycardia" exactly below 60, "Tachycardia" exactly above 100 |
| EcgData.CategoryAgreesWithRange | Unity/Scripts/API/ECGDataStructures.cs:429-448 | for non-null data the category is "Normal" exactly when the rate is in the normal range |
| EcgData.IsWideQRS | Unity/Scripts/API/ECGDataStructures.cs:453-457 | exactly a non-null record with QRS > 120 ms |
| EcgData.IsProlongedPR | Unity/Scripts/API/ECGDataStructures.cs:462-466 | exactly a non-null record with PR > 200 ms |
| Timeline.RoundToInt | Assets/Scripts/UI/TimelineController.cs:251 | Mathf.RoundToInt: within 0.5 of the argument, and halves go to the even integer |
| Timeline.NearestIndex | Assets/Scripts/UI/TimelineController.cs:247-267 | −1 exactly when there are no peaks, and otherwise an index in range |
| Timeline.NearestIndexIsNearest | Assets/Scripts/UI/TimelineController.cs:253-264 | the peak found is at least as near the target as every peak, and strictly nearer than every earlier one: ties go to the smallest index |
| Timeline.TimelineController.constructor | Assets/Scripts/UI/TimelineController.cs:27-58 | the inspector defaults after Start: 400 Hz, a 0.5 s debounce, no beats, no pending beat, a slider (if assigned, with the listener registered) at 0 in the range [0, 1] |
| Timeline.TimelineController.InitializeTimeline | Assets/Scripts/UI/TimelineController.cs:64-103 | a null signal changes nothing; otherwise the signal is kept; a failed beat request leaves peaks, markers, slider, scrub time and pending beat as they were; a successful one installs the peaks and count and one cyan marker per peak when the prefab, its parent and the slider are all assigned (none otherwise), and with a slider sets the range to [0, duration] and the value to 0, whose listener, run exactly when the value was not 0, leaves the beat nearest sample 0 pending and alone highlighted |
| Timeline.TimelineController.UpdateTimelineRange | Assets/Scripts/UI/TimelineController.cs:91-96 | after the three slider writes the range is [0, m] and the value 0; the listener ran exactly when the value was not already 0, and its effect is that of the value 0 |
| Timeline.TimelineController.SetSliderMax | Assets/Scripts/UI/TimelineController.cs:94 | the new maximum is stored and a value above it is clamped to it, running the listener exactly when the value changed |
| Timeline.TimelineController.SetSliderValue | Assets/Scripts/UI/TimelineController.cs:53-57 | a slider write stores the clamped value and runs OnTimelineValueChanged, the registered listener, exactly when the stored value changed; otherwise scrub time, pending beat and markers stay |
| Timeline.TimelineController.CreateBeatMarkers | Assets/Scripts/UI/TimelineController.cs:108-156 | fresh markers, all cyan: one per R-peak when the prefab and its parent are assigned and a slider is there to place them along, none otherwise |
| Timeline.TimelineController.FindNearestBeat | Assets/Scripts/UI/TimelineController.cs:247-267 | the loop returns the nearest index for the rounded target sample |
| Timeline.TimelineController.HighlightBeatMarker | Assets/Scripts/UI/TimelineController.cs:272-291 | every marker is cyan except the one at the given index, which is yellow if in range |
| Timeline.TimelineController.OnTimelineValueChanged | Assets/Scripts/UI/TimelineController.cs:172-195 | the scrub time is recorded; a nearest beat becomes pending and is the only highlighted marker; with no beats the pending beat and the markers stay |
| Timeline.TimelineController.FetchBeatDetail | Assets/Scripts/UI/TimelineController.cs:214-244 | the beat's detail is requested only when a signal is loaded |
| Timeline.TimelineController.DebounceAndFetchBeatDetail | Assets/Scripts/UI/TimelineController.cs:198-211 | after a pause of at least the debounce time with a beat pending, that beat is fetched and nothing stays pending; otherwise nothing changes |
| Timeline.TimelineController.JumpToBeat | Assets/Scripts/UI/TimelineController.cs:294-306 | an index outside [0, count) changes nothing; otherwise the slider (if assigned) moves to the beat's clamped time, running the listener when the value changes, and the beat's detail is fetched; for increasing peaks and an in-range time the listener makes that beat pending, so the debounce fetches it again |
| Timeline.JumpTargetsOwnBeat | Assets/Scripts/UI/TimelineController.cs:247-267 | a beat's time rounds back to its own sample, and with increasing peaks that beat is the nearest, so a jump's listener picks the jumped-to beat |
| Timeline.TimelineController.GetBeatCount | Assets/Scripts/UI/TimelineController.cs:311-314 | the total beat count received from the backend |
| RegionLookup.RegionMarker.constructor | Unity/Scripts/Heart/CardiacRegionMarker.cs:12-23 | a new marker shows severity 0 in green |
| RegionLookup.RegionMarker.UpdateVisualization | Unity/Scripts/Heart/CardiacRegionMarker.cs:87-90 | severity clamped to [0, 1], and the colour taken as given |
| RegionLookup.FirstRegistrationWins | Unity/Scripts/Heart/HeartRegionMapping.cs:49-74 | a name is registered exactly when some entry's marker carries it, and it maps to the first such marker |
| RegionLookup.RegisteredUnderOwnName | Unity/Scripts/Heart/HeartRegionMapping.cs:57-64 | every marker is registered under its own region name |
| RegionLookup.CountMissing | Unity/Scripts/Heart/HeartRegionMapping.cs:91-99 | the count is zero exactly when every name is registered, and never more than the number of names |
| RegionLookup.HeartRegionMapping.constructor | Unity/Scripts/Heart/HeartRegionMapping.cs:29-32 | a mapping over the inspector entries with an empty lookup |
| RegionLookup.HeartRegionMapping.InitializeRegionLookup | Unity/Scripts/Heart/HeartRegionMapping.cs:47-80 | the lookup is rebuilt from the entries: insert-if-absent, skipping null objects and objects without a marker |
| RegionLookup.HeartRegionMapping.ValidateRegions | Unity/Scripts/Heart/HeartRegionMapping.cs:83-113 | the missing count is the number of the ten required regions absent from the lookup, and it is zero exactly when all are present |
| RegionLookup.HeartRegionMapping.GetRegion | Unity/Scripts/Heart/HeartRegionMapping.cs:116-125 | the registered marker, or null exactly when the name is not registered |
| RegionLookup.HeartRegionMapping.GetRegionPosition | Unity/Scripts/Heart/HeartRegionMapping.cs:140-151 | the registered marker's position, or the zero vector |
| RegionLookup.HeartRegionMapping.UpdateAllRegions | Unity/Scripts/Heart/HeartRegionMapping.cs:156-179 | each registered region named in the data shows its clamped severity and colour; every other marker is unchanged; only the colours of registered names need three channels, and unregistered names are ignored whatever their colour |
| RegionLookup.HeartRegionMapping.ResetAllRegions | Unity/Scripts/Heart/HeartRegionMapping.cs:184-192 | every registered marker shows severity 0 in green |

## Left out

- The per-lead Pan-Tompkins chain is not modelled: `bandpass_filter` (butter/filtfilt), derivative, squaring, `np.convolve` and `find_peaks`. It is floating-point signal processing in scipy and numpy. It is the `detectPeaks` parameter of an `Analyzer`. That detector is total, and `WellBehaved` assumes of it only that its indices are strictly increasing, at least int(0.2·fs) apart, and below the lead's length. The real chain delivers that bound only for leads longer than int(0.15·fs) samples: for shorter ones the `mode='same'` convolution returns int(0.15·fs) samples, more than the lead has, so find_peaks can return indices past the lead's end. The model assumes such short leads away.
- The square root of `np.std` is the `sqrt` parameter. The regularity score is therefore only known to be non-negative, except for a perfectly regular rhythm.
- Floating-point arithmetic is modelled on exact reals, both Python's doubles and Unity's floats.
- HeartRate.Analyze: does not model the rounding of the report (`round(bpm, 1)`, the intervals to 1 decimal, timestamps to 2, quality to 2), because rounding of binary floats is not modelled. Its contract holds for the unrounded values.
- RegionMapper.CalculateRegionSeverity: returns the severity before `round(severity, 3)`, for the same reason.
- RegionMapper.SeverityToColor: returns the channels before `round(…, 3)`, for the same reason.
- RegionMapper.GetActivationDelay: returns None for a region missing from the normal delay table, where Python raises KeyError. The health status only asks for the ten known regions, so that path is never taken there.
- The Anthropic client is not modelled: the API key, model name, token limits, the call and its exceptions. Its outcome is the `Reply` parameter (no client, call failed, or the returned text).
- `json.loads` is the `decode` parameter, with None for a JSONDecodeError.
- The prompt builders (`build_prompt`, `build_clinical_expert_prompt`, `build_storytelling_prompt`, `build_patient_education_prompt`) are left out. So are every narrative, explanation and format string in the fallbacks, and the fields that are the same constant in every fallback (red flags, imaging, teaching points, waypoints and the like). They are static text with no behaviour to state.
- ClinicalSupport.Analyze: the patient-education fallback is `MedicalInterpreter.GetFallbackInterpretation`. `get_patient_education_fallback` uses a table with the same entries and severities as the interpreter's, and only its texts differ.
- PyText.Lower: lowers ASCII letters only. Python's Unicode case mapping is not modelled.
- Logging (`print`, `Debug.Log`), `Backend/logger.py`, and the Flask routes in `Backend/ecg_api.py` are left out. `Backend/model_loader.py` (TensorFlow inference) is left out as well.
- The network calls of `ECGAPIClient.cs` are not modelled. `InitializeTimeline` takes the GetBeats outcome as a parameter. `FetchBeatDetail` records the request, and the beat detail panel it feeds is not modelled.
- Timeline.TimelineController.DebounceAndFetchBeatDetail: the coroutine's wait and Unity's clock are not modelled. The method takes the clock time at which it resumes, and `OnTimelineValueChanged`, `SetSliderValue`, `SetSliderMax`, `InitializeTimeline` and `JumpToBeat` take the clock time of the change. Stopping and restarting the coroutine is not modelled, so a jump's second fetch is the caller's later call of `DebounceAndFetchBeatDetail`.
- Timeline.TimelineController.SetSliderValue: models Unity's `Slider` as the source uses it: the value is clamped to [minValue, maxValue], `wholeNumbers` is off, and `onValueChanged` fires only when the stored value changes. The constructor stands for the component after `Start`, so the listener is registered whenever a slider is assigned.
- Timeline.TimelineController.CreateBeatMarkers: marker GameObjects, their positions along the slider and `Destroy` are not modelled. A marker is its image colour, and the markers are an array of colours. A marker without an image component is not modelled.
- RegionLookup.HeartRegionMapping.UpdateAllRegions: the IndexOutOfRangeException for a registered region whose colour has fewer than three channels is not modelled; the method requires three channels for registered names, and the backend always sends RGB triples.
- HeartRate.MinPeakDistance: the analyzer's error paths are not modelled. `butter` raises ValueError for every sampling rate of 80 Hz or less, because the 40 Hz cut-off is then not below the Nyquist frequency. `filtfilt` raises ValueError for a lead of 15 samples or fewer, its padding length. Because of those errors, find_peaks, which also rejects the zero distance int(0.2·fs) takes below 5 Hz, is never reached. In both cases `DetectRPeaks` and `Analyze` return a detection where the source raises. The API fixes 400 Hz and 4096-sample leads, so neither case arises there.
- The remaining Unity MonoBehaviours are left out because their behaviour is rendering, animation or frame timing: the heart controller, the storytelling journey controller, the animators, the waypoint interaction, the beat detail panel and the demo controller.
- The remaining CardiacRegionMarker members are left out: lights, materials, particles, pulsing, Update, Highlight and gizmos.
- `HeartRegionMapping.GetAllRegions`, `HighlightRegion`, `OnDrawGizmos` and `DrawConnection` are left out. They copy the lookup's markers, toggle a visual highlight, or draw editor gizmos.
- Integer overflow of C# `int` sample indices is not modelled, because indices are bounded by the signal length.
- Scripts under Backend/tests, Backend/data and Backend/test*.py are left out. They are HTTP integration and data-synthesis scripts.
