/** The client-side helpers over the analysis data the backend sends: readable
    condition names, severity colours, the conversion of the backend's RGB
    arrays, and the classification predicates on diagnosis, heart-rate and
    beat-interval records. A C# `null` record is `None`. Unity's float
    arithmetic is modelled on reals. */
module EcgData {
  import opened Wrappers
  import opened PyText
  import RegionMapper

  /** A Unity colour: red, green, blue and alpha. */
  datatype Color = Color(r: real, g: real, b: real, a: real)

  const Green: Color := Color(0.0, 1.0, 0.0, 1.0)
  /** Unity's yellow is not pure yellow: its green and blue are 235/255 and 4/255. */
  const Yellow: Color := Color(1.0, 235.0 / 255.0, 4.0 / 255.0, 1.0)
  const Orange: Color := Color(1.0, 0.5, 0.0, 1.0)
  const Red: Color := Color(1.0, 0.0, 0.0, 1.0)
  const White: Color := Color(1.0, 1.0, 1.0, 1.0)
  const Cyan: Color := Color(0.0, 1.0, 1.0, 1.0)

  // ---------------------------------------------------------------------
  // Condition names

  const NameMap: map<string, string> := map[
    "1dAVb" := "First Degree AV Block",
    "RBBB" := "Right Bundle Branch Block",
    "LBBB" := "Left Bundle Branch Block",
    "SB" := "Sinus Bradycardia",
    "AF" := "Atrial Fibrillation",
    "ST" := "Sinus Tachycardia",
    "NSR" := "Normal Sinus Rhythm"]

  /** ConditionNames.GetAllCodes. */
  const AllCodes: seq<string> := ["1dAVb", "RBBB", "LBBB", "SB", "AF", "ST", "NSR"]

  /** The codes listed are exactly the codes with a readable name, each once. */
  lemma AllCodesAreTheNamedCodes()
    ensures forall c :: c in AllCodes <==> c in NameMap
    ensures forall i, j :: 0 <= i < j < |AllCodes| ==> AllCodes[i] != AllCodes[j]
  {
    assert NameMap.Keys == set c | c in AllCodes;
  }

  /** ConditionNames.GetReadableName: the table's name for a known code;
      otherwise the code with every underscore turned into a space. */
  function GetReadableName(code: string): (name: string)
    ensures code in NameMap ==> name == NameMap[code]
    ensures code !in NameMap ==> |name| == |code| && '_' !in name
    ensures code !in NameMap ==>
      forall i :: 0 <= i < |code| ==> name[i] == (if code[i] == '_' then ' ' else code[i])
  {
    if code in NameMap then NameMap[code]
    else
      ReplaceCharRemovesAll(code, '_', ' ');
      ReplaceChar(code, '_', ' ')
  }

  // ---------------------------------------------------------------------
  // Severity colours

  /** SeverityColors.GetColorForSeverity: green, yellow, orange, red with
      strict cut-offs at 0.3, 0.6 and 0.8. */
  function GetColorForSeverity(severity: real): (c: Color)
    ensures c == Green <==> severity < 0.3
    ensures c == Yellow <==> 0.3 <= severity < 0.6
    ensures c == Orange <==> 0.6 <= severity < 0.8
    ensures c == Red <==> 0.8 <= severity
    ensures c.a == 1.0 && c.b < 0.1
  {
    if severity < 0.3 then Green
    else if severity < 0.6 then Yellow
    else if severity < 0.8 then Orange
    else Red
  }

  /** Along the scale the red channel never decreases and the green channel
      never increases. */
  lemma ColorForSeverityMonotone(s1: real, s2: real)
    requires s1 <= s2
    ensures GetColorForSeverity(s1).r <= GetColorForSeverity(s2).r
    ensures GetColorForSeverity(s2).g <= GetColorForSeverity(s1).g
  {
  }

  /** SeverityColors.FromRGBArray: white for a null or short array, otherwise
      the first three components, opaque. */
  function FromRGBArray(rgb: Option<seq<real>>): (c: Color)
    ensures rgb.None? || |rgb.value| < 3 ==> c == White
    ensures rgb.Some? && |rgb.value| >= 3 ==>
      c.r == rgb.value[0] && c.g == rgb.value[1] && c.b == rgb.value[2] && c.a == 1.0
  {
    if rgb.None? || |rgb.value| < 3 then White
    else Color(rgb.value[0], rgb.value[1], rgb.value[2], 1.0)
  }

  /** The colour the backend computes for a region survives the trip through
      its RGB array: red, green and blue as computed, blue zero, opaque. */
  lemma BackendColorRoundTrip(severity: real)
    ensures var c := RegionMapper.SeverityToColor(severity);
      FromRGBArray(Some([c.r, c.g, c.b])) == Color(c.r, c.g, 0.0, 1.0)
  {
  }

  // ---------------------------------------------------------------------
  // Classification of the analysis records

  datatype ConditionProbability = ConditionProbability(condition: string, probability: real)

  /** The diagnosis record; its condition list may itself be null. */
  datatype DiagnosisData = DiagnosisData(
    topCondition: string,
    confidence: real,
    topConditions: Option<seq<ConditionProbability>>)

  /** The foreach of IsHealthy: no listed condition is more likely than 0.5. */
  function NoLikelyCondition(cs: seq<ConditionProbability>): (r: bool)
    ensures r <==> forall i :: 0 <= i < |cs| ==> cs[i].probability <= 0.5
  {
    if cs == [] then true
    else if cs[0].probability > 0.5 then false
    else
      var rest := NoLikelyCondition(cs[1..]);
      assert forall i :: 1 <= i < |cs| ==> cs[i] == cs[1..][i - 1];
      rest
  }

  /** ECGDataExtensions.IsHealthy. A null diagnosis is healthy, and so is a
      normal sinus rhythm with confidence above 0.7; otherwise the diagnosis
      is healthy unless some listed condition is more likely than 0.5. Walking
      a null condition list throws, which is the Failure here. */
  function IsHealthy(diagnosis: Option<DiagnosisData>): (r: Result<bool, string>)
    ensures diagnosis.None? ==> r == Success(true)
    ensures diagnosis.Some? && diagnosis.value.topCondition == "NSR" && diagnosis.value.confidence > 0.7
            ==> r == Success(true)
    ensures r.Failure? <==>
      (diagnosis.Some? && !(diagnosis.value.topCondition == "NSR" && diagnosis.value.confidence > 0.7)
       && diagnosis.value.topConditions.None?)
    ensures r == Success(false) ==>
      exists i :: 0 <= i < |diagnosis.value.topConditions.value|
                  && diagnosis.value.topConditions.value[i].probability > 0.5
  {
    match diagnosis
    case None => Success(true)
    case Some(d) =>
      if d.topCondition == "NSR" && d.confidence > 0.7 then Success(true)
      else if d.topConditions.None? then Failure("NullReferenceException")
      else Success(NoLikelyCondition(d.topConditions.value))
  }

  /** Unhealthy exactly when the rhythm is not confidently normal and some
      listed condition is more likely than 0.5. */
  lemma UnhealthyIff(d: DiagnosisData)
    requires d.topConditions.Some?
    ensures IsHealthy(Some(d)) == Success(false) <==>
      !(d.topCondition == "NSR" && d.confidence > 0.7)
      && exists i :: 0 <= i < |d.topConditions.value| && d.topConditions.value[i].probability > 0.5
  {
  }

  datatype HeartRateData = HeartRateData(bpm: real, leadUsed: string, leadQuality: real)

  /** ECGDataExtensions.IsNormalRange: 60 to 100 beats per minute, inclusive;
      a null record counts as normal. */
  function IsNormalRange(heartRate: Option<HeartRateData>): (r: bool)
    ensures heartRate.None? ==> r
    ensures heartRate.Some? ==> (r <==> 60.0 <= heartRate.value.bpm <= 100.0)
  {
    heartRate.None? || (heartRate.value.bpm >= 60.0 && heartRate.value.bpm <= 100.0)
  }

  /** ECGDataExtensions.GetCategory. */
  function GetCategory(heartRate: Option<HeartRateData>): (category: string)
    ensures heartRate.None? <==> category == "Unknown"
    ensures heartRate.Some? ==> (category == "Bradycardia" <==> heartRate.value.bpm < 60.0)
    ensures heartRate.Some? ==> (category == "Tachycardia" <==> heartRate.value.bpm > 100.0)
  {
    match heartRate
    case None => "Unknown"
    case Some(h) =>
      if h.bpm < 60.0 then "Bradycardia"
      else if h.bpm > 100.0 then "Tachycardia"
      else "Normal"
  }

  /** For a present record the category is "Normal" exactly when the rate is
      in the normal range; a null record is in range but of unknown category. */
  lemma CategoryAgreesWithRange(heartRate: Option<HeartRateData>)
    ensures heartRate.Some? ==> (GetCategory(heartRate) == "Normal" <==> IsNormalRange(heartRate))
    ensures heartRate.None? ==> IsNormalRange(heartRate) && GetCategory(heartRate) != "Normal"
  {
  }

  datatype BeatIntervals = BeatIntervals(prIntervalMs: real, qrsDurationMs: real, qtIntervalMs: real)

  /** ECGDataExtensions.IsWideQRS: QRS longer than 120 ms; never for null. */
  function IsWideQRS(intervals: Option<BeatIntervals>): (r: bool)
    ensures r <==> intervals.Some? && intervals.value.qrsDurationMs > 120.0
  {
    match intervals
    case None => false
    case Some(iv) => iv.qrsDurationMs > 120.0
  }

  /** ECGDataExtensions.IsProlongedPR: PR longer than 200 ms; never for null. */
  function IsProlongedPR(intervals: Option<BeatIntervals>): (r: bool)
    ensures r <==> intervals.Some? && intervals.value.prIntervalMs > 200.0
  {
    match intervals
    case None => false
    case Some(iv) => iv.prIntervalMs > 200.0
  }
}
