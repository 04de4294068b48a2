/** The clinical decision-support module: one entry point serving three
    output modes (clinical expert, patient education, storytelling), each
    with a built-in fallback used when the language model gives no usable
    reply. Narrative texts, prompts and the model call are not modelled;
    what is kept is which table entry is used, the urgency, the split of the
    work-up list, the referral and emphasis lists, the storytelling focus
    region, narrative choice and severity banding, and the mode check. */
module ClinicalSupport {
  import opened Wrappers
  import opened PyText
  import opened LlmResponse
  import RegionMapper
  import MedicalInterpreter

  datatype Urgency = Routine | Urgent | Immediate

  /** Urgency in increasing order. */
  function UrgencyRank(u: Urgency): nat
  {
    match u
    case Routine => 0
    case Urgent => 1
    case Immediate => 2
  }

  /** The parts of a clinical fallback entry the guidance is shaped from. */
  datatype ClinicalEntry = ClinicalEntry(urgency: Urgency, workup: seq<string>)

  /** The clinical fallback table. */
  const ClinicalFallbacks: map<string, ClinicalEntry> := map[
    "RBBB" := ClinicalEntry(Routine, [
      "Transthoracic echocardiogram to assess RV size/function",
      "If dyspnea: BNP, D-dimer to rule out PE/RV strain",
      "Baseline troponin if chest pain present"]),
    "LBBB" := ClinicalEntry(Urgent, [
      "Troponin (stat if chest pain)",
      "Echocardiogram to assess LV function/EF",
      "Compare with prior ECGs if available"]),
    "atrial_fibrillation" := ClinicalEntry(Urgent, [
      "TSH, basic metabolic panel",
      "Echocardiogram",
      "CHA2DS2-VASc score calculation",
      "HAS-BLED bleeding risk assessment"]),
    "sinus_bradycardia" := ClinicalEntry(Routine, [
      "Medication review",
      "TSH",
      "Assess for symptoms (dizziness, syncope, fatigue)"]),
    "sinus_tachycardia" := ClinicalEntry(Routine, [
      "Identify underlying cause",
      "If persistent: TSH, CBC, basic metabolic panel",
      "If dyspnea/chest pain: D-dimer, troponin"]),
    "1st_degree_AV_block" := ClinicalEntry(Routine, [
      "Medication review",
      "If progressive: serial ECGs",
      "Consider EP study if high-grade AV block suspected"]),
    "normal" := ClinicalEntry(Routine, ["None required for isolated normal ECG"])]

  /** The recommended work-up, split into tests to do now and later. */
  datatype Workup = Workup(immediate: seq<string>, followUp: seq<string>)

  /** The first two tests are immediate, the rest follow up; nothing is lost
      or reordered. */
  function SplitWorkup(tests: seq<string>): (w: Workup)
    ensures w.immediate + w.followUp == tests
    ensures |w.immediate| == if |tests| < 2 then |tests| else 2
  {
    Workup(if |tests| >= 2 then tests[..2] else tests,
           if |tests| > 2 then tests[2..] else [])
  }

  const CardiologyReferral: string := "Cardiology for risk stratification"

  /** The structured part of the clinical-expert guidance. */
  datatype ClinicalGuidance = ClinicalGuidance(
    entry: string,
    urgency: Urgency,
    strokeRiskElevated: bool,
    workup: Workup,
    specialistReferrals: seq<string>,
    mostAffected: MedicalInterpreter.Affected,
    regionsToEmphasize: seq<string>)

  /** get_clinical_expert_fallback. */
  function ClinicalExpertFallback(top: string, health: seq<RegionMapper.RegionHealth>): (g: ClinicalGuidance)
    ensures g.entry in ClinicalFallbacks && g.urgency == ClinicalFallbacks[g.entry].urgency
    ensures top in ClinicalFallbacks ==> g.entry == top
    ensures top !in ClinicalFallbacks ==> g.entry == "normal"
    ensures g.workup.immediate + g.workup.followUp == ClinicalFallbacks[g.entry].workup
    ensures g.specialistReferrals != [] <==> g.urgency != Routine
    ensures g.strokeRiskElevated <==> top == "atrial_fibrillation"
    ensures forall j :: 0 <= j < |health| ==> health[j].severity <= g.mostAffected.severity
    ensures g.regionsToEmphasize == [] <==> g.mostAffected.region == "none"
  {
    var entry := MedicalInterpreter.FallbackEntry(ClinicalFallbacks.Keys, top);
    var e := ClinicalFallbacks[entry];
    var m := MedicalInterpreter.MostAffected(health);
    ClinicalGuidance(
      entry, e.urgency, top == "atrial_fibrillation", SplitWorkup(e.workup),
      if e.urgency != Routine then [CardiologyReferral] else [],
      m, MedicalInterpreter.HighlightRegions(m.region))
  }

  /** An unrecognised condition gets the routine 'normal' guidance: one
      immediate test, nothing to follow up, no referral. */
  lemma UnknownConditionIsRoutine(top: string, health: seq<RegionMapper.RegionHealth>)
    requires top !in ClinicalFallbacks
    ensures ClinicalExpertFallback(top, health).urgency == Routine
    ensures ClinicalExpertFallback(top, health).workup
         == Workup(["None required for isolated normal ECG"], [])
    ensures ClinicalExpertFallback(top, health).specialistReferrals == []
  {
    var g := ClinicalExpertFallback(top, health);
    assert g.workup.immediate == ClinicalFallbacks["normal"].workup;
  }

  /** Referral is made exactly for bundle branch block on the left and atrial
      fibrillation; the latter also raises the stroke risk. */
  lemma ReferredConditions(top: string, health: seq<RegionMapper.RegionHealth>)
    ensures ClinicalExpertFallback(top, health).specialistReferrals != []
        <==> top == "LBBB" || top == "atrial_fibrillation"
  {
    var g := ClinicalExpertFallback(top, health);
    if g.urgency != Routine {
      assert g.entry == "LBBB" || g.entry == "atrial_fibrillation";
    }
  }

  // ---------------------------------------------------------------------
  // Storytelling

  /** The regions the storytelling table has an entry for. */
  const StoryRegions: set<string> :=
    {"sa_node", "rbbb", "lbbb", "av_node", "ra", "la", "rv", "lv", "purkinje", "bundle_his"}

  /** The conditions the patient-impact table has a text for. */
  const ImpactConditions: set<string> :=
    {"RBBB", "LBBB", "atrial_fibrillation", "sinus_bradycardia", "sinus_tachycardia",
     "1st_degree_AV_block", "normal"}

  datatype SeverityLevel = Normal | Mild | Moderate | Severe | Critical

  function LevelRank(l: SeverityLevel): nat
  {
    match l
    case Normal => 0
    case Mild => 1
    case Moderate => 2
    case Severe => 3
    case Critical => 4
  }

  /** The severity band of a region: a level and an urgency. */
  datatype Band = Band(level: SeverityLevel, urgency: Urgency)

  function SeverityBand(severity: real): (b: Band)
    ensures b.level == Normal <==> severity < 0.2
    ensures b.level == Critical <==> severity >= 0.8
    ensures b.urgency == Routine <==> severity < 0.4
    ensures b.urgency == Immediate <==> severity >= 0.8
  {
    if severity < 0.2 then Band(Normal, Routine)
    else if severity < 0.4 then Band(Mild, Routine)
    else if severity < 0.6 then Band(Moderate, Urgent)
    else if severity < 0.8 then Band(Severe, Urgent)
    else Band(Critical, Immediate)
  }

  /** A higher severity never gives a lower level or a lower urgency. */
  lemma BandMonotone(s1: real, s2: real)
    requires s1 <= s2
    ensures LevelRank(SeverityBand(s1).level) <= LevelRank(SeverityBand(s2).level)
    ensures UrgencyRank(SeverityBand(s1).urgency) <= UrgencyRank(SeverityBand(s2).urgency)
  {
  }

  /** region_health.get(region, {'severity': 0.0})['severity']. */
  function SeverityOf(health: seq<RegionMapper.RegionHealth>, region: string): (s: real)
    ensures (exists k :: 0 <= k < |health| && health[k].region == region && health[k].severity == s)
         || (s == 0.0 && forall k :: 0 <= k < |health| ==> health[k].region != region)
  {
    if health == [] then 0.0
    else if health[0].region == region then health[0].severity
    else
      var s := SeverityOf(health[1..], region);
      assert forall k :: 1 <= k < |health| ==> health[k] == health[1..][k - 1];
      s
  }

  /** Region health is a dictionary: no region occurs twice. */
  predicate DistinctRegions(health: seq<RegionMapper.RegionHealth>)
  {
    forall i, j :: 0 <= i < j < |health| ==> health[i].region != health[j].region
  }

  /** Python truthiness of the optional region_focus argument. */
  predicate GivenFocus(regionFocus: Option<string>)
  {
    regionFocus.Some? && regionFocus.value != []
  }

  /** The region the story is told at. */
  function FocusRegion(regionFocus: Option<string>, health: seq<RegionMapper.RegionHealth>, top: string): string
  {
    if GivenFocus(regionFocus) then Lower(regionFocus.value)
    else if health != [] then MedicalInterpreter.MostAffected(health).region
    else Lower(top)
  }

  datatype Narrative = NormalNarrative | AbnormalNarrative

  /** The structured part of the storytelling fallback. */
  datatype Story = Story(
    currentLocation: string,
    entry: string,
    severity: real,
    narrative: Narrative,
    band: Band,
    primaryPathology: string,
    impactKnown: bool)

  /** get_storytelling_fallback. */
  function StorytellingFallback(top: string, health: seq<RegionMapper.RegionHealth>,
                                regionFocus: Option<string>): (st: Story)
    ensures st.entry in StoryRegions
    ensures st.currentLocation in StoryRegions ==> st.entry == st.currentLocation
    ensures st.currentLocation !in StoryRegions ==> st.entry == "sa_node"
    ensures (exists k :: 0 <= k < |health| && health[k].region == st.currentLocation && health[k].severity == st.severity)
         || (st.severity == 0.0 && forall k :: 0 <= k < |health| ==> health[k].region != st.currentLocation)
    ensures st.narrative == AbnormalNarrative <==> st.severity > 0.5
    ensures st.band == SeverityBand(st.severity)
    ensures st.primaryPathology == top
    ensures st.impactKnown <==> top in ImpactConditions
  {
    var focus := FocusRegion(regionFocus, health, top);
    var entry := if focus in StoryRegions then focus else "sa_node";
    var severity := SeverityOf(health, focus);
    Story(focus, entry, severity,
          if severity > 0.5 then AbnormalNarrative else NormalNarrative,
          SeverityBand(severity), top, top in ImpactConditions)
  }

  /** Focus selection: a given focus (lowercased) wins; otherwise the most
      affected region, told at its maximal severity; with no region health
      at all, the lowercased condition name, at severity zero, which gives
      the normal narrative and the routine band. */
  lemma StoryFocus(top: string, health: seq<RegionMapper.RegionHealth>, regionFocus: Option<string>)
    requires DistinctRegions(health)
    ensures GivenFocus(regionFocus) ==>
      StorytellingFallback(top, health, regionFocus).currentLocation == Lower(regionFocus.value)
    ensures !GivenFocus(regionFocus) && health != [] ==>
      forall j :: 0 <= j < |health| ==> health[j].severity <= StorytellingFallback(top, health, regionFocus).severity
    ensures !GivenFocus(regionFocus) && health == [] ==>
      var st := StorytellingFallback(top, health, regionFocus);
      st.currentLocation == Lower(top) && st.narrative == NormalNarrative && st.band == Band(Normal, Routine)
  {
    var st := StorytellingFallback(top, health, regionFocus);
    if !GivenFocus(regionFocus) && health != [] {
      var m := MedicalInterpreter.MostAffected(health);
      var k :| 0 <= k < |health| && health[k].region == m.region && health[k].severity == m.severity
               && forall j :: 0 <= j < k ==> health[j].severity < m.severity;
      SeverityIsFirstMatch(health, m.region, k);
    }
  }

  /** The severity looked up for a region is that of its first entry. */
  lemma {:induction false} SeverityIsFirstMatch(health: seq<RegionMapper.RegionHealth>, region: string, k: nat)
    requires k < |health| && health[k].region == region
    requires forall j :: 0 <= j < k ==> health[j].region != region || health[j].severity == health[k].severity
    ensures SeverityOf(health, region) == health[k].severity
  {
    if health[0].region != region {
      SeverityIsFirstMatch(health[1..], region, k - 1);
    }
  }

  /** The abnormal narrative is always told with at least urgent urgency, but
      a severity in [0.4, 0.5] is already urgent while still told with the
      normal narrative. */
  lemma NarrativeAndUrgency(s: real)
    ensures s > 0.5 ==> SeverityBand(s).urgency != Routine
    ensures 0.4 <= s <= 0.5 ==> SeverityBand(s).urgency == Urgent
  {
  }

  // ---------------------------------------------------------------------
  // Entry point

  const Modes: seq<string> := ["clinical_expert", "patient_education", "storytelling"]

  /** What analyze returns: the model's decoded reply or one of the three
      fallbacks. */
  datatype Guidance =
    | FromLlm(json: Json)
    | Clinical(clinical: ClinicalGuidance)
    | PatientEducation(education: MedicalInterpreter.Interpretation)
    | Storytelling(story: Story)

  /** analyze: a ValueError for an unknown mode, raised before anything else;
      otherwise a usable model reply, or else the fallback of the mode. The
      patient-education table has the same entries and severities as the
      interpreter's, so its fallback is the interpreter's. */
  function Analyze(mode: string, reply: Reply, decode: string -> Option<Json>,
                   top: string, health: seq<RegionMapper.RegionHealth>,
                   regionFocus: Option<string>): (r: Result<Guidance, string>)
    ensures r.Failure? <==> mode !in Modes
    ensures r.Success? && r.value.FromLlm? ==> UsableReply(reply, decode) == Some(r.value.json)
    ensures r.Success? && !r.value.FromLlm? ==> UsableReply(reply, decode).None?
    ensures r.Success? && r.value.Clinical? ==> mode == "clinical_expert"
    ensures r.Success? && r.value.PatientEducation? ==> mode == "patient_education"
    ensures r.Success? && r.value.Storytelling? ==> mode == "storytelling"
    ensures mode == "clinical_expert" && UsableReply(reply, decode).None? ==>
      r == Success(Clinical(ClinicalExpertFallback(top, health)))
    ensures mode == "storytelling" && UsableReply(reply, decode).None? ==>
      r == Success(Storytelling(StorytellingFallback(top, health, regionFocus)))
    ensures mode == "patient_education" && UsableReply(reply, decode).None? ==>
      r == Success(PatientEducation(MedicalInterpreter.GetFallbackInterpretation(top, health)))
  {
    if mode !in Modes then
      Failure("Invalid output_mode: " + mode)
    else
      match UsableReply(reply, decode)
      case Some(j) => Success(FromLlm(j))
      case None =>
        if mode == "clinical_expert" then Success(Clinical(ClinicalExpertFallback(top, health)))
        else if mode == "storytelling" then Success(Storytelling(StorytellingFallback(top, health, regionFocus)))
        else Success(PatientEducation(MedicalInterpreter.GetFallbackInterpretation(top, health)))
  }

  /** The legacy entry point: analyze in patient-education mode. */
  function InterpretEcgAnalysis(reply: Reply, decode: string -> Option<Json>,
                                top: string, health: seq<RegionMapper.RegionHealth>): (r: Result<Guidance, string>)
    ensures r.Success?
  {
    Analyze("patient_education", reply, decode, top, health, None)
  }

  /** The legacy entry point behaves exactly like the medical interpreter's. */
  lemma LegacyAgreesWithInterpreter(reply: Reply, decode: string -> Option<Json>,
                                    top: string, health: seq<RegionMapper.RegionHealth>)
    ensures var r := InterpretEcgAnalysis(reply, decode, top, health);
      match MedicalInterpreter.InterpretEcgAnalysis(reply, decode, top, health)
      case FromLlm(j) => r == Success(FromLlm(j))
      case Fallback(i) => r == Success(PatientEducation(i))
  {
  }
}
