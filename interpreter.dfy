/** The patient-facing medical interpreter: it asks the language model for an
    interpretation and, when there is no usable reply, builds one from a fixed
    table keyed by the top condition. The explanatory texts of the table, the
    prompt and the model call are not modelled; what is kept is which table
    entry is used, its overall severity, the most affected region and the
    regions to highlight. */
module MedicalInterpreter {
  import opened Wrappers
  import RegionMapper
  import opened LlmResponse

  /** The overall severity an explanation entry carries. */
  datatype Level = Low | Moderate | High

  /** The explanation table: its keys and each entry's overall severity. */
  const PatientFallbacks: map<string, Level> :=
    map["RBBB" := Moderate, "LBBB" := Moderate, "atrial_fibrillation" := High,
        "sinus_bradycardia" := Low, "sinus_tachycardia" := Low,
        "1st_degree_AV_block" := Low, "normal" := Low]

  /** dict.get(top, table['normal']): the entry used for a condition. */
  function FallbackEntry(table: set<string>, top: string): (k: string)
  {
    if top in table then top else "normal"
  }

  /** The index Python's max(region_health.items(), key=severity) picks: a
      largest severity, and the first one among equals. */
  function MostSevereIndex(health: seq<RegionMapper.RegionHealth>): (k: nat)
    requires |health| > 0
    ensures k < |health|
    ensures forall j :: 0 <= j < |health| ==> health[j].severity <= health[k].severity
    ensures forall j :: 0 <= j < k ==> health[j].severity < health[k].severity
  {
    if |health| == 1 then 0
    else
      var k := MostSevereIndex(health[..|health| - 1]);
      if health[|health| - 1].severity > health[k].severity then |health| - 1 else k
  }

  /** The most affected region and its severity. */
  datatype Affected = Affected(region: string, severity: real)

  /** The most affected region, or ("none", 0.0) when there is no region
      health at all. */
  function MostAffected(health: seq<RegionMapper.RegionHealth>): (m: Affected)
    ensures health == [] ==> m == Affected("none", 0.0)
    ensures health != [] ==>
      exists k :: 0 <= k < |health| && health[k].region == m.region && health[k].severity == m.severity
                  && forall j :: 0 <= j < k ==> health[j].severity < m.severity
    ensures forall j :: 0 <= j < |health| ==> health[j].severity <= m.severity
  {
    if health == [] then Affected("none", 0.0)
    else
      var k := MostSevereIndex(health);
      Affected(health[k].region, health[k].severity)
  }

  /** The regions the visualisation should highlight. */
  function HighlightRegions(region: string): (r: seq<string>)
    ensures r == [] <==> region == "none"
    ensures r != [] ==> r == [region]
  {
    if region != "none" then [region] else []
  }

  /** The structured part of a fallback interpretation. */
  datatype Interpretation = Interpretation(
    entry: string,
    overall: Level,
    mostAffected: Affected,
    highlightRegions: seq<string>)

  /** get_fallback_interpretation. */
  function GetFallbackInterpretation(top: string, health: seq<RegionMapper.RegionHealth>): (r: Interpretation)
    ensures r.entry in PatientFallbacks && r.overall == PatientFallbacks[r.entry]
    ensures top in PatientFallbacks ==> r.entry == top
    ensures top !in PatientFallbacks ==> r.entry == "normal" && r.overall == Low
    ensures forall j :: 0 <= j < |health| ==> health[j].severity <= r.mostAffected.severity
    ensures health == [] ==> r.mostAffected == Affected("none", 0.0) && r.highlightRegions == []
    ensures r.highlightRegions == [] <==> r.mostAffected.region == "none"
    ensures r.highlightRegions != [] ==> r.highlightRegions == [r.mostAffected.region]
  {
    var entry := FallbackEntry(PatientFallbacks.Keys, top);
    var m := MostAffected(health);
    Interpretation(entry, PatientFallbacks[entry], m, HighlightRegions(m.region))
  }

  /** Only atrial fibrillation is rated high. */
  lemma HighOnlyForAtrialFibrillation(top: string, health: seq<RegionMapper.RegionHealth>)
    ensures GetFallbackInterpretation(top, health).overall == High <==> top == "atrial_fibrillation"
  {
    var r := GetFallbackInterpretation(top, health);
    if r.overall == High {
      assert r.entry == "atrial_fibrillation";
    }
  }

  /** The result of interpret_ecg_analysis: the model's decoded reply, or the
      fallback interpretation. */
  datatype Outcome = FromLlm(json: Json) | Fallback(interpretation: Interpretation)

  /** interpret_ecg_analysis: the model's reply is used only when it decodes to
      a truthy value; otherwise (no client, a failing call, undecodable or
      falsy text) the fallback interpretation is returned. */
  function InterpretEcgAnalysis(reply: Reply, decode: string -> Option<Json>,
                                top: string, health: seq<RegionMapper.RegionHealth>): (r: Outcome)
    ensures r.FromLlm? <==> UsableReply(reply, decode).Some?
    ensures r.FromLlm? ==>
      (reply.Replied? && Truthy(r.json) && ParseLlmResponse(reply.text, decode) == Some(r.json))
    ensures r.Fallback? ==> r.interpretation == GetFallbackInterpretation(top, health)
  {
    match UsableReply(reply, decode)
    case Some(j) => FromLlm(j)
    case None => Fallback(GetFallbackInterpretation(top, health))
  }
}
