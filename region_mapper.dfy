/** The heart region mapper (HeartRegionMapper): condition probabilities are
    turned into a severity, a colour, an activation delay and the list of
    affecting conditions for each of ten anatomical regions, and the regions
    are ordered by activation time.

    A predictions dict is modelled as the sequence of its items in insertion
    order; a region-health dict as the sequence of its entries in insertion
    order. */
module RegionMapper {
  import opened Wrappers
  import Stats

  datatype Prediction = Prediction(condition: string, probability: real)

  /** The ten regions, in the insertion order of the normal-delay table. */
  const Regions: seq<string> :=
    ["sa_node", "ra", "la", "av_node", "bundle_his", "rbbb", "lbbb", "purkinje", "rv", "lv"]

  /** Normal activation delay of each region, in ms. */
  const NormalDelays: map<string, int> :=
    map["sa_node" := 0, "ra" := 25, "la" := 30, "av_node" := 50, "bundle_his" := 150,
        "rbbb" := 160, "lbbb" := 160, "purkinje" := 180, "rv" := 200, "lv" := 200]

  /** Condition → (region → severity multiplier). */
  const ConditionRegionMap: map<string, map<string, real>> :=
    map[
      "RBBB" := map["rbbb" := 1.0, "rv" := 0.7, "purkinje" := 0.4],
      "LBBB" := map["lbbb" := 1.0, "lv" := 0.7, "purkinje" := 0.4],
      "sinus_bradycardia" := map["sa_node" := 1.0, "ra" := 0.2, "la" := 0.2],
      "sinus_tachycardia" := map["sa_node" := 1.0, "ra" := 0.2, "la" := 0.2],
      "atrial_fibrillation" := map["ra" := 1.0, "la" := 1.0, "av_node" := 0.75],
      "1st_degree_AV_block" := map["av_node" := 1.0, "bundle_his" := 0.5]
    ]

  /** Condition → (region → abnormal activation delay in ms). */
  const AbnormalDelays: map<string, map<string, int>> :=
    map[
      "RBBB" := map["rbbb" := 320, "rv" := 360, "purkinje" := 234],
      "LBBB" := map["lbbb" := 320, "lv" := 360, "purkinje" := 234],
      "atrial_fibrillation" := map["ra" := 0, "la" := 0, "av_node" := 65]
    ]

  /** Probability above which a condition is listed as affecting a region. */
  const ListingThreshold: real := 0.05
  /** Probability above which a condition's abnormal delay applies. */
  const OverrideThreshold: real := 0.5

  lemma RegionsAreTheDelayKeys()
    ensures forall r :: r in Regions <==> r in NormalDelays
    ensures forall i, j :: 0 <= i < j < |Regions| ==> Regions[i] != Regions[j]
  {
  }

  /** Every multiplier lies in (0, 1]. */
  lemma MultipliersInUnitRange()
    ensures forall c, r :: c in ConditionRegionMap && r in ConditionRegionMap[c] ==>
      0.0 < ConditionRegionMap[c][r] <= 1.0
  {
  }

  // ---------------------------------------------------------------------------
  // Colour
  // ---------------------------------------------------------------------------

  datatype Rgb = Rgb(r: real, g: real, b: real)

  /** severity_to_color: green → yellow → orange → red over [0, 0.75], deep
      red above; the input is clipped to [0, 1] first. */
  function SeverityToColor(severity: real): (c: Rgb)
    ensures 0.0 <= c.r <= 1.0 && 0.0 <= c.g <= 1.0 && c.b == 0.0
  {
    var s := Stats.Clamp01(severity);
    if s < 0.25 then
      var t := s / 0.25;
      Rgb(t, 1.0, 0.0)
    else if s < 0.50 then
      var t := (s - 0.25) / 0.25;
      Rgb(1.0, 1.0 - t * 0.35, 0.0)
    else if s < 0.75 then
      var t := (s - 0.50) / 0.25;
      Rgb(1.0, 0.65 - t * 0.65, 0.0)
    else
      Rgb(1.0, 0.0, 0.0)
  }

  /** The spectrum's anchor colours: green, yellow, orange, red. */
  lemma ColorAnchors()
    ensures SeverityToColor(0.0) == Rgb(0.0, 1.0, 0.0)
    ensures SeverityToColor(0.25) == Rgb(1.0, 1.0, 0.0)
    ensures SeverityToColor(0.5) == Rgb(1.0, 0.65, 0.0)
    ensures SeverityToColor(0.75) == Rgb(1.0, 0.0, 0.0)
    ensures SeverityToColor(1.0) == Rgb(1.0, 0.0, 0.0)
  {
  }

  /** Out-of-range severities saturate: at or below 0 is pure green, from 0.75
      on is pure red. */
  lemma ColorSaturates(s: real)
    ensures s <= 0.0 ==> SeverityToColor(s) == Rgb(0.0, 1.0, 0.0)
    ensures s >= 0.75 ==> SeverityToColor(s) == Rgb(1.0, 0.0, 0.0)
  {
  }

  /** A more severe region is never greener and never less red. */
  lemma ColorMonotone(s1: real, s2: real)
    requires s1 <= s2
    ensures SeverityToColor(s2).g <= SeverityToColor(s1).g
    ensures SeverityToColor(s1).r <= SeverityToColor(s2).r
  {
  }

  // ---------------------------------------------------------------------------
  // Severity
  // ---------------------------------------------------------------------------

  predicate Maps(region: string, p: Prediction)
  {
    p.condition in ConditionRegionMap && region in ConditionRegionMap[p.condition]
  }

  function Contribution(region: string, p: Prediction): real
    requires Maps(region, p)
  {
    p.probability * ConditionRegionMap[p.condition][region]
  }

  /** The severity after folding the items of `preds` in order. */
  function MaxContribution(region: string, preds: seq<Prediction>): real
  {
    if preds == [] then 0.0
    else
      var rest := MaxContribution(region, preds[..|preds| - 1]);
      var p := preds[|preds| - 1];
      if Maps(region, p) then Stats.Max(rest, Contribution(region, p)) else rest
  }

  /** The conditions listed as affecting `region`, in item order. */
  function Affecting(region: string, preds: seq<Prediction>): seq<string>
  {
    if preds == [] then []
    else
      var rest := Affecting(region, preds[..|preds| - 1]);
      var p := preds[|preds| - 1];
      if Maps(region, p) && p.probability > ListingThreshold then rest + [p.condition] else rest
  }

  /** Severity is a maximum, not a sum: it is at least 0 and every mapped
      contribution, and it is 0 or one of those contributions. */
  lemma {:induction false} SeverityIsMax(region: string, preds: seq<Prediction>)
    ensures MaxContribution(region, preds) >= 0.0
    ensures forall i :: 0 <= i < |preds| && Maps(region, preds[i]) ==>
      Contribution(region, preds[i]) <= MaxContribution(region, preds)
    ensures MaxContribution(region, preds) == 0.0 ||
      exists i :: 0 <= i < |preds| && Maps(region, preds[i]) && Contribution(region, preds[i]) == MaxContribution(region, preds)
  {
    if preds != [] {
      var init := preds[..|preds| - 1];
      SeverityIsMax(region, init);
      if MaxContribution(region, preds) != 0.0 && MaxContribution(region, preds) == MaxContribution(region, init) {
        var i :| 0 <= i < |init| && Maps(region, init[i]) && Contribution(region, init[i]) == MaxContribution(region, init);
        assert preds[i] == init[i];
      }
    }
  }

  /** With probabilities in [0, 1] the severity stays in [0, 1], since every
      multiplier is at most 1; a region no condition maps to has severity 0. */
  lemma {:induction false} SeverityBounded(region: string, preds: seq<Prediction>)
    requires forall i :: 0 <= i < |preds| ==> 0.0 <= preds[i].probability <= 1.0
    ensures 0.0 <= MaxContribution(region, preds) <= 1.0
    ensures (forall i :: 0 <= i < |preds| ==> !Maps(region, preds[i])) ==> MaxContribution(region, preds) == 0.0
  {
    if preds != [] {
      SeverityBounded(region, preds[..|preds| - 1]);
      var p := preds[|preds| - 1];
      if Maps(region, p) {
        ContributionInUnitRange(region, p);
      }
    }
  }

  /** A mapped contribution of a probability in [0, 1] lies in [0, 1]. */
  lemma ContributionInUnitRange(region: string, p: Prediction)
    requires Maps(region, p) && 0.0 <= p.probability <= 1.0
    ensures 0.0 <= Contribution(region, p) <= 1.0
  {
    MultipliersInUnitRange();
    var m := ConditionRegionMap[p.condition][region];
    assert p.probability * m <= 1.0 * m;
  }

  /** A condition is listed exactly when it maps to the region with a
      probability above 0.05. */
  lemma {:induction false} AffectingIff(region: string, preds: seq<Prediction>, c: string)
    ensures c in Affecting(region, preds) <==>
      exists i :: 0 <= i < |preds| && preds[i].condition == c && Maps(region, preds[i]) && preds[i].probability > ListingThreshold
  {
    if preds != [] {
      var init := preds[..|preds| - 1];
      AffectingIff(region, init, c);
      if c in Affecting(region, init) {
        var i :| 0 <= i < |init| && init[i].condition == c && Maps(region, init[i]) && init[i].probability > ListingThreshold;
        assert preds[i] == init[i];
      }
      if exists i :: 0 <= i < |preds| && preds[i].condition == c && Maps(region, preds[i]) && preds[i].probability > ListingThreshold {
        var i :| 0 <= i < |preds| && preds[i].condition == c && Maps(region, preds[i]) && preds[i].probability > ListingThreshold;
        if i < |init| {
          assert init[i] == preds[i];
        }
      }
    }
  }

  /** Folding one more item into the severity and the affecting list. */
  lemma FoldStep(region: string, preds: seq<Prediction>, i: nat)
    requires i < |preds|
    ensures MaxContribution(region, preds[..i + 1]) ==
      if Maps(region, preds[i]) then Stats.Max(MaxContribution(region, preds[..i]), Contribution(region, preds[i]))
      else MaxContribution(region, preds[..i])
    ensures Affecting(region, preds[..i + 1]) ==
      if Maps(region, preds[i]) && preds[i].probability > ListingThreshold
      then Affecting(region, preds[..i]) + [preds[i].condition]
      else Affecting(region, preds[..i])
  {
    assert preds[..i + 1][..i] == preds[..i];
  }

  /** calculate_region_severity (before rounding). */
  method CalculateRegionSeverity(region: string, preds: seq<Prediction>) returns (severity: real, affecting: seq<string>)
    ensures severity == MaxContribution(region, preds)
    ensures affecting == Affecting(region, preds)
  {
    severity := 0.0;
    affecting := [];
    for i := 0 to |preds|
      invariant severity == MaxContribution(region, preds[..i])
      invariant affecting == Affecting(region, preds[..i])
    {
      FoldStep(region, preds, i);
      var p := preds[i];
      if p.condition in ConditionRegionMap {
        var regionMap := ConditionRegionMap[p.condition];
        if region in regionMap {
          severity := Stats.Max(severity, Contribution(region, p));
          if p.probability > ListingThreshold {
            affecting := affecting + [p.condition];
          }
        }
      }
    }
    assert preds[..|preds|] == preds;
  }

  // ---------------------------------------------------------------------------
  // Activation delay
  // ---------------------------------------------------------------------------

  /** Item `p` replaces the delay of `region`. */
  predicate Overrides(region: string, p: Prediction)
  {
    p.probability > OverrideThreshold && p.condition in AbnormalDelays && region in AbnormalDelays[p.condition]
  }

  /** The delay after folding the items of `preds` in order, from `normal`. */
  function LastOverride(region: string, preds: seq<Prediction>, normal: int): int
  {
    if preds == [] then normal
    else
      var p := preds[|preds| - 1];
      if Overrides(region, p) then AbnormalDelays[p.condition][region]
      else LastOverride(region, preds[..|preds| - 1], normal)
  }

  /** get_activation_delay: None stands for the KeyError of an unknown region. */
  function ActivationDelay(region: string, preds: seq<Prediction>): (r: Option<int>)
    ensures r.Some? <==> region in NormalDelays
  {
    if region in NormalDelays then Some(LastOverride(region, preds, NormalDelays[region])) else None
  }

  /** With no overriding item the normal delay stays. */
  lemma {:induction false} NoOverrideKeepsNormal(region: string, preds: seq<Prediction>, normal: int)
    requires forall i :: 0 <= i < |preds| ==> !Overrides(region, preds[i])
    ensures LastOverride(region, preds, normal) == normal
  {
    if preds != [] {
      var init := preds[..|preds| - 1];
      assert forall j :: 0 <= j < |init| ==> init[j] == preds[j];
      NoOverrideKeepsNormal(region, init, normal);
    }
  }

  /** The last overriding item wins. */
  lemma {:induction false} LastOverrideWins(region: string, preds: seq<Prediction>, normal: int, k: nat)
    requires k < |preds| && Overrides(region, preds[k])
    requires forall j :: k < j < |preds| ==> !Overrides(region, preds[j])
    ensures LastOverride(region, preds, normal) == AbnormalDelays[preds[k].condition][region]
    decreases |preds|
  {
    if k < |preds| - 1 {
      var init := preds[..|preds| - 1];
      assert !Overrides(region, preds[|preds| - 1]);
      assert forall j :: 0 <= j < |init| ==> init[j] == preds[j];
      LastOverrideWins(region, init, normal, k);
    }
  }

  /** Folding one more item into the delay. */
  lemma OverrideStep(region: string, preds: seq<Prediction>, i: nat, normal: int)
    requires i < |preds|
    ensures LastOverride(region, preds[..i + 1], normal) ==
      if Overrides(region, preds[i]) then AbnormalDelays[preds[i].condition][region]
      else LastOverride(region, preds[..i], normal)
  {
    assert preds[..i + 1][..i] == preds[..i];
  }

  /** get_activation_delay: start from the normal delay (failing on an unknown
      region) and let every likely condition with an abnormal entry for the
      region replace it. */
  method GetActivationDelay(region: string, preds: seq<Prediction>) returns (delay: Option<int>)
    ensures delay == ActivationDelay(region, preds)
  {
    if region !in NormalDelays {
      return None;
    }
    var d := NormalDelays[region];
    for i := 0 to |preds|
      invariant d == LastOverride(region, preds[..i], NormalDelays[region])
    {
      OverrideStep(region, preds, i, NormalDelays[region]);
      var p := preds[i];
      if p.probability > OverrideThreshold {
        if p.condition in AbnormalDelays {
          if region in AbnormalDelays[p.condition] {
            d := AbnormalDelays[p.condition][region];
          }
        }
      }
    }
    assert preds[..|preds|] == preds;
    delay := Some(d);
  }

  // ---------------------------------------------------------------------------
  // Health status of all regions
  // ---------------------------------------------------------------------------

  datatype RegionHealth = RegionHealth(region: string, severity: real, color: Rgb, delayMs: int, affectedBy: seq<string>)

  /** get_region_health_status: one entry per region, in region order, each
      with the severity, its colour, the activation delay and the affecting
      conditions. */
  method GetRegionHealthStatus(preds: seq<Prediction>) returns (health: seq<RegionHealth>)
    ensures |health| == |Regions|
    ensures forall i :: 0 <= i < |Regions| ==>
      && health[i].region == Regions[i]
      && health[i].severity == MaxContribution(Regions[i], preds)
      && health[i].color == SeverityToColor(health[i].severity)
      && Some(health[i].delayMs) == ActivationDelay(Regions[i], preds)
      && health[i].affectedBy == Affecting(Regions[i], preds)
  {
    health := [];
    for k := 0 to |Regions|
      invariant |health| == k
      invariant forall i :: 0 <= i < k ==>
        && health[i].region == Regions[i]
        && health[i].severity == MaxContribution(Regions[i], preds)
        && health[i].color == SeverityToColor(health[i].severity)
        && Some(health[i].delayMs) == ActivationDelay(Regions[i], preds)
        && health[i].affectedBy == Affecting(Regions[i], preds)
    {
      var region := Regions[k];
      var severity, affecting := CalculateRegionSeverity(region, preds);
      var color := SeverityToColor(severity);
      var delay := GetActivationDelay(region, preds);
      health := health + [RegionHealth(region, severity, color, delay.value, affecting)];
    }
  }

  // ---------------------------------------------------------------------------
  // Activation sequence
  // ---------------------------------------------------------------------------

  datatype Activation = Activation(region: string, delayMs: int)

  predicate SortedByDelay(s: seq<Activation>)
  {
    forall i, j :: 0 <= i < j < |s| ==> s[i].delayMs <= s[j].delayMs
  }

  /** Inserts `x` after the last element whose delay is not greater than its own. */
  function StableInsert(x: Activation, s: seq<Activation>): (r: seq<Activation>)
    ensures |r| == |s| + 1
  {
    if s == [] || s[|s| - 1].delayMs <= x.delayMs then
      s + [x]
    else
      StableInsert(x, s[..|s| - 1]) + [s[|s| - 1]]
  }

  lemma {:induction false} StableInsertSorted(x: Activation, s: seq<Activation>)
    requires SortedByDelay(s)
    ensures SortedByDelay(StableInsert(x, s))
    ensures StableInsert(x, s)[|s|] == x || (s != [] && StableInsert(x, s)[|s|] == s[|s| - 1])
  {
    if s != [] && s[|s| - 1].delayMs > x.delayMs {
      var init := s[..|s| - 1];
      StableInsertSorted(x, init);
    }
  }

  lemma {:induction false} StableInsertPermutes(x: Activation, s: seq<Activation>)
    ensures multiset(StableInsert(x, s)) == multiset(s) + multiset{x}
  {
    if s != [] && s[|s| - 1].delayMs > x.delayMs {
      var init := s[..|s| - 1];
      StableInsertPermutes(x, init);
      assert s == init + [s[|s| - 1]];
    }
  }

  /** A stable sort by delay, as list.sort with a key performs it. */
  function SortByDelay(s: seq<Activation>): (r: seq<Activation>)
    ensures |r| == |s|
  {
    if s == [] then [] else StableInsert(s[|s| - 1], SortByDelay(s[..|s| - 1]))
  }

  /** The sort orders by delay. */
  lemma {:induction false} SortByDelaySorted(s: seq<Activation>)
    ensures SortedByDelay(SortByDelay(s))
  {
    if s != [] {
      SortByDelaySorted(s[..|s| - 1]);
      StableInsertSorted(s[|s| - 1], SortByDelay(s[..|s| - 1]));
    }
  }

  /** The sort only rearranges. */
  lemma {:induction false} SortByDelayPermutes(s: seq<Activation>)
    ensures multiset(SortByDelay(s)) == multiset(s)
  {
    if s != [] {
      var init := s[..|s| - 1];
      SortByDelayPermutes(init);
      StableInsertPermutes(s[|s| - 1], SortByDelay(init));
      assert s == init + [s[|s| - 1]];
    }
  }

  /** The elements with a given delay, in order. */
  function WithDelay(s: seq<Activation>, d: int): (r: seq<Activation>)
  {
    if s == [] then []
    else WithDelay(s[..|s| - 1], d) + (if s[|s| - 1].delayMs == d then [s[|s| - 1]] else [])
  }

  /** [x] when `x` has delay `d`, else []. */
  function Tie(x: Activation, d: int): seq<Activation>
  {
    if x.delayMs == d then [x] else []
  }

  lemma WithDelaySnoc(s: seq<Activation>, y: Activation, d: int)
    ensures WithDelay(s + [y], d) == WithDelay(s, d) + Tie(y, d)
  {
    assert (s + [y])[..|s + [y]| - 1] == s;
  }

  lemma {:induction false} StableInsertKeepsTies(x: Activation, s: seq<Activation>, d: int)
    ensures WithDelay(StableInsert(x, s), d) == WithDelay(s, d) + Tie(x, d)
  {
    if s == [] || s[|s| - 1].delayMs <= x.delayMs {
      WithDelaySnoc(s, x, d);
    } else {
      var init := s[..|s| - 1];
      var y := s[|s| - 1];
      assert s == init + [y];
      var inserted := StableInsert(x, init);
      assert StableInsert(x, s) == inserted + [y];
      StableInsertKeepsTies(x, init, d);
      WithDelaySnoc(inserted, y, d);
      WithDelaySnoc(init, y, d);
      assert Tie(x, d) == [] || Tie(y, d) == [];
      assert Tie(x, d) + Tie(y, d) == Tie(y, d) + Tie(x, d);
    }
  }

  /** The sort is stable: entries of equal delay keep their relative order. */
  lemma {:induction false} SortIsStable(s: seq<Activation>, d: int)
    ensures WithDelay(SortByDelay(s), d) == WithDelay(s, d)
  {
    if s != [] {
      var init := s[..|s| - 1];
      SortIsStable(init, d);
      StableInsertKeepsTies(s[|s| - 1], SortByDelay(init), d);
      assert s == init + [s[|s| - 1]];
      WithDelaySnoc(init, s[|s| - 1], d);
    }
  }

  /** get_activation_sequence: the (region, delay) pairs of the health
      entries, sorted by delay, a permutation of those pairs, with entries of
      equal delay in their original order. */
  method GetActivationSequence(health: seq<RegionHealth>) returns (sequence: seq<Activation>)
    ensures sequence == SortByDelay(Pairs(health))
    ensures SortedByDelay(sequence)
    ensures multiset(sequence) == multiset(Pairs(health))
    ensures forall d :: WithDelay(sequence, d) == WithDelay(Pairs(health), d)
  {
    var pairs := Pairs(health);
    sequence := [];
    for i := 0 to |pairs|
      invariant sequence == SortByDelay(pairs[..i])
    {
      assert pairs[..i + 1][..i] == pairs[..i];
      sequence := StableInsert(pairs[i], sequence);
    }
    assert pairs[..|pairs|] == pairs;
    SortByDelaySorted(pairs);
    SortByDelayPermutes(pairs);
    forall d ensures WithDelay(sequence, d) == WithDelay(pairs, d) {
      SortIsStable(pairs, d);
    }
  }

  function Pairs(health: seq<RegionHealth>): (r: seq<Activation>)
    ensures |r| == |health|
    ensures forall i :: 0 <= i < |health| ==> r[i] == Activation(health[i].region, health[i].delayMs)
  {
    seq(|health|, i requires 0 <= i < |health| => Activation(health[i].region, health[i].delayMs))
  }
}
