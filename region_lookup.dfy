/** The registry of the ten cardiac region markers in the VR scene: it maps
    each backend region name to the marker object that shows that region,
    and pushes health data from the backend into the markers. Lights,
    materials, particles and gizmos are not modelled; a marker keeps the
    severity and colour it shows. */
module RegionLookup {
  import opened Wrappers
  import opened EcgData
  import RegionMapper
  import Stats

  datatype Vector3 = Vector3(x: real, y: real, z: real)

  const Zero: Vector3 := Vector3(0.0, 0.0, 0.0)

  /** A cardiac region marker: its region name, its position in the scene and
      the severity and colour it currently shows. */
  class RegionMarker {
    const regionName: string
    const position: Vector3
    var severity: real
    var currentColor: Color

    /** A new marker shows a healthy (zero, green) region. */
    constructor (regionName: string, position: Vector3)
      ensures this.regionName == regionName && this.position == position
      ensures severity == 0.0 && currentColor == Green
    {
      this.regionName := regionName;
      this.position := position;
      severity := 0.0;
      currentColor := Green;
    }

    /** UpdateVisualization: the severity is clamped to [0, 1]; the colour is
        taken as given. */
    method UpdateVisualization(newSeverity: real, newColor: Color)
      modifies this
      ensures severity == Stats.Clamp01(newSeverity) && currentColor == newColor
    {
      severity := Stats.Clamp01(newSeverity);
      currentColor := newColor;
    }
  }

  /** The scene object an inspector entry points at, with the marker
      component it may carry. */
  datatype SceneObject = SceneObject(marker: Option<RegionMarker>)

  /** An inspector entry: its name (not used for lookup) and its object,
      which may be null. */
  datatype HeartRegion = HeartRegion(regionName: string, regionObject: Option<SceneObject>)

  /** The marker an entry contributes: none for a null object or an object
      without a marker component. */
  function MarkerOf(r: HeartRegion): Option<RegionMarker>
  {
    if r.regionObject.Some? then r.regionObject.value.marker else None
  }

  /** The lookup built from the entries in order, each marker registered
      under its own region name unless that name is already taken. */
  function Registry(regions: seq<HeartRegion>): map<string, RegionMarker>
  {
    if regions == [] then map[]
    else
      var lookup := Registry(regions[..|regions| - 1]);
      var m := MarkerOf(regions[|regions| - 1]);
      if m.Some? && m.value.regionName !in lookup then lookup[m.value.regionName := m.value]
      else lookup
  }

  /** A name is registered exactly when some entry carries a marker of that
      name, and it is registered to the marker of the first such entry. */
  lemma {:induction false} FirstRegistrationWins(regions: seq<HeartRegion>, name: string)
    ensures name in Registry(regions) <==>
      exists i :: 0 <= i < |regions| && MarkerOf(regions[i]).Some? && MarkerOf(regions[i]).value.regionName == name
    ensures forall i :: 0 <= i < |regions| && MarkerOf(regions[i]).Some? && MarkerOf(regions[i]).value.regionName == name
              && (forall j :: 0 <= j < i ==> MarkerOf(regions[j]).None? || MarkerOf(regions[j]).value.regionName != name)
              ==> name in Registry(regions) && Registry(regions)[name] == MarkerOf(regions[i]).value
  {
    if regions != [] {
      var init := regions[..|regions| - 1];
      FirstRegistrationWins(init, name);
      assert forall j :: 0 <= j < |init| ==> init[j] == regions[j];
    }
  }

  /** Every registered marker is registered under its own name. */
  lemma {:induction false} RegisteredUnderOwnName(regions: seq<HeartRegion>)
    ensures forall k :: k in Registry(regions) ==> Registry(regions)[k].regionName == k
  {
    if regions != [] {
      RegisteredUnderOwnName(regions[..|regions| - 1]);
    }
  }

  /** The ten regions every heart model must configure. */
  const RequiredRegions: seq<string> :=
    ["sa_node", "ra", "la", "av_node", "bundle_his", "rbbb", "lbbb", "purkinje", "rv", "lv"]

  /** The number of the given names that are not registered. */
  function CountMissing(names: seq<string>, lookup: map<string, RegionMarker>): (n: nat)
    ensures n <= |names|
    ensures n == 0 <==> forall i :: 0 <= i < |names| ==> names[i] in lookup
  {
    if names == [] then 0
    else
      var rest := CountMissing(names[..|names| - 1], lookup);
      assert forall i :: 0 <= i < |names| - 1 ==> names[..|names| - 1][i] == names[i];
      rest + (if names[|names| - 1] in lookup then 0 else 1)
  }

  /** The health data the backend sends for a region. */
  datatype RegionHealthData = RegionHealthData(severity: real, color: seq<real>)

  /** Health data keyed by region name has each name once. */
  predicate DistinctNames(data: seq<(string, RegionHealthData)>)
  {
    forall i, j :: 0 <= i < j < |data| ==> data[i].0 != data[j].0
  }

  /** The colour `new Color(r, g, b)` built from a backend RGB array. */
  function ColorOf(h: RegionHealthData): Color
    requires |h.color| >= 3
  {
    Color(h.color[0], h.color[1], h.color[2], 1.0)
  }

  class HeartRegionMapping {
    var heartRegions: seq<HeartRegion>
    var regionLookup: map<string, RegionMarker>

    /** Every marker in the lookup is registered under its own name, so no
        marker is registered twice. */
    ghost predicate Valid()
      reads this
    {
      forall k :: k in regionLookup ==> regionLookup[k].regionName == k
    }

    ghost function Markers(): set<RegionMarker>
      reads this
    {
      set k | k in regionLookup :: regionLookup[k]
    }

    constructor (heartRegions: seq<HeartRegion>)
      ensures this.heartRegions == heartRegions && regionLookup == map[] && Valid()
    {
      this.heartRegions := heartRegions;
      regionLookup := map[];
    }

    /** InitializeRegionLookup: the lookup is cleared and rebuilt from the
        inspector entries, first registration first. */
    method InitializeRegionLookup()
      modifies this`regionLookup
      ensures regionLookup == Registry(heartRegions)
      ensures Valid()
    {
      regionLookup := map[];
      var i := 0;
      while i < |heartRegions|
        invariant 0 <= i <= |heartRegions|
        invariant regionLookup == Registry(heartRegions[..i])
      {
        assert heartRegions[..i + 1][..i] == heartRegions[..i];
        var region := heartRegions[i];
        if region.regionObject.Some? {
          var marker := region.regionObject.value.marker;
          if marker.Some? {
            var key := marker.value.regionName;
            if key !in regionLookup {
              regionLookup := regionLookup[key := marker.value];
            }
          }
        }
        i := i + 1;
      }
      assert heartRegions[..i] == heartRegions;
      RegisteredUnderOwnName(heartRegions);
    }

    /** ValidateRegions: the number of required regions that are not
        registered. */
    method ValidateRegions() returns (missingCount: nat)
      ensures missingCount == CountMissing(RequiredRegions, regionLookup)
      ensures missingCount <= 10
      ensures missingCount == 0 <==> forall i :: 0 <= i < |RequiredRegions| ==> RequiredRegions[i] in regionLookup
    {
      var required := RequiredRegions;
      missingCount := 0;
      var i := 0;
      while i < |required|
        invariant 0 <= i <= |required|
        invariant missingCount == CountMissing(required[..i], regionLookup)
      {
        assert required[..i + 1][..i] == required[..i];
        if required[i] !in regionLookup {
          missingCount := missingCount + 1;
        }
        i := i + 1;
      }
      assert required[..i] == required;
    }

    /** GetRegion: the registered marker, or null. */
    method GetRegion(regionName: string) returns (marker: Option<RegionMarker>)
      ensures marker.Some? <==> regionName in regionLookup
      ensures marker.Some? ==> marker.value == regionLookup[regionName]
    {
      if regionName in regionLookup {
        return Some(regionLookup[regionName]);
      }
      return None;
    }

    /** GetRegionPosition: the registered marker's position, or the zero
        vector for an unknown name. */
    method GetRegionPosition(regionName: string) returns (p: Vector3)
      ensures regionName in regionLookup ==> p == regionLookup[regionName].position
      ensures regionName !in regionLookup ==> p == Zero
    {
      var region := GetRegion(regionName);
      if region.Some? {
        return region.value.position;
      }
      return Zero;
    }

    /** UpdateAllRegions: each registered region named in the health data
        shows that data's severity (clamped) and colour; other markers and
        the lookup itself are unchanged; names that are not registered are
        ignored. */
    method UpdateAllRegions(healthData: seq<(string, RegionHealthData)>)
      requires Valid() && DistinctNames(healthData)
      requires forall i :: 0 <= i < |healthData| && healthData[i].0 in regionLookup ==> |healthData[i].1.color| >= 3
      modifies Markers()
      ensures forall i :: 0 <= i < |healthData| && healthData[i].0 in regionLookup ==>
        regionLookup[healthData[i].0].severity == Stats.Clamp01(healthData[i].1.severity)
        && regionLookup[healthData[i].0].currentColor == ColorOf(healthData[i].1)
      ensures forall k :: k in regionLookup && (forall i :: 0 <= i < |healthData| ==> healthData[i].0 != k) ==>
        regionLookup[k].severity == old(regionLookup[k].severity)
        && regionLookup[k].currentColor == old(regionLookup[k].currentColor)
    {
      var i := 0;
      while i < |healthData|
        invariant 0 <= i <= |healthData|
        invariant forall j :: 0 <= j < i && healthData[j].0 in regionLookup ==>
          regionLookup[healthData[j].0].severity == Stats.Clamp01(healthData[j].1.severity)
          && regionLookup[healthData[j].0].currentColor == ColorOf(healthData[j].1)
        invariant forall k :: k in regionLookup && (forall j :: 0 <= j < i ==> healthData[j].0 != k) ==>
          regionLookup[k].severity == old(regionLookup[k].severity)
          && regionLookup[k].currentColor == old(regionLookup[k].currentColor)
      {
        var name := healthData[i].0;
        var region := GetRegion(name);
        if region.Some? {
          region.value.UpdateVisualization(healthData[i].1.severity, ColorOf(healthData[i].1));
        }
        i := i + 1;
      }
    }

    /** ResetAllRegions: every registered marker shows a healthy region. */
    method ResetAllRegions()
      requires Valid()
      modifies Markers()
      ensures forall k :: k in regionLookup ==>
        regionLookup[k].severity == 0.0 && regionLookup[k].currentColor == Green
    {
      var pending := regionLookup.Keys;
      while pending != {}
        invariant pending <= regionLookup.Keys
        invariant forall k :: k in regionLookup && k !in pending ==>
          regionLookup[k].severity == 0.0 && regionLookup[k].currentColor == Green
        decreases pending
      {
        var k :| k in pending;
        regionLookup[k].UpdateVisualization(0.0, Green);
        pending := pending - {k};
      }
    }
  }
}
