/** layers/boundaries.py: the clean-up of the ward, combined-authority, local-authority
    district and local-planning-authority boundary files. Each deletes top-level keys,
    optionally keeps only English features, reduces every feature's properties to its
    code and `name`, and optionally trims the coordinates. */
module Boundaries {
  import opened Outcomes
  import opened Json
  import opened GeoJson

  /** What distinguishes one boundary layer from another: the property holding the
      code, the name it is written under, the property holding the name, and which of
      the optional steps run. */
  datatype Layer = Layer(code: string, outCode: string, nameKey: string,
                         englandOnly: bool, deleteCrs: bool, trim: bool)

  /** `makeWards`. */
  const WARDS := Layer("WD23CD", "WD23CD", "WD23NM", true, true, true)
  /** `makeCombinedAuthorities`: no England filter. */
  const COMBINED_AUTHORITIES := Layer("CAUTH22CD", "CAUTH22CD", "CAUTH22NM", false, true, true)
  /** `makeLocalAuthorityDistricts`. */
  const LOCAL_AUTHORITY_DISTRICTS := Layer("LAD23CD", "LAD23CD", "LAD23NM", true, true, true)
  /** `makeLocalPlanningAuthorities`: `reference` becomes `LPA22CD`, only `name` is
      deleted at the top level, and the coordinates are left as they are. */
  const LOCAL_PLANNING_AUTHORITIES := Layer("reference", "LPA22CD", "name", false, false, false)

  /** `props[key][0] == "E"`: a missing key raises KeyError, an empty string or list
      IndexError, and a value that cannot be indexed TypeError. */
  function StartsWithE(props: Props, key: string): (r: Result<bool>)
    ensures r.Ok? <==>
      && key in props
      && ((props[key].Str? && props[key].s != "") || (props[key].List? && props[key].items != []))
    ensures r.Ok? && props[key].Str? ==> (r.value <==> props[key].s[0] == 'E')
    ensures r.Ok? && props[key].List? ==> (r.value <==> props[key].items[0] == Str("E"))
    ensures key !in props ==> r == Err(KeyError(key))
  {
    var code :- Lookup(props, key);
    match code
    case Str(s) => if s == "" then Err(IndexError) else Ok(s[0] == 'E')
    case List(items) => if items == [] then Err(IndexError) else Ok(items[0] == Str("E"))
    case _ => Err(TypeError)
  }

  /** The lambda handed to `filter`: whether the feature's code starts with "E". */
  function IsEnglish(key: string): Feature -> Result<bool> {
    (f: Feature) => StartsWithE(f.properties, key)
  }

  /** `list(filter(...))`: the features whose code starts with "E", in order; the
      first feature on which the test raises stops everything. */
  function KeepEngland(fs: seq<Feature>, key: string): Result<seq<Feature>> {
    TryFilter(fs, IsEnglish(key))
  }

  /** The filter fails exactly when the test raises on some feature. */
  lemma KeepEnglandFails(fs: seq<Feature>, key: string)
    ensures KeepEngland(fs, key).Ok? <==> forall i :: 0 <= i < |fs| ==> StartsWithE(fs[i].properties, key).Ok?
  {
    TryFilterFails(fs, IsEnglish(key));
  }

  /** The kept features are exactly the English ones, in their original order: the
      `j`th kept feature is the feature at the `j`th English position, the positions
      increase, and a position is listed exactly when its feature is English. */
  lemma KeepEnglandMeaning(fs: seq<Feature>, key: string)
    requires KeepEngland(fs, key).Ok?
    ensures var out := KeepEngland(fs, key).value;
      var pos := KeptPositions(fs, Passes(IsEnglish(key)));
      && |out| == |pos|
      && Increasing(pos)
      && (forall j :: 0 <= j < |pos| ==> 0 <= pos[j] < |fs| && out[j] == fs[pos[j]])
      && (forall i :: 0 <= i < |fs| ==> (i in pos <==> StartsWithE(fs[i].properties, key) == Ok(true)))
  {
    TryFilterMeaning(fs, IsEnglish(key));
    FilterMeaning(fs, Passes(IsEnglish(key)));
  }

  /** One kept feature: its properties become exactly the code and the name, and its
      coordinates are trimmed when the layer says so. */
  function Rename(f: Feature, layer: Layer, round: real -> real): Result<Feature> {
    var code :- Lookup(f.properties, layer.code);
    var name :- Lookup(f.properties, layer.nameKey);
    var renamed := f.(properties := map[layer.outCode := code, "name" := name]);
    if !layer.trim then Ok(renamed)
    else
      var coordinates :- TrimPrecision(f.geometry.coordinates, round);
      Ok(renamed.(geometry := f.geometry.(coordinates := coordinates)))
  }

  function RenameAll(fs: seq<Feature>, layer: Layer, round: real -> real): Result<seq<Feature>> {
    AllOk(seq(|fs|, i requires 0 <= i < |fs| => Rename(fs[i], layer, round)))
  }

  /** Renaming fails exactly when a feature lacks its code or name, or (when trimming)
      has a geometry that is not a float tree. Otherwise every feature, in order, has
      exactly two properties, the code under its new key and `name`; its geometry is
      trimmed or untouched as the layer says; its id and other members are kept. */
  lemma RenameAllMeaning(fs: seq<Feature>, layer: Layer, round: real -> real)
    ensures RenameAll(fs, layer, round).Ok? <==>
      forall i :: 0 <= i < |fs| ==>
        && layer.code in fs[i].properties && layer.nameKey in fs[i].properties
        && (layer.trim ==> FloatTree(fs[i].geometry.coordinates))
    ensures RenameAll(fs, layer, round).Ok? ==>
      var out := RenameAll(fs, layer, round).value;
      && |out| == |fs|
      && forall i :: 0 <= i < |fs| ==>
        && layer.code in fs[i].properties && layer.nameKey in fs[i].properties
        && out[i].properties.Keys == {layer.outCode, "name"}
        && out[i].properties["name"] == fs[i].properties[layer.nameKey]
        && (layer.outCode != "name" ==> out[i].properties[layer.outCode] == fs[i].properties[layer.code])
        && out[i].geometry.coordinates ==
           (if layer.trim then TrimPrecision(fs[i].geometry.coordinates, round).value else fs[i].geometry.coordinates)
        && out[i].geometry.members == fs[i].geometry.members
        && out[i].id == fs[i].id && out[i].members == fs[i].members
  {
    var rs := seq(|fs|, i requires 0 <= i < |fs| => Rename(fs[i], layer, round));
    forall i | 0 <= i < |fs|
      ensures rs[i].Ok? <==>
        && layer.code in fs[i].properties && layer.nameKey in fs[i].properties
        && (layer.trim ==> FloatTree(fs[i].geometry.coordinates))
    {
      TrimPrecisionShape(fs[i].geometry.coordinates, round);
    }
  }

  /** The top-level keys the layer deletes. */
  function Deleted(layer: Layer): set<string> {
    if layer.deleteCrs then {"name", "crs"} else {"name"}
  }

  /** The whole clean-up of one layer on a parsed document: the new top-level members
      and features. */
  function Clean(layer: Layer, members: Props, fs: seq<Feature>, round: real -> real): Result<(Props, seq<Feature>)> {
    if "name" !in members then Err(KeyError("name"))
    else if layer.deleteCrs && "crs" !in members then Err(KeyError("crs"))
    else
      var kept :- if layer.englandOnly then KeepEngland(fs, layer.code) else Ok(fs);
      var renamed :- RenameAll(kept, layer, round);
      Ok((members - Deleted(layer), renamed))
  }

  /** Wards and local authority districts keep only English features; combined and
      local planning authorities keep every feature. */
  lemma CleanKeeps(layer: Layer, members: Props, fs: seq<Feature>, round: real -> real)
    requires Clean(layer, members, fs, round).Ok?
    ensures layer.englandOnly ==>
      KeepEngland(fs, layer.code).Ok? && Clean(layer, members, fs, round).value.1 == RenameAll(KeepEngland(fs, layer.code).value, layer, round).value
    ensures !layer.englandOnly ==> Clean(layer, members, fs, round).value.1 == RenameAll(fs, layer, round).value
    ensures Clean(layer, members, fs, round).value.0 == members - Deleted(layer)
  {
  }

  /** Ward features written: the English wards, in order, each with exactly `WD23CD`
      and `name` (from `WD23NM`) and trimmed coordinates; `name` and `crs` deleted. */
  lemma WardsMeaning(members: Props, fs: seq<Feature>, round: real -> real)
    requires Clean(WARDS, members, fs, round).Ok?
    ensures Clean(WARDS, members, fs, round).value.0 == members - {"name", "crs"}
    ensures var out := Clean(WARDS, members, fs, round).value.1;
      var kept := KeepEngland(fs, "WD23CD").value;
      && |out| == |kept|
      && forall i :: 0 <= i < |out| ==>
        && StartsWithE(kept[i].properties, "WD23CD") == Ok(true)
        && out[i].properties == map["WD23CD" := kept[i].properties["WD23CD"], "name" := kept[i].properties["WD23NM"]]
        && out[i].geometry.coordinates == TrimPrecision(kept[i].geometry.coordinates, round).value
  {
    var kept := KeepEngland(fs, "WD23CD").value;
    KeepEnglandMeaning(fs, "WD23CD");
    RenameAllMeaning(kept, WARDS, round);
    var out := Clean(WARDS, members, fs, round).value.1;
    forall i | 0 <= i < |out|
      ensures StartsWithE(kept[i].properties, "WD23CD") == Ok(true)
      ensures out[i].properties == map["WD23CD" := kept[i].properties["WD23CD"], "name" := kept[i].properties["WD23NM"]]
    {
      var pos := KeptPositions(fs, Passes(IsEnglish("WD23CD")));
      assert kept[i] == fs[pos[i]];
    }
  }

  /** Combined authorities: every feature kept, in order, with exactly `CAUTH22CD` and
      `name` (from `CAUTH22NM`) and trimmed coordinates. */
  lemma CombinedAuthoritiesMeaning(members: Props, fs: seq<Feature>, round: real -> real)
    requires Clean(COMBINED_AUTHORITIES, members, fs, round).Ok?
    ensures Clean(COMBINED_AUTHORITIES, members, fs, round).value.0 == members - {"name", "crs"}
    ensures var out := Clean(COMBINED_AUTHORITIES, members, fs, round).value.1;
      && |out| == |fs|
      && forall i :: 0 <= i < |fs| ==>
        && "CAUTH22CD" in fs[i].properties && "CAUTH22NM" in fs[i].properties
        && out[i].properties == map["CAUTH22CD" := fs[i].properties["CAUTH22CD"], "name" := fs[i].properties["CAUTH22NM"]]
        && out[i].geometry.coordinates == TrimPrecision(fs[i].geometry.coordinates, round).value
        && out[i].id == fs[i].id
  {
    RenameAllMeaning(fs, COMBINED_AUTHORITIES, round);
  }

  /** Local authority districts: the English districts, in order, each with exactly
      `LAD23CD` and `name` (from `LAD23NM`) and trimmed coordinates. */
  lemma LocalAuthorityDistrictsMeaning(members: Props, fs: seq<Feature>, round: real -> real)
    requires Clean(LOCAL_AUTHORITY_DISTRICTS, members, fs, round).Ok?
    ensures Clean(LOCAL_AUTHORITY_DISTRICTS, members, fs, round).value.0 == members - {"name", "crs"}
    ensures var out := Clean(LOCAL_AUTHORITY_DISTRICTS, members, fs, round).value.1;
      var kept := KeepEngland(fs, "LAD23CD").value;
      && |out| == |kept|
      && forall i :: 0 <= i < |out| ==>
        && StartsWithE(kept[i].properties, "LAD23CD") == Ok(true)
        && out[i].properties == map["LAD23CD" := kept[i].properties["LAD23CD"], "name" := kept[i].properties["LAD23NM"]]
        && out[i].geometry.coordinates == TrimPrecision(kept[i].geometry.coordinates, round).value
  {
    var kept := KeepEngland(fs, "LAD23CD").value;
    KeepEnglandMeaning(fs, "LAD23CD");
    RenameAllMeaning(kept, LOCAL_AUTHORITY_DISTRICTS, round);
    var out := Clean(LOCAL_AUTHORITY_DISTRICTS, members, fs, round).value.1;
    forall i | 0 <= i < |out|
      ensures StartsWithE(kept[i].properties, "LAD23CD") == Ok(true)
      ensures out[i].properties == map["LAD23CD" := kept[i].properties["LAD23CD"], "name" := kept[i].properties["LAD23NM"]]
    {
      var pos := KeptPositions(fs, Passes(IsEnglish("LAD23CD")));
      assert kept[i] == fs[pos[i]];
    }
  }

  /** Local planning authorities: every feature kept, with exactly `LPA22CD` (from
      `reference`) and `name`; geometry untouched; only top-level `name` deleted. */
  lemma LocalPlanningAuthoritiesMeaning(members: Props, fs: seq<Feature>, round: real -> real)
    requires Clean(LOCAL_PLANNING_AUTHORITIES, members, fs, round).Ok?
    ensures Clean(LOCAL_PLANNING_AUTHORITIES, members, fs, round).value.0 == members - {"name"}
    ensures var out := Clean(LOCAL_PLANNING_AUTHORITIES, members, fs, round).value.1;
      && |out| == |fs|
      && forall i :: 0 <= i < |fs| ==>
        && "reference" in fs[i].properties && "name" in fs[i].properties
        && out[i].properties == map["LPA22CD" := fs[i].properties["reference"], "name" := fs[i].properties["name"]]
        && out[i].geometry == fs[i].geometry
        && out[i].id == fs[i].id
  {
    RenameAllMeaning(fs, LOCAL_PLANNING_AUTHORITIES, round);
  }

  /** The per-feature loop shared by the four layers: properties replaced, then
      coordinates trimmed when the layer says so, feature by feature in place. */
  method RenameFeatures(gj: FeatureCollection, layer: Layer, round: real -> real) returns (r: Result<()>)
    modifies gj
    ensures gj.members == old(gj.members)
    ensures r.Ok? <==> RenameAll(old(gj.features), layer, round).Ok?
    ensures r.Ok? ==> gj.features == RenameAll(old(gj.features), layer, round).value
    ensures r.Err? ==> r.error == RenameAll(old(gj.features), layer, round).error
  {
    ghost var fs := gj.features;
    ghost var rs := seq(|fs|, i requires 0 <= i < |fs| => Rename(fs[i], layer, round));
    var i := 0;
    while i < |gj.features|
      invariant 0 <= i <= |gj.features| == |fs| == |rs|
      invariant gj.members == old(gj.members)
      invariant forall j :: 0 <= j < i ==> rs[j] == Ok(gj.features[j])
      invariant gj.features[i..] == fs[i..]
    {
      var f := gj.features[i];
      assert f == fs[i];
      if layer.code !in f.properties {
        assert rs[i] == Err(KeyError(layer.code));
        return Err(KeyError(layer.code));
      }
      if layer.nameKey !in f.properties {
        assert rs[i] == Err(KeyError(layer.nameKey));
        return Err(KeyError(layer.nameKey));
      }
      var props := map[layer.outCode := f.properties[layer.code], "name" := f.properties[layer.nameKey]];
      gj.features := gj.features[i := f.(properties := props)];
      if layer.trim {
        var coordinates := TrimPrecision(f.geometry.coordinates, round);
        if coordinates.Err? {
          assert rs[i] == Err(coordinates.error);
          return Err(coordinates.error);
        }
        gj.features := gj.features[i := gj.features[i].(geometry := f.geometry.(coordinates := coordinates.value))];
      }
      assert rs[i] == Ok(gj.features[i]);
      i := i + 1;
    }
    r := Ok(());
  }

  /** One layer's clean-up of a parsed document in place: delete the top-level keys,
      filter to England where the layer does, then rename. The file is written only
      on success. */
  method CleanLayer(gj: FeatureCollection, layer: Layer, round: real -> real) returns (r: Result<()>)
    modifies gj
    ensures r.Ok? <==> Clean(layer, old(gj.members), old(gj.features), round).Ok?
    ensures r.Ok? ==> (gj.members, gj.features) == Clean(layer, old(gj.members), old(gj.features), round).value
    ensures r.Err? ==> r.error == Clean(layer, old(gj.members), old(gj.features), round).error
  {
    var deleted := gj.DeleteMember("name");
    if deleted.Err? {
      return deleted;
    }
    if layer.deleteCrs {
      deleted := gj.DeleteMember("crs");
      if deleted.Err? {
        return deleted;
      }
    }
    assert gj.members == old(gj.members) - Deleted(layer);
    if layer.englandOnly {
      var kept := KeepEngland(gj.features, layer.code);
      if kept.Err? {
        return Err(kept.error);
      }
      gj.features := kept.value;
    }
    r := RenameFeatures(gj, layer, round);
  }
}
