/** all_schemes_geojson_prep/index.ts: every scheme of the document's `schemes`
    dictionary is wrapped in a record that names it by its key. */
module Schemes {
  import opened Outcomes
  import opened Json
  import opened GeoJson

  const SCHEMES := "schemes"
  const SCHEME_NAME := "scheme_name"
  const SCHEME_REFERENCE := "scheme_reference"
  const BROWSE := "browse"

  /** The record a scheme becomes under its key. */
  function Wrap(key: string, scheme: Json): Json {
    Object(map[SCHEME_NAME := Str(key), SCHEME_REFERENCE := Str(key), BROWSE := scheme])
  }

  /** The dictionary `resultingSchemeDictionary` ends up as. */
  function Rekey(schemes: Props): (r: Props)
    ensures r.Keys == schemes.Keys
  {
    map key | key in schemes :: Wrap(key, schemes[key])
  }

  /** The original schemes, read back from the `browse` field of each record. */
  function Browse(records: Props): Props {
    map key | key in records && records[key].Object? && BROWSE in records[key].fields :: records[key].fields[BROWSE]
  }

  /** Wrapping loses nothing: the original schemes are read back from the records. */
  lemma RekeyRoundTrip(schemes: Props)
    ensures Browse(Rekey(schemes)) == schemes
  {
    var back := Browse(Rekey(schemes));
    forall key | key in schemes ensures key in back && back[key] == schemes[key] {
      assert Rekey(schemes)[key] == Wrap(key, schemes[key]);
    }
  }

  /** Each record has exactly the three fields, and its name and reference are both
      the key it is stored under. */
  lemma RekeyRecords(schemes: Props, key: string)
    requires key in Rekey(schemes)
    ensures Rekey(schemes)[key].Object?
    ensures Rekey(schemes)[key].fields.Keys == {SCHEME_NAME, SCHEME_REFERENCE, BROWSE}
    ensures Rekey(schemes)[key].fields[SCHEME_NAME] == Rekey(schemes)[key].fields[SCHEME_REFERENCE] == Str(key)
  {
  }

  /** `Object.keys(allSchemes.schemes)`: a missing or null `schemes` throws. */
  predicate HasSchemes(members: Props) {
    SCHEMES in members && members[SCHEMES].Object?
  }

  /** The script's in-memory part: the records are collected key by key into a new
      dictionary, which then replaces `schemes`; every other top-level member and the
      features are left as they were. */
  method PrepareSchemes(all: FeatureCollection) returns (r: Result<()>)
    modifies all
    ensures all.features == old(all.features)
    ensures r.Ok? <==> HasSchemes(old(all.members))
    ensures r.Err? ==> r.error == TypeError && all.members == old(all.members)
    ensures r.Ok? ==> all.members == old(all.members)[SCHEMES := Object(Rekey(old(all.members)[SCHEMES].fields))]
  {
    if SCHEMES !in all.members || !all.members[SCHEMES].Object? {
      return Err(TypeError);
    }
    var schemes := all.members[SCHEMES].fields;
    var result: Props := map[];
    var remaining := schemes.Keys;
    while remaining != {}
      decreases remaining
      invariant remaining <= schemes.Keys
      invariant result.Keys == schemes.Keys - remaining
      invariant forall key :: key in result ==> result[key] == Wrap(key, schemes[key])
    {
      var key :| key in remaining;
      var scheme := schemes[key];
      result := result[key := Wrap(key, scheme)];
      remaining := remaining - {key};
    }
    assert result == Rekey(schemes);
    all.members := all.members[SCHEMES := Object(result)];
    r := Ok(());
  }
}
