/** pois/generate_pois.py: `remove_extra_properties`, which leaves every feature of an
    exported amenity file with at most its `name`. */
module Pois {
  import opened Json
  import opened GeoJson

  /** The properties kept for one feature: `name` when it is present and truthy,
      nothing otherwise. */
  function NameOnly(p: Props): (q: Props)
    ensures q.Keys <= {"name"}
    ensures "name" in q <==> "name" in p && Truthy(p["name"])
    ensures "name" in q ==> q["name"] == p["name"]
  {
    if "name" in p && Truthy(p["name"]) then map["name" := p["name"]] else map[]
  }

  /** Keeping only the name twice keeps the same as doing it once. */
  lemma NameOnlyIdempotent(p: Props)
    ensures NameOnly(NameOnly(p)) == NameOnly(p)
  {
  }

  /** Every feature with its properties reduced; nothing else about it changes. */
  function RemoveAll(fs: seq<Feature>): (out: seq<Feature>)
    ensures |out| == |fs|
    ensures forall i :: 0 <= i < |fs| ==> out[i] == fs[i].(properties := NameOnly(fs[i].properties))
  {
    seq(|fs|, i requires 0 <= i < |fs| => fs[i].(properties := NameOnly(fs[i].properties)))
  }

  /** Running the clean-up on its own output changes nothing. */
  lemma RemoveAllIdempotent(fs: seq<Feature>)
    ensures RemoveAll(RemoveAll(fs)) == RemoveAll(fs)
  {
    var once := RemoveAll(fs);
    forall i | 0 <= i < |fs| ensures RemoveAll(once)[i] == once[i] {
      NameOnlyIdempotent(fs[i].properties);
    }
  }

  /** `remove_extra_properties` on a parsed document: each feature's properties are
      replaced in place, in order. */
  method RemoveExtraProperties(gj: FeatureCollection)
    modifies gj
    ensures gj.members == old(gj.members)
    ensures gj.features == RemoveAll(old(gj.features))
  {
    var i := 0;
    while i < |gj.features|
      invariant 0 <= i <= |gj.features| == |old(gj.features)|
      invariant gj.members == old(gj.members)
      invariant gj.features[..i] == RemoveAll(old(gj.features))[..i]
      invariant gj.features[i..] == old(gj.features)[i..]
    {
      var f := gj.features[i];
      assert f == old(gj.features)[i];
      var props: Props := map[];
      var name := Get(f.properties, "name");
      if name.Some? && Truthy(name.value) {
        props := props["name" := name.value];
      }
      gj.features := gj.features[i := f.(properties := props)];
      i := i + 1;
    }
    assert gj.features == gj.features[..i];
  }
}
