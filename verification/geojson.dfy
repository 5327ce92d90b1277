/** GeoJSON features and collections, and the shared normaliser of layers/utils.py:
    `trimPrecision` (recursive coordinate rounding) and `cleanUpGeojson` (property
    replacement, coordinate trimming and sequential ids, feature by feature in place). */
module GeoJson {
  import opened Outcomes
  import opened Json

  /** A geometry object: its `coordinates` and every other key (`type`, ...). */
  datatype Geometry = Geometry(coordinates: Json, members: Props)

  /** A feature: its `properties`, `geometry`, optional `id` and every other key. */
  datatype Feature = Feature(properties: Props, geometry: Geometry, id: Option<Json>, members: Props)

  /** Coordinates as GeoJSON nests them: lists whose leaves are all floats. */
  predicate FloatTree(data: Json) {
    match data
    case Float(_) => true
    case List(items) => forall i :: 0 <= i < |items| ==> FloatTree(items[i])
    case _ => false
  }

  /** `b` nests exactly like `a`: lists of the same lengths down to float leaves. */
  predicate SameShape(a: Json, b: Json) {
    match a
    case Float(_) => b.Float?
    case List(items) =>
      b.List? && |b.items| == |items| && forall i :: 0 <= i < |items| ==> SameShape(items[i], b.items[i])
    case _ => false
  }

  /** `trimPrecision`: every float leaf replaced by `round` of it (Python's `round(x, 6)`,
      left abstract); any other leaf, integers and strings included, raises. */
  function TrimPrecision(data: Json, round: real -> real): (r: Result<Json>)
  {
    match data
    case List(items) =>
      var trimmed :- AllOk(seq(|items|, i requires 0 <= i < |items| => TrimPrecision(items[i], round)));
      Ok(List(trimmed))
    case Float(x) => Ok(Float(round(x)))
    case _ => Err(UnexpectedCoordinate)
  }

  /** Trimming succeeds exactly on float trees, and then keeps the nesting shape
      and rounds every leaf. */
  lemma {:induction false} TrimPrecisionShape(data: Json, round: real -> real)
    ensures TrimPrecision(data, round).Ok? <==> FloatTree(data)
    ensures TrimPrecision(data, round).Ok? ==> SameShape(data, TrimPrecision(data, round).value)
    ensures data.Float? ==> TrimPrecision(data, round) == Ok(Float(round(data.x)))
    ensures !data.Float? && !data.List? ==> TrimPrecision(data, round) == Err(UnexpectedCoordinate)
  {
    if data.List? {
      var items := data.items;
      var rs := seq(|items|, i requires 0 <= i < |items| => TrimPrecision(items[i], round));
      forall i | 0 <= i < |items|
        ensures rs[i].Ok? <==> FloatTree(items[i])
        ensures rs[i].Ok? ==> SameShape(items[i], rs[i].value)
      {
        TrimPrecisionShape(items[i], round);
      }
      if AllOk(rs).Ok? {
        assert TrimPrecision(data, round) == Ok(List(AllOk(rs).value));
        assert forall i :: 0 <= i < |items| ==> rs[i].Ok?;
        assert forall i :: 0 <= i < |items| ==> FloatTree(items[i]);
      } else {
        assert TrimPrecision(data, round).Err?;
        var k :| 0 <= k < |rs| && rs[k].Err?;
        assert !FloatTree(items[k]);
      }
    }
  }

  ghost predicate Idempotent(round: real -> real) {
    forall x :: round(round(x)) == round(x)
  }

  /** With an idempotent rounding, trimming an already trimmed geometry changes nothing. */
  lemma {:induction false} TrimPrecisionIdempotent(data: Json, round: real -> real)
    requires Idempotent(round)
    requires TrimPrecision(data, round).Ok?
    ensures TrimPrecision(TrimPrecision(data, round).value, round) == TrimPrecision(data, round)
  {
    if data.List? {
      var items := data.items;
      var rs := seq(|items|, i requires 0 <= i < |items| => TrimPrecision(items[i], round));
      var once := TrimPrecision(data, round).value;
      assert once == List(AllOk(rs).value);
      var again := seq(|once.items|, i requires 0 <= i < |once.items| => TrimPrecision(once.items[i], round));
      forall i | 0 <= i < |items|
        ensures again[i] == Ok(once.items[i])
      {
        assert rs[i] == Ok(once.items[i]);
        TrimPrecisionIdempotent(items[i], round);
      }
      assert AllOk(again).value == once.items;
    }
  }

  /** One feature after `cleanUpGeojson`: new properties from the callback (which may
      raise), trimmed coordinates and the given id; nothing else changes. */
  function CleanFeature(f: Feature, id: int, transform: Props -> Result<Props>, round: real -> real): Result<Feature> {
    var properties :- transform(f.properties);
    var coordinates :- TrimPrecision(f.geometry.coordinates, round);
    Ok(f.(properties := properties,
          geometry := f.geometry.(coordinates := coordinates),
          id := Some(Int(id))))
  }

  /** All features after `cleanUpGeojson`, numbered from 1 in order; the first
      malformed geometry stops everything. */
  function CleanAll(fs: seq<Feature>, transform: Props -> Result<Props>, round: real -> real): Result<seq<Feature>> {
    AllOk(seq(|fs|, i requires 0 <= i < |fs| => CleanFeature(fs[i], i + 1, transform, round)))
  }

  /** `cleanUpGeojson` fails exactly when the callback raises on some feature or some
      geometry holds a leaf other than a float. */
  lemma CleanAllOk(fs: seq<Feature>, transform: Props -> Result<Props>, round: real -> real)
    ensures CleanAll(fs, transform, round).Ok? <==>
      forall i :: 0 <= i < |fs| ==> transform(fs[i].properties).Ok? && FloatTree(fs[i].geometry.coordinates)
  {
    var rs := seq(|fs|, i requires 0 <= i < |fs| => CleanFeature(fs[i], i + 1, transform, round));
    forall i | 0 <= i < |fs|
      ensures rs[i].Ok? <==> transform(fs[i].properties).Ok? && FloatTree(fs[i].geometry.coordinates)
    {
      TrimPrecisionShape(fs[i].geometry.coordinates, round);
    }
  }

  /** Otherwise it keeps the same features in the same order, ids 1..N, properties
      exactly what the callback returned (no old key survives), coordinates trimmed and
      every other member untouched. */
  lemma CleanAllMeaning(fs: seq<Feature>, transform: Props -> Result<Props>, round: real -> real)
    requires CleanAll(fs, transform, round).Ok?
    ensures var out := CleanAll(fs, transform, round).value;
      && |out| == |fs|
      && forall i :: 0 <= i < |fs| ==>
        && out[i].id == Some(Int(i + 1))
        && out[i].properties == transform(fs[i].properties).value
        && out[i].geometry.coordinates == TrimPrecision(fs[i].geometry.coordinates, round).value
        && out[i].geometry.members == fs[i].geometry.members
        && out[i].members == fs[i].members
  {
    var rs := seq(|fs|, i requires 0 <= i < |fs| => CleanFeature(fs[i], i + 1, transform, round));
    var out := CleanAll(fs, transform, round).value;
    assert |out| == |fs|;
    forall i | 0 <= i < |fs|
      ensures && out[i].id == Some(Int(i + 1))
              && out[i].properties == transform(fs[i].properties).value
              && out[i].geometry.coordinates == TrimPrecision(fs[i].geometry.coordinates, round).value
              && out[i].geometry.members == fs[i].geometry.members
              && out[i].members == fs[i].members
    {
      assert CleanFeature(fs[i], i + 1, transform, round) == rs[i] == Ok(out[i]);
    }
  }

  /** The ids `cleanUpGeojson` assigns are distinct. */
  lemma CleanAllIdsDistinct(fs: seq<Feature>, transform: Props -> Result<Props>, round: real -> real, i: int, j: int)
    requires CleanAll(fs, transform, round).Ok?
    requires 0 <= i < j < |fs|
    ensures CleanAll(fs, transform, round).value[i].id != CleanAll(fs, transform, round).value[j].id
  {
    CleanAllMeaning(fs, transform, round);
  }

  /** A parsed GeoJSON document: its feature list and every other top-level key. */
  class FeatureCollection {
    var features: seq<Feature>
    var members: Props

    constructor (features: seq<Feature>, members: Props)
      ensures this.features == features && this.members == members
    {
      this.features := features;
      this.members := members;
    }

    /** Python `del gj[key]`: raises KeyError when the key is missing. */
    method DeleteMember(key: string) returns (r: Result<()>)
      modifies this
      ensures r.Ok? <==> key in old(members)
      ensures r.Err? ==> r.error == KeyError(key)
      ensures members == old(members) - {key}
      ensures features == old(features)
    {
      if key !in members {
        return Err(KeyError(key));
      }
      members := members - {key};
      r := Ok(());
    }

    /** `cleanUpGeojson` (layers/utils.py): for each feature in order, replace its
        properties by the callback's output, trim its coordinates and give it the next
        id from a counter starting at 1. A raising callback or a malformed geometry
        stops it; the file is then not written. */
    method CleanUp(transform: Props -> Result<Props>, round: real -> real) returns (r: Result<()>)
      modifies this
      ensures members == old(members)
      ensures r.Ok? <==> CleanAll(old(features), transform, round).Ok?
      ensures r.Ok? ==> features == CleanAll(old(features), transform, round).value
      ensures r.Err? ==> r.error == CleanAll(old(features), transform, round).error
    {
      ghost var fs := features;
      ghost var rs := seq(|fs|, i requires 0 <= i < |fs| => CleanFeature(fs[i], i + 1, transform, round));
      var counter := 1;
      var i := 0;
      while i < |features|
        invariant 0 <= i <= |features| == |old(features)| == |rs|
        invariant counter == i + 1
        invariant members == old(members)
        invariant forall j :: 0 <= j < i ==> rs[j] == Ok(features[j])
        invariant features[i..] == old(features)[i..]
      {
        var f := features[i];
        assert f == fs[i];
        var properties := transform(f.properties);
        if properties.Err? {
          assert rs[i] == Err(properties.error);
          return Err(properties.error);
        }
        features := features[i := f.(properties := properties.value)];
        var coordinates := TrimPrecision(f.geometry.coordinates, round);
        if coordinates.Err? {
          assert rs[i] == Err(coordinates.error);
          return Err(coordinates.error);
        }
        features := features[i := features[i].(geometry := f.geometry.(coordinates := coordinates.value), id := Some(Int(counter)))];
        assert rs[i] == Ok(features[i]);
        counter := counter + 1;
        i := i + 1;
      }
      r := Ok(());
    }
  }
}
