/** The osmium extract planners of geojson_to_osmium_extracts.py and generate_tiles.py:
    one extract per feature, collected into configs of at most `batch_size` extracts,
    a config sealed whenever it fills up and one last, possibly empty, config always
    written at the end. Also the square-tile features `main` of generate_tiles.py
    builds before planning. */
module OsmiumExtracts {
  import opened Outcomes
  import opened Json
  import opened GeoJson
  import Text
  import Arith

  datatype Polygon = Polygon(fileName: string, fileType: string)

  /** One `extracts` entry of an osmium config. */
  datatype Extract = Extract(output: string, polygon: Polygon)

  /** One config file: the output directory and its extracts. */
  datatype Config = Config(directory: string, extracts: seq<Extract>)

  /** The extract for the feature named `name`: `name.osm` cut by the polygon in
      `name.geojson`. */
  function ExtractFor(name: string): (e: Extract)
    ensures e.output == name + ".osm" && e.polygon.fileName == name + ".geojson" && e.polygon.fileType == "geojson"
  {
    Extract(name + ".osm", Polygon(name + ".geojson", "geojson"))
  }

  /** `xs` cut into consecutive pieces of `b`, the last one shorter (possibly empty).
      A size below 1 is never reached by the length test, so everything stays in one piece. */
  function Batches<T>(xs: seq<T>, b: int): (bs: seq<seq<T>>)
    ensures |bs| >= 1
    decreases |xs|
  {
    if b <= 0 || |xs| < b then [xs] else [xs[..b]] + Batches(xs[b..], b)
  }

  function Concat<T>(bs: seq<seq<T>>): seq<T> {
    if bs == [] then [] else bs[0] + Concat(bs[1..])
  }

  lemma ConcatSnoc<T>(bs: seq<seq<T>>, last: seq<T>)
    ensures Concat(bs + [last]) == Concat(bs) + last
  {
    if bs != [] {
      assert (bs + [last])[1..] == bs[1..] + [last];
      ConcatSnoc(bs[1..], last);
    }
  }

  /** The batches: `|xs| / b` full ones, then one holding the remaining `|xs| % b`,
      and together exactly `xs` in order. */
  lemma {:induction false} BatchesShape<T>(xs: seq<T>, b: int)
    requires b >= 1
    ensures |Batches(xs, b)| == |xs| / b + 1
    ensures forall k :: 0 <= k < |Batches(xs, b)| - 1 ==> |Batches(xs, b)[k]| == b
    ensures |Batches(xs, b)[|Batches(xs, b)| - 1]| == |xs| % b
    ensures Concat(Batches(xs, b)) == xs
    decreases |xs|
  {
    var bs := Batches(xs, b);
    if |xs| >= b {
      var rest := Batches(xs[b..], b);
      BatchesShape(xs[b..], b);
      Arith.DivModStep(|xs|, b);
      assert bs == [xs[..b]] + rest;
      assert bs[1..] == rest;
      assert bs[|bs| - 1] == rest[|rest| - 1];
      forall k | 1 <= k < |bs| - 1
        ensures |bs[k]| == b
      {
        assert bs[k] == rest[k - 1];
      }
      assert Concat(bs) == xs[..b] + Concat(rest);
      assert xs == xs[..b] + xs[b..];
    } else {
      assert |xs| / b == 0 && |xs| % b == |xs|;
      assert Concat(bs) == xs + Concat<T>([]);
    }
  }

  function Last<T>(bs: seq<seq<T>>): seq<T>
    requires bs != []
  {
    bs[|bs| - 1]
  }

  /** Appending one element fills the open batch, and a batch that reaches `b`
      is sealed and followed by a fresh empty one. */
  lemma {:induction false} BatchesSnoc<T>(xs: seq<T>, x: T, b: int)
    requires b >= 1
    ensures var bs := Batches(xs, b);
      Batches(xs + [x], b) ==
        if |Last(bs)| + 1 == b then bs[..|bs| - 1] + [Last(bs) + [x], []]
        else bs[..|bs| - 1] + [Last(bs) + [x]]
    decreases |xs|
  {
    var bs := Batches(xs, b);
    var ys := xs + [x];
    if |xs| >= b {
      BatchesSnoc(xs[b..], x, b);
      assert ys[..b] == xs[..b];
      assert ys[b..] == xs[b..] + [x];
      var rest := Batches(xs[b..], b);
      assert bs == [xs[..b]] + rest;
      assert Batches(ys, b) == [xs[..b]] + Batches(xs[b..] + [x], b);
      assert Last(bs) == Last(rest);
      assert bs[..|bs| - 1] == [xs[..b]] + rest[..|rest| - 1];
      if |Last(bs)| + 1 == b {
        assert Batches(ys, b) == [xs[..b]] + (rest[..|rest| - 1] + [Last(rest) + [x], []]);
      } else {
        assert Batches(ys, b) == [xs[..b]] + (rest[..|rest| - 1] + [Last(rest) + [x]]);
      }
    } else {
      assert bs == [xs];
      if |xs| + 1 == b {
        assert ys[..b] == ys && ys[b..] == [];
        assert Batches(ys, b) == [ys] + Batches<T>([], b);
      } else {
        assert Batches(ys, b) == [ys];
      }
    }
  }

  /** The configs the loop writes for the given extracts, in order. */
  function Configs(directory: string, extracts: seq<Extract>, b: int): (cs: seq<Config>)
    ensures |cs| == |Batches(extracts, b)|
  {
    var bs := Batches(extracts, b);
    seq(|bs|, k requires 0 <= k < |bs| => Config(directory, bs[k]))
  }

  /** Python `f"{v}"` of a JSON value: `None`, `True`, `False`, the decimal digits of an
      integer, and a string as it is. The text of a float, a list or an object is the
      parameter `repr`. */
  function PyFormat(v: Json, repr: Json -> string): (s: string)
    ensures v.Str? ==> s == v.s
    ensures v.Int? ==> Text.ParseInt(s) == Some(v.i)
    ensures v.Null? ==> s == "None"
    ensures v.Bool? ==> s == (if v.b then "True" else "False")
  {
    match v
    case Null => "None"
    case Bool(b) => if b then "True" else "False"
    case Int(i) => Text.ParseIntRoundTrip(i); Text.IntToString(i)
    case Str(t) => t
    case _ => repr(v)
  }

  /** How a planner turns the value of the naming property into a file-name stem. */
  type Stem = Json -> Result<string>

  /** geojson_to_osmium_extracts.py formats the value into an f-string, so any value
      names a file. */
  function Formatted(repr: Json -> string): Stem {
    v => Ok(PyFormat(v, repr))
  }

  /** generate_tiles.py adds a suffix to the value with `+`, which only a string
      allows; any other value raises TypeError. */
  function Concatenated(v: Json): (r: Result<string>)
    ensures r.Ok? <==> v.Str?
    ensures r.Ok? ==> r.value == v.s
    ensures r.Err? ==> r.error == TypeError
  {
    if v.Str? then Ok(v.s) else Err(TypeError)
  }

  /** `gj["features"]` iterated by a `for` loop, for a parsed document `gj`. A document
      that is not an object raises TypeError on the subscript, one without `features`
      raises KeyError. A list yields its items and a string its one-character strings.
      An object yields its keys, which are strings, so the loop body's
      `feature["properties"]` raises TypeError on the first of them before anything is
      written; the model raises that TypeError here, and an empty object yields
      nothing. Any other value is not iterable: TypeError. */
  function FeatureList(gj: Json): (r: Result<seq<Json>>)
    ensures r.Ok? <==> (gj.Object? && "features" in gj.fields &&
      var fs := gj.fields["features"]; fs.List? || fs.Str? || fs == Object(map[]))
    ensures r.Ok? && gj.fields["features"].List? ==> r.value == gj.fields["features"].items
    ensures r.Ok? && gj.fields["features"].Str? ==>
      |r.value| == |gj.fields["features"].s| &&
      forall i :: 0 <= i < |r.value| ==> r.value[i] == Str([gj.fields["features"].s[i]])
    ensures gj.Object? && "features" !in gj.fields ==> r == Err(KeyError("features"))
    ensures r.Err? ==> r.error == KeyError("features") || r.error == TypeError
  {
    if !gj.Object? then Err(TypeError)
    else if "features" !in gj.fields then Err(KeyError("features"))
    else match gj.fields["features"]
      case List(items) => Ok(items)
      case Str(t) => Ok(seq(|t|, i requires 0 <= i < |t| => Str([t[i]])))
      case Object(m) => if m == map[] then Ok([]) else Err(TypeError)
      case _ => Err(TypeError)
  }

  /** A feature whose `properties` member is an object. */
  predicate HasProperties(feature: Json) {
    feature.Object? && "properties" in feature.fields && feature.fields["properties"].Object?
  }

  /** `feature["properties"][name_key]`. A feature that is not an object, or whose
      `properties` is not an object (null, say), raises TypeError on the subscript; a
      feature without `properties` raises KeyError. The name key is an optional
      command-line argument, `None` when it is not given, and a dictionary parsed from
      JSON never holds the key `None`: the lookup raises KeyError, whose text is "None". */
  function NameValue(feature: Json, nameKey: Option<string>): (r: Result<Json>)
    ensures r.Ok? <==> HasProperties(feature) && nameKey.Some? && nameKey.value in feature.fields["properties"].fields
    ensures r.Ok? ==> r.value == feature.fields["properties"].fields[nameKey.value]
    ensures !feature.Object? ==> r == Err(TypeError)
    ensures feature.Object? && "properties" !in feature.fields ==> r == Err(KeyError("properties"))
    ensures feature.Object? && "properties" in feature.fields && !HasProperties(feature) ==> r == Err(TypeError)
    ensures HasProperties(feature) && nameKey.None? ==> r == Err(KeyError("None"))
    ensures HasProperties(feature) && nameKey.Some? && nameKey.value !in feature.fields["properties"].fields ==>
      r == Err(KeyError(nameKey.value))
  {
    if !feature.Object? then Err(TypeError)
    else
      var props :- Lookup(feature.fields, "properties");
      if !props.Object? then Err(TypeError)
      else if nameKey.None? then Err(KeyError("None"))
      else Lookup(props.fields, nameKey.value)
  }

  /** `feature["properties"][name_key]`, turned into a stem. */
  function NameOf(feature: Json, nameKey: Option<string>, stem: Stem): (r: Result<string>)
    ensures r.Ok? <==> NameValue(feature, nameKey).Ok? && stem(NameValue(feature, nameKey).value).Ok?
    ensures r.Ok? ==> r.value == stem(NameValue(feature, nameKey).value).value
    ensures NameValue(feature, nameKey).Err? ==> r == Err(NameValue(feature, nameKey).error)
  {
    var v :- NameValue(feature, nameKey);
    stem(v)
  }

  /** The extracts of `features`, named through their `nameKey` property. */
  function ExtractsOf(features: seq<Json>, nameKey: Option<string>, stem: Stem): (es: seq<Extract>)
    requires forall i :: 0 <= i < |features| ==> NameOf(features[i], nameKey, stem).Ok?
    ensures |es| == |features|
    ensures forall i :: 0 <= i < |features| ==>
      NameValue(features[i], nameKey).Ok? && stem(NameValue(features[i], nameKey).value).Ok? &&
      es[i].output == stem(NameValue(features[i], nameKey).value).value + ".osm" &&
      es[i].polygon.fileName == stem(NameValue(features[i], nameKey).value).value + ".geojson"
  {
    seq(|features|, i requires 0 <= i < |features| => ExtractFor(NameOf(features[i], nameKey, stem).value))
  }

  /** The first feature that cannot be named: it or its properties are not objects, it
      lacks the naming property, or its value cannot be made into a stem. */
  function FirstUnnamed(features: seq<Json>, nameKey: Option<string>, stem: Stem): (k: nat)
    ensures k <= |features|
    ensures forall i :: 0 <= i < k ==> NameOf(features[i], nameKey, stem).Ok?
    ensures k < |features| ==> NameOf(features[k], nameKey, stem).Err?
    decreases |features|
  {
    if features == [] || NameOf(features[0], nameKey, stem).Err? then 0
    else 1 + FirstUnnamed(features[1..], nameKey, stem)
  }

  /** The batching loop of both planners (`main` of geojson_to_osmium_extracts.py and
      `geojsonToOsmiumExtracts` of generate_tiles.py): `written` lists the configs in
      the order they are written, the k-th being the file numbered k. The first feature
      that cannot be named raises its error (KeyError for a missing property); the
      configs sealed before it stay written. */
  method WriteConfigs(features: seq<Json>, nameKey: Option<string>, stem: Stem, batchSize: int := 10, directory: string := "./")
    returns (written: seq<Config>, outcome: Result<()>)
    ensures var k := FirstUnnamed(features, nameKey, stem);
      && (outcome.Ok? <==> k == |features|)
      && (outcome.Ok? ==> written == Configs(directory, ExtractsOf(features, nameKey, stem), batchSize))
      && (outcome.Err? ==>
            && outcome.error == NameOf(features[k], nameKey, stem).error
            && var cs := Configs(directory, ExtractsOf(features[..k], nameKey, stem), batchSize);
               written == cs[..|cs| - 1])
  {
    var config := Config(directory, []);
    var numBatches := 0;
    written := [];
    ghost var done: seq<Extract> := [];
    for i := 0 to |features|
      invariant forall j :: 0 <= j < i ==> NameOf(features[j], nameKey, stem).Ok?
      invariant done == ExtractsOf(features[..i], nameKey, stem)
      invariant numBatches == |written|
      invariant config.directory == directory
      invariant written + [config] == Configs(directory, done, batchSize)
    {
      var name := NameOf(features[i], nameKey, stem);
      if name.Err? {
        assert FirstUnnamed(features, nameKey, stem) == i by {
          FirstUnnamedIs(features, nameKey, stem, i);
        }
        return written, Err(name.error);
      }
      ConfigsSnoc(directory, done, ExtractFor(name.value), batchSize, written, config.extracts);
      config := config.(extracts := config.extracts + [ExtractFor(name.value)]);
      done := done + [ExtractFor(name.value)];
      assert features[..i + 1] == features[..i] + [features[i]];
      assert done == ExtractsOf(features[..i + 1], nameKey, stem);
      if |config.extracts| == batchSize {
        written := written + [config];
        config := config.(extracts := []);
        numBatches := numBatches + 1;
      }
    }
    assert features[..|features|] == features;
    FirstUnnamedIs(features, nameKey, stem, |features|);
    written := written + [config];
    outcome := Ok(());
  }

  lemma FirstUnnamedIs(features: seq<Json>, nameKey: Option<string>, stem: Stem, i: nat)
    requires i <= |features|
    requires forall j :: 0 <= j < i ==> NameOf(features[j], nameKey, stem).Ok?
    requires i < |features| ==> NameOf(features[i], nameKey, stem).Err?
    ensures FirstUnnamed(features, nameKey, stem) == i
  {
  }

  /** `main` of geojson_to_osmium_extracts.py on the parsed document `gj`: batches of
      10 under "./" by default. Formatting never fails, so the run fails exactly when
      the document has no feature list or some feature cannot be looked up: it or its
      properties are not objects, or it lacks the naming property. Without
      `--name_key` every feature fails, so only a document without features gets
      through. Each extract is named by the f-string of its value. */
  method PlanExtracts(gj: Json, nameKey: Option<string>, repr: Json -> string,
                      batchSize: int := 10, outputDir: string := "./")
    returns (written: seq<Config>, outcome: Result<()>)
    ensures outcome.Ok? <==> (FeatureList(gj).Ok? &&
      forall i :: 0 <= i < |FeatureList(gj).value| ==> NameValue(FeatureList(gj).value[i], nameKey).Ok?)
    ensures FeatureList(gj).Err? ==> written == [] && outcome == Err(FeatureList(gj).error)
    ensures outcome.Err? ==>
      || outcome.error == TypeError || outcome.error == KeyError("features") || outcome.error == KeyError("properties")
      || (nameKey.None? && outcome.error == KeyError("None")) || (nameKey.Some? && outcome.error == KeyError(nameKey.value))
    ensures nameKey.None? ==> (outcome.Ok? <==> FeatureList(gj) == Ok([]))
    ensures outcome.Ok? ==>
      var features := FeatureList(gj).value;
      && written == Configs(outputDir, ExtractsOf(features, nameKey, Formatted(repr)), batchSize)
      && forall i :: 0 <= i < |features| ==>
           ExtractsOf(features, nameKey, Formatted(repr))[i] == ExtractFor(PyFormat(NameValue(features[i], nameKey).value, repr))
  {
    var features := FeatureList(gj);
    if features.Err? {
      return [], Err(features.error);
    }
    written, outcome := WriteConfigs(features.value, nameKey, Formatted(repr), batchSize, outputDir);
    if nameKey.None? && features.value != [] {
      assert NameValue(features.value[0], nameKey).Err?;
    }
  }

  /** The loop step in terms of `Configs`: appending an extract to the open config,
      and sealing it when it reaches the batch size. */
  lemma ConfigsSnoc(directory: string, done: seq<Extract>, e: Extract, b: int, written: seq<Config>, open: seq<Extract>)
    requires written + [Config(directory, open)] == Configs(directory, done, b)
    ensures |open| + 1 == b ==> written + [Config(directory, open + [e]), Config(directory, [])] == Configs(directory, done + [e], b)
    ensures |open| + 1 != b ==> written + [Config(directory, open + [e])] == Configs(directory, done + [e], b)
  {
    var bs := Batches(done, b);
    var cs := Configs(directory, done, b);
    assert cs[|cs| - 1] == Config(directory, Last(bs));
    assert open == Last(bs);
    assert written == cs[..|cs| - 1];
    if b <= 0 {
      assert Batches(done + [e], b) == [done + [e]];
      assert bs == [done];
    } else {
      BatchesSnoc(done, e, b);
      var after := Batches(done + [e], b);
      var cs2 := Configs(directory, done + [e], b);
      assert forall k :: 0 <= k < |bs| - 1 ==> written[k] == Config(directory, bs[k]);
      if |open| + 1 == b {
        assert after == bs[..|bs| - 1] + [open + [e], []];
      } else {
        assert after == bs[..|bs| - 1] + [open + [e]];
      }
      assert cs2 == seq(|after|, k requires 0 <= k < |after| => Config(directory, after[k]));
    }
  }

  /** What the written configs hold when every feature is named: every config but the
      last holds exactly `batch_size` extracts, the last the remaining `M % batch_size`,
      there are `M / batch_size + 1` of them, all in `directory`, and their extracts in
      order are exactly the per-feature extracts. */
  lemma ConfigsMeaning(directory: string, extracts: seq<Extract>, b: int)
    requires b >= 1
    ensures var cs := Configs(directory, extracts, b);
      && |cs| == |extracts| / b + 1
      && (forall k :: 0 <= k < |cs| ==> cs[k].directory == directory)
      && (forall k :: 0 <= k < |cs| - 1 ==> |cs[k].extracts| == b)
      && |cs[|cs| - 1].extracts| == |extracts| % b
      && Concat(seq(|cs|, k requires 0 <= k < |cs| => cs[k].extracts)) == extracts
  {
    BatchesShape(extracts, b);
    var cs := Configs(directory, extracts, b);
    assert seq(|cs|, k requires 0 <= k < |cs| => cs[k].extracts) == Batches(extracts, b);
  }

  /** No features still give one (empty) config; a multiple of the batch size gives a
      trailing empty config too. */
  lemma ConfigsTrailingEmpty(directory: string, extracts: seq<Extract>, b: int)
    requires b >= 1 && |extracts| % b == 0
    ensures var cs := Configs(directory, extracts, b); cs[|cs| - 1] == Config(directory, [])
  {
    BatchesShape(extracts, b);
  }

  /** The name of the k-th config file of generate_tiles.py. */
  function TilesConfigName(k: nat): string {
    "uk_tiles_" + Text.NatToString(k) + ".json"
  }

  lemma NatToStringInjective(m: nat, n: nat)
    requires Text.NatToString(m) == Text.NatToString(n)
    ensures m == n
  {
    Text.NatToStringRoundTrip(m);
    Text.NatToStringRoundTrip(n);
  }

  /** Config files of generate_tiles.py never share a name. */
  lemma TilesConfigNamesDistinct(m: nat, n: nat)
    requires m != n
    ensures TilesConfigName(m) != TilesConfigName(n)
  {
    var a := Text.NatToString(m);
    var b := Text.NatToString(n);
    if TilesConfigName(m) == TilesConfigName(n) {
      var p := "uk_tiles_";
      assert |a| == |b| by {
        assert |TilesConfigName(m)| == |p| + |a| + 5;
      }
      assert a == TilesConfigName(m)[|p|..|p| + |a|];
      assert b == TilesConfigName(n)[|p|..|p| + |b|];
      NatToStringInjective(m, n);
    }
  }

  /** `geojsonToOsmiumExtracts` of generate_tiles.py on the document `gj`: features
      named by their `id` property, which must be a string, batches of 50 by default,
      output under "/tmp/osmium_extract/" by default; each written config paired with
      its file name. */
  method GeojsonToOsmiumExtracts(gj: Json, batchSize: int := 50, directory: string := "/tmp/osmium_extract/")
    returns (files: seq<(string, Config)>, outcome: Result<()>)
    ensures forall k :: 0 <= k < |files| ==> files[k].0 == TilesConfigName(k)
    ensures outcome.Ok? <==> (FeatureList(gj).Ok? &&
      forall i :: 0 <= i < |FeatureList(gj).value| ==>
        NameValue(FeatureList(gj).value[i], Some("id")).Ok? && NameValue(FeatureList(gj).value[i], Some("id")).value.Str?)
    ensures FeatureList(gj).Err? ==> files == [] && outcome == Err(FeatureList(gj).error)
    ensures outcome.Err? ==>
      outcome.error == KeyError("features") || outcome.error == KeyError("properties") ||
      outcome.error == KeyError("id") || outcome.error == TypeError
    ensures outcome.Ok? ==>
      var cs := Configs(directory, ExtractsOf(FeatureList(gj).value, Some("id"), Concatenated), batchSize);
      |files| == |cs| && forall k :: 0 <= k < |files| ==> files[k].1 == cs[k]
  {
    var features := FeatureList(gj);
    if features.Err? {
      return [], Err(features.error);
    }
    var written;
    written, outcome := WriteConfigs(features.value, Some("id"), Concatenated, batchSize, directory);
    files := seq(|written|, k requires 0 <= k < |written| => (TilesConfigName(k), written[k]));
  }

  /** The polygon ring of the grid square with south-west corner (x, y). */
  function Square(x: real, y: real, step: real): (ring: seq<Json>)
    ensures |ring| == 5 && ring[0] == ring[4]
  {
    [ List([Float(x), Float(y)]), List([Float(x + step), Float(y)]),
      List([Float(x + step), Float(y + step)]), List([Float(x), Float(y + step)]),
      List([Float(x), Float(y)]) ]
  }

  function TileFeature(index: nat, x: real, y: real, step: real): Feature {
    Feature(map["id" := Str(Text.NatToString(index))],
            Geometry(List([List(Square(x, y, step))]), map["type" := Str("Polygon")]),
            None, map["type" := Str("Feature")])
  }

  /** The grid points `inside` accepts, in walk order. */
  function InsidePoints(points: seq<(real, real)>, inside: (real, real) -> bool): seq<(real, real)> {
    if points == [] then []
    else
      var p := points[|points| - 1];
      InsidePoints(points[..|points| - 1], inside) + (if inside(p.0, p.1) then [p] else [])
  }

  /** The accepted points are exactly the grid points inside the outline, and they keep
      the walk's order: the points accepted in the first `k` steps of the walk come
      first, before any accepted later. */
  lemma {:induction false} InsidePointsMeaning(points: seq<(real, real)>, inside: (real, real) -> bool)
    ensures forall q :: q in InsidePoints(points, inside) <==> q in points && inside(q.0, q.1)
    ensures |InsidePoints(points, inside)| <= |points|
    ensures forall k :: 0 <= k <= |points| ==> InsidePoints(points[..k], inside) <= InsidePoints(points, inside)
  {
    if points != [] {
      var init := points[..|points| - 1];
      InsidePointsMeaning(init, inside);
      assert points == init + [points[|points| - 1]];
      forall k | 0 <= k <= |points|
        ensures InsidePoints(points[..k], inside) <= InsidePoints(points, inside)
      {
        if k == |points| {
          assert points[..k] == points;
        } else {
          assert points[..k] == init[..k];
        }
      }
    }
  }

  /** The feature-building loop of `main` in generate_tiles.py, over the grid points
      in the order the walk visits them: every point inside the outline appends the
      square with that south-west corner, whose `id` is the number of features before
      it. */
  method TileFeatures(points: seq<(real, real)>, inside: (real, real) -> bool, step: real)
    returns (features: seq<Feature>)
    ensures |features| == |InsidePoints(points, inside)|
    ensures forall i :: 0 <= i < |features| ==>
      features[i] == TileFeature(i, InsidePoints(points, inside)[i].0, InsidePoints(points, inside)[i].1, step)
    ensures forall i :: 0 <= i < |features| ==> features[i].properties == map["id" := Str(Text.NatToString(i))]
    ensures forall i :: 0 <= i < |features| ==>
      var rings := features[i].geometry.coordinates;
      rings.List? && |rings.items| == 1 && rings.items[0].List? &&
      |rings.items[0].items| == 5 && rings.items[0].items[0] == rings.items[0].items[4]
  {
    features := [];
    for k := 0 to |points|
      invariant |features| == |InsidePoints(points[..k], inside)|
      invariant forall i :: 0 <= i < |features| ==>
        features[i] == TileFeature(i, InsidePoints(points[..k], inside)[i].0, InsidePoints(points[..k], inside)[i].1, step)
    {
      assert points[..k + 1][..k] == points[..k];
      var (x, y) := points[k];
      if inside(x, y) {
        features := features + [TileFeature(|features|, x, y, step)];
      }
    }
    assert points[..|points|] == points;
  }

  /** The tile features have distinct ids. */
  lemma TileIdsDistinct(features: seq<Feature>, i: nat, j: nat)
    requires forall k :: 0 <= k < |features| ==> features[k].properties == map["id" := Str(Text.NatToString(k))]
    requires i < j < |features|
    ensures features[i].properties["id"] != features[j].properties["id"]
  {
    if features[i].properties["id"] == features[j].properties["id"] {
      NatToStringInjective(i, j);
    }
  }
}
