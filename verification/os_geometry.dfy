/** os_geometry/src/main.rs: keeping only the "Roads Tracks And Paths" features of each
    Mapbox vector tile layer, and keeping only the tiles left with a feature. */
module OsGeometry {
  import opened Outcomes

  /** A vector tile value; only its string part is read here. */
  datatype MvtValue = MvtValue(stringValue: Option<string>)

  /** A vector tile feature: its tags are indices into the layer's keys and values,
      in (key, value) pairs. */
  datatype MvtFeature = MvtFeature(tags: seq<nat>, geometry: seq<nat>)

  datatype MvtLayer = MvtLayer(name: string, keys: seq<string>, values: seq<MvtValue>, features: seq<MvtFeature>)

  const THEME := "theme"
  const ROADS_TRACKS_AND_PATHS := "Roads Tracks And Paths"
  /** A slice index past the end panics; the lengths in the message are not modelled. */
  const OUT_OF_BOUNDS := "index out of bounds"

  /** `string_value()`: the string, or "" when the value is not a string. */
  function StringValue(v: MvtValue): string {
    if v.stringValue.Some? then v.stringValue.value else ""
  }

  /** The scan of `tags.chunks(2).any(..)` from the chunk starting at `k`: the key is
      looked up, then the chunk's second tag, then the value; the first pair naming
      the theme "Roads Tracks And Paths" stops the scan. */
  function ThemeFrom(keys: seq<string>, values: seq<MvtValue>, tags: seq<nat>, k: nat): (r: Result<bool>)
    ensures r.Err? ==> r.error == Panic(OUT_OF_BOUNDS)
    decreases |tags| - k
  {
    if k >= |tags| then Ok(false)
    else if tags[k] >= |keys| then Err(Panic(OUT_OF_BOUNDS))
    else if k + 1 >= |tags| then Err(Panic(OUT_OF_BOUNDS))
    else if tags[k + 1] >= |values| then Err(Panic(OUT_OF_BOUNDS))
    else if keys[tags[k]] == THEME && StringValue(values[tags[k + 1]]) == ROADS_TRACKS_AND_PATHS then Ok(true)
    else ThemeFrom(keys, values, tags, k + 2)
  }

  /** The test a feature passes to stay in a layer, or a panic. */
  type Keep = MvtFeature -> Result<bool>

  /** The closure `process_mvt_layer` hands to `retain`: it reads the layer's keys and
      values. */
  function IsRoad(keys: seq<string>, values: seq<MvtValue>): Keep {
    (f: MvtFeature) => ThemeFrom(keys, values, f.tags, 0)
  }

  /** Pair `j` of the tags is whole and both its indices are in range. */
  predicate PairResolves(keys: seq<string>, values: seq<MvtValue>, tags: seq<nat>, j: nat) {
    2 * j + 1 < |tags| && tags[2 * j] < |keys| && tags[2 * j + 1] < |values|
  }

  /** Pair `j` resolves to the key "theme" with the string value "Roads Tracks And Paths". */
  predicate PairMatches(keys: seq<string>, values: seq<MvtValue>, tags: seq<nat>, j: nat) {
    && PairResolves(keys, values, tags, j)
    && keys[tags[2 * j]] == THEME
    && StringValue(values[tags[2 * j + 1]]) == ROADS_TRACKS_AND_PATHS
  }

  /** From pair `m` on, some pair matches and every pair before it resolves. */
  ghost predicate FoundFrom(keys: seq<string>, values: seq<MvtValue>, tags: seq<nat>, m: nat) {
    exists j: nat :: m <= j && PairMatches(keys, values, tags, j) &&
      (forall i: nat :: m <= i < j ==> PairResolves(keys, values, tags, i))
  }

  /** From pair `m` on, the tags pair up, every pair resolves and none matches. */
  ghost predicate NoneFrom(keys: seq<string>, values: seq<MvtValue>, tags: seq<nat>, m: nat) {
    && (2 * m >= |tags| || |tags| % 2 == 0)
    && forall j: nat :: m <= j && 2 * j < |tags| ==>
      (PairResolves(keys, values, tags, j) && !PairMatches(keys, values, tags, j))
  }

  /** A pair that resolves without matching passes the search for a match on to the
      next pair. */
  lemma PassStepFound(keys: seq<string>, values: seq<MvtValue>, tags: seq<nat>, m: nat)
    requires PairResolves(keys, values, tags, m) && !PairMatches(keys, values, tags, m)
    ensures FoundFrom(keys, values, tags, m) <==> FoundFrom(keys, values, tags, m + 1)
  {
    if FoundFrom(keys, values, tags, m) {
      var j: nat :| m <= j && PairMatches(keys, values, tags, j) &&
        (forall i: nat :: m <= i < j ==> PairResolves(keys, values, tags, i));
      assert j != m;
    }
    if FoundFrom(keys, values, tags, m + 1) {
      var j: nat :| m + 1 <= j && PairMatches(keys, values, tags, j) &&
        (forall i: nat :: m + 1 <= i < j ==> PairResolves(keys, values, tags, i));
      assert forall i: nat :: m <= i < j ==> PairResolves(keys, values, tags, i);
    }
  }

  /** A pair that resolves without matching passes the question whether no pair
      matches on to the next pair. */
  lemma PassStepNone(keys: seq<string>, values: seq<MvtValue>, tags: seq<nat>, m: nat)
    requires PairResolves(keys, values, tags, m) && !PairMatches(keys, values, tags, m)
    ensures NoneFrom(keys, values, tags, m) <==> NoneFrom(keys, values, tags, m + 1)
  {
    if NoneFrom(keys, values, tags, m + 1) && 2 * (m + 1) >= |tags| {
      assert 2 * m + 1 < |tags|;
    }
  }

  /** A pair that resolves without matching passes both questions on to the next pair. */
  lemma PassStep(keys: seq<string>, values: seq<MvtValue>, tags: seq<nat>, m: nat)
    requires PairResolves(keys, values, tags, m) && !PairMatches(keys, values, tags, m)
    ensures FoundFrom(keys, values, tags, m) <==> FoundFrom(keys, values, tags, m + 1)
    ensures NoneFrom(keys, values, tags, m) <==> NoneFrom(keys, values, tags, m + 1)
  {
    PassStepFound(keys, values, tags, m);
    PassStepNone(keys, values, tags, m);
  }

  /** A pair that does not resolve ends the scan with neither answer. */
  lemma BadStep(keys: seq<string>, values: seq<MvtValue>, tags: seq<nat>, m: nat)
    requires 2 * m < |tags| && !PairResolves(keys, values, tags, m)
    ensures !FoundFrom(keys, values, tags, m) && !NoneFrom(keys, values, tags, m)
    ensures ThemeFrom(keys, values, tags, 2 * m).Err?
  {
  }

  /** A matching pair settles the search: a match is found and "none matches" fails. */
  lemma MatchStep(keys: seq<string>, values: seq<MvtValue>, tags: seq<nat>, m: nat)
    requires PairMatches(keys, values, tags, m)
    ensures FoundFrom(keys, values, tags, m) && !NoneFrom(keys, values, tags, m)
    ensures ThemeFrom(keys, values, tags, 2 * m) == Ok(true)
  {
    assert forall i: nat :: m <= i < m ==> PairResolves(keys, values, tags, i);
  }

  /** Past the last pair nothing matches and nothing is left to resolve. */
  lemma EndStep(keys: seq<string>, values: seq<MvtValue>, tags: seq<nat>, m: nat)
    requires 2 * m >= |tags|
    ensures !FoundFrom(keys, values, tags, m) && NoneFrom(keys, values, tags, m)
    ensures ThemeFrom(keys, values, tags, 2 * m) == Ok(false)
  {
  }

  /** One chunk of the scan: a matching pair answers true, a pair that resolves
      without matching hands on to the next chunk, and any other pair panics. */
  lemma ThemeFromStep(keys: seq<string>, values: seq<MvtValue>, tags: seq<nat>, m: nat)
    requires 2 * m < |tags|
    ensures PairMatches(keys, values, tags, m) ==> ThemeFrom(keys, values, tags, 2 * m) == Ok(true)
    ensures PairResolves(keys, values, tags, m) && !PairMatches(keys, values, tags, m) ==>
      ThemeFrom(keys, values, tags, 2 * m) == ThemeFrom(keys, values, tags, 2 * (m + 1))
    ensures !PairResolves(keys, values, tags, m) ==> ThemeFrom(keys, values, tags, 2 * m).Err?
  {
  }

  /** From pair `m` on, the scan finds the theme exactly when some pair matches with
      every pair before it resolving; it finds nothing exactly when the tags pair up,
      every pair resolves and none matches. Anything else panics. */
  lemma {:induction false} ThemeFromMeaning(keys: seq<string>, values: seq<MvtValue>, tags: seq<nat>, m: nat)
    ensures ThemeFrom(keys, values, tags, 2 * m) == Ok(true) <==> FoundFrom(keys, values, tags, m)
    ensures ThemeFrom(keys, values, tags, 2 * m) == Ok(false) <==> NoneFrom(keys, values, tags, m)
    decreases |tags| - 2 * m
  {
    if 2 * m >= |tags| {
      EndStep(keys, values, tags, m);
    } else if PairMatches(keys, values, tags, m) {
      MatchStep(keys, values, tags, m);
    } else if PairResolves(keys, values, tags, m) {
      ThemeFromStep(keys, values, tags, m);
      PassStep(keys, values, tags, m);
      ThemeFromMeaning(keys, values, tags, m + 1);
    } else {
      BadStep(keys, values, tags, m);
    }
  }

  /** A feature is kept exactly when some tag pair names the theme before any pair
      fails to resolve. */
  lemma IsRoadMeaning(layer: MvtLayer, f: MvtFeature)
    ensures (IsRoad(layer.keys, layer.values)(f).Ok? && IsRoad(layer.keys, layer.values)(f).value) <==>
      exists j: nat :: PairMatches(layer.keys, layer.values, f.tags, j) &&
        (forall i: nat :: i < j ==> PairResolves(layer.keys, layer.values, f.tags, i))
    ensures (IsRoad(layer.keys, layer.values)(f).Ok? && !IsRoad(layer.keys, layer.values)(f).value) <==>
      && |f.tags| % 2 == 0
      && forall j: nat :: 2 * j < |f.tags| ==>
        (PairResolves(layer.keys, layer.values, f.tags, j) && !PairMatches(layer.keys, layer.values, f.tags, j))
  {
    ThemeFromMeaning(layer.keys, layer.values, f.tags, 0);
  }

  /** An odd number of tags with no matching pair panics: the last tag has no partner. */
  lemma OddTagsPanic(layer: MvtLayer, f: MvtFeature)
    requires |f.tags| % 2 == 1
    requires forall j: nat :: !PairMatches(layer.keys, layer.values, f.tags, j)
    ensures IsRoad(layer.keys, layer.values)(f) == Err(Panic(OUT_OF_BOUNDS))
  {
    IsRoadMeaning(layer, f);
  }

  /** `process_mvt_layer`: `retain` runs the closure on each feature in order and keeps
      those it accepts; a panic in the closure stops it. The name, keys and values
      stay as they were. */
  function ProcessLayer(layer: MvtLayer): (r: Result<MvtLayer>)
    ensures r.Ok? ==> r.value.name == layer.name && r.value.keys == layer.keys && r.value.values == layer.values
  {
    var kept :- TryFilter(layer.features, IsRoad(layer.keys, layer.values));
    Ok(layer.(features := kept))
  }

  /** Filtering a layer fails exactly when the closure panics on some feature; otherwise
      the layer keeps exactly its road features, in their order. */
  lemma ProcessLayerMeaning(layer: MvtLayer)
    ensures ProcessLayer(layer).Ok? <==>
      forall i :: 0 <= i < |layer.features| ==> IsRoad(layer.keys, layer.values)(layer.features[i]).Ok?
    ensures ProcessLayer(layer).Ok? ==>
      ProcessLayer(layer).value.features == Filter(layer.features, Passes(IsRoad(layer.keys, layer.values)))
  {
    var keep := IsRoad(layer.keys, layer.values);
    TryFilterFails(layer.features, keep);
    if ProcessLayer(layer).Ok? {
      TryFilterMeaning(layer.features, keep);
    }
  }

  /** Filtering a layer a second time changes nothing. */
  lemma ProcessLayerIdempotent(layer: MvtLayer)
    requires ProcessLayer(layer).Ok?
    ensures ProcessLayer(ProcessLayer(layer).value) == ProcessLayer(layer)
  {
    var once := ProcessLayer(layer).value;
    var keep := IsRoad(layer.keys, layer.values);
    assert IsRoad(once.keys, once.values) == keep;
    ProcessLayerMeaning(layer);
    FilterMeaning(layer.features, Passes(keep));
    var pos := KeptPositions(layer.features, Passes(keep));
    forall i | 0 <= i < |once.features| ensures keep(once.features[i]) == Ok(true) {
      assert once.features[i] == layer.features[pos[i]];
      assert pos[i] in pos;
    }
    TryFilterAll(once.features, keep);
  }

  /** The tile loop as a function of the decoded layers: every layer filtered in
      order, and whether any is left with a feature. */
  function ProcessTileLayers(layers: seq<MvtLayer>): Result<(seq<MvtLayer>, bool)> {
    if layers == [] then Ok(([], false))
    else
      var (before, ok) :- ProcessTileLayers(layers[..|layers| - 1]);
      var layer :- ProcessLayer(layers[|layers| - 1]);
      Ok((before + [layer], ok || layer.features != []))
  }

  /** The tile loop succeeds exactly when every layer does. */
  lemma {:induction false} ProcessTileLayersOk(layers: seq<MvtLayer>)
    ensures ProcessTileLayers(layers).Ok? <==> forall i :: 0 <= i < |layers| ==> ProcessLayer(layers[i]).Ok?
  {
    if layers != [] {
      var init, last := layers[..|layers| - 1], layers[|layers| - 1];
      ProcessTileLayersOk(init);
      if ProcessTileLayers(init).Err? {
        var i :| 0 <= i < |init| && ProcessLayer(init[i]).Err?;
        assert layers[i] == init[i];
        assert ProcessTileLayers(layers).Err?;
      } else if ProcessLayer(last).Err? {
        assert ProcessTileLayers(layers).Err?;
      } else {
        assert ProcessTileLayers(layers).Ok?;
        forall i | 0 <= i < |layers| ensures ProcessLayer(layers[i]).Ok? {
          if i < |init| {
            assert layers[i] == init[i];
          }
        }
      }
    }
  }

  /** The tile loop filters each layer, and keeps the tile exactly when some filtered
      layer has a feature. */
  lemma {:induction false} ProcessTileLayersMeaning(layers: seq<MvtLayer>)
    requires ProcessTileLayers(layers).Ok?
    ensures var (out, ok) := ProcessTileLayers(layers).value;
      && |out| == |layers|
      && (forall i :: 0 <= i < |layers| ==> ProcessLayer(layers[i]).Ok? && out[i] == ProcessLayer(layers[i]).value)
      && (ok <==> exists i :: 0 <= i < |out| && out[i].features != [])
  {
    if layers != [] {
      var init, last := layers[..|layers| - 1], layers[|layers| - 1];
      assert ProcessTileLayers(init).Ok? && ProcessLayer(last).Ok?;
      ProcessTileLayersMeaning(init);
      var (before, okBefore) := ProcessTileLayers(init).value;
      var layer := ProcessLayer(last).value;
      var out, ok := before + [layer], okBefore || layer.features != [];
      assert ProcessTileLayers(layers) == Ok((out, ok));
      forall i | 0 <= i < |layers| ensures ProcessLayer(layers[i]).Ok? && out[i] == ProcessLayer(layers[i]).value {
        if i < |init| {
          assert layers[i] == init[i] && out[i] == before[i];
        }
      }
      if okBefore {
        var i :| 0 <= i < |before| && before[i].features != [];
        assert out[i].features != [];
      } else if ok {
        assert out[|out| - 1].features != [];
      } else {
        assert forall i :: 0 <= i < |out| ==> out[i].features == [];
      }
    }
  }

  /** The loop over the layers of one decoded tile. */
  method ProcessTile(layers: seq<MvtLayer>) returns (r: Result<(seq<MvtLayer>, bool)>)
    ensures r == ProcessTileLayers(layers)
  {
    var out: seq<MvtLayer> := [];
    var ok := false;
    for i := 0 to |layers|
      invariant ProcessTileLayers(layers[..i]) == Ok((out, ok))
    {
      assert layers[..i + 1][..i] == layers[..i];
      var layer := ProcessLayer(layers[i]);
      if layer.Err? {
        ProcessTileFailFrom(layers, i + 1);
        return Err(layer.error);
      }
      out := out + [layer.value];
      ok := ok || layer.value.features != [];
    }
    assert layers[..|layers|] == layers;
    r := Ok((out, ok));
  }

  lemma {:induction false} ProcessTileFailFrom(layers: seq<MvtLayer>, i: nat)
    requires i <= |layers| && ProcessTileLayers(layers[..i]).Err?
    ensures ProcessTileLayers(layers) == ProcessTileLayers(layers[..i])
    decreases |layers| - i
  {
    if i < |layers| {
      assert layers[..i + 1][..i] == layers[..i];
      ProcessTileFailFrom(layers, i + 1);
    } else {
      assert layers[..i] == layers;
    }
  }

  /** What reading one tile position gave: a decoded tile, no tile, or a read error
      (which is reported and passed over). */
  datatype Fetch = Found(x: nat, y: nat, layers: seq<MvtLayer>) | Missing(x: nat, y: nat) | Failed(x: nat, y: nat)

  /** A tile written to the output: its position and its filtered layers. */
  datatype OutputTile = OutputTile(x: nat, y: nat, layers: seq<MvtLayer>)

  /** The tiles written, in reading order. */
  function Convert(fetches: seq<Fetch>): Result<seq<OutputTile>> {
    if fetches == [] then Ok([])
    else
      var before :- Convert(fetches[..|fetches| - 1]);
      var fetch := fetches[|fetches| - 1];
      if !fetch.Found? then Ok(before)
      else
        var (layers, ok) :- ProcessTileLayers(fetch.layers);
        Ok(if ok then before + [OutputTile(fetch.x, fetch.y, layers)] else before)
  }

  /** Tile `t` is the output for fetch `f`: a decoded tile at its position, whose
      filtered layers are `t`'s and keep a feature. */
  predicate WrittenFrom(f: Fetch, t: OutputTile) {
    f.Found? && f.x == t.x && f.y == t.y && ProcessTileLayers(f.layers) == Ok((t.layers, true))
  }

  /** A successful run processed every decoded tile without a panic. */
  lemma {:induction false} ConvertProcessed(fetches: seq<Fetch>)
    requires Convert(fetches).Ok?
    ensures forall i :: 0 <= i < |fetches| && fetches[i].Found? ==> ProcessTileLayers(fetches[i].layers).Ok?
  {
    if fetches != [] {
      var init := fetches[..|fetches| - 1];
      ConvertStep(fetches);
      ConvertProcessed(init);
      forall i | 0 <= i < |fetches| && fetches[i].Found? ensures ProcessTileLayers(fetches[i].layers).Ok? {
        if i < |init| {
          assert fetches[i] == init[i];
        }
      }
    }
  }

  /** Every tile written comes from a decoded tile left with a feature, with its layers
      filtered. */
  lemma {:induction false} ConvertSound(fetches: seq<Fetch>)
    requires Convert(fetches).Ok?
    ensures forall t :: t in Convert(fetches).value ==> exists i :: 0 <= i < |fetches| && WrittenFrom(fetches[i], t)
  {
    if fetches != [] {
      var init := fetches[..|fetches| - 1];
      ConvertStep(fetches);
      ConvertSound(init);
      var before := Convert(init).value;
      var out := Convert(fetches).value;
      var last := |fetches| - 1;
      forall t | t in out ensures exists i :: 0 <= i < |fetches| && WrittenFrom(fetches[i], t) {
        if t in before {
          var i :| 0 <= i < |init| && WrittenFrom(init[i], t);
          assert fetches[i] == init[i];
        } else {
          assert WrittenFrom(fetches[last], t);
        }
      }
    }
  }

  /** Every decoded tile left with a feature is written. */
  lemma {:induction false} ConvertComplete(fetches: seq<Fetch>)
    requires Convert(fetches).Ok?
    ensures forall i ::
      (0 <= i < |fetches| && fetches[i].Found? && ProcessTileLayers(fetches[i].layers).Ok? &&
       ProcessTileLayers(fetches[i].layers).value.1) ==>
        OutputTile(fetches[i].x, fetches[i].y, ProcessTileLayers(fetches[i].layers).value.0) in Convert(fetches).value
  {
    if fetches != [] {
      var init := fetches[..|fetches| - 1];
      ConvertStep(fetches);
      ConvertComplete(init);
      var before := Convert(init).value;
      var out := Convert(fetches).value;
      forall i | 0 <= i < |fetches| && fetches[i].Found? && ProcessTileLayers(fetches[i].layers).Ok? &&
        ProcessTileLayers(fetches[i].layers).value.1
        ensures OutputTile(fetches[i].x, fetches[i].y, ProcessTileLayers(fetches[i].layers).value.0) in out
      {
        if i < |init| {
          assert fetches[i] == init[i];
          assert out[..|before|] == before;
        }
      }
    }
  }

  /** One fetch more: the tiles written so far stay, and a decoded tile left with a
      feature adds its own. */
  lemma ConvertStep(fetches: seq<Fetch>)
    requires fetches != [] && Convert(fetches).Ok?
    ensures var n := |fetches| - 1;
      var f := fetches[n];
      && Convert(fetches[..n]).Ok?
      && (f.Found? ==> ProcessTileLayers(f.layers).Ok?)
      && Convert(fetches).value == Convert(fetches[..n]).value +
           (if f.Found? && ProcessTileLayers(f.layers).value.1 then [OutputTile(f.x, f.y, ProcessTileLayers(f.layers).value.0)] else [])
  {
    var n := |fetches| - 1;
    var f := fetches[n];
    assert Convert(fetches[..n]).Ok?;
    var before := Convert(fetches[..n]).value;
    if f.Found? {
      assert ProcessTileLayers(f.layers).Ok?;
      var (layers, ok) := ProcessTileLayers(f.layers).value;
      assert Convert(fetches).value == if ok then before + [OutputTile(f.x, f.y, layers)] else before;
    } else {
      assert Convert(fetches).value == before;
    }
  }

  /** The nested loop of `main` over the tile positions, flattened to the reads in
      order. */
  method ConvertTiles(fetches: seq<Fetch>) returns (r: Result<seq<OutputTile>>)
    ensures r == Convert(fetches)
  {
    var out: seq<OutputTile> := [];
    for i := 0 to |fetches|
      invariant Convert(fetches[..i]) == Ok(out)
    {
      assert fetches[..i + 1][..i] == fetches[..i];
      match fetches[i]
      case Found(x, y, layers) =>
        var processed := ProcessTile(layers);
        if processed.Err? {
          ConvertFailFrom(fetches, i + 1);
          return Err(processed.error);
        }
        if processed.value.1 {
          out := out + [OutputTile(x, y, processed.value.0)];
        }
      case Missing(_, _) =>
      case Failed(_, _) =>
    }
    assert fetches[..|fetches|] == fetches;
    r := Ok(out);
  }

  lemma {:induction false} ConvertFailFrom(fetches: seq<Fetch>, i: nat)
    requires i <= |fetches| && Convert(fetches[..i]).Err?
    ensures Convert(fetches) == Convert(fetches[..i])
    decreases |fetches| - i
  {
    if i < |fetches| {
      assert fetches[..i + 1][..i] == fetches[..i];
      ConvertFailFrom(fetches, i + 1);
    } else {
      assert fetches[..i] == fetches;
    }
  }
}
