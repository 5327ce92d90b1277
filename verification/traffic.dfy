/** layers/traffic.py: one point per English traffic count of 2022. */
module Traffic {
  import opened Outcomes
  import opened Json
  import opened Text
  import opened GeoJson
  import opened CsvRows

  const YEAR := "2022"

  /** The row filter: the year must be exactly the text "2022" (compared before the
      region, which is then not read), and the region must start with "E". */
  function Keep(row: Row): (r: Result<bool>)
    ensures r.Ok? <==> "Year" in row && (row["Year"] != YEAR || (REGION in row && row[REGION] != ""))
    ensures r.Ok? ==> (r.value <==> row["Year"] == YEAR && row[REGION][0] == 'E')
  {
    var year :- Lookup(row, "Year");
    if year != YEAR then Ok(false) else InEngland(row)
  }

  /** The feature of a kept row, its cells read in the order of the Python dictionary
      literal: coordinates first, then the properties. */
  function CountFeature(row: Row, parseFloat: string -> Option<real>): (r: Result<Feature>)
    ensures r.Ok? ==>
      && r.value.properties.Keys == {"count_point", "location", "method", "motor_vehicles_2022", "pedal_cycles_2022"}
      && "Count_point_id" in row && "Road_name" in row && "Start_junction_road_name" in row
      && "End_junction_road_name" in row && "Estimation_method_detailed" in row
      && r.value.properties["count_point"] == Str(row["Count_point_id"])
      && r.value.properties["location"] ==
           Str(row["Road_name"] + " from " + row["Start_junction_road_name"] + " to " + row["End_junction_road_name"])
      && r.value.properties["method"] == Str(row["Estimation_method_detailed"])
  {
    var lon :- FloatCell(row, "Longitude", parseFloat);
    var lat :- FloatCell(row, "Latitude", parseFloat);
    var countPoint :- Lookup(row, "Count_point_id");
    var road :- Lookup(row, "Road_name");
    var start :- Lookup(row, "Start_junction_road_name");
    var end :- Lookup(row, "End_junction_road_name");
    var method_ :- Lookup(row, "Estimation_method_detailed");
    var motorVehicles :- IntCell(row, "All_motor_vehicles");
    var pedalCycles :- IntCell(row, "Pedal_cycles");
    Ok(PointFeature(lon, lat, map[
      "count_point" := Str(countPoint),
      "location" := Str(road + " from " + start + " to " + end),
      "method" := Str(method_),
      "motor_vehicles_2022" := Int(motorVehicles),
      "pedal_cycles_2022" := Int(pedalCycles)]))
  }

  /** The two counts are the integers the cells parse to. */
  lemma CountFeatureCounts(row: Row, parseFloat: string -> Option<real>)
    requires CountFeature(row, parseFloat).Ok?
    ensures "All_motor_vehicles" in row && ParseInt(row["All_motor_vehicles"]).Some?
    ensures "Pedal_cycles" in row && ParseInt(row["Pedal_cycles"]).Some?
    ensures CountFeature(row, parseFloat).value.properties["motor_vehicles_2022"] == Int(ParseInt(row["All_motor_vehicles"]).value)
    ensures CountFeature(row, parseFloat).value.properties["pedal_cycles_2022"] == Int(ParseInt(row["Pedal_cycles"]).value)
  {
  }

  /** A motor-vehicle count that is not an integer raises ValueError, once every cell
      read before it is well formed. */
  lemma CountFeatureRaises(row: Row, parseFloat: string -> Option<real>)
    requires FloatCell(row, "Longitude", parseFloat).Ok? && FloatCell(row, "Latitude", parseFloat).Ok?
    requires "Count_point_id" in row && "Road_name" in row && "Start_junction_road_name" in row
    requires "End_junction_road_name" in row && "Estimation_method_detailed" in row
    requires "All_motor_vehicles" in row && ParseInt(row["All_motor_vehicles"]).None?
    ensures CountFeature(row, parseFloat) == Err(ValueError(row["All_motor_vehicles"]))
  {
  }

  /** The row loop: filtered rows are passed over, every other row appends its feature;
      the first error stops the script. */
  function CountFeatures(rows: seq<Row>, parseFloat: string -> Option<real>): Result<seq<Feature>> {
    if rows == [] then Ok([])
    else
      var before :- CountFeatures(rows[..|rows| - 1], parseFloat);
      var row := rows[|rows| - 1];
      var keep :- Keep(row);
      if !keep then Ok(before)
      else
        var f :- CountFeature(row, parseFloat);
        Ok(before + [f])
  }

  /** The kept rows, in order: an independent statement of the filter. */
  function KeptRows(rows: seq<Row>): seq<Row> {
    if rows == [] then []
    else
      var row := rows[|rows| - 1];
      KeptRows(rows[..|rows| - 1]) + (if Keep(row) == Ok(true) then [row] else [])
  }

  /** A successful run writes one feature per kept row, in row order. */
  lemma {:induction false} CountFeaturesMeaning(rows: seq<Row>, parseFloat: string -> Option<real>)
    requires CountFeatures(rows, parseFloat).Ok?
    ensures var out := CountFeatures(rows, parseFloat).value;
      && |out| == |KeptRows(rows)|
      && forall j :: 0 <= j < |out| ==> CountFeature(KeptRows(rows)[j], parseFloat) == Ok(out[j])
  {
    if rows != [] {
      var init := rows[..|rows| - 1];
      var last := rows[|rows| - 1];
      assert CountFeatures(init, parseFloat).Ok? && Keep(last).Ok?;
      CountFeaturesMeaning(init, parseFloat);
      var out := CountFeatures(rows, parseFloat).value;
      var before := CountFeatures(init, parseFloat).value;
      var kept := KeptRows(init);
      if Keep(last) == Ok(true) {
        var f := CountFeature(last, parseFloat).value;
        assert out == before + [f];
        assert KeptRows(rows) == kept + [last];
        forall j | 0 <= j < |out| ensures CountFeature(KeptRows(rows)[j], parseFloat) == Ok(out[j]) {
          if j < |before| {
            assert out[j] == before[j] && KeptRows(rows)[j] == kept[j];
          }
        }
      } else {
        assert out == before && KeptRows(rows) == kept;
      }
    }
  }

  /** The run fails exactly when the filter raises on some row or a kept row does not
      convert. */
  lemma {:induction false} CountFeaturesFails(rows: seq<Row>, parseFloat: string -> Option<real>)
    ensures CountFeatures(rows, parseFloat).Ok? <==>
      forall i :: 0 <= i < |rows| ==> Keep(rows[i]).Ok? && (Keep(rows[i]).value ==> CountFeature(rows[i], parseFloat).Ok?)
  {
    if rows != [] {
      var init := rows[..|rows| - 1];
      CountFeaturesFails(init, parseFloat);
      assert forall i :: 0 <= i < |init| ==> init[i] == rows[i];
    }
  }

  predicate Kept2022(row: Row) {
    "Year" in row && row["Year"] == YEAR && REGION in row && row[REGION] != "" && row[REGION][0] == 'E'
  }

  /** A kept row is one of 2022 in an English region, and every such row is kept. */
  lemma {:induction false} KeptRowsMeaning(rows: seq<Row>)
    ensures forall r :: r in KeptRows(rows) ==> r in rows && Kept2022(r)
    ensures forall i :: 0 <= i < |rows| && Kept2022(rows[i]) ==> rows[i] in KeptRows(rows)
  {
    if rows != [] {
      var init := rows[..|rows| - 1];
      KeptRowsMeaning(init);
      assert forall i :: 0 <= i < |init| ==> init[i] == rows[i];
    }
  }

  /** `makeDftVehicleCounts` of layers/traffic.py without the download and the file
      writes. */
  method MakeTrafficCounts(rows: seq<Row>, parseFloat: string -> Option<real>) returns (r: Result<seq<Feature>>)
    ensures r == CountFeatures(rows, parseFloat)
  {
    var features: seq<Feature> := [];
    for i := 0 to |rows|
      invariant CountFeatures(rows[..i], parseFloat) == Ok(features)
    {
      assert rows[..i + 1][..i] == rows[..i];
      var row := rows[i];
      if "Year" !in row {
        CountFeaturesFailFrom(rows, parseFloat, i + 1);
        return Err(KeyError("Year"));
      }
      if row["Year"] != YEAR {
        continue;
      }
      var england := InEngland(row);
      if england.Err? {
        CountFeaturesFailFrom(rows, parseFloat, i + 1);
        return Err(england.error);
      }
      if !england.value {
        continue;
      }
      var f := CountFeature(row, parseFloat);
      if f.Err? {
        CountFeaturesFailFrom(rows, parseFloat, i + 1);
        return Err(f.error);
      }
      features := features + [f.value];
    }
    assert rows[..|rows|] == rows;
    r := Ok(features);
  }

  lemma {:induction false} CountFeaturesFailFrom(rows: seq<Row>, parseFloat: string -> Option<real>, i: nat)
    requires i <= |rows| && CountFeatures(rows[..i], parseFloat).Err?
    ensures CountFeatures(rows, parseFloat) == CountFeatures(rows[..i], parseFloat)
    decreases |rows| - i
  {
    if i < |rows| {
      assert rows[..i + 1][..i] == rows[..i];
      CountFeaturesFailFrom(rows, parseFloat, i + 1);
    } else {
      assert rows[..i] == rows;
    }
  }
}
