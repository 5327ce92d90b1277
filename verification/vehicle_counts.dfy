/** layers/vehicle_counts.py: one point per English traffic count point, described by
    its most recent yearly row. */
module VehicleCounts {
  import opened Outcomes
  import opened Json
  import opened Text
  import opened GeoJson
  import opened CsvRows

  const COUNT_POINT := "Count_point_id"

  /** The rows grouped by count point: the count points in the order they were first
      seen (the insertion order of the Python dictionary) and each one's rows. */
  datatype Groups = Groups(order: seq<string>, rows: map<string, seq<Row>>)

  /** The row is English and names its count point; the grouping keeps exactly these. */
  predicate English(row: Row) {
    REGION in row && row[REGION] != "" && row[REGION][0] == 'E' && COUNT_POINT in row
  }

  /** The row makes the grouping raise: no region, an empty region, or an English row
      without a count point. */
  predicate Unreadable(row: Row) {
    REGION !in row || row[REGION] == "" || (row[REGION][0] == 'E' && COUNT_POINT !in row)
  }

  /** The grouping loop, one row. */
  function GroupStep(g: Groups, row: Row): Result<Groups> {
    var england :- InEngland(row);
    if !england then Ok(g)
    else
      var id :- Lookup(row, COUNT_POINT);
      if id in g.rows then Ok(g.(rows := g.rows[id := g.rows[id] + [row]]))
      else Ok(Groups(g.order + [id], g.rows[id := [row]]))
  }

  function Group(rows: seq<Row>): Result<Groups> {
    if rows == [] then Ok(Groups([], map[]))
    else
      var g :- Group(rows[..|rows| - 1]);
      GroupStep(g, rows[|rows| - 1])
  }

  /** The English rows of count point `id`, in file order: an independent statement of
      what each group holds. */
  function RowsOf(rows: seq<Row>, id: string): seq<Row> {
    if rows == [] then []
    else
      var row := rows[|rows| - 1];
      RowsOf(rows[..|rows| - 1], id) + (if English(row) && row[COUNT_POINT] == id then [row] else [])
  }

  predicate Distinct(xs: seq<string>) {
    forall i, j :: 0 <= i < j < |xs| ==> xs[i] != xs[j]
  }

  /** The grouping raises exactly when some row is unreadable. */
  lemma {:induction false} GroupFails(rows: seq<Row>)
    ensures Group(rows).Ok? <==> forall i :: 0 <= i < |rows| ==> !Unreadable(rows[i])
  {
    if rows != [] {
      var init := rows[..|rows| - 1];
      GroupFails(init);
      assert forall i :: 0 <= i < |init| ==> init[i] == rows[i];
    }
  }

  /** Otherwise it lists each count point of an English row exactly once. */
  lemma {:induction false} GroupKeys(rows: seq<Row>)
    requires Group(rows).Ok?
    ensures var g := Group(rows).value;
      && Distinct(g.order)
      && (forall id :: id in g.order <==> id in g.rows)
      && (forall id :: id in g.rows <==> exists i :: 0 <= i < |rows| && English(rows[i]) && rows[i][COUNT_POINT] == id)
  {
    if rows != [] {
      var init := rows[..|rows| - 1];
      GroupKeys(init);
      assert forall i :: 0 <= i < |init| ==> init[i] == rows[i];
    }
  }

  /** Each group holds exactly the English rows of its count point, in order. */
  lemma {:induction false} GroupRows(rows: seq<Row>)
    requires Group(rows).Ok?
    ensures var g := Group(rows).value;
      forall id :: id in g.rows ==> g.rows[id] == RowsOf(rows, id) != []
  {
    if rows != [] {
      var init := rows[..|rows| - 1];
      GroupRows(init);
      GroupKeys(init);
      var g := Group(init).value;
      var row := rows[|rows| - 1];
      if English(row) && row[COUNT_POINT] !in g.rows {
        assert forall i :: 0 <= i < |init| ==> init[i] == rows[i];
        NoRowsOf(init, row[COUNT_POINT]);
      }
    }
  }

  lemma {:induction false} NoRowsOf(rows: seq<Row>, id: string)
    requires forall i :: 0 <= i < |rows| ==> !(English(rows[i]) && rows[i][COUNT_POINT] == id)
    ensures RowsOf(rows, id) == []
  {
    if rows != [] {
      NoRowsOf(rows[..|rows| - 1], id);
    }
  }

  /** The count points of the groups come first-seen: a count point listed before
      another was seen in an earlier row. */
  lemma {:induction false} GroupFirstSeen(rows: seq<Row>, a: nat, b: nat)
    requires Group(rows).Ok? && a < b < |Group(rows).value.order|
    ensures exists p ::
      && 0 <= p < |rows| && English(rows[p]) && rows[p][COUNT_POINT] == Group(rows).value.order[a]
      && forall q :: 0 <= q <= p ==> !(English(rows[q]) && rows[q][COUNT_POINT] == Group(rows).value.order[b])
  {
    var init := rows[..|rows| - 1];
    assert forall i :: 0 <= i < |init| ==> init[i] == rows[i];
    var g := Group(init).value;
    var order := Group(rows).value.order;
    if b < |g.order| {
      GroupFirstSeen(init, a, b);
    } else {
      // order[b] is the count point of the last row, seen for the first time.
      GroupKeys(init);
      var row := rows[|rows| - 1];
      assert order[b] == row[COUNT_POINT] && order[b] !in g.rows;
      assert order[a] in g.rows;
      var p :| 0 <= p < |init| && English(init[p]) && init[p][COUNT_POINT] == order[a];
      assert forall q :: 0 <= q <= p ==> !(English(rows[q]) && rows[q][COUNT_POINT] == order[b]);
    }
  }

  /** The key of `max`: `int(row["Year"])`. */
  function YearOf(row: Row): Result<int> {
    IntCell(row, "Year")
  }

  /** `max(rows, key=key)`: the key is taken of every row in order, and a later row
      replaces the best so far only when its key is strictly greater. */
  function LatestBy(rows: seq<Row>, key: Row -> Result<int>): (r: Result<Row>)
    requires rows != []
    ensures r.Ok? ==> key(r.value).Ok?
  {
    if |rows| == 1 then
      var _ :- key(rows[0]);
      Ok(rows[0])
    else
      var best :- LatestBy(rows[..|rows| - 1], key);
      var k :- key(rows[|rows| - 1]);
      if k > key(best).value then Ok(rows[|rows| - 1]) else Ok(best)
  }

  /** The row of the latest year. */
  function Latest(rows: seq<Row>): Result<Row>
    requires rows != []
  {
    LatestBy(rows, YearOf)
  }

  /** `max` fails exactly when some key fails, with the first such row's error. */
  lemma {:induction false} LatestFails(rows: seq<Row>, key: Row -> Result<int>)
    requires rows != []
    ensures LatestBy(rows, key).Ok? <==> forall i :: 0 <= i < |rows| ==> key(rows[i]).Ok?
    ensures LatestBy(rows, key).Err? ==> exists i ::
      && 0 <= i < |rows| && key(rows[i]).Err? && LatestBy(rows, key) == Err(key(rows[i]).error)
      && forall j :: 0 <= j < i ==> key(rows[j]).Ok?
  {
    if |rows| > 1 {
      var init := rows[..|rows| - 1];
      LatestFails(init, key);
      assert forall i :: 0 <= i < |init| ==> init[i] == rows[i];
    }
  }

  /** Row `i` has a greatest key, and every earlier row a smaller one. */
  predicate FirstMax(rows: seq<Row>, key: Row -> Result<int>, i: int) {
    && 0 <= i < |rows| && key(rows[i]).Ok?
    && (forall j :: 0 <= j < |rows| ==> key(rows[j]).Ok? && key(rows[j]).value <= key(rows[i]).value)
    && (forall j :: 0 <= j < i ==> key(rows[j]).value < key(rows[i]).value)
  }

  /** One more row either takes over as the first row of greatest key, when its key
      is strictly greater, or leaves the first maximum where it was. */
  lemma FirstMaxSnoc(rows: seq<Row>, key: Row -> Result<int>, i: int)
    requires |rows| > 1 && FirstMax(rows[..|rows| - 1], key, i) && key(rows[|rows| - 1]).Ok?
    ensures key(rows[|rows| - 1]).value > key(rows[i]).value ==> FirstMax(rows, key, |rows| - 1)
    ensures key(rows[|rows| - 1]).value <= key(rows[i]).value ==> FirstMax(rows, key, i)
  {
    var init := rows[..|rows| - 1];
    assert forall j :: 0 <= j < |init| ==> rows[j] == init[j];
  }

  /** Otherwise it is the first row of greatest key. */
  lemma {:induction false} LatestIsFirstMax(rows: seq<Row>, key: Row -> Result<int>)
    requires rows != [] && LatestBy(rows, key).Ok?
    ensures exists i :: FirstMax(rows, key, i) && LatestBy(rows, key).value == rows[i]
  {
    LatestFails(rows, key);
    if |rows| == 1 {
      assert FirstMax(rows, key, 0);
    } else {
      var init := rows[..|rows| - 1];
      var last := |rows| - 1;
      LatestIsFirstMax(init, key);
      var i :| FirstMax(init, key, i) && LatestBy(init, key).value == init[i];
      assert init[i] == rows[i];
      FirstMaxSnoc(rows, key, i);
      if key(rows[last]).value > key(rows[i]).value {
        assert LatestBy(rows, key).value == rows[last];
      } else {
        assert LatestBy(rows, key).value == rows[i];
      }
    }
  }

  /** The location: the road name, followed by " from {start} to {end}" exactly when the
      start junction is non-empty. */
  function Location(row: Row): (r: Result<string>)
    ensures r.Ok? ==> "Road_name" in row && "Start_junction_road_name" in row
    ensures r.Ok? && row["Start_junction_road_name"] == "" ==> r.value == row["Road_name"]
    ensures r.Ok? && row["Start_junction_road_name"] != "" ==>
      "End_junction_road_name" in row &&
      r.value == row["Road_name"] + " from " + row["Start_junction_road_name"] + " to " + row["End_junction_road_name"]
  {
    var road :- Lookup(row, "Road_name");
    var start :- Lookup(row, "Start_junction_road_name");
    if start != "" then
      var end :- Lookup(row, "End_junction_road_name");
      Ok(road + " from " + start + " to " + end)
    else Ok(road)
  }

  /** The feature of one count point, from its latest row; cells are read in the order
      the Python dictionary literal reads them. */
  function CountPointFeature(latest: Row, parseFloat: string -> Option<real>): (r: Result<Feature>)
    ensures r.Ok? ==>
      && r.value.properties.Keys == {"count_point", "location", "method", "motor_vehicles", "pedal_cycles", "year"}
      && COUNT_POINT in latest && Location(latest).Ok? && YearOf(latest).Ok?
      && r.value.properties["count_point"] == Str(latest[COUNT_POINT])
      && r.value.properties["location"] == Str(Location(latest).value)
      && r.value.properties["year"] == Int(YearOf(latest).value)
  {
    var location :- Location(latest);
    var lon :- FloatCell(latest, "Longitude", parseFloat);
    var lat :- FloatCell(latest, "Latitude", parseFloat);
    var countPoint :- Lookup(latest, COUNT_POINT);
    var method_ :- Lookup(latest, "Estimation_method_detailed");
    var motorVehicles :- IntCell(latest, "All_motor_vehicles");
    var pedalCycles :- IntCell(latest, "Pedal_cycles");
    var year :- YearOf(latest);
    Ok(PointFeature(lon, lat, CountPointProps(countPoint, location, method_, motorVehicles, pedalCycles, year)))
  }

  /** The six properties of a count point's feature. */
  function CountPointProps(countPoint: string, location: string, method_: string,
                           motorVehicles: int, pedalCycles: int, year: int): (p: Props)
    ensures p.Keys == {"count_point", "location", "method", "motor_vehicles", "pedal_cycles", "year"}
    ensures p["count_point"] == Str(countPoint) && p["location"] == Str(location) && p["year"] == Int(year)
  {
    map[
      "count_point" := Str(countPoint),
      "location" := Str(location),
      "method" := Str(method_),
      "motor_vehicles" := Int(motorVehicles),
      "pedal_cycles" := Int(pedalCycles),
      "year" := Int(year)]
  }

  /** The output loop over the groups in order: `feature` of the latest row of each,
      latest by `key` (the year, in the script). */
  function Features(g: Groups, n: nat, key: Row -> Result<int>, feature: Row -> Result<Feature>): (r: Result<seq<Feature>>)
    requires n <= |g.order|
    requires forall id :: id in g.order ==> id in g.rows && g.rows[id] != []
    ensures r.Ok? ==> |r.value| == n
  {
    if n == 0 then Ok([])
    else
      var before :- Features(g, n - 1, key, feature);
      var latest :- LatestBy(g.rows[g.order[n - 1]], key);
      var f :- feature(latest);
      Ok(before + [f])
  }

  /** `f` is the feature of group `i`: that of its latest row. */
  predicate FeatureOf(g: Groups, i: nat, f: Feature, key: Row -> Result<int>, feature: Row -> Result<Feature>)
    requires i < |g.order| && g.order[i] in g.rows && g.rows[g.order[i]] != []
  {
    LatestBy(g.rows[g.order[i]], key).Ok? && feature(LatestBy(g.rows[g.order[i]], key).value) == Ok(f)
  }

  /** A successful output of `n` groups is that of the first `n - 1` followed by the
      feature of group `n - 1`. */
  lemma FeaturesSnoc(g: Groups, n: nat, key: Row -> Result<int>, feature: Row -> Result<Feature>)
    requires 0 < n <= |g.order|
    requires forall id :: id in g.order ==> id in g.rows && g.rows[id] != []
    requires Features(g, n, key, feature).Ok?
    ensures Features(g, n - 1, key, feature).Ok?
    ensures Features(g, n, key, feature).value[..n - 1] == Features(g, n - 1, key, feature).value
    ensures FeatureOf(g, n - 1, Features(g, n, key, feature).value[n - 1], key, feature)
  {
  }

  /** The output has one feature per group, in order, each for the latest row of its
      group. */
  lemma {:induction false} FeaturesMeaning(g: Groups, n: nat, key: Row -> Result<int>, feature: Row -> Result<Feature>)
    requires n <= |g.order|
    requires forall id :: id in g.order ==> id in g.rows && g.rows[id] != []
    requires Features(g, n, key, feature).Ok?
    ensures forall i :: 0 <= i < n ==> FeatureOf(g, i, Features(g, n, key, feature).value[i], key, feature)
  {
    if n > 0 {
      FeaturesSnoc(g, n, key, feature);
      FeaturesMeaning(g, n - 1, key, feature);
      var out := Features(g, n, key, feature).value;
      var before := Features(g, n - 1, key, feature).value;
      forall i | 0 <= i < n - 1 ensures out[i] == before[i] {
        assert out[i] == out[..n - 1][i];
      }
    }
  }

  /** `makeDftVehicleCounts` without the download and the file writes. */
  function VehicleCountFeatures(rows: seq<Row>, parseFloat: string -> Option<real>): Result<seq<Feature>> {
    var g :- Group(rows);
    GroupKeys(rows);
    GroupRows(rows);
    Features(g, |g.order|, YearOf, row => CountPointFeature(row, parseFloat))
  }

  /** Exactly one feature per distinct English count point, in first-seen order, each
      carrying its count point and the year of its latest row, a greatest year of the
      count point's rows. */
  lemma OneFeaturePerCountPoint(rows: seq<Row>, parseFloat: string -> Option<real>)
    requires VehicleCountFeatures(rows, parseFloat).Ok?
    ensures Group(rows).Ok?
    ensures var out := VehicleCountFeatures(rows, parseFloat).value;
      var order := Group(rows).value.order;
      && |out| == |order| && Distinct(order)
      && (forall id :: id in order <==> exists i :: 0 <= i < |rows| && English(rows[i]) && rows[i][COUNT_POINT] == id)
      && forall i :: 0 <= i < |out| ==> CountPointOf(out[i], order[i], RowsOf(rows, order[i]))
  {
    GroupKeys(rows);
    GroupRows(rows);
    var g := Group(rows).value;
    var feature := row => CountPointFeature(row, parseFloat);
    FeaturesMeaning(g, |g.order|, YearOf, feature);
    var out := VehicleCountFeatures(rows, parseFloat).value;
    forall i | 0 <= i < |out|
      ensures CountPointOf(out[i], g.order[i], RowsOf(rows, g.order[i]))
    {
      assert FeatureOf(g, i, out[i], YearOf, feature);
      FeatureOfCountPoint(rows, g.order[i], out[i], parseFloat);
    }
  }

  /** The feature made from the latest of a count point's rows is that count point's. */
  lemma FeatureOfCountPoint(rows: seq<Row>, id: string, f: Feature, parseFloat: string -> Option<real>)
    requires RowsOf(rows, id) != [] && Latest(RowsOf(rows, id)).Ok?
    requires CountPointFeature(Latest(RowsOf(rows, id)).value, parseFloat) == Ok(f)
    ensures CountPointOf(f, id, RowsOf(rows, id))
  {
    var group := RowsOf(rows, id);
    LatestIsFirstMax(group, YearOf);
    RowsOfCountPoint(rows, id);
    var k :| FirstMax(group, YearOf, k) && Latest(group).value == group[k];
    assert f.properties["year"] == Int(YearOf(group[k]).value);
  }

  /** The feature of count point `id`, whose rows are `group`: it names the count point
      and carries a greatest year among them. */
  ghost predicate CountPointOf(f: Feature, id: string, group: seq<Row>) {
    && "count_point" in f.properties && f.properties["count_point"] == Str(id)
    && "year" in f.properties
    && exists y :: f.properties["year"] == Int(y) &&
         forall j :: 0 <= j < |group| ==> YearOf(group[j]).Ok? && YearOf(group[j]).value <= y
  }

  lemma {:induction false} RowsOfCountPoint(rows: seq<Row>, id: string)
    ensures forall j :: 0 <= j < |RowsOf(rows, id)| ==> English(RowsOf(rows, id)[j]) && RowsOf(rows, id)[j][COUNT_POINT] == id
  {
    if rows != [] {
      RowsOfCountPoint(rows[..|rows| - 1], id);
    }
  }

  /** The grouping loop of `makeDftVehicleCounts`. */
  method GroupByCountPoint(rows: seq<Row>) returns (r: Result<Groups>)
    ensures r == Group(rows)
  {
    var order: seq<string> := [];
    var rowsPerCountPoint: map<string, seq<Row>> := map[];
    for i := 0 to |rows|
      invariant Group(rows[..i]) == Ok(Groups(order, rowsPerCountPoint))
    {
      assert rows[..i + 1][..i] == rows[..i];
      var row := rows[i];
      var england := InEngland(row);
      if england.Err? {
        GroupFailFrom(rows, i + 1);
        return Err(england.error);
      }
      if !england.value {
        continue;
      }
      if COUNT_POINT !in row {
        GroupFailFrom(rows, i + 1);
        return Err(KeyError(COUNT_POINT));
      }
      var id := row[COUNT_POINT];
      if id in rowsPerCountPoint {
        rowsPerCountPoint := rowsPerCountPoint[id := rowsPerCountPoint[id] + [row]];
      } else {
        order := order + [id];
        rowsPerCountPoint := rowsPerCountPoint[id := [row]];
      }
    }
    assert rows[..|rows|] == rows;
    r := Ok(Groups(order, rowsPerCountPoint));
  }

  /** The output loop of `makeDftVehicleCounts`. */
  method WriteCountPoints(g: Groups, parseFloat: string -> Option<real>) returns (r: Result<seq<Feature>>)
    requires forall id :: id in g.order ==> id in g.rows && g.rows[id] != []
    ensures r == Features(g, |g.order|, YearOf, row => CountPointFeature(row, parseFloat))
  {
    ghost var feature := row => CountPointFeature(row, parseFloat);
    var features: seq<Feature> := [];
    for n := 0 to |g.order|
      invariant Features(g, n, YearOf, feature) == Ok(features)
    {
      var latest := Latest(g.rows[g.order[n]]);
      if latest.Err? {
        FeaturesFailFrom(g, n + 1, YearOf, feature);
        return Err(latest.error);
      }
      var f := CountPointFeature(latest.value, parseFloat);
      if f.Err? {
        FeaturesFailFrom(g, n + 1, YearOf, feature);
        return Err(f.error);
      }
      features := features + [f.value];
    }
    r := Ok(features);
  }

  /** The script: group the rows, then write one feature per group. */
  method MakeVehicleCounts(rows: seq<Row>, parseFloat: string -> Option<real>) returns (r: Result<seq<Feature>>)
    ensures r == VehicleCountFeatures(rows, parseFloat)
  {
    var g := GroupByCountPoint(rows);
    if g.Err? {
      return Err(g.error);
    }
    GroupKeys(rows);
    GroupRows(rows);
    r := WriteCountPoints(g.value, parseFloat);
  }

  lemma {:induction false} GroupFailFrom(rows: seq<Row>, i: nat)
    requires i <= |rows| && Group(rows[..i]).Err?
    ensures Group(rows) == Group(rows[..i])
    decreases |rows| - i
  {
    if i < |rows| {
      assert rows[..i + 1][..i] == rows[..i];
      GroupFailFrom(rows, i + 1);
    } else {
      assert rows[..i] == rows;
    }
  }

  lemma {:induction false} FeaturesFailFrom(g: Groups, n: nat, key: Row -> Result<int>, feature: Row -> Result<Feature>)
    requires n <= |g.order|
    requires forall id :: id in g.order ==> id in g.rows && g.rows[id] != []
    requires Features(g, n, key, feature).Err?
    ensures Features(g, |g.order|, key, feature) == Features(g, n, key, feature)
    decreases |g.order| - n
  {
    if n < |g.order| {
      FeaturesErrStep(g, n, key, feature);
      FeaturesFailFrom(g, n + 1, key, feature);
    }
  }

  lemma FeaturesErrStep(g: Groups, n: nat, key: Row -> Result<int>, feature: Row -> Result<Feature>)
    requires n < |g.order|
    requires forall id :: id in g.order ==> id in g.rows && g.rows[id] != []
    requires Features(g, n, key, feature).Err?
    ensures Features(g, n + 1, key, feature) == Features(g, n, key, feature)
  {
  }
}
