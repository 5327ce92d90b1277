/** layers/census.py: the per-output-area car-availability summary, the join of the two
    census tables by output-area code, and the join of that table onto the output-area
    boundaries. */
module Census {
  import opened Outcomes
  import opened Json
  import opened GeoJson
  import opened CsvRows
  import opened Arith

  const CODE := "geography code"
  const NO_CAR := "Number of cars or vans: No cars or vans in household"
  const ONE_CAR := "Number of cars or vans: 1 car or van in household"
  const TWO_CARS := "Number of cars or vans: 2 cars or vans in household"
  const MORE_CARS := "Number of cars or vans: 3 or more cars or vans in household"
  const DENSITY := "Population Density: Persons per square kilometre; measures: Value"
  const PERCENT := "percent_households_with_car"
  const AVERAGE := "average_cars_per_household"
  const POPULATION_DENSITY := "population_density"
  const OA_CODE := "OA21CD"

  /** The four household counts of one output area. */
  datatype Households = Households(none: int, one: int, two: int, more: int)

  /** The four cells, read in source order; a missing one raises KeyError, a
      non-integer one ValueError. */
  function ReadHouseholds(row: Row): (r: Result<Households>)
    ensures r.Ok? <==>
      IntCell(row, NO_CAR).Ok? && IntCell(row, ONE_CAR).Ok? && IntCell(row, TWO_CARS).Ok? && IntCell(row, MORE_CARS).Ok?
    ensures r.Ok? ==> r.value == Households(IntCell(row, NO_CAR).value, IntCell(row, ONE_CAR).value,
                                            IntCell(row, TWO_CARS).value, IntCell(row, MORE_CARS).value)
  {
    var none :- IntCell(row, NO_CAR);
    var one :- IntCell(row, ONE_CAR);
    var two :- IntCell(row, TWO_CARS);
    var more :- IntCell(row, MORE_CARS);
    Ok(Households(none, one, two, more))
  }

  /** Every household, whatever its number of cars. */
  function TotalHouseholds(h: Households): int {
    h.none + h.one + h.two + h.more
  }

  /** Cars counted with "3 or more" taken as 3. */
  function TotalCars(h: Households): int {
    h.one + 2 * h.two + 3 * h.more
  }

  /** The summary of the counts: a zero total raises ZeroDivisionError. */
  function Summarize(h: Households): Result<Props> {
    var total := TotalHouseholds(h);
    if total == 0 then Err(ZeroDivisionError)
    else
      Ok(map[
        PERCENT := Int(100 - RoundHalfEven(h.none as real / total as real * 100.0)),
        AVERAGE := Float(RoundHalfEven(TotalCars(h) as real / total as real * 10.0) as real / 10.0)])
  }

  /** `summarizeCarAvailability`. */
  function SummarizeCarAvailability(row: Row): Result<Props> {
    var h :- ReadHouseholds(row);
    Summarize(h)
  }

  /** The summary fails exactly when a count is missing or malformed or the total is
      zero, and then has exactly its two keys. */
  lemma SummarizeFails(row: Row)
    ensures SummarizeCarAvailability(row).Ok? <==>
      ReadHouseholds(row).Ok? && TotalHouseholds(ReadHouseholds(row).value) != 0
    ensures ReadHouseholds(row).Ok? && TotalHouseholds(ReadHouseholds(row).value) == 0 ==>
      SummarizeCarAvailability(row) == Err(ZeroDivisionError)
    ensures SummarizeCarAvailability(row).Ok? ==> SummarizeCarAvailability(row).value.Keys == {PERCENT, AVERAGE}
  {
  }

  /** The percentage is the share of households with at least one car, rounded to the
      nearest whole number; the average is cars per household, rounded to one decimal. */
  lemma SummaryApproximates(h: Households)
    requires TotalHouseholds(h) != 0
    ensures var p := Summarize(h).value;
      && PERCENT in p && p[PERCENT].Int?
      && -0.5 <= p[PERCENT].i as real - 100.0 * (TotalHouseholds(h) - h.none) as real / TotalHouseholds(h) as real <= 0.5
      && AVERAGE in p && p[AVERAGE].Float?
      && -0.05 <= p[AVERAGE].x - TotalCars(h) as real / TotalHouseholds(h) as real <= 0.05
  {
    var total := TotalHouseholds(h) as real;
    var share := h.none as real / total * 100.0;
    var withCar := 100.0 * (TotalHouseholds(h) - h.none) as real / total;
    assert share * total == 100.0 * h.none as real;
    assert withCar * total == 100.0 * (TotalHouseholds(h) - h.none) as real;
    var gap := withCar + share - 100.0;
    assert gap * total == 0.0;
    assert gap == gap * total / total;
    var average := TotalCars(h) as real / total;
    var n := RoundHalfEven(average * 10.0);
    assert -0.5 <= n as real - average * 10.0 <= 0.5;
    assert n as real / 10.0 - average == (n as real - average * 10.0) / 10.0;
  }

  /** With non-negative counts and some household, the percentage lies in 0..100 and
      the average in 0..3. */
  lemma SummaryBounds(h: Households)
    requires h.none >= 0 && h.one >= 0 && h.two >= 0 && h.more >= 0
    requires TotalHouseholds(h) > 0
    ensures var p := Summarize(h).value;
      && PERCENT in p && p[PERCENT].Int? && 0 <= p[PERCENT].i <= 100
      && AVERAGE in p && p[AVERAGE].Float? && 0.0 <= p[AVERAGE].x <= 3.0
  {
    var total := TotalHouseholds(h) as real;
    RatioWithin(h.none as real, total, 1.0);
    var share := h.none as real / total * 100.0;
    RoundHalfEvenWithin(share, 0, 100);
    RatioWithin(TotalCars(h) as real, total, 3.0);
    var average := TotalCars(h) as real / total;
    RoundHalfEvenWithin(average * 10.0, 0, 30);
  }

  /** Output-area code to the properties gathered for it. */
  type Table = map<string, Props>

  /** The table built from the car-availability rows: output-area code to the row's
      summary (`summarize`, which is `SummarizeCarAvailability`). The summary is
      computed before the code is read (Python evaluates the right-hand side of an
      assignment first); a later row of the same code overwrites an earlier one. */
  function CarTable(rows: seq<Row>, summarize: Row -> Result<Props>): Result<Table> {
    if rows == [] then Ok(map[])
    else
      var before :- CarTable(rows[..|rows| - 1], summarize);
      var row := rows[|rows| - 1];
      var summary :- summarize(row);
      var code :- Lookup(row, CODE);
      Ok(before[code := summary])
  }

  /** No row after `i` has the code of row `i`. */
  predicate LastOfCode(rows: seq<Row>, i: int)
    requires 0 <= i < |rows| && CODE in rows[i]
  {
    forall j :: i < j < |rows| ==> !(CODE in rows[j] && rows[j][CODE] == rows[i][CODE])
  }

  lemma {:induction false} CarTableFails(rows: seq<Row>, summarize: Row -> Result<Props>)
    ensures CarTable(rows, summarize).Ok? <==>
      forall i :: 0 <= i < |rows| ==> summarize(rows[i]).Ok? && CODE in rows[i]
  {
    if rows != [] {
      var init := rows[..|rows| - 1];
      CarTableFails(init, summarize);
      assert forall i :: 0 <= i < |init| ==> init[i] == rows[i];
    }
  }

  /** Some row carries the code. */
  ghost predicate Names(rows: seq<Row>, code: string) {
    exists i :: 0 <= i < |rows| && CODE in rows[i] && rows[i][CODE] == code
  }

  /** The table has one entry per code among the rows. */
  lemma {:induction false} CarTableKeys(rows: seq<Row>, summarize: Row -> Result<Props>)
    requires CarTable(rows, summarize).Ok?
    ensures forall i :: 0 <= i < |rows| ==> CODE in rows[i] && summarize(rows[i]).Ok?
    ensures forall k :: k in CarTable(rows, summarize).value <==> Names(rows, k)
  {
    CarTableFails(rows, summarize);
    if rows != [] {
      var init := rows[..|rows| - 1];
      CarTableKeys(init, summarize);
      assert forall i :: 0 <= i < |init| ==> init[i] == rows[i];
      var t := CarTable(rows, summarize).value;
      forall k | k in t ensures Names(rows, k) {
        if k != rows[|rows| - 1][CODE] {
          var i :| 0 <= i < |init| && CODE in init[i] && init[i][CODE] == k;
          assert rows[i][CODE] == k;
        }
      }
      forall k | Names(rows, k) ensures k in t {
        var i :| 0 <= i < |rows| && CODE in rows[i] && rows[i][CODE] == k;
        if i < |init| {
          assert Names(init, k);
        }
      }
    }
  }

  /** The entry of a code holds the summary of the last row of that code. */
  lemma {:induction false} CarTableLast(rows: seq<Row>, summarize: Row -> Result<Props>, i: int)
    requires CarTable(rows, summarize).Ok?
    requires 0 <= i < |rows| && CODE in rows[i] && LastOfCode(rows, i)
    ensures summarize(rows[i]).Ok? && rows[i][CODE] in CarTable(rows, summarize).value
    ensures CarTable(rows, summarize).value[rows[i][CODE]] == summarize(rows[i]).value
  {
    CarTableFails(rows, summarize);
    var init := rows[..|rows| - 1];
    if i < |init| {
      assert init[i] == rows[i];
      assert LastOfCode(init, i) by {
        assert forall j :: i < j < |init| ==> init[j] == rows[j];
      }
      CarTableLast(init, summarize, i);
    }
  }

  /** One population-density row: its code and density are read, the density parsed
      and rounded, and then the code looked up in the table (a code the car rows did
      not have raises KeyError). */
  function DensityStep(t: Table, row: Row, parseFloat: string -> Option<real>): Result<Table> {
    var key :- Lookup(row, CODE);
    var density :- FloatCell(row, DENSITY, parseFloat);
    var props :- Lookup(t, key);
    Ok(t[key := props[POPULATION_DENSITY := Int(RoundHalfEven(density))]])
  }

  function AddDensities(t: Table, rows: seq<Row>, parseFloat: string -> Option<real>): Result<Table> {
    if rows == [] then Ok(t)
    else
      var before :- AddDensities(t, rows[..|rows| - 1], parseFloat);
      DensityStep(before, rows[|rows| - 1], parseFloat)
  }

  /** Density rows only update entries, so the codes of the table stay the same. */
  lemma {:induction false} AddDensitiesKeys(t: Table, rows: seq<Row>, parseFloat: string -> Option<real>)
    requires AddDensities(t, rows, parseFloat).Ok?
    ensures AddDensities(t, rows, parseFloat).value.Keys == t.Keys
  {
    if rows != [] {
      AddDensitiesKeys(t, rows[..|rows| - 1], parseFloat);
    }
  }

  /** Adding densities fails exactly when some row lacks a code or a parsable density,
      or carries a code the table does not have. */
  lemma {:induction false} AddDensitiesFails(t: Table, rows: seq<Row>, parseFloat: string -> Option<real>)
    ensures AddDensities(t, rows, parseFloat).Ok? <==>
      forall i :: 0 <= i < |rows| ==>
        CODE in rows[i] && FloatCell(rows[i], DENSITY, parseFloat).Ok? && rows[i][CODE] in t
  {
    if rows != [] {
      var init := rows[..|rows| - 1];
      AddDensitiesFails(t, init, parseFloat);
      assert forall i :: 0 <= i < |init| ==> init[i] == rows[i];
      if AddDensities(t, init, parseFloat).Ok? {
        AddDensitiesKeys(t, init, parseFloat);
      }
    }
  }

  /** Entries no density row names are left as they were. */
  lemma {:induction false} AddDensitiesUntouched(t: Table, rows: seq<Row>, parseFloat: string -> Option<real>, k: string)
    requires AddDensities(t, rows, parseFloat).Ok?
    requires k in t && forall i :: 0 <= i < |rows| ==> !(CODE in rows[i] && rows[i][CODE] == k)
    ensures k in AddDensities(t, rows, parseFloat).value && AddDensities(t, rows, parseFloat).value[k] == t[k]
  {
    AddDensitiesKeys(t, rows, parseFloat);
    if rows != [] {
      var init := rows[..|rows| - 1];
      assert forall i :: 0 <= i < |init| ==> init[i] == rows[i];
      AddDensitiesUntouched(t, init, parseFloat, k);
    }
  }

  /** The entry of a code gets the rounded density of the last row of that code. */
  lemma {:induction false} AddDensitiesLast(t: Table, rows: seq<Row>, parseFloat: string -> Option<real>, i: int)
    requires AddDensities(t, rows, parseFloat).Ok?
    requires 0 <= i < |rows| && CODE in rows[i] && LastOfCode(rows, i)
    ensures FloatCell(rows[i], DENSITY, parseFloat).Ok? && rows[i][CODE] in t
    ensures rows[i][CODE] in AddDensities(t, rows, parseFloat).value
    ensures AddDensities(t, rows, parseFloat).value[rows[i][CODE]] ==
      t[rows[i][CODE]][POPULATION_DENSITY := Int(RoundHalfEven(FloatCell(rows[i], DENSITY, parseFloat).value))]
  {
    AddDensitiesFails(t, rows, parseFloat);
    var init := rows[..|rows| - 1];
    assert forall j :: 0 <= j < |init| ==> init[j] == rows[j];
    var k := rows[i][CODE];
    if i == |rows| - 1 {
      AddDensitiesEntry(t, init, parseFloat, k);
    } else {
      assert LastOfCode(init, i);
      AddDensitiesLast(t, init, parseFloat, i);
    }
  }

  /** An entry either stays as it was or differs from it only by its density. */
  lemma {:induction false} AddDensitiesEntry(t: Table, rows: seq<Row>, parseFloat: string -> Option<real>, k: string)
    requires AddDensities(t, rows, parseFloat).Ok? && k in t
    ensures k in AddDensities(t, rows, parseFloat).value
    ensures var e := AddDensities(t, rows, parseFloat).value[k];
      e == t[k] || (POPULATION_DENSITY in e && e == t[k][POPULATION_DENSITY := e[POPULATION_DENSITY]])
  {
    AddDensitiesKeys(t, rows, parseFloat);
    if rows != [] {
      AddDensitiesEntry(t, rows[..|rows| - 1], parseFloat, k);
    }
  }

  /** Both census tables joined: the car summaries, with densities added. */
  function Tables(carRows: seq<Row>, densityRows: seq<Row>, parseFloat: string -> Option<real>): Result<Table> {
    var t :- CarTable(carRows, SummarizeCarAvailability);
    AddDensities(t, densityRows, parseFloat)
  }

  /** One boundary feature: its `OA21CD` is looked up in the table, the entry with the
      code added becomes its properties, and its coordinates are trimmed. A code that
      is not a string cannot be in the table and raises KeyError. */
  function JoinFeature(f: Feature, t: Table, round: real -> real): Result<Feature> {
    var code :- Lookup(f.properties, OA_CODE);
    if !code.Str? then Err(KeyError(OA_CODE))
    else
      var props :- Lookup(t, code.s);
      var coordinates :- TrimPrecision(f.geometry.coordinates, round);
      Ok(f.(properties := props[OA_CODE := code], geometry := f.geometry.(coordinates := coordinates)))
  }

  function JoinAll(fs: seq<Feature>, t: Table, round: real -> real): Result<seq<Feature>> {
    AllOk(seq(|fs|, i requires 0 <= i < |fs| => JoinFeature(fs[i], t, round)))
  }

  /** The join fails exactly when some feature's code is missing or unknown or its
      geometry is not a float tree; otherwise each feature, in order, carries the
      table's entry for its code plus the code itself, and keeps its id and members. */
  lemma JoinAllMeaning(fs: seq<Feature>, t: Table, round: real -> real)
    ensures JoinAll(fs, t, round).Ok? <==>
      forall i :: 0 <= i < |fs| ==>
        && OA_CODE in fs[i].properties && fs[i].properties[OA_CODE].Str?
        && fs[i].properties[OA_CODE].s in t
        && FloatTree(fs[i].geometry.coordinates)
    ensures JoinAll(fs, t, round).Ok? ==>
      var out := JoinAll(fs, t, round).value;
      && |out| == |fs|
      && forall i :: 0 <= i < |fs| ==>
        && OA_CODE in fs[i].properties && fs[i].properties[OA_CODE].Str?
        && var code := fs[i].properties[OA_CODE].s;
        && code in t
        && out[i].properties == t[code][OA_CODE := Str(code)]
        && out[i].geometry.coordinates == TrimPrecision(fs[i].geometry.coordinates, round).value
        && out[i].geometry.members == fs[i].geometry.members
        && out[i].id == fs[i].id && out[i].members == fs[i].members
  {
    var rs := seq(|fs|, i requires 0 <= i < |fs| => JoinFeature(fs[i], t, round));
    forall i | 0 <= i < |fs|
      ensures rs[i].Ok? <==>
        && OA_CODE in fs[i].properties && fs[i].properties[OA_CODE].Str?
        && fs[i].properties[OA_CODE].s in t
        && FloatTree(fs[i].geometry.coordinates)
    {
      TrimPrecisionShape(fs[i].geometry.coordinates, round);
    }
  }

  /** Every entry of the car table has exactly the two summary keys. */
  lemma CarTableEntryKeys(rows: seq<Row>, code: string)
    requires CarTable(rows, SummarizeCarAvailability).Ok?
    requires code in CarTable(rows, SummarizeCarAvailability).value
    ensures CarTable(rows, SummarizeCarAvailability).value[code].Keys == {PERCENT, AVERAGE}
  {
    CarTableKeys(rows, SummarizeCarAvailability);
    var i :| 0 <= i < |rows| && CODE in rows[i] && rows[i][CODE] == code;
    var last := LastRow(rows, i);
    CarTableLast(rows, SummarizeCarAvailability, last);
    SummarizeFails(rows[last]);
  }

  /** With the tables joined, every property set written carries the two summary keys
      and the code, and the density exactly when a density row named that code. */
  lemma JoinedKeys(carRows: seq<Row>, densityRows: seq<Row>, parseFloat: string -> Option<real>, code: string)
    requires Tables(carRows, densityRows, parseFloat).Ok?
    requires code in Tables(carRows, densityRows, parseFloat).value
    ensures Tables(carRows, densityRows, parseFloat).value[code][OA_CODE := Str(code)].Keys ==
      {PERCENT, AVERAGE, OA_CODE} + (if Names(densityRows, code) then {POPULATION_DENSITY} else {})
  {
    var cars := CarTable(carRows, SummarizeCarAvailability).value;
    var t := Tables(carRows, densityRows, parseFloat).value;
    assert t == AddDensities(cars, densityRows, parseFloat).value;
    AddDensitiesKeys(cars, densityRows, parseFloat);
    AddDensitiesFails(cars, densityRows, parseFloat);
    assert code in cars;
    CarTableEntryKeys(carRows, code);
    if Names(densityRows, code) {
      var j :| 0 <= j < |densityRows| && CODE in densityRows[j] && densityRows[j][CODE] == code;
      var last := LastRow(densityRows, j);
      AddDensitiesLast(cars, densityRows, parseFloat, last);
    } else {
      AddDensitiesUntouched(cars, densityRows, parseFloat, code);
    }
  }

  /** The last row with the code of row `i`. */
  lemma {:induction false} LastRow(rows: seq<Row>, i: int) returns (last: int)
    requires 0 <= i < |rows| && forall j :: 0 <= j < |rows| ==> CODE in rows[j]
    ensures i <= last < |rows| && rows[last][CODE] == rows[i][CODE] && LastOfCode(rows, last)
    decreases |rows| - i
  {
    if LastOfCode(rows, i) {
      last := i;
    } else {
      var j :| i < j < |rows| && rows[j][CODE] == rows[i][CODE];
      last := LastRow(rows, j);
    }
  }

  /** The car-availability loop of `makeCensusOutputAreas`. */
  method ReadCarRows(rows: seq<Row>, summarize: Row -> Result<Props>) returns (r: Result<Table>)
    ensures r == CarTable(rows, summarize)
  {
    var t: Table := map[];
    for i := 0 to |rows|
      invariant CarTable(rows[..i], summarize) == Ok(t)
    {
      assert rows[..i + 1][..i] == rows[..i];
      var summary := summarize(rows[i]);
      if summary.Err? {
        CarTableFailFrom(rows, summarize, i + 1);
        return Err(summary.error);
      }
      if CODE !in rows[i] {
        CarTableFailFrom(rows, summarize, i + 1);
        return Err(KeyError(CODE));
      }
      t := t[rows[i][CODE] := summary.value];
    }
    assert rows[..|rows|] == rows;
    r := Ok(t);
  }

  lemma {:induction false} CarTableFailFrom(rows: seq<Row>, summarize: Row -> Result<Props>, i: nat)
    requires i <= |rows| && CarTable(rows[..i], summarize).Err?
    ensures CarTable(rows, summarize) == CarTable(rows[..i], summarize)
    decreases |rows| - i
  {
    if i < |rows| {
      assert rows[..i + 1][..i] == rows[..i];
      CarTableFailFrom(rows, summarize, i + 1);
    } else {
      assert rows[..i] == rows;
    }
  }

  /** The population-density loop of `makeCensusOutputAreas`. */
  method ReadDensityRows(t: Table, rows: seq<Row>, parseFloat: string -> Option<real>) returns (r: Result<Table>)
    ensures r == AddDensities(t, rows, parseFloat)
  {
    var table := t;
    for i := 0 to |rows|
      invariant AddDensities(t, rows[..i], parseFloat) == Ok(table)
    {
      assert rows[..i + 1][..i] == rows[..i];
      var row := rows[i];
      if CODE !in row {
        AddDensitiesFailFrom(t, rows, parseFloat, i + 1);
        return Err(KeyError(CODE));
      }
      var key := row[CODE];
      var density := FloatCell(row, DENSITY, parseFloat);
      if density.Err? {
        AddDensitiesFailFrom(t, rows, parseFloat, i + 1);
        return Err(density.error);
      }
      if key !in table {
        AddDensitiesFailFrom(t, rows, parseFloat, i + 1);
        return Err(KeyError(key));
      }
      table := table[key := table[key][POPULATION_DENSITY := Int(RoundHalfEven(density.value))]];
    }
    assert rows[..|rows|] == rows;
    r := Ok(table);
  }

  lemma {:induction false} AddDensitiesFailFrom(t: Table, rows: seq<Row>, parseFloat: string -> Option<real>, i: nat)
    requires i <= |rows| && AddDensities(t, rows[..i], parseFloat).Err?
    ensures AddDensities(t, rows, parseFloat) == AddDensities(t, rows[..i], parseFloat)
    decreases |rows| - i
  {
    if i < |rows| {
      assert rows[..i + 1][..i] == rows[..i];
      AddDensitiesFailFrom(t, rows, parseFloat, i + 1);
    } else {
      assert rows[..i] == rows;
    }
  }

  /** The boundary part of `makeCensusOutputAreas`: top-level `name` and `crs` are
      deleted (raising KeyError when absent), then every feature is joined in place.
      The file is written only on success. */
  method JoinBoundaries(gj: FeatureCollection, t: Table, round: real -> real) returns (r: Result<()>)
    modifies gj
    ensures "name" !in old(gj.members) ==> r == Err(KeyError("name"))
    ensures "name" in old(gj.members) && "crs" !in old(gj.members) ==> r == Err(KeyError("crs"))
    ensures r.Ok? <==> "name" in old(gj.members) && "crs" in old(gj.members) && JoinAll(old(gj.features), t, round).Ok?
    ensures "name" in old(gj.members) && "crs" in old(gj.members) && r.Err? ==>
      r == Err(JoinAll(old(gj.features), t, round).error)
    ensures r.Ok? ==>
      && gj.members == old(gj.members) - {"name", "crs"}
      && gj.features == JoinAll(old(gj.features), t, round).value
  {
    var deleted := gj.DeleteMember("name");
    if deleted.Err? {
      return deleted;
    }
    deleted := gj.DeleteMember("crs");
    if deleted.Err? {
      return deleted;
    }
    ghost var fs := gj.features;
    ghost var rs := seq(|fs|, i requires 0 <= i < |fs| => JoinFeature(fs[i], t, round));
    var i := 0;
    while i < |gj.features|
      invariant 0 <= i <= |gj.features| == |fs| == |rs|
      invariant gj.members == old(gj.members) - {"name", "crs"}
      invariant forall j :: 0 <= j < i ==> rs[j] == Ok(gj.features[j])
      invariant gj.features[i..] == fs[i..]
    {
      var f := gj.features[i];
      assert f == fs[i];
      if OA_CODE !in f.properties {
        assert rs[i] == Err(KeyError(OA_CODE));
        return Err(KeyError(OA_CODE));
      }
      var code := f.properties[OA_CODE];
      if !code.Str? || code.s !in t {
        assert rs[i].Err?;
        return Err(KeyError(if code.Str? then code.s else OA_CODE));
      }
      var props := t[code.s][OA_CODE := code];
      gj.features := gj.features[i := f.(properties := props)];
      var coordinates := TrimPrecision(f.geometry.coordinates, round);
      if coordinates.Err? {
        assert rs[i] == Err(coordinates.error);
        return Err(coordinates.error);
      }
      gj.features := gj.features[i := gj.features[i].(geometry := f.geometry.(coordinates := coordinates.value))];
      assert rs[i] == Ok(gj.features[i]);
      i := i + 1;
    }
    r := Ok(());
  }

  /** `makeCensusOutputAreas` without the downloads, the reprojection and the file
      writes: the two tables are built, then joined onto the boundaries. */
  method MakeCensusOutputAreas(carRows: seq<Row>, densityRows: seq<Row>, gj: FeatureCollection,
                               parseFloat: string -> Option<real>, round: real -> real) returns (r: Result<()>)
    modifies gj
    ensures Tables(carRows, densityRows, parseFloat).Err? ==>
      && r == Err(Tables(carRows, densityRows, parseFloat).error)
      && gj.features == old(gj.features) && gj.members == old(gj.members)
    ensures Tables(carRows, densityRows, parseFloat).Ok? ==>
      var t := Tables(carRows, densityRows, parseFloat).value;
      (r.Ok? <==> "name" in old(gj.members) && "crs" in old(gj.members) && JoinAll(old(gj.features), t, round).Ok?)
      && (r.Ok? ==> gj.features == JoinAll(old(gj.features), t, round).value
                    && gj.members == old(gj.members) - {"name", "crs"})
  {
    var cars := ReadCarRows(carRows, SummarizeCarAvailability);
    if cars.Err? {
      return Err(cars.error);
    }
    var t := ReadDensityRows(cars.value, densityRows, parseFloat);
    if t.Err? {
      return Err(t.error);
    }
    r := JoinBoundaries(gj, t.value, round);
  }
}
