/** dalog/convert.ts: the rows of the "Issues" sheet become Point features. The second
    row is the header (less its first, empty, column); every later row is a record of
    its cells under those keys. Rows without an issue id or without coordinates are
    skipped; the "lat, lon" cell becomes `[lon, lat]` coordinates. */
module Dalog {
  import opened Outcomes
  import Json
  import Text
  import opened GeoJson

  /** A cell as read from the sheet: empty, text, a number or a boolean. */
  datatype Cell = Blank | Str(s: string) | Number(x: real) | Flag(b: bool)

  type Row = seq<Cell>

  /** The JavaScript conversions the script leans on, which the model does not spell
      out: `String(x)` of a number, `Number(s)` of a string that is not all white
      space, and `parseFloat`. `None` stands for `NaN`. */
  datatype Js = Js(numberName: real -> string, numeral: string -> Option<real>, parseFloat: string -> Option<real>)

  const ISSUE_ID := "Issue ID"
  const LAT_LON := "Latitude & Longitude"
  const GOOGLE_MAPS := "Google Maps"
  const CUMULATIVE_TYPE := "Cumul. Type"
  const PROPOSED_ID := "Proposed ID"
  const SEPARATOR := ", "

  /** The keys deleted before a record is written. */
  const DROPPED: set<string> := {LAT_LON, GOOGLE_MAPS, CUMULATIVE_TYPE, PROPOSED_ID}

  /** The property name a header cell gives. */
  function PropertyKey(c: Cell, js: Js): string {
    match c
    case Blank => "null"
    case Str(s) => s
    case Number(x) => js.numberName(x)
    case Flag(b) => if b then "true" else "false"
  }

  /** A record: `None` is `undefined`, the value of a key past the end of its row. */
  type Record = map<string, Option<Cell>>

  /** `row[j]`. */
  function CellAt(row: Row, j: nat): Option<Cell> {
    if j < |row| then Some(row[j]) else None
  }

  /** `Object.fromEntries(keys.map((key, i) => [key, row[i + 1]]))` over the first `n`
      keys: entries are set in order, so a repeated key keeps its last cell. */
  function Entries(keys: seq<Cell>, row: Row, js: Js, n: nat): Record
    requires n <= |keys|
  {
    if n == 0 then map[] else Entries(keys, row, js, n - 1)[PropertyKey(keys[n - 1], js) := CellAt(row, n)]
  }

  /** The record has a key exactly for every header cell, and under a key the cell
      below its last header cell. */
  lemma {:induction false} EntriesMeaning(keys: seq<Cell>, row: Row, js: Js, n: nat, i: nat)
    requires i < n <= |keys|
    ensures PropertyKey(keys[i], js) in Entries(keys, row, js, n)
    ensures (forall j :: i < j < n ==> PropertyKey(keys[j], js) != PropertyKey(keys[i], js)) ==>
      Entries(keys, row, js, n)[PropertyKey(keys[i], js)] == CellAt(row, i + 1)
  {
    if i < n - 1 {
      EntriesMeaning(keys, row, js, n - 1, i);
    }
  }

  lemma {:induction false} EntriesKeys(keys: seq<Cell>, row: Row, js: Js, n: nat, key: string)
    requires n <= |keys| && key in Entries(keys, row, js, n)
    ensures exists i :: 0 <= i < n && PropertyKey(keys[i], js) == key
  {
    if PropertyKey(keys[n - 1], js) != key {
      EntriesKeys(keys, row, js, n - 1, key);
    }
  }

  /** `v == null`: true of `null` and of `undefined`. */
  predicate Nullish(v: Option<Cell>) {
    v.None? || v.value.Blank?
  }

  /** The white space JavaScript's string-to-number conversion skips: tab, line feed,
      vertical tab, form feed, carriage return, space, no-break space, the Ogham space
      mark, the spaces U+2000 to U+200A, the line and paragraph separators, the narrow
      no-break space, the medium mathematical space, the ideographic space and the
      byte order mark. */
  predicate JsSpace(c: char) {
    || ('\t' <= c <= '\r') || c == ' '
    || c == '\U{00A0}' || c == '\U{1680}'
    || ('\U{2000}' <= c <= '\U{200A}')
    || c == '\U{2028}' || c == '\U{2029}' || c == '\U{202F}' || c == '\U{205F}' || c == '\U{3000}'
    || c == '\U{FEFF}'
  }

  predicate AllSpace(s: string) {
    forall i :: 0 <= i < |s| ==> JsSpace(s[i])
  }

  /** `c == 0` under JavaScript's loose equality: a string is compared as the number
      it reads as, and a blank string reads as 0; `false` is 0; `null` is not 0. */
  predicate LooselyZero(c: Cell, js: Js) {
    match c
    case Blank => false
    case Str(s) => AllSpace(s) || js.numeral(s) == Some(0.0)
    case Number(x) => x == 0.0
    case Flag(b) => !b
  }

  /** The defined entries of a record: `JSON.stringify` leaves out `undefined`. */
  function Defined(obj: Record): (p: map<string, Cell>)
    ensures forall k :: k in p <==> k in obj && obj[k].Some?
  {
    map k | k in obj && obj[k].Some? :: obj[k].value
  }

  /** `ll.split(", ").map(parseFloat).reverse()`. */
  function Coordinates(ll: string, js: Js): seq<Option<real>> {
    var parts := Text.Split(ll, SEPARATOR);
    seq(|parts|, i requires 0 <= i < |parts| => js.parseFloat(parts[|parts| - 1 - i]))
  }

  /** What becomes of one data row. */
  datatype Outcome = Skip | Emit(properties: map<string, Cell>, coordinates: seq<Option<real>>)

  /** One turn of the loop: skipped without an issue id, skipped without coordinates
      (`ll == 0 || ll == null || ll == undefined`, checked here null-first, which gives
      the same answer since `null == 0` is false); a coordinate cell that is not text
      has no `split` and throws. */
  function RowOutcome(keys: seq<Cell>, row: Row, js: Js): Result<Outcome> {
    var obj := Entries(keys, row, js, |keys|);
    var id := if ISSUE_ID in obj then obj[ISSUE_ID] else None;
    var ll := if LAT_LON in obj then obj[LAT_LON] else None;
    if Nullish(id) then Ok(Skip)
    else if Nullish(ll) || LooselyZero(ll.value, js) then Ok(Skip)
    else if !ll.value.Str? then Err(TypeError)
    else Ok(Emit(Defined(obj - DROPPED), Coordinates(ll.value.s, js)))
  }

  /** A row is written exactly when it has an issue id and non-zero text coordinates;
      the written properties are the row's defined entries but the four dropped keys,
      and they always hold the issue id. */
  lemma RowOutcomeMeaning(keys: seq<Cell>, row: Row, js: Js)
    ensures var obj := Entries(keys, row, js, |keys|);
      RowOutcome(keys, row, js) == Ok(Skip) <==>
        || ISSUE_ID !in obj || Nullish(obj[ISSUE_ID])
        || LAT_LON !in obj || Nullish(obj[LAT_LON]) || LooselyZero(obj[LAT_LON].value, js)
    ensures RowOutcome(keys, row, js).Ok? && RowOutcome(keys, row, js).value.Emit? ==>
      var obj := Entries(keys, row, js, |keys|);
      var p := RowOutcome(keys, row, js).value.properties;
      && ISSUE_ID in p && p[ISSUE_ID] != Blank && Some(p[ISSUE_ID]) == obj[ISSUE_ID]
      && (forall k :: k in DROPPED ==> k !in p)
      && (forall k :: k in obj && k !in DROPPED && obj[k].Some? ==> k in p && p[k] == obj[k].value)
      && (forall k :: k in p ==> k in obj && obj[k] == Some(p[k]))
  {
  }

  /** A blank coordinate cell, the empty string included, reads as zero: its row is
      skipped whatever the JavaScript conversions give. */
  lemma BlankCoordinatesSkipped(keys: seq<Cell>, row: Row, js: Js, s: string)
    requires LAT_LON in Entries(keys, row, js, |keys|)
    requires Entries(keys, row, js, |keys|)[LAT_LON] == Some(Str(s)) && AllSpace(s)
    ensures RowOutcome(keys, row, js) == Ok(Skip)
  {
  }

  /** A "lat, lon" cell, neither half holding the separator, gives the coordinates
      `[lon, lat]`, longitude first as section 3.1.1 of RFC 7946 orders them. */
  lemma LatLonOrder(lat: string, lon: string, js: Js)
    requires !Text.Contains(lat, SEPARATOR) && !Text.Contains(lon, SEPARATOR)
    ensures Coordinates(lat + SEPARATOR + lon, js) == [js.parseFloat(lon), js.parseFloat(lat)]
  {
    SplitPair(lat, lon);
  }

  /** No separator starts inside the latitude half, the character before the comma
      included. */
  lemma NoSeparatorInLat(lat: string, lon: string, j: nat)
    requires !Text.Contains(lat, SEPARATOR) && j < |lat|
    ensures !Text.OccursAt(lat + SEPARATOR + lon, SEPARATOR, j)
  {
    var s := lat + SEPARATOR + lon;
    Text.ContainsIff(lat, SEPARATOR);
    if j + 2 <= |lat| {
      assert s[j..j + 2] == lat[j..j + 2];
      assert !Text.OccursAt(lat, SEPARATOR, j);
    } else {
      assert s[j + 1] == ',';
    }
  }

  lemma SplitPair(lat: string, lon: string)
    requires !Text.Contains(lat, SEPARATOR) && !Text.Contains(lon, SEPARATOR)
    ensures Text.Split(lat + SEPARATOR + lon, SEPARATOR) == [lat, lon]
  {
    var s := lat + SEPARATOR + lon;
    var n := |lat|;
    forall j | 0 <= j < n ensures !Text.OccursAt(s, SEPARATOR, j) {
      NoSeparatorInLat(lat, lon, j);
    }
    assert Text.OccursAt(s, SEPARATOR, n) by {
      assert s[n..n + 2] == SEPARATOR;
    }
    var found := Text.IndexOf(s, SEPARATOR, 0);
    assert found == Some(n);
    assert s[..n] == lat;
    assert s[n + 2..] == lon;
    assert Text.IndexOf(lon, SEPARATOR, 0).None?;
  }

  /** The JSON a cell is written as. */
  function CellJson(c: Cell): Json.Json {
    match c
    case Blank => Json.Null
    case Str(s) => Json.Str(s)
    case Number(x) => Json.Float(x)
    case Flag(b) => Json.Bool(b)
  }

  /** A coordinate is written as its number, or as `null` for `NaN`. */
  function CoordinateJson(x: Option<real>): Json.Json {
    if x.Some? then Json.Float(x.value) else Json.Null
  }

  /** The feature pushed for a written row, with its id. */
  function MakeFeature(properties: map<string, Cell>, coordinates: seq<Option<real>>, id: int): Feature {
    Feature(
      map k | k in properties :: CellJson(properties[k]),
      Geometry(Json.List(seq(|coordinates|, i requires 0 <= i < |coordinates| => CoordinateJson(coordinates[i]))),
               map["type" := Json.Str("Point")]),
      Some(Json.Int(id)),
      map["type" := Json.Str("Feature")])
  }

  /** How a written row becomes a feature, given its id. */
  type Maker = (map<string, Cell>, seq<Option<real>>, int) -> Feature

  /** The outcome of every data row. */
  function RowOutcomes(keys: seq<Cell>, data: seq<Row>, js: Js): (os: seq<Result<Outcome>>)
    ensures |os| == |data|
    ensures forall i :: 0 <= i < |data| ==> os[i] == RowOutcome(keys, data[i], js)
  {
    seq(|data|, i requires 0 <= i < |data| => RowOutcome(keys, data[i], js))
  }

  /** The features pushed for the row outcomes, in order; each takes the next id from
      the number already pushed. The first throwing row stops the script. */
  function Pushed(outcomes: seq<Result<Outcome>>, make: Maker): Result<seq<Feature>> {
    if outcomes == [] then Ok([])
    else
      var before :- Pushed(outcomes[..|outcomes| - 1], make);
      var outcome :- outcomes[|outcomes| - 1];
      match outcome
      case Skip => Ok(before)
      case Emit(p, c) => Ok(before + [make(p, c, |before| + 1)])
  }

  /** `row.slice(1)`: empty for an empty row. */
  function Rest(row: Row): (r: Row)
    ensures |r| == if row == [] then 0 else |row| - 1
    ensures forall i :: 0 <= i < |r| ==> r[i] == row[i + 1]
  {
    if row == [] then [] else row[1..]
  }

  /** The whole sheet: without a second row `rows[1].slice` throws. */
  function Convert(rows: seq<Row>, js: Js): Result<seq<Feature>> {
    if |rows| < 2 then Err(TypeError) else Pushed(RowOutcomes(Rest(rows[1]), rows[2..], js), MakeFeature)
  }

  predicate Emits(outcome: Result<Outcome>) {
    outcome.Ok? && outcome.value.Emit?
  }

  /** The positions of the rows that are written. */
  ghost function EmittedRows(outcomes: seq<Result<Outcome>>): seq<int> {
    if outcomes == [] then []
    else EmittedRows(outcomes[..|outcomes| - 1]) + (if Emits(outcomes[|outcomes| - 1]) then [|outcomes| - 1] else [])
  }

  /** The feature a written row becomes, with its id. */
  function FeatureOf(outcome: Result<Outcome>, id: int, make: Maker): Feature
    requires Emits(outcome)
  {
    make(outcome.value.properties, outcome.value.coordinates, id)
  }

  /** The conversion gets through exactly when no row throws. */
  lemma {:induction false} PushedOk(outcomes: seq<Result<Outcome>>, make: Maker)
    ensures Pushed(outcomes, make).Ok? <==> forall i :: 0 <= i < |outcomes| ==> outcomes[i].Ok?
  {
    if outcomes != [] {
      var init := outcomes[..|outcomes| - 1];
      PushedOk(init, make);
      assert forall i :: 0 <= i < |init| ==> init[i] == outcomes[i];
    }
  }

  /** The written rows are listed in increasing order, exactly those that emit, and
      one feature is pushed for each. */
  lemma {:induction false} EmittedRowsMeaning(outcomes: seq<Result<Outcome>>, make: Maker)
    requires Pushed(outcomes, make).Ok?
    ensures var pos := EmittedRows(outcomes);
      && |Pushed(outcomes, make).value| == |pos|
      && Increasing(pos)
      && (forall j :: 0 <= j < |pos| ==> 0 <= pos[j] < |outcomes|)
      && (forall i :: 0 <= i < |outcomes| ==> (i in pos <==> Emits(outcomes[i])))
  {
    if outcomes != [] {
      var init := outcomes[..|outcomes| - 1];
      EmittedRowsMeaning(init, make);
      assert forall i :: 0 <= i < |init| ==> init[i] == outcomes[i];
      var pos := EmittedRows(outcomes);
      var posInit := EmittedRows(init);
      assert pos[..|posInit|] == posInit;
      forall j | 0 <= j < |posInit| ensures pos[j] == posInit[j] {
        assert pos[j] == pos[..|posInit|][j];
      }
    }
  }

  /** When it gets through, the `j`th feature is the `j`th written row, with id
      `j + 1`. */
  lemma {:induction false} PushedMeaning(outcomes: seq<Result<Outcome>>, make: Maker)
    requires Pushed(outcomes, make).Ok?
    ensures |Pushed(outcomes, make).value| == |EmittedRows(outcomes)|
    ensures forall j :: 0 <= j < |EmittedRows(outcomes)| ==>
      var i := EmittedRows(outcomes)[j];
      0 <= i < |outcomes| && Emits(outcomes[i]) && Pushed(outcomes, make).value[j] == FeatureOf(outcomes[i], j + 1, make)
  {
    if outcomes != [] {
      var n := |outcomes| - 1;
      var init := outcomes[..n];
      PushedMeaning(init, make);
      var before := Pushed(init, make).value;
      var out := Pushed(outcomes, make).value;
      var pos := EmittedRows(outcomes);
      var posInit := EmittedRows(init);
      PushedStep(outcomes, make);
      forall j | 0 <= j < |pos|
        ensures 0 <= pos[j] < |outcomes| && Emits(outcomes[pos[j]]) && out[j] == FeatureOf(outcomes[pos[j]], j + 1, make)
      {
        if j < |posInit| {
          assert pos[j] == posInit[j] && out[j] == before[j];
          assert outcomes[pos[j]] == init[posInit[j]];
        } else {
          assert pos[j] == n && out[j] == FeatureOf(outcomes[n], j + 1, make);
        }
      }
    }
  }

  /** One row more: the pushed features and written rows of all but the last row, and
      one more of each if the last row emits. */
  lemma PushedStep(outcomes: seq<Result<Outcome>>, make: Maker)
    requires outcomes != [] && Pushed(outcomes, make).Ok?
    ensures var n := |outcomes| - 1;
      && Pushed(outcomes[..n], make).Ok?
      && var before := Pushed(outcomes[..n], make).value;
      && (Emits(outcomes[n]) ==>
            && Pushed(outcomes, make).value == before + [FeatureOf(outcomes[n], |before| + 1, make)]
            && EmittedRows(outcomes) == EmittedRows(outcomes[..n]) + [n])
      && (!Emits(outcomes[n]) ==>
            && Pushed(outcomes, make).value == before
            && EmittedRows(outcomes) == EmittedRows(outcomes[..n]))
      && forall i :: 0 <= i < n ==> outcomes[..n][i] == outcomes[i]
  {
    var n := |outcomes| - 1;
    var init, last := outcomes[..n], outcomes[n];
    assert Pushed(init, make).Ok? && last.Ok?;
    var before := Pushed(init, make).value;
    if Emits(last) {
      assert Pushed(outcomes, make).value == before + [FeatureOf(last, |before| + 1, make)];
    } else {
      assert Pushed(outcomes, make).value == before;
    }
  }

  /** The ids written are 1, 2, 3, ... in order, one feature at most per row. */
  lemma PushedIds(outcomes: seq<Result<Outcome>>)
    requires Pushed(outcomes, MakeFeature).Ok?
    ensures |Pushed(outcomes, MakeFeature).value| <= |outcomes|
    ensures forall j :: 0 <= j < |Pushed(outcomes, MakeFeature).value| ==> Pushed(outcomes, MakeFeature).value[j].id == Some(Json.Int(j + 1))
  {
    PushedMeaning(outcomes, MakeFeature);
    EmittedRowsMeaning(outcomes, MakeFeature);
    var pos := EmittedRows(outcomes);
    PositionsBound(pos, |outcomes|);
    forall j | 0 <= j < |pos| ensures Pushed(outcomes, MakeFeature).value[j].id == Some(Json.Int(j + 1)) {
      assert Pushed(outcomes, MakeFeature).value[j] == FeatureOf(outcomes[pos[j]], j + 1, MakeFeature);
    }
  }

  /** The sheet converts exactly when it has a header row and no data row throws;
      the features then carry the ids 1, 2, 3, ... */
  lemma ConvertMeaning(rows: seq<Row>, js: Js)
    ensures Convert(rows, js).Ok? <==>
      |rows| >= 2 && forall i :: 2 <= i < |rows| ==> RowOutcome(Rest(rows[1]), rows[i], js).Ok?
    ensures Convert(rows, js).Ok? ==>
      forall j :: 0 <= j < |Convert(rows, js).value| ==> Convert(rows, js).value[j].id == Some(Json.Int(j + 1))
  {
    if |rows| >= 2 {
      var outcomes := RowOutcomes(Rest(rows[1]), rows[2..], js);
      PushedOk(outcomes, MakeFeature);
      assert forall i :: 2 <= i < |rows| ==> outcomes[i - 2] == RowOutcome(Rest(rows[1]), rows[i], js);
      if Convert(rows, js).Ok? {
        PushedIds(outcomes);
      }
    }
  }

  /** Increasing positions below `n` are at most `n` many. */
  lemma {:induction false} PositionsBound(pos: seq<int>, n: nat)
    requires Increasing(pos) && forall j :: 0 <= j < |pos| ==> 0 <= pos[j] < n
    ensures |pos| <= n
  {
    if pos != [] {
      var init := pos[..|pos| - 1];
      assert forall j :: 0 <= j < |init| ==> init[j] == pos[j] < pos[|pos| - 1];
      PositionsBound(init, pos[|pos| - 1]);
    }
  }

  /** One data row as the loop treats it: its record, then the skip tests, the
      deletions and the coordinates. */
  method ConvertRow(keys: seq<Cell>, row: Row, js: Js) returns (r: Result<Outcome>)
    ensures r == RowOutcome(keys, row, js)
  {
    var obj := Entries(keys, row, js, |keys|);
    if ISSUE_ID !in obj || Nullish(obj[ISSUE_ID]) {
      return Ok(Skip);
    }
    var ll := if LAT_LON in obj then obj[LAT_LON] else None;
    if ll.None? || ll.value.Blank? || LooselyZero(ll.value, js) {
      return Ok(Skip);
    }
    if !ll.value.Str? {
      return Err(TypeError);
    }
    var coordinates := Coordinates(ll.value.s, js);
    obj := obj - {LAT_LON};
    obj := obj - {GOOGLE_MAPS};
    obj := obj - {CUMULATIVE_TYPE};
    obj := obj - {PROPOSED_ID};
    assert obj == Entries(keys, row, js, |keys|) - DROPPED;
    r := Ok(Emit(Defined(obj), coordinates));
  }

  /** `main`, less the file reading and writing: the rows are read in order, each
      skipped or pushed with the next id. */
  method ConvertSheet(rows: seq<Row>, js: Js) returns (r: Result<seq<Feature>>)
    ensures r == Convert(rows, js)
  {
    if |rows| < 2 {
      return Err(TypeError);
    }
    var keys := Rest(rows[1]);
    var data := rows[2..];
    ghost var outcomes := RowOutcomes(keys, data, js);
    var features: seq<Feature> := [];
    for i := 0 to |data|
      invariant Pushed(outcomes[..i], MakeFeature) == Ok(features)
    {
      assert outcomes[..i + 1][..i] == outcomes[..i];
      var outcome := ConvertRow(keys, data[i], js);
      assert outcomes[..i + 1][i] == outcome;
      if outcome.Err? {
        PushedFailFrom(outcomes, MakeFeature, i + 1);
        return Err(outcome.error);
      }
      if outcome.value.Emit? {
        features := features + [MakeFeature(outcome.value.properties, outcome.value.coordinates, |features| + 1)];
      }
    }
    assert outcomes[..|data|] == outcomes;
    r := Ok(features);
  }

  lemma {:induction false} PushedFailFrom(outcomes: seq<Result<Outcome>>, make: Maker, k: nat)
    requires k <= |outcomes| && Pushed(outcomes[..k], make).Err?
    ensures Pushed(outcomes, make) == Pushed(outcomes[..k], make)
    decreases |outcomes| - k
  {
    if k < |outcomes| {
      assert outcomes[..k + 1][..k] == outcomes[..k];
      PushedFailFrom(outcomes, make, k + 1);
    } else {
      assert outcomes[..k] == outcomes;
    }
  }
}
