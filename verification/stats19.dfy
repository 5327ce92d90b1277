/** stats19/src/main.rs: linking the STATS19 collision and casualty tables. Recent
    collisions with coordinates are read into a table by accident index, each casualty
    is folded into its collision, and one point feature is written per collision. */
module Stats19 {
  import opened Outcomes
  import opened Json

  /** Collisions before this year are dropped. */
  const FIRST_YEAR := 2017

  datatype CollisionRow = CollisionRow(accidentIndex: string, accidentYear: nat, easting: string, northing: string)

  datatype CasualtyRow = CasualtyRow(
    accidentIndex: string, severity: nat, casualtyType: int, pedestrianLocation: int, pedestrianMovement: int)

  /** The summary of one collision. Severities are 1 = fatal, 2 = serious, 3 = slight. */
  datatype Collision = Collision(
    year: nat, lon: real, lat: real,
    severities: seq<nat>,
    pedestrian: bool, cyclist: bool, horseRider: bool, other: bool,
    pedestrianMovement: int, pedestrianLocation: int)

  /** The collisions by accident index, and how many rows were skipped while building them. */
  datatype Table = Table(collisions: map<string, Collision>, skipped: nat)

  /** A collision as first read: no casualty yet, every flag off, and 0 ("not a
      pedestrian") for the pedestrian details. */
  function Fresh(year: nat, lon: real, lat: real): Collision {
    Collision(year, lon, lat, [], false, false, false, false, 0, 0)
  }

  predicate Recent(rec: CollisionRow) {
    rec.accidentYear >= FIRST_YEAR
  }

  predicate HasNull(rec: CollisionRow) {
    rec.easting == "NULL" || rec.northing == "NULL"
  }

  /** Reading the collision file, one row. `parse` is Rust's float parsing and `toLonLat`
      the British National Grid to WGS84 conversion, which may fail. A recent row with a
      "NULL" or unconvertible coordinate is skipped and counted; a malformed number
      stops the read. A repeated accident index replaces the earlier collision. */
  function CollisionStep(t: Table, rec: CollisionRow, parse: string -> Option<real>,
                         toLonLat: (real, real) -> Option<(real, real)>): Result<Table>
  {
    if !Recent(rec) then Ok(t)
    else if HasNull(rec) then Ok(t.(skipped := t.skipped + 1))
    else if parse(rec.easting).None? then Err(ParseFloatError(rec.easting))
    else if parse(rec.northing).None? then Err(ParseFloatError(rec.northing))
    else
      match toLonLat(parse(rec.easting).value, parse(rec.northing).value)
      case None => Ok(t.(skipped := t.skipped + 1))
      case Some(ll) => Ok(t.(collisions := t.collisions[rec.accidentIndex := Fresh(rec.accidentYear, ll.0, ll.1)]))
  }

  function ReadCollisions(rows: seq<CollisionRow>, parse: string -> Option<real>,
                          toLonLat: (real, real) -> Option<(real, real)>): Result<Table>
  {
    if rows == [] then Ok(Table(map[], 0))
    else
      var t :- ReadCollisions(rows[..|rows| - 1], parse, toLonLat);
      CollisionStep(t, rows[|rows| - 1], parse, toLonLat)
  }

  /** The row stops the read: recent, without "NULL", and a coordinate does not parse. */
  predicate Malformed(rec: CollisionRow, parse: string -> Option<real>) {
    Recent(rec) && !HasNull(rec) && (parse(rec.easting).None? || parse(rec.northing).None?)
  }

  /** The row becomes a collision. */
  predicate Located(rec: CollisionRow, parse: string -> Option<real>, toLonLat: (real, real) -> Option<(real, real)>) {
    && Recent(rec) && !HasNull(rec) && parse(rec.easting).Some? && parse(rec.northing).Some?
    && toLonLat(parse(rec.easting).value, parse(rec.northing).value).Some?
  }

  /** The row is counted as skipped. */
  predicate Unlocated(rec: CollisionRow, parse: string -> Option<real>, toLonLat: (real, real) -> Option<(real, real)>) {
    && Recent(rec)
    && (HasNull(rec) ||
        (parse(rec.easting).Some? && parse(rec.northing).Some? &&
         toLonLat(parse(rec.easting).value, parse(rec.northing).value).None?))
  }

  function CountUnlocated(rows: seq<CollisionRow>, parse: string -> Option<real>,
                          toLonLat: (real, real) -> Option<(real, real)>): (n: nat)
    ensures n <= |rows|
  {
    if rows == [] then 0
    else CountUnlocated(rows[..|rows| - 1], parse, toLonLat) + (if Unlocated(rows[|rows| - 1], parse, toLonLat) then 1 else 0)
  }

  /** Reading collisions fails exactly when some row is malformed. */
  lemma {:induction false} ReadCollisionsOk(rows: seq<CollisionRow>, parse: string -> Option<real>,
                                            toLonLat: (real, real) -> Option<(real, real)>)
    ensures ReadCollisions(rows, parse, toLonLat).Ok? <==> forall i :: 0 <= i < |rows| ==> !Malformed(rows[i], parse)
  {
    if rows != [] {
      var init := rows[..|rows| - 1];
      ReadCollisionsOk(init, parse, toLonLat);
      assert forall i :: 0 <= i < |init| ==> init[i] == rows[i];
    }
  }

  /** The step of a successful read: the table before the last row was read too. */
  lemma CollisionsStep(rows: seq<CollisionRow>, parse: string -> Option<real>,
                       toLonLat: (real, real) -> Option<(real, real)>)
    requires rows != [] && ReadCollisions(rows, parse, toLonLat).Ok?
    ensures ReadCollisions(rows[..|rows| - 1], parse, toLonLat).Ok?
    ensures var before := ReadCollisions(rows[..|rows| - 1], parse, toLonLat).value;
      var t := ReadCollisions(rows, parse, toLonLat).value;
      var rec := rows[|rows| - 1];
      && t.skipped == before.skipped + (if Unlocated(rec, parse, toLonLat) then 1 else 0)
      && t.collisions.Keys == before.collisions.Keys + (if Located(rec, parse, toLonLat) then {rec.accidentIndex} else {})
      && forall k :: k in t.collisions ==>
           (k in before.collisions && t.collisions[k] == before.collisions[k]) ||
           (Recent(rec) && exists lon, lat :: t.collisions[k] == Fresh(rec.accidentYear, lon, lat))
  {
    var rec := rows[|rows| - 1];
    var before := ReadCollisions(rows[..|rows| - 1], parse, toLonLat).value;
    if Located(rec, parse, toLonLat) {
      var ll := toLonLat(parse(rec.easting).value, parse(rec.northing).value).value;
      assert ReadCollisions(rows, parse, toLonLat).value.collisions ==
        before.collisions[rec.accidentIndex := Fresh(rec.accidentYear, ll.0, ll.1)];
    }
  }

  /** A successful read counts as skipped exactly the recent rows without a location. */
  lemma {:induction false} ReadCollisionsSkipped(rows: seq<CollisionRow>, parse: string -> Option<real>,
                                                 toLonLat: (real, real) -> Option<(real, real)>)
    requires ReadCollisions(rows, parse, toLonLat).Ok?
    ensures ReadCollisions(rows, parse, toLonLat).value.skipped == CountUnlocated(rows, parse, toLonLat)
  {
    if rows != [] {
      CollisionsStep(rows, parse, toLonLat);
      ReadCollisionsSkipped(rows[..|rows| - 1], parse, toLonLat);
    }
  }

  /** Some row with accident index `k` is located. */
  predicate LocatedRow(rows: seq<CollisionRow>, k: string, parse: string -> Option<real>,
                       toLonLat: (real, real) -> Option<(real, real)>) {
    exists i :: 0 <= i < |rows| && rows[i].accidentIndex == k && Located(rows[i], parse, toLonLat)
  }

  /** A successful read holds a collision for exactly the accident indexes of located rows. */
  lemma ReadCollisionsKeys(rows: seq<CollisionRow>, parse: string -> Option<real>,
                           toLonLat: (real, real) -> Option<(real, real)>)
    requires ReadCollisions(rows, parse, toLonLat).Ok?
    ensures forall k :: k in ReadCollisions(rows, parse, toLonLat).value.collisions <==>
      exists i :: 0 <= i < |rows| && rows[i].accidentIndex == k && Located(rows[i], parse, toLonLat)
  {
    forall k ensures k in ReadCollisions(rows, parse, toLonLat).value.collisions <==> LocatedRow(rows, k, parse, toLonLat) {
      ReadCollisionsKey(rows, k, parse, toLonLat);
    }
  }

  lemma {:induction false} ReadCollisionsKey(rows: seq<CollisionRow>, k: string, parse: string -> Option<real>,
                                             toLonLat: (real, real) -> Option<(real, real)>)
    requires ReadCollisions(rows, parse, toLonLat).Ok?
    ensures k in ReadCollisions(rows, parse, toLonLat).value.collisions <==> LocatedRow(rows, k, parse, toLonLat)
  {
    if rows != [] {
      var n := |rows| - 1;
      var init := rows[..n];
      CollisionsStep(rows, parse, toLonLat);
      ReadCollisionsKey(init, k, parse, toLonLat);
      if LocatedRow(rows, k, parse, toLonLat) {
        var i :| 0 <= i < |rows| && rows[i].accidentIndex == k && Located(rows[i], parse, toLonLat);
        if i < n {
          assert init[i] == rows[i];
        }
      }
      if LocatedRow(init, k, parse, toLonLat) {
        var i :| 0 <= i < |init| && init[i].accidentIndex == k && Located(init[i], parse, toLonLat);
        assert rows[i] == init[i];
      }
    }
  }

  /** Every collision of a successful read is recent and fresh: no casualty, no flag, and
      no pedestrian detail. */
  lemma {:induction false} ReadCollisionsFresh(rows: seq<CollisionRow>, parse: string -> Option<real>,
                                               toLonLat: (real, real) -> Option<(real, real)>)
    requires ReadCollisions(rows, parse, toLonLat).Ok?
    ensures forall k :: k in ReadCollisions(rows, parse, toLonLat).value.collisions ==>
      var c := ReadCollisions(rows, parse, toLonLat).value.collisions[k];
      && c.year >= FIRST_YEAR && c.severities == [] && !c.pedestrian && !c.cyclist && !c.horseRider && !c.other
      && c.pedestrianLocation == 0 && c.pedestrianMovement == 0
  {
    if rows != [] {
      CollisionsStep(rows, parse, toLonLat);
      ReadCollisionsFresh(rows[..|rows| - 1], parse, toLonLat);
    }
  }

  /** The collision loop of `read_input`. */
  method ReadCollisionFile(rows: seq<CollisionRow>, parse: string -> Option<real>,
                           toLonLat: (real, real) -> Option<(real, real)>) returns (r: Result<Table>)
    ensures r == ReadCollisions(rows, parse, toLonLat)
  {
    var collisions: map<string, Collision> := map[];
    var skipped: nat := 0;
    for i := 0 to |rows|
      invariant ReadCollisions(rows[..i], parse, toLonLat) == Ok(Table(collisions, skipped))
    {
      assert rows[..i + 1][..i] == rows[..i];
      var rec := rows[i];
      if rec.accidentYear < FIRST_YEAR {
        continue;
      }
      if rec.easting == "NULL" || rec.northing == "NULL" {
        skipped := skipped + 1;
        continue;
      }
      var easting := parse(rec.easting);
      if easting.None? {
        ReadCollisionsFailFrom(rows, parse, toLonLat, i + 1);
        return Err(ParseFloatError(rec.easting));
      }
      var northing := parse(rec.northing);
      if northing.None? {
        ReadCollisionsFailFrom(rows, parse, toLonLat, i + 1);
        return Err(ParseFloatError(rec.northing));
      }
      var ll := toLonLat(easting.value, northing.value);
      if ll.None? {
        skipped := skipped + 1;
        continue;
      }
      collisions := collisions[rec.accidentIndex := Fresh(rec.accidentYear, ll.value.0, ll.value.1)];
    }
    assert rows[..|rows|] == rows;
    r := Ok(Table(collisions, skipped));
  }

  lemma {:induction false} ReadCollisionsFailFrom(rows: seq<CollisionRow>, parse: string -> Option<real>,
                                                  toLonLat: (real, real) -> Option<(real, real)>, i: nat)
    requires i <= |rows| && ReadCollisions(rows[..i], parse, toLonLat).Err?
    ensures ReadCollisions(rows, parse, toLonLat) == ReadCollisions(rows[..i], parse, toLonLat)
    decreases |rows| - i
  {
    if i < |rows| {
      assert rows[..i + 1][..i] == rows[..i];
      ReadCollisionsFailFrom(rows, parse, toLonLat, i + 1);
    } else {
      assert rows[..i] == rows;
    }
  }

  /** The kind of road user a casualty type denotes. Type 22 (mobility scooter rider)
      counts as a pedestrian; every type not listed involves a motor vehicle. */
  datatype RoadUser = Pedestrian | Cyclist | HorseRider | OtherUser

  function KindOf(casualtyType: int): RoadUser {
    if casualtyType == 0 || casualtyType == 22 then Pedestrian
    else if casualtyType == 1 then Cyclist
    else if casualtyType == 16 then HorseRider
    else OtherUser
  }

  /** Whether the collision's flag for `u` is set. */
  predicate Flag(c: Collision, u: RoadUser) {
    match u
    case Pedestrian => c.pedestrian
    case Cyclist => c.cyclist
    case HorseRider => c.horseRider
    case OtherUser => c.other
  }

  function SetFlag(c: Collision, u: RoadUser): Collision {
    match u
    case Pedestrian => c.(pedestrian := true)
    case Cyclist => c.(cyclist := true)
    case HorseRider => c.(horseRider := true)
    case OtherUser => c.(other := true)
  }

  /** A pedestrian detail worth keeping: not 0 ("not a pedestrian"), -1 ("data
      missing") or the field's own "unknown or other" code. */
  predicate Informative(value: int, unknown: int) {
    value != 0 && value != -1 && value != unknown
  }

  /** The unknown code of `pedestrian_location` is 10, that of `pedestrian_movement` 9. */
  const UNKNOWN_LOCATION := 10
  const UNKNOWN_MOVEMENT := 9

  /** One casualty folded into its collision. */
  function AddCasualty(c: Collision, rec: CasualtyRow): Collision {
    var withFlag := SetFlag(c.(severities := c.severities + [rec.severity]), KindOf(rec.casualtyType));
    var withLocation :=
      if Informative(rec.pedestrianLocation, UNKNOWN_LOCATION) then withFlag.(pedestrianLocation := rec.pedestrianLocation)
      else withFlag;
    if Informative(rec.pedestrianMovement, UNKNOWN_MOVEMENT) then withLocation.(pedestrianMovement := rec.pedestrianMovement)
    else withLocation
  }

  /** Each casualty sets exactly the flag of its kind, flags only go from false to true,
      its severity is appended, each pedestrian detail is overwritten exactly when the new
      value is informative, and the year and position stay. */
  lemma AddCasualtyMeaning(c: Collision, rec: CasualtyRow)
    ensures var c' := AddCasualty(c, rec);
      && Flag(c', KindOf(rec.casualtyType))
      && (forall u :: u != KindOf(rec.casualtyType) ==> Flag(c', u) == Flag(c, u))
      && (forall u :: Flag(c, u) ==> Flag(c', u))
      && c'.severities == c.severities + [rec.severity]
      && c'.pedestrianLocation == (if Informative(rec.pedestrianLocation, 10) then rec.pedestrianLocation else c.pedestrianLocation)
      && c'.pedestrianMovement == (if Informative(rec.pedestrianMovement, 9) then rec.pedestrianMovement else c.pedestrianMovement)
      && c'.year == c.year && c'.lon == c.lon && c'.lat == c.lat
  {
    var kind := KindOf(rec.casualtyType);
    var withFlag := SetFlag(c.(severities := c.severities + [rec.severity]), kind);
    var c' := AddCasualty(c, rec);
    assert withFlag.pedestrian == c'.pedestrian && withFlag.cyclist == c'.cyclist;
    assert withFlag.horseRider == c'.horseRider && withFlag.other == c'.other;
    assert withFlag.severities == c'.severities;
    forall u ensures Flag(c', u) == (u == kind || Flag(c, u)) {
      match kind
      case Pedestrian =>
      case Cyclist =>
      case HorseRider =>
      case OtherUser =>
    }
  }

  /** The casualty types and the flag each one sets. */
  lemma CasualtyTypeTable()
    ensures KindOf(0) == Pedestrian && KindOf(22) == Pedestrian
    ensures KindOf(1) == Cyclist && KindOf(16) == HorseRider
    ensures forall t :: t !in {0, 1, 16, 22} ==> KindOf(t) == OtherUser
  {
  }

  /** Reading the casualty file, one row: a casualty of a known collision is folded
      into it, any other is counted as skipped. */
  function CasualtyStep(t: Table, rec: CasualtyRow): Table {
    if rec.accidentIndex in t.collisions then
      t.(collisions := t.collisions[rec.accidentIndex := AddCasualty(t.collisions[rec.accidentIndex], rec)])
    else t.(skipped := t.skipped + 1)
  }

  /** The casualty loop; the skip counter starts again from 0. */
  function ReadCasualties(collisions: map<string, Collision>, rows: seq<CasualtyRow>): Table {
    if rows == [] then Table(collisions, 0)
    else CasualtyStep(ReadCasualties(collisions, rows[..|rows| - 1]), rows[|rows| - 1])
  }

  /** The severities of the casualties of collision `k`, in file order. */
  function SeveritiesOf(rows: seq<CasualtyRow>, k: string): seq<nat> {
    if rows == [] then []
    else SeveritiesOf(rows[..|rows| - 1], k) + (if rows[|rows| - 1].accidentIndex == k then [rows[|rows| - 1].severity] else [])
  }

  function CountUnmatched(rows: seq<CasualtyRow>, collisions: map<string, Collision>): (n: nat)
    ensures n <= |rows|
  {
    if rows == [] then 0
    else CountUnmatched(rows[..|rows| - 1], collisions) + (if rows[|rows| - 1].accidentIndex in collisions then 0 else 1)
  }

  /** The casualties change no key, no year and no position, and every casualty of an
      unknown collision is counted as skipped. */
  lemma {:induction false} ReadCasualtiesKeys(collisions: map<string, Collision>, rows: seq<CasualtyRow>)
    ensures var t := ReadCasualties(collisions, rows);
      && t.collisions.Keys == collisions.Keys
      && t.skipped == CountUnmatched(rows, collisions)
      && forall k :: k in collisions ==>
        && t.collisions[k].year == collisions[k].year
        && t.collisions[k].lon == collisions[k].lon && t.collisions[k].lat == collisions[k].lat
  {
    if rows != [] {
      var init := rows[..|rows| - 1];
      ReadCasualtiesKeys(collisions, init);
      var rec := rows[|rows| - 1];
      var t := ReadCasualties(collisions, init);
      if rec.accidentIndex in t.collisions {
        AddCasualtyMeaning(t.collisions[rec.accidentIndex], rec);
      }
    }
  }

  /** Each collision gets the severities of its own casualties, in file order. */
  lemma {:induction false} ReadCasualtiesSeverities(collisions: map<string, Collision>, rows: seq<CasualtyRow>, k: string)
    requires k in collisions
    ensures k in ReadCasualties(collisions, rows).collisions
    ensures ReadCasualties(collisions, rows).collisions[k].severities == collisions[k].severities + SeveritiesOf(rows, k)
  {
    ReadCasualtiesKeys(collisions, rows);
    if rows != [] {
      var init := rows[..|rows| - 1];
      ReadCasualtiesSeverities(collisions, init, k);
      var rec := rows[|rows| - 1];
      var t := ReadCasualties(collisions, init);
      ReadCasualtiesKeys(collisions, init);
      if rec.accidentIndex in t.collisions {
        AddCasualtyMeaning(t.collisions[rec.accidentIndex], rec);
      }
    }
  }

  /** A flag of a collision is set exactly when it was set before or one of its
      casualties is of that kind. */
  lemma {:induction false} ReadCasualtiesFlags(collisions: map<string, Collision>, rows: seq<CasualtyRow>, k: string, u: RoadUser)
    requires k in collisions
    ensures k in ReadCasualties(collisions, rows).collisions
    ensures Flag(ReadCasualties(collisions, rows).collisions[k], u) <==>
      Flag(collisions[k], u) || exists i :: 0 <= i < |rows| && rows[i].accidentIndex == k && KindOf(rows[i].casualtyType) == u
  {
    ReadCasualtiesKeys(collisions, rows);
    if rows != [] {
      var init := rows[..|rows| - 1];
      ReadCasualtiesFlags(collisions, init, k, u);
      assert forall i :: 0 <= i < |init| ==> init[i] == rows[i];
      var rec := rows[|rows| - 1];
      var t := ReadCasualties(collisions, init);
      if rec.accidentIndex in t.collisions {
        AddCasualtyMeaning(t.collisions[rec.accidentIndex], rec);
      }
    }
  }

  /** A casualty whose collision is unknown changes no collision. */
  lemma UnmatchedCasualtyChangesNothing(t: Table, rec: CasualtyRow)
    requires rec.accidentIndex !in t.collisions
    ensures CasualtyStep(t, rec).collisions == t.collisions
    ensures CasualtyStep(t, rec).skipped == t.skipped + 1
  {
  }

  /** The body of the casualty loop for a casualty of a known collision. */
  method FoldCasualty(c: Collision, rec: CasualtyRow) returns (collision: Collision)
    ensures collision == AddCasualty(c, rec)
  {
    collision := c.(severities := c.severities + [rec.severity]);
    if rec.casualtyType == 0 || rec.casualtyType == 22 {
      collision := collision.(pedestrian := true);
    } else if rec.casualtyType == 1 {
      collision := collision.(cyclist := true);
    } else if rec.casualtyType == 16 {
      collision := collision.(horseRider := true);
    } else {
      collision := collision.(other := true);
    }
    if rec.pedestrianLocation != 0 && rec.pedestrianLocation != -1 && rec.pedestrianLocation != 10 {
      collision := collision.(pedestrianLocation := rec.pedestrianLocation);
    }
    if rec.pedestrianMovement != 0 && rec.pedestrianMovement != -1 && rec.pedestrianMovement != 9 {
      collision := collision.(pedestrianMovement := rec.pedestrianMovement);
    }
  }

  /** The casualty loop of `read_input`. */
  method ReadCasualtyFile(collisions: map<string, Collision>, rows: seq<CasualtyRow>) returns (t: Table)
    ensures t == ReadCasualties(collisions, rows)
  {
    var table := collisions;
    var skipped: nat := 0;
    for i := 0 to |rows|
      invariant ReadCasualties(collisions, rows[..i]) == Table(table, skipped)
    {
      assert rows[..i + 1][..i] == rows[..i];
      var rec := rows[i];
      if rec.accidentIndex in table {
        var collision := FoldCasualty(table[rec.accidentIndex], rec);
        table := table[rec.accidentIndex := collision];
      } else {
        skipped := skipped + 1;
      }
    }
    assert rows[..|rows|] == rows;
    t := Table(table, skipped);
  }

  /** `read_input`: the collisions, then the casualties folded into them. */
  method ReadInput(collisionRows: seq<CollisionRow>, casualtyRows: seq<CasualtyRow>,
                   parse: string -> Option<real>, toLonLat: (real, real) -> Option<(real, real)>)
    returns (r: Result<map<string, Collision>>)
    ensures r.Ok? <==> ReadCollisions(collisionRows, parse, toLonLat).Ok?
    ensures r.Err? ==> r.error == ReadCollisions(collisionRows, parse, toLonLat).error
    ensures r.Ok? ==> r.value == ReadCasualties(ReadCollisions(collisionRows, parse, toLonLat).value.collisions, casualtyRows).collisions
  {
    var first := ReadCollisionFile(collisionRows, parse, toLonLat);
    if first.Err? {
      return Err(first.error);
    }
    var second := ReadCasualtyFile(first.value.collisions, casualtyRows);
    r := Ok(second.collisions);
  }

  /** The smallest severity, that is the worst one. */
  function MinSeverity(s: seq<nat>): (m: nat)
    requires s != []
    ensures m in s && forall i :: 0 <= i < |s| ==> m <= s[i]
  {
    if |s| == 1 then s[0]
    else
      var rest := MinSeverity(s[1..]);
      assert forall i :: 1 <= i < |s| ==> s[i] == s[1..][i - 1];
      if s[0] <= rest then s[0] else rest
  }

  /** An output point: `[lon, lat]` and its properties. */
  datatype PointFeature = PointFeature(lon: real, lat: real, properties: Props)

  /** The feature written for a collision: its position, its index and year, the
      worst of its severities, and `horse_rider` and `other` only without the
      pedestrian-and-cyclist filter. */
  function CollisionFeature(index: string, c: Collision, onlyPedestriansAndCyclists: bool): (f: PointFeature)
    requires c.severities != []
    ensures f.lon == c.lon && f.lat == c.lat
  {
    var worst := MinSeverity(c.severities);
    var base := map[
      "accident_index" := Str(index),
      "year" := Int(c.year),
      "pedestrian" := Bool(c.pedestrian),
      "cyclist" := Bool(c.cyclist),
      "pedestrian_location" := Int(c.pedestrianLocation),
      "pedestrian_movement" := Int(c.pedestrianMovement),
      "severity" := Int(worst)];
    var props := if onlyPedestriansAndCyclists then base
      else base["horse_rider" := Bool(c.horseRider)]["other" := Bool(c.other)];
    PointFeature(c.lon, c.lat, props)
  }

  /** The feature written for a collision carries its index and year, its pedestrian and
      cyclist flags, the worst of its severities, and `horse_rider` and `other` only
      without the pedestrian-and-cyclist filter. */
  lemma CollisionFeatureMeaning(index: string, c: Collision, only: bool)
    requires c.severities != []
    ensures var f := CollisionFeature(index, c, only);
      && "accident_index" in f.properties && f.properties["accident_index"] == Str(index)
      && "year" in f.properties && f.properties["year"] == Int(c.year)
      && "pedestrian" in f.properties && f.properties["pedestrian"] == Bool(c.pedestrian)
      && "cyclist" in f.properties && f.properties["cyclist"] == Bool(c.cyclist)
      && "severity" in f.properties
      && (exists j :: 0 <= j < |c.severities| && f.properties["severity"] == Int(c.severities[j]) &&
            forall m :: 0 <= m < |c.severities| ==> c.severities[j] <= c.severities[m])
      && ("horse_rider" in f.properties) == ("other" in f.properties) == !only
  {
    CollisionFeatureIdentity(index, c, only);
    CollisionFeatureSeverity(index, c, only);
    CollisionFeatureOptional(index, c, only);
  }

  lemma CollisionFeatureIdentity(index: string, c: Collision, only: bool)
    requires c.severities != []
    ensures var f := CollisionFeature(index, c, only);
      && "accident_index" in f.properties && f.properties["accident_index"] == Str(index)
      && "year" in f.properties && f.properties["year"] == Int(c.year)
      && "pedestrian" in f.properties && f.properties["pedestrian"] == Bool(c.pedestrian)
      && "cyclist" in f.properties && f.properties["cyclist"] == Bool(c.cyclist)
  {
  }

  lemma CollisionFeatureSeverity(index: string, c: Collision, only: bool)
    requires c.severities != []
    ensures var f := CollisionFeature(index, c, only);
      && "severity" in f.properties
      && (exists j :: 0 <= j < |c.severities| && f.properties["severity"] == Int(c.severities[j]) &&
            forall m :: 0 <= m < |c.severities| ==> c.severities[j] <= c.severities[m])
  {
    var worst := MinSeverity(c.severities);
    var j :| 0 <= j < |c.severities| && c.severities[j] == worst;
  }

  lemma CollisionFeatureOptional(index: string, c: Collision, only: bool)
    requires c.severities != []
    ensures var f := CollisionFeature(index, c, only);
      ("horse_rider" in f.properties) == ("other" in f.properties) == !only
  {
  }

  /** The pedestrian details are written as the casualties left them. */
  lemma CollisionFeaturePedestrianDetails(index: string, c: Collision, only: bool)
    requires c.severities != []
    ensures var f := CollisionFeature(index, c, only);
      && "pedestrian_location" in f.properties && f.properties["pedestrian_location"] == Int(c.pedestrianLocation)
      && "pedestrian_movement" in f.properties && f.properties["pedestrian_movement"] == Int(c.pedestrianMovement)
  {
  }

  /** `f` is the feature written for collision `k`, kept by the filter. */
  predicate Writes(f: PointFeature, k: string, c: Collision, only: bool) {
    !Filtered(c, only) && c.severities != [] && f == CollisionFeature(k, c, only)
  }

  /** The filter skips a collision. */
  predicate Filtered(c: Collision, onlyPedestriansAndCyclists: bool) {
    onlyPedestriansAndCyclists && !c.pedestrian && !c.cyclist
  }


  /** The writing loop of `main` over the collisions in `order`; a collision without a
      casualty panics, even one the filter would skip. */
  function WriteAll(collisions: map<string, Collision>, order: seq<string>, onlyPedestriansAndCyclists: bool): Result<seq<PointFeature>>
    requires forall i :: 0 <= i < |order| ==> order[i] in collisions
  {
    if order == [] then Ok([])
    else
      var before :- WriteAll(collisions, order[..|order| - 1], onlyPedestriansAndCyclists);
      var k := order[|order| - 1];
      var c := collisions[k];
      if c.severities == [] then Err(Panic("no casualties matched to accident_index"))
      else if Filtered(c, onlyPedestriansAndCyclists) then Ok(before)
      else Ok(before + [CollisionFeature(k, c, onlyPedestriansAndCyclists)])
  }

  /** Writing panics exactly when some collision has no casualty. */
  lemma WriteAllFails(collisions: map<string, Collision>, order: seq<string>, only: bool)
    requires forall i :: 0 <= i < |order| ==> order[i] in collisions
    ensures WriteAll(collisions, order, only).Err? <==> exists i :: 0 <= i < |order| && collisions[order[i]].severities == []
    ensures WriteAll(collisions, order, only).Err? ==> WriteAll(collisions, order, only).error.Panic?
  {
    if WriteAll(collisions, order, only).Err? {
      var i := WriteAllPanicWitness(collisions, order, only);
    } else if exists i :: 0 <= i < |order| && collisions[order[i]].severities == [] {
      var i :| 0 <= i < |order| && collisions[order[i]].severities == [];
      WriteAllPanicsAt(collisions, order, only, i);
    }
  }

  /** A failed write names a collision without a casualty, and panics. */
  lemma {:induction false} WriteAllPanicWitness(collisions: map<string, Collision>, order: seq<string>, only: bool) returns (i: nat)
    requires forall i :: 0 <= i < |order| ==> order[i] in collisions
    requires WriteAll(collisions, order, only).Err?
    ensures i < |order| && collisions[order[i]].severities == []
    ensures WriteAll(collisions, order, only).error.Panic?
  {
    var n := |order| - 1;
    var init := order[..n];
    assert forall j :: 0 <= j < n ==> init[j] == order[j];
    if WriteAll(collisions, init, only).Err? {
      i := WriteAllPanicWitness(collisions, init, only);
    } else {
      i := n;
    }
  }

  /** A collision without a casualty makes the write fail. */
  lemma {:induction false} WriteAllPanicsAt(collisions: map<string, Collision>, order: seq<string>, only: bool, i: nat)
    requires forall i :: 0 <= i < |order| ==> order[i] in collisions
    requires i < |order| && collisions[order[i]].severities == []
    ensures WriteAll(collisions, order, only).Err?
  {
    var n := |order| - 1;
    var init := order[..n];
    assert forall j :: 0 <= j < n ==> init[j] == order[j];
    if i < n {
      WriteAllPanicsAt(collisions, init, only, i);
      assert init[i] == order[i];
    } else {
      assert collisions[order[n]].severities == [];
    }
  }

  /** Without the filter every collision is written. */
  lemma {:induction false} WriteAllCount(collisions: map<string, Collision>, order: seq<string>)
    requires forall i :: 0 <= i < |order| ==> order[i] in collisions
    requires WriteAll(collisions, order, false).Ok?
    ensures |WriteAll(collisions, order, false).value| == |order|
  {
    if order != [] {
      WriteAllCount(collisions, order[..|order| - 1]);
    }
  }

  /** Every feature written is that of a collision the filter keeps. */
  lemma {:induction false} WriteAllSound(collisions: map<string, Collision>, order: seq<string>, only: bool)
    requires forall i :: 0 <= i < |order| ==> order[i] in collisions
    requires WriteAll(collisions, order, only).Ok?
    ensures forall f :: f in WriteAll(collisions, order, only).value ==>
      exists i :: 0 <= i < |order| && Writes(f, order[i], collisions[order[i]], only)
  {
    if order != [] {
      var init := order[..|order| - 1];
      WriteAllSound(collisions, init, only);
      assert forall i :: 0 <= i < |init| ==> init[i] == order[i];
    }
  }

  /** Every collision the filter keeps is written. */
  lemma WriteAllComplete(collisions: map<string, Collision>, order: seq<string>, only: bool)
    requires forall i :: 0 <= i < |order| ==> order[i] in collisions
    requires WriteAll(collisions, order, only).Ok?
    ensures forall i :: 0 <= i < |order| && !Filtered(collisions[order[i]], only) ==>
      exists f :: f in WriteAll(collisions, order, only).value && Writes(f, order[i], collisions[order[i]], only)
  {
    forall i | 0 <= i < |order| && !Filtered(collisions[order[i]], only)
      ensures exists f :: f in WriteAll(collisions, order, only).value && Writes(f, order[i], collisions[order[i]], only)
    {
      var j := WrittenAt(collisions, order, only, i);
      assert WriteAll(collisions, order, only).value[j] in WriteAll(collisions, order, only).value;
    }
  }

  /** One collision more: the features written so far stay, and a kept collision adds
      its own. */
  lemma WriteAllStep(collisions: map<string, Collision>, order: seq<string>, only: bool)
    requires forall i :: 0 <= i < |order| ==> order[i] in collisions
    requires order != [] && WriteAll(collisions, order, only).Ok?
    ensures var n := |order| - 1;
      && WriteAll(collisions, order[..n], only).Ok?
      && var before := WriteAll(collisions, order[..n], only).value;
      && var out := WriteAll(collisions, order, only).value;
      && |before| <= |out| && out[..|before|] == before
      && (!Filtered(collisions[order[n]], only) ==>
            |out| == |before| + 1 && Writes(out[|before|], order[n], collisions[order[n]], only))
  {
  }

  /** The place where a kept collision's feature is written. */
  lemma {:induction false} WrittenAt(collisions: map<string, Collision>, order: seq<string>, only: bool, i: nat) returns (j: nat)
    requires forall i :: 0 <= i < |order| ==> order[i] in collisions
    requires WriteAll(collisions, order, only).Ok?
    requires i < |order| && !Filtered(collisions[order[i]], only)
    ensures j < |WriteAll(collisions, order, only).value|
    ensures Writes(WriteAll(collisions, order, only).value[j], order[i], collisions[order[i]], only)
  {
    var n := |order| - 1;
    var init := order[..n];
    assert forall k :: 0 <= k < n ==> init[k] == order[k];
    WriteAllStep(collisions, order, only);
    var before := WriteAll(collisions, init, only).value;
    var out := WriteAll(collisions, order, only).value;
    if i < n {
      j := WrittenAt(collisions, init, only, i);
      assert out[..|before|] == before;
      assert out[j] == before[j];
    } else {
      assert i == n;
      j := |before|;
    }
  }

  /** The writing loop of `main`. */
  method WriteCollisions(collisions: map<string, Collision>, order: seq<string>, onlyPedestriansAndCyclists: bool)
    returns (r: Result<seq<PointFeature>>)
    requires Enumerates(order, collisions)
    ensures r == WriteAll(collisions, order, onlyPedestriansAndCyclists)
  {
    var out: seq<PointFeature> := [];
    for i := 0 to |order|
      invariant WriteAll(collisions, order[..i], onlyPedestriansAndCyclists) == Ok(out)
    {
      assert order[..i + 1][..i] == order[..i];
      var k := order[i];
      var collision := collisions[k];
      if collision.severities == [] {
        WriteAllFailFrom(collisions, order, onlyPedestriansAndCyclists, i + 1);
        return Err(Panic("no casualties matched to accident_index"));
      }
      if onlyPedestriansAndCyclists && !collision.pedestrian && !collision.cyclist {
        continue;
      }
      out := out + [CollisionFeature(k, collision, onlyPedestriansAndCyclists)];
    }
    assert order[..|order|] == order;
    r := Ok(out);
  }

  lemma {:induction false} WriteAllFailFrom(collisions: map<string, Collision>, order: seq<string>, only: bool, i: nat)
    requires forall i :: 0 <= i < |order| ==> order[i] in collisions
    requires i <= |order| && WriteAll(collisions, order[..i], only).Err?
    ensures WriteAll(collisions, order, only) == WriteAll(collisions, order[..i], only)
    decreases |order| - i
  {
    if i < |order| {
      assert order[..i + 1][..i] == order[..i];
      WriteAllFailFrom(collisions, order, only, i + 1);
    } else {
      assert order[..i] == order;
    }
  }

  /** A collision that no casualty row names makes the whole run panic. */
  lemma CollisionWithoutCasualtyPanics(collisions: map<string, Collision>, casualties: seq<CasualtyRow>,
                                       order: seq<string>, only: bool, k: string)
    requires Enumerates(order, ReadCasualties(collisions, casualties).collisions)
    requires k in collisions && collisions[k].severities == []
    requires forall i :: 0 <= i < |casualties| ==> casualties[i].accidentIndex != k
    ensures WriteAll(ReadCasualties(collisions, casualties).collisions, order, only).Err?
  {
    ReadCasualtiesSeverities(collisions, casualties, k);
    NoSeverities(casualties, k);
    var t := ReadCasualties(collisions, casualties).collisions;
    var i :| 0 <= i < |order| && order[i] == k;
    WriteAllFails(t, order, only);
  }

  lemma {:induction false} NoSeverities(rows: seq<CasualtyRow>, k: string)
    requires forall i :: 0 <= i < |rows| ==> rows[i].accidentIndex != k
    ensures SeveritiesOf(rows, k) == []
  {
    if rows != [] {
      NoSeverities(rows[..|rows| - 1], k);
    }
  }
}
