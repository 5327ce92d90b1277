/** ordnance_survey_layers/src/pavement_width.rs: the join of the per-side pavement
    features into one road per `roadlinkid`, and the road features written from it. */
module OsPavementWidth {
  import opened Outcomes
  import opened Json
  import opened Arith
  import opened OsFields
  import opened OsWidth

  type Point = (real, real)

  /** An input geometry, as far as the join looks at it. */
  datatype InputGeometry = LineString(points: seq<Point>) | OtherGeometry | NoGeometry

  /** One input feature: its attribute fields and its geometry. */
  datatype PavementInput = PavementInput(fields: Fields, geometry: InputGeometry)

  /** A joined road: the geometry and bearing of its first feature, and the widths of
      each side seen so far. */
  datatype Road = Road(points: seq<Point>, angle: int, left: Option<(real, real)>, right: Option<(real, real)>)

  const ROAD_LINK_ID := "roadlinkid"

  /** `trim_f64`: rounds half away from zero to seven decimal places. */
  function Trim(x: real): (r: real)
    ensures -0.00000005 <= r - x <= 0.00000005
  {
    RoundHalfAway(x * 10000000.0) as real / 10000000.0
  }

  /** The road made from the first feature of an id: the coordinates trimmed, and the
      angle from the bearing (`haversine_bearing`, a parameter) of the first to the
      last trimmed point, rounded half away from zero, cast `as isize` (saturating) and
      brought into range by `(b + 360) % 360`. A missing geometry, a geometry that is not a line and an
      empty line panic. */
  function NewRoad(g: InputGeometry, bearing: (Point, Point) -> real): (r: Result<Road>)
    ensures r.Ok? <==> g.LineString? && g.points != []
    ensures g.NoGeometry? ==> r == Err(Panic(UNWRAP_NONE))
    ensures g.OtherGeometry? ==> r == Err(Panic("Not a LineString"))
    ensures r.Ok? ==>
      && |r.value.points| == |g.points|
      && (forall i :: 0 <= i < |g.points| ==> r.value.points[i] == (Trim(g.points[i].0), Trim(g.points[i].1)))
      && r.value.left.None? && r.value.right.None?
    ensures r.Ok? && -180.0 <= bearing(r.value.points[0], r.value.points[|r.value.points| - 1]) <= 180.0 ==>
      0 <= r.value.angle < 360
  {
    match g
    case NoGeometry => Err(Panic(UNWRAP_NONE))
    case OtherGeometry => Err(Panic("Not a LineString"))
    case LineString(points) =>
      var trimmed := seq(|points|, i requires 0 <= i < |points| => (Trim(points[i].0), Trim(points[i].1)));
      if trimmed == [] then Err(Panic(UNWRAP_NONE))
      else
        var b := SaturateIsize(RoundHalfAway(bearing(trimmed[0], trimmed[|trimmed| - 1])));
        Ok(Road(trimmed, TruncRem(b + 360, 360), None, None))
  }

  /** What one feature contributes to the join: its road's id and its side's widths. */
  datatype Entry = Entry(id: string, side: string, widths: (real, real))

  /** The reads of one feature, in the order the loop makes them: the two widths and
      the side (errors propagate, a null or a pair of zero widths passes the feature
      over), then the id, whose absence panics. */
  function ReadEntry(input: PavementInput): (r: Result<Option<Entry>>)
    ensures PavementWidths(input.fields).Err? ==> r == Err(PavementWidths(input.fields).error)
    ensures PavementWidths(input.fields) == Ok(None) ==> r == Ok(None)
    ensures r.Ok? && r.value.Some? ==>
      && PavementWidths(input.fields) == Ok(Some((r.value.value.side, r.value.value.widths.0, r.value.value.widths.1)))
      && FieldAsString(input.fields, ROAD_LINK_ID) == Ok(Some(r.value.value.id))
    ensures (&& PavementWidths(input.fields).Ok? && PavementWidths(input.fields).value.Some?
             && ROAD_LINK_ID in input.fields && input.fields[ROAD_LINK_ID].Unset?) ==>
      r == Err(Panic("missing roadlinkid"))
  {
    var widths :- PavementWidths(input.fields);
    if widths.None? then Ok(None)
    else
      var id :- FieldAsString(input.fields, ROAD_LINK_ID);
      if id.None? then Err(Panic("missing roadlinkid"))
      else
        var (side, average, minimum) := widths.value;
        Ok(Some(Entry(id.value, side, (average, minimum))))
  }

  /** The road constructor of the join, with the bearing fixed. */
  function Maker(bearing: (Point, Point) -> real): InputGeometry -> Result<Road> {
    g => NewRoad(g, bearing)
  }

  /** A feature the join uses. */
  predicate Kept(read: PavementInput -> Result<Option<Entry>>, input: PavementInput) {
    read(input).Ok? && read(input).value.Some?
  }

  /** One turn of the reading loop: a feature without data is passed over; otherwise
      its road is fetched or made, and its side set. A side of "Right" sets `right`,
      any other side `left`, replacing what was there. */
  function JoinStep(roads: map<string, Road>, input: PavementInput, read: PavementInput -> Result<Option<Entry>>,
                    make: InputGeometry -> Result<Road>): Result<map<string, Road>> {
    var entry :- read(input);
    if entry.None? then Ok(roads)
    else
      var e := entry.value;
      var road :- if e.id in roads then Ok(roads[e.id]) else make(input.geometry);
      Ok(roads[e.id := if e.side == "Right" then road.(right := Some(e.widths)) else road.(left := Some(e.widths))])
  }

  /** The roads after reading every feature, keyed by id. */
  function Join(inputs: seq<PavementInput>, read: PavementInput -> Result<Option<Entry>>,
                make: InputGeometry -> Result<Road>): Result<map<string, Road>> {
    if inputs == [] then Ok(map[])
    else
      var before :- Join(inputs[..|inputs| - 1], read, make);
      JoinStep(before, inputs[|inputs| - 1], read, make)
  }

  /** One step of the join: a feature that is not kept changes nothing; a kept one
      adds its id (made from its own geometry when new), sets its side and leaves
      every other road, and the geometry, angle and other side of its own, alone. */
  lemma JoinStepMeaning(roads: map<string, Road>, input: PavementInput, read: PavementInput -> Result<Option<Entry>>,
                        make: InputGeometry -> Result<Road>)
    requires JoinStep(roads, input, read, make).Ok?
    ensures read(input).Ok?
    ensures !Kept(read, input) ==> JoinStep(roads, input, read, make).value == roads
    ensures Kept(read, input) ==>
      var next := JoinStep(roads, input, read, make).value;
      var e := read(input).value.value;
      && next.Keys == roads.Keys + {e.id}
      && (forall k :: k in roads && k != e.id ==> next[k] == roads[k])
      && (e.id !in roads ==> make(input.geometry).Ok?)
      && var was := if e.id in roads then roads[e.id] else make(input.geometry).value;
      && next[e.id].points == was.points && next[e.id].angle == was.angle
      && (e.side == "Right" ==> next[e.id].right == Some(e.widths) && next[e.id].left == was.left)
      && (e.side != "Right" ==> next[e.id].left == Some(e.widths) && next[e.id].right == was.right)
  {
  }

  /** The join of a prefix succeeds when the join of the whole does, and the whole is
      the prefix's roads stepped by the last feature. */
  lemma JoinInit(inputs: seq<PavementInput>, read: PavementInput -> Result<Option<Entry>>, make: InputGeometry -> Result<Road>)
    requires inputs != [] && Join(inputs, read, make).Ok?
    ensures Join(inputs[..|inputs| - 1], read, make).Ok?
    ensures JoinStep(Join(inputs[..|inputs| - 1], read, make).value, inputs[|inputs| - 1], read, make)
      == Join(inputs, read, make)
  {
  }

  /** Some kept feature carries the id. */
  ghost predicate HasKept(inputs: seq<PavementInput>, read: PavementInput -> Result<Option<Entry>>, id: string) {
    exists i :: 0 <= i < |inputs| && Kept(read, inputs[i]) && read(inputs[i]).value.value.id == id
  }

  /** There is one road per id of a kept feature, and every road has a side. */
  lemma JoinKeys(inputs: seq<PavementInput>, read: PavementInput -> Result<Option<Entry>>,
                 make: InputGeometry -> Result<Road>)
    requires Join(inputs, read, make).Ok?
    ensures forall id :: id in Join(inputs, read, make).value <==> HasKept(inputs, read, id)
    ensures forall id :: id in Join(inputs, read, make).value ==>
      Join(inputs, read, make).value[id].left.Some? || Join(inputs, read, make).value[id].right.Some?
  {
    forall id ensures id in Join(inputs, read, make).value <==> HasKept(inputs, read, id)
      ensures id in Join(inputs, read, make).value ==>
        Join(inputs, read, make).value[id].left.Some? || Join(inputs, read, make).value[id].right.Some?
    {
      JoinKey(inputs, read, make, id);
    }
  }

  lemma {:induction false} JoinKey(inputs: seq<PavementInput>, read: PavementInput -> Result<Option<Entry>>,
                                   make: InputGeometry -> Result<Road>, id: string)
    requires Join(inputs, read, make).Ok?
    ensures id in Join(inputs, read, make).value <==> HasKept(inputs, read, id)
    ensures id in Join(inputs, read, make).value ==>
      Join(inputs, read, make).value[id].left.Some? || Join(inputs, read, make).value[id].right.Some?
  {
    if inputs != [] {
      var init := inputs[..|inputs| - 1];
      var last := inputs[|inputs| - 1];
      JoinInit(inputs, read, make);
      JoinKey(init, read, make, id);
      var before := Join(init, read, make).value;
      JoinStepMeaning(before, last, read, make);
      var roads := Join(inputs, read, make).value;
      var mine := Kept(read, last) && read(last).value.value.id == id;
      if !mine {
        assert id in roads <==> id in before;
        if id in before {
          assert roads[id] == before[id];
        }
      }
      if HasKept(inputs, read, id) && !mine {
        var i :| 0 <= i < |inputs| && Kept(read, inputs[i]) && read(inputs[i]).value.value.id == id;
        assert i < |init| && init[i] == inputs[i];
        assert HasKept(init, read, id);
      }
      if HasKept(init, read, id) {
        var i :| 0 <= i < |init| && Kept(read, init[i]) && read(init[i]).value.value.id == id;
        assert inputs[i] == init[i];
      }
      if mine {
        assert Kept(read, inputs[|inputs| - 1]);
      }
    }
  }

  /** No kept feature before position `i` carries `id`. */
  predicate FirstWithId(inputs: seq<PavementInput>, read: PavementInput -> Result<Option<Entry>>, i: int, id: string)
    requires 0 <= i <= |inputs|
  {
    forall j :: 0 <= j < i ==> !(Kept(read, inputs[j]) && read(inputs[j]).value.value.id == id)
  }

  /** The road of an id keeps the geometry and angle made from its first kept feature. */
  lemma {:induction false} JoinFirst(inputs: seq<PavementInput>, read: PavementInput -> Result<Option<Entry>>,
                                     make: InputGeometry -> Result<Road>, i: int)
    requires Join(inputs, read, make).Ok?
    requires 0 <= i < |inputs| && Kept(read, inputs[i]) && FirstWithId(inputs, read, i, read(inputs[i]).value.value.id)
    ensures read(inputs[i]).value.value.id in Join(inputs, read, make).value
    ensures make(inputs[i].geometry).Ok?
    ensures var road := Join(inputs, read, make).value[read(inputs[i]).value.value.id];
      road.points == make(inputs[i].geometry).value.points && road.angle == make(inputs[i].geometry).value.angle
  {
    var init := inputs[..|inputs| - 1];
    var last := inputs[|inputs| - 1];
    var id := read(inputs[i]).value.value.id;
    JoinInit(inputs, read, make);
    var before := Join(init, read, make).value;
    JoinStepMeaning(before, last, read, make);
    if i < |init| {
      assert init[i] == inputs[i];
      assert FirstWithId(init, read, i, id) by {
        forall j | 0 <= j < i ensures init[j] == inputs[j] {}
      }
      JoinFirst(init, read, make, i);
    } else {
      JoinKeys(init, read, make);
      assert id !in before by {
        forall j | 0 <= j < |init| ensures init[j] == inputs[j] {}
      }
    }
  }

  /** No kept feature after position `i` carries the id of feature `i` on the same side
      ("Right" against anything else). */
  predicate LastOnSide(inputs: seq<PavementInput>, read: PavementInput -> Result<Option<Entry>>, i: int)
    requires 0 <= i < |inputs| && Kept(read, inputs[i])
  {
    var e := read(inputs[i]).value.value;
    forall j :: i < j < |inputs| && Kept(read, inputs[j]) && read(inputs[j]).value.value.id == e.id ==>
      (read(inputs[j]).value.value.side == "Right") != (e.side == "Right")
  }

  /** Each side of a road holds the widths of the last kept feature of its id on that
      side: a later feature overwrites an earlier one. */
  lemma {:induction false} JoinLast(inputs: seq<PavementInput>, read: PavementInput -> Result<Option<Entry>>,
                                    make: InputGeometry -> Result<Road>, i: int)
    requires Join(inputs, read, make).Ok?
    requires 0 <= i < |inputs| && Kept(read, inputs[i]) && LastOnSide(inputs, read, i)
    ensures read(inputs[i]).value.value.id in Join(inputs, read, make).value
    ensures var e := read(inputs[i]).value.value;
      var road := Join(inputs, read, make).value[e.id];
      if e.side == "Right" then road.right == Some(e.widths) else road.left == Some(e.widths)
  {
    var init := inputs[..|inputs| - 1];
    var last := inputs[|inputs| - 1];
    JoinInit(inputs, read, make);
    var before := Join(init, read, make).value;
    JoinStepMeaning(before, last, read, make);
    if i < |init| {
      assert init[i] == inputs[i];
      assert LastOnSide(init, read, i) by {
        forall j | i < j < |init| ensures init[j] == inputs[j] {}
      }
      JoinLast(init, read, make, i);
    }
  }

  /** A side that no kept feature of the id sets stays empty. */
  lemma {:induction false} JoinUnset(inputs: seq<PavementInput>, read: PavementInput -> Result<Option<Entry>>,
                                     make: InputGeometry -> Result<Road>, id: string, right: bool)
    requires Join(inputs, read, make).Ok? && id in Join(inputs, read, make).value
    requires forall j :: 0 <= j < |inputs| && Kept(read, inputs[j]) && read(inputs[j]).value.value.id == id ==>
      (read(inputs[j]).value.value.side == "Right") != right
    requires forall g :: make(g).Ok? ==> make(g).value.left.None? && make(g).value.right.None?
    ensures right ==> Join(inputs, read, make).value[id].right.None?
    ensures !right ==> Join(inputs, read, make).value[id].left.None?
  {
    if inputs != [] {
      var init := inputs[..|inputs| - 1];
      var last := inputs[|inputs| - 1];
      JoinInit(inputs, read, make);
      var before := Join(init, read, make).value;
      JoinStepMeaning(before, last, read, make);
      if id in before {
        forall j | 0 <= j < |init| ensures init[j] == inputs[j] {}
        JoinUnset(init, read, make, id, right);
      }
    }
  }

  /** Every road keeps the angle its constructor gave it, so a bound on new angles is a
      bound on all of them. */
  lemma {:induction false} JoinAngles(inputs: seq<PavementInput>, read: PavementInput -> Result<Option<Entry>>,
                                      make: InputGeometry -> Result<Road>)
    requires Join(inputs, read, make).Ok?
    requires forall g :: make(g).Ok? ==> 0 <= make(g).value.angle < 360
    ensures forall id :: id in Join(inputs, read, make).value ==> 0 <= Join(inputs, read, make).value[id].angle < 360
  {
    if inputs != [] {
      var init := inputs[..|inputs| - 1];
      JoinInit(inputs, read, make);
      JoinAngles(init, read, make);
      JoinStepMeaning(Join(init, read, make).value, inputs[|inputs| - 1], read, make);
    }
  }

  /** With a bearing in -180..180 degrees, as `haversine_bearing` gives, every angle
      written lies in 0..359. */
  lemma AnglesInRange(inputs: seq<PavementInput>, bearing: (Point, Point) -> real)
    requires Join(inputs, ReadEntry, Maker(bearing)).Ok?
    requires forall p, q :: -180.0 <= bearing(p, q) <= 180.0
    ensures forall id :: id in Join(inputs, ReadEntry, Maker(bearing)).value ==>
      0 <= Join(inputs, ReadEntry, Maker(bearing)).value[id].angle < 360
  {
    forall g | Maker(bearing)(g).Ok? ensures 0 <= Maker(bearing)(g).value.angle < 360 {
      var road := NewRoad(g, bearing).value;
      assert -180.0 <= bearing(road.points[0], road.points[|road.points| - 1]) <= 180.0;
    }
    JoinAngles(inputs, ReadEntry, Maker(bearing));
  }

  /** The first feature whose read or road fails stops the join with its error. */
  lemma JoinFailsAt(inputs: seq<PavementInput>, read: PavementInput -> Result<Option<Entry>>,
                    make: InputGeometry -> Result<Road>, i: int)
    requires 0 <= i < |inputs| && Join(inputs[..i], read, make).Ok?
    requires JoinStep(Join(inputs[..i], read, make).value, inputs[i], read, make).Err?
    ensures Join(inputs, read, make) == JoinStep(Join(inputs[..i], read, make).value, inputs[i], read, make)
  {
    assert inputs[..i + 1][..i] == inputs[..i];
    JoinFailFrom(inputs, read, make, i + 1);
  }

  lemma {:induction false} JoinFailFrom(inputs: seq<PavementInput>, read: PavementInput -> Result<Option<Entry>>,
                                        make: InputGeometry -> Result<Road>, i: nat)
    requires i <= |inputs| && Join(inputs[..i], read, make).Err?
    ensures Join(inputs, read, make) == Join(inputs[..i], read, make)
    decreases |inputs| - i
  {
    if i < |inputs| {
      assert inputs[..i + 1][..i] == inputs[..i];
      JoinFailFrom(inputs, read, make, i + 1);
    } else {
      assert inputs[..i] == inputs;
    }
  }

  /** A kept feature without an id, reached with the join so far intact, panics. */
  lemma MissingLinkIdPanics(inputs: seq<PavementInput>, bearing: (Point, Point) -> real, i: int)
    requires 0 <= i < |inputs| && Join(inputs[..i], ReadEntry, Maker(bearing)).Ok?
    requires PavementWidths(inputs[i].fields).Ok? && PavementWidths(inputs[i].fields).value.Some?
    requires ROAD_LINK_ID in inputs[i].fields && inputs[i].fields[ROAD_LINK_ID].Unset?
    ensures Join(inputs, ReadEntry, Maker(bearing)) == Err(Panic("missing roadlinkid"))
  {
    JoinFailsAt(inputs, ReadEntry, Maker(bearing), i);
  }

  /** A new id whose feature is not a line panics. */
  lemma NotLineStringPanics(inputs: seq<PavementInput>, bearing: (Point, Point) -> real, i: int)
    requires 0 <= i < |inputs| && Join(inputs[..i], ReadEntry, Maker(bearing)).Ok?
    requires Kept(ReadEntry, inputs[i]) && inputs[i].geometry.OtherGeometry?
    requires ReadEntry(inputs[i]).value.value.id !in Join(inputs[..i], ReadEntry, Maker(bearing)).value
    ensures Join(inputs, ReadEntry, Maker(bearing)) == Err(Panic("Not a LineString"))
  {
    JoinFailsAt(inputs, ReadEntry, Maker(bearing), i);
  }

  /** The properties written for a road: `angle`, then `left_average` and
      `left_minimum` when the left side is set, and the same for the right. */
  function RoadProperties(road: Road): (p: Props)
    ensures "angle" in p && p["angle"] == Int(road.angle)
    ensures ("left_average" in p <==> road.left.Some?) && ("left_minimum" in p <==> road.left.Some?)
    ensures ("right_average" in p <==> road.right.Some?) && ("right_minimum" in p <==> road.right.Some?)
    ensures road.left.Some? ==> p["left_average"] == Float(road.left.value.0) && p["left_minimum"] == Float(road.left.value.1)
    ensures road.right.Some? ==> p["right_average"] == Float(road.right.value.0) && p["right_minimum"] == Float(road.right.value.1)
    ensures p.Keys <= {"angle", "left_average", "left_minimum", "right_average", "right_minimum"}
  {
    var p := map["angle" := Int(road.angle)];
    var p := if road.left.Some? then p["left_average" := Float(road.left.value.0)]["left_minimum" := Float(road.left.value.1)] else p;
    if road.right.Some? then p["right_average" := Float(road.right.value.0)]["right_minimum" := Float(road.right.value.1)] else p
  }

  /** A written road feature: the road's line and its properties. */
  datatype RoadFeature = RoadFeature(points: seq<Point>, properties: Props)

  /** The reading loop of `process`. */
  method ReadPavements(inputs: seq<PavementInput>, bearing: (Point, Point) -> real)
    returns (r: Result<map<string, Road>>)
    ensures r == Join(inputs, ReadEntry, Maker(bearing))
  {
    var roads: map<string, Road> := map[];
    for i := 0 to |inputs|
      invariant Join(inputs[..i], ReadEntry, Maker(bearing)) == Ok(roads)
    {
      assert inputs[..i + 1][..i] == inputs[..i];
      var input := inputs[i];
      var average := FieldAsDouble(input.fields, PAVEMENT_AVERAGE);
      if average.Err? {
        JoinFailFrom(inputs, ReadEntry, Maker(bearing), i + 1);
        return Err(average.error);
      }
      var minimum := FieldAsDouble(input.fields, PAVEMENT_MINIMUM);
      if minimum.Err? {
        JoinFailFrom(inputs, ReadEntry, Maker(bearing), i + 1);
        return Err(minimum.error);
      }
      var side := FieldAsString(input.fields, PAVEMENT_SIDE);
      if side.Err? {
        JoinFailFrom(inputs, ReadEntry, Maker(bearing), i + 1);
        return Err(side.error);
      }
      if average.value.None? || minimum.value.None? || side.value.None? {
        continue;
      }
      if average.value.value == 0.0 && minimum.value.value == 0.0 {
        continue;
      }
      var id := FieldAsString(input.fields, ROAD_LINK_ID);
      if id.Err? {
        JoinFailFrom(inputs, ReadEntry, Maker(bearing), i + 1);
        return Err(id.error);
      }
      if id.value.None? {
        JoinFailFrom(inputs, ReadEntry, Maker(bearing), i + 1);
        return Err(Panic("missing roadlinkid"));
      }
      var road: Road;
      if id.value.value in roads {
        road := roads[id.value.value];
      } else {
        var made := NewRoad(input.geometry, bearing);
        if made.Err? {
          JoinFailFrom(inputs, ReadEntry, Maker(bearing), i + 1);
          return Err(made.error);
        }
        road := made.value;
      }
      if side.value.value == "Right" {
        road := road.(right := Some((average.value.value, minimum.value.value)));
      } else {
        road := road.(left := Some((average.value.value, minimum.value.value)));
      }
      roads := roads[id.value.value := road];
    }
    assert inputs[..|inputs|] == inputs;
    r := Ok(roads);
  }

  /** The writing loop of `process`: one feature per road, in the map's iteration
      order `order`. */
  method WriteRoads(roads: map<string, Road>, order: seq<string>) returns (out: seq<RoadFeature>)
    requires Enumerates(order, roads)
    ensures |out| == |roads| == |order|
    ensures forall i :: 0 <= i < |out| ==> out[i] == RoadFeature(roads[order[i]].points, RoadProperties(roads[order[i]]))
  {
    out := [];
    for i := 0 to |order|
      invariant |out| == i
      invariant forall j :: 0 <= j < i ==> out[j] == RoadFeature(roads[order[j]].points, RoadProperties(roads[order[j]]))
    {
      var road := roads[order[i]];
      out := out + [RoadFeature(road.points, RoadProperties(road))];
    }
    EnumerationSize(order, roads);
  }

  /** `process` without the file I/O: read and join, then write every road. */
  method Process(inputs: seq<PavementInput>, bearing: (Point, Point) -> real, order: seq<string>)
    returns (r: Result<seq<RoadFeature>>)
    requires Join(inputs, ReadEntry, Maker(bearing)).Ok? ==> Enumerates(order, Join(inputs, ReadEntry, Maker(bearing)).value)
    ensures r.Ok? <==> Join(inputs, ReadEntry, Maker(bearing)).Ok?
    ensures r.Err? ==> r.error == Join(inputs, ReadEntry, Maker(bearing)).error
    ensures r.Ok? ==>
      var roads := Join(inputs, ReadEntry, Maker(bearing)).value;
      && |r.value| == |order| == |roads|
      && forall i :: 0 <= i < |r.value| ==> r.value[i] == RoadFeature(roads[order[i]].points, RoadProperties(roads[order[i]]))
  {
    var roads := ReadPavements(inputs, bearing);
    if roads.Err? {
      return Err(roads.error);
    }
    var out := WriteRoads(roads.value, order);
    r := Ok(out);
  }
}
