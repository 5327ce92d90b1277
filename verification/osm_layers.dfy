/** The property callbacks of the OSM-derived layers (layers/osm.py) and the bus-lane
    detector `roadHasBusLane`. Input properties are the OSM tags of the exported
    feature, all strings; the callbacks build a fresh output dictionary. */
module OsmLayers {
  import opened Outcomes
  import opened Json
  import Text

  /** The test one tag rule applies to a single tag value. */
  datatype Rule =
    | LaneOrOpposite      // `busway*`: the value is `lane` or `opposite_lane`
    | NonZeroCount        // `lanes:psv*`, `lanes:bus*`: truthy and not "0"
    | DesignatedLane      // `psv:lanes*`, `bus:lanes*`: truthy and contains "designated"
    | YesOrDesignated     // `bus`, `psv` under `access=no`

  predicate Matches(tags: Tags, key: string, rule: Rule) {
    key in tags &&
    var v := tags[key];
    match rule
    case LaneOrOpposite => v == "lane" || v == "opposite_lane"
    case NonZeroCount => v != "" && v != "0"
    case DesignatedLane => v != "" && Text.Contains(v, "designated")
    case YesOrDesignated => v == "yes" || v == "designated"
  }

  /** An early-return scan: does any of `keys` match `rule`? */
  predicate AnyKey(tags: Tags, keys: seq<string>, rule: Rule) {
    keys != [] && (Matches(tags, keys[0], rule) || AnyKey(tags, keys[1..], rule))
  }

  lemma {:induction false} AnyKeyExists(tags: Tags, keys: seq<string>, rule: Rule)
    ensures AnyKey(tags, keys, rule) <==> exists k :: 0 <= k < |keys| && Matches(tags, keys[k], rule)
  {
    if keys != [] {
      AnyKeyExists(tags, keys[1..], rule);
      if AnyKey(tags, keys[1..], rule) {
        var k :| 0 <= k < |keys[1..]| && Matches(tags, keys[1..][k], rule);
        assert Matches(tags, keys[k + 1], rule);
      }
      if exists k :: 0 <= k < |keys| && Matches(tags, keys[k], rule) {
        var k :| 0 <= k < |keys| && Matches(tags, keys[k], rule);
        if k > 0 {
          assert Matches(tags, keys[1..][k - 1], rule);
        }
      }
    }
  }

  const BUSWAY_KEYS: seq<string> := ["busway", "busway:both", "busway:right", "busway:left"]

  /** `lanes:psv` and `lanes:bus`, each with no suffix, `:forward` and `:backward`. */
  const LANE_COUNT_KEYS: seq<string> :=
    ["lanes:psv", "lanes:psv:forward", "lanes:psv:backward", "lanes:bus", "lanes:bus:forward", "lanes:bus:backward"]

  /** `psv:lanes` and `bus:lanes`, each with no suffix, `:forward` and `:backward`. */
  const PER_LANE_KEYS: seq<string> :=
    ["psv:lanes", "psv:lanes:forward", "psv:lanes:backward", "bus:lanes", "bus:lanes:forward", "bus:lanes:backward"]

  const ACCESS_KEYS: seq<string> := ["bus", "psv"]

  /** `roadHasBusLane`: the four tagging schemes for bus lanes, tried in order. */
  predicate RoadHasBusLane(tags: Tags) {
    || AnyKey(tags, BUSWAY_KEYS, LaneOrOpposite)
    || AnyKey(tags, LANE_COUNT_KEYS, NonZeroCount)
    || AnyKey(tags, PER_LANE_KEYS, DesignatedLane)
    || (Is(tags, "access", "no") && AnyKey(tags, ACCESS_KEYS, YesOrDesignated))
  }

  /** A road has a bus lane iff one of the listed keys carries a value of its scheme;
      nothing else (`highway=busway` in particular) counts. */
  lemma RoadHasBusLaneIff(tags: Tags)
    ensures RoadHasBusLane(tags) <==>
      || (exists k :: 0 <= k < |BUSWAY_KEYS| && Matches(tags, BUSWAY_KEYS[k], LaneOrOpposite))
      || (exists k :: 0 <= k < |LANE_COUNT_KEYS| && Matches(tags, LANE_COUNT_KEYS[k], NonZeroCount))
      || (exists k :: 0 <= k < |PER_LANE_KEYS| && Matches(tags, PER_LANE_KEYS[k], DesignatedLane))
      || (Is(tags, "access", "no") && (Matches(tags, "bus", YesOrDesignated) || Matches(tags, "psv", YesOrDesignated)))
  {
    AnyKeyExists(tags, BUSWAY_KEYS, LaneOrOpposite);
    AnyKeyExists(tags, LANE_COUNT_KEYS, NonZeroCount);
    AnyKeyExists(tags, PER_LANE_KEYS, DesignatedLane);
    AnyKeyExists(tags, ACCESS_KEYS, YesOrDesignated);
    assert ACCESS_KEYS[0] == "bus" && ACCESS_KEYS[1] == "psv";
  }

  /** Every key the detector looks at. */
  const BUS_LANE_KEYS: set<string> :=
    KeySet(BUSWAY_KEYS) + KeySet(LANE_COUNT_KEYS) + KeySet(PER_LANE_KEYS) + KeySet(ACCESS_KEYS) + {"access"}

  function KeySet(keys: seq<string>): set<string> {
    set k | k in keys
  }

  lemma {:induction false} AnyKeyAgree(t1: Tags, t2: Tags, keys: seq<string>, rule: Rule)
    requires forall k :: k in KeySet(keys) ==> Get(t1, k) == Get(t2, k)
    ensures AnyKey(t1, keys, rule) == AnyKey(t2, keys, rule)
  {
    if keys != [] {
      assert keys[0] in KeySet(keys);
      assert KeySet(keys[1..]) <= KeySet(keys);
      AnyKeyAgree(t1, t2, keys[1..], rule);
    }
  }

  /** Only the listed keys matter: two tag sets that agree on them get the same answer. */
  lemma RoadHasBusLaneOnlyListedKeys(t1: Tags, t2: Tags)
    requires forall k :: k in BUS_LANE_KEYS ==> Get(t1, k) == Get(t2, k)
    ensures RoadHasBusLane(t1) == RoadHasBusLane(t2)
  {
    AnyKeyAgree(t1, t2, BUSWAY_KEYS, LaneOrOpposite);
    AnyKeyAgree(t1, t2, LANE_COUNT_KEYS, NonZeroCount);
    AnyKeyAgree(t1, t2, PER_LANE_KEYS, DesignatedLane);
    AnyKeyAgree(t1, t2, ACCESS_KEYS, YesOrDesignated);
  }

  /** `highway=busway` on its own is deliberately not a bus lane. */
  lemma HighwayBuswayAloneIsNotABusLane()
    ensures !RoadHasBusLane(map["highway" := "busway"])
  {
    var tags := map["highway" := "busway"];
    assert "highway" !in KeySet(BUSWAY_KEYS) && "highway" !in KeySet(ACCESS_KEYS);
    assert "highway" !in KeySet(LANE_COUNT_KEYS) && "highway" !in KeySet(PER_LANE_KEYS);
    NoListedKeyNoBusLane(tags);
  }

  /** Tags that hold none of the listed keys never make a bus lane. */
  lemma NoListedKeyNoBusLane(tags: Tags)
    requires forall k :: k in tags ==> k !in BUS_LANE_KEYS
    ensures !RoadHasBusLane(tags)
  {
    var none: Tags := map[];
    RoadHasBusLaneOnlyListedKeys(tags, none);
    RoadHasBusLaneIff(none);
  }

  /** A lane-dependent restriction with one designated lane is a bus lane. */
  lemma PerLaneDesignatedIsABusLane()
    ensures RoadHasBusLane(map["bus:lanes:forward" := "yes|designated"])
  {
    var tags := map["bus:lanes:forward" := "yes|designated"];
    assert Text.OccursAt("yes|designated", "designated", 4);
    Text.ContainsIff("yes|designated", "designated");
    assert Matches(tags, PER_LANE_KEYS[4], DesignatedLane);
    RoadHasBusLaneIff(tags);
  }

  /** `onlyKeepName`: the output holds `name`, and only when the input name is non-empty. */
  function OnlyKeepName(tags: Tags): (out: Props)
    ensures out.Keys <= {"name"}
    ensures "name" in out <==> NonEmpty(tags, "name")
    ensures "name" in out ==> out["name"] == Str(tags["name"])
  {
    if NonEmpty(tags, "name") then map["name" := Str(tags["name"])] else map[]
  }

  /** `cleanUpFeature` of the education layer: `name` and the `amenity` as `type`,
      each only when non-empty. */
  function EducationProps(tags: Tags): (out: Props)
    ensures out.Keys <= {"name", "type"}
    ensures "name" in out <==> NonEmpty(tags, "name")
    ensures "type" in out <==> NonEmpty(tags, "amenity")
    ensures "name" in out ==> out["name"] == Str(tags["name"])
    ensures "type" in out ==> out["type"] == Str(tags["amenity"])
  {
    var withName := if NonEmpty(tags, "name") then map["name" := Str(tags["name"])] else map[];
    if NonEmpty(tags, "amenity") then withName["type" := Str(tags["amenity"])] else withName
  }

  /** The bus-route `fixProps`. */
  function BusRouteProps(tags: Tags): (out: Props)
    ensures out.Keys <= {"has_bus_lane"}
    ensures "has_bus_lane" in out <==> RoadHasBusLane(tags)
    ensures "has_bus_lane" in out ==> out["has_bus_lane"] == Bool(true)
  {
    var outputProps: Props := map[];
    if RoadHasBusLane(tags) then outputProps["has_bus_lane" := Bool(true)] else outputProps
  }

  /** The cycle-parking `fixProps`: `int()` of the capacity; a missing or unparsable
      capacity is swallowed and leaves the output empty, so it never raises. */
  function CycleParkingProps(tags: Tags): (out: Props)
    ensures out.Keys <= {"capacity"}
    ensures "capacity" in out <==> "capacity" in tags && Text.ParseInt(tags["capacity"]).Some?
    ensures "capacity" in out ==> out["capacity"] == Int(Text.ParseInt(tags["capacity"]).value)
  {
    match Get(tags, "capacity")
    case None => map[]
    case Some(v) =>
      match Text.ParseInt(v)
      case None => map[]
      case Some(n) => map["capacity" := Int(n)]
  }

  /** A capacity written by `str()` of an integer is read back exactly. */
  lemma CycleParkingCapacityRoundTrip(tags: Tags, n: int)
    requires Is(tags, "capacity", Text.IntToString(n))
    ensures CycleParkingProps(tags) == map["capacity" := Int(n)]
  {
    Text.ParseIntRoundTrip(n);
  }

  /** The crossings `fixProps`: `osm_id` then `crossing` are copied inside one `try`, so a
      missing `@id` leaves the output empty and a missing `crossing` leaves only `osm_id`. */
  function CrossingProps(tags: Tags): (out: Props)
    ensures out.Keys <= {"osm_id", "crossing"}
    ensures "osm_id" in out <==> "@id" in tags
    ensures "crossing" in out <==> "@id" in tags && "crossing" in tags
    ensures "osm_id" in out ==> out["osm_id"] == Str(tags["@id"])
    ensures "crossing" in out ==> out["crossing"] == Str(tags["crossing"])
  {
    var outputProps: Props := map[];
    if "@id" !in tags then outputProps
    else
      var withId := outputProps["osm_id" := Str(tags["@id"])];
      if "crossing" !in tags then withId else withId["crossing" := Str(tags["crossing"])]
  }

  /** The trams `fixProps`: `{osm_id}`, raising KeyError without `@id`. */
  function TramProps(tags: Tags): (r: Result<Props>)
    ensures r.Ok? <==> "@id" in tags
    ensures r.Ok? ==> r.value == map["osm_id" := Str(tags["@id"])]
    ensures r.Err? ==> r.error == KeyError("@id")
  {
    var id :- Lookup(tags, "@id");
    Ok(map["osm_id" := Str(id)])
  }
}
