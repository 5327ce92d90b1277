/** The cycle-infrastructure classifier of layers/cycle_paths.py: from the tags of an
    OSM way, decide whether it carries a cycle track, a painted lane or a shared-use
    path, and read off its width and the direction cyclists may ride it. */
module CyclePaths {
  import opened Outcomes
  import opened Json

  datatype Kind = Track | Lane | SharedUseSegregated | SharedUseUnsegregated

  /** Direction for cyclist traffic, unrelated to the one-way status of the road. */
  datatype Direction = OneWay | TwoWay | Unknown

  /** The dictionary `getProps` returns for a way with cycle infrastructure. The width
      is the tag value as written (metres, unparsed) or "unknown". */
  datatype CycleInfra = CycleInfra(kind: Kind, osmId: string, width: string, direction: Direction)

  function KindName(k: Kind): string {
    match k
    case Track => "track"
    case Lane => "lane"
    case SharedUseSegregated => "shared_use_segregated"
    case SharedUseUnsegregated => "shared_use_unsegregated"
  }

  function DirectionName(d: Direction): string {
    match d
    case OneWay => "one-way"
    case TwoWay => "two-way"
    case Unknown => "unknown"
  }

  /** The output dictionary as the layer writes it. */
  function AsTags(c: CycleInfra): Tags {
    map["kind" := KindName(c.kind), "osm_id" := c.osmId, "width" := c.width, "direction" := DirectionName(c.direction)]
  }

  /** The value of the first key of `keys` whose tag is present and non-empty. */
  function FirstNonEmpty(tags: Tags, keys: seq<string>): (r: Option<string>)
    ensures r.Some? ==> exists k :: 0 <= k < |keys| && NonEmpty(tags, keys[k]) && r.value == tags[keys[k]]
                                    && forall j :: 0 <= j < k ==> !NonEmpty(tags, keys[j])
    ensures r.None? <==> forall k :: 0 <= k < |keys| ==> !NonEmpty(tags, keys[k])
  {
    if keys == [] then None
    else if NonEmpty(tags, keys[0]) then
      Some(tags[keys[0]])
    else
      var r := FirstNonEmpty(tags, keys[1..]);
      assert forall k :: 1 <= k < |keys| ==> keys[k] == keys[1..][k - 1];
      if r.Some? then
        var k :| 0 <= k < |keys[1..]| && NonEmpty(tags, keys[1..][k]) && r.value == tags[keys[1..][k]]
                 && forall j :: 0 <= j < k ==> !NonEmpty(tags, keys[1..][j]);
        assert forall j :: 0 <= j < k + 1 ==> !NonEmpty(tags, keys[j]);
        r
      else r
  }

  /** `getSeparateWayWidth`: `width`, else `est_width`, else "unknown". */
  function SeparateWayWidth(tags: Tags): string {
    FirstNonEmpty(tags, ["width", "est_width"]).GetOr("unknown")
  }

  /** `getSeparateWayDirection`: read off `oneway`. */
  function SeparateWayDirection(tags: Tags): (d: Direction)
    ensures d == OneWay <==> Is(tags, "oneway", "yes")
    ensures d == TwoWay <==> Is(tags, "oneway", "no")
  {
    if Is(tags, "oneway", "yes") then OneWay
    else if Is(tags, "oneway", "no") then TwoWay
    else Unknown
  }

  /** `valueIndicatesLane`: a truthy value other than no, separate and share_busway. */
  predicate ValueIndicatesLane(tags: Tags, key: string) {
    NonEmpty(tags, key) && tags[key] != "no" && tags[key] != "separate" && tags[key] != "share_busway"
  }

  /** `"cycleway" + suffix` for the suffixes "", ":left", ":right" and ":both", in scan order. */
  const LANE_KEYS: seq<string> := ["cycleway", "cycleway:left", "cycleway:right", "cycleway:both"]

  /** For the same suffixes, the pair (`:width`, `:est_width`) of width keys. */
  const LANE_WIDTH_KEYS: seq<(string, string)> := [
    ("cycleway:width", "cycleway:est_width"),
    ("cycleway:left:width", "cycleway:left:est_width"),
    ("cycleway:right:width", "cycleway:right:est_width"),
    ("cycleway:both:width", "cycleway:both:est_width")]

  /** The early-return scan of `hasLane` over the remaining keys. */
  predicate AnyLane(tags: Tags, keys: seq<string>) {
    keys != [] && (ValueIndicatesLane(tags, keys[0]) || AnyLane(tags, keys[1..]))
  }

  /** `hasLane`. */
  predicate HasLane(tags: Tags) {
    AnyLane(tags, LANE_KEYS)
  }

  /** A lane is present iff one of `cycleway`, `cycleway:left`, `cycleway:right` and
      `cycleway:both` indicates one. */
  lemma HasLaneIff(tags: Tags)
    ensures HasLane(tags) <==>
      ValueIndicatesLane(tags, "cycleway") || ValueIndicatesLane(tags, "cycleway:left") ||
      ValueIndicatesLane(tags, "cycleway:right") || ValueIndicatesLane(tags, "cycleway:both")
  {
    var s := LANE_KEYS;
    assert s[1..] == ["cycleway:left", "cycleway:right", "cycleway:both"];
    assert s[1..][1..] == ["cycleway:right", "cycleway:both"];
    assert s[1..][1..][1..] == ["cycleway:both"];
    assert s[1..][1..][1..][1..] == [];
    assert AnyLane(tags, s[1..][1..][1..]) == ValueIndicatesLane(tags, "cycleway:both");
    assert AnyLane(tags, s[1..][1..]) == (ValueIndicatesLane(tags, "cycleway:right") || AnyLane(tags, s[1..][1..][1..]));
    assert AnyLane(tags, s[1..]) == (ValueIndicatesLane(tags, "cycleway:left") || AnyLane(tags, s[1..][1..]));
  }

  /** The nested scan of `getLaneWidth`: for each suffix, `:width` then `:est_width`. */
  function ScanLaneWidth(tags: Tags, pairs: seq<(string, string)>): Option<string> {
    if pairs == [] then None
    else if NonEmpty(tags, pairs[0].0) then Some(tags[pairs[0].0])
    else if NonEmpty(tags, pairs[0].1) then Some(tags[pairs[0].1])
    else ScanLaneWidth(tags, pairs[1..])
  }

  /** The keys the nested scan visits, in order. */
  function Flatten(pairs: seq<(string, string)>): (keys: seq<string>)
    ensures |keys| == 2 * |pairs|
  {
    if pairs == [] then [] else [pairs[0].0, pairs[0].1] + Flatten(pairs[1..])
  }

  /** `getLaneWidth`. */
  function LaneWidth(tags: Tags): string {
    ScanLaneWidth(tags, LANE_WIDTH_KEYS).GetOr("unknown")
  }

  lemma {:induction false} ScanLaneWidthFirst(tags: Tags, pairs: seq<(string, string)>)
    ensures ScanLaneWidth(tags, pairs) == FirstNonEmpty(tags, Flatten(pairs))
  {
    if pairs != [] {
      var keys := Flatten(pairs);
      assert keys[0] == pairs[0].0 && keys[1] == pairs[0].1;
      assert keys[1..][1..] == Flatten(pairs[1..]);
      ScanLaneWidthFirst(tags, pairs[1..]);
    }
  }

  /** The eight lane-width tags the nested scan visits, in order. */
  lemma LaneWidthKeysFlat()
    ensures Flatten(LANE_WIDTH_KEYS) == [
      "cycleway:width", "cycleway:est_width", "cycleway:left:width", "cycleway:left:est_width",
      "cycleway:right:width", "cycleway:right:est_width", "cycleway:both:width", "cycleway:both:est_width"]
  {
    var s := LANE_WIDTH_KEYS;
    assert s[1..][1..][1..][1..] == [];
    assert Flatten(s[1..][1..][1..]) == ["cycleway:both:width", "cycleway:both:est_width"];
    assert Flatten(s[1..][1..]) == ["cycleway:right:width", "cycleway:right:est_width"] + Flatten(s[1..][1..][1..]);
    assert Flatten(s[1..]) == ["cycleway:left:width", "cycleway:left:est_width"] + Flatten(s[1..][1..]);
  }

  /** `getLaneWidth` returns the first non-empty of the eight lane-width tags in their
      fixed order, or "unknown" when none is set. */
  lemma LaneWidthFirstNonEmpty(tags: Tags)
    ensures Flatten(LANE_WIDTH_KEYS) == [
      "cycleway:width", "cycleway:est_width", "cycleway:left:width", "cycleway:left:est_width",
      "cycleway:right:width", "cycleway:right:est_width", "cycleway:both:width", "cycleway:both:est_width"]
    ensures LaneWidth(tags) == FirstNonEmpty(tags, Flatten(LANE_WIDTH_KEYS)).GetOr("unknown")
  {
    LaneWidthKeysFlat();
    ScanLaneWidthFirst(tags, LANE_WIDTH_KEYS);
  }

  /** `getSeparateWayWidth` prefers `width`, then `est_width`, then "unknown". */
  lemma SeparateWayWidthOrder(tags: Tags)
    ensures NonEmpty(tags, "width") ==> SeparateWayWidth(tags) == tags["width"]
    ensures !NonEmpty(tags, "width") && NonEmpty(tags, "est_width") ==> SeparateWayWidth(tags) == tags["est_width"]
    ensures !NonEmpty(tags, "width") && !NonEmpty(tags, "est_width") ==> SeparateWayWidth(tags) == "unknown"
  {
    var keys := ["width", "est_width"];
    assert keys[0] == "width" && keys[1] == "est_width";
    var r := FirstNonEmpty(tags, keys);
    if r.Some? {
      var k :| 0 <= k < |keys| && NonEmpty(tags, keys[k]) && r.value == tags[keys[k]]
               && forall j :: 0 <= j < k ==> !NonEmpty(tags, keys[j]);
      assert k == 0 || k == 1;
    }
  }

  /** `getLaneDirection`: lanes on both sides, a contraflow exemption or a two-way
      side lane make it two-way; nothing here ever concludes one-way. */
  function LaneDirection(tags: Tags): Direction {
    if ValueIndicatesLane(tags, "cycleway:both") then TwoWay
    else if ValueIndicatesLane(tags, "cycleway:left") && ValueIndicatesLane(tags, "cycleway:right") then TwoWay
    else if Is(tags, "oneway:bicycle", "no") then TwoWay
    else if Is(tags, "cycleway:left:oneway", "no") || Is(tags, "cycleway:right:oneway", "no") then TwoWay
    else Unknown
  }

  lemma LaneDirectionCases(tags: Tags)
    ensures LaneDirection(tags) != OneWay
    ensures LaneDirection(tags) == TwoWay <==>
      || ValueIndicatesLane(tags, "cycleway:both")
      || (ValueIndicatesLane(tags, "cycleway:left") && ValueIndicatesLane(tags, "cycleway:right"))
      || Is(tags, "oneway:bicycle", "no")
      || Is(tags, "cycleway:left:oneway", "no") || Is(tags, "cycleway:right:oneway", "no")
  {
  }

  /** `getSharedUseKind`: unknown segregation is pessimistically unsegregated. */
  function SharedUseKind(tags: Tags): (k: Kind)
    ensures k == SharedUseSegregated || k == SharedUseUnsegregated
    ensures k == SharedUseSegregated <==> Is(tags, "segregated", "yes")
  {
    if Is(tags, "segregated", "yes") then SharedUseSegregated else SharedUseUnsegregated
  }

  predicate YesOrDesignated(tags: Tags, key: string) {
    Is(tags, key, "yes") || Is(tags, key, "designated")
  }

  /** `getProps`: `None` for a way without cycle infrastructure; a missing `@id` on a
      classified way, or a missing `highway` once the first two branches fail, raises. */
  function GetProps(tags: Tags): Result<Option<CycleInfra>> {
    if Is(tags, "highway", "cycleway") then
      var kind := if YesOrDesignated(tags, "foot") || NonEmpty(tags, "segregated") then SharedUseKind(tags) else Track;
      var id :- Lookup(tags, "@id");
      Ok(Some(CycleInfra(kind, id, SeparateWayWidth(tags), SeparateWayDirection(tags))))
    else if HasLane(tags) then
      var id :- Lookup(tags, "@id");
      Ok(Some(CycleInfra(Lane, id, LaneWidth(tags), LaneDirection(tags))))
    else
      var highway :- Lookup(tags, "highway");
      if highway in ["footway", "pedestrian", "path", "track"] then
        if !YesOrDesignated(tags, "bicycle") then Ok(None)
        else
          var id :- Lookup(tags, "@id");
          Ok(Some(CycleInfra(SharedUseKind(tags), id, SeparateWayWidth(tags), SeparateWayDirection(tags))))
      else Ok(None)
  }

  /** When `getProps` raises, and that it raises only for the two keys it indexes. */
  lemma GetPropsErrors(tags: Tags)
    ensures GetProps(tags).Err? ==> GetProps(tags).error == KeyError("@id") || GetProps(tags).error == KeyError("highway")
    ensures GetProps(tags).Err? && GetProps(tags).error == KeyError("highway") <==> "highway" !in tags && !HasLane(tags)
    ensures "@id" in tags && ("highway" in tags || HasLane(tags)) ==> GetProps(tags).Ok?
    ensures GetProps(tags) == Ok(None) ==> !HasLane(tags) && !Is(tags, "highway", "cycleway")
    ensures GetProps(tags).Ok? && GetProps(tags).value.Some? ==> GetProps(tags).value.value.osmId == tags["@id"]
  {
  }

  /** A `highway=cycleway` way is a track unless foot traffic is invited or its
      segregation is tagged; it is never a lane. */
  lemma CyclewayIsTrackOrSharedUse(tags: Tags)
    requires Is(tags, "highway", "cycleway") && "@id" in tags
    ensures GetProps(tags).Ok? && GetProps(tags).value.Some?
    ensures GetProps(tags).value.value.kind != Lane
    ensures GetProps(tags).value.value.kind == Track <==> !YesOrDesignated(tags, "foot") && !NonEmpty(tags, "segregated")
    ensures GetProps(tags).value.value.direction == SeparateWayDirection(tags)
    ensures GetProps(tags).value.value.width == SeparateWayWidth(tags)
  {
  }

  /** The lane branch comes before the footway/path branch: any other way with a lane
      indicator is a lane, whatever its highway tag. */
  lemma LaneBeforeFootway(tags: Tags)
    requires !Is(tags, "highway", "cycleway") && HasLane(tags) && "@id" in tags
    ensures GetProps(tags) == Ok(Some(CycleInfra(Lane, tags["@id"], LaneWidth(tags), LaneDirection(tags))))
  {
  }

  /** Paths without cycle permission, and every other highway without a lane, are
      not cycle infrastructure. */
  lemma NoCycleInfrastructure(tags: Tags)
    requires !Is(tags, "highway", "cycleway") && !HasLane(tags) && "highway" in tags
    ensures tags["highway"] in ["footway", "pedestrian", "path", "track"] && !YesOrDesignated(tags, "bicycle") ==> GetProps(tags) == Ok(None)
    ensures tags["highway"] !in ["footway", "pedestrian", "path", "track"] ==> GetProps(tags) == Ok(None)
    ensures GetProps(tags).Ok? && GetProps(tags).value.Some? ==>
      GetProps(tags).value.value.kind == SharedUseKind(tags) && YesOrDesignated(tags, "bicycle")
  {
  }

  /** Unit-test fixture: way 29063778. */
  lemma FixtureOneWayTrack()
    ensures
      var tags := map["highway" := "cycleway", "oneway" := "yes", "sidewalk" := "left", "@id" := "29063778"];
      GetProps(tags).Ok? && GetProps(tags).value.Some? &&
      AsTags(GetProps(tags).value.value) == map["kind" := "track", "osm_id" := "29063778", "width" := "unknown", "direction" := "one-way"]
  {
    var tags := map["highway" := "cycleway", "oneway" := "yes", "sidewalk" := "left", "@id" := "29063778"];
    assert Is(tags, "highway", "cycleway") && tags["@id"] == "29063778";
    assert !YesOrDesignated(tags, "foot") && !NonEmpty(tags, "segregated");
    assert !NonEmpty(tags, "width") && !NonEmpty(tags, "est_width");
    SeparateWayWidthOrder(tags);
    assert SeparateWayDirection(tags) == OneWay;
    assert GetProps(tags) == Ok(Some(CycleInfra(Track, "29063778", "unknown", OneWay)));
  }

  /** Unit-test fixture: way 256017834. */
  lemma FixtureSegregatedSharedUse()
    ensures
      var tags := map["bicycle" := "designated", "foot" := "designated", "highway" := "cycleway", "segregated" := "yes", "@id" := "256017834"];
      GetProps(tags).Ok? && GetProps(tags).value.Some? &&
      AsTags(GetProps(tags).value.value) == map["kind" := "shared_use_segregated", "osm_id" := "256017834", "width" := "unknown", "direction" := "unknown"]
  {
    var tags := map["bicycle" := "designated", "foot" := "designated", "highway" := "cycleway", "segregated" := "yes", "@id" := "256017834"];
    assert Is(tags, "highway", "cycleway") && tags["@id"] == "256017834";
    assert YesOrDesignated(tags, "foot") && Is(tags, "segregated", "yes");
    assert !NonEmpty(tags, "width") && !NonEmpty(tags, "est_width");
    SeparateWayWidthOrder(tags);
    assert "oneway" !in tags;
    assert GetProps(tags) == Ok(Some(CycleInfra(SharedUseSegregated, "256017834", "unknown", Unknown)));
  }
}
