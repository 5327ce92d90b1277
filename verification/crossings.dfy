/** crossings/src/main.rs: the UK crossing classifier and the pass over OSM elements
    that keeps crossing ways and nodes. */
module Crossings {
  import opened Outcomes
  import opened Json
  import Text

  datatype Crossing = Zebra | Parallel | Pelican | Puffin | Toucan | Pegasus | Uncontrolled | Signalised

  /** The `crossing_ref` values of the United Kingdom table of the OSM wiki. */
  function ClassifyRef(v: string): Option<Crossing> {
    if v == "zebra" then Some(Zebra)
    else if v == "tiger" || v == "parallel" then Some(Parallel)
    else if v == "pelican" then Some(Pelican)
    else if v == "puffin" then Some(Puffin)
    else if v == "toucan" then Some(Toucan)
    else if v == "pegasus" then Some(Pegasus)
    else None
  }

  /** The generic `crossing` values. */
  function ClassifyCrossing(v: string): Option<Crossing> {
    if v == "unmarked" then Some(Uncontrolled)
    else if v == "zebra" then Some(Zebra)
    else if v == "traffic_signals" then Some(Signalised)
    else None
  }

  /** `classify`: `crossing_ref` when present decides alone, else `crossing`, else nothing. */
  function Classify(tags: Tags): Option<Crossing> {
    if "crossing_ref" in tags then ClassifyRef(tags["crossing_ref"])
    else if "crossing" in tags then ClassifyCrossing(tags["crossing"])
    else None
  }

  /** The whole table, case by case. */
  lemma ClassifyTable(tags: Tags)
    ensures "crossing_ref" in tags ==>
      var v := tags["crossing_ref"];
      && (Classify(tags) == Some(Zebra) <==> v == "zebra")
      && (Classify(tags) == Some(Parallel) <==> v == "tiger" || v == "parallel")
      && (Classify(tags) == Some(Pelican) <==> v == "pelican")
      && (Classify(tags) == Some(Puffin) <==> v == "puffin")
      && (Classify(tags) == Some(Toucan) <==> v == "toucan")
      && (Classify(tags) == Some(Pegasus) <==> v == "pegasus")
      && (Classify(tags).None? <==> v !in {"zebra", "tiger", "parallel", "pelican", "puffin", "toucan", "pegasus"})
    ensures "crossing_ref" !in tags && "crossing" in tags ==>
      var v := tags["crossing"];
      && (Classify(tags) == Some(Uncontrolled) <==> v == "unmarked")
      && (Classify(tags) == Some(Zebra) <==> v == "zebra")
      && (Classify(tags) == Some(Signalised) <==> v == "traffic_signals")
      && (Classify(tags).None? <==> v !in {"unmarked", "zebra", "traffic_signals"})
    ensures "crossing_ref" !in tags && "crossing" !in tags ==> Classify(tags).None?
  {
  }

  /** `crossing_ref` overrides `crossing`: two tag sets with the same `crossing_ref`
      are classified alike, whatever their `crossing`. */
  lemma CrossingRefDecides(t1: Tags, t2: Tags)
    requires "crossing_ref" in t1 && "crossing_ref" in t2 && t1["crossing_ref"] == t2["crossing_ref"]
    ensures Classify(t1) == Classify(t2)
  {
  }

  /** An unlisted `crossing_ref` gives nothing even when `crossing` names a kind. */
  lemma UnknownRefHidesCrossing()
    ensures Classify(map["crossing_ref" := "other", "crossing" := "zebra"]).None?
  {
  }

  /** Parallel, Pelican, Puffin, Toucan and Pegasus come only from `crossing_ref`. */
  lemma RefOnlyKinds(tags: Tags)
    requires Classify(tags).Some? && Classify(tags).value in {Parallel, Pelican, Puffin, Toucan, Pegasus}
    ensures "crossing_ref" in tags
  {
  }

  /** `tags.is_any_key(keys, value)`. */
  predicate IsAnyKey(tags: Tags, keys: seq<string>, value: string) {
    exists i :: 0 <= i < |keys| && Is(tags, keys[i], value)
  }

  const CROSSING_KEYS: seq<string> := ["highway", "footway", "cycleway"]

  /** Ways kept for output. */
  predicate KeepWay(tags: Tags) {
    IsAnyKey(tags, CROSSING_KEYS, "crossing") || Is(tags, "footway", "traffic_island")
  }

  /** Nodes written to the output. */
  predicate KeepNode(tags: Tags) {
    IsAnyKey(tags, CROSSING_KEYS, "crossing")
  }

  /** A traffic island is kept as a way but never written as a node. */
  lemma TrafficIsland()
    ensures KeepWay(map["footway" := "traffic_island"])
    ensures !KeepNode(map["footway" := "traffic_island"])
  {
    var tags := map["footway" := "traffic_island"];
    assert !Is(tags, CROSSING_KEYS[0], "crossing") && !Is(tags, CROSSING_KEYS[1], "crossing") && !Is(tags, CROSSING_KEYS[2], "crossing");
  }

  datatype Coord = Coord(x: real, y: real)

  /** An element of the OSM stream, in file order. */
  datatype Element =
    | NodeElem(id: int, pt: Coord, tags: Tags)
    | WayElem(id: int, nodeIds: seq<int>, tags: Tags)
    | RelationElem

  datatype Node = Node(id: int, pt: Coord, tags: Tags)
  datatype Way = Way(id: int, linestring: seq<Coord>, tags: Tags)

  /** What the parse callback has gathered: every node, and the kept ways in order. */
  datatype Gathered = Gathered(nodes: map<int, Node>, ways: seq<Way>)

  /** The way's points, looked up among the nodes seen so far; `nodes[n]` panics on an
      unknown node. */
  function Points(nodes: map<int, Node>, ids: seq<int>): (r: Result<seq<Coord>>)
    ensures r.Ok? <==> forall i :: 0 <= i < |ids| ==> ids[i] in nodes
    ensures r.Ok? ==> |r.value| == |ids| && forall i :: 0 <= i < |ids| ==> r.value[i] == nodes[ids[i]].pt
    ensures r.Err? ==> r == Err(Panic("unknown node"))
  {
    if ids == [] then Ok([])
    else
      var init :- Points(nodes, ids[..|ids| - 1]);
      var last := ids[|ids| - 1];
      if last in nodes then Ok(init + [nodes[last].pt]) else Err(Panic("unknown node"))
  }

  /** The callback on one element. */
  function Step(g: Gathered, e: Element): Result<Gathered> {
    match e
    case NodeElem(id, pt, tags) => Ok(g.(nodes := g.nodes[id := Node(id, pt, tags)]))
    case WayElem(id, nodeIds, tags) =>
      var linestring :- Points(g.nodes, nodeIds);
      if KeepWay(tags) then Ok(g.(ways := g.ways + [Way(id, linestring, tags)])) else Ok(g)
    case RelationElem => Ok(g)
  }

  /** The callback over a prefix of the stream. */
  function Gather(elems: seq<Element>): Result<Gathered> {
    if elems == [] then Ok(Gathered(map[], []))
    else
      var g :- Gather(elems[..|elems| - 1]);
      Step(g, elems[|elems| - 1])
  }

  /** The ids of the nodes among `elems`. */
  function NodeIds(elems: seq<Element>): set<int> {
    set i | 0 <= i < |elems| && elems[i].NodeElem? :: elems[i].id
  }

  /** The way elements among `elems` that are kept, in order. */
  function KeptWayIds(elems: seq<Element>): seq<int> {
    if elems == [] then []
    else
      var e := elems[|elems| - 1];
      KeptWayIds(elems[..|elems| - 1]) + (if e.WayElem? && KeepWay(e.tags) then [e.id] else [])
  }

  /** After a successful pass every node is known, and the ways are exactly the kept
      way elements, in stream order, each with a kept tag set. */
  lemma {:induction false} GatherMeaning(elems: seq<Element>)
    requires Gather(elems).Ok?
    ensures Gather(elems).value.nodes.Keys == NodeIds(elems)
    ensures |Gather(elems).value.ways| == |KeptWayIds(elems)|
    ensures forall i :: 0 <= i < |Gather(elems).value.ways| ==>
      Gather(elems).value.ways[i].id == KeptWayIds(elems)[i] && KeepWay(Gather(elems).value.ways[i].tags)
  {
    if elems != [] {
      var init := elems[..|elems| - 1];
      var last := elems[|elems| - 1];
      assert Gather(init).Ok?;
      GatherMeaning(init);
      var before := Gather(init).value;
      var g := Gather(elems).value;
      assert g == Step(before, last).value;
      assert forall i :: 0 <= i < |init| ==> init[i] == elems[i];
      assert NodeIds(elems) == NodeIds(init) + (if last.NodeElem? then {last.id} else {});
      var kept := KeptWayIds(init);
      if last.WayElem? && KeepWay(last.tags) {
        assert g.ways == before.ways + [g.ways[|before.ways|]] && g.ways[|before.ways|].id == last.id;
        assert KeptWayIds(elems) == kept + [last.id];
        assert g.nodes == before.nodes;
      } else {
        assert g.ways == before.ways && KeptWayIds(elems) == kept;
      }
    }
  }

  /** After a successful prefix, the next element fails exactly when it is a way naming
      a node not seen before it. */
  lemma GatherFailsStep(elems: seq<Element>)
    requires elems != [] && Gather(elems[..|elems| - 1]).Ok?
    ensures var e := elems[|elems| - 1];
      Gather(elems).Err? <==>
        e.WayElem? && exists j :: 0 <= j < |e.nodeIds| && e.nodeIds[j] !in NodeIds(elems[..|elems| - 1])
  {
    GatherMeaning(elems[..|elems| - 1]);
  }

  /** The pass fails exactly when a way names a node not seen before it. */
  lemma {:induction false} GatherFails(elems: seq<Element>)
    ensures Gather(elems).Err? <==>
      exists i, j :: 0 <= i < |elems| && elems[i].WayElem? && 0 <= j < |elems[i].nodeIds| &&
        elems[i].nodeIds[j] !in NodeIds(elems[..i])
  {
    if elems != [] {
      var n := |elems|;
      var init := elems[..n - 1];
      GatherFails(init);
      if Gather(init).Err? {
        var i, j :| 0 <= i < |init| && init[i].WayElem? && 0 <= j < |init[i].nodeIds| &&
          init[i].nodeIds[j] !in NodeIds(init[..i]);
        assert init[i] == elems[i] && init[..i] == elems[..i];
      } else {
        GatherFailsStep(elems);
        if Gather(elems).Err? {
          var j :| 0 <= j < |elems[n - 1].nodeIds| && elems[n - 1].nodeIds[j] !in NodeIds(init);
          assert elems[n - 1].nodeIds[j] !in NodeIds(elems[..n - 1]);
        } else {
          forall i, j | 0 <= i < n && elems[i].WayElem? && 0 <= j < |elems[i].nodeIds|
            ensures elems[i].nodeIds[j] in NodeIds(elems[..i])
          {
            if i < n - 1 {
              assert init[i] == elems[i] && init[..i] == elems[..i];
            }
          }
        }
      }
    }
  }

  /** `osm_reader::parse` with the node and way callback. */
  method ParseElements(elems: seq<Element>) returns (r: Result<Gathered>)
    ensures r == Gather(elems)
  {
    var nodes: map<int, Node> := map[];
    var ways: seq<Way> := [];
    for i := 0 to |elems|
      invariant Gather(elems[..i]) == Ok(Gathered(nodes, ways))
    {
      assert elems[..i + 1][..i] == elems[..i];
      match elems[i]
      case NodeElem(id, pt, tags) =>
        nodes := nodes[id := Node(id, pt, tags)];
      case WayElem(id, nodeIds, tags) =>
        var linestring := WayPoints(nodes, nodeIds);
        if linestring.Err? {
          GatherFailsFrom(elems, i + 1);
          return Err(linestring.error);
        }
        if KeepWay(tags) {
          ways := ways + [Way(id, linestring.value, tags)];
        }
      case RelationElem =>
    }
    assert elems[..|elems|] == elems;
    r := Ok(Gathered(nodes, ways));
  }

  /** The point loop of the way callback: `nodes[n]` of each node id, in order. */
  method WayPoints(nodes: map<int, Node>, nodeIds: seq<int>) returns (r: Result<seq<Coord>>)
    ensures r == Points(nodes, nodeIds)
  {
    var linestring := [];
    for j := 0 to |nodeIds|
      invariant Points(nodes, nodeIds[..j]) == Ok(linestring)
    {
      assert nodeIds[..j + 1][..j] == nodeIds[..j];
      if nodeIds[j] !in nodes {
        PointsFailFrom(nodes, nodeIds, j);
        return Err(Panic("unknown node"));
      }
      linestring := linestring + [nodes[nodeIds[j]].pt];
    }
    assert nodeIds[..|nodeIds|] == nodeIds;
    r := Ok(linestring);
  }

  lemma PointsFailFrom(nodes: map<int, Node>, ids: seq<int>, j: nat)
    requires j < |ids| && ids[j] !in nodes
    ensures Points(nodes, ids).Err?
  {
  }

  lemma {:induction false} GatherFailsFrom(elems: seq<Element>, i: nat)
    requires i <= |elems| && Gather(elems[..i]).Err?
    ensures Gather(elems) == Gather(elems[..i])
    decreases |elems| - i
  {
    if i < |elems| {
      assert elems[..i + 1][..i] == elems[..i];
      GatherFailsFrom(elems, i + 1);
    } else {
      assert elems[..i] == elems;
    }
  }

  datatype Geometry = LineString(points: seq<Coord>) | Point(pt: Coord)

  /** One output feature with its `osm` property and its `class` property as `kind`. */
  datatype OutFeature = OutFeature(geometry: Geometry, osm: string, kind: Option<Crossing>)

  function WayFeature(w: Way): OutFeature {
    OutFeature(LineString(w.linestring), "way/" + Text.IntToString(w.id), Classify(w.tags))
  }

  function NodeFeature(n: Node): OutFeature {
    OutFeature(Point(n.pt), "node/" + Text.IntToString(n.id), Classify(n.tags))
  }

  /** The node features in the order `order`, skipping nodes that are not crossings. */
  function NodeFeatures(nodes: map<int, Node>, order: seq<int>): seq<OutFeature>
    requires forall i :: 0 <= i < |order| ==> order[i] in nodes
  {
    if order == [] then []
    else
      var n := nodes[order[|order| - 1]];
      NodeFeatures(nodes, order[..|order| - 1]) + (if KeepNode(n.tags) then [NodeFeature(n)] else [])
  }

  /** Each written node feature is that of a crossing node in the order. */
  lemma {:induction false} NodeFeaturesSound(nodes: map<int, Node>, order: seq<int>, f: OutFeature)
    requires forall i :: 0 <= i < |order| ==> order[i] in nodes
    requires f in NodeFeatures(nodes, order)
    ensures exists i :: 0 <= i < |order| && KeepNode(nodes[order[i]].tags) && f == NodeFeature(nodes[order[i]])
  {
    var last := |order| - 1;
    var init := order[..last];
    if f in NodeFeatures(nodes, init) {
      NodeFeaturesSound(nodes, init, f);
      var i :| 0 <= i < |init| && KeepNode(nodes[init[i]].tags) && f == NodeFeature(nodes[init[i]]);
      assert init[i] == order[i];
    } else {
      assert KeepNode(nodes[order[last]].tags) && f == NodeFeature(nodes[order[last]]);
    }
  }

  /** Each crossing node in the order is written. */
  lemma {:induction false} NodeFeaturesComplete(nodes: map<int, Node>, order: seq<int>, i: nat)
    requires forall i :: 0 <= i < |order| ==> order[i] in nodes
    requires i < |order| && KeepNode(nodes[order[i]].tags)
    ensures NodeFeature(nodes[order[i]]) in NodeFeatures(nodes, order)
  {
    var last := |order| - 1;
    var init := order[..last];
    if i < last {
      assert init[i] == order[i];
      NodeFeaturesComplete(nodes, init, i);
    }
  }

  /** Each written node is a crossing node, and each crossing node is written. */
  lemma NodeFeaturesMeaning(nodes: map<int, Node>, order: seq<int>)
    requires forall i :: 0 <= i < |order| ==> order[i] in nodes
    ensures forall f :: f in NodeFeatures(nodes, order) <==>
      exists i :: 0 <= i < |order| && KeepNode(nodes[order[i]].tags) && f == NodeFeature(nodes[order[i]])
  {
    forall f | f in NodeFeatures(nodes, order)
      ensures exists i :: 0 <= i < |order| && KeepNode(nodes[order[i]].tags) && f == NodeFeature(nodes[order[i]])
    {
      NodeFeaturesSound(nodes, order, f);
    }
    forall i | 0 <= i < |order| && KeepNode(nodes[order[i]].tags)
      ensures NodeFeature(nodes[order[i]]) in NodeFeatures(nodes, order)
    {
      NodeFeaturesComplete(nodes, order, i);
    }
  }

  /** The output loops: every kept way first, in order, then every crossing node in
      the order the node table is enumerated. */
  method WriteFeatures(g: Gathered, order: seq<int>) returns (out: seq<OutFeature>)
    requires Enumerates(order, g.nodes)
    ensures |out| >= |g.ways|
    ensures forall i :: 0 <= i < |g.ways| ==> out[i] == WayFeature(g.ways[i])
    ensures out[|g.ways|..] == NodeFeatures(g.nodes, order)
  {
    var ways := WriteWays(g.ways);
    var nodes := WriteNodes(g.nodes, order);
    out := ways + nodes;
    assert out[|g.ways|..] == nodes;
  }

  /** `f` applied to each element, in order. */
  function Map<A, B>(f: A -> B, xs: seq<A>): seq<B> {
    if xs == [] then [] else Map(f, xs[..|xs| - 1]) + [f(xs[|xs| - 1])]
  }

  lemma {:induction false} MapAt<A, B>(f: A -> B, xs: seq<A>)
    ensures |Map(f, xs)| == |xs|
    ensures forall i :: 0 <= i < |xs| ==> Map(f, xs)[i] == f(xs[i])
  {
    if xs != [] {
      var init := xs[..|xs| - 1];
      MapAt(f, init);
      assert forall i :: 0 <= i < |init| ==> init[i] == xs[i];
    }
  }

  /** The way loop of the writer: one feature per kept way, in order. */
  method WriteWays(ways: seq<Way>) returns (out: seq<OutFeature>)
    ensures |out| == |ways|
    ensures forall i :: 0 <= i < |ways| ==> out[i] == WayFeature(ways[i])
  {
    out := [];
    for i := 0 to |ways|
      invariant out == Map(WayFeature, ways[..i])
    {
      assert ways[..i + 1][..i] == ways[..i];
      out := out + [WayFeature(ways[i])];
    }
    assert ways[..|ways|] == ways;
    MapAt(WayFeature, ways);
  }

  /** The node loop of the writer: the crossing nodes in `order`. */
  method WriteNodes(nodes: map<int, Node>, order: seq<int>) returns (out: seq<OutFeature>)
    requires forall i :: 0 <= i < |order| ==> order[i] in nodes
    ensures out == NodeFeatures(nodes, order)
  {
    out := [];
    for i := 0 to |order|
      invariant out == NodeFeatures(nodes, order[..i])
    {
      assert order[..i + 1][..i] == order[..i];
      var node := nodes[order[i]];
      if !KeepNode(node.tags) {
        continue;
      }
      out := out + [NodeFeature(node)];
    }
    assert order[..|order|] == order;
  }

  /** Every crossing node of the table is written, whatever the enumeration order. */
  lemma {:induction false} NodeFeaturesOnce(nodes: map<int, Node>, order: seq<int>, id: int)
    requires Enumerates(order, nodes)
    requires id in nodes && KeepNode(nodes[id].tags)
    ensures NodeFeature(nodes[id]) in NodeFeatures(nodes, order)
  {
    NodeFeaturesMeaning(nodes, order);
    var i :| 0 <= i < |order| && order[i] == id;
  }
}
