/** gradient/src/main.rs: reading highways from OSM data and splitting each way into
    edges at the nodes it shares with other ways (or with itself). */
module Gradient {
  import opened Outcomes
  import opened Json

  datatype Coord = Coord(x: real, y: real)

  /** A way as read: its id and node ids. */
  datatype Highway = Highway(id: int, nodeIds: seq<int>)

  /** An edge: the id of the way it came from and its points. */
  datatype Edge = Edge(wayId: int, pts: seq<Coord>)

  /** Every node reference of every way, in order. */
  function AllRefs(ways: seq<Highway>): seq<int> {
    if ways == [] then [] else AllRefs(ways[..|ways| - 1]) + ways[|ways| - 1].nodeIds
  }

  /** The counter after counting the references of `refs`. */
  function CountRefs(m: map<int, nat>, refs: seq<int>): map<int, nat> {
    if refs == [] then m
    else
      var m' := CountRefs(m, refs[..|refs| - 1]);
      var n := refs[|refs| - 1];
      m'[n := (if n in m' then m'[n] else 0) + 1]
  }

  /** Counting from an empty counter gives, for each node, the number of times it is
      referenced. */
  lemma {:induction false} CountRefsMeaning(refs: seq<int>)
    ensures forall n :: n in CountRefs(map[], refs) <==> n in refs
    ensures forall n :: n in CountRefs(map[], refs) ==> CountRefs(map[], refs)[n] == multiset(refs)[n]
  {
    if refs != [] {
      var init := refs[..|refs| - 1];
      CountRefsMeaning(init);
      assert refs == init + [refs[|refs| - 1]];
    }
  }

  lemma {:induction false} CountRefsAppend(m: map<int, nat>, a: seq<int>, b: seq<int>)
    ensures CountRefs(m, a + b) == CountRefs(CountRefs(m, a), b)
    decreases |b|
  {
    if b == [] {
      assert a + b == a;
    } else {
      assert (a + b)[..|a + b| - 1] == a + b[..|b| - 1];
      CountRefsAppend(m, a, b[..|b| - 1]);
    }
  }

  /** The inner loop of the first loop of `split_edges`: one way's references. */
  method CountWay(start: map<int, nat>, ids: seq<int>) returns (counter: map<int, nat>)
    ensures counter == CountRefs(start, ids)
  {
    counter := start;
    for j := 0 to |ids|
      invariant counter == CountRefs(start, ids[..j])
    {
      assert ids[..j + 1][..j] == ids[..j];
      counter := counter[ids[j] := (if ids[j] in counter then counter[ids[j]] else 0) + 1];
    }
    assert ids[..|ids|] == ids;
  }

  /** The first loop of `split_edges`. */
  method CountNodes(ways: seq<Highway>) returns (counter: map<int, nat>)
    ensures counter == CountRefs(map[], AllRefs(ways))
    ensures forall n :: n in counter <==> n in AllRefs(ways)
    ensures forall n :: n in counter ==> counter[n] == multiset(AllRefs(ways))[n]
  {
    counter := map[];
    for i := 0 to |ways|
      invariant counter == CountRefs(map[], AllRefs(ways[..i]))
    {
      assert ways[..i + 1][..i] == ways[..i];
      counter := CountWay(counter, ways[i].nodeIds);
      CountRefsAppend(map[], AllRefs(ways[..i]), ways[i].nodeIds);
    }
    assert ways[..|ways|] == ways;
    CountRefsMeaning(AllRefs(ways));
  }

  /** An edge may end at index `i` of the way: its first or last index, or a node that is
      referenced more than once. */
  predicate IsCut(ids: seq<int>, counter: map<int, nat>, i: int)
    requires 0 <= i < |ids|
  {
    i == 0 || i == |ids| - 1 || (ids[i] in counter && counter[ids[i]] > 1)
  }

  /** The inner loop of `split_edges` from index `idx`, with `cur` the points gathered
      so far: the node ids of the edges still to be emitted. */
  function SplitFrom(ids: seq<int>, counter: map<int, nat>, idx: nat, cur: seq<int>): seq<seq<int>>
    requires idx <= |ids|
    decreases |ids| - idx
  {
    if idx == |ids| then []
    else
      var cur' := cur + [ids[idx]];
      if IsCut(ids, counter, idx) && |cur'| > 1 then [cur'] + SplitFrom(ids, counter, idx + 1, [ids[idx]])
      else SplitFrom(ids, counter, idx + 1, cur')
  }

  function SplitWay(ids: seq<int>, counter: map<int, nat>): seq<seq<int>> {
    SplitFrom(ids, counter, 0, [])
  }

  /** The edges glued back at their shared joints: the first edge whole, then each
      later edge without its first point. */
  function Chain(es: seq<seq<int>>): seq<int> {
    if es == [] then [] else es[0] + Tails(es[1..])
  }

  function Tails(es: seq<seq<int>>): seq<int> {
    if es == [] then [] else (if es[0] == [] then [] else es[0][1..]) + Tails(es[1..])
  }

  /** `e` is the run of points from cut `a` to the next cut `b`. */
  predicate SegmentAt(ids: seq<int>, counter: map<int, nat>, e: seq<int>, a: nat, b: nat) {
    a < b < |ids| && e == ids[a..b + 1] &&
      IsCut(ids, counter, a) && IsCut(ids, counter, b) && forall i :: a < i < b ==> !IsCut(ids, counter, i)
  }

  /** An edge of the way at or after point `start`: the points from one cut to the next. */
  predicate Segment(ids: seq<int>, counter: map<int, nat>, e: seq<int>, start: nat) {
    exists a: nat, b: nat :: start <= a < b < |ids| && SegmentAt(ids, counter, e, a, b)
  }

  /** From a point `start` that is a cut, with no cut since, the rest of the way splits
      into edges that glue back to the way from `start`. */
  lemma {:induction false} SplitFromChain(ids: seq<int>, counter: map<int, nat>, idx: nat, start: nat)
    requires 0 <= start < idx <= |ids| - 1
    ensures var es := SplitFrom(ids, counter, idx, ids[start..idx]);
      && es != [] && es[0] != [] && es[0][0] == ids[start]
      && Chain(es) == ids[start..]
    decreases |ids| - idx
  {
    var es := SplitFrom(ids, counter, idx, ids[start..idx]);
    var cur' := ids[start..idx] + [ids[idx]];
    assert cur' == ids[start..idx + 1];
    if IsCut(ids, counter, idx) {
      var rest := SplitFrom(ids, counter, idx + 1, [ids[idx]]);
      assert es == [cur'] + rest;
      if idx + 1 == |ids| {
        assert rest == [];
        assert ids[start..idx + 1] == ids[start..];
      } else {
        assert [ids[idx]] == ids[idx..idx + 1];
        SplitFromChain(ids, counter, idx + 1, idx);
        assert es[1..] == rest;
        assert Chain(es) == cur' + Tails(rest);
        assert Tails(rest) == rest[0][1..] + Tails(rest[1..]);
        assert Chain(rest) == ids[idx..];
        assert Tails(rest) == Chain(rest)[1..];
        assert ids[idx..][1..] == ids[idx + 1..];
        assert ids[start..] == cur' + ids[idx + 1..];
      }
    } else {
      assert es == SplitFrom(ids, counter, idx + 1, ids[start..idx + 1]);
      SplitFromChain(ids, counter, idx + 1, start);
    }
  }

  /** Each edge runs from one cut to the next. */
  lemma {:induction false} SplitFromSegments(ids: seq<int>, counter: map<int, nat>, idx: nat, start: nat)
    requires 0 <= start < idx <= |ids| - 1
    requires IsCut(ids, counter, start)
    requires forall i :: start < i < idx ==> !IsCut(ids, counter, i)
    ensures forall e :: e in SplitFrom(ids, counter, idx, ids[start..idx]) ==> Segment(ids, counter, e, start)
    decreases |ids| - idx
  {
    var es := SplitFrom(ids, counter, idx, ids[start..idx]);
    var cur' := ids[start..idx] + [ids[idx]];
    assert cur' == ids[start..idx + 1];
    if IsCut(ids, counter, idx) {
      var rest := SplitFrom(ids, counter, idx + 1, [ids[idx]]);
      assert es == [cur'] + rest;
      assert SegmentAt(ids, counter, cur', start, idx);
      if idx + 1 < |ids| {
        assert [ids[idx]] == ids[idx..idx + 1];
        SplitFromSegments(ids, counter, idx + 1, idx);
        assert rest == SplitFrom(ids, counter, idx + 1, ids[idx..idx + 1]);
        forall e | e in rest ensures Segment(ids, counter, e, start) {
          assert Segment(ids, counter, e, idx);
          SegmentFrom(ids, counter, e, start, idx);
        }
      } else {
        assert rest == [];
      }
    } else {
      assert es == SplitFrom(ids, counter, idx + 1, ids[start..idx + 1]);
      SplitFromSegments(ids, counter, idx + 1, start);
    }
  }

  /** An edge from a later cut is an edge from an earlier one too. */
  lemma SegmentFrom(ids: seq<int>, counter: map<int, nat>, e: seq<int>, start: nat, later: nat)
    requires start <= later && Segment(ids, counter, e, later)
    ensures Segment(ids, counter, e, start)
  {
    var a: nat, b: nat :| later <= a && SegmentAt(ids, counter, e, a, b);
    assert start <= a;
  }

  /** The last point of `a` is the first point of `b`. */
  predicate Meets(a: seq<int>, b: seq<int>) {
    a != [] && b != [] && a[|a| - 1] == b[0]
  }

  /** Consecutive edges share their joint. */
  predicate Joined(es: seq<seq<int>>) {
    forall k :: 0 < k < |es| ==> Meets(es[k - 1], es[k])
  }

  lemma {:induction false} SplitFromJoints(ids: seq<int>, counter: map<int, nat>, idx: nat, start: nat)
    requires 0 <= start < idx <= |ids| - 1
    ensures Joined(SplitFrom(ids, counter, idx, ids[start..idx]))
    decreases |ids| - idx
  {
    var es := SplitFrom(ids, counter, idx, ids[start..idx]);
    var cur' := ids[start..idx] + [ids[idx]];
    assert cur' == ids[start..idx + 1];
    if IsCut(ids, counter, idx) {
      if idx + 1 < |ids| {
        assert [ids[idx]] == ids[idx..idx + 1];
        SplitFromJoints(ids, counter, idx + 1, idx);
        SplitFromChain(ids, counter, idx + 1, idx);
        assert es == [cur'] + SplitFrom(ids, counter, idx + 1, ids[idx..idx + 1]);
      }
    } else {
      assert es == SplitFrom(ids, counter, idx + 1, ids[start..idx + 1]);
      SplitFromJoints(ids, counter, idx + 1, start);
    }
  }

  /** A way of two or more nodes splits into edges from cut to cut that share their
      joints and glue back into the way; a shorter way gives no edge. */
  lemma SplitWayMeaning(ids: seq<int>, counter: map<int, nat>)
    ensures |ids| < 2 ==> SplitWay(ids, counter) == []
    ensures |ids| >= 2 ==> var es := SplitWay(ids, counter);
      && es != [] && Chain(es) == ids
      && (forall e :: e in es ==> Segment(ids, counter, e, 0))
      && Joined(es)
  {
    if |ids| >= 1 {
      assert [] + [ids[0]] == ids[0..1];
      assert SplitWay(ids, counter) == SplitFrom(ids, counter, 1, ids[0..1]);
    }
    if |ids| >= 2 {
      SplitFromChain(ids, counter, 1, 0);
      SplitFromSegments(ids, counter, 1, 0);
      SplitFromJoints(ids, counter, 1, 0);
      assert ids[0..] == ids;
    }
  }

  /** Edges are made of the way's own nodes. */
  lemma EdgeNodesInWay(ids: seq<int>, counter: map<int, nat>)
    ensures forall e, x :: e in SplitWay(ids, counter) && x in e ==> x in ids
  {
    SplitWayMeaning(ids, counter);
    forall e, x | e in SplitWay(ids, counter) && x in e ensures x in ids {
      assert Segment(ids, counter, e, 0);
      var a: nat, b: nat :| SegmentAt(ids, counter, e, a, b);
    }
  }

  /** Every edge has at least two points. */
  lemma EdgesHaveTwoPoints(ids: seq<int>, counter: map<int, nat>)
    ensures forall e :: e in SplitWay(ids, counter) ==> |e| >= 2
  {
    SplitWayMeaning(ids, counter);
    if |ids| >= 2 {
      var es := SplitWay(ids, counter);
      forall e | e in es ensures |e| >= 2 {
        assert Segment(ids, counter, e, 0);
      }
    }
  }

  /** The coordinates of `ids`, each looked up in the node table; a missing node panics. */
  function Coords(mapping: map<int, Coord>, ids: seq<int>): (r: Result<seq<Coord>>)
    ensures r.Ok? <==> forall i :: 0 <= i < |ids| ==> ids[i] in mapping
    ensures r.Ok? ==> |r.value| == |ids| && forall i :: 0 <= i < |ids| ==> r.value[i] == mapping[ids[i]]
    ensures r.Err? ==> r == Err(Panic("unknown node"))
  {
    if ids == [] then Ok([])
    else
      var init :- Coords(mapping, ids[..|ids| - 1]);
      var last := ids[|ids| - 1];
      if last in mapping then Ok(init + [mapping[last]]) else Err(Panic("unknown node"))
  }

  /** The edges of the ways, way by way, each with its way's id. */
  function AllEdges(mapping: map<int, Coord>, ways: seq<Highway>, counter: map<int, nat>): Result<seq<Edge>> {
    if ways == [] then Ok([])
    else
      var before :- AllEdges(mapping, ways[..|ways| - 1], counter);
      var w := ways[|ways| - 1];
      var mine :- WayEdges(mapping, w, counter);
      Ok(before + mine)
  }

  /** The edges with node ids `es`, each turned into coordinates. */
  function EdgesOf(mapping: map<int, Coord>, id: int, es: seq<seq<int>>): (r: Result<seq<Edge>>)
    ensures r.Ok? ==> |r.value| == |es|
  {
    if es == [] then Ok([])
    else
      var before :- EdgesOf(mapping, id, es[..|es| - 1]);
      var pts :- Coords(mapping, es[|es| - 1]);
      Ok(before + [Edge(id, pts)])
  }

  /** The edges of one way. Every node of the way is looked up, so a way whose nodes
      are not all known panics even when it gives no edge. */
  function WayEdges(mapping: map<int, Coord>, w: Highway, counter: map<int, nat>): Result<seq<Edge>> {
    if forall i :: 0 <= i < |w.nodeIds| ==> w.nodeIds[i] in mapping then EdgesOf(mapping, w.id, SplitWay(w.nodeIds, counter))
    else Err(Panic("unknown node"))
  }

  lemma {:induction false} EdgesOfMeaning(mapping: map<int, Coord>, id: int, es: seq<seq<int>>)
    requires forall k, i :: 0 <= k < |es| && 0 <= i < |es[k]| ==> es[k][i] in mapping
    ensures EdgesOf(mapping, id, es).Ok?
    ensures forall k :: 0 <= k < |es| ==> EdgesOf(mapping, id, es).value[k] == Edge(id, Coords(mapping, es[k]).value)
  {
    if es != [] {
      var init := es[..|es| - 1];
      EdgesOfMeaning(mapping, id, init);
      assert forall k :: 0 <= k < |init| ==> init[k] == es[k];
    }
  }

  /** A way panics exactly when one of its nodes is unknown; otherwise it gives one edge
      per piece of `SplitWay`, each with the way's id and its nodes' coordinates. */
  lemma WayEdgesMeaning(mapping: map<int, Coord>, w: Highway, counter: map<int, nat>)
    ensures WayEdges(mapping, w, counter).Ok? <==> forall i :: 0 <= i < |w.nodeIds| ==> w.nodeIds[i] in mapping
    ensures WayEdges(mapping, w, counter).Err? ==> WayEdges(mapping, w, counter) == Err(Panic("unknown node"))
    ensures WayEdges(mapping, w, counter).Ok? ==>
      var es := SplitWay(w.nodeIds, counter);
      var edges := WayEdges(mapping, w, counter).value;
      |edges| == |es| &&
      forall k :: 0 <= k < |es| ==>
        (edges[k].wayId == w.id && |edges[k].pts| == |es[k]| >= 2 &&
         forall i :: 0 <= i < |es[k]| ==> es[k][i] in mapping && edges[k].pts[i] == mapping[es[k][i]])
  {
    var ids := w.nodeIds;
    if forall i :: 0 <= i < |ids| ==> ids[i] in mapping {
      var es := SplitWay(ids, counter);
      EdgeNodesInWay(ids, counter);
      EdgesHaveTwoPoints(ids, counter);
      forall k, i | 0 <= k < |es| && 0 <= i < |es[k]| ensures es[k][i] in mapping {
        assert es[k] in es && es[k][i] in es[k];
        var j :| 0 <= j < |ids| && ids[j] == es[k][i];
      }
      EdgesOfMeaning(mapping, w.id, es);
      forall k | 0 <= k < |es| ensures |es[k]| >= 2 {
        assert es[k] in es;
      }
    }
  }

  lemma CoordsSnoc(mapping: map<int, Coord>, cur: seq<int>, node: int)
    requires Coords(mapping, cur).Ok? && node in mapping
    ensures Coords(mapping, cur + [node]) == Ok(Coords(mapping, cur).value + [mapping[node]])
  {
    assert (cur + [node])[..|cur|] == cur;
  }

  lemma CoordsSingle(mapping: map<int, Coord>, node: int)
    requires node in mapping
    ensures Coords(mapping, [node]) == Ok([mapping[node]])
  {
    var none: seq<int> := [];
    assert [node][..0] == none;
    assert Coords(mapping, none) == Ok([]);
    var c: seq<Coord> := [];
    assert c + [mapping[node]] == [mapping[node]];
    assert Coords(mapping, [node]) == Ok(c + [mapping[node]]);
  }

  lemma SplitFromStep(ids: seq<int>, counter: map<int, nat>, idx: nat, cur: seq<int>)
    requires idx < |ids|
    ensures IsCut(ids, counter, idx) && |cur| > 0 ==>
      SplitFrom(ids, counter, idx, cur) == [cur + [ids[idx]]] + SplitFrom(ids, counter, idx + 1, [ids[idx]])
    ensures !(IsCut(ids, counter, idx) && |cur| > 0) ==>
      SplitFrom(ids, counter, idx, cur) == SplitFrom(ids, counter, idx + 1, cur + [ids[idx]])
  {
  }

  lemma EdgesOfSnoc(mapping: map<int, Coord>, id: int, es: seq<seq<int>>, e: seq<int>)
    requires EdgesOf(mapping, id, es).Ok? && Coords(mapping, e).Ok?
    ensures EdgesOf(mapping, id, es + [e]) == Ok(EdgesOf(mapping, id, es).value + [Edge(id, Coords(mapping, e).value)])
  {
    assert (es + [e])[..|es|] == es;
  }

  /** The state of the loop of `SplitOneWay` after the nodes before `idx`: the edges
      emitted so far with their node ids, and the pending points with theirs. */
  predicate Progress(mapping: map<int, Coord>, w: Highway, counter: map<int, nat>, idx: nat,
                     emitted: seq<seq<int>>, cur: seq<int>, edges: seq<Edge>, pts: seq<Coord>)
  {
    && idx <= |w.nodeIds|
    && emitted + SplitFrom(w.nodeIds, counter, idx, cur) == SplitWay(w.nodeIds, counter)
    && (forall i :: 0 <= i < idx ==> w.nodeIds[i] in mapping)
    && Coords(mapping, cur) == Ok(pts)
    && EdgesOf(mapping, w.id, emitted) == Ok(edges)
  }

  /** One turn of the loop keeps `Progress`. */
  lemma ProgressStep(mapping: map<int, Coord>, w: Highway, counter: map<int, nat>, idx: nat,
                     emitted: seq<seq<int>>, cur: seq<int>, edges: seq<Edge>, pts: seq<Coord>)
    requires idx < |w.nodeIds| && w.nodeIds[idx] in mapping
    requires Progress(mapping, w, counter, idx, emitted, cur, edges, pts)
    ensures var node := w.nodeIds[idx];
      var cur', pts' := cur + [node], pts + [mapping[node]];
      if IsCut(w.nodeIds, counter, idx) && |pts'| > 1
      then Progress(mapping, w, counter, idx + 1, emitted + [cur'], [node], edges + [Edge(w.id, pts')], [mapping[node]])
      else Progress(mapping, w, counter, idx + 1, emitted, cur', edges, pts')
  {
    var ids, node := w.nodeIds, w.nodeIds[idx];
    var cur', pts' := cur + [node], pts + [mapping[node]];
    SplitFromStep(ids, counter, idx, cur);
    CoordsSnoc(mapping, cur, node);
    if IsCut(ids, counter, idx) && |pts'| > 1 {
      EdgesOfSnoc(mapping, w.id, emitted, cur');
      assert (emitted + [cur']) + SplitFrom(ids, counter, idx + 1, [node]) == emitted + ([cur'] + SplitFrom(ids, counter, idx + 1, [node]));
      CoordsSingle(mapping, node);
    }
  }

  /** The second loop of `split_edges` for one way: points are pushed one by one and an
      edge is taken at each cut once it has two points. */
  method SplitOneWay(mapping: map<int, Coord>, w: Highway, counter: map<int, nat>) returns (r: Result<seq<Edge>>)
    ensures r == WayEdges(mapping, w, counter)
  {
    var ids := w.nodeIds;
    var edges: seq<Edge> := [];
    var pts: seq<Coord> := [];
    ghost var cur: seq<int> := [];
    ghost var emitted: seq<seq<int>> := [];
    var numNodes := |ids|;
    for idx := 0 to numNodes
      invariant Progress(mapping, w, counter, idx, emitted, cur, edges, pts)
    {
      var node := ids[idx];
      if node !in mapping {
        assert !(forall i :: 0 <= i < |ids| ==> ids[i] in mapping);
        return Err(Panic("unknown node"));
      }
      ProgressStep(mapping, w, counter, idx, emitted, cur, edges, pts);
      pts := pts + [mapping[node]];
      cur := cur + [node];
      var isEndpoint := idx == 0 || idx == numNodes - 1 || (node in counter && counter[node] > 1);
      if isEndpoint && |pts| > 1 {
        edges := edges + [Edge(w.id, pts)];
        emitted := emitted + [cur];
        pts := [mapping[node]];
        cur := [node];
      }
    }
    assert emitted == SplitWay(ids, counter);
    r := Ok(edges);
  }

  /** `split_edges`: count the references, then split every way in order. */
  method SplitEdges(mapping: map<int, Coord>, ways: seq<Highway>) returns (r: Result<seq<Edge>>)
    ensures forall n :: n in AllRefs(ways) ==> n in CountRefs(map[], AllRefs(ways))
    ensures r == AllEdges(mapping, ways, CountRefs(map[], AllRefs(ways)))
  {
    var counter := CountNodes(ways);
    r := SplitAll(mapping, ways, counter);
  }

  /** The second loop of `split_edges`, over the ways in order. */
  method SplitAll(mapping: map<int, Coord>, ways: seq<Highway>, counter: map<int, nat>) returns (r: Result<seq<Edge>>)
    ensures r == AllEdges(mapping, ways, counter)
  {
    var edges: seq<Edge> := [];
    for i := 0 to |ways|
      invariant AllEdges(mapping, ways[..i], counter) == Ok(edges)
    {
      var mine := SplitOneWay(mapping, ways[i], counter);
      AllEdgesSnoc(mapping, ways, counter, i);
      if mine.Err? {
        AllEdgesFailFrom(mapping, ways, counter, i + 1);
        return mine;
      }
      edges := edges + mine.value;
    }
    assert ways[..|ways|] == ways;
    r := Ok(edges);
  }

  /** One way more: its edges follow those of the ways before it. */
  lemma AllEdgesSnoc(mapping: map<int, Coord>, ways: seq<Highway>, counter: map<int, nat>, i: nat)
    requires i < |ways| && AllEdges(mapping, ways[..i], counter).Ok?
    ensures WayEdges(mapping, ways[i], counter).Err? ==>
      AllEdges(mapping, ways[..i + 1], counter) == Err(WayEdges(mapping, ways[i], counter).error)
    ensures WayEdges(mapping, ways[i], counter).Ok? ==>
      AllEdges(mapping, ways[..i + 1], counter) ==
        Ok(AllEdges(mapping, ways[..i], counter).value + WayEdges(mapping, ways[i], counter).value)
  {
    assert ways[..i + 1][..i] == ways[..i];
  }

  lemma {:induction false} AllEdgesFailFrom(mapping: map<int, Coord>, ways: seq<Highway>, counter: map<int, nat>, i: nat)
    requires i <= |ways| && AllEdges(mapping, ways[..i], counter).Err?
    ensures AllEdges(mapping, ways, counter) == AllEdges(mapping, ways[..i], counter)
    decreases |ways| - i
  {
    if i < |ways| {
      assert ways[..i + 1][..i] == ways[..i];
      AllEdgesFailFrom(mapping, ways, counter, i + 1);
    } else {
      assert ways[..i] == ways;
    }
  }

  /** An element of the OSM stream, in file order. */
  datatype Element =
    | NodeElem(id: int, pt: Coord)
    | WayElem(id: int, nodeIds: seq<int>, tags: Tags)
    | Other

  /** `scrape_osm` keeps ways tagged `highway` that are not `area=yes`. */
  predicate IsHighway(tags: Tags) {
    "highway" in tags && !Is(tags, "area", "yes")
  }

  /** The highways among `elems`, in order. */
  function Highways(elems: seq<Element>): (hs: seq<Highway>)
    ensures |hs| <= |elems|
  {
    if elems == [] then []
    else
      var e := elems[|elems| - 1];
      Highways(elems[..|elems| - 1]) + (if e.WayElem? && IsHighway(e.tags) then [Highway(e.id, e.nodeIds)] else [])
  }

  /** Only highway ways are collected, and each of them is. */
  lemma {:induction false} HighwaysMeaning(elems: seq<Element>)
    ensures forall h :: h in Highways(elems) <==>
      exists i :: 0 <= i < |elems| && elems[i].WayElem? && IsHighway(elems[i].tags) && h == Highway(elems[i].id, elems[i].nodeIds)
  {
    if elems != [] {
      var init := elems[..|elems| - 1];
      HighwaysMeaning(init);
      assert forall i :: 0 <= i < |init| ==> init[i] == elems[i];
    }
  }

  /** The node table: a later node with the same id replaces an earlier one. */
  function NodeTable(elems: seq<Element>): map<int, Coord> {
    if elems == [] then map[]
    else
      var e := elems[|elems| - 1];
      var m := NodeTable(elems[..|elems| - 1]);
      if e.NodeElem? then m[e.id := e.pt] else m
  }

  /** `scrape_osm`: gather the node table and the highways, then split. */
  method ScrapeOsm(elems: seq<Element>) returns (r: Result<seq<Edge>>)
    ensures r == AllEdges(NodeTable(elems), Highways(elems), CountRefs(map[], AllRefs(Highways(elems))))
  {
    var nodeMapping: map<int, Coord> := map[];
    var highways: seq<Highway> := [];
    for i := 0 to |elems|
      invariant nodeMapping == NodeTable(elems[..i]) && highways == Highways(elems[..i])
    {
      assert elems[..i + 1][..i] == elems[..i];
      match elems[i]
      case NodeElem(id, pt) =>
        nodeMapping := nodeMapping[id := pt];
      case WayElem(id, nodeIds, tags) =>
        if "highway" in tags && Get(tags, "area") != Some("yes") {
          highways := highways + [Highway(id, nodeIds)];
        }
      case Other =>
    }
    assert elems[..|elems|] == elems;
    r := SplitEdges(nodeMapping, highways);
  }
}
