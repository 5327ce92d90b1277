/** osm_routes/src/main.rs: cycle route relations turned into multi-linestrings by
    gluing their member ways end to end. */
module OsmRoutes {
  import opened Outcomes
  import opened Json

  function Reverse<P>(s: seq<P>): (r: seq<P>)
    ensures |r| == |s| && forall i :: 0 <= i < |s| ==> r[i] == s[|s| - 1 - i]
  {
    if s == [] then [] else Reverse(s[1..]) + [s[0]]
  }

  /** How a way joins a piece, checked in this order. */
  datatype Join = FirstFirst | FirstLast | LastFirst | LastLast

  /** The first end of `piece` that meets an end of `pts`, in the order the source tests
      them; both are non-empty. */
  function JoinOf<P(==)>(piece: seq<P>, pts: seq<P>): Option<Join>
    requires piece != [] && pts != []
  {
    if piece[0] == pts[0] then Some(FirstFirst)
    else if piece[0] == pts[|pts| - 1] then Some(FirstLast)
    else if piece[|piece| - 1] == pts[0] then Some(LastFirst)
    else if piece[|piece| - 1] == pts[|pts| - 1] then Some(LastLast)
    else None
  }

  /** The glued piece: the old piece without the shared point, turned round when the
      shared point was its first, followed by the way's points, turned round when the
      shared point was their last. */
  function Glued<P(==)>(piece: seq<P>, pts: seq<P>, j: Join): (r: seq<P>)
    requires piece != [] && pts != []
    ensures |r| == |piece| + |pts| - 1
  {
    match j
    case FirstFirst => Reverse(piece)[..|piece| - 1] + pts
    case FirstLast => Reverse(piece)[..|piece| - 1] + Reverse(pts)
    case LastFirst => piece[..|piece| - 1] + pts
    case LastLast => piece[..|piece| - 1] + Reverse(pts)
  }

  /** Dropping the last point of `a` and appending `b`, which starts with that point,
      keeps all of `a` in front and all of `b` behind. */
  lemma Overlap<P>(a: seq<P>, b: seq<P>)
    requires a != [] && b != [] && a[|a| - 1] == b[0]
    ensures (a[..|a| - 1] + b)[|a| - 1..] == b
    ensures (a[..|a| - 1] + b)[..|a|] == a
  {
    var r := a[..|a| - 1] + b;
    assert r[..|a|] == a[..|a| - 1] + [b[0]];
    assert a == a[..|a| - 1] + [a[|a| - 1]];
  }

  /** A glued piece is contiguous: it passes through the shared point once, coming from
      the old piece and going on along the way. */
  lemma GluedContiguous<P>(piece: seq<P>, pts: seq<P>)
    requires piece != [] && pts != [] && JoinOf(piece, pts).Some?
    ensures var r := Glued(piece, pts, JoinOf(piece, pts).value);
      && |r| == |piece| + |pts| - 1
      && (r[|piece| - 1..] == pts || r[|piece| - 1..] == Reverse(pts))
      && (r[..|piece|] == piece || r[..|piece|] == Reverse(piece))
  {
    var j := JoinOf(piece, pts).value;
    var a := if j == FirstFirst || j == FirstLast then Reverse(piece) else piece;
    var b := if j == FirstFirst || j == LastFirst then pts else Reverse(pts);
    assert Glued(piece, pts, j) == a[..|a| - 1] + b;
    Overlap(a, b);
  }

  /** The inner loop over the pieces from index `k`: glue onto the first piece that
      shares an end, else start a new piece. `first().unwrap()` panics on an empty
      piece or an empty way. */
  function GlueFrom<P(==)>(pieces: seq<seq<P>>, pts: seq<P>, k: nat): Result<seq<seq<P>>>
    requires k <= |pieces|
    decreases |pieces| - k
  {
    if k == |pieces| then Ok(pieces + [pts])
    else if pieces[k] == [] || pts == [] then Err(Panic("first() of an empty linestring"))
    else match JoinOf(pieces[k], pts)
      case Some(j) => Ok(pieces[k := Glued(pieces[k], pts, j)])
      case None => GlueFrom(pieces, pts, k + 1)
  }

  /** A way either starts a new piece or changes exactly one piece: the first one that
      shares an end with it. Pieces are never merged, so there are never fewer. */
  lemma {:induction false} GlueFromMeaning<P>(pieces: seq<seq<P>>, pts: seq<P>, k: nat)
    requires k <= |pieces| && GlueFrom(pieces, pts, k).Ok?
    ensures var r := GlueFrom(pieces, pts, k).value;
      || (r == pieces + [pts] && forall j :: k <= j < |pieces| ==> pieces[j] != [] && pts != [] && JoinOf(pieces[j], pts).None?)
      || exists j :: k <= j < |pieces| && pieces[j] != [] && pts != [] && JoinOf(pieces[j], pts).Some? &&
           (forall i :: k <= i < j ==> pieces[i] != [] && JoinOf(pieces[i], pts).None?) &&
           r == pieces[j := Glued(pieces[j], pts, JoinOf(pieces[j], pts).value)]
    decreases |pieces| - k
  {
    if k < |pieces| {
      var r := GlueFrom(pieces, pts, k).value;
      if JoinOf(pieces[k], pts).Some? {
        assert r == pieces[k := Glued(pieces[k], pts, JoinOf(pieces[k], pts).value)];
      } else {
        GlueFromMeaning(pieces, pts, k + 1);
      }
    }
  }

  datatype OsmId = NodeId(n: int) | WayId(w: int) | RelationId(r: int)

  /** A relation member: its role and what it refers to. */
  datatype Member = Member(role: string, id: OsmId)

  /** The pieces after the members of `members`, the known ways among them glued in turn. */
  function Pieces<P(==)>(members: seq<Member>, ways: map<int, seq<P>>): Result<seq<seq<P>>> {
    if members == [] then Ok([])
    else
      var pieces :- Pieces(members[..|members| - 1], ways);
      var m := members[|members| - 1];
      if m.id.WayId? && m.id.w in ways then GlueFrom(pieces, ways[m.id.w], 0) else Ok(pieces)
  }

  /** Members that are not ways, and ways the map does not hold, change nothing; every
      other member adds at most one piece. */
  lemma {:induction false} PiecesCount<P>(members: seq<Member>, ways: map<int, seq<P>>)
    requires Pieces(members, ways).Ok?
    ensures |Pieces(members, ways).value| <= |members|
    ensures Pieces(members, ways).value == [] <==>
      forall i :: 0 <= i < |members| ==> !(members[i].id.WayId? && members[i].id.w in ways)
  {
    if members != [] {
      var init := members[..|members| - 1];
      PiecesCount(init, ways);
      assert forall i :: 0 <= i < |init| ==> init[i] == members[i];
      var m := members[|members| - 1];
      if m.id.WayId? && m.id.w in ways {
        GlueFromMeaning(Pieces(init, ways).value, ways[m.id.w], 0);
      }
    }
  }

  /** Gluing never removes a piece. */
  lemma PiecesNeverShrink<P>(members: seq<Member>, more: seq<Member>, ways: map<int, seq<P>>)
    requires Pieces(members + more, ways).Ok?
    ensures Pieces(members, ways).Ok?
    ensures |Pieces(members, ways).value| <= |Pieces(members + more, ways).value|
    decreases |more|
  {
    if more != [] {
      var shorter := more[..|more| - 1];
      assert (members + more)[..|members + more| - 1] == members + shorter;
      PiecesNeverShrink(members, shorter, ways);
      var m := more[|more| - 1];
      if m.id.WayId? && m.id.w in ways {
        GlueFromMeaning(Pieces(members + shorter, ways).value, ways[m.id.w], 0);
      }
    } else {
      assert members + more == members;
    }
  }

  lemma {:induction false} PiecesFailFrom<P>(members: seq<Member>, ways: map<int, seq<P>>, i: nat)
    requires i <= |members| && Pieces(members[..i], ways).Err?
    ensures Pieces(members, ways).Err?
    decreases |members| - i
  {
    if i < |members| {
      assert members[..i + 1][..i] == members[..i];
      PiecesFailFrom(members, ways, i + 1);
    } else {
      assert members[..i] == members;
    }
  }

  /** `glue_route_linestring`: `None` when no piece was made. */
  method GlueRouteLinestring<P(==)>(members: seq<Member>, ways: map<int, seq<P>>) returns (r: Result<Option<seq<seq<P>>>>)
    ensures Pieces(members, ways).Err? ==> r.Err?
    ensures Pieces(members, ways).Ok? ==> (
      && r.Ok?
      && (r.value.None? <==> Pieces(members, ways).value == [])
      && (r.value.Some? ==> r.value.value == Pieces(members, ways).value)
      && (r.value.None? <==> forall i :: 0 <= i < |members| ==> !(members[i].id.WayId? && members[i].id.w in ways)))
  {
    var pieces: seq<seq<P>> := [];
    for i := 0 to |members|
      invariant Pieces(members[..i], ways) == Ok(pieces)
    {
      assert members[..i + 1][..i] == members[..i];
      var id := members[i].id;
      if !id.WayId? {
        continue;
      }
      if id.w !in ways {
        continue;
      }
      var pts := ways[id.w];
      var k := 0;
      var glued := false;
      ghost var before := pieces;
      while k < |pieces| && !glued
        invariant 0 <= k <= |pieces| == |before|
        invariant !glued ==> pieces == before && GlueFrom(before, pts, 0) == GlueFrom(before, pts, k)
        invariant glued ==> Ok(pieces) == GlueFrom(before, pts, 0)
        decreases |pieces| - k, if glued then 0 else 1
      {
        if pieces[k] == [] || pts == [] {
          PiecesFailFrom(members, ways, i + 1);
          return Err(Panic("first() of an empty linestring"));
        }
        match JoinOf(pieces[k], pts)
        case Some(j) =>
          pieces := pieces[k := Glued(pieces[k], pts, j)];
          glued := true;
        case None =>
        k := k + 1;
      }
      if !glued {
        pieces := pieces + [pts];
      }
    }
    assert members[..|members|] == members;
    PiecesCount(members, ways);
    if pieces == [] {
      r := Ok(None);
    } else {
      r := Ok(Some(pieces));
    }
  }

  datatype Coord = Coord(x: real, y: real)

  /** An element of the OSM stream, in file order. */
  datatype Element =
    | NodeElem(id: int, pt: Coord)
    | WayElem(id: int, nodeIds: seq<int>, tags: Tags)
    | RelationElem(id: int, tags: Tags, members: seq<Member>)
    | Bounds

  /** One written route: the relation id, its glued pieces and its name. */
  datatype RouteFeature = RouteFeature(osmRelation: int, lines: seq<seq<Coord>>, name: string)

  /** Ways that can carry a route: any `highway`, or a `cycleway=crossing`. */
  predicate KeepWay(tags: Tags) {
    "highway" in tags || Is(tags, "cycleway", "crossing")
  }

  /** A missing `name` is written as the empty string. */
  function RouteName(tags: Tags): (name: string)
    ensures "name" in tags ==> name == tags["name"]
    ensures "name" !in tags ==> name == ""
  {
    Get(tags, "name").GetOr("")
  }

  datatype Scanned = Scanned(nodes: map<int, Coord>, ways: map<int, seq<Coord>>, out: seq<RouteFeature>)

  /** `node_ids.iter().map(|n| nodes[n])`, which panics on an unknown node. */
  function Points(nodes: map<int, Coord>, ids: seq<int>): (r: Result<seq<Coord>>)
    ensures r.Ok? <==> forall i :: 0 <= i < |ids| ==> ids[i] in nodes
    ensures r.Ok? ==> |r.value| == |ids| && forall i :: 0 <= i < |ids| ==> r.value[i] == nodes[ids[i]]
    ensures r.Err? ==> r == Err(Panic("unknown node"))
  {
    if ids == [] then Ok([])
    else
      var init :- Points(nodes, ids[..|ids| - 1]);
      var last := ids[|ids| - 1];
      if last in nodes then Ok(init + [nodes[last]]) else Err(Panic("unknown node"))
  }

  /** The callback on one element. */
  function Step(st: Scanned, e: Element): Result<Scanned> {
    match e
    case NodeElem(id, pt) => Ok(st.(nodes := st.nodes[id := pt]))
    case WayElem(id, nodeIds, tags) =>
      if KeepWay(tags) then
        var line :- Points(st.nodes, nodeIds);
        Ok(st.(ways := st.ways[id := line]))
      else Ok(st)
    case RelationElem(id, tags, members) =>
      if Is(tags, "route", "bicycle") then
        var pieces :- Pieces(members, st.ways);
        if pieces == [] then Ok(st)
        else Ok(st.(out := st.out + [RouteFeature(id, pieces, RouteName(tags))]))
      else Ok(st)
    case Bounds => Ok(st)
  }

  function ScanAll(elems: seq<Element>): Result<Scanned> {
    if elems == [] then Ok(Scanned(map[], map[], []))
    else
      var st :- ScanAll(elems[..|elems| - 1]);
      Step(st, elems[|elems| - 1])
  }

  /** Only kept ways enter the way table, and only `route=bicycle` relations with at
      least one known way are written, named by their `name` or "". */
  lemma {:induction false} ScanAllMeaning(elems: seq<Element>)
    requires ScanAll(elems).Ok?
    ensures forall w :: w in ScanAll(elems).value.ways ==>
      exists i :: 0 <= i < |elems| && elems[i].WayElem? && elems[i].id == w && KeepWay(elems[i].tags)
    ensures forall f :: f in ScanAll(elems).value.out ==>
      exists i :: 0 <= i < |elems| && elems[i].RelationElem? && elems[i].id == f.osmRelation &&
        Is(elems[i].tags, "route", "bicycle") && f.name == RouteName(elems[i].tags) && f.lines != []
  {
    if elems != [] {
      var init := elems[..|elems| - 1];
      ScanAllMeaning(init);
      assert forall i :: 0 <= i < |init| ==> init[i] == elems[i];
    }
  }

  lemma {:induction false} ScanFailsFrom(elems: seq<Element>, i: nat)
    requires i <= |elems| && ScanAll(elems[..i]).Err?
    ensures ScanAll(elems) == ScanAll(elems[..i])
    decreases |elems| - i
  {
    if i < |elems| {
      assert elems[..i + 1][..i] == elems[..i];
      ScanFailsFrom(elems, i + 1);
    } else {
      assert elems[..i] == elems;
    }
  }

  /** A successful scan succeeded on every prefix of the stream. */
  lemma ScanPrefixOk(elems: seq<Element>, n: nat)
    requires n <= |elems| && ScanAll(elems).Ok?
    ensures ScanAll(elems[..n]).Ok?
  {
    if ScanAll(elems[..n]).Err? {
      ScanFailsFrom(elems, n);
    }
  }

  /** The scan of the first `n` elements is that of the first `n - 1` stepped by element
      `n - 1`. */
  lemma ScanPrefixStep(elems: seq<Element>, n: nat)
    requires 0 < n <= |elems| && ScanAll(elems[..n]).Ok?
    ensures ScanAll(elems[..n - 1]).Ok?
    ensures ScanAll(elems[..n]) == Step(ScanAll(elems[..n - 1]).value, elems[n - 1])
  {
    assert elems[..n][..n - 1] == elems[..n - 1];
  }

  /** The output only grows: what is written by element `m` stays written, in place. */
  lemma {:induction false} ScanOutGrows(elems: seq<Element>, m: nat, n: nat)
    requires m <= n <= |elems| && ScanAll(elems[..n]).Ok?
    ensures ScanAll(elems[..m]).Ok?
    ensures ScanAll(elems[..m]).value.out <= ScanAll(elems[..n]).value.out
    decreases n - m
  {
    if m < n {
      ScanPrefixStep(elems, n);
      ScanOutGrows(elems, m, n - 1);
    }
  }

  /** Every `route=bicycle` relation is glued against the ways stored before it, and when
      the glue gives at least one line string it is written, after the features of the
      elements before it, with its id, those line strings and its name. */
  lemma ScanRouteWritten(elems: seq<Element>, i: nat)
    requires ScanAll(elems).Ok? && i < |elems|
    requires elems[i].RelationElem? && Is(elems[i].tags, "route", "bicycle")
    ensures ScanAll(elems[..i]).Ok?
    ensures Pieces(elems[i].members, ScanAll(elems[..i]).value.ways).Ok?
    ensures var before := ScanAll(elems[..i]).value;
      var pieces := Pieces(elems[i].members, before.ways).value;
      var out := ScanAll(elems).value.out;
      pieces != [] ==>
        |before.out| < |out| && out[|before.out|] == RouteFeature(elems[i].id, pieces, RouteName(elems[i].tags))
  {
    ScanPrefixOk(elems, i + 1);
    ScanPrefixStep(elems, i + 1);
    assert elems[..|elems|] == elems;
    ScanOutGrows(elems, i + 1, |elems|);
  }

  /** A kept way that no later kept way of the same id replaces stays in the way table,
      with the points its nodes had when it was read. */
  lemma {:induction false} ScanWayKeeps(elems: seq<Element>, i: nat, n: nat)
    requires i < n <= |elems| && ScanAll(elems[..n]).Ok?
    requires elems[i].WayElem? && KeepWay(elems[i].tags)
    requires forall j :: i < j < n && elems[j].WayElem? && KeepWay(elems[j].tags) ==> elems[j].id != elems[i].id
    ensures ScanAll(elems[..i]).Ok?
    ensures Points(ScanAll(elems[..i]).value.nodes, elems[i].nodeIds).Ok?
    ensures elems[i].id in ScanAll(elems[..n]).value.ways
    ensures ScanAll(elems[..n]).value.ways[elems[i].id] == Points(ScanAll(elems[..i]).value.nodes, elems[i].nodeIds).value
    decreases n
  {
    ScanPrefixStep(elems, n);
    if n > i + 1 {
      ScanWayKeeps(elems, i, n - 1);
    }
  }

  /** Every kept way is stored under its id, with the points of its last occurrence: the
      way table holds exactly what the `ways.insert` calls leave in it. */
  lemma ScanWayStored(elems: seq<Element>, i: nat)
    requires ScanAll(elems).Ok? && i < |elems|
    requires elems[i].WayElem? && KeepWay(elems[i].tags)
    requires forall j :: i < j < |elems| && elems[j].WayElem? && KeepWay(elems[j].tags) ==> elems[j].id != elems[i].id
    ensures ScanAll(elems[..i]).Ok?
    ensures Points(ScanAll(elems[..i]).value.nodes, elems[i].nodeIds).Ok?
    ensures elems[i].id in ScanAll(elems).value.ways
    ensures ScanAll(elems).value.ways[elems[i].id] == Points(ScanAll(elems[..i]).value.nodes, elems[i].nodeIds).value
  {
    assert elems[..|elems|] == elems;
    ScanWayKeeps(elems, i, |elems|);
  }

  /** `main`: one pass over the stream, writing each route as its relation is met. */
  method ScanRoutes(elems: seq<Element>) returns (r: Result<seq<RouteFeature>>)
    ensures ScanAll(elems).Ok? <==> r.Ok?
    ensures r.Ok? ==> r.value == ScanAll(elems).value.out
  {
    var nodes: map<int, Coord> := map[];
    var ways: map<int, seq<Coord>> := map[];
    var out: seq<RouteFeature> := [];
    for i := 0 to |elems|
      invariant ScanAll(elems[..i]) == Ok(Scanned(nodes, ways, out))
    {
      assert elems[..i + 1][..i] == elems[..i];
      match elems[i]
      case NodeElem(id, pt) =>
        nodes := nodes[id := pt];
      case WayElem(id, nodeIds, tags) =>
        if "highway" in tags || Get(tags, "cycleway") == Some("crossing") {
          var line := WayLine(nodes, nodeIds);
          if line.Err? {
            ScanFailsFrom(elems, i + 1);
            return Err(line.error);
          }
          ways := ways[id := line.value];
        }
      case RelationElem(id, tags, members) =>
        if Get(tags, "route") == Some("bicycle") {
          var glued := GlueRouteLinestring(members, ways);
          if glued.Err? {
            ScanFailsFrom(elems, i + 1);
            return Err(glued.error);
          }
          if glued.value.Some? {
            out := out + [RouteFeature(id, glued.value.value, RouteName(tags))];
          }
        }
      case Bounds =>
    }
    assert elems[..|elems|] == elems;
    r := Ok(out);
  }

  /** The node lookups of one kept way: each node id in turn, panicking at the first
      id not yet seen. */
  method WayLine(nodes: map<int, Coord>, nodeIds: seq<int>) returns (r: Result<seq<Coord>>)
    ensures r == Points(nodes, nodeIds)
  {
    var line := [];
    for j := 0 to |nodeIds|
      invariant Points(nodes, nodeIds[..j]) == Ok(line)
    {
      assert nodeIds[..j + 1][..j] == nodeIds[..j];
      if nodeIds[j] !in nodes {
        PointsFailFrom(nodes, nodeIds, j);
        return Err(Panic("unknown node"));
      }
      line := line + [nodes[nodeIds[j]]];
    }
    assert nodeIds[..|nodeIds|] == nodeIds;
    r := Ok(line);
  }

  lemma PointsFailFrom(nodes: map<int, Coord>, ids: seq<int>, j: nat)
    requires j < |ids| && ids[j] !in nodes
    ensures Points(nodes, ids).Err?
  {
  }
}
