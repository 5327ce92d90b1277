/** fix_boundaries/reduce_boundary_fidelity.cjs: annotating each local authority district
    (LAD) with the transport authority that lists it, and keeping only the annotated
    districts. */
module FixBoundaries {
  import opened Outcomes
  import opened Json
  import opened GeoJson
  import Text

  const LAD_NAMES := "lad_names"
  const LAD_NAME := "LAD23NM"
  const AUTHORITY_NAME := "atf4_authority_name"
  const TRANSPORT_AUTHORITY_NAME := "transport_authority_name"
  const LOCAL_AUTHORITIES := "localAuthorities"
  const SEPARATOR := ", "

  /** `getLadNameArray`: `lad_names.split(", ")`. Splitting anything but a string (or
      a missing value) throws. */
  function LadNameArray(p: Props): (r: Result<seq<string>>)
    ensures r.Ok? <==> LAD_NAMES in p && p[LAD_NAMES].Str?
    ensures r.Err? ==> r.error == TypeError
  {
    if LAD_NAMES in p && p[LAD_NAMES].Str? then Ok(Text.Split(p[LAD_NAMES].s, SEPARATOR))
    else Err(TypeError)
  }

  /** The names are at least one, none holds the separator, and joined back with it
      they are the string they were split from. */
  lemma LadNameArrayMeaning(p: Props)
    requires LadNameArray(p).Ok?
    ensures LadNameArray(p).value != []
    ensures Text.Join(LadNameArray(p).value, SEPARATOR) == p[LAD_NAMES].s
    ensures forall k :: 0 <= k < |LadNameArray(p).value| ==> !Text.Contains(LadNameArray(p).value[k], SEPARATOR)
  {
    Text.SplitJoin(p[LAD_NAMES].s, SEPARATOR);
    Text.SplitPartsFree(p[LAD_NAMES].s, SEPARATOR);
  }

  /** The names as the JSON array that replaces `lad_names`. */
  function NamesJson(names: seq<string>): (j: Json)
    ensures j.List? && |j.items| == |names|
    ensures forall k :: 0 <= k < |names| ==> j.items[k] == Str(names[k])
  {
    List(seq(|names|, k requires 0 <= k < |names| => Str(names[k])))
  }

  /** `ladName === ladData.LAD23NM`: a missing name is `undefined` and matches nothing. */
  predicate NameMatches(lad: Feature, name: string) {
    Get(lad.properties, LAD_NAME) == Some(Str(name))
  }

  /** The first district at or after `from` whose `LAD23NM` is `name`. */
  function FirstLad(lads: seq<Feature>, name: string, from: nat): (r: Option<nat>)
    ensures r.Some? ==> from <= r.value < |lads| && NameMatches(lads[r.value], name)
    ensures r.Some? ==> forall j :: from <= j < r.value ==> !NameMatches(lads[j], name)
    ensures r.None? ==> forall j :: from <= j < |lads| ==> !NameMatches(lads[j], name)
    decreases |lads| - from
  {
    if from >= |lads| then None
    else if NameMatches(lads[from], name) then Some(from)
    else FirstLad(lads, name, from + 1)
  }

  /** The properties of an annotated district: `transport_authority_name` from the
      authority's `atf4_authority_name` (null standing for `undefined` when it is
      missing) and `localAuthorities` the authority's split names. */
  function Annotate(p: Props, authority: Props, names: seq<string>): (q: Props)
    ensures q.Keys == p.Keys + {TRANSPORT_AUTHORITY_NAME, LOCAL_AUTHORITIES}
    ensures q[TRANSPORT_AUTHORITY_NAME] == Get(authority, AUTHORITY_NAME).GetOr(Null)
    ensures q[LOCAL_AUTHORITIES] == NamesJson(names)
    ensures forall k :: k in p && k != TRANSPORT_AUTHORITY_NAME && k != LOCAL_AUTHORITIES ==> q[k] == p[k]
  {
    p[TRANSPORT_AUTHORITY_NAME := Get(authority, AUTHORITY_NAME).GetOr(Null)][LOCAL_AUTHORITIES := NamesJson(names)]
  }

  /** A later annotation replaces an earlier one entirely. */
  lemma AnnotateTwice(p: Props, a1: Props, n1: seq<string>, a2: Props, n2: seq<string>)
    ensures Annotate(Annotate(p, a1, n1), a2, n2) == Annotate(p, a2, n2)
  {
  }

  /** One name of an authority: the first district carrying it is annotated. */
  function AnnotateName(lads: seq<Feature>, name: string, authority: Props, names: seq<string>): seq<Feature> {
    match FirstLad(lads, name, 0)
    case None => lads
    case Some(i) => lads[i := lads[i].(properties := Annotate(lads[i].properties, authority, names))]
  }

  /** The first `n` names of an authority, in order. */
  function AnnotateNames(lads: seq<Feature>, authority: Props, names: seq<string>, n: nat): seq<Feature>
    requires n <= |names|
  {
    if n == 0 then lads
    else AnnotateName(AnnotateNames(lads, authority, names, n - 1), names[n - 1], authority, names)
  }

  /** `addTransportAuthorityToLocalAuthorities` over values: each authority in order has
      its `lad_names` split and replaced by the array, then annotates the first
      district of each of its names. The first authority whose names cannot be split
      stops it. */
  function AddAll(authorities: seq<Feature>, lads: seq<Feature>): Result<(seq<Feature>, seq<Feature>)> {
    if authorities == [] then Ok(([], lads))
    else
      var (doneAuthorities, doneLads) :- AddAll(authorities[..|authorities| - 1], lads);
      var authority := authorities[|authorities| - 1];
      var names :- LadNameArray(authority.properties);
      var props := authority.properties[LAD_NAMES := NamesJson(names)];
      Ok((doneAuthorities + [authority.(properties := props)], AnnotateNames(doneLads, props, names, |names|)))
  }

  /** Two district lists agree on every `LAD23NM`. */
  predicate SameNames(a: seq<Feature>, b: seq<Feature>) {
    |a| == |b| && forall j :: 0 <= j < |a| ==> Get(a[j].properties, LAD_NAME) == Get(b[j].properties, LAD_NAME)
  }

  /** Annotating never changes a district's name, so which district comes first for a
      name does not change either. */
  lemma FirstLadSameNames(a: seq<Feature>, b: seq<Feature>, name: string, from: nat)
    requires SameNames(a, b)
    ensures FirstLad(a, name, from) == FirstLad(b, name, from)
    decreases |a| - from
  {
    if from < |a| {
      assert NameMatches(a[from], name) == NameMatches(b[from], name);
      FirstLadSameNames(a, b, name, from + 1);
    }
  }

  /** A name annotates exactly its first district, and nothing when no district has it. */
  lemma AnnotateNameMeaning(lads: seq<Feature>, name: string, authority: Props, names: seq<string>)
    ensures var out := AnnotateName(lads, name, authority, names);
      && SameNames(out, lads)
      && (FirstLad(lads, name, 0).None? ==> out == lads)
      && forall j :: 0 <= j < |lads| ==>
        out[j] == if FirstLad(lads, name, 0) == Some(j) then lads[j].(properties := Annotate(lads[j].properties, authority, names))
                  else lads[j]
  {
  }

  /** Some name of the first `n` has district `j` as its first. */
  ghost predicate ClaimedBy(lads: seq<Feature>, names: seq<string>, n: nat, j: int)
    requires n <= |names|
  {
    exists m :: 0 <= m < n && FirstLad(lads, names[m], 0) == Some(j)
  }

  /** After the first `n` names, the districts claimed by one of them carry the
      authority's annotation and the others are as they were. */
  lemma {:induction false} AnnotateNamesMeaning(lads: seq<Feature>, authority: Props, names: seq<string>, n: nat)
    requires n <= |names|
    ensures var out := AnnotateNames(lads, authority, names, n);
      && SameNames(out, lads)
      && forall j :: 0 <= j < |lads| ==>
        out[j] == if ClaimedBy(lads, names, n, j) then lads[j].(properties := Annotate(lads[j].properties, authority, names))
                  else lads[j]
  {
    if n > 0 {
      AnnotateNamesMeaning(lads, authority, names, n - 1);
      var before := AnnotateNames(lads, authority, names, n - 1);
      AnnotateNameMeaning(before, names[n - 1], authority, names);
      FirstLadSameNames(before, lads, names[n - 1], 0);
      var out := AnnotateNames(lads, authority, names, n);
      forall j | 0 <= j < |lads|
        ensures out[j] == if ClaimedBy(lads, names, n, j) then lads[j].(properties := Annotate(lads[j].properties, authority, names))
                          else lads[j]
      {
        if FirstLad(lads, names[n - 1], 0) == Some(j) {
          assert out[j] == before[j].(properties := Annotate(before[j].properties, authority, names));
          assert ClaimedBy(lads, names, n, j);
          AnnotateTwice(lads[j].properties, authority, names, authority, names);
        } else {
          assert out[j] == before[j];
          if ClaimedBy(lads, names, n, j) {
            var m :| 0 <= m < n && FirstLad(lads, names[m], 0) == Some(j);
            assert ClaimedBy(lads, names, n - 1, j);
          } else {
            assert !ClaimedBy(lads, names, n - 1, j);
          }
        }
      }
    }
  }

  /** An authority's names, once split. */
  function NamesOf(authority: Feature): seq<string>
    requires LadNameArray(authority.properties).Ok?
  {
    LadNameArray(authority.properties).value
  }

  /** The authority's properties once `lad_names` has become the array. */
  function SplitProps(authority: Feature): Props
    requires LadNameArray(authority.properties).Ok?
  {
    authority.properties[LAD_NAMES := NamesJson(NamesOf(authority))]
  }

  /** Every authority's names split. */
  predicate AllSplit(authorities: seq<Feature>) {
    forall k :: 0 <= k < |authorities| ==> LadNameArray(authorities[k].properties).Ok?
  }

  /** The authority claims district `j`: its names split and one of them has `j` as
      its first district. */
  ghost predicate Claims(authority: Feature, lads: seq<Feature>, j: int) {
    LadNameArray(authority.properties).Ok? && ClaimedBy(lads, NamesOf(authority), |NamesOf(authority)|, j)
  }

  /** The last authority that claims district `j`. */
  ghost function LastClaim(authorities: seq<Feature>, lads: seq<Feature>, j: int): (r: Option<nat>)
    ensures r.Some? ==> r.value < |authorities|
  {
    if authorities == [] then None
    else if Claims(authorities[|authorities| - 1], lads, j) then Some(|authorities| - 1)
    else LastClaim(authorities[..|authorities| - 1], lads, j)
  }

  /** The last claim is a claim, no later authority claims the district, and there is
      no claim at all when no authority claims it. */
  lemma {:induction false} LastClaimMeaning(authorities: seq<Feature>, lads: seq<Feature>, j: int)
    ensures var r := LastClaim(authorities, lads, j);
      && (r.Some? ==> Claims(authorities[r.value], lads, j))
      && (r.Some? ==> forall k :: r.value < k < |authorities| ==> !Claims(authorities[k], lads, j))
      && (r.None? ==> forall k :: 0 <= k < |authorities| ==> !Claims(authorities[k], lads, j))
  {
    if authorities != [] {
      var init := authorities[..|authorities| - 1];
      LastClaimMeaning(init, lads, j);
      assert forall k :: 0 <= k < |init| ==> init[k] == authorities[k];
    }
  }

  /** One authority's step of the pass, spelled out. */
  lemma AddAllStep(authorities: seq<Feature>, lads: seq<Feature>)
    requires authorities != [] && AddAll(authorities, lads).Ok?
    ensures AddAll(authorities[..|authorities| - 1], lads).Ok?
    ensures LadNameArray(authorities[|authorities| - 1].properties).Ok?
    ensures var last := authorities[|authorities| - 1];
      var (done, doneLads) := AddAll(authorities[..|authorities| - 1], lads).value;
      AddAll(authorities, lads).value ==
        (done + [last.(properties := SplitProps(last))], AnnotateNames(doneLads, SplitProps(last), NamesOf(last), |NamesOf(last)|))
  {
  }

  /** Extending a successful pass by one authority whose names split. */
  lemma AddAllExtend(authorities: seq<Feature>, lads: seq<Feature>, done: seq<Feature>, doneLads: seq<Feature>)
    requires authorities != [] && AddAll(authorities[..|authorities| - 1], lads) == Ok((done, doneLads))
    requires LadNameArray(authorities[|authorities| - 1].properties).Ok?
    ensures var last := authorities[|authorities| - 1];
      AddAll(authorities, lads) ==
        Ok((done + [last.(properties := SplitProps(last))], AnnotateNames(doneLads, SplitProps(last), NamesOf(last), |NamesOf(last)|)))
  {
  }

  /** The pass succeeds exactly when every authority's names split. */
  lemma {:induction false} AddAllOk(authorities: seq<Feature>, lads: seq<Feature>)
    ensures AddAll(authorities, lads).Ok? <==> AllSplit(authorities)
  {
    if authorities != [] {
      var init, last := authorities[..|authorities| - 1], authorities[|authorities| - 1];
      AddAllOk(init, lads);
      assert forall k :: 0 <= k < |init| ==> init[k] == authorities[k];
      assert AllSplit(authorities) <==> AllSplit(init) && LadNameArray(last.properties).Ok?;
      if AddAll(init, lads).Err? {
        assert AddAll(authorities, lads).Err?;
      } else if LadNameArray(last.properties).Err? {
        assert AddAll(authorities, lads).Err?;
      } else {
        AddAllExtend(authorities, lads, AddAll(init, lads).value.0, AddAll(init, lads).value.1);
      }
    }
  }

  /** Each authority has its `lad_names` replaced by the array, in place. */
  lemma {:induction false} AddAllAuthorities(authorities: seq<Feature>, lads: seq<Feature>)
    requires AddAll(authorities, lads).Ok?
    ensures AllSplit(authorities)
    ensures var out := AddAll(authorities, lads).value.0;
      && |out| == |authorities|
      && forall k :: 0 <= k < |authorities| ==> out[k] == authorities[k].(properties := SplitProps(authorities[k]))
  {
    AddAllOk(authorities, lads);
    if authorities != [] {
      var init := authorities[..|authorities| - 1];
      AddAllStep(authorities, lads);
      AddAllAuthorities(init, lads);
      assert forall k :: 0 <= k < |init| ==> init[k] == authorities[k];
    }
  }

  /** Each district is unchanged when no authority claims it, and otherwise carries
      the annotation of the LAST authority that claims it: a later authority
      overwrites an earlier one. */
  lemma {:induction false} AddAllLads(authorities: seq<Feature>, lads: seq<Feature>)
    requires AddAll(authorities, lads).Ok?
    ensures AllSplit(authorities)
    ensures var out := AddAll(authorities, lads).value.1;
      && SameNames(out, lads)
      && forall j :: 0 <= j < |lads| ==>
        out[j] == match LastClaim(authorities, lads, j)
          case None => lads[j]
          case Some(k) => lads[j].(properties := Annotate(lads[j].properties, SplitProps(authorities[k]), NamesOf(authorities[k])))
  {
    AddAllOk(authorities, lads);
    if authorities != [] {
      var init := authorities[..|authorities| - 1];
      var last := authorities[|authorities| - 1];
      AddAllLads(init, lads);
      assert forall k :: 0 <= k < |init| ==> init[k] == authorities[k];
      var doneLads := AddAll(init, lads).value.1;
      var names := NamesOf(last);
      var props := SplitProps(last);
      AnnotateNamesMeaning(doneLads, props, names, |names|);
      AddAllStep(authorities, lads);
      var out := AddAll(authorities, lads).value.1;
      forall j | 0 <= j < |lads|
        ensures out[j] == match LastClaim(authorities, lads, j)
          case None => lads[j]
          case Some(k) => lads[j].(properties := Annotate(lads[j].properties, SplitProps(authorities[k]), NamesOf(authorities[k])))
      {
        ClaimedBySameNames(doneLads, lads, names, |names|, j);
        if Claims(last, lads, j) {
          assert LastClaim(authorities, lads, j) == Some(|init|);
          assert out[j] == doneLads[j].(properties := Annotate(doneLads[j].properties, props, names));
          match LastClaim(init, lads, j)
          case None =>
            assert doneLads[j] == lads[j];
          case Some(k) =>
            AnnotateTwice(lads[j].properties, SplitProps(init[k]), NamesOf(init[k]), props, names);
        } else {
          assert LastClaim(authorities, lads, j) == LastClaim(init, lads, j);
          assert out[j] == doneLads[j];
        }
      }
    }
  }

  /** Claims are decided on the names alone. */
  lemma ClaimedBySameNames(a: seq<Feature>, b: seq<Feature>, names: seq<string>, n: nat, j: int)
    requires SameNames(a, b) && n <= |names|
    ensures ClaimedBy(a, names, n, j) == ClaimedBy(b, names, n, j)
  {
    forall m | 0 <= m < n ensures FirstLad(a, names[m], 0) == FirstLad(b, names[m], 0) {
      FirstLadSameNames(a, b, names[m], 0);
    }
  }

  /** `feature.properties.transport_authority_name` is truthy in JavaScript's sense. */
  predicate HasTransportAuthority(f: Feature) {
    TRANSPORT_AUTHORITY_NAME in f.properties && JsTruthy(f.properties[TRANSPORT_AUTHORITY_NAME])
  }

  /** The districts written for merging: annotated ones with a truthy authority name,
      in their order. */
  function Reduce(authorities: seq<Feature>, lads: seq<Feature>): Result<(seq<Feature>, seq<Feature>)> {
    var (outAuthorities, outLads) :- AddAll(authorities, lads);
    Ok((outAuthorities, Filter(outLads, HasTransportAuthority)))
  }

  /** Every district written carries an authority name, and a district whose last
      claiming authority has an `atf4_authority_name` that JavaScript counts as true
      (any array or object, a non-empty string, a non-zero number, `true`) is written,
      annotated. */
  lemma ReduceKeeps(authorities: seq<Feature>, lads: seq<Feature>)
    requires Reduce(authorities, lads).Ok?
    ensures forall f :: f in Reduce(authorities, lads).value.1 ==> HasTransportAuthority(f)
    ensures AllSplit(authorities) && |AddAll(authorities, lads).value.1| == |lads|
    ensures forall j :: 0 <= j < |lads| ==>
      var claim := LastClaim(authorities, lads, j);
      (claim.Some? && AUTHORITY_NAME in authorities[claim.value].properties &&
       JsTruthy(authorities[claim.value].properties[AUTHORITY_NAME])) ==>
        AddAll(authorities, lads).value.1[j] in Reduce(authorities, lads).value.1
  {
    AddAllLads(authorities, lads);
    var outLads := AddAll(authorities, lads).value.1;
    FilterMeaning(outLads, HasTransportAuthority);
    var pos := KeptPositions(outLads, HasTransportAuthority);
    var kept := Filter(outLads, HasTransportAuthority);
    forall f | f in kept ensures HasTransportAuthority(f) {
      var i :| 0 <= i < |kept| && kept[i] == f;
      assert pos[i] in pos;
    }
    forall j | 0 <= j < |lads| && LastClaim(authorities, lads, j).Some?
      ensures var k := LastClaim(authorities, lads, j).value;
        AUTHORITY_NAME in authorities[k].properties && JsTruthy(authorities[k].properties[AUTHORITY_NAME]) ==>
          outLads[j] in kept
    {
      var k := LastClaim(authorities, lads, j).value;
      if AUTHORITY_NAME in authorities[k].properties && JsTruthy(authorities[k].properties[AUTHORITY_NAME]) {
        assert HasTransportAuthority(outLads[j]);
        assert j in pos;
        var m :| 0 <= m < |pos| && pos[m] == j;
        assert kept[m] == outLads[j];
      }
    }
  }

  /** The inner `while` loop: the districts are scanned from the start until one is
      named `name`; that one is annotated in place and the scan stops. */
  method AnnotateFirst(lads: FeatureCollection, name: string, authority: Props, names: seq<string>)
    modifies lads
    ensures lads.members == old(lads.members)
    ensures lads.features == AnnotateName(old(lads.features), name, authority, names)
  {
    ghost var start := lads.features;
    var ladFound := false;
    var i := 0;
    while !ladFound && i < |lads.features|
      invariant 0 <= i <= |lads.features| == |start|
      invariant lads.members == old(lads.members)
      invariant !ladFound ==> lads.features == start && forall j :: 0 <= j < i ==> !NameMatches(start[j], name)
      invariant ladFound ==> lads.features == AnnotateName(start, name, authority, names)
      decreases |lads.features| - i, !ladFound
    {
      var props := lads.features[i].properties;
      if Get(props, LAD_NAME) == Some(Str(name)) {
        lads.features := lads.features[i := lads.features[i].(properties := Annotate(props, authority, names))];
        ladFound := true;
        assert FirstLad(start, name, 0) == Some(i) by {
          FirstLadFrom(start, name, i);
        }
      }
      i := i + 1;
    }
  }

  /** With no match before `i` and a match at `i`, the first match is `i`. */
  lemma FirstLadFrom(lads: seq<Feature>, name: string, i: nat)
    requires i < |lads| && NameMatches(lads[i], name)
    requires forall j :: 0 <= j < i ==> !NameMatches(lads[j], name)
    ensures FirstLad(lads, name, 0) == Some(i)
  {
  }

  /** The `forEach` over one authority's names. */
  method AnnotateAll(lads: FeatureCollection, authority: Props, names: seq<string>)
    modifies lads
    ensures lads.members == old(lads.members)
    ensures lads.features == AnnotateNames(old(lads.features), authority, names, |names|)
  {
    for n := 0 to |names|
      invariant lads.members == old(lads.members)
      invariant lads.features == AnnotateNames(old(lads.features), authority, names, n)
    {
      AnnotateFirst(lads, names[n], authority, names);
    }
  }

  /** The body of the outer `forEach` for authority `k`: `lad_names` is split and
      replaced, then each name annotates its first district. */
  method AddAuthority(authorities: FeatureCollection, lads: FeatureCollection, k: nat) returns (r: Result<()>)
    requires authorities != lads && k < |authorities.features|
    modifies authorities, lads
    ensures authorities.members == old(authorities.members) && lads.members == old(lads.members)
    ensures r.Ok? <==> LadNameArray(old(authorities.features[k]).properties).Ok?
    ensures r.Err? ==> r.error == TypeError
    ensures r.Ok? ==>
      var authority := old(authorities.features[k]);
      && authorities.features == old(authorities.features)[k := authority.(properties := SplitProps(authority))]
      && lads.features == AnnotateNames(old(lads.features), SplitProps(authority), NamesOf(authority), |NamesOf(authority)|)
  {
    var authority := authorities.features[k];
    var split := LadNameArray(authority.properties);
    if split.Err? {
      return Err(split.error);
    }
    var names := split.value;
    var props := authority.properties[LAD_NAMES := NamesJson(names)];
    authorities.features := authorities.features[k := authority.(properties := props)];
    AnnotateAll(lads, props, names);
    r := Ok(());
  }

  /** `addTransportAuthorityToLocalAuthorities`: the authorities and districts are
      updated in place, authority by authority. When an authority's names cannot be
      split the pass throws part-way, and nothing is written. */
  method AddTransportAuthorities(authorities: FeatureCollection, lads: FeatureCollection) returns (r: Result<()>)
    requires authorities != lads
    modifies authorities, lads
    ensures r.Ok? <==> AddAll(old(authorities.features), old(lads.features)).Ok?
    ensures r.Err? ==> r.error == AddAll(old(authorities.features), old(lads.features)).error
    ensures r.Ok? ==> (authorities.features, lads.features) == AddAll(old(authorities.features), old(lads.features)).value
    ensures authorities.members == old(authorities.members) && lads.members == old(lads.members)
  {
    ghost var startAuthorities := authorities.features;
    ghost var startLads := lads.features;
    var k := 0;
    while k < |authorities.features|
      decreases |startAuthorities| - k
      invariant 0 <= k <= |authorities.features| == |startAuthorities|
      invariant authorities.members == old(authorities.members) && lads.members == old(lads.members)
      invariant authorities.features[k..] == startAuthorities[k..]
      invariant AddAll(startAuthorities[..k], startLads) == Ok((authorities.features[..k], lads.features))
    {
      assert authorities.features[k] == startAuthorities[k];
      AddAllPrefixStep(startAuthorities, startLads, k, authorities.features[..k], lads.features);
      ghost var before := authorities.features;
      r := AddAuthority(authorities, lads, k);
      if r.Err? {
        return;
      }
      assert authorities.features[..k + 1] == before[..k] + [authorities.features[k]];
      assert authorities.features[k + 1..] == before[k + 1..];
      k := k + 1;
    }
    assert startAuthorities[..k] == startAuthorities;
    assert authorities.features[..k] == authorities.features;
    r := Ok(());
  }

  /** One authority more: the pass over the first `k + 1` authorities either stops
      with a `TypeError`, which the rest of the pass keeps, or extends the pass over
      the first `k`. */
  lemma AddAllPrefixStep(authorities: seq<Feature>, lads: seq<Feature>, k: nat, done: seq<Feature>, doneLads: seq<Feature>)
    requires k < |authorities| && AddAll(authorities[..k], lads) == Ok((done, doneLads))
    ensures LadNameArray(authorities[k].properties).Err? ==> AddAll(authorities, lads) == Err(TypeError)
    ensures LadNameArray(authorities[k].properties).Ok? ==>
      var a := authorities[k];
      AddAll(authorities[..k + 1], lads) ==
        Ok((done + [a.(properties := SplitProps(a))], AnnotateNames(doneLads, SplitProps(a), NamesOf(a), |NamesOf(a)|)))
  {
    var prefix := authorities[..k + 1];
    assert prefix[..k] == authorities[..k];
    if LadNameArray(authorities[k].properties).Err? {
      assert AddAll(prefix, lads) == Err(TypeError);
      AddAllFailFrom(authorities, lads, k + 1);
    } else {
      AddAllExtend(prefix, lads, done, doneLads);
    }
  }

  lemma {:induction false} AddAllFailFrom(authorities: seq<Feature>, lads: seq<Feature>, k: nat)
    requires k <= |authorities| && AddAll(authorities[..k], lads).Err?
    ensures AddAll(authorities, lads) == AddAll(authorities[..k], lads)
    decreases |authorities| - k
  {
    if k < |authorities| {
      assert authorities[..k + 1][..k] == authorities[..k];
      AddAllFailFrom(authorities, lads, k + 1);
    } else {
      assert authorities[..k] == authorities;
    }
  }

  /** The script's in-memory part: annotate, then reassign `lads.features` to the
      districts with an authority name. */
  method ReduceBoundaries(authorities: FeatureCollection, lads: FeatureCollection) returns (r: Result<()>)
    requires authorities != lads
    modifies authorities, lads
    ensures r.Ok? <==> Reduce(old(authorities.features), old(lads.features)).Ok?
    ensures r.Err? ==> r.error == Reduce(old(authorities.features), old(lads.features)).error
    ensures r.Ok? ==> (authorities.features, lads.features) == Reduce(old(authorities.features), old(lads.features)).value
  {
    r := AddTransportAuthorities(authorities, lads);
    if r.Err? {
      return;
    }
    lads.features := Filter(lads.features, HasTransportAuthority);
  }
}
