/** experimental/aiuk_ltn_imports.py: one GeoJSON file per local authority district,
    named after the district with spaces and hyphens turned into underscores and
    apostrophes dropped. */
module Aiuk {
  import opened Outcomes
  import opened Json
  import opened Text
  import opened GeoJson

  const LEVEL := "level"
  const LAD := "LAD"
  const NAME := "name"
  const DIRECTORY := "aiuk_boundaries/"
  const EXTENSION := ".geojson"

  /** The characters a sanitised name never holds. */
  predicate Unsafe(c: char) {
    c == ' ' || c == '-' || c == '\''
  }

  /** `name.replace(" ", "_").replace("-", "_").replace("'", "")`. */
  function SanitiseName(name: string): string {
    ReplaceChar(ReplaceChar(ReplaceChar(name, ' ', "_"), '-', "_"), '\'', "")
  }

  /** What one character of the name becomes. */
  function CleanChar(c: char): string {
    if c == ' ' || c == '-' then "_" else if c == '\'' then "" else [c]
  }

  /** The same renaming, one character at a time. */
  function Clean(name: string): (r: string)
    ensures forall i :: 0 <= i < |r| ==> !Unsafe(r[i])
    ensures |r| == |name| - CountChar(name, '\'')
  {
    if name == [] then []
    else
      var rest := Clean(name[1..]);
      assert forall i :: 0 <= i < |rest| ==> !Unsafe(rest[i]);
      CleanChar(name[0]) + rest
  }

  /** Replacing in a concatenation replaces in each part. */
  lemma {:induction false} ReplaceCharAppend(a: string, b: string, c: char, repl: string)
    ensures ReplaceChar(a + b, c, repl) == ReplaceChar(a, c, repl) + ReplaceChar(b, c, repl)
  {
    if a != [] {
      assert (a + b)[1..] == a[1..] + b;
      ReplaceCharAppend(a[1..], b, c, repl);
    } else {
      assert a + b == b;
    }
  }

  /** The chained replacements rename character by character: the sanitised name
      holds no space, hyphen or apostrophe, and is shorter than the name by its
      number of apostrophes. */
  lemma {:induction false} SanitiseNameMeaning(name: string)
    ensures SanitiseName(name) == Clean(name)
    ensures forall i :: 0 <= i < |SanitiseName(name)| ==> !Unsafe(SanitiseName(name)[i])
    ensures |SanitiseName(name)| == |name| - CountChar(name, '\'')
  {
    if name != [] {
      var c := name[0];
      var rest := name[1..];
      SanitiseNameMeaning(rest);
      var r1 := ReplaceChar(rest, ' ', "_");
      var r2 := ReplaceChar(r1, '-', "_");
      var h1 := if c == ' ' then "_" else [c];
      assert ReplaceChar(name, ' ', "_") == h1 + r1;
      ReplaceCharAppend(h1, r1, '-', "_");
      var h2 := ReplaceChar(h1, '-', "_");
      ReplaceCharAppend(h2, r2, '\'', "");
      assert ReplaceChar(h2, '\'', "") == CleanChar(c);
    }
  }

  /** Sanitising a sanitised name changes nothing. */
  lemma SanitiseNameIdempotent(name: string)
    ensures SanitiseName(SanitiseName(name)) == SanitiseName(name)
  {
    SanitiseNameMeaning(name);
    SanitiseNameMeaning(SanitiseName(name));
    CleanSafe(Clean(name));
  }

  lemma {:induction false} CleanSafe(name: string)
    requires forall i :: 0 <= i < |name| ==> !Unsafe(name[i])
    ensures Clean(name) == name
  {
    if name != [] {
      CleanSafe(name[1..]);
    }
  }

  /** One file written: its path and the feature dumped into it. */
  datatype Export = Export(path: string, feature: Feature)

  /** `feature["properties"]["level"] == "LAD"`, for a feature that has a level. */
  predicate IsDistrict(f: Feature) {
    LEVEL in f.properties && f.properties[LEVEL] == Str(LAD)
  }

  /** The file written for one feature: none for a feature of another level; a
      missing `level` or `name` raises KeyError and a name that is not a string has
      no `replace`. */
  function ExportOf(f: Feature): Result<seq<Export>> {
    var level :- Lookup(f.properties, LEVEL);
    if level != Str(LAD) then Ok([])
    else
      var name :- Lookup(f.properties, NAME);
      if !name.Str? then Err(AttributeError)
      else Ok([Export(DIRECTORY + SanitiseName(name.s) + EXTENSION, f)])
  }

  /** The files written for the features, in order; the first raising feature stops
      the script. */
  function Exports(features: seq<Feature>): Result<seq<Export>> {
    if features == [] then Ok([])
    else
      var before :- Exports(features[..|features| - 1]);
      var here :- ExportOf(features[|features| - 1]);
      Ok(before + here)
  }

  /** The features that are written, in order. */
  function Written(exports: seq<Export>): (fs: seq<Feature>)
    ensures |fs| == |exports|
    ensures forall i :: 0 <= i < |exports| ==> fs[i] == exports[i].feature
  {
    seq(|exports|, i requires 0 <= i < |exports| => exports[i].feature)
  }

  /** The features every feature needs to get through the loop. */
  predicate Readable(f: Feature) {
    LEVEL in f.properties && (IsDistrict(f) ==> NAME in f.properties && f.properties[NAME].Str?)
  }

  /** The script gets through exactly when every feature has a level and every
      district a string name. */
  lemma {:induction false} ExportsOk(features: seq<Feature>)
    ensures Exports(features).Ok? <==> forall i :: 0 <= i < |features| ==> Readable(features[i])
  {
    if features != [] {
      var init := features[..|features| - 1];
      ExportsOk(init);
      assert forall i :: 0 <= i < |init| ==> init[i] == features[i];
    }
  }

  /** A successful run writes exactly the districts, in order, each to the file named
      after its sanitised name. */
  lemma {:induction false} ExportsMeaning(features: seq<Feature>)
    requires Exports(features).Ok?
    ensures var out := Exports(features).value;
      && Written(out) == Filter(features, IsDistrict)
      && forall i :: 0 <= i < |out| ==>
           && IsDistrict(out[i].feature)
           && NAME in out[i].feature.properties && out[i].feature.properties[NAME].Str?
           && out[i].path == DIRECTORY + SanitiseName(out[i].feature.properties[NAME].s) + EXTENSION
  {
    if features != [] {
      var init := features[..|features| - 1];
      var last := features[|features| - 1];
      assert Exports(init).Ok? && ExportOf(last).Ok?;
      ExportsMeaning(init);
      var before := Exports(init).value;
      var here := ExportOf(last).value;
      var out := before + here;
      assert Exports(features).value == out;
      assert Written(out) == Written(before) + Written(here);
      assert Written(here) == (if IsDistrict(last) then [last] else []);
      assert Filter(features, IsDistrict) == Filter(init, IsDistrict) + (if IsDistrict(last) then [last] else []);
      forall i | 0 <= i < |out|
        ensures && IsDistrict(out[i].feature)
                && NAME in out[i].feature.properties && out[i].feature.properties[NAME].Str?
                && out[i].path == DIRECTORY + SanitiseName(out[i].feature.properties[NAME].s) + EXTENSION
      {
        if i < |before| {
          assert out[i] == before[i];
        } else {
          assert out[i] == here[i - |before|];
        }
      }
    }
  }

  /** The loop of the script: each district's file is written as it is met. */
  method ExportDistricts(features: seq<Feature>) returns (r: Result<seq<Export>>)
    ensures r == Exports(features)
  {
    var written: seq<Export> := [];
    for i := 0 to |features|
      invariant Exports(features[..i]) == Ok(written)
    {
      assert features[..i + 1][..i] == features[..i];
      var feature := features[i];
      assert features[..i + 1][i] == feature;
      if LEVEL !in feature.properties {
        ExportsFailFrom(features, i + 1);
        return Err(KeyError(LEVEL));
      }
      if feature.properties[LEVEL] == Str(LAD) {
        if NAME !in feature.properties {
          ExportsFailFrom(features, i + 1);
          return Err(KeyError(NAME));
        }
        var name := feature.properties[NAME];
        if !name.Str? {
          ExportsFailFrom(features, i + 1);
          return Err(AttributeError);
        }
        written := written + [Export(DIRECTORY + SanitiseName(name.s) + EXTENSION, feature)];
      } else {
        assert ExportOf(feature) == Ok([]);
        assert written + [] == written;
      }
    }
    assert features[..|features|] == features;
    r := Ok(written);
  }

  lemma {:induction false} ExportsFailFrom(features: seq<Feature>, k: nat)
    requires k <= |features| && Exports(features[..k]).Err?
    ensures Exports(features) == Exports(features[..k])
    decreases |features| - k
  {
    if k < |features| {
      assert features[..k + 1][..k] == features[..k];
      ExportsFailFrom(features, k + 1);
    } else {
      assert features[..k] == features;
    }
  }
}
