/** Optional values, results and the failures the modelled programs can end in. */
module Outcomes {

  datatype Option<+T> = None | Some(value: T) {
    function GetOr(default: T): T {
      match this
      case Some(v) => v
      case None => default
    }
  }

  /** Every way a modelled operation can stop early. The Python programs raise,
      the Rust programs panic or return `Err`, the JavaScript ones throw. */
  datatype Error =
    | KeyError(key: string)            // Python `d[k]` or `del d[k]` on a missing key ("None" for `d[None]`)
    | IndexError                       // indexing past the end of a string or list
    | ValueError(text: string)         // Python `int(text)` on a malformed string
    | ParseFloatError(text: string)    // Rust `text.parse::<f64>()` on a malformed string
    | TypeError                        // an operation on a value of the wrong kind
    | AttributeError                   // Python: a method the value's type does not have
    | ZeroDivisionError
    | UnexpectedCoordinate             // a coordinate leaf that is neither a list nor a float
    | Panic(reason: string)            // Rust `unwrap`, `expect`, `panic!` or a failed index
    | FieldReadError(field: string)    // a GDAL field read that returned `Err`

  datatype Result<+T> = Ok(value: T) | Err(error: Error) {
    predicate IsFailure() { Err? }

    function PropagateFailure<U>(): Result<U>
      requires Err?
    {
      Err(error)
    }

    function Extract(): T
      requires Ok?
    {
      value
    }
  }

  /** The first failure among `rs`, or all their values when none failed. */
  function AllOk<T>(rs: seq<Result<T>>): (r: Result<seq<T>>)
    ensures r.Ok? <==> forall i :: 0 <= i < |rs| ==> rs[i].Ok?
    ensures r.Ok? ==> |r.value| == |rs| && forall i :: 0 <= i < |rs| ==> rs[i] == Ok(r.value[i])
    ensures r.Err? ==> exists i :: 0 <= i < |rs| && rs[i] == Err(r.error) && forall j :: 0 <= j < i ==> rs[j].Ok?
  {
    if rs == [] then Ok([])
    else if rs[0].Err? then Err(rs[0].error)
    else
      var rest := AllOk(rs[1..]);
      if rest.Err? then
        assert forall j :: 1 <= j < |rs| ==> rs[j] == rs[1..][j - 1];
        Err(rest.error)
      else Ok([rs[0].value] + rest.value)
  }

  /** An enumeration of a hash map's keys: each key exactly once. It stands for the
      map's iteration order, which the model leaves open. */
  predicate Enumerates<K, V>(order: seq<K>, m: map<K, V>) {
    && (forall i :: 0 <= i < |order| ==> order[i] in m)
    && (forall k :: k in m ==> k in order)
    && (forall i, j :: 0 <= i < j < |order| ==> order[i] != order[j])
  }

  /** An enumeration is as long as the map is large. */
  lemma {:induction false} EnumerationSize<K, V>(order: seq<K>, m: map<K, V>)
    requires Enumerates(order, m)
    ensures |order| == |m|
  {
    if order != [] {
      var k := order[0];
      var rest := order[1..];
      assert forall i :: 0 <= i < |rest| ==> rest[i] == order[i + 1];
      assert Enumerates(rest, m - {k}) by {
        forall x | x in m - {k} ensures x in rest {
          var i :| 0 <= i < |order| && order[i] == x;
          assert i != 0;
          assert rest[i - 1] == x;
        }
      }
      EnumerationSize(rest, m - {k});
    } else {
      assert forall k :: k !in m;
      assert m == map[];
    }
  }

  /** The elements of `xs` that `keep` accepts, in their order. */
  function Filter<T>(xs: seq<T>, keep: T -> bool): seq<T> {
    if xs == [] then []
    else Filter(xs[..|xs| - 1], keep) + (if keep(xs[|xs| - 1]) then [xs[|xs| - 1]] else [])
  }

  /** The positions of the accepted elements, in increasing order. */
  ghost function KeptPositions<T>(xs: seq<T>, keep: T -> bool): seq<int> {
    if xs == [] then []
    else KeptPositions(xs[..|xs| - 1], keep) + (if keep(xs[|xs| - 1]) then [|xs| - 1] else [])
  }

  ghost predicate Increasing(s: seq<int>) {
    forall a, b :: 0 <= a < b < |s| ==> s[a] < s[b]
  }

  /** The filter keeps exactly the accepted elements, in their original order: the
      `j`th kept element is the one at the `j`th accepted position, the positions
      increase, and a position is listed exactly when its element is accepted. */
  lemma {:induction false} FilterMeaning<T>(xs: seq<T>, keep: T -> bool)
    ensures var out := Filter(xs, keep);
      var pos := KeptPositions(xs, keep);
      && |out| == |pos|
      && Increasing(pos)
      && (forall j :: 0 <= j < |pos| ==> 0 <= pos[j] < |xs| && out[j] == xs[pos[j]])
      && (forall i :: 0 <= i < |xs| ==> (i in pos <==> keep(xs[i])))
  {
    if xs != [] {
      var n := |xs| - 1;
      var init, last := xs[..n], xs[n];
      FilterMeaning(init, keep);
      var before, posInit := Filter(init, keep), KeptPositions(init, keep);
      var out, pos := Filter(xs, keep), KeptPositions(xs, keep);
      if keep(last) {
        assert out == before + [last] && pos == posInit + [n];
      } else {
        assert out == before && pos == posInit;
      }
      forall a, b | 0 <= a < b < |pos| ensures pos[a] < pos[b] {
        assert pos[a] == posInit[a];
      }
      forall j | 0 <= j < |pos| ensures 0 <= pos[j] < |xs| && out[j] == xs[pos[j]] {
        if j < |posInit| {
          assert pos[j] == posInit[j] && out[j] == before[j] && init[posInit[j]] == xs[posInit[j]];
        }
      }
      forall i | 0 <= i < |xs| ensures i in pos <==> keep(xs[i]) {
        if i < n {
          assert xs[i] == init[i];
          assert i in pos <==> i in posInit;
        }
      }
    }
  }

  /** Filtering again with the same test changes nothing. */
  lemma {:induction false} FilterIdempotent<T>(xs: seq<T>, keep: T -> bool)
    ensures Filter(Filter(xs, keep), keep) == Filter(xs, keep)
  {
    if xs != [] {
      var init := xs[..|xs| - 1];
      var last := xs[|xs| - 1];
      FilterIdempotent(init, keep);
      var before := Filter(init, keep);
      if keep(last) {
        var out := before + [last];
        assert out[..|out| - 1] == before && out[|out| - 1] == last;
        assert Filter(xs, keep) == out;
        assert Filter(out, keep) == Filter(before, keep) + [last];
      } else {
        assert Filter(xs, keep) == before + [];
        assert before + [] == before;
      }
    }
  }

  /** The elements `test` accepts, in order, where the test itself can fail: the first
      element it fails on stops the scan with that failure. */
  function TryFilter<T>(xs: seq<T>, test: T -> Result<bool>): Result<seq<T>> {
    if xs == [] then Ok([])
    else
      var before :- TryFilter(xs[..|xs| - 1], test);
      var last := xs[|xs| - 1];
      var accepted :- test(last);
      Ok(if accepted then before + [last] else before)
  }

  /** The test succeeds and accepts. */
  function Passes<T>(test: T -> Result<bool>): T -> bool {
    x => test(x) == Ok(true)
  }

  /** The scan fails exactly when the test fails on some element. */
  lemma {:induction false} TryFilterFails<T>(xs: seq<T>, test: T -> Result<bool>)
    ensures TryFilter(xs, test).Ok? <==> forall i :: 0 <= i < |xs| ==> test(xs[i]).Ok?
  {
    if xs != [] {
      var init := xs[..|xs| - 1];
      TryFilterFails(init, test);
      assert forall i :: 0 <= i < |init| ==> init[i] == xs[i];
    }
  }

  /** A scan that gets through keeps what the plain filter keeps with the test that
      passes. */
  lemma {:induction false} TryFilterMeaning<T>(xs: seq<T>, test: T -> Result<bool>)
    requires TryFilter(xs, test).Ok?
    ensures TryFilter(xs, test).value == Filter(xs, Passes(test))
  {
    if xs != [] {
      var init, last := xs[..|xs| - 1], xs[|xs| - 1];
      assert TryFilter(init, test).Ok? && test(last).Ok?;
      TryFilterMeaning(init, test);
      assert Passes(test)(last) == (test(last) == Ok(true));
    }
  }

  /** Elements that all pass are all kept. */
  lemma {:induction false} TryFilterAll<T>(xs: seq<T>, test: T -> Result<bool>)
    requires forall i :: 0 <= i < |xs| ==> test(xs[i]) == Ok(true)
    ensures TryFilter(xs, test) == Ok(xs)
  {
    if xs != [] {
      var init := xs[..|xs| - 1];
      assert forall i :: 0 <= i < |init| ==> init[i] == xs[i];
      TryFilterAll(init, test);
      assert init + [xs[|xs| - 1]] == xs;
    }
  }
}
