/** ordnance_survey_layers/src/speed.rs: the fastest average speed over the time bands
    and directions of a road, and the speed properties written for it. */
module OsSpeed {
  import opened Outcomes
  import opened Json
  import opened Arith
  import opened OsFields

  /** The time bands, in scan order: weekdays ("mf") then weekends ("ss"). */
  const TIMES: seq<string> := ["mf4to7", "mf7to9", "mf9to12", "mf12to14", "mf14to16", "mf16to19", "mf19to22",
                               "mf22to4", "ss4to7", "ss7to10", "ss14to19", "ss19to22", "ss22to4"]
  const DIRECTIONS: seq<string> := ["indirection", "againstdirection"]
  /** Every (time, direction) pair is one band. */
  const BANDS := 26
  const TIME_BANDS := 13

  lemma TimesLength()
    ensures |TIMES| == TIME_BANDS && |DIRECTIONS| == 2
  {
  }

  /** Band `k` of the scan: the time band `k / 2`, in the direction `k % 2`. */
  function Band(k: nat): (string, string)
    requires k < BANDS
  {
    (TIMES[k / 2], DIRECTIONS[k % 2])
  }

  /** The field holding the average speed of a band. */
  function SpeedField(k: nat): string
    requires k < BANDS
  {
    "averagespeed_" + Band(k).0 + Band(k).1 + "_kph"
  }

  /** The description written for a band: "{time} / {direction}". */
  function Description(k: nat): string
    requires k < BANDS
  {
    Band(k).0 + " / " + Band(k).1
  }

  /** The speed read for band `k`. */
  function Speed(input: Fields, k: nat): Result<Option<real>>
    requires k < BANDS
  {
    FieldAsDouble(input, SpeedField(k))
  }

  /** Band `2 * t + d` is time band `t` in direction `d`. */
  lemma BandAt(t: nat, d: nat)
    requires t < |TIMES| && d < |DIRECTIONS|
    ensures 2 * t + d < BANDS
    ensures SpeedField(2 * t + d) == "averagespeed_" + TIMES[t] + DIRECTIONS[d] + "_kph"
    ensures Description(2 * t + d) == TIMES[t] + " / " + DIRECTIONS[d]
  {
    DivModUnique(2 * t + d, 2, t, d);
  }

  /** The reads of all bands, in scan order. */
  function Speeds(input: Fields): (speeds: seq<Result<Option<real>>>)
    ensures |speeds| == BANDS
  {
    seq(BANDS, k requires 0 <= k < BANDS => Speed(input, k))
  }

  /** Read `k` of the scan is the speed of band `k`. */
  lemma SpeedsAt(input: Fields, k: nat)
    requires k < BANDS
    ensures Speeds(input)[k] == Speed(input, k)
  {
  }

  /** The scan over the first `n` band reads: the running maximum and its band. A set
      band replaces the maximum only when strictly greater; the first read error
      stops the scan. */
  function ScanMax(speeds: seq<Result<Option<real>>>, n: nat): (r: Result<Option<(real, nat)>>)
    requires n <= |speeds|
    ensures r.Ok? && r.value.Some? ==> r.value.value.1 < n
  {
    if n == 0 then Ok(None)
    else
      var before :- ScanMax(speeds, n - 1);
      var value :- speeds[n - 1];
      if value.Some? && (before.None? || before.value.0 < value.value) then Ok(Some((value.value, n - 1)))
      else Ok(before)
  }

  /** The scan fails exactly when some band's read fails. */
  lemma {:induction false} ScanMaxFails(speeds: seq<Result<Option<real>>>, n: nat)
    requires n <= |speeds|
    ensures ScanMax(speeds, n).Ok? <==> forall k :: 0 <= k < n ==> speeds[k].Ok?
  {
    if n > 0 {
      ScanMaxFails(speeds, n - 1);
    }
  }

  /** The scan finds nothing exactly when no band is set; otherwise it finds the
      first band, in scan order, holding the greatest speed. */
  lemma {:induction false} ScanMaxMeaning(speeds: seq<Result<Option<real>>>, n: nat)
    requires n <= |speeds| && ScanMax(speeds, n).Ok?
    ensures forall k :: 0 <= k < n ==> speeds[k].Ok?
    ensures ScanMax(speeds, n).value.None? <==> forall k :: 0 <= k < n ==> speeds[k].value.None?
    ensures ScanMax(speeds, n).value.Some? ==>
      var (m, best) := ScanMax(speeds, n).value.value;
      && best < n
      && speeds[best] == Ok(Some(m))
      && (forall k :: 0 <= k < n && speeds[k].value.Some? ==> speeds[k].value.value <= m)
      && (forall k :: 0 <= k < best && speeds[k].value.Some? ==> speeds[k].value.value < m)
  {
    ScanMaxFails(speeds, n);
    if n > 0 {
      ScanMaxMeaning(speeds, n - 1);
    }
  }

  lemma {:induction false} ScanMaxFailFrom(speeds: seq<Result<Option<real>>>, n: nat, m: nat)
    requires n <= m <= |speeds| && ScanMax(speeds, n).Err?
    ensures ScanMax(speeds, m) == ScanMax(speeds, n)
    decreases m - n
  {
    if n < m {
      ScanMaxFailFrom(speeds, n, m - 1);
    }
  }

  /** `highest_speed`: the greatest speed over all bands, divided by 3.6, rounded
      half away from zero and cast to `usize`, with the description of its band. No
      set band panics. */
  function HighestSpeed(input: Fields): Result<(int, string)> {
    var found :- ScanMax(Speeds(input), BANDS);
    if found.None? then Err(Panic(UNWRAP_NONE))
    else Ok((SaturateUsize(RoundHalfAway(found.value.0 / 3.6)), Description(found.value.1)))
  }

  /** The worst speed written is the nearest whole number to the greatest band speed
      divided by 3.6 (for a non-negative speed below the `usize` range), and the
      description is that of the first band holding it. */
  lemma HighestSpeedMeaning(input: Fields)
    requires HighestSpeed(input).Ok?
    ensures ScanMax(Speeds(input), BANDS).Ok? && ScanMax(Speeds(input), BANDS).value.Some?
    ensures var (m, best) := ScanMax(Speeds(input), BANDS).value.value;
      var (worst, description) := HighestSpeed(input).value;
      && description == Description(best)
      && 0 <= worst <= USIZE_MAX
      && (0.0 <= m / 3.6 <= USIZE_MAX as real ==> -0.5 <= worst as real - m / 3.6 <= 0.5)
  {
    var (m, best) := ScanMax(Speeds(input), BANDS).value.value;
    var n := RoundHalfAway(m / 3.6);
    if 0.0 <= m / 3.6 <= USIZE_MAX as real {
      assert 0 <= n <= USIZE_MAX;
    }
  }

  /** With no band set, `highest_speed` panics. */
  lemma NoSpeedPanics(input: Fields)
    requires forall k :: 0 <= k < BANDS ==> Speed(input, k) == Ok(None)
    ensures HighestSpeed(input) == Err(Panic(UNWRAP_NONE))
  {
    var speeds := Speeds(input);
    forall k | 0 <= k < BANDS ensures speeds[k] == Ok(None) {
      SpeedsAt(input, k);
    }
    ScanMaxFails(speeds, BANDS);
    ScanMaxMeaning(speeds, BANDS);
  }

  /** The loop state after `n` bands agrees with the scan. */
  ghost predicate Scanned(speeds: seq<Result<Option<real>>>, n: nat, maxKph: Option<real>, maxKey: Option<string>, best: nat)
  {
    && n <= |speeds| && n <= BANDS
    && ScanMax(speeds, n) == Ok(if maxKph.None? then None else Some((maxKph.value, best)))
    && (maxKph.Some? ==> best < n && maxKey == Some(Description(best)))
  }

  /** One turn of the inner loop keeps the state in step with the scan. */
  lemma ScanStep(speeds: seq<Result<Option<real>>>, n: nat, maxKph: Option<real>, maxKey: Option<string>, best: nat,
                 value: Option<real>)
    requires Scanned(speeds, n, maxKph, maxKey, best) && n < |speeds| && n < BANDS && speeds[n] == Ok(value)
    ensures value.Some? && (maxKph.None? || maxKph.value < value.value) ==>
      Scanned(speeds, n + 1, Some(value.value), Some(Description(n)), n)
    ensures !(value.Some? && (maxKph.None? || maxKph.value < value.value)) ==>
      Scanned(speeds, n + 1, maxKph, maxKey, best)
  {
  }

  /** One read of the inner loop: the field of time band `t` in direction `d`. */
  method ReadBand(input: Fields, t: nat, d: nat) returns (value: Result<Option<real>>, description: string)
    requires t < |TIMES| && d < |DIRECTIONS|
    ensures 2 * t + d < BANDS
    ensures value == Speed(input, 2 * t + d) && description == Description(2 * t + d)
  {
    var time := TIMES[t];
    var direction := DIRECTIONS[d];
    BandAt(t, d);
    var key := "averagespeed_" + time + direction + "_kph";
    value := FieldAsDouble(input, key);
    description := time + " / " + direction;
  }

  /** The nested loop of `highest_speed`: time bands outside, directions inside. */
  method HighestSpeedScan(input: Fields) returns (r: Result<(int, string)>)
    ensures r == HighestSpeed(input)
  {
    var maxKph: Option<real> := None;
    var maxKey: Option<string> := None;
    ghost var best: nat := 0;
    for t := 0 to TIME_BANDS
      invariant Scanned(Speeds(input), 2 * t, maxKph, maxKey, best)
    {
      var failure;
      failure, maxKph, maxKey, best := ScanTime(input, t, maxKph, maxKey, best);
      if failure.Some? {
        ScanMaxFailFrom(Speeds(input), 2 * t + 2, BANDS);
        return Err(failure.value);
      }
    }
    if maxKph.None? {
      return Err(Panic(UNWRAP_NONE));
    }
    r := Ok((SaturateUsize(RoundHalfAway(maxKph.value / 3.6)), maxKey.value));
  }

  /** One turn of the outer loop: both directions of time band `t`. */
  method ScanTime(input: Fields, t: nat, maxKph: Option<real>, maxKey: Option<string>, ghost best: nat)
    returns (failure: Option<Error>, maxKph': Option<real>, maxKey': Option<string>, ghost best': nat)
    requires t < TIME_BANDS
    requires Scanned(Speeds(input), 2 * t, maxKph, maxKey, best)
    ensures failure.Some? ==> ScanMax(Speeds(input), 2 * t + 2) == Err(failure.value)
    ensures failure.None? ==> Scanned(Speeds(input), 2 * t + 2, maxKph', maxKey', best')
  {
    maxKph', maxKey', best' := maxKph, maxKey, best;
    for d := 0 to 2
      invariant Scanned(Speeds(input), 2 * t + d, maxKph', maxKey', best')
    {
      failure, maxKph', maxKey', best' := ScanBand(input, t, d, maxKph', maxKey', best');
      if failure.Some? {
        ScanMaxFailFrom(Speeds(input), 2 * t + d + 1, 2 * t + 2);
        return;
      }
    }
    failure := None;
  }

  /** One turn of the inner loop: read band `(t, d)` and keep the greater speed. */
  method ScanBand(input: Fields, t: nat, d: nat, maxKph: Option<real>, maxKey: Option<string>, ghost best: nat)
    returns (failure: Option<Error>, maxKph': Option<real>, maxKey': Option<string>, ghost best': nat)
    requires t < TIME_BANDS && d < 2
    requires Scanned(Speeds(input), 2 * t + d, maxKph, maxKey, best)
    ensures failure.Some? ==> ScanMax(Speeds(input), 2 * t + d + 1) == Err(failure.value)
    ensures failure.None? ==> Scanned(Speeds(input), 2 * t + d + 1, maxKph', maxKey', best')
  {
    TimesLength();
    var value, description := ReadBand(input, t, d);
    maxKph', maxKey', best' := maxKph, maxKey, best;
    if value.Err? {
      SpeedsAt(input, 2 * t + d);
      return Some(value.error), maxKph, maxKey, best;
    }
    failure := None;
    ghost var n := 2 * t + d;
    SpeedsAt(input, n);
    ScanStep(Speeds(input), n, maxKph, maxKey, best, value.value);
    if value.value.Some? && (maxKph.None? || maxKph.value < value.value.value) {
      maxKph' := Some(value.value.value);
      maxKey' := Some(description);
      best' := n;
    }
  }

  const INDICATIVE := "indicativespeedlimit_mph"

  /** The three values `speed_properties` writes: the indicative limit (whose absence
      panics), then the worst speed and its description. `highest_speed` runs first,
      so its errors come first. */
  function SpeedValues(input: Fields): Result<(int, int, string)> {
    var (worst, description) :- HighestSpeed(input);
    var indicative :- FieldAsInteger(input, INDICATIVE);
    if indicative.None? then Err(Panic(UNWRAP_NONE))
    else Ok((indicative.value, worst, description))
  }

  /** A missing indicative limit panics once some band is set. */
  lemma MissingIndicativePanics(input: Fields)
    requires HighestSpeed(input).Ok?
    requires INDICATIVE in input && input[INDICATIVE].Unset?
    ensures SpeedValues(input) == Err(Panic(UNWRAP_NONE))
  {
  }

  /** `speed_properties`: on success the output gains exactly `indicative_mph`,
      `worst_mph` and `worst_description`. */
  method SpeedProperties(input: Fields, output: OutputFeature) returns (r: Result<()>)
    modifies output
    ensures r.Ok? <==> SpeedValues(input).Ok?
    ensures r.Err? ==> r.error == SpeedValues(input).error && output.properties == old(output.properties)
    ensures r.Ok? ==>
      var (indicative, worst, description) := SpeedValues(input).value;
      output.properties == old(output.properties)["indicative_mph" := Int(indicative)]
                                                 ["worst_mph" := Int(worst)]
                                                 ["worst_description" := Str(description)]
  {
    var highest := HighestSpeedScan(input);
    if highest.Err? {
      return Err(highest.error);
    }
    var (worst, description) := highest.value;
    var indicative := FieldAsInteger(input, INDICATIVE);
    if indicative.Err? {
      return Err(indicative.error);
    }
    if indicative.value.None? {
      return Err(Panic(UNWRAP_NONE));
    }
    output.SetProperty("indicative_mph", Int(indicative.value.value));
    output.SetProperty("worst_mph", Int(worst));
    output.SetProperty("worst_description", Str(description));
    r := Ok(());
  }
}
