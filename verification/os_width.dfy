/** ordnance_survey_layers/src/width.rs (and road_width.rs, whose `road_width_properties`
    is the same function): which features of the road and pavement width layers are
    written, and with which properties. */
module OsWidth {
  import opened Outcomes
  import opened Json
  import opened OsFields

  const ROAD_AVERAGE := "roadwidth_average"
  const ROAD_MINIMUM := "roadwidth_minimum"
  const PAVEMENT_AVERAGE := "presenceofpavement_averagewidth_m"
  const PAVEMENT_MINIMUM := "presenceofpavement_minimumwidth_m"
  const PAVEMENT_SIDE := "presenceofpavement_sideofroad"

  /** The road widths of a feature: a read error on the average (read first) or the
      minimum propagates; the widths are there exactly when both fields are set. */
  function RoadWidths(input: Fields): (r: Result<Option<(real, real)>>)
    ensures r.Ok? <==> FieldAsDouble(input, ROAD_AVERAGE).Ok? && FieldAsDouble(input, ROAD_MINIMUM).Ok?
    ensures FieldAsDouble(input, ROAD_AVERAGE).Err? ==> r == Err(FieldAsDouble(input, ROAD_AVERAGE).error)
    ensures r.Ok? ==>
      (r.value.Some? <==> FieldAsDouble(input, ROAD_AVERAGE).value.Some? && FieldAsDouble(input, ROAD_MINIMUM).value.Some?)
    ensures r.Ok? && r.value.Some? ==>
      r.value.value == (FieldAsDouble(input, ROAD_AVERAGE).value.value, FieldAsDouble(input, ROAD_MINIMUM).value.value)
  {
    var average :- FieldAsDouble(input, ROAD_AVERAGE);
    var minimum :- FieldAsDouble(input, ROAD_MINIMUM);
    if average.Some? && minimum.Some? then Ok(Some((average.value, minimum.value))) else Ok(None)
  }

  /** `road_width_properties`: true exactly when both widths are set, and then the
      output gains exactly `average` and `minimum`; otherwise it is left alone. */
  method RoadWidthProperties(input: Fields, output: OutputFeature) returns (r: Result<bool>)
    modifies output
    ensures r.Ok? <==> RoadWidths(input).Ok?
    ensures r.Err? ==> r.error == RoadWidths(input).error
    ensures r.Ok? ==> (r.value <==> RoadWidths(input).value.Some?)
    ensures r == Ok(true) ==>
      var (average, minimum) := RoadWidths(input).value.value;
      output.properties == old(output.properties)["average" := Float(average)]["minimum" := Float(minimum)]
    ensures r != Ok(true) ==> output.properties == old(output.properties)
  {
    var average := FieldAsDouble(input, ROAD_AVERAGE);
    if average.Err? {
      return Err(average.error);
    }
    var minimum := FieldAsDouble(input, ROAD_MINIMUM);
    if minimum.Err? {
      return Err(minimum.error);
    }
    if average.value.Some? && minimum.value.Some? {
      output.SetProperty("average", Float(average.value.value));
      output.SetProperty("minimum", Float(minimum.value.value));
      r := Ok(true);
    } else {
      r := Ok(false);
    }
  }

  /** The pavement side and widths of a feature: the three reads propagate their
      errors in order; the data is there when all three are set and the two widths
      are not both zero (a single zero width is kept). */
  function PavementWidths(input: Fields): (r: Result<Option<(string, real, real)>>)
    ensures r.Ok? <==>
      FieldAsDouble(input, PAVEMENT_AVERAGE).Ok? && FieldAsDouble(input, PAVEMENT_MINIMUM).Ok? &&
      FieldAsString(input, PAVEMENT_SIDE).Ok?
  {
    var average :- FieldAsDouble(input, PAVEMENT_AVERAGE);
    var minimum :- FieldAsDouble(input, PAVEMENT_MINIMUM);
    var side :- FieldAsString(input, PAVEMENT_SIDE);
    if average.Some? && minimum.Some? && side.Some? then
      if average.value == 0.0 && minimum.value == 0.0 then Ok(None)
      else Ok(Some((side.value, average.value, minimum.value)))
    else Ok(None)
  }

  /** When pavement data is kept: every field set and not both widths zero. */
  lemma PavementWidthsKept(input: Fields)
    requires PavementWidths(input).Ok?
    ensures PavementWidths(input).value.Some? <==>
      && FieldAsDouble(input, PAVEMENT_AVERAGE).value.Some?
      && FieldAsDouble(input, PAVEMENT_MINIMUM).value.Some?
      && FieldAsString(input, PAVEMENT_SIDE).value.Some?
      && !(FieldAsDouble(input, PAVEMENT_AVERAGE).value.value == 0.0 && FieldAsDouble(input, PAVEMENT_MINIMUM).value.value == 0.0)
    ensures PavementWidths(input).value.Some? ==>
      PavementWidths(input).value.value == (FieldAsString(input, PAVEMENT_SIDE).value.value,
        FieldAsDouble(input, PAVEMENT_AVERAGE).value.value, FieldAsDouble(input, PAVEMENT_MINIMUM).value.value)
  {
  }

  /** A feature whose widths are both zero is never written, even with a side. */
  lemma BothZeroDropped(input: Fields, side: string)
    requires input == map[PAVEMENT_AVERAGE := Real(0.0), PAVEMENT_MINIMUM := Whole(0), PAVEMENT_SIDE := Text(side)]
    ensures PavementWidths(input) == Ok(None)
  {
  }

  /** `pavement_width_properties`: true exactly when the data is kept, and then the
      output gains `side`, `average` and `minimum`; otherwise it is left alone. */
  method PavementWidthProperties(input: Fields, output: OutputFeature) returns (r: Result<bool>)
    modifies output
    ensures r.Ok? <==> PavementWidths(input).Ok?
    ensures r.Err? ==> r.error == PavementWidths(input).error
    ensures r.Ok? ==> (r.value <==> PavementWidths(input).value.Some?)
    ensures r == Ok(true) ==>
      var (side, average, minimum) := PavementWidths(input).value.value;
      output.properties ==
        old(output.properties)["side" := Str(side)]["average" := Float(average)]["minimum" := Float(minimum)]
    ensures r != Ok(true) ==> output.properties == old(output.properties)
  {
    var average := FieldAsDouble(input, PAVEMENT_AVERAGE);
    if average.Err? {
      return Err(average.error);
    }
    var minimum := FieldAsDouble(input, PAVEMENT_MINIMUM);
    if minimum.Err? {
      return Err(minimum.error);
    }
    var side := FieldAsString(input, PAVEMENT_SIDE);
    if side.Err? {
      return Err(side.error);
    }
    if average.value.Some? && minimum.value.Some? && side.value.Some? {
      if average.value.value == 0.0 && minimum.value.value == 0.0 {
        return Ok(false);
      }
      output.SetProperty("side", Str(side.value.value));
      output.SetProperty("average", Float(average.value.value));
      output.SetProperty("minimum", Float(minimum.value.value));
      r := Ok(true);
    } else {
      r := Ok(false);
    }
  }
}
