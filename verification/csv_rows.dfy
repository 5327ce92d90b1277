/** Rows of the Department for Transport traffic-count CSV as `csv.DictReader` yields
    them, the cell conversions the layer scripts apply to them, and the point features
    they write. */
module CsvRows {
  import opened Outcomes
  import opened Json
  import opened Text
  import opened GeoJson

  /** A row: column name to cell text. */
  type Row = map<string, string>

  const REGION := "Region_ons_code"

  /** `row["Region_ons_code"][0] == "E"`: a missing column raises KeyError and an empty
      cell IndexError. */
  function InEngland(row: Row): (r: Result<bool>)
    ensures r.Ok? <==> REGION in row && row[REGION] != ""
    ensures r.Ok? ==> (r.value <==> row[REGION][0] == 'E')
    ensures r.Err? ==> r.error == (if REGION in row then IndexError else KeyError(REGION))
  {
    var region :- Lookup(row, REGION);
    if region == "" then Err(IndexError) else Ok(region[0] == 'E')
  }

  /** `int(row[column])`. */
  function IntCell(row: Row, column: string): (r: Result<int>)
    ensures r.Ok? <==> column in row && ParseInt(row[column]).Some?
    ensures r.Ok? ==> r.value == ParseInt(row[column]).value
  {
    var text :- Lookup(row, column);
    match ParseInt(text)
    case Some(n) => Ok(n)
    case None => Err(ValueError(text))
  }

  /** `float(row[column])`; `parseFloat` is Python's float parsing, `None` its ValueError. */
  function FloatCell(row: Row, column: string, parseFloat: string -> Option<real>): (r: Result<real>)
    ensures r.Ok? <==> column in row && parseFloat(row[column]).Some?
    ensures r.Ok? ==> r.value == parseFloat(row[column]).value
  {
    var text :- Lookup(row, column);
    match parseFloat(text)
    case Some(x) => Ok(x)
    case None => Err(ValueError(text))
  }

  /** A GeoJSON Point feature at `[lon, lat]` with the given properties. */
  function PointFeature(lon: real, lat: real, properties: Props): (f: Feature)
    ensures f.geometry.coordinates == List([Float(lon), Float(lat)])
    ensures f.properties == properties
  {
    Feature(properties,
            Geometry(List([Float(lon), Float(lat)]), map["type" := Str("Point")]),
            None,
            map["type" := Str("Feature")])
  }
}
