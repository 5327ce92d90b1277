/** The Ordnance Survey feature reads shared by the ordnance_survey_layers tools: a GDAL
    feature's attribute fields, the typed reads of them by name, and the GeoJSON
    output feature whose properties the extractors set in place. */
module OsFields {
  import opened Outcomes
  import opened Json

  /** One attribute field of a GDAL feature; `Unset` is a null field. */
  datatype FieldValue = Unset | Real(x: real) | Text(s: string) | Whole(i: int)

  /** The fields of one input feature, by name. */
  type Fields = map<string, FieldValue>

  /** `field_as_double_by_name`: a name the layer does not have is an `Err`; a null
      field is `None`; an integer field reads as its value. */
  function FieldAsDouble(input: Fields, name: string): (r: Result<Option<real>>)
    ensures name !in input ==> r == Err(FieldReadError(name))
    ensures name in input && input[name].Real? ==> r == Ok(Some(input[name].x))
    ensures name in input && input[name].Unset? ==> r == Ok(None)
  {
    if name !in input then Err(FieldReadError(name))
    else match input[name]
      case Unset => Ok(None)
      case Real(x) => Ok(Some(x))
      case Whole(i) => Ok(Some(i as real))
      case Text(_) => Err(FieldReadError(name))
  }

  /** `field_as_string_by_name`: a missing name is an `Err`, a null field `None`. */
  function FieldAsString(input: Fields, name: string): (r: Result<Option<string>>)
    ensures name !in input ==> r == Err(FieldReadError(name))
    ensures name in input && input[name].Text? ==> r == Ok(Some(input[name].s))
    ensures name in input && input[name].Unset? ==> r == Ok(None)
  {
    if name !in input then Err(FieldReadError(name))
    else match input[name]
      case Unset => Ok(None)
      case Text(s) => Ok(Some(s))
      case _ => Err(FieldReadError(name))
  }

  /** `field_as_integer_by_name`: a missing name is an `Err`, a null field `None`. */
  function FieldAsInteger(input: Fields, name: string): (r: Result<Option<int>>)
    ensures name !in input ==> r == Err(FieldReadError(name))
    ensures name in input && input[name].Whole? ==> r == Ok(Some(input[name].i))
    ensures name in input && input[name].Unset? ==> r == Ok(None)
  {
    if name !in input then Err(FieldReadError(name))
    else match input[name]
      case Unset => Ok(None)
      case Whole(i) => Ok(Some(i))
      case _ => Err(FieldReadError(name))
  }

  /** Rust's `Option::unwrap` on `None`. */
  const UNWRAP_NONE := "called `Option::unwrap()` on a `None` value"

  /** The GeoJSON feature an extractor fills: only its properties change. */
  class OutputFeature {
    var properties: Props

    constructor ()
      ensures properties == map[]
    {
      properties := map[];
    }

    /** `set_property`: adds the key, or replaces its value. */
    method SetProperty(key: string, value: Json)
      modifies this
      ensures properties == old(properties)[key := value]
    {
      properties := properties[key := value];
    }
  }
}
