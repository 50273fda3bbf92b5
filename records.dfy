/** The values that flow between the CSV reader and the visibility filter. */
module Records {

  datatype Option<+T> = None | Some(value: T)

  /** A value, or the message of the exception thrown instead. */
  datatype Result<+T> = Ok(value: T) | Throws(message: string)

  /** A field value after parsing: a string, or the absent-value marker `null`. */
  datatype Value = Str(s: string) | Null

  /** A parsed row: field name to value. A key that is not in the map is a field
      the row does not have as its own property. */
  type Record = map<string, Value>

  /** One entry of the `errors` list that a parse reports. */
  datatype ParseError = ParseError(message: string)

  /** What the external CSV parser returns: the rows and the errors it met. */
  datatype ParseResult = ParseResult(data: seq<Record>, errors: seq<ParseError>)

  /** The object handed to the visibility filter; `data` is `None` when the
      object has no (or a falsy) `data` property. */
  datatype CsvData = CsvData(data: Option<seq<Record>>, errors: seq<ParseError>)
}
