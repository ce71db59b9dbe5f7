/** Small shared vocabulary: optional values, results and the ways an
    ingestion call can fail. */
module Common {

  /** A value that may be absent.  In a series, `None` is the MISSING
      (NaN) cell that marks a logging outage. */
  datatype Option<+T> = None | Some(value: T)

  /** The ways `log_parsing` stops with an exception instead of a result. */
  datatype Failure =
    | EmptyRootPath   // `log_folder[-1]` on an empty (stripped) path
    | FieldMissing    // indexing a field the split line does not have
    | BadTimestamp    // `pd.to_datetime` refuses the date/time text
    | BadNumber       // `float(...)` refuses a value field

  datatype Result<+T> = Ok(value: T) | Err(failure: Failure)
}
