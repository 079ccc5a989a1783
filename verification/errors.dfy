/** Error values raised by the EDA helper, and the result types that carry them. */
module Errors {

  /** The Python exception class an error is raised as. */
  datatype ExceptionClass = ValueError | TypeError

  /** One variant per error message of main.py; payloads are the names the message lists. */
  datatype Error =
    | DataIsNone                                  // `data` is None
    | DataIsSeries                                // `data` is a single column
    | DataNotDataFrame                            // `data` is not a table at all
    | IncludeNotList                              // `include` given but not a list
    | ExcludeNotList                              // `exclude` given but not a list
    | FeaturesNotFound(missing: seq<string>)      // names absent from the table, in list order
    | NonNumericalIncluded(names: set<string>)    // built from a Python set, so unordered
    | NoFeaturesAfterFiltering                    // the selection came out empty

  /** Every error is a ValueError except the one for a value that is not a table. */
  function Raises(e: Error): ExceptionClass
  {
    if e.DataNotDataFrame? then TypeError else ValueError
  }

  /** A check that returns nothing on success. */
  datatype Outcome = Pass | Fail(error: Error)

  /** A computation that returns a value or raises. */
  datatype Result<T> = Ok(value: T) | Err(error: Error)
}
