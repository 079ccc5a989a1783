/** `validate_data`: the guard run on `data` before anything else. */
module Validation {
  import opened Errors
  import opened Tables

  /**
   * Passes exactly for a DataFrame and has no other effect. None and a Series are
   * rejected with a ValueError each; any other value with a TypeError.
   */
  function ValidateData(data: Data): (r: Outcome)
    ensures r.Pass? <==> data.DataFrameValue?
    ensures data.NoneValue? ==> r == Fail(DataIsNone) && Raises(r.error) == ValueError
    ensures data.SeriesValue? ==> r == Fail(DataIsSeries) && Raises(r.error) == ValueError
    ensures data.OtherValue? ==> r.Fail? && Raises(r.error) == TypeError
  {
    if data.NoneValue? then Fail(DataIsNone)
    else if data.SeriesValue? then Fail(DataIsSeries)
    else if !data.DataFrameValue? then Fail(DataNotDataFrame)
    else Pass
  }
}
