/** timeseries.py keeps its own copy of `clean_date`, applied to the mission
    dates before they are counted per day. */
module TimeSeries {
  import opened Text
  import opened PythonDate
  import OperationsMap

  /** `clean_date` as timeseries.py writes it; it agrees with the operations-map
      copy on every input, so the two scripts drop and rewrite the same dates. */
  function CleanDate(datestr: string): (r: string)
    ensures r == OperationsMap.CleanDate(datestr)
  {
    if OperationsMap.StartsWithEightDigits(datestr) then
      var cleandate := Slice(datestr, 0, 4) + "-" + Slice(datestr, 4, 6) + "-" + Slice(datestr, 6, 9);
      var year, month, day := PyInt(Slice(datestr, 0, 4)), PyInt(Slice(datestr, 4, 6)), PyInt(Slice(datestr, 6, 9));
      if year.Some? && month.Some? && day.Some? && IsRealDate(year.value, month.value, day.value)
      then cleandate
      else "INVALID"
    else datestr
  }
}
