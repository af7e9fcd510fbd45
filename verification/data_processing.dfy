/**
 * The payload processor and the statistics helper of src/utils/dataProcessing.js.
 */
module DataProcessing {
  import opened Wrappers
  import opened Js

  /** The six daily metrics the dashboard requests and displays. */
  datatype Metric =
    | TemperatureMax | TemperatureMin | TemperatureMean
    | ApparentMax | ApparentMin | ApparentMean

  /** A metric's value in a payload: an array of numbers, or some other non-array JSON value. */
  datatype Column = NotArray | Values(values: seq<real>)

  /**
   * The payload's `daily` object. `time` is `None` when the property is
   * missing; a metric absent from `columns` is `undefined`.
   */
  datatype Daily = Daily(time: Option<seq<string>>, columns: map<Metric, Column>)

  /** A parsed response body; `daily` is `None` when it is missing or falsy. */
  datatype Payload = Payload(daily: Option<Daily>)

  /**
   * The processed record: display labels, the metric columns copied from the
   * payload, and the original date strings.
   */
  datatype WeatherRecord = WeatherRecord(time: seq<string>, columns: map<Metric, Column>, rawDates: seq<string>)

  const InvalidFormat := "Invalid data format received from API"
  /** The engine's TypeError message for `daily.time.map` when `time` is missing. */
  const TimeMissing := "Cannot read properties of undefined (reading 'map')"

  /** `dates.map(dayLabel)`, element by element. */
  function Labels(dates: seq<string>, dayLabel: string -> string): (r: seq<string>)
    ensures |r| == |dates|
    ensures forall i :: 0 <= i < |dates| ==> r[i] == dayLabel(dates[i])
  {
    if dates == [] then [] else [dayLabel(dates[0])] + Labels(dates[1..], dayLabel)
  }

  /**
   * processWeatherData. `data` is `None` for a null or undefined payload;
   * `dayLabel` is the locale date formatter, left uninterpreted.
   */
  function ProcessWeatherData(data: Option<Payload>, dayLabel: string -> string): (r: Result<WeatherRecord>)
    ensures data.None? || data.value.daily.None? ==> r == Err(InvalidFormat)
    ensures r.Ok? <==> data.Some? && data.value.daily.Some? && data.value.daily.value.time.Some?
    ensures r.Err? ==> r.message != ""
    ensures r.Ok? ==>
      var daily := data.value.daily.value;
      && |r.value.time| == |daily.time.value| == |r.value.rawDates|
      && (forall i :: 0 <= i < |r.value.time| ==> r.value.time[i] == dayLabel(daily.time.value[i]))
      && r.value.rawDates == daily.time.value
      && r.value.columns == daily.columns
  {
    if data.None? || data.value.daily.None? then Err(InvalidFormat)
    else
      var daily := data.value.daily.value;
      if daily.time.None? then Err(TimeMissing)
      else Ok(WeatherRecord(Labels(daily.time.value, dayLabel), daily.columns, daily.time.value))
  }

  /** The summary statistics; `avg` is the unrounded mean (its one-decimal text form is not modelled). */
  datatype Stats = Stats(min: Number, max: Number, avg: Number)

  const DefaultStats := Stats(Finite(0.0), Finite(0.0), Finite(0.0))

  /** `Math.min(...values)` on a non-empty array: an element no greater than any other. */
  function MinOf(values: seq<real>): (m: real)
    requires |values| > 0
    ensures m in values
    ensures forall i :: 0 <= i < |values| ==> m <= values[i]
  {
    if |values| == 1 then values[0]
    else
      var rest := MinOf(values[1..]);
      if values[0] <= rest then values[0] else rest
  }

  /** `Math.max(...values)` on a non-empty array: an element no smaller than any other. */
  function MaxOf(values: seq<real>): (m: real)
    requires |values| > 0
    ensures m in values
    ensures forall i :: 0 <= i < |values| ==> values[i] <= m
  {
    if |values| == 1 then values[0]
    else
      var rest := MaxOf(values[1..]);
      if values[0] >= rest then values[0] else rest
  }

  /** `values.reduce((acc, val) => acc + val, 0)` */
  function Sum(values: seq<real>): real
  {
    if values == [] then 0.0 else values[0] + Sum(values[1..])
  }

  /** A sum of n values lying in [lo, hi] lies in [n * lo, n * hi]. */
  lemma {:induction false} SumBounds(values: seq<real>, lo: real, hi: real)
    requires forall i :: 0 <= i < |values| ==> lo <= values[i] <= hi
    ensures (|values| as real) * lo <= Sum(values) <= (|values| as real) * hi
  {
    if values != [] {
      SumBounds(values[1..], lo, hi);
    }
  }

  /** Dividing by a positive count keeps a value between the bounds scaled by that count. */
  lemma DivideBounds(s: real, n: real, lo: real, hi: real)
    requires n > 0.0
    requires n * lo <= s <= n * hi
    ensures lo <= s / n <= hi
    ensures (s / n) * n == s
  {
  }

  /** The mean of values lying in [lo, hi] lies in [lo, hi] too, and times the count gives back the sum. */
  lemma MeanWithin(values: seq<real>, lo: real, hi: real)
    requires |values| > 0
    requires forall i :: 0 <= i < |values| ==> lo <= values[i] <= hi
    ensures lo <= Sum(values) / (|values| as real) <= hi
    ensures (Sum(values) / (|values| as real)) * (|values| as real) == Sum(values)
  {
    var n := |values| as real;
    var total := Sum(values);
    SumBounds(values, lo, hi);
    assert n * lo <= total <= n * hi;
    DivideBounds(total, n, lo, hi);
  }

  /** The mean of a non-empty array lies between its minimum and its maximum. */
  lemma AverageBetweenExtremes(values: seq<real>)
    requires |values| > 0
    ensures MinOf(values) <= Sum(values) / (|values| as real) <= MaxOf(values)
  {
    MeanWithin(values, MinOf(values), MaxOf(values));
  }

  /**
   * What the statistics of a non-empty array promise: the minimum and maximum
   * are elements bounding every element, and the mean is the sum divided by
   * the count, hence between the two (see MeanWithin).
   */
  ghost predicate Summarizes(r: Stats, values: seq<real>)
  {
    && r.min.Finite? && r.max.Finite? && r.avg.Finite?
    && r.min.value in values && r.max.value in values
    && (forall i :: 0 <= i < |values| ==> r.min.value <= values[i] <= r.max.value)
    && r.min.value <= r.avg.value <= r.max.value
    && r.avg.value == Sum(values) / (|values| as real)
  }

  /** The extremes and the mean computed the way calculateStatistics does summarize the array. */
  lemma ComputedStatsSummarize(values: seq<real>)
    requires |values| > 0
    ensures Summarizes(Stats(Finite(MinOf(values)), Finite(MaxOf(values)), Finite(Sum(values) / (|values| as real))), values)
  {
    MeanWithin(values, MinOf(values), MaxOf(values));
  }

  /**
   * calculateStatistics. A null record, an absent metric or a non-array value
   * gives the all-zero default. An empty array passes the guard and gives what
   * `Math.min()`, `Math.max()` and `0 / 0` give: Infinity, -Infinity and NaN.
   */
  function CalculateStatistics(data: Option<WeatherRecord>, metric: Metric): (r: Stats)
    ensures data.None? || metric !in data.value.columns || data.value.columns[metric].NotArray? ==> r == DefaultStats
    ensures data.Some? && metric in data.value.columns && data.value.columns[metric] == Values([]) ==>
      r == Stats(PosInfinity, NegInfinity, NaN)
    ensures data.Some? && metric in data.value.columns && data.value.columns[metric].Values? &&
            |data.value.columns[metric].values| > 0 ==>
      Summarizes(r, data.value.columns[metric].values)
  {
    if data.None? || metric !in data.value.columns || !data.value.columns[metric].Values? then DefaultStats
    else
      var values := data.value.columns[metric].values;
      if values == [] then Stats(PosInfinity, NegInfinity, NaN)
      else
        ComputedStatsSummarize(values);
        Stats(Finite(MinOf(values)), Finite(MaxOf(values)), Finite(Sum(values) / (|values| as real)))
  }

  /** The worked example: the temperatures 10, 20 and 30 give minimum 10, maximum 30 and mean 20. */
  lemma StatisticsExample(record: WeatherRecord)
    requires TemperatureMax in record.columns && record.columns[TemperatureMax] == Values([10.0, 20.0, 30.0])
    ensures CalculateStatistics(Some(record), TemperatureMax) == Stats(Finite(10.0), Finite(30.0), Finite(20.0))
  {
    var values := [10.0, 20.0, 30.0];
    assert values[1..] == [20.0, 30.0] && values[1..][1..] == [30.0];
    assert Sum(values) == 60.0;
  }
}
