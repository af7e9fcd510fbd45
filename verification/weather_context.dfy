/**
 * The query coordinator of src/context/WeatherContext.jsx: the state record
 * the provider holds, and the transitions `getWeatherData` and `clearData`
 * make to it. A call of `getWeatherData` is split into the event that starts
 * it and the event that completes it, so that overlapping calls can
 * interleave; the fetch and the processing are an abstract outcome carried
 * by the completion.
 */
module WeatherContext {
  import opened Wrappers
  import opened DataProcessing

  /** `{ latitude, longitude }`; both `null` before the first success. */
  datatype Coordinates = Coordinates(latitude: Option<real>, longitude: Option<real>)

  /** `{ startDate, endDate }` as the `yyyy-MM-dd` strings passed in; both `null` before the first success. */
  datatype DateRange = DateRange(startDate: Option<string>, endDate: Option<string>)

  /** The arguments of one `getWeatherData` call. */
  datatype Request = Request(latitude: real, longitude: real, startDate: string, endDate: string)

  /** The provider's five pieces of state. */
  datatype QueryState = QueryState(
    weatherData: Option<WeatherRecord>,
    loading: bool,
    error: Option<string>,
    coordinates: Coordinates,
    dateRange: DateRange)

  const FetchFailed := "Failed to fetch weather data"

  /** The state the provider is created with. */
  function Initial(): (s: QueryState)
    ensures s.weatherData.None? && !s.loading && s.error.None?
    ensures s.coordinates.latitude.None? && s.coordinates.longitude.None?
    ensures s.dateRange.startDate.None? && s.dateRange.endDate.None?
  {
    QueryState(None, false, None, Coordinates(None, None), DateRange(None, None))
  }

  /**
   * The body of the `try` block after the throttle: the fetch either throws
   * with a message or yields a payload, which is then processed (and may
   * throw in turn). `dayLabel` is the locale date formatter.
   */
  function Settle(fetched: Result<Option<Payload>>, dayLabel: string -> string): (r: Result<WeatherRecord>)
    ensures fetched.Err? ==> r == Err(fetched.message)
    ensures fetched.Ok? ==> r == ProcessWeatherData(fetched.value, dayLabel)
  {
    match fetched
    case Err(message) => Err(message)
    case Ok(data) => ProcessWeatherData(data, dayLabel)
  }

  /** The message stored on failure: `err.message || 'Failed to fetch weather data'`. */
  function ErrorText(message: string): (t: string)
    ensures t != ""
    ensures message != "" ==> t == message
    ensures message == "" ==> t == FetchFailed
  {
    if message == "" then FetchFailed else message
  }

  /** `setLoading(true); setError(null)`: nothing else changes, and the previous data stays visible. */
  function Begin(s: QueryState): (r: QueryState)
    ensures r.loading && r.error.None?
    ensures r.weatherData == s.weatherData && r.coordinates == s.coordinates && r.dateRange == s.dateRange
  {
    s.(loading := true, error := None)
  }

  /**
   * The rest of the call once its outcome is known: on success the record and
   * exactly the arguments of this call are stored; on failure the message is
   * stored and the data dropped; either way `finally` clears `loading`.
   * Nothing tags the completion with its call, so it overwrites whatever
   * state it finds.
   */
  function Complete(s: QueryState, request: Request, outcome: Result<WeatherRecord>): (r: QueryState)
    ensures !r.loading
    ensures outcome.Ok? ==>
      && r.weatherData == Some(outcome.value)
      && r.coordinates == Coordinates(Some(request.latitude), Some(request.longitude))
      && r.dateRange == DateRange(Some(request.startDate), Some(request.endDate))
      && r.error == s.error
    ensures outcome.Err? ==>
      && r.weatherData.None?
      && r.error.Some? && r.error.value != ""
      && (outcome.message != "" ==> r.error == Some(outcome.message))
      && (outcome.message == "" ==> r.error == Some(FetchFailed))
      && r.coordinates == s.coordinates && r.dateRange == s.dateRange
  {
    match outcome
    case Ok(record) =>
      s.(weatherData := Some(record),
         coordinates := Coordinates(Some(request.latitude), Some(request.longitude)),
         dateRange := DateRange(Some(request.startDate), Some(request.endDate)),
         loading := false)
    case Err(message) =>
      s.(error := Some(ErrorText(message)), weatherData := None, loading := false)
  }

  /** `clearData`: drops the data and the error and keeps everything else. */
  function ClearData(s: QueryState): (r: QueryState)
    ensures r.weatherData.None? && r.error.None?
    ensures r.loading == s.loading && r.coordinates == s.coordinates && r.dateRange == s.dateRange
  {
    s.(weatherData := None, error := None)
  }

  /**
   * One whole `getWeatherData` call with nothing interleaved: start, then
   * settle the fetch and the processing, then complete. Exactly one of data
   * and error results; the data is the processed payload stored with this
   * call's arguments, and any failure keeps the previous coordinates and
   * dates.
   */
  function GetWeatherData(s: QueryState, request: Request, fetched: Result<Option<Payload>>, dayLabel: string -> string)
    : (r: QueryState)
    ensures !r.loading
    ensures r.weatherData.Some? <==> r.error.None?
    ensures r.weatherData.Some? <==>
      fetched.Ok? && fetched.value.Some? && fetched.value.value.daily.Some? && fetched.value.value.daily.value.time.Some?
    ensures r.weatherData.Some? ==>
      && r.weatherData.value.time == Labels(fetched.value.value.daily.value.time.value, dayLabel)
      && r.weatherData.value.rawDates == fetched.value.value.daily.value.time.value
      && r.weatherData.value.columns == fetched.value.value.daily.value.columns
      && r.coordinates == Coordinates(Some(request.latitude), Some(request.longitude))
      && r.dateRange == DateRange(Some(request.startDate), Some(request.endDate))
    ensures fetched.Err? ==> r.error == Some(ErrorText(fetched.message))
    ensures fetched.Ok? && (fetched.value.None? || fetched.value.value.daily.None?) ==> r.error == Some(InvalidFormat)
    ensures r.error.Some? ==> r.coordinates == s.coordinates && r.dateRange == s.dateRange
  {
    Complete(Begin(s), request, Settle(fetched, dayLabel))
  }

  /**
   * The worked example: three dates and a maximum-temperature column of 5, 6
   * and 7 give a record with those values and the three labels.
   */
  lemma EndToEndExample(s: QueryState, dayLabel: string -> string)
    ensures var dates := ["2023-01-01", "2023-01-02", "2023-01-03"];
      var daily := Daily(Some(dates), map[TemperatureMax := Values([5.0, 6.0, 7.0])]);
      var request := Request(40.7128, -74.0060, "2023-01-01", "2023-01-03");
      var r := GetWeatherData(s, request, Ok(Some(Payload(Some(daily)))), dayLabel);
      && r.weatherData.Some? && r.error.None?
      && r.weatherData.value.columns[TemperatureMax] == Values([5.0, 6.0, 7.0])
      && r.weatherData.value.time == [dayLabel(dates[0]), dayLabel(dates[1]), dayLabel(dates[2])]
      && r.coordinates == Coordinates(Some(40.7128), Some(-74.0060))
  {
  }

  /** What can happen to the provider's state. */
  datatype Event =
    | Started(request: Request)
    | Completed(request: Request, outcome: Result<WeatherRecord>)
    | Cleared

  function Step(s: QueryState, e: Event): QueryState
  {
    match e
    case Started(_) => Begin(s)
    case Completed(request, outcome) => Complete(s, request, outcome)
    case Cleared => ClearData(s)
  }

  /** The state after a sequence of events, applied in order. */
  function Run(s: QueryState, events: seq<Event>): QueryState
    decreases |events|
  {
    if events == [] then s else Run(Step(s, events[0]), events[1..])
  }

  lemma {:induction false} RunAppend(s: QueryState, events: seq<Event>, e: Event)
    ensures Run(s, events + [e]) == Step(Run(s, events), e)
    decreases |events|
  {
    if events != [] {
      assert (events + [e])[1..] == events[1..] + [e];
      RunAppend(Step(s, events[0]), events[1..], e);
    }
  }

  /**
   * The coordinates and the date range are both set or both null, each
   * component with its partner, and data is only present once they are set.
   * Which call they belong to is stated by `DataMatchesItsCall`.
   */
  ghost predicate Consistent(s: QueryState)
  {
    && (s.coordinates.latitude.Some? <==> s.coordinates.longitude.Some?)
    && (s.dateRange.startDate.Some? <==> s.dateRange.endDate.Some?)
    && (s.coordinates.latitude.Some? <==> s.dateRange.startDate.Some?)
    && (s.weatherData.Some? ==> s.coordinates.latitude.Some?)
  }

  /** Every step keeps a consistent state consistent. */
  lemma {:induction false} RunConsistent(s: QueryState, events: seq<Event>)
    requires Consistent(s)
    ensures Consistent(Run(s, events))
    decreases |events|
  {
    if events != [] {
      RunConsistent(Step(s, events[0]), events[1..]);
    }
  }

  /** Every state reachable from the initial one, under any interleaving of calls and clears, is consistent. */
  lemma ReachableStatesConsistent(events: seq<Event>)
    ensures Consistent(Run(Initial(), events))
  {
    RunConsistent(Initial(), events);
  }

  /**
   * Calls that do not overlap: every start is followed directly by its own
   * completion, with clears allowed in between calls.
   */
  ghost predicate Sequential(events: seq<Event>)
    decreases |events|
  {
    if events == [] then true
    else if events[0].Cleared? then Sequential(events[1..])
    else
      && |events| >= 2
      && events[0].Started?
      && events[1].Completed? && events[1].request == events[0].request
      && Sequential(events[2..])
  }

  /** Data and an error are never both present. */
  ghost predicate AtMostOneShown(s: QueryState)
  {
    !(s.weatherData.Some? && s.error.Some?)
  }

  /** One complete, non-overlapping call leaves exactly one of data and error, and nothing loading. */
  lemma OneCallSettles(s: QueryState, request: Request, outcome: Result<WeatherRecord>)
    ensures var r := Complete(Begin(s), request, outcome);
      && !r.loading
      && (r.weatherData.Some? <==> r.error.None?)
  {
  }

  /**
   * When calls do not overlap, the dashboard never shows data and an error
   * together, and after the last call completes nothing is loading.
   */
  lemma {:induction false} SequentialCallsShowOneOutcome(s: QueryState, events: seq<Event>)
    requires AtMostOneShown(s)
    requires Sequential(events)
    ensures AtMostOneShown(Run(s, events))
    ensures events != [] ==> Run(s, events).loading == (s.loading && forall i :: 0 <= i < |events| ==> events[i].Cleared?)
    decreases |events|
  {
    if events != [] {
      if events[0].Cleared? {
        SequentialCallsShowOneOutcome(ClearData(s), events[1..]);
        if events[1..] == [] {
          assert Run(s, events) == ClearData(s);
        } else {
          assert forall i :: 1 <= i < |events| ==> events[i] == events[1..][i - 1];
        }
      } else {
        var t := Complete(Begin(s), events[0].request, events[1].outcome);
        assert Run(s, events) == Run(t, events[2..]);
        OneCallSettles(s, events[0].request, events[1].outcome);
        SequentialCallsShowOneOutcome(t, events[2..]);
        if events[2..] != [] {
          assert !events[0].Cleared?;
        }
      }
    }
  }

  /**
   * The completion that comes last decides the data, whatever happened before
   * it; a success also decides the coordinates and dates shown with it.
   */
  lemma LastCompletionDecidesData(s: QueryState, events: seq<Event>, request: Request, outcome: Result<WeatherRecord>)
    ensures var r := Run(s, events + [Completed(request, outcome)]);
      && !r.loading
      && r.weatherData == (if outcome.Ok? then Some(outcome.value) else None)
      && (outcome.Ok? ==> ShowsDataOf(r, request, outcome.value))
      && (outcome.Err? ==> r.error == Some(ErrorText(outcome.message)))
  {
    RunAppend(s, events, Completed(request, outcome));
  }

  /** The state shows `record` together with exactly the coordinates and dates of `request`. */
  ghost predicate ShowsDataOf(s: QueryState, request: Request, record: WeatherRecord)
  {
    && s.weatherData == Some(record)
    && s.coordinates == Coordinates(Some(request.latitude), Some(request.longitude))
    && s.dateRange == DateRange(Some(request.startDate), Some(request.endDate))
  }

  /**
   * The call whose data is on screen after `events`, read backwards from the
   * end: the last completion if it succeeded and no clear came after it.
   * Starts in between do not hide it.
   */
  function ShownCall(events: seq<Event>): Option<(Request, WeatherRecord)>
    decreases |events|
  {
    if events == [] then None
    else
      match events[|events| - 1]
      case Started(_) => ShownCall(events[..|events| - 1])
      case Cleared => None
      case Completed(request, outcome) => if outcome.Ok? then Some((request, outcome.value)) else None
  }

  /**
   * From the initial state, under any interleaving, data is on screen exactly
   * when some call's success is still current, and then it is shown with that
   * call's coordinates and dates.
   */
  lemma {:induction false} DataMatchesItsCall(events: seq<Event>)
    ensures var r := Run(Initial(), events);
      && (r.weatherData.Some? <==> ShownCall(events).Some?)
      && (ShownCall(events).Some? ==> ShowsDataOf(r, ShownCall(events).value.0, ShownCall(events).value.1))
    decreases |events|
  {
    if events != [] {
      var init := events[..|events| - 1];
      var last := events[|events| - 1];
      assert init + [last] == events;
      RunAppend(Initial(), init, last);
      DataMatchesItsCall(init);
    }
  }

  /**
   * Two overlapping calls a and b, started in that order: if b completes
   * first, its completion already clears `loading` while a is still in
   * flight, and a's later success overwrites b's data and coordinates.
   */
  lemma StaleCompletionOverwrites(s: QueryState, a: Request, b: Request, ra: WeatherRecord, rb: WeatherRecord)
    ensures var mid := Run(s, [Started(a), Started(b), Completed(b, Ok(rb))]);
      && !mid.loading && mid.weatherData == Some(rb)
    ensures var r := Run(s, [Started(a), Started(b), Completed(b, Ok(rb)), Completed(a, Ok(ra))]);
      && r.weatherData == Some(ra)
      && r.coordinates == Coordinates(Some(a.latitude), Some(a.longitude))
      && r.dateRange == DateRange(Some(a.startDate), Some(a.endDate))
  {
    var e := [Started(a), Started(b), Completed(b, Ok(rb)), Completed(a, Ok(ra))];
    assert e[..3] + [e[3]] == e;
    RunAppend(s, e[..3], e[3]);
    assert e[..2] + [e[2]] == e[..3];
    RunAppend(s, e[..2], e[2]);
    assert [e[0]] + [e[1]] == e[..2];
    RunAppend(s, [e[0]], e[1]);
  }

  /**
   * With overlapping calls an earlier failure's message survives a later
   * success: data and an error end up shown together.
   */
  lemma OverlapCanShowDataAndError(s: QueryState, a: Request, b: Request, rb: WeatherRecord, message: string)
    ensures var r := Run(s, [Started(a), Started(b), Completed(a, Err(message)), Completed(b, Ok(rb))]);
      && r.weatherData == Some(rb)
      && r.error == Some(ErrorText(message))
  {
    var e := [Started(a), Started(b), Completed(a, Err(message)), Completed(b, Ok(rb))];
    assert e[..3] + [e[3]] == e;
    RunAppend(s, e[..3], e[3]);
    assert e[..2] + [e[2]] == e[..3];
    RunAppend(s, e[..2], e[2]);
    assert [e[0]] + [e[1]] == e[..2];
    RunAppend(s, [e[0]], e[1]);
  }
}
