# Weather Insights dashboard — a Dafny model of its logic

Weather Insights is a browser dashboard. A user enters a coordinate and a date
range, the dashboard fetches historical daily temperatures from a weather
archive, and it shows them as a chart or as a paginated table. This project
models the parts of the dashboard that make decisions, each as pure functions
over immutable data:

- **Validation** (`validation.dfy`). `validateCoordinates` and
  `validateDateRange` map form input to a field → message map. `parseFloat` is
  a function parameter that returns a JavaScript number: NaN, a finite real or
  an infinity. Dates are millisecond timestamps.
- **Processing** (`data_processing.dfy`). `processWeatherData` checks the
  payload's shape and reshapes it column-wise. `calculateStatistics` computes
  the minimum, maximum and mean of one metric column.
- **Query coordinator** (`weather_context.dfy`). The provider's state record
  `{weatherData, loading, error, coordinates, dateRange}` changes under three
  events: a call of `getWeatherData` starts, a call completes with an outcome,
  or `clearData` runs. Calls may overlap, and completions are not tagged with
  their call.
- **Table** (`weather_table.dfy`). Rows are zipped from the record's columns.
  The module also models the page arithmetic, `goToPage`, the page-size
  selector and the conditions that disable the navigation buttons.
- **Form** (`input_form.dfy`). `handleSubmit` calls `getWeatherData` only when
  validation passes. The module also models the edit handlers, which clear a
  field's message, and reset.
- `js.dfy` holds the JavaScript built-ins the logic relies on: the number
  comparison, `trim`, `Math.ceil` of a division and `slice`. `wrappers.dfy`
  holds `Option` and `Result`.

Facts about the code's behaviour that the model keeps, some of them easy to
miss when reading it:

- Calls of `getWeatherData` carry no sequence number, so a stale completion
  overwrites a newer one (`WeatherContext.StaleCompletionOverwrites`). When an
  earlier call's failure is followed by a later call's success, the data and
  the error are both shown (`WeatherContext.OverlapCanShowDataAndError`). In
  the running app, the inputs and buttons are disabled while loading, which
  keeps calls from overlapping in practice.
- Starting a call does not clear `weatherData`; the previous data stays in the
  state until the call completes.
- A successful completion does not clear the error. Within `getWeatherData`,
  only the start of a call clears it; `clearData`, which reset calls, clears it
  too. This is why the two calls above can leave data and an error set
  together.
- `clearData` leaves `loading` as it is.
- A date range is rejected when its absolute difference, rounded up to whole
  days, exceeds 366. This is the same as a difference of more than
  366 × 86 400 000 ms (`Validation.SpanTooLongIff`), and reversed ranges are
  checked too.
- A payload is malformed not only when `daily` is missing: when `daily.time` is
  missing, processing throws the engine's TypeError.

## Model

| member | source | states |
|---|---|---|
| Js.Less | src/utils/validation.js:16 | JavaScript `<` is false when either side is NaN, agrees with the real order on finite values, and puts −Infinity below and +Infinity above every other number. |
| Js.LessIsStrictOrder | src/utils/validation.js:16 | `<` is asymmetric and transitive, and total on distinct numbers that are not NaN. |
| Js.TrimStart | src/utils/validation.js:7 | The result is the suffix of the text left after its leading white space, and it does not start with white space. |
| Js.TrimEnd | src/utils/validation.js:7 | The result is the prefix of the text left before its trailing white space, and it does not end with white space. |
| Js.Trim | src/utils/validation.js:7 | `trim()` gives the infix between the leading and the trailing white space, and it neither starts nor ends with white space. |
| Validation.CoordinateMessage | src/utils/validation.js:7-33 | One coordinate's message: "required" when blank, "must be a number" when the parse is NaN, the range message for a finite value outside the inclusive bounds or an infinity, and none otherwise. |
| Validation.ValidateCoordinates | src/utils/validation.js:3-37 | Only `latitude`/`longitude` keys. Each field gets at most one message, with the first failing check winning, and a valid field gets none. Blank (null, empty or white space after trim) gives "required", NaN gives "must be a number", and a finite value outside the inclusive range or an infinity gives the range message. |
| Validation.CoordinatesValidIff | src/utils/validation.js:7-33 | The result is empty iff both texts are non-blank, parse to finite numbers, and lie in [-90, 90] and [-180, 180]. |
| Validation.CoordinateFieldsIndependent | src/utils/validation.js:3-37 | The latitude entry depends only on the latitude text, and the longitude entry only on the longitude text. |
| Validation.SpanDays | src/utils/validation.js:59-60 | The span is the fewest whole days whose milliseconds cover the distance between the two dates, in either order. |
| Validation.ValidateDateRange | src/utils/validation.js:39-67 | Only `startDate`/`endDate` keys. A missing date gets its own "required" message, and the other, present date then gets no message. With both dates present, `endDate` is flagged iff start > end, and `startDate` is flagged iff the ceil-day span exceeds 366, even for reversed ranges. |
| Validation.SpanTooLongIff | src/utils/validation.js:58-64 | The ceil-day span exceeds 366 iff the absolute millisecond difference exceeds 366 days of milliseconds. |
| Validation.DateRangeValidIff | src/utils/validation.js:39-67 | The result is empty iff both dates are present, start ≤ end, and end − start ≤ 366 days. |
| Validation.ReversedLongRangeFlagsBoth | src/utils/validation.js:53-64 | A reversed range longer than a year is flagged on both fields at once, each with its own message. |
| Js.TrimEmptyIffBlank | src/utils/validation.js:7 | `trim()` gives the empty string iff every character is JavaScript white space. |
| Js.CeilDiv | src/components/WeatherTable.jsx:32 | `Math.ceil(a / b)` is the least q with q·b ≥ a. |
| Js.Slice | src/components/WeatherTable.jsx:35 | `slice` clamps both bounds to the length, and element i of the result is element start + i. |
| DataProcessing.ProcessWeatherData | src/utils/dataProcessing.js:3-30 | A null payload or a missing `daily` fails with "Invalid data format received from API". A missing `daily.time` fails with a non-empty TypeError message. Otherwise `time` has one label per date, in order, `rawDates` is `daily.time` unchanged, and the metric columns are copied verbatim. |
| DataProcessing.Labels | src/utils/dataProcessing.js:12-18 | The label list has the same length as the dates, and label i is the formatter applied to date i. |
| DataProcessing.MinOf | src/utils/dataProcessing.js:41 | `Math.min` of a non-empty array is one of its elements, ≤ every element. |
| DataProcessing.MaxOf | src/utils/dataProcessing.js:42 | `Math.max` of a non-empty array is one of its elements, ≥ every element. |
| DataProcessing.SumBounds | src/utils/dataProcessing.js:43 | The sum of n values in [lo, hi] lies in [n·lo, n·hi]. |
| DataProcessing.MeanWithin | src/utils/dataProcessing.js:43-44 | The mean of values in [lo, hi] lies in [lo, hi], and the mean times the count is the sum. |
| DataProcessing.AverageBetweenExtremes | src/utils/dataProcessing.js:41-44 | min ≤ sum/length ≤ max for a non-empty array. |
| DataProcessing.CalculateStatistics | src/utils/dataProcessing.js:34-51 | A null record, absent metric or non-array value gives {0, 0, 0}. An empty array gives Infinity, −Infinity and NaN. A non-empty array gives a min and max that are elements bounding all elements, and the mean sum/length between them. |
| DataProcessing.StatisticsExample | src/utils/dataProcessing.js:34-51 | Values 10, 20, 30 give min 10, max 30, mean 20. |
| WeatherContext.Initial | src/context/WeatherContext.jsx:10-14 | The initial state has no data, is not loading, has no error, and has null coordinates and a null date range. |
| WeatherContext.Begin | src/context/WeatherContext.jsx:18-19 | Starting a call sets `loading`, clears `error`, and keeps the previous data, coordinates and dates. |
| WeatherContext.ErrorText | src/context/WeatherContext.jsx:28 | The stored message is the error's message, or "Failed to fetch weather data" when that message is empty. It is never empty. |
| WeatherContext.Settle | src/context/WeatherContext.jsx:21-22 | A failed fetch passes its message on unchanged. A fetched payload is handed to `processWeatherData`, whose result or error is the outcome. |
| WeatherContext.Complete | src/context/WeatherContext.jsx:24-31 | A completion always clears `loading`. Success stores the record and exactly this call's latitude, longitude, start and end. Failure stores the message, drops the data, and keeps the coordinates and dates. |
| WeatherContext.GetWeatherData | src/context/WeatherContext.jsx:16-33 | A whole call with nothing interleaved ends not loading, with exactly one of data and error. Data is present iff the fetch succeeded and the payload has `daily.time`. The data holds one label per date, the dates and the columns, stored with this call's coordinates and dates. A missing `daily` gives the invalid-format error. A failure keeps the previous coordinates and dates. |
| WeatherContext.ClearData | src/context/WeatherContext.jsx:35-38 | `clearData` nulls data and error and keeps `loading`, coordinates and dates. |
| WeatherContext.RunConsistent | src/context/WeatherContext.jsx:16-38 | Every sequence of events preserves the invariant: coordinates and dates are set together, and data is only present once they are set. |
| WeatherContext.ReachableStatesConsistent | src/context/WeatherContext.jsx:10-38 | Every state reachable from the initial one satisfies that invariant: coordinates and dates are set together, and data is only present once they are set. |
| WeatherContext.DataMatchesItsCall | src/context/WeatherContext.jsx:10-38 | From the initial state, under any interleaving of starts, completions and clears, data is present iff the last completion succeeded and no clear came after it. The data is then exactly that call's record, shown with that call's coordinates and dates. |
| WeatherContext.OneCallSettles | src/context/WeatherContext.jsx:16-33 | A start followed by its completion ends not loading, with exactly one of data and error. |
| WeatherContext.SequentialCallsShowOneOutcome | src/context/WeatherContext.jsx:16-38 | With non-overlapping calls and clears, data and an error are never present together. After the events, `loading` is false unless there were only clears. |
| WeatherContext.LastCompletionDecidesData | src/context/WeatherContext.jsx:24-31 | Whatever came before, the last completion alone decides the data. A success also decides the coordinates and dates shown with it. A failure also decides the error. |
| WeatherContext.StaleCompletionOverwrites | src/context/WeatherContext.jsx:16-33 | With calls a then b overlapping, b's completion already clears `loading`. A later success of a then overwrites b's data, coordinates and dates. |
| WeatherContext.OverlapCanShowDataAndError | src/context/WeatherContext.jsx:18-28 | With overlapping calls, an earlier failure's message survives a later success, so data and an error are shown together. |
| WeatherContext.EndToEndExample | src/context/WeatherContext.jsx:16-33 | Three dates with maximum temperatures 5, 6, 7 give a record holding those values and the three labels, with no error. |
| WeatherTable.BuildRows | src/components/WeatherTable.jsx:23-29 | There is one row per date label. Row i carries `time[i]`, and one cell per metric holding element i of that column, or `None` when the column is absent, not an array or too short. The browser reads `undefined` only for a short array or a non-array object; see "## Left out" for the other cases. |
| WeatherTable.InitialTableValid | src/components/WeatherTable.jsx:8-9 | The table starts on page 1 with 10 rows per page, a valid state that shows the first row. |
| WeatherTable.TotalPages | src/components/WeatherTable.jsx:32 | The page count is the fewest pages that hold every row with none empty. It is 0 exactly when there are no rows. |
| WeatherTable.StartIndexOnPageBoundary | src/components/WeatherTable.jsx:33 | The current page starts at a multiple of the page size, the (page − 1)-th one. |
| WeatherTable.EndIndex | src/components/WeatherTable.jsx:34 | The end index is one page past the start, or the row count when that is smaller. |
| WeatherTable.PageBounds | src/components/WeatherTable.jsx:32-34 | A page before the last ends before the row count. The last page starts inside the rows and reaches their end. A page past the last starts at or after the end. |
| WeatherTable.CurrentRows | src/components/WeatherTable.jsx:31-35 | The visible rows are consecutive rows starting at `startIndex`, at most `rowsPerPage` of them. There are exactly that many when enough rows follow `startIndex`, all the rest when fewer do, and none when `startIndex` is at or past the end. |
| WeatherTable.PageSizes | src/components/WeatherTable.jsx:31-35 | By page number: every page before the last is full, the last holds the non-empty remainder, and a page past the last is empty. |
| WeatherTable.PagesUpToArePrefix | src/components/WeatherTable.jsx:32-35 | Pages 1..k together are exactly the first min(k·rowsPerPage, totalRows) rows. |
| WeatherTable.PagesPartitionRows | src/components/WeatherTable.jsx:32-35 | Pages 1..totalPages concatenated are exactly the rows, with no gap or overlap. |
| WeatherTable.GoToPage | src/components/WeatherTable.jsx:37-40 | The target page is kept when inside [1, totalPages], and otherwise clamped to the nearer end. With no rows it is 1. The page size is unchanged. |
| WeatherTable.GoToPageIdempotent | src/components/WeatherTable.jsx:37-40 | Applying `goToPage` twice equals applying it once, and the landing page is a fixed point. |
| WeatherTable.ChangeRowsPerPage | src/components/WeatherTable.jsx:42-45 | Changing the page size takes an offered size and always resets the page to 1. |
| WeatherTable.RowsPerPageChangeShowsFirstRows | src/components/WeatherTable.jsx:33-45 | After a page-size change, the first min(size, totalRows) rows are shown. |
| WeatherTable.BackDisabled | src/components/WeatherTable.jsx:111-123 | The first-page and previous-page buttons are disabled exactly when the page starts at the first row. |
| WeatherTable.ForwardDisabled | src/components/WeatherTable.jsx:141-153 | On a page within range, the next-page and last-page buttons are disabled exactly when there are rows and the page reaches the last one. |
| WeatherTable.ButtonsDisabledExactlyWhenStuck | src/components/WeatherTable.jsx:109-162 | With at least one row, also on a page left past the last, first/previous are disabled iff page = 1, and next/last iff page = totalPages. Each holds iff clicking the button would not change the page. |
| WeatherTable.EmptyTableForwardEnabled | src/components/WeatherTable.jsx:139-162 | With zero rows the next/last buttons stay enabled (page 1 ≠ 0 pages), and clicking them keeps page 1. |
| InputForm.InitialForm | src/components/InputForm.jsx:11-17 | The form starts with empty coordinates, start = now − 30 days, end = now, and no messages. |
| InputForm.InitialDatesValid | src/components/InputForm.jsx:11-16 | The default date range passes date validation. |
| InputForm.ClearFieldError | src/components/InputForm.jsx:27-32 | If the edited field has a message, its entry becomes null and every other entry is unchanged. Otherwise the errors are untouched. |
| InputForm.HandleChange | src/components/InputForm.jsx:19-33 | Typing changes only the named coordinate field and clears that field's message. |
| InputForm.HandleDateChange | src/components/InputForm.jsx:35-48 | Picking a date changes only that date field and clears that field's message. |
| InputForm.EditTouchesOnlyItsField | src/components/InputForm.jsx:19-33 | After an edit, every other field's value and message are as before. |
| InputForm.SubmitErrors | src/components/InputForm.jsx:54-56 | The merged map is empty iff both coordinates are non-blank, finite and in range, and both dates are present, ordered and at most 366 days apart. |
| InputForm.MergeKeepsEveryMessage | src/components/InputForm.jsx:54-56 | Coordinate and date messages have disjoint keys, so the merge keeps every message of both. |
| InputForm.AsFormErrors | src/components/InputForm.jsx:58-60 | The error state gets exactly the merged keys, each with its message. |
| InputForm.HandleSubmit | src/components/InputForm.jsx:50-74 | `getWeatherData` is called (a request is returned) iff the merged map is empty. Otherwise the merged messages become the error state, the values are kept, and nothing is fetched. On the fetch path the form's state is unchanged. |
| InputForm.ValidSubmitParses | src/components/InputForm.jsx:54-61 | With no message, both coordinates parse to finite numbers within their ranges, and both dates are present and ordered. |
| InputForm.FetchPathArguments | src/components/InputForm.jsx:64-73 | `getWeatherData` receives, in order, the parsed latitude and longitude (finite and in range), then the present, ordered start and end dates formatted as strings. |
| InputForm.HandleReset | src/components/InputForm.jsx:76-85 | Reset empties the coordinates, sets errors to `{}`, and applies `clearData`, which nulls data and error. |
| InputForm.ResetRestoresInitialForm | src/components/InputForm.jsx:76-85 | Reset gives exactly the form's initial state at the same clock reading. |

## Left out

- The network client `src/utils/api.js` is not modelled. This covers the URL and
  query encoding, the 300 ms throttle, `fetch`, JSON parsing and the choice of
  error message (`API Error: <status>`, the provider's `reason`, the
  network-error rewrite). Its result is a parameter: a payload or an error
  message.
- `parseFloat`, `toLocaleDateString` and date-fns `format` are function
  parameters with no interpretation. JavaScript `Date` objects are millisecond
  timestamps. `Date.now()` is a `now` parameter.
- Floating point: numbers are exact reals and integers. The day span, the page
  count and the mean are exact, and float rounding is not modelled.
- DataProcessing.CalculateStatistics: `avg` is the exact mean, not the
  one-decimal string that `toFixed(1)` produces. The default's `avg` is the
  number 0 either way. Metric names other than the six are not modelled, and
  neither is the RangeError that spreading a huge array into `Math.min` can
  raise.
- Payload typing: a metric value is an array of numbers or "not an array", and
  dates are strings. JSON `null` elements inside arrays are not modelled, and
  neither are a truthy non-object `daily` or non-string dates.
- WeatherTable.BuildRows: every cell outside a number array is `None`. The
  browser instead raises a TypeError for an absent or `null` column, and reads
  the character at the row's index from a string column; neither is modelled.
  The later `toFixed` on an undefined cell is not modelled either.
- The "Showing X–Y of Z rows" caption, `formatValue`, headers and styling are
  not modelled.
- The `disabled={loading}` attributes on the form's inputs and buttons
  (`src/components/InputForm.jsx:103-178`) are not modelled as a guard.
  `HandleSubmit` is modelled exactly as written, without a loading check.
- React plumbing is not modelled: hooks and their call order, `useMemo`,
  context wiring, re-rendering, batching of state updates, and `console.log`.
  The dashboard shows the table only while data is present and nothing is
  loading (`src/components/Dashboard.jsx:35`), so starting a call, a failure or
  a clear unmounts it, and it comes back on the graph tab with the table on page 1
  (`src/components/WeatherDisplay.jsx:10`). A page past the last can
  arise only when completions overlap; `CurrentRows` covers it with an empty
  page.
- Asynchrony is modelled only as interleaved start and completion events. There
  is no timing and no cancellation.
- Presentation is not modelled: the chart configuration in `WeatherGraph.jsx`,
  `WeatherDisplay.jsx`, `Dashboard.jsx`, `Header.jsx`, `Footer.jsx` and
  `App.jsx`.
