/**
 * The form of src/components/InputForm.jsx: the field values and the error
 * messages it shows, the edit handlers that clear a field's message, the
 * submit handler that validates before anything is fetched, and reset.
 */
module InputForm {
  import opened Wrappers
  import opened Js
  import opened Validation
  import WeatherContext

  /** The form's field values; a date is a millisecond timestamp, `None` when the picker is cleared. */
  datatype FormValues = FormValues(latitude: string, longitude: string, startDate: Option<int>, endDate: Option<int>)

  /** The messages shown under the fields; an entry is set to `null` (`None`) when its field is edited. */
  type FormErrors = map<Field, Option<string>>

  /** The component's state. */
  datatype Form = Form(values: FormValues, errors: FormErrors)

  /** `30 * 24 * 60 * 60 * 1000`: the default range reaches thirty days back. */
  const ThirtyDaysMs: int := 30 * 24 * 60 * 60 * 1000

  /** The state the form starts with (and returns to on reset), at clock reading `now`. */
  function InitialForm(now: int): (f: Form)
    ensures f.values.latitude == "" && f.values.longitude == ""
    ensures f.values.endDate == Some(now) && f.values.startDate == Some(now - ThirtyDaysMs)
    ensures f.errors == map[]
  {
    Form(FormValues("", "", Some(now - ThirtyDaysMs), Some(now)), map[])
  }

  /** The default dates pass validation on their own: thirty days, in order. */
  lemma InitialDatesValid(now: int)
    ensures ValidateDateRange(InitialForm(now).values.startDate, InitialForm(now).values.endDate) == map[]
  {
    DateRangeValidIff(Some(now - ThirtyDaysMs), Some(now));
  }

  /** `if (errors[name])`: the field has a message that is a non-empty string. */
  predicate HasMessage(errors: FormErrors, f: Field)
  {
    f in errors && errors[f].Some? && errors[f].value != ""
  }

  /** `setErrors({ ...errors, [name]: null })`, done only when the field has a message. */
  function ClearFieldError(errors: FormErrors, f: Field): (r: FormErrors)
    ensures HasMessage(errors, f) ==> f in r && r[f] == None && r.Keys == errors.Keys
    ensures forall g :: g != f ==> (g in r <==> g in errors) && (g in r ==> r[g] == errors[g])
    ensures !HasMessage(errors, f) ==> r == errors
    ensures !HasMessage(r, f)
  {
    if HasMessage(errors, f) then errors[f := None] else errors
  }

  /** `handleChange` for the two text inputs: only the edited field changes, and its message is cleared. */
  function HandleChange(form: Form, name: Field, value: string): (r: Form)
    requires name == Latitude || name == Longitude
    ensures name == Latitude ==> r.values == form.values.(latitude := value)
    ensures name == Longitude ==> r.values == form.values.(longitude := value)
    ensures r.errors == ClearFieldError(form.errors, name)
  {
    var values := if name == Latitude then form.values.(latitude := value) else form.values.(longitude := value);
    Form(values, ClearFieldError(form.errors, name))
  }

  /** `handleDateChange` for the two date pickers: only the edited date changes, and its message is cleared. */
  function HandleDateChange(form: Form, date: Option<int>, fieldName: Field): (r: Form)
    requires fieldName == StartDate || fieldName == EndDate
    ensures fieldName == StartDate ==> r.values == form.values.(startDate := date)
    ensures fieldName == EndDate ==> r.values == form.values.(endDate := date)
    ensures r.errors == ClearFieldError(form.errors, fieldName)
  {
    var values := if fieldName == StartDate then form.values.(startDate := date) else form.values.(endDate := date);
    Form(values, ClearFieldError(form.errors, fieldName))
  }

  /** An edit leaves every other field's value and message as it was. */
  lemma EditTouchesOnlyItsField(form: Form, name: Field, value: string, g: Field)
    requires name == Latitude || name == Longitude
    requires g != name
    ensures var r := HandleChange(form, name, value);
      && (g == Latitude ==> r.values.latitude == form.values.latitude)
      && (g == Longitude ==> r.values.longitude == form.values.longitude)
      && r.values.startDate == form.values.startDate && r.values.endDate == form.values.endDate
      && (g in r.errors <==> g in form.errors) && (g in r.errors ==> r.errors[g] == form.errors[g])
  {
  }

  /** `{ ...coordErrors, ...dateErrors }` */
  function MergeErrors(coordErrors: Errors, dateErrors: Errors): Errors
  {
    coordErrors + dateErrors
  }

  /** The two validators' maps never share a key, so merging them loses no message. */
  lemma MergeKeepsEveryMessage(latitude: string, longitude: string, startDate: Option<int>, endDate: Option<int>,
                               parse: Parser)
    ensures var c := ValidateCoordinates(Some(latitude), Some(longitude), parse);
      var d := ValidateDateRange(startDate, endDate);
      var m := MergeErrors(c, d);
      && c.Keys !! d.Keys
      && m.Keys == c.Keys + d.Keys
      && |m| == |c| + |d|
      && (forall f :: f in c ==> m[f] == c[f])
      && (forall f :: f in d ==> m[f] == d[f])
  {
    var c := ValidateCoordinates(Some(latitude), Some(longitude), parse);
    var d := ValidateDateRange(startDate, endDate);
    assert c.Keys !! d.Keys;
    var m := MergeErrors(c, d);
    assert m.Keys == c.Keys + d.Keys;
    assert |m.Keys| == |c.Keys| + |d.Keys|;
  }

  /**
   * Both validators run on the current values and their maps are merged: no
   * message at all exactly when both coordinates are present, finite and in
   * range and both dates are present, ordered and at most a year apart.
   */
  function SubmitErrors(values: FormValues, parse: Parser): (r: Errors)
    ensures r == map[] <==>
      && !Blank(Some(values.latitude)) && parse(values.latitude).Finite?
      && -90.0 <= parse(values.latitude).value <= 90.0
      && !Blank(Some(values.longitude)) && parse(values.longitude).Finite?
      && -180.0 <= parse(values.longitude).value <= 180.0
      && values.startDate.Some? && values.endDate.Some?
      && values.startDate.value <= values.endDate.value
      && values.endDate.value - values.startDate.value <= MaxRangeDays * MsPerDay
  {
    var c := ValidateCoordinates(Some(values.latitude), Some(values.longitude), parse);
    var d := ValidateDateRange(values.startDate, values.endDate);
    CoordinatesValidIff(Some(values.latitude), Some(values.longitude), parse);
    DateRangeValidIff(values.startDate, values.endDate);
    assert MergeErrors(c, d) == map[] <==> c == map[] && d == map[] by {
      assert c.Keys <= MergeErrors(c, d).Keys && d.Keys <= MergeErrors(c, d).Keys;
    }
    MergeErrors(c, d)
  }

  /** The merged map as the form's error state. */
  function AsFormErrors(errors: Errors): (r: FormErrors)
    ensures r.Keys == errors.Keys
    ensures forall f :: f in errors ==> r[f] == Some(errors[f])
  {
    map f | f in errors :: Some(errors[f])
  }

  /** What a submit leads to: the form's new state and, when the inputs are valid, the call to `getWeatherData`. */
  datatype Submitted = Submitted(form: Form, request: Option<WeatherContext.Request>)

  /**
   * `handleSubmit`. With any message, the merged messages become the error
   * state and nothing is fetched. Otherwise the parsed coordinates and the two
   * dates formatted by `formatDay` are passed on in that order, and the
   * form's state is left as it was.
   */
  function HandleSubmit(form: Form, parse: Parser, formatDay: int -> string): (r: Submitted)
    ensures r.request.Some? <==> SubmitErrors(form.values, parse) == map[]
    ensures r.request.None? ==>
      && r.form.values == form.values
      && r.form.errors.Keys == SubmitErrors(form.values, parse).Keys
      && (forall f :: f in r.form.errors ==> r.form.errors[f] == Some(SubmitErrors(form.values, parse)[f]))
    ensures r.request.Some? ==> r.form == form
  {
    var errors := SubmitErrors(form.values, parse);
    if errors != map[] then Submitted(Form(form.values, AsFormErrors(errors)), None)
    else
      var v := form.values;
      ValidSubmitParses(v, parse);
      var request := WeatherContext.Request(
        parse(v.latitude).value, parse(v.longitude).value,
        formatDay(v.startDate.value), formatDay(v.endDate.value));
      Submitted(form, Some(request))
  }

  /** With no message, both coordinates parse to finite in-range numbers and both dates are present and ordered. */
  lemma ValidSubmitParses(v: FormValues, parse: Parser)
    requires SubmitErrors(v, parse) == map[]
    ensures parse(v.latitude).Finite? && -90.0 <= parse(v.latitude).value <= 90.0
    ensures parse(v.longitude).Finite? && -180.0 <= parse(v.longitude).value <= 180.0
    ensures v.startDate.Some? && v.endDate.Some? && v.startDate.value <= v.endDate.value
  {
    var c := ValidateCoordinates(Some(v.latitude), Some(v.longitude), parse);
    var d := ValidateDateRange(v.startDate, v.endDate);
    assert c == map[] && d == map[] by {
      assert c.Keys <= SubmitErrors(v, parse).Keys && d.Keys <= SubmitErrors(v, parse).Keys;
    }
    CoordinatesValidIff(Some(v.latitude), Some(v.longitude), parse);
    DateRangeValidIff(v.startDate, v.endDate);
  }

  /**
   * On the fetch path `getWeatherData` receives the parsed latitude and
   * longitude, which validation has shown to be finite and in range, then the
   * start and end dates, present and in order, formatted as strings.
   */
  lemma FetchPathArguments(form: Form, parse: Parser, formatDay: int -> string)
    ensures HandleSubmit(form, parse, formatDay).request.Some? ==>
      var q := HandleSubmit(form, parse, formatDay).request.value;
      && parse(form.values.latitude) == Finite(q.latitude) && -90.0 <= q.latitude <= 90.0
      && parse(form.values.longitude) == Finite(q.longitude) && -180.0 <= q.longitude <= 180.0
      && form.values.startDate.Some? && form.values.endDate.Some?
      && form.values.startDate.value <= form.values.endDate.value
      && q.startDate == formatDay(form.values.startDate.value)
      && q.endDate == formatDay(form.values.endDate.value)
  {
    if HandleSubmit(form, parse, formatDay).request.Some? {
      ValidSubmitParses(form.values, parse);
    }
  }

  /** `handleReset`: the initial values at the current clock reading, no messages, and the coordinator's data cleared. */
  function HandleReset(form: Form, ctx: WeatherContext.QueryState, now: int): (r: (Form, WeatherContext.QueryState))
    ensures r.0.values.latitude == "" && r.0.values.longitude == "" && r.0.errors == map[]
    ensures r.1 == WeatherContext.ClearData(ctx)
    ensures r.1.weatherData.None? && r.1.error.None? && r.1.loading == ctx.loading
  {
    (Form(FormValues("", "", Some(now - ThirtyDaysMs), Some(now)), map[]), WeatherContext.ClearData(ctx))
  }

  /** Reset brings the form back to exactly the state it was created in. */
  lemma ResetRestoresInitialForm(form: Form, ctx: WeatherContext.QueryState, now: int)
    ensures HandleReset(form, ctx, now).0 == InitialForm(now)
  {
  }
}
