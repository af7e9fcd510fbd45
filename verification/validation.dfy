/**
 * The form validators of src/utils/validation.js. Each returns a map from
 * field to message; the empty map means the input is valid.
 */
module Validation {
  import opened Wrappers
  import opened Js

  /** The four form fields a message can be attached to. */
  datatype Field = Latitude | Longitude | StartDate | EndDate

  /** A validator's result: a field appears only when it has a message. */
  type Errors = map<Field, string>

  /** `parseFloat`, left uninterpreted: any function from text to a JavaScript number. */
  type Parser = string -> Number

  const LatitudeRequired := "Latitude is required"
  const LatitudeNotNumber := "Latitude must be a number"
  const LatitudeOutOfRange := "Latitude must be between -90 and 90"
  const LongitudeRequired := "Longitude is required"
  const LongitudeNotNumber := "Longitude must be a number"
  const LongitudeOutOfRange := "Longitude must be between -180 and 180"
  const StartRequired := "Start date is required"
  const EndRequired := "End date is required"
  const EndBeforeStart := "End date must be after start date"
  const RangeTooLong := "Date range should not exceed one year"

  /** Milliseconds in a day, `1000 * 60 * 60 * 24`. */
  const MsPerDay: nat := 1000 * 60 * 60 * 24
  /** The longest range accepted, in days. */
  const MaxRangeDays: nat := 366

  /** `!text || text.trim() === ''`: the value is null, undefined or only white space. */
  predicate Blank(text: Option<string>)
  {
    text.None? || text.value == "" || Trim(text.value) == ""
  }

  /** `v < -bound || v > bound` on the parsed value. */
  predicate OutOfRange(v: Number, bound: real)
  {
    Less(v, Finite(-bound)) || Less(Finite(bound), v)
  }

  /** The range test accepts a finite value exactly inside the closed interval and rejects both infinities. */
  lemma OutOfRangeIff(v: Number, bound: real)
    ensures v.Finite? ==> (OutOfRange(v, bound) <==> !(-bound <= v.value <= bound))
    ensures v.PosInfinity? || v.NegInfinity? ==> OutOfRange(v, bound)
  {
  }

  /**
   * The message chain for one coordinate: required, then "must be a number",
   * then the range check. `None` means the coordinate passes.
   */
  function CoordinateMessage(text: Option<string>, parse: Parser, bound: real,
                             required: string, notNumber: string, outOfRange: string): (r: Option<string>)
    ensures CoordinateVerdict(r, text, parse, -bound, bound, required, notNumber, outOfRange)
  {
    if Blank(text) then Some(required)
    else
      var v := parse(text.value);
      OutOfRangeIff(v, bound);
      if IsNaN(v) then Some(notNumber)
      else if OutOfRange(v, bound) then Some(outOfRange)
      else None
  }

  /** A field's entry in a result map, or `None` when the field is absent. */
  function Entry(errors: Errors, f: Field): Option<string>
  {
    if f in errors then Some(errors[f]) else None
  }

  /** The entry a single coordinate text earns, stated case by case over its parsed value. */
  ghost predicate CoordinateVerdict(entry: Option<string>, text: Option<string>, parse: Parser, lo: real, hi: real,
                                    required: string, notNumber: string, outOfRange: string)
  {
    && (Blank(text) ==> entry == Some(required))
    && (!Blank(text) && parse(text.value).NaN? ==> entry == Some(notNumber))
    && (!Blank(text) && parse(text.value).Finite? ==>
          entry == (if lo <= parse(text.value).value <= hi then None else Some(outOfRange)))
    && (!Blank(text) && (parse(text.value).PosInfinity? || parse(text.value).NegInfinity?) ==> entry == Some(outOfRange))
  }

  /**
   * validateCoordinates: latitude and longitude are checked independently,
   * each against its own inclusive range, and no other key is ever produced.
   */
  function ValidateCoordinates(latitude: Option<string>, longitude: Option<string>, parse: Parser): (r: Errors)
    ensures r.Keys <= {Latitude, Longitude}
    ensures CoordinateVerdict(Entry(r, Latitude), latitude, parse, -90.0, 90.0,
                              LatitudeRequired, LatitudeNotNumber, LatitudeOutOfRange)
    ensures CoordinateVerdict(Entry(r, Longitude), longitude, parse, -180.0, 180.0,
                              LongitudeRequired, LongitudeNotNumber, LongitudeOutOfRange)
  {
    var lat := CoordinateMessage(latitude, parse, 90.0, LatitudeRequired, LatitudeNotNumber, LatitudeOutOfRange);
    var lon := CoordinateMessage(longitude, parse, 180.0, LongitudeRequired, LongitudeNotNumber, LongitudeOutOfRange);
    var withLat: Errors := if lat.Some? then map[Latitude := lat.value] else map[];
    var r := if lon.Some? then withLat[Longitude := lon.value] else withLat;
    assert Entry(r, Latitude) == lat && Entry(r, Longitude) == lon;
    r
  }

  /** A coordinate text passes exactly when it is present, parses to a finite number, and lies in the inclusive range. */
  lemma CoordinatesValidIff(latitude: Option<string>, longitude: Option<string>, parse: Parser)
    ensures ValidateCoordinates(latitude, longitude, parse) == map[] <==>
      && !Blank(latitude) && parse(latitude.value).Finite? && -90.0 <= parse(latitude.value).value <= 90.0
      && !Blank(longitude) && parse(longitude.value).Finite? && -180.0 <= parse(longitude.value).value <= 180.0
  {
    var r := ValidateCoordinates(latitude, longitude, parse);
    if r == map[] {
      assert Entry(r, Latitude) == None && Entry(r, Longitude) == None;
    } else {
      assert Latitude in r || Longitude in r;
    }
  }

  /** The latitude entry depends only on the latitude text, and the longitude entry only on the longitude text. */
  lemma CoordinateFieldsIndependent(lat1: Option<string>, lat2: Option<string>,
                                    lon1: Option<string>, lon2: Option<string>, parse: Parser)
    ensures Entry(ValidateCoordinates(lat1, lon1, parse), Latitude) == Entry(ValidateCoordinates(lat1, lon2, parse), Latitude)
    ensures Entry(ValidateCoordinates(lat1, lon1, parse), Longitude) == Entry(ValidateCoordinates(lat2, lon1, parse), Longitude)
  {
  }

  /**
   * `Math.ceil(Math.abs(end - start) / MsPerDay)`: the fewest whole days that
   * cover the distance between the two timestamps, in either order.
   */
  function SpanDays(start: int, end: int): (days: nat)
    ensures days * MsPerDay >= end - start && days * MsPerDay >= start - end
    ensures days == 0 || ((days - 1) * MsPerDay < end - start || (days - 1) * MsPerDay < start - end)
  {
    CeilDiv(if end >= start then end - start else start - end, MsPerDay)
  }

  /** Rounding the span up to whole days exceeds a year exactly when the raw span exceeds 366 days of milliseconds. */
  lemma SpanTooLongIff(start: int, end: int)
    ensures SpanDays(start, end) > MaxRangeDays <==>
      (if end >= start then end - start else start - end) > MaxRangeDays * MsPerDay
  {
    var d := if end >= start then end - start else start - end;
    var q := SpanDays(start, end);
    if q > MaxRangeDays {
      assert (q - 1) * MsPerDay < d;
      assert MaxRangeDays * MsPerDay <= (q - 1) * MsPerDay;
    } else {
      assert q * MsPerDay <= MaxRangeDays * MsPerDay;
    }
  }

  /**
   * validateDateRange: presence of each date, then their order (reported on
   * the end date), then the span (reported on the start date, also for a
   * reversed range, and overwriting a missing-start message cannot happen
   * since the span is only checked when both dates are present).
   */
  function ValidateDateRange(startDate: Option<int>, endDate: Option<int>): (r: Errors)
    ensures r.Keys <= {StartDate, EndDate}
    ensures startDate.None? ==> Entry(r, StartDate) == Some(StartRequired)
    ensures endDate.None? ==> Entry(r, EndDate) == Some(EndRequired)
    ensures startDate.None? && endDate.Some? ==> EndDate !in r
    ensures startDate.Some? && endDate.None? ==> StartDate !in r
    ensures startDate.Some? && endDate.Some? ==>
      && Entry(r, EndDate) == (if startDate.value > endDate.value then Some(EndBeforeStart) else None)
      && Entry(r, StartDate) == (if SpanDays(startDate.value, endDate.value) > MaxRangeDays then Some(RangeTooLong) else None)
  {
    var e1: Errors := if startDate.None? then map[StartDate := StartRequired] else map[];
    var e2 := if endDate.None? then e1[EndDate := EndRequired] else e1;
    var e3 := if startDate.Some? && endDate.Some? && startDate.value > endDate.value
              then e2[EndDate := EndBeforeStart] else e2;
    if startDate.Some? && endDate.Some? && SpanDays(startDate.value, endDate.value) > MaxRangeDays
    then e3[StartDate := RangeTooLong] else e3
  }

  /** The range is accepted exactly when both dates are present, in order, and at most 366 days of milliseconds apart. */
  lemma DateRangeValidIff(startDate: Option<int>, endDate: Option<int>)
    ensures ValidateDateRange(startDate, endDate) == map[] <==>
      && startDate.Some? && endDate.Some?
      && startDate.value <= endDate.value
      && endDate.value - startDate.value <= MaxRangeDays * MsPerDay
  {
    var r := ValidateDateRange(startDate, endDate);
    if startDate.Some? && endDate.Some? {
      SpanTooLongIff(startDate.value, endDate.value);
    }
    if r != map[] {
      assert StartDate in r || EndDate in r;
    }
  }

  /** A reversed range longer than a year is flagged on both fields at once. */
  lemma ReversedLongRangeFlagsBoth(start: int, end: int)
    requires start > end + MaxRangeDays * MsPerDay
    ensures ValidateDateRange(Some(start), Some(end)) == map[StartDate := RangeTooLong, EndDate := EndBeforeStart]
  {
    SpanTooLongIff(start, end);
    var r := ValidateDateRange(Some(start), Some(end));
    assert r.Keys == {StartDate, EndDate};
  }
}
