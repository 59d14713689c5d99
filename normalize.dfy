/**
 * The pure steps of the weather update in src/App.jsx: validating the
 * response, building the current conditions, merging the hourly lists, and
 * UpdateEffect, which says what one update does to the widget's state.
 */
module Normalize {
  import opened Wrappers
  import opened WeatherData
  import opened Icons

  /** The sections line 34 insists on. */
  predicate HasSections(p: Payload) {
    p.location.Some? && p.current.Some? && p.forecast.Some?
  }

  /** `Math.floor(temp_c)`; None is the NaN it gives for an absent `temp_c`. */
  function FloorTemperature(tempC: Option<real>): (t: Option<int>)
    ensures t.Some? <==> tempC.Some?
    ensures t.Some? ==> t.value as real <= tempC.value < t.value as real + 1.0
  {
    match tempC
    case None => None
    case Some(c) => Some(c.Floor)
  }

  /**
   * Lines 38-44: the new current conditions, or None when `condition` is
   * absent and reading `condition.text` throws.
   */
  function CurrentConditions(table: IconTable, current: Current): (w: Option<CurrentWeather>)
    ensures w.Some? <==> current.condition.Some?
    ensures w.Some? ==>
      w.value.Conditions? &&
      (w.value.temperature.Some? <==> current.tempC.Some?) &&
      (w.value.temperature.Some? ==>
         w.value.temperature.value as real <= current.tempC.value < w.value.temperature.value as real + 1.0) &&
      w.value.description == current.condition.value.text
    ensures w.Some? ==>
      w.value.weatherIcon == DEFAULT_ICON ||
      exists i :: IsFirstMatch(table, current.condition.value.code, i) && table[i].0 == w.value.weatherIcon
    ensures w.Some? ==>
      forall i :: IsFirstMatch(table, current.condition.value.code, i) && table[i].0 != "" ==>
        w.value.weatherIcon == table[i].0
    ensures w.Some? ==> w.value.weatherIcon != ""
  {
    match current.condition
    case None => None
    case Some(condition) =>
      Some(Conditions(FloorTemperature(current.tempC), condition.text, ResolveIcon(table, condition.code)))
  }

  /** `forecast.forecastday?.[d]?.hour`. */
  function DayHours(forecast: Forecast, d: nat): HourList {
    match forecast.forecastday
    case None => Missing
    case Some(days) => if d < |days| then days[d].hour else Missing
  }

  /** `...(hour || [])`: None when the spread throws on a non-iterable value. */
  function Spread(hour: HourList): (entries: Option<seq<Hour>>)
    ensures entries.None? <==> hour.NotIterable?
    ensures hour.Hours? ==> entries == Some(hour.entries)
    ensures hour.Missing? ==> entries == Some([])
  {
    match hour
    case Missing => Some([])
    case Hours(entries) => Some(entries)
    case NotIterable => None
  }

  /** Lines 51-54: day 0's hours followed by day 1's, in provider order. */
  function MergeHourly(forecast: Forecast): (merged: Option<seq<Hour>>)
    ensures merged.Some? <==> Spread(DayHours(forecast, 0)).Some? && Spread(DayHours(forecast, 1)).Some?
    ensures merged.Some? ==>
      var day0, day1 := Spread(DayHours(forecast, 0)).value, Spread(DayHours(forecast, 1)).value;
      |merged.value| == |day0| + |day1| &&
      (forall i :: 0 <= i < |day0| ==> merged.value[i] == day0[i]) &&
      (forall j :: 0 <= j < |day1| ==> merged.value[|day0| + j] == day1[j])
  {
    var day0 := Spread(DayHours(forecast, 0));
    var day1 := Spread(DayHours(forecast, 1));
    if day0.Some? && day1.Some? then Some(day0.value + day1.value) else None
  }

  /** Why an update fails: each is an error thrown inside the `try`. */
  datatype Failure =
    | RequestFailed       // fetch rejected, or `!response.ok` (lines 26-29)
    | UnreadableBody      // `response.json()` rejected, or the payload is null (line 31)
    | InvalidStructure    // a required section is missing (lines 34-36)
    | MissingCondition    // `condition.text` on an absent condition (line 40)
    | HoursNotIterable    // spreading a non-iterable `hour` (lines 52-53)

  /**
   * What one call of getWeatherDetails does to the state: nothing but the
   * no-results flag, the new current conditions only (the failure came
   * after line 48), or both the current conditions and the hourly list.
   */
  datatype Effect =
    | Rejected(failure: Failure)
    | CurrentOnly(current: CurrentWeather)
    | Applied(current: CurrentWeather, hourly: seq<Hour>)

  function UpdateEffect(table: IconTable, outcome: FetchOutcome): (e: Effect)
    ensures !e.Rejected? ==>
      outcome.Response? && outcome.Ok() && outcome.body.Some? && HasSections(outcome.body.value)
    ensures !e.Rejected? ==>
      CurrentConditions(table, outcome.body.value.current.value) == Some(e.current)
    ensures e.Applied? <==> !e.Rejected? && MergeHourly(outcome.body.value.forecast.value).Some?
    ensures e.Applied? ==> MergeHourly(outcome.body.value.forecast.value) == Some(e.hourly)
  {
    if outcome.TransportFailure? || !outcome.Ok() then Rejected(RequestFailed)
    else if outcome.body.None? then Rejected(UnreadableBody)
    else
      var payload := outcome.body.value;
      if !HasSections(payload) then Rejected(InvalidStructure)
      else match CurrentConditions(table, payload.current.value)
        case None => Rejected(MissingCondition)
        case Some(current) =>
          match MergeHourly(payload.forecast.value)
          case None => CurrentOnly(current)
          case Some(hourly) => Applied(current, hourly)
  }

  /** A failed request or a non-2xx status changes nothing but the flag. */
  lemma FailedRequestRejected(table: IconTable, outcome: FetchOutcome)
    requires outcome.TransportFailure? || !outcome.Ok()
    ensures UpdateEffect(table, outcome) == Rejected(RequestFailed)
  {
  }

  /** An ok response missing location, current or forecast is rejected before any field is read. */
  lemma MissingSectionRejected(table: IconTable, status: int, payload: Payload)
    requires 200 <= status <= 299 && !HasSections(payload)
    ensures UpdateEffect(table, Response(status, Some(payload))) == Rejected(InvalidStructure)
  {
  }

  /** Exactly when an update succeeds. */
  lemma AppliedExactly(table: IconTable, outcome: FetchOutcome)
    ensures UpdateEffect(table, outcome).Applied? <==>
      outcome.Response? && outcome.Ok() && outcome.body.Some? && HasSections(outcome.body.value) &&
      outcome.body.value.current.value.condition.Some? &&
      MergeHourly(outcome.body.value.forecast.value).Some?
  {
  }

  /** Exactly when the current conditions are written but the hourly list is not. */
  lemma CurrentOnlyExactly(table: IconTable, outcome: FetchOutcome)
    ensures UpdateEffect(table, outcome).CurrentOnly? <==>
      outcome.Response? && outcome.Ok() && outcome.body.Some? && HasSections(outcome.body.value) &&
      outcome.body.value.current.value.condition.Some? &&
      MergeHourly(outcome.body.value.forecast.value).None?
  {
  }

  /**
   * Whenever the current conditions are written, they are a fresh record of
   * the floored temperature, the verbatim description and the resolved icon,
   * built from the payload alone.
   */
  lemma NewCurrentConditions(table: IconTable, outcome: FetchOutcome)
    requires !UpdateEffect(table, outcome).Rejected?
    ensures outcome.Response? && outcome.body.Some? && HasSections(outcome.body.value)
    ensures var current := outcome.body.value.current.value;
      current.condition.Some? &&
      UpdateEffect(table, outcome).current ==
        Conditions(FloorTemperature(current.tempC), current.condition.value.text,
                   ResolveIcon(table, current.condition.value.code))
  {
  }

  /**
   * On success the hourly list is day 0's hours then day 1's, each in
   * provider order, with nothing dropped, added or reordered.
   */
  lemma NewHourlyForecasts(table: IconTable, outcome: FetchOutcome)
    requires UpdateEffect(table, outcome).Applied?
    ensures var forecast := outcome.body.value.forecast.value;
      var day0, day1 := Spread(DayHours(forecast, 0)), Spread(DayHours(forecast, 1));
      day0.Some? && day1.Some? &&
      UpdateEffect(table, outcome).hourly == day0.value + day1.value
  {
  }

  /** A day that is absent, or has no `hour`, contributes nothing. */
  lemma MissingDayIsEmpty(forecast: Forecast, d: nat)
    requires forecast.forecastday.None? || d >= |forecast.forecastday.value| ||
             forecast.forecastday.value[d].hour.Missing?
    ensures Spread(DayHours(forecast, d)) == Some([])
  {
  }

  /** Math.floor, not rounding: 15.9 gives 15 and -0.4 gives -1. */
  lemma FloorExamples()
    ensures FloorTemperature(Some(15.9)) == Some(15)
    ensures FloorTemperature(Some(-0.4)) == Some(-1)
  {
  }
}
