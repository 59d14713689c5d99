/**
 * The forecast provider's decoded JSON, as far as the widget reads it, and
 * the widget's own current-conditions view. Every field the code reaches
 * through may be absent, so each is an Option. None means undefined or null.
 * For the top-level sections, `hour`, `time` and an hour's `temp_c`, None
 * also covers the other falsy values (0, "", false), because the code tests
 * those fields with `!` or `||`. There are two exceptions. For
 * `current.temp_c`, None means undefined only, which `Math.floor` turns into
 * NaN; a null, "" or false value would give 0 and is not modelled. For
 * `current.condition`, None means null or undefined, the values that make
 * reading `condition.text` throw; a present condition is always an object.
 */
module WeatherData {
  import opened Wrappers

  /** `condition`: the description text and the provider's numeric code. */
  datatype Condition = Condition(text: Option<string>, code: Option<int>)

  /**
   * One hour of a forecast day, kept raw: the widget stores these objects
   * unchanged and derives its display from them only when rendering.
   * A null entry is an Hour whose fields are all absent.
   */
  datatype Hour = Hour(
    timeEpoch: Option<int>,
    time: Option<string>,
    tempC: Option<real>,
    condition: Option<Condition>)

  /**
   * The `hour` field of a forecast day: absent (or falsy), an array, or a
   * truthy value that is not iterable, which makes the array spread throw.
   */
  datatype HourList = Missing | Hours(entries: seq<Hour>) | NotIterable

  datatype ForecastDay = ForecastDay(hour: HourList)

  datatype Forecast = Forecast(forecastday: Option<seq<ForecastDay>>)

  datatype Current = Current(tempC: Option<real>, condition: Option<Condition>)

  datatype Location = Location(name: Option<string>)

  /** The three top-level sections the widget depends on. */
  datatype Payload = Payload(
    location: Option<Location>,
    current: Option<Current>,
    forecast: Option<Forecast>)

  /**
   * What one `fetch` of the forecast endpoint ends in: the transport itself
   * failed, or a response arrived with a status and a body that decoded to a
   * payload (None when `response.json()` rejects or yields null).
   */
  datatype FetchOutcome =
    | TransportFailure
    | Response(status: int, body: Option<Payload>)
  {
    /** `response.ok`: the status is in the range 200-299. */
    predicate Ok()
      requires Response?
    {
      200 <= status <= 299
    }
  }

  /**
   * The `currentWeather` state: `{}` before the first successful lookup,
   * then the record built from the current section. A temperature of None is
   * the NaN that `Math.floor` gives for an absent `temp_c`.
   */
  datatype CurrentWeather =
    | Unset
    | Conditions(temperature: Option<int>, description: Option<string>, weatherIcon: string)
}
