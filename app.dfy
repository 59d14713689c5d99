/**
 * The App component's state and its weather update, getWeatherDetails, with
 * the two strings it builds: the request URL and the coordinate query.
 */
module WeatherApp {
  import opened Wrappers
  import opened Strings
  import opened WeatherData
  import opened Icons
  import opened Normalize

  /** The component's three state variables and the icon table it imports. */
  class App {
    const weatherCodes: IconTable
    var currentWeather: CurrentWeather
    var hourlyForecasts: seq<Hour>
    var hasNoResults: bool

    /** The initial state: `{}`, `[]` and `false`. */
    constructor (weatherCodes: IconTable)
      ensures this.weatherCodes == weatherCodes
      ensures currentWeather == Unset && hourlyForecasts == [] && !hasNoResults
    {
      this.weatherCodes := weatherCodes;
      currentWeather := Unset;
      hourlyForecasts := [];
      hasNoResults := false;
    }

    /**
     * One lookup, given what its fetch ended in. The flag is cleared first
     * and set again by any error; an error leaves the rest of the state as
     * it was at the throw, so the current conditions are replaced exactly
     * when the error, if any, came after they were written.
     */
    method GetWeatherDetails(outcome: FetchOutcome)
      modifies this
      ensures hasNoResults <==> !UpdateEffect(weatherCodes, outcome).Applied?
      ensures match UpdateEffect(weatherCodes, outcome)
        case Rejected(_) =>
          currentWeather == old(currentWeather) && hourlyForecasts == old(hourlyForecasts)
        case CurrentOnly(current) =>
          currentWeather == current && hourlyForecasts == old(hourlyForecasts)
        case Applied(current, hourly) =>
          currentWeather == current && hourlyForecasts == hourly
    {
      hasNoResults := false;
      if outcome.TransportFailure? || !outcome.Ok() {
        hasNoResults := true;
        return;
      }
      if outcome.body.None? {
        hasNoResults := true;
        return;
      }
      var parsedData := outcome.body.value;
      if parsedData.location.None? || parsedData.current.None? || parsedData.forecast.None? {
        hasNoResults := true;
        return;
      }
      var current := parsedData.current.value;
      if current.condition.None? {
        hasNoResults := true;
        return;
      }
      var condition := current.condition.value;
      var temperature := FloorTemperature(current.tempC);
      var description := condition.text;
      var weatherIcon := ResolveIcon(weatherCodes, condition.code);
      currentWeather := Conditions(temperature, description, weatherIcon);

      var day0 := Spread(DayHours(parsedData.forecast.value, 0));
      if day0.None? {
        hasNoResults := true;
        return;
      }
      var day1 := Spread(DayHours(parsedData.forecast.value, 1));
      if day1.None? {
        hasNoResults := true;
        return;
      }
      hourlyForecasts := day0.value + day1.value;
    }
  }

  const ENDPOINT := "https://api.weatherapi.com/v1/forecast.json?"

  /** Lines 21-22: the request URL for an API key and an already percent-encoded query. */
  function ForecastUrl(apiKey: string, encodedQuery: string): string {
    ENDPOINT + "key=" + apiKey + "&q=" + encodedQuery + "&days=2"
  }

  /**
   * After the endpoint, the URL carries exactly three `&`-separated
   * parameters, so `q` is the encoded query and nothing else, whenever
   * neither the key nor the encoded query holds an `&` (percent-encoding
   * never leaves one).
   */
  lemma ForecastUrlFields(apiKey: string, encodedQuery: string)
    requires '&' !in apiKey && '&' !in encodedQuery
    ensures var url := ForecastUrl(apiKey, encodedQuery);
      |ENDPOINT| <= |url| && url[..|ENDPOINT|] == ENDPOINT &&
      Split(url[|ENDPOINT|..], '&') == ["key=" + apiKey, "q=" + encodedQuery, "days=2"]
  {
    var key, q, days := "key=" + apiKey, "q=" + encodedQuery, "days=2";
    var query := key + ['&'] + (q + ['&'] + days);
    assert '&' !in key by {
      assert key == ['k', 'e', 'y', '='] + apiKey;
    }
    assert '&' !in q by {
      assert q == ['q', '='] + encodedQuery;
    }
    assert '&' !in days;
    assert ForecastUrl(apiKey, encodedQuery) == ENDPOINT + query;
    assert [key, q, days][1..] == [q, days] && [q, days][1..] == [days];
    assert Join([q, days], '&') == q + ['&'] + days;
    assert Join([key, q, days], '&') == query;
    SplitJoin([key, q, days], '&');
  }

  /** Line 80: the live-location query `"${latitude},${longitude}"`. */
  function CoordinateQuery(latitude: string, longitude: string): (query: string)
    ensures ' ' !in query <==> ' ' !in latitude && ' ' !in longitude
  {
    latitude + "," + longitude
  }

  /** The query splits back at its comma into the two coordinates. */
  lemma CoordinateQueryFields(latitude: string, longitude: string)
    requires ',' !in latitude && ',' !in longitude
    ensures Split(CoordinateQuery(latitude, longitude), ',') == [latitude, longitude]
  {
    assert Join([latitude, longitude], ',') == CoordinateQuery(latitude, longitude);
    SplitJoin([latitude, longitude], ',');
  }

  /** The coordinate pair (51.5, -0.1) is queried as "51.5,-0.1". */
  lemma CoordinateQueryExample()
    ensures CoordinateQuery("51.5", "-0.1") == "51.5,-0.1"
  {
  }
}
