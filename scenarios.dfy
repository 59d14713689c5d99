/** Whole-update consequences of UpdateEffect for typical provider replies. */
module Scenarios {
  import opened Wrappers
  import opened WeatherData
  import opened Icons
  import opened Normalize

  /**
   * A 15.7 degree reply with code 1000 and no forecast days, against a table
   * whose first key for code 1000 is "clear": 15 degrees, the provider's
   * text, the "clear" icon and an empty hourly list.
   */
  lemma ClearDayInLondon(table: IconTable, i: nat, text: string)
    requires IsFirstMatch(table, Some(1000), i) && table[i].0 == "clear"
    ensures UpdateEffect(table, Response(200, Some(Payload(
      Some(Location(Some("London"))),
      Some(Current(Some(15.7), Some(Condition(Some(text), Some(1000))))),
      Some(Forecast(None))))))
      == Applied(Conditions(Some(15), Some(text), "clear"), [])
  {
  }

  /** A server error is a failed request. */
  lemma ServerError(table: IconTable, body: Option<Payload>)
    ensures UpdateEffect(table, Response(500, body)) == Rejected(RequestFailed)
  {
  }

  /** An empty JSON object is an invalid structure. */
  lemma EmptyObject(table: IconTable, status: int)
    requires 200 <= status <= 299
    ensures UpdateEffect(table, Response(status, Some(Payload(None, None, None))))
      == Rejected(InvalidStructure)
  {
  }

  /** An ok reply with two days of 24 hours each succeeds with 48 hourly entries, today's first. */
  lemma TwoFullDays(table: IconTable, status: int, location: Location, current: Current,
                    today: seq<Hour>, tomorrow: seq<Hour>)
    requires 200 <= status <= 299 && current.condition.Some?
    requires |today| == 24 && |tomorrow| == 24
    ensures var effect := UpdateEffect(table, Response(status, Some(Payload(
      Some(location), Some(current),
      Some(Forecast(Some([ForecastDay(Hours(today)), ForecastDay(Hours(tomorrow))])))))));
      effect.Applied? &&
      |effect.hourly| == 48 && effect.hourly[..24] == today && effect.hourly[24..] == tomorrow
  {
  }

  /** A reply without a second forecast day still succeeds, with day 0's hours alone. */
  lemma OneDayOnly(table: IconTable, status: int, location: Location, current: Current, today: seq<Hour>)
    requires 200 <= status <= 299 && current.condition.Some?
    ensures UpdateEffect(table, Response(status, Some(Payload(
      Some(location), Some(current), Some(Forecast(Some([ForecastDay(Hours(today))])))))))
      .hourly == today
  {
    assert today + [] == today;
  }
}
