/**
 * What the HourlyWeather component derives from one raw hour entry: the
 * temperature, the time label and the icon key it shows.
 */
module HourlyWeather {
  import opened Wrappers
  import opened Strings
  import opened WeatherData
  import opened Icons

  /** `Math.floor(temp_c || 0)`: the floor of the temperature, 0 when it is absent. */
  function HourTemperature(hour: Hour): (t: int)
    ensures hour.tempC.Some? ==> t as real <= hour.tempC.value < t as real + 1.0
    ensures hour.tempC.None? || hour.tempC == Some(0.0) ==> t == 0
  {
    match hour.tempC
    case None => 0
    case Some(c) => if c == 0.0 then 0 else c.Floor
  }

  /** `time || "N/A"`: an absent or empty time string shows as "N/A". */
  function RawTime(hour: Hour): (rawTime: string)
    ensures rawTime != ""
    ensures rawTime == "N/A" || Some(rawTime) == hour.time
    ensures hour.time.Some? && hour.time.value != "" ==> rawTime == hour.time.value
  {
    if hour.time.Some? && hour.time.value != "" then hour.time.value else "N/A"
  }

  /**
   * `rawTime.includes(" ") ? rawTime.split(" ")[1] : rawTime`: the text
   * between the first space and the next one (or the end), or the whole raw
   * time when it has no space.
   */
  function TimeLabel(hour: Hour): (shown: string)
    ensures ' ' !in shown
    ensures hour.time.None? || hour.time == Some("") ==> shown == "N/A"
    ensures hour.time.Some? && hour.time.value != "" && ' ' !in hour.time.value ==>
      shown == hour.time.value
    ensures hour.time.Some? && ' ' in hour.time.value ==>
      var s := hour.time.value;
      var rest := s[IndexOf(s, ' ') + 1..];
      shown == rest[..IndexOf(rest, ' ')]
  {
    var rawTime := RawTime(hour);
    if ' ' in rawTime then Split(rawTime, ' ')[1] else rawTime
  }

  /**
   * The provider's "<date> <clock>" time, such as "2024-05-01 13:00", is
   * labelled with the clock part alone, "13:00".
   */
  lemma TimeLabelOfDateTime(hour: Hour, date: string, clock: string)
    requires ' ' !in date && ' ' !in clock
    requires hour.time == Some(date + " " + clock)
    ensures TimeLabel(hour) == clock
  {
    var s := date + [' '] + clock;
    assert hour.time.value == s;
    IndexOfAfter(date, ' ', clock);
    assert s[|date| + 1..] == clock;
  }

  /** `hourlyWeather?.condition?.code`. */
  function HourCode(hour: Hour): (code: Option<int>)
    ensures code.Some? ==> hour.condition.Some? && code == hour.condition.value.code
    ensures hour.condition.Some? ==> code == hour.condition.value.code
  {
    match hour.condition
    case None => None
    case Some(condition) => condition.code
  }

  /**
   * The icon key looked up (line 9) and shown with its fallback (line 17):
   * an entry without a condition code always shows "default".
   */
  function HourIcon(table: IconTable, hour: Hour): (key: string)
    ensures key == DEFAULT_ICON || exists i :: IsFirstMatch(table, HourCode(hour), i) && table[i].0 == key
    ensures forall i :: IsFirstMatch(table, HourCode(hour), i) && table[i].0 != "" ==> key == table[i].0
    ensures hour.condition.None? || hour.condition.value.code.None? ==> key == DEFAULT_ICON
    ensures key != ""
  {
    OrDefault(FindIcon(table, HourCode(hour)))
  }

  /** An hour entry and the current conditions with the same code show the same icon. */
  lemma HourIconAgreesWithCurrent(table: IconTable, hour: Hour, condition: Condition)
    requires hour.condition == Some(condition)
    ensures HourIcon(table, hour) == ResolveIcon(table, condition.code)
  {
  }
}
