# Weather widget: response normalisation and display mapping

This project models the core of a browser weather widget. The widget asks a
forecast provider about a city or a coordinate pair and shows the current
conditions and an hourly forecast. The part modelled is what happens after
one request ends:

- the App component's update `getWeatherDetails`. It clears the no-results
  flag, rejects a failed request or a reply missing `location`, `current` or
  `forecast`, and then writes the current conditions. These are the floored
  temperature, the description verbatim and an icon key. Last it writes the
  hourly list, day 0's hours followed by day 1's. Any error sets the
  no-results flag again and leaves the rest of the state as it was when the
  error was thrown.
- the icon lookup: the first key of the `weatherCodes` table, in key order,
  whose code list holds the condition code, with `"default"` as fallback.
- what the HourlyWeather component shows for one raw hour entry: the floored
  temperature (0 when absent), the time label and the icon key.
- the two strings the App builds: the request URL and the live-location query
  `"<lat>,<lon>"`.

Modules, one per file:

- `Wrappers` (wrappers.dfy): `Option`.
- `Strings` (strings.dfy): JavaScript's `split` on a one-character
  separator. `IndexOf` gives the position of the first separator, where
  `split` cuts, and `|s|` when there is none. `Join` is the reference `Split` is
  proved against.
- `WeatherData` (weather_data.dfy): the decoded provider payload, the fetch
  outcome and the current-conditions state. Every field the code reaches
  through may be absent.
- `Icons` (icons.dfy): the first-match lookup and its `"default"` fallback.
- `Normalize` (normalize.dfy): the pure steps of the update. It also holds
  `UpdateEffect`, a function of the icon table and the fetch outcome saying
  what one update does: `Rejected` (only the flag changes), `CurrentOnly`
  (the error came after the current conditions were written) or `Applied`.
- `WeatherApp` (app.dfy): class `App` holds the three state variables and
  the imported table. `GetWeatherDetails` is an imperative method with early
  exits where the source throws, proved against `UpdateEffect`.
- `HourlyWeather` (hourly_weather.dfy): the per-entry derivations.
- `Scenarios` (scenarios.dfy): whole-update consequences for typical replies.

The update is a function of its inputs alone, so running the normalisation
twice on one payload gives one result by construction.

Three points where the code behaves otherwise than a pure normaliser would.
The model follows the code:

- Validation does not shield the state from every later error. The new
  current conditions are written
  (src/App.jsx:48) before the hourly arrays are spread (51-54). If spreading
  throws, the new current conditions, the old hourly list and a set
  no-results flag all remain. `UpdateEffect`'s `CurrentOnly` case models this.
- Hourly entries are not normalised into records when they are stored. The
  code stores the provider's hour objects unchanged (src/App.jsx:60) and derives
  the label, temperature and icon only when rendering
  (src/components/HourlyWeather.jsx:6-11).
- `|| "default"` and `|| "N/A"` test truthiness. An empty-string icon key
  therefore shows `"default"`, and an empty time string shows `"N/A"`.

## Model

| member | source | states |
|---|---|---|
| `Strings.IndexOf` | src/components/HourlyWeather.jsx:8 | the first position of the character, with no occurrence before it; the length exactly when the character is absent |
| `Strings.Split` | src/components/HourlyWeather.jsx:8 | at least one piece; more than one exactly when the separator occurs; no piece holds the separator; the first piece is the text before the first separator |
| `Strings.JoinSplit` | src/components/HourlyWeather.jsx:8 | joining the pieces of a split gives the string back |
| `Strings.SplitJoin` | src/components/HourlyWeather.jsx:8 | splitting a join of separator-free pieces gives the pieces back |
| `Icons.Matches` | src/App.jsx:43 | the code is present and in the entry's list; an absent code matches nothing (no contract of its own; `Icons.NoCodeIsDefault` states the absent case) |
| `Icons.FirstMatchIndex` | src/App.jsx:42-44 | the index `find` stops at: the first entry whose codes hold the code, or the table length when no entry does |
| `Icons.FindIcon` | src/App.jsx:42-43 | None exactly when no entry matches; otherwise the key of the unique first matching entry, in table order |
| `Icons.OrDefault` | src/App.jsx:44 | the key found when it is a non-empty string, otherwise "default" |
| `Icons.ResolveIcon` | src/App.jsx:42-44 | the first matching key when it is non-empty; "default" when nothing matches or the first matching key is empty; never empty, and never anything but a first-match key or "default" |
| `Icons.ResolveIconIsKeyOrDefault` | src/App.jsx:42-44 | the icon shown is always a table key or "default" |
| `Icons.UniqueCodeResolves` | src/App.jsx:42-44 | a code listed under exactly one non-empty key resolves to that key |
| `Icons.EmptyKeyIsDefault` | src/App.jsx:44 | a first match on the empty key shows "default", even when a later key also matches |
| `Icons.NoCodeIsDefault` | src/components/HourlyWeather.jsx:9-11 | an absent code matches no entry and gives "default" |
| `Normalize.FloorTemperature` | src/App.jsx:38-39 | the greatest integer not above `temp_c`; absent (NaN) exactly when `temp_c` is absent |
| `Normalize.FloorExamples` | src/App.jsx:39 | 15.9 floors to 15 and -0.4 to -1 |
| `Normalize.MergeHourly` | src/App.jsx:51-54 | defined exactly when both days' `hour` values can be spread; then its length is the sum of the two days' lengths, day 0's entries come first and day 1's follow, each in provider order |
| `Normalize.MissingDayIsEmpty` | src/App.jsx:52-53 | an absent forecast list, an absent day or an absent `hour` contributes no entries |
| `WeatherData.FetchOutcome.Ok` | src/App.jsx:27 | `response.ok`: the status lies in 200-299 (no contract of its own; `Normalize.FailedRequestRejected` states that a status outside it changes only the flag) |
| `Normalize.HasSections` | src/App.jsx:34 | location, current and forecast are all present (no contract of its own; `Normalize.MissingSectionRejected` states that an ok reply without it changes only the flag) |
| `Normalize.CurrentConditions` | src/App.jsx:38-44 | absent exactly when `condition` is absent; otherwise a record whose temperature is the floor of `temp_c` (absent with it), whose description is `condition.text` verbatim and whose icon is the first matching key when that is non-empty and otherwise "default", never empty |
| `Normalize.DayHours` | src/App.jsx:52-53 | `forecastday?.[d]?.hour`: absent for a missing list or an index past its end (no contract of its own; `Normalize.MissingDayIsEmpty` states what such a day contributes) |
| `Normalize.Spread` | src/App.jsx:52-53 | `...(hour \|\| [])`: fails exactly on a non-iterable `hour`; an array spreads to its entries, an absent value to no entries |
| `Normalize.UpdateEffect` | src/App.jsx:26-60 | nothing but the flag is written unless the reply is ok, readable and has all three sections; whatever current conditions are written are the payload's; the hourly list is written exactly when both days spread, and it is their merge |
| `Normalize.FailedRequestRejected` | src/App.jsx:26-29 | a transport failure or a status outside 200-299 changes only the flag |
| `Normalize.MissingSectionRejected` | src/App.jsx:34-36 | an ok reply lacking `location`, `current` or `forecast` changes only the flag |
| `Normalize.AppliedExactly` | src/App.jsx:26-60 | the update succeeds exactly when the reply is ok and readable, has all three sections and a current condition, and both days can be spread |
| `Normalize.CurrentOnlyExactly` | src/App.jsx:48-63 | the current conditions are written without the hourly list exactly when everything up to line 48 succeeds and a day's `hour` cannot be spread |
| `Normalize.NewCurrentConditions` | src/App.jsx:38-48 | whenever the current conditions are written, they are a new record of the floored temperature, the verbatim description and the resolved icon, taken from the payload alone |
| `Normalize.NewHourlyForecasts` | src/App.jsx:51-60 | on success the hourly list is exactly day 0's hours followed by day 1's |
| `WeatherApp.App.constructor` | src/App.jsx:11-13 | the initial state: empty current conditions, an empty hourly list, the flag clear |
| `WeatherApp.App.GetWeatherDetails` | src/App.jsx:17-65 | the flag ends set exactly when the update fails; a rejected update keeps the current conditions and the hourly list; a failure while spreading keeps the hourly list but writes the new current conditions; a success writes both |
| `WeatherApp.ForecastUrl` | src/App.jsx:22 | the request URL for a key and an encoded query (no contract of its own; `WeatherApp.ForecastUrlFields` states its parameters) |
| `WeatherApp.ForecastUrlFields` | src/App.jsx:21-22 | the URL is the endpoint followed by exactly the parameters `key=<key>`, `q=<encoded query>` and `days=2`, whenever neither value holds an `&` |
| `WeatherApp.CoordinateQuery` | src/App.jsx:80 | the query holds no space exactly when neither coordinate text does |
| `WeatherApp.CoordinateQueryFields` | src/App.jsx:80 | the query splits at its comma back into latitude and longitude |
| `WeatherApp.CoordinateQueryExample` | src/App.jsx:80 | (51.5, -0.1) is queried as "51.5,-0.1" |
| `HourlyWeather.HourTemperature` | src/components/HourlyWeather.jsx:6 | the greatest integer not above `temp_c` when it is present; 0 when it is absent or 0 |
| `HourlyWeather.RawTime` | src/components/HourlyWeather.jsx:7 | never empty; the entry's time when that is a non-empty string, "N/A" otherwise |
| `HourlyWeather.TimeLabel` | src/components/HourlyWeather.jsx:7-8 | never holds a space; "N/A" for an absent or empty time; the whole time when it has no space; otherwise the text between the first space and the next one or the end |
| `HourlyWeather.TimeLabelOfDateTime` | src/components/HourlyWeather.jsx:7-8 | a "<date> <clock>" time such as "2024-05-01 13:00" is labelled with its clock part, "13:00" |
| `HourlyWeather.HourCode` | src/components/HourlyWeather.jsx:10 | the condition's code when the entry has a condition, absent otherwise |
| `HourlyWeather.HourIcon` | src/components/HourlyWeather.jsx:9-17 | the first matching key when that is non-empty, otherwise "default", never empty; always "default" for an entry without a condition or a code |
| `HourlyWeather.HourIconAgreesWithCurrent` | src/components/HourlyWeather.jsx:9-17 | for the same table and code an hour entry shows the same icon key as the current conditions |
| `Scenarios.ClearDayInLondon` | src/App.jsx:38-60 | a 15.7 degree reply with code 1000 under a "clear" key gives 15 degrees, the provider's text, "clear" and no hours |
| `Scenarios.ServerError` | src/App.jsx:27-29 | a status 500 reply is a failed request |
| `Scenarios.EmptyObject` | src/App.jsx:34-35 | an ok reply of `{}` is an invalid structure |
| `Scenarios.TwoFullDays` | src/App.jsx:51-54 | an ok reply with all sections, a condition and two days of 24 hours succeeds with 48 entries, today's 24 first and tomorrow's 24 after them |
| `Scenarios.OneDayOnly` | src/App.jsx:51-54 | a reply with only one forecast day succeeds with that day's hours alone |

## Left out

- The `fetch` call, `response.json()` and the console logging (src/App.jsx:24-32) are not modelled. What the fetch ended in is the input of `GetWeatherDetails`.
- `encodeURIComponent` and reading the API key from the environment (src/App.jsx:9, 21) are host calls. `ForecastUrl` takes the key and the already encoded query as inputs.
- Turning the latitude and longitude numbers into decimal text is not modelled. `CoordinateQuery` takes the two texts.
- `getLiveLocationWeather` (src/App.jsx:68-87) is the only user of the coordinate query at line 80, and nothing in this revision calls it. App passes it to SearchSection (src/App.jsx:98), but SearchSection ignores that prop (src/components/SearchSection.jsx:4); its location button uses its own `handleLocationSearch` (src/components/SearchSection.jsx:15-20). `CoordinateQuery` therefore models code that cannot be reached in this revision.
- Geolocation, `alert` and the startup lookup of "London" (src/App.jsx:68-91) are browser callbacks, so they are not modelled.
- Writing the resolved location name into the search box (src/App.jsx:56-58) is a DOM side effect with no effect on the modelled state.
- All JSX rendering is left out, including the icon image path (src/App.jsx:93-117; src/components/HourlyWeather.jsx:13-23).
- src/components/SearchSection.jsx is not part of this model. It passes whole URL strings to `getWeatherDetails`, which encodes them again as a query.
- Concurrency is not modelled: overlapping calls racing on the state, and the moment during the await when the flag is cleared.
- One call is treated as atomic. Its contract describes the state after the call.
- Only some JavaScript values are modelled. Left out are a string-valued `hour` (iterable, so it spreads into characters), a `forecastday` that is not an array, and non-string times or non-number temperatures (these throw, or misbehave, while rendering).
- A `current.temp_c` that is null, "" or false is not modelled. `Math.floor` turns these into 0 (src/App.jsx:39), while `FloorTemperature`'s None stands only for an undefined `temp_c`, which gives NaN.
- A `current.condition` that is present but not an object (0, "", false) is not modelled. The code would read its `text` and `code` as undefined and succeed with the "default" icon (src/App.jsx:40-44). The model's condition is either absent (null or undefined, and then line 40 throws) or an object.
- Temperatures are exact reals. Rounding of IEEE doubles is not modelled.
- `Object.keys` order is an input: the table is given in the order its keys enumerate.
