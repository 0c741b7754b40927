# Flight time planner: departure-time engine, traffic estimates, airport directory

A Dafny model of the server side of the flight time planner: the
`POST /calculate-departure-time` handler that tells a traveller when to leave
for the airport, the `POST /estimate` and `POST /conditions` traffic handlers
it relies on, and the airport directory queries (`GET /`, `GET /:code`,
`GET /country/:country`).

All three route files compute values from their inputs, so the model is made
of datatypes, functions and lemmas, one module per route file:

- `AirportRoutes` (`airport_routes.dfy`): the airport table and its three
  queries. The queries take the table as a parameter `airports`; `Table` holds
  the 35 airports of the source, and `CodesDistinct` proves that no two of
  them share a code, even ignoring case.
- `TrafficRoutes` (`traffic_routes.dfy`): locations, the Directions answer as
  an abstract tagged value, the fallback estimate, step normalisation with
  markup stripping (`StripTags`, the regex `/<[^>]*>/g` written as a scan),
  and the `/conditions` filter. The Directions service is a function parameter
  `upstream` from the query the handler builds to what the HTTP client
  delivers (`Fetched(response)` or `Rejected`). A handler that answers without
  asking it returns a value that does not mention `upstream`.
- `FlightRoutes` (`flight_routes.dfy`): validation and defaults, the buffer
  policy, travel minutes, clock parsing, leave-by arithmetic on a 1440-minute
  clock face, the 12-hour rendering with a reader that inverts it, the
  breakdown, and the whole handler.
- `Replies`, `Sequences` and `Text` hold the shared shapes: `Option`,
  the `Ok`/`Fail` reply, the `Outcome` of a request (`Answered` with a reply,
  or `Unanswered`), `filter`/`find` over sequences, ASCII lower-casing,
  `includes` and decimal rendering.

The calculator reaches `/estimate` over HTTP on its own server. The model
calls `TrafficRoutes.PostEstimate` directly. An error reply from it (the 400
for a missing location, the 500 for a missing key) rejects the HTTP call and
becomes the calculator's 500 reply. Every other failure of `/estimate` sends
no reply at all (see "## Findings"), and then the calculator sends none either.

## Behaviour worth noting (the model follows the code)

- The security buffer is never clamped at 0. With the fixed constants it is
  always at least 45 (`CalculateBuffers`).
- A malformed flight time is not an error. It yields an invalid `Date`,
  which renders as the text "Invalid Date" in a 200 reply (`LeaveByText`).
- The fallback flag and message of the estimate do not reach the
  calculator's result. Only the route is copied (`DeniedDirectionsUseFallback`).
- The buffer constants are fixed. No override is accepted.

## Model

| member | source | states |
|---|---|---|
| `AirportRoutes.ListAirports` | server/routes/airportRoutes.js:49-77 | the answer is an order-preserving subsequence of the table; an airport is in it iff it is in the table, matches the search term when one is given, and is in the country when one is given; each airport kept comes back as many times as the table holds it |
| `AirportRoutes.ListAllAirports` | server/routes/airportRoutes.js:51-72 | with neither search nor country, the whole table in table order |
| `AirportRoutes.ListAirportsFilterOrder` | server/routes/airportRoutes.js:56-70 | applying the country filter first gives the same list: the two filters commute |
| `AirportRoutes.AirportByCode` | server/routes/airportRoutes.js:80-94 | answers an airport of the table whose code equals the parameter ignoring case, with no earlier airport matching; 404 "Airport not found" exactly when none matches |
| `AirportRoutes.AirportsInCountry` | server/routes/airportRoutes.js:97-109 | an order-preserving subsequence of the table holding exactly the airports whose country equals the parameter ignoring case, each as many times as the table holds it |
| `AirportRoutes.AirportsInCountryAsQuery` | server/routes/airportRoutes.js:97-104 | for a non-empty parameter, the country route answers exactly what the country-only `GET /` query answers |
| `AirportRoutes.CodesDistinct` | server/routes/airportRoutes.js:5-46 | no two airports of the table have codes equal ignoring case |
| `AirportRoutes.AirportByCodeUnique` | server/routes/airportRoutes.js:83 | over a table with distinct codes, the airport found is the only one with that code |
| `Text.IncludesIffOccurs` | server/routes/airportRoutes.js:59-61 | the `includes` search is true iff the needle occurs at some position |
| `Text.NatToStringRoundTrip` | server/routes/flightRoutes.js:47-52 | the decimal text of a number reads back as that number |
| `TrafficRoutes.QueryForm` | server/routes/trafficRoutes.js:44-45 | an address is sent unchanged; a coordinate object is sent as its latitude text, a comma and its longitude text |
| `TrafficRoutes.FirstClose` | server/routes/trafficRoutes.js:87 | the end of a match of `/<[^>]*>/`: the position of the first '>' in the text |
| `TrafficRoutes.StripTagsSubsequence` | server/routes/trafficRoutes.js:87 | stripping markup only deletes characters: the output is a subsequence of the input |
| `TrafficRoutes.StripTagsPlainText` | server/routes/trafficRoutes.js:87 | a text with no '<' is unchanged |
| `TrafficRoutes.StripTagsLeavesNoTag` | server/routes/trafficRoutes.js:87 | the output never holds a '<' followed later by a '>' |
| `TrafficRoutes.StripTagsIdempotent` | server/routes/trafficRoutes.js:87 | stripping twice equals stripping once |
| `TrafficRoutes.TravelTime` | server/routes/trafficRoutes.js:79-80 | the traffic-aware duration when present, else the plain duration |
| `TrafficRoutes.RouteSteps` | server/routes/trafficRoutes.js:86-90 | one output step per input step, in order, with the stripped instruction and the distance and duration texts |
| `TrafficRoutes.RouteStepsHaveNoMarkup` | server/routes/trafficRoutes.js:86-87 | no output instruction holds a '<' with a '>' after it |
| `TrafficRoutes.LegEstimate` | server/routes/trafficRoutes.js:78-92 | duration and its text from the travel time, distance from the leg, start and end addresses, the normalised steps; no fallback flag or message |
| `TrafficRoutes.InterpretResponse` | server/routes/trafficRoutes.js:54-92 | REQUEST_DENIED gives the fallback estimate (3600 s, 50000 m, one step "Drive to airport", flagged, with a message); any other non-OK status throws; OK gives an estimate iff there is a first route with a first leg, and otherwise throws; the flag is set iff the status was REQUEST_DENIED |
| `TrafficRoutes.PostEstimate` | server/routes/trafficRoutes.js:29-103 | as written: a missing origin or destination is answered 400 whatever the service would say; a missing key is answered 500; these are the only error replies sent; a flagged estimate is the fallback one; the request goes unanswered iff validation passed and the call was rejected or its answer threw |
| `TrafficRoutes.PostEstimateIntended` | server/routes/trafficRoutes.js:95-101 | as intended: the same validation replies, and every later failure is answered 500 "Failed to get traffic estimate"; errors are 400 or 500 only |
| `TrafficRoutes.EstimateAnsweredAsIntended` | server/routes/trafficRoutes.js:95-101 | the written handler sends nothing exactly where the intended one answers 500 "Failed to get traffic estimate", and otherwise sends the same reply |
| `TrafficRoutes.OverQueryLimitUnanswered` | server/routes/trafficRoutes.js:72 | an OVER_QUERY_LIMIT answer leaves the written handler unanswered and the intended one answering 500 |
| `TrafficRoutes.PostEstimateQueries` | server/routes/trafficRoutes.js:42-52 | the query holds both locations in query form, the current time floored to seconds, best-guess traffic, driving mode and the key, and the outcome is what the service's reply to it gives: an estimate, or no reply when the call is rejected or the answer throws |
| `TrafficRoutes.ConditionTimes` | server/routes/trafficRoutes.js:120-125 | the departure times are t, t+1800 and t+3600 seconds, t being now floored to seconds |
| `TrafficRoutes.CollectConditions` | server/routes/trafficRoutes.js:139-151 | succeeds iff every answer was delivered and every OK answer has a leg; then every OK answer gives its condition, every condition comes from an OK answer, and the departure times are a subsequence of the queried ones |
| `TrafficRoutes.PostConditions` | server/routes/trafficRoutes.js:106-158 | the same 400 and 500 checks as `/estimate`; at most 3 conditions, each for one of the three queried times, in increasing time order |
| `TrafficRoutes.PostConditionsQueries` | server/routes/trafficRoutes.js:127-151 | with both locations and a key, one query per departure time (both locations in query form, that time, best-guess traffic, no travel mode), and the answer is what `CollectConditions` makes of the three answers in query order |
| `TrafficRoutes.ConditionsOrdered` | server/routes/trafficRoutes.js:141-151 | conditions kept from strictly increasing times are no more numerous than the times and are strictly increasing |
| `FlightRoutes.DefaultsApply` | server/routes/flightRoutes.js:13-14 | a request without the two optional fields is answered as one with false and 'Moderate' |
| `FlightRoutes.RiskAdjustment` | server/routes/flightRoutes.js:79-86 | +15 iff 'Relaxed', -15 iff 'Just-in-Time', 0 iff neither |
| `FlightRoutes.CalculateBuffers` | server/routes/flightRoutes.js:64-77 | check-in and boarding 30; parking 15 iff needed, else 0; security before adjustment 120 iff 'International', else 60; security always one of 45, 60, 75, 105, 120, 135 |
| `FlightRoutes.RiskAdjustsOnlySecurity` | server/routes/flightRoutes.js:72-74 | two risk tolerances give equal check-in, boarding and parking, and securities differing by the difference of the adjustments; security is positive |
| `FlightRoutes.BufferExamples` | server/routes/flightRoutes.js:64-86 | International/Relaxed/parking is {30, 135, 30, 15}; Domestic/Just-in-Time/no parking is {30, 45, 30, 0} |
| `FlightRoutes.TravelMinutes` | server/routes/flightRoutes.js:30 | the ceiling of seconds / 60: minutes*60 covers the duration and (minutes-1)*60 does not |
| `FlightRoutes.TravelMinutesExamples` | server/routes/flightRoutes.js:30 | 61 s gives 2, 60 s gives 1, 3600 s gives 60 |
| `FlightRoutes.ParseClock` | server/routes/flightRoutes.js:40 | a flight time that is read gives a minute of the day, at most 1440 (end of day); only five-character "HH:MM" texts and two-character whole hours are read |
| `FlightRoutes.ParseClockExactly` | server/routes/flightRoutes.js:40 | a flight time is read iff it is the "HH:MM" text of a minute of the day, or "24:00", or a bare two-digit hour "00" to "24" read as that whole hour |
| `FlightRoutes.ParseClockExample` | server/routes/flightRoutes.js:40 | "14:30" is 870 minutes, "14" is 840, "24" is the end of the day and "25" is invalid |
| `FlightRoutes.LeaveBy` | server/routes/flightRoutes.js:41 | a minute of the day that, plus the total, equals the flight time modulo 1440 |
| `FlightRoutes.FormatTime` | server/routes/flightRoutes.js:88-94 | the hour has no leading zero: the text starts with a digit other than 0 and is 7 characters iff the 12-hour hour is 1 to 9, else 8; it ends in AM iff the minute is before noon |
| `FlightRoutes.FormatTimeRoundTrip` | server/routes/flightRoutes.js:88-94 | the 12-hour text reads back as the minute it renders |
| `FlightRoutes.LeaveByText` | server/routes/flightRoutes.js:39-44 | "Invalid Date" iff the flight time cannot be read; otherwise the `FormatTime` text of the leave-by minute, a 12-hour text that reads back as a minute of the day which, plus the total, equals the flight time modulo 1440 |
| `FlightRoutes.AssembleResult` | server/routes/flightRoutes.js:30-55 | echoes the flight time, copies the route verbatim, renders each component as "<n> mins", parking "Not needed" iff not needed, the total as the sum of travel and the four buffers, and the leave-by text for that total |
| `FlightRoutes.CalculateDepartureTime` | server/routes/flightRoutes.js:6-62 | over `/estimate` as written: 400 with the missing-fields message iff a required field is missing (the estimate is then not consulted); every other error reply is the 500 "Failed to calculate departure time"; a result echoes the flight time; no reply iff the fields are there and `/estimate` sends none |
| `FlightRoutes.CalculateDepartureTimeIntended` | server/routes/flightRoutes.js:6-62 | over `/estimate` as intended: every request is answered, with the same 400, the 500 "Failed to calculate departure time" or a result echoing the flight time |
| `FlightRoutes.CalculatorAnsweredAsIntended` | server/routes/flightRoutes.js:24-28 | the two calculators send the same reply wherever the written one answers; where it sends nothing, the intended one answers 500 |
| `FlightRoutes.CalculateFromEstimate` | server/routes/flightRoutes.js:25-57 | with every field present, no answer from `/estimate` gives no answer, an error reply gives the 500 reply, and an estimate gives the assembled result |
| `FlightRoutes.MissingAddressFails` | server/routes/flightRoutes.js:25-28 | an airport without an address makes `/estimate` answer 400, and the calculation fails with 500 |
| `FlightRoutes.DeniedDirectionsUseFallback` | server/routes/flightRoutes.js:25-54 | when the service denies the request the calculation succeeds with 60 travel minutes and the fallback route |
| `FlightRoutes.OtherStatusUnanswered` | server/routes/flightRoutes.js:24-28 | as written, any other failing status leaves the calculation unanswered, since `/estimate` never replies |
| `FlightRoutes.OtherStatusFails` | server/routes/flightRoutes.js:58-61 | as intended, any other failing status fails the calculation with 500 and no partial result |
| `FlightRoutes.WorkedExample` | server/routes/flightRoutes.js:30-52 | 14:30, 40 minutes of driving, Domestic, Moderate, no parking: total "160 mins", leave by "11:50 AM" |

## Findings

| source | as written | input that shows it | evidently intended | confidence | as-written member | corrected member |
|---|---|---|---|---|---|---|
| server/routes/trafficRoutes.js:97 | The `catch` block of `/estimate` logs `{ origin, destination }`. Those constants are declared inside the `try` block (line 31), so they are out of scope there and the log throws a ReferenceError before the 500 reply of line 101. The rejected async handler is not passed to any error handler, so no reply is sent, and the calculator's request to `/estimate` never completes. | a Directions answer with status OVER_QUERY_LIMIT (also a rejected call, or an OK answer with no route) | reply 500 "Failed to get traffic estimate", which the calculator turns into its own 500 reply | high; not executed | `TrafficRoutes.OverQueryLimitUnanswered` | `TrafficRoutes.PostEstimateIntended` |

`TrafficRoutes.PostEstimate` and `FlightRoutes.CalculateDepartureTime` model
the code as written, and `TrafficRoutes.EstimateAnsweredAsIntended` and
`FlightRoutes.CalculatorAnsweredAsIntended` state where the written and the
intended handlers differ. `FlightRoutes.CalculateDepartureTimeIntended` is
the calculator over the intended `/estimate`.

## Left out

- Network calls are left out: the calls to the Directions service and the calculator's HTTP call to its own `/estimate` route. The service is the parameter `upstream`. The self-call is a direct call, so a transport failure of that call alone is not modelled.
- Clock reads (`Date.now()`, `new Date()`) are the parameter `nowMs`, in milliseconds.
- The `GET /test` route of the traffic file is a connectivity probe with no logic and is not part of this model.
- The `details` text of 500 replies is left out. Replies carry only the status and the `error` text.
- Console logging is left out as an effect. Where evaluating its argument throws (`trafficRoutes.js:97`, see "## Findings"), the throw is modelled: the request goes `Unanswered`. Whether the process then stays up or exits on the unhandled rejection depends on the Node version and is not modelled.
- `Promise.all` fan-out in `/conditions` is concurrency. The model builds the three queries and handles their three answers in order.
- TrafficRoutes.PostConditions: each condition's `departureTime` is kept in whole seconds. The source renders it with `toLocaleTimeString()`, which depends on the locale.
- FlightRoutes.FormatTime: the separator before AM/PM is an ordinary space. Recent ICU versions print U+202F there. Time-zone and daylight-saving effects of local `Date` handling are not modelled.
- FlightRoutes.ParseClock: reads "HH:MM" and a bare "HH", the two forms for which `1970-01-01T<time>:00` is a local date-time string. The forms where the appended ":00" completes a UTC offset are also standard date-time strings: "HH:MM±hh", "HH:MM:SS±hh" and "HH:MM:SS.sss±hh" (and "-" offsets). The model treats them as invalid, because the minute of the day they stand for depends on the server's time zone. Non-standard strings that an engine's fallback parser may accept (such as a one-digit hour) are treated as invalid too.
- Text.ToLower: lower-cases A-Z only. JavaScript's `toLowerCase` also maps non-ASCII capitals, some of them onto ASCII letters: U+212A KELVIN SIGN becomes 'k'. So in the source `GET /H\u212AG` finds HKG and `?country=U\u212A` matches UK, where the model answers 404 and an empty list.
- Coordinates are carried as the decimal text JavaScript prints for them. Number formatting itself is not modelled. `departure_time` is a number here, though `/estimate` sends it as its decimal string.
- Request values of the wrong JSON type are not modelled, for instance an array where a string is expected (which makes `toLowerCase` throw and gives a 500).
- Express routing, CORS, the error middleware, `app.listen` and the client and mobile screens are outside this model.
