/** The traffic handlers of `server/routes/trafficRoutes.js`. The Google
    Directions service is a parameter `upstream` that maps the query the
    handler builds to what the HTTP client delivers; the handler's own logic
    (validation, query building, status branching, fallback, normalisation,
    markup stripping) is modelled as functions. */
module TrafficRoutes {

  import opened Replies
  import Sequences

  /** A request location: an address, or a coordinate object whose two
      numbers are carried as the decimal text JavaScript prints for them. */
  datatype Location = Address(text: string) | LatLng(lat: string, lng: string)

  /** JavaScript truthiness of a location field: absent and "" are falsy,
      any coordinate object is truthy. */
  predicate Present(loc: Option<Location>) {
    loc.Some? && !(loc.value.Address? && loc.value.text == "")
  }

  /** The form the Directions service is given: an address as it is, a
      coordinate object as "lat,lng". */
  function QueryForm(loc: Location): (q: string)
    ensures loc.Address? ==> q == loc.text
    ensures loc.LatLng? ==>
      && |q| == |loc.lat| + 1 + |loc.lng|
      && q[..|loc.lat|] == loc.lat
      && q[|loc.lat|] == ','
      && q[|loc.lat| + 1..] == loc.lng
  {
    match loc
    case Address(text) => text
    case LatLng(lat, lng) => lat + "," + lng
  }

  // ----- The Directions service, as far as the handlers read it -----

  datatype TextValue = TextValue(value: nat, text: string)

  datatype DirectionsStep = DirectionsStep(htmlInstructions: string, distance: TextValue, duration: TextValue)

  datatype Leg = Leg(
    startAddress: string,
    endAddress: string,
    distance: TextValue,
    duration: TextValue,
    durationInTraffic: Option<TextValue>,
    steps: seq<DirectionsStep>)

  datatype DirectionsRoute = DirectionsRoute(legs: seq<Leg>)

  datatype DirectionsResponse = DirectionsResponse(status: string, routes: seq<DirectionsRoute>)

  /** What the HTTP client delivers: the response body, or a rejection
      (network failure, non-2xx answer). */
  datatype Fetch = Fetched(data: DirectionsResponse) | Rejected

  /** The query parameters sent to the Directions service; `departureTime`
      is in whole seconds since the epoch. */
  datatype DirectionsQuery = DirectionsQuery(
    origin: string,
    destination: string,
    departureTime: nat,
    trafficModel: string,
    mode: Option<string>,
    key: string)

  // ----- What the handlers answer -----

  datatype RouteStep = RouteStep(instruction: string, distance: string, duration: string)

  datatype RouteSummary = RouteSummary(startAddress: string, endAddress: string, steps: seq<RouteStep>)

  /** The body of a successful `/estimate` answer. A live estimate carries
      `fallback == false` and no message. */
  datatype Estimate = Estimate(
    duration: nat,
    durationText: string,
    distance: nat,
    distanceText: string,
    route: RouteSummary,
    fallback: bool,
    message: Option<string>)

  datatype Condition = Condition(departureTime: nat, duration: nat, durationText: string)

  const MissingLocations := "Origin and destination are required"
  const MissingKey := "Google Maps API key not configured"
  const EstimateFailed := "Failed to get traffic estimate"
  const ConditionsFailed := "Failed to get traffic conditions"

  /** The estimate answered when the service denies the request. */
  const FallbackEstimate := Estimate(
    3600, "1 hour (estimated)", 50000, "50 km (estimated)",
    RouteSummary("Your Location", "Airport", [RouteStep("Drive to airport", "50 km", "1 hour")]),
    true,
    Some("Using estimated travel time. Please enable Google Maps Directions API for accurate results."))

  // ----- Markup stripping: `replace(/<[^>]*>/g, '')` -----

  /** Position of the first '>' in `s`. */
  function FirstClose(s: string): (k: nat)
    requires '>' in s
    ensures k < |s| && s[k] == '>' && '>' !in s[..k]
  {
    if s[0] == '>' then 0 else FirstClose(s[1..]) + 1
  }

  /** Scanning left to right, a '<' that has a '>' somewhere after it starts a
      match that runs to the first such '>' and is deleted; a '<' with no '>'
      after it cannot match and is kept, as is every other character. */
  function StripTags(s: string): string
    decreases |s|
  {
    if s == [] then []
    else if s[0] == '<' && '>' in s then StripTags(s[FirstClose(s) + 1..])
    else [s[0]] + StripTags(s[1..])
  }

  /** No '<' is followed, anywhere later, by a '>'. */
  predicate NoTag(s: string) {
    forall i, j :: 0 <= i < j < |s| && s[i] == '<' ==> s[j] != '>'
  }

  /** Stripping only deletes characters: the output is a subsequence of the input. */
  lemma {:induction false} StripTagsSubsequence(s: string)
    ensures Sequences.IsSubsequence(StripTags(s), s)
    decreases |s|
  {
    if s != [] {
      if s[0] == '<' && '>' in s {
        var k := FirstClose(s);
        StripTagsSubsequence(s[k + 1..]);
        SubsequenceOfSuffix(StripTags(s), s, k + 1);
      } else {
        StripTagsSubsequence(s[1..]);
        assert ([s[0]] + StripTags(s[1..]))[1..] == StripTags(s[1..]);
      }
    }
  }

  lemma {:induction false} SubsequenceOfSuffix(sub: string, s: string, k: nat)
    requires k <= |s| && Sequences.IsSubsequence(sub, s[k..])
    ensures Sequences.IsSubsequence(sub, s)
    decreases k
  {
    if k > 0 {
      assert s[1..][k - 1..] == s[k..];
      SubsequenceOfSuffix(sub, s[1..], k - 1);
      if sub != [] {
        assert Sequences.IsSubsequence(sub, s[1..]);
      }
    }
  }

  /** Every character of the output comes from the input. */
  lemma StripTagsChars(s: string, c: char)
    requires c in StripTags(s)
    ensures c in s
  {
    StripTagsSubsequence(s);
    Sequences.SubsequenceMembers(StripTags(s), s, c);
  }

  /** Text without '<' passes through unchanged. */
  lemma {:induction false} StripTagsPlainText(s: string)
    requires '<' !in s
    ensures StripTags(s) == s
    decreases |s|
  {
    if s != [] {
      StripTagsPlainText(s[1..]);
    }
  }

  /** Text in which no '<' has a '>' after it passes through unchanged. */
  lemma {:induction false} StripTagsNoTag(s: string)
    requires NoTag(s)
    ensures StripTags(s) == s
    decreases |s|
  {
    if s != [] {
      if s[0] == '<' {
        assert '>' !in s by {
          forall j | 0 <= j < |s| ensures s[j] != '>' {
            if j > 0 {
              assert s[0] == '<';
            }
          }
        }
      }
      assert NoTag(s[1..]) by {
        forall i, j | 0 <= i < j < |s[1..]| && s[1..][i] == '<' ensures s[1..][j] != '>' {
          assert s[i + 1] == '<';
        }
      }
      StripTagsNoTag(s[1..]);
    }
  }

  /** The output never holds a '<' followed later by a '>'. */
  lemma {:induction false} StripTagsLeavesNoTag(s: string)
    ensures NoTag(StripTags(s))
    decreases |s|
  {
    if s != [] {
      if s[0] == '<' && '>' in s {
        StripTagsLeavesNoTag(s[FirstClose(s) + 1..]);
      } else {
        var rest := StripTags(s[1..]);
        StripTagsLeavesNoTag(s[1..]);
        var r := [s[0]] + rest;
        forall i, j | 0 <= i < j < |r| && r[i] == '<' ensures r[j] != '>' {
          if i == 0 {
            assert '>' !in s[1..] by {
              forall m | 0 <= m < |s[1..]| ensures s[1..][m] != '>' {
                assert s[m + 1] == s[1..][m];
              }
            }
            assert r[j] == rest[j - 1];
            if r[j] == '>' {
              StripTagsChars(s[1..], '>');
            }
          } else {
            assert r[i] == rest[i - 1] && r[j] == rest[j - 1];
          }
        }
      }
    }
  }

  /** Stripping twice strips no more than stripping once. */
  lemma StripTagsIdempotent(s: string)
    ensures StripTags(StripTags(s)) == StripTags(s)
  {
    StripTagsLeavesNoTag(s);
    StripTagsNoTag(StripTags(s));
  }

  // ----- POST /estimate -----

  /** The travel time of a leg: the traffic-aware one when the service gives
      it, the free-flow one otherwise. */
  function TravelTime(leg: Leg): (t: TextValue)
    ensures (leg.durationInTraffic.Some? && t == leg.durationInTraffic.value) || (leg.durationInTraffic.None? && t == leg.duration)
  {
    match leg.durationInTraffic
    case Some(inTraffic) => inTraffic
    case None => leg.duration
  }

  /** The steps of a leg, one for one and in order, with markup stripped from
      the instructions. */
  function RouteSteps(steps: seq<DirectionsStep>): (r: seq<RouteStep>)
    ensures |r| == |steps|
    ensures forall i :: 0 <= i < |steps| ==>
      r[i] == RouteStep(StripTags(steps[i].htmlInstructions), steps[i].distance.text, steps[i].duration.text)
    decreases |steps|
  {
    if steps == [] then []
    else
      [RouteStep(StripTags(steps[0].htmlInstructions), steps[0].distance.text, steps[0].duration.text)]
        + RouteSteps(steps[1..])
  }

  /** No instruction of a normalised route holds a '<' with a '>' after it. */
  lemma RouteStepsHaveNoMarkup(steps: seq<DirectionsStep>, i: nat)
    requires i < |steps|
    ensures NoTag(RouteSteps(steps)[i].instruction)
  {
    StripTagsLeavesNoTag(steps[i].htmlInstructions);
  }

  /** The estimate built from the first leg of a successful answer. */
  function LegEstimate(leg: Leg): (e: Estimate)
    ensures e.duration == TravelTime(leg).value && e.durationText == TravelTime(leg).text
    ensures e.distance == leg.distance.value && e.distanceText == leg.distance.text
    ensures e.route.startAddress == leg.startAddress && e.route.endAddress == leg.endAddress
    ensures e.route.steps == RouteSteps(leg.steps)
    ensures !e.fallback && e.message.None?
  {
    var time := TravelTime(leg);
    Estimate(
      time.value, time.text, leg.distance.value, leg.distance.text,
      RouteSummary(leg.startAddress, leg.endAddress, RouteSteps(leg.steps)),
      false, None)
  }

  /** The answer has a first route with a first leg. */
  predicate HasLeg(data: DirectionsResponse) {
    |data.routes| > 0 && |data.routes[0].legs| > 0
  }

  function FirstLeg(data: DirectionsResponse): Leg
    requires HasLeg(data)
  {
    data.routes[0].legs[0]
  }

  /** What the `try` block of `/estimate` makes of the service's answer: a
      non-OK status throws, except REQUEST_DENIED, which gives the fallback
      estimate; an OK answer without a route or leg throws when it is read.
      A throw is None. */
  function InterpretResponse(data: DirectionsResponse): (r: Option<Estimate>)
    ensures data.status == "REQUEST_DENIED" ==> r == Some(FallbackEstimate)
    ensures data.status != "OK" && data.status != "REQUEST_DENIED" ==> r.None?
    ensures data.status == "OK" ==> (r.Some? <==> HasLeg(data))
    ensures data.status == "OK" && HasLeg(data) ==> r == Some(LegEstimate(FirstLeg(data)))
    ensures r.Some? ==> (r.value.fallback <==> data.status == "REQUEST_DENIED")
  {
    if data.status != "OK" then
      if data.status == "REQUEST_DENIED" then Some(FallbackEstimate) else None
    else if !HasLeg(data) then None
    else Some(LegEstimate(FirstLeg(data)))
  }

  /** The query `/estimate` sends: driving, best-guess traffic, departing now
      (the clock reading `nowMs`, in milliseconds, floored to seconds). */
  function EstimateQuery(origin: Location, destination: Location, key: string, nowMs: nat): DirectionsQuery {
    DirectionsQuery(QueryForm(origin), QueryForm(destination), nowMs / 1000, "best_guess", Some("driving"), key)
  }

  /** The service's estimate for the query, or None when the call is
      rejected or the `try` block throws on the answer. */
  function FetchEstimate(sent: DirectionsQuery, upstream: DirectionsQuery -> Fetch): Option<Estimate> {
    match upstream(sent)
    case Rejected => None
    case Fetched(data) => InterpretResponse(data)
  }

  /** POST /estimate as written. Its `catch` block logs `origin` and
      `destination`, which are declared inside the `try` block and are out of
      scope there, so the log throws before the 500 reply is sent: every
      failure after validation leaves the request unanswered. */
  function PostEstimate(
    origin: Option<Location>, destination: Option<Location>, apiKey: Option<string>,
    nowMs: nat, upstream: DirectionsQuery -> Fetch): (r: Outcome<Estimate>)
    ensures !Present(origin) || !Present(destination) ==> r == Answered(Fail(400, MissingLocations))
    ensures Present(origin) && Present(destination) && !Given(apiKey) ==> r == Answered(Fail(500, MissingKey))
    ensures r.Answered? && r.reply.Fail? ==> r.reply == Fail(400, MissingLocations) || r.reply == Fail(500, MissingKey)
    ensures r.Answered? && r.reply.Ok? ==> Present(origin) && Present(destination) && Given(apiKey)
    ensures r.Answered? && r.reply.Ok? && r.reply.value.fallback ==> r.reply.value == FallbackEstimate
    ensures r.Unanswered? <==>
      && Present(origin) && Present(destination) && Given(apiKey)
      && FetchEstimate(EstimateQuery(origin.value, destination.value, apiKey.value, nowMs), upstream).None?
  {
    if !Present(origin) || !Present(destination) then Answered(Fail(400, MissingLocations))
    else if !Given(apiKey) then Answered(Fail(500, MissingKey))
    else match FetchEstimate(EstimateQuery(origin.value, destination.value, apiKey.value, nowMs), upstream)
      case None => Unanswered
      case Some(estimate) => Answered(Ok(estimate))
  }

  /** POST /estimate as its `catch` block evidently intends: every failure
      after validation is answered with 500 "Failed to get traffic estimate". */
  function PostEstimateIntended(
    origin: Option<Location>, destination: Option<Location>, apiKey: Option<string>,
    nowMs: nat, upstream: DirectionsQuery -> Fetch): (r: Reply<Estimate>)
    ensures !Present(origin) || !Present(destination) ==> r == Fail(400, MissingLocations)
    ensures Present(origin) && Present(destination) && !Given(apiKey) ==> r == Fail(500, MissingKey)
    ensures r.Fail? ==> r.status == 400 || r.status == 500
    ensures r.Ok? ==> Present(origin) && Present(destination) && Given(apiKey)
    ensures r.Ok? && r.value.fallback ==> r.value == FallbackEstimate
  {
    if !Present(origin) || !Present(destination) then Fail(400, MissingLocations)
    else if !Given(apiKey) then Fail(500, MissingKey)
    else match FetchEstimate(EstimateQuery(origin.value, destination.value, apiKey.value, nowMs), upstream)
      case None => Fail(500, EstimateFailed)
      case Some(estimate) => Ok(estimate)
  }

  /** The handler as written and as intended send the same reply, except
      that where the intended one answers 500 "Failed to get traffic
      estimate" the written one sends nothing. */
  lemma EstimateAnsweredAsIntended(
    origin: Option<Location>, destination: Option<Location>, apiKey: Option<string>,
    nowMs: nat, upstream: DirectionsQuery -> Fetch)
    ensures var written := PostEstimate(origin, destination, apiKey, nowMs, upstream);
      var intended := PostEstimateIntended(origin, destination, apiKey, nowMs, upstream);
      && (written.Unanswered? <==> intended == Fail(500, EstimateFailed))
      && (written.Answered? ==> written.reply == intended)
  {
  }

  /** One input that shows it: an OVER_QUERY_LIMIT answer, which the written
      handler leaves unanswered and the intended one answers with 500. */
  lemma OverQueryLimitUnanswered(origin: Location, destination: Location, key: string, nowMs: nat)
    requires Present(Some(origin)) && Present(Some(destination)) && key != ""
    ensures var upstream := (q: DirectionsQuery) => Fetched(DirectionsResponse("OVER_QUERY_LIMIT", []));
      && PostEstimate(Some(origin), Some(destination), Some(key), nowMs, upstream) == Unanswered
      && PostEstimateIntended(Some(origin), Some(destination), Some(key), nowMs, upstream) == Fail(500, EstimateFailed)
  {
  }

  /** Once both locations and the key are there, the outcome is what the
      service's answer to the driving query for those two places makes. */
  lemma PostEstimateQueries(
    origin: Location, destination: Location, key: string,
    nowMs: nat, upstream: DirectionsQuery -> Fetch)
    requires Present(Some(origin)) && Present(Some(destination)) && key != ""
    ensures var sent := EstimateQuery(origin, destination, key, nowMs);
      && sent.origin == QueryForm(origin) && sent.destination == QueryForm(destination)
      && sent.departureTime * 1000 <= nowMs < (sent.departureTime + 1) * 1000
      && sent.trafficModel == "best_guess" && sent.mode == Some("driving") && sent.key == key
      && PostEstimate(Some(origin), Some(destination), Some(key), nowMs, upstream)
         == match upstream(sent)
            case Rejected => Unanswered
            case Fetched(data) =>
              if InterpretResponse(data).Some? then Answered(Ok(InterpretResponse(data).value)) else Unanswered
  {
  }

  // ----- POST /conditions -----

  /** The three departure times compared: now, in 30 and in 60 minutes,
      each floored to whole seconds. */
  function ConditionTimes(nowMs: nat): (times: seq<nat>)
    ensures times == [nowMs / 1000, nowMs / 1000 + 1800, nowMs / 1000 + 3600]
  {
    [nowMs / 1000, (nowMs + 30 * 60 * 1000) / 1000, (nowMs + 60 * 60 * 1000) / 1000]
  }

  /** The query for one departure time (no travel mode is sent). */
  function ConditionQuery(origin: Location, destination: Location, key: string, time: nat): DirectionsQuery {
    DirectionsQuery(QueryForm(origin), QueryForm(destination), time, "best_guess", None, key)
  }

  /** The answer is an OK one. */
  predicate IsOk(f: Fetch) {
    f.Fetched? && f.data.status == "OK"
  }

  /** The answer can be read without failing: it was delivered, and if it is
      OK it has a route with a leg. */
  predicate Readable(f: Fetch) {
    f.Fetched? && (f.data.status == "OK" ==> HasLeg(f.data))
  }

  function ConditionOf(time: nat, data: DirectionsResponse): Condition
    requires HasLeg(data)
  {
    var t := TravelTime(FirstLeg(data));
    Condition(time, t.value, t.text)
  }

  function DepartureTimes(cs: seq<Condition>): (ts: seq<nat>)
    ensures |ts| == |cs| && forall k :: 0 <= k < |cs| ==> ts[k] == cs[k].departureTime
  {
    seq(|cs|, k requires 0 <= k < |cs| => cs[k].departureTime)
  }

  /** The answers for the departure times `times`, in order: all must be
      delivered and readable; only the OK ones give a condition. */
  function CollectConditions(times: seq<nat>, answers: seq<Fetch>): (r: Reply<seq<Condition>>)
    requires |times| == |answers|
    ensures r.Ok? <==> forall i :: 0 <= i < |answers| ==> Readable(answers[i])
    ensures r.Fail? ==> r == Fail(500, ConditionsFailed)
    ensures r.Ok? ==> Sequences.IsSubsequence(DepartureTimes(r.value), times)
    ensures r.Ok? ==> forall i :: 0 <= i < |answers| && IsOk(answers[i]) ==>
      ConditionOf(times[i], answers[i].data) in r.value
    ensures r.Ok? ==> forall c :: c in r.value ==>
      exists i :: 0 <= i < |answers| && IsOk(answers[i]) && c == ConditionOf(times[i], answers[i].data)
    decreases |times|
  {
    if times == [] then Ok([])
    else
      var rest := CollectConditions(times[1..], answers[1..]);
      var head := answers[0];
      if !Readable(head) || rest.Fail? then Fail(500, ConditionsFailed)
      else if IsOk(head) then
        var r := [ConditionOf(times[0], head.data)] + rest.value;
        assert DepartureTimes(r)[1..] == DepartureTimes(rest.value);
        assert forall c :: c in rest.value ==> c in r;
        Ok(r)
      else
        Ok(rest.value)
  }

  /** POST /conditions. */
  function PostConditions(
    origin: Option<Location>, destination: Option<Location>, apiKey: Option<string>,
    nowMs: nat, upstream: DirectionsQuery -> Fetch): (r: Reply<seq<Condition>>)
    ensures !Present(origin) || !Present(destination) ==> r == Fail(400, MissingLocations)
    ensures Present(origin) && Present(destination) && !Given(apiKey) ==> r == Fail(500, MissingKey)
    ensures r.Fail? ==> r.status == 400 || r.status == 500
    ensures r.Ok? ==> |r.value| <= 3
    ensures r.Ok? ==> forall k :: 0 <= k < |r.value| ==>
      r.value[k].departureTime in ConditionTimes(nowMs)
    ensures r.Ok? ==> forall k, m :: 0 <= k < m < |r.value| ==>
      r.value[k].departureTime < r.value[m].departureTime
  {
    if !Present(origin) || !Present(destination) then Fail(400, MissingLocations)
    else if !Given(apiKey) then Fail(500, MissingKey)
    else
      var times := ConditionTimes(nowMs);
      var answers := seq(3, i requires 0 <= i < 3 =>
        upstream(ConditionQuery(origin.value, destination.value, apiKey.value, times[i])));
      var r := CollectConditions(times, answers);
      if r.Ok? then
        ConditionsOrdered(times, r.value);
        r
      else r
  }

  /** Once both locations and the key are there, `/conditions` sends one
      best-guess query per departure time, with no travel mode, and answers
      what the service's three answers, in query order, make. */
  lemma PostConditionsQueries(
    origin: Location, destination: Location, key: string,
    nowMs: nat, upstream: DirectionsQuery -> Fetch)
    requires Present(Some(origin)) && Present(Some(destination)) && key != ""
    ensures var times := ConditionTimes(nowMs);
      && (forall i :: 0 <= i < 3 ==>
            var sent := ConditionQuery(origin, destination, key, times[i]);
            && sent.origin == QueryForm(origin) && sent.destination == QueryForm(destination)
            && sent.departureTime == times[i] && sent.trafficModel == "best_guess"
            && sent.mode.None? && sent.key == key)
      && PostConditions(Some(origin), Some(destination), Some(key), nowMs, upstream)
         == CollectConditions(times, seq(3, i requires 0 <= i < 3 =>
              upstream(ConditionQuery(origin, destination, key, times[i]))))
  {
  }

  /** A subsequence of strictly increasing times is strictly increasing, and
      no longer. */
  lemma ConditionsOrdered(times: seq<nat>, cs: seq<Condition>)
    requires forall k, m :: 0 <= k < m < |times| ==> times[k] < times[m]
    requires Sequences.IsSubsequence(DepartureTimes(cs), times)
    ensures |cs| <= |times|
    ensures forall k :: 0 <= k < |cs| ==> cs[k].departureTime in times
    ensures forall k, m :: 0 <= k < m < |cs| ==> cs[k].departureTime < cs[m].departureTime
  {
    var ts := DepartureTimes(cs);
    Sequences.SubsequenceLength(ts, times);
    forall k | 0 <= k < |cs| ensures cs[k].departureTime in times {
      Sequences.SubsequenceMembers(ts, times, ts[k]);
    }
    IncreasingSubsequence(ts, times);
  }

  lemma {:induction false} IncreasingSubsequence(sub: seq<nat>, s: seq<nat>)
    requires forall k, m :: 0 <= k < m < |s| ==> s[k] < s[m]
    requires Sequences.IsSubsequence(sub, s)
    ensures forall k, m :: 0 <= k < m < |sub| ==> sub[k] < sub[m]
    decreases |s|
  {
    if sub != [] {
      if sub[0] == s[0] && Sequences.IsSubsequence(sub[1..], s[1..]) {
        IncreasingSubsequence(sub[1..], s[1..]);
        forall m | 0 < m < |sub| ensures sub[0] < sub[m] {
          Sequences.SubsequenceMembers(sub[1..], s[1..], sub[m]);
        }
      } else {
        IncreasingSubsequence(sub, s[1..]);
      }
    }
  }
}
