/** The departure-time calculator of `server/routes/flightRoutes.js`:
    request validation and defaults, the buffer policy, travel minutes,
    the leave-by clock time and the breakdown. The traffic estimate comes
    from the `/estimate` handler of `TrafficRoutes`, which the calculator
    reaches over HTTP; here it is called directly. */
module FlightRoutes {

  import opened Replies
  import opened Text
  import T = TrafficRoutes

  /** The only field of the selected airport the calculator reads. */
  datatype AirportRef = AirportRef(address: Option<string>)

  /** The JSON body of `POST /calculate-departure-time`; absent fields are None. */
  datatype DepartureRequest = DepartureRequest(
    flightDepartureTime: Option<string>,
    departureLocation: Option<T.Location>,
    destinationAirport: Option<AirportRef>,
    flightType: Option<string>,
    parkingNeeded: Option<bool>,
    riskTolerance: Option<string>)

  datatype Buffers = Buffers(checkIn: int, security: int, boarding: int, parking: int)

  datatype Breakdown = Breakdown(
    travel: string, checkIn: string, security: string, boarding: string, parking: string, total: string)

  datatype DepartureResult = DepartureResult(
    departureTime: string,
    flightDepartureTime: string,
    breakdown: Breakdown,
    route: T.RouteSummary)

  const MissingFields := "Missing required fields: flightDepartureTime, departureLocation, destinationAirport, flightType"
  const CalculationFailed := "Failed to calculate departure time"

  // ----- Request fields -----

  /** A required field is absent or falsy. */
  predicate MissingRequired(req: DepartureRequest) {
    || !Given(req.flightDepartureTime)
    || !T.Present(req.departureLocation)
    || req.destinationAirport.None?
    || !Given(req.flightType)
  }

  /** `parkingNeeded` defaults to false when absent. */
  function ParkingNeeded(req: DepartureRequest): bool {
    match req.parkingNeeded
    case None => false
    case Some(b) => b
  }

  /** `riskTolerance` defaults to 'Moderate' when absent. */
  function RiskTolerance(req: DepartureRequest): string {
    match req.riskTolerance
    case None => "Moderate"
    case Some(r) => r
  }

  /** The destination sent to `/estimate`: the airport's address, if any. */
  function Destination(airport: AirportRef): Option<T.Location> {
    match airport.address
    case None => None
    case Some(a) => Some(T.Address(a))
  }

  // ----- Buffer policy -----

  /** `getRiskAdjustment`: minutes added to the security buffer. */
  function RiskAdjustment(risk: string): (adjustment: int)
    ensures adjustment == 15 <==> risk == "Relaxed"
    ensures adjustment == -15 <==> risk == "Just-in-Time"
    ensures adjustment == 0 <==> risk != "Relaxed" && risk != "Just-in-Time"
  {
    if risk == "Relaxed" then 15
    else if risk == "Just-in-Time" then -15
    else 0
  }

  /** `calculateBuffers`: fixed check-in and boarding, security by flight type
      shifted by the risk adjustment, parking when needed. The adjustment is
      folded into the construction of the record. */
  function CalculateBuffers(flightType: string, risk: string, parkingNeeded: bool): (b: Buffers)
    ensures b.checkIn == 30 && b.boarding == 30
    ensures b.parking == (if parkingNeeded then 15 else 0)
    ensures b.security - RiskAdjustment(risk) == 120 <==> flightType == "International"
    ensures b.security - RiskAdjustment(risk) == 60 <==> flightType != "International"
    ensures b.security in {45, 60, 75, 105, 120, 135}
  {
    var base := Buffers(30, if flightType == "International" then 120 else 60, 30, if parkingNeeded then 15 else 0);
    base.(security := base.security + RiskAdjustment(risk))
  }

  /** The risk tolerance moves the security buffer only, by the difference of
      the adjustments; no buffer is ever negative. */
  lemma RiskAdjustsOnlySecurity(flightType: string, risk1: string, risk2: string, parkingNeeded: bool)
    ensures var b1, b2 := CalculateBuffers(flightType, risk1, parkingNeeded), CalculateBuffers(flightType, risk2, parkingNeeded);
      && b1.checkIn == b2.checkIn && b1.boarding == b2.boarding && b1.parking == b2.parking
      && b1.security - b2.security == RiskAdjustment(risk1) - RiskAdjustment(risk2)
      && b1.checkIn >= 0 && b1.security > 0 && b1.boarding >= 0 && b1.parking >= 0
  {
  }

  lemma BufferExamples()
    ensures CalculateBuffers("International", "Relaxed", true) == Buffers(30, 135, 30, 15)
    ensures CalculateBuffers("Domestic", "Just-in-Time", false) == Buffers(30, 45, 30, 0)
    ensures CalculateBuffers("Domestic", "Moderate", false) == Buffers(30, 60, 30, 0)
  {
  }

  function BufferTotal(b: Buffers): int {
    b.checkIn + b.security + b.boarding + b.parking
  }

  // ----- Travel minutes -----

  /** `Math.ceil(duration / 60)`: the fewest whole minutes covering the duration. */
  function TravelMinutes(seconds: nat): (minutes: nat)
    ensures minutes * 60 >= seconds
    ensures (minutes - 1) * 60 < seconds
  {
    (seconds + 59) / 60
  }

  lemma TravelMinutesExamples()
    ensures TravelMinutes(61) == 2 && TravelMinutes(60) == 1 && TravelMinutes(3600) == 60 && TravelMinutes(0) == 0
  {
  }

  // ----- Clock times -----

  function TwoDigits(n: nat): (s: string)
    requires n < 100
    ensures |s| == 2 && IsDigit(s[0]) && IsDigit(s[1])
    ensures 10 * DigitValue(s[0]) + DigitValue(s[1]) == n
  {
    [DigitChar(n / 10), DigitChar(n % 10)]
  }

  /** The 24-hour "HH:MM" text of a minute of the day. */
  function ClockText(minute: nat): string
    requires minute < 1440
  {
    TwoDigits(minute / 60) + ":" + TwoDigits(minute % 60)
  }

  /** Reading `flightDepartureTime` as the time of day of
      `1970-01-01T<time>:00`, in minutes after that midnight. The date-time
      string format reads "HH:MM" as hours and minutes and a bare "HH" as
      that hour (the appended ":00" being its minutes); hour 24 is the end
      of the day and allows no minutes. Anything else is an invalid date. */
  function ParseClock(text: string): (minutes: Option<nat>)
    ensures minutes.Some? ==> minutes.value <= 1440
    ensures minutes.Some? ==> |text| == 5 || (|text| == 2 && minutes.value % 60 == 0)
  {
    if |text| == 5 && IsDigit(text[0]) && IsDigit(text[1]) && text[2] == ':' && IsDigit(text[3]) && IsDigit(text[4]) then
      var h := 10 * DigitValue(text[0]) + DigitValue(text[1]);
      var m := 10 * DigitValue(text[3]) + DigitValue(text[4]);
      if (h < 24 && m < 60) || (h == 24 && m == 0) then Some(60 * h + m) else None
    else if |text| == 2 && IsDigit(text[0]) && IsDigit(text[1]) then
      var h := 10 * DigitValue(text[0]) + DigitValue(text[1]);
      if h <= 24 then Some(60 * h) else None
    else None
  }

  lemma DigitCharOfValue(c: char)
    requires IsDigit(c)
    ensures DigitChar(DigitValue(c)) == c
  {
  }

  /** The "HH:MM" texts read are exactly the renderings of the minutes of a
      day, plus "24:00". */
  lemma ParseClockFullExactly(text: string, minutes: nat)
    requires |text| == 5
    ensures ParseClock(text) == Some(minutes) <==>
      (minutes < 1440 && text == ClockText(minutes)) || (minutes == 1440 && text == "24:00")
  {
    if minutes < 1440 && text == ClockText(minutes) {
      assert text[..2] == TwoDigits(minutes / 60) && text[3..] == TwoDigits(minutes % 60);
    }
    if ParseClock(text) == Some(minutes) && minutes < 1440 {
      var h := 10 * DigitValue(text[0]) + DigitValue(text[1]);
      var m := 10 * DigitValue(text[3]) + DigitValue(text[4]);
      assert minutes / 60 == h && minutes % 60 == m;
      DigitCharOfValue(text[0]);
      DigitCharOfValue(text[1]);
      DigitCharOfValue(text[3]);
      DigitCharOfValue(text[4]);
      assert text == ClockText(minutes);
    }
  }

  /** The bare "HH" texts read are exactly the two-digit hours 00 to 24. */
  lemma ParseClockHourExactly(text: string, minutes: nat)
    requires |text| == 2
    ensures ParseClock(text) == Some(minutes) <==>
      minutes <= 1440 && minutes % 60 == 0 && text == TwoDigits(minutes / 60)
  {
    if ParseClock(text) == Some(minutes) {
      DigitCharOfValue(text[0]);
      DigitCharOfValue(text[1]);
      assert text == TwoDigits(minutes / 60);
    }
  }

  /** The flight times read are exactly the "HH:MM" renderings of the
      minutes of a day, "24:00", and the whole hours "00" to "24". */
  lemma ParseClockExactly(text: string, minutes: nat)
    ensures ParseClock(text) == Some(minutes) <==>
      || (minutes < 1440 && text == ClockText(minutes))
      || (minutes == 1440 && text == "24:00")
      || (minutes <= 1440 && minutes % 60 == 0 && text == TwoDigits(minutes / 60))
  {
    if |text| == 5 {
      ParseClockFullExactly(text, minutes);
    } else if |text| == 2 {
      ParseClockHourExactly(text, minutes);
    }
  }

  /** Leave-by minute of the day: the flight's time minus the total, on a
      clock face of 1440 minutes (crossing midnight wraps to the day before,
      and no date is kept). */
  function LeaveBy(flightMinute: nat, total: int): (minute: nat)
    ensures minute < 1440
    ensures (minute + total - flightMinute) % 1440 == 0
  {
    (flightMinute - total) % 1440
  }

  /** `formatTime`: 12-hour "h:mm AM" / "h:mm PM" rendering of a minute of the day. */
  function FormatTime(minute: nat): (text: string)
    requires minute < 1440
    ensures 7 <= |text| <= 8
    ensures IsDigit(text[0]) && text[0] != '0'
    ensures |text| == 7 <==> (minute / 60) % 12 in {1, 2, 3, 4, 5, 6, 7, 8, 9}
    ensures text[|text| - 2..] == (if minute < 720 then "AM" else "PM")
  {
    var h := minute / 60;
    HourText(if h % 12 == 0 then 12 else h % 12) + TimeTail(minute % 60, h >= 12)
  }

  /** The ":mm AM" / ":mm PM" part of a 12-hour time. */
  function TimeTail(m: nat, pm: bool): (tail: string)
    requires m < 60
    ensures |tail| == 6
  {
    ":" + TwoDigits(m) + " " + (if pm then "PM" else "AM")
  }

  /** The hour on a 12-hour clock face, without a leading zero. */
  function HourText(h12: nat): (text: string)
    requires 1 <= h12 <= 12
    ensures 1 <= |text| <= 2 && forall i :: 0 <= i < |text| ==> IsDigit(text[i])
    ensures text[0] != '0' && (|text| == 1 <==> h12 < 10)
    ensures DigitsValue(text) == h12
  {
    NatToStringRoundTrip(h12);
    if h12 < 10 then NatToStringOneDigit(h12); NatToString(h12)
    else NatToStringTwoDigits(h12); NatToString(h12)
  }

  /** Reads a 12-hour "h:mm AM/PM" text back into a minute of the day. */
  function ReadTime(text: string): Option<nat> {
    if |text| < 7 || |text| > 8 then None
    else ReadTimeParts(text[..|text| - 6], text[|text| - 6..])
  }

  /** Reads the hour digits and the ":mm AM" / ":mm PM" tail. */
  function ReadTimeParts(hour: string, tail: string): Option<nat>
    requires |tail| == 6
  {
    if (forall i :: 0 <= i < |hour| ==> IsDigit(hour[i]))
       && tail[0] == ':' && IsDigit(tail[1]) && IsDigit(tail[2]) && tail[3] == ' '
       && (tail[4..] == "AM" || tail[4..] == "PM")
    then
      var h12 := DigitsValue(hour);
      var m := 10 * DigitValue(tail[1]) + DigitValue(tail[2]);
      if 1 <= h12 <= 12 && m < 60 then
        Some(60 * (h12 % 12 + (if tail[4..] == "PM" then 12 else 0)) + m)
      else None
    else None
  }

  lemma ReadComposedTail(hour: string, m: nat, pm: bool)
    requires forall i :: 0 <= i < |hour| ==> IsDigit(hour[i])
    requires 1 <= DigitsValue(hour) <= 12 && m < 60
    ensures ReadTimeParts(hour, TimeTail(m, pm)) == Some(60 * (DigitsValue(hour) % 12 + (if pm then 12 else 0)) + m)
  {
    assert TimeTail(m, pm)[4..] == (if pm then "PM" else "AM");
  }

  /** A text made of one or two hour digits and a tail is read in those two parts. */
  lemma ReadSplitsTime(hour: string, tail: string)
    requires 1 <= |hour| <= 2 && |tail| == 6
    ensures ReadTime(hour + tail) == ReadTimeParts(hour, tail)
  {
    assert (hour + tail)[..|hour|] == hour && (hour + tail)[|hour|..] == tail;
  }

  lemma ClockFace(minute: nat)
    requires minute < 1440
    ensures var h := minute / 60;
      (if h % 12 == 0 then 12 else h % 12) % 12 + (if h >= 12 then 12 else 0) == h
      && 60 * h + minute % 60 == minute
  {
  }

  /** The 12-hour rendering loses nothing: it reads back as the same minute. */
  lemma FormatTimeRoundTrip(minute: nat)
    requires minute < 1440
    ensures ReadTime(FormatTime(minute)) == Some(minute)
  {
    var h := minute / 60;
    var h12 := if h % 12 == 0 then 12 else h % 12;
    var hour, tail := HourText(h12), TimeTail(minute % 60, h >= 12);
    assert FormatTime(minute) == hour + tail;
    ReadSplitsTime(hour, tail);
    ReadComposedTail(hour, minute % 60, h >= 12);
    ClockFace(minute);
  }

  // ----- Assembling the result -----

  /** A breakdown entry: "<n> mins". */
  function Mins(n: int): string {
    IntToString(n) + " mins"
  }

  /** The leave-by text: an unreadable flight time gives an invalid date,
      which renders as "Invalid Date". */
  function LeaveByText(flightDepartureTime: string, total: int): (text: string)
    ensures text == "Invalid Date" <==> ParseClock(flightDepartureTime).None?
    ensures ParseClock(flightDepartureTime).Some? ==>
      text == FormatTime(LeaveBy(ParseClock(flightDepartureTime).value, total))
    ensures ParseClock(flightDepartureTime).Some? ==>
      var leave := ReadTime(text);
      && leave.Some? && leave.value < 1440
      && (leave.value + total - ParseClock(flightDepartureTime).value) % 1440 == 0
  {
    match ParseClock(flightDepartureTime)
    case None => "Invalid Date"
    case Some(f) =>
      var leave := LeaveBy(f, total);
      FormatTimeRoundTrip(leave);
      FormatTime(leave)
  }

  /** The result of a calculation once the traffic estimate is in. */
  function AssembleResult(
    flightDepartureTime: string, flightType: string, parkingNeeded: bool, risk: string,
    estimate: T.Estimate): (result: DepartureResult)
    ensures var travel := TravelMinutes(estimate.duration);
      var b := CalculateBuffers(flightType, risk, parkingNeeded);
      && result.flightDepartureTime == flightDepartureTime
      && result.route == estimate.route
      && result.breakdown.travel == Mins(travel)
      && result.breakdown.checkIn == Mins(b.checkIn)
      && result.breakdown.security == Mins(b.security)
      && result.breakdown.boarding == Mins(b.boarding)
      && (result.breakdown.parking == "Not needed" <==> !parkingNeeded)
      && (parkingNeeded ==> result.breakdown.parking == Mins(b.parking))
      && result.breakdown.total == Mins(travel + BufferTotal(b))
      && result.departureTime == LeaveByText(flightDepartureTime, travel + BufferTotal(b))
  {
    var travel := TravelMinutes(estimate.duration);
    var b := CalculateBuffers(flightType, risk, parkingNeeded);
    var total := travel + BufferTotal(b);
    DepartureResult(
      LeaveByText(flightDepartureTime, total),
      flightDepartureTime,
      Breakdown(
        Mins(travel), Mins(b.checkIn), Mins(b.security), Mins(b.boarding),
        if parkingNeeded then Mins(b.parking) else "Not needed",
        Mins(total)),
      estimate.route)
  }

  /** What the calculator makes of the `/estimate` outcome once every
      required field is there: no answer leaves its `await` pending, so it
      sends nothing either; an error answer rejects the HTTP call and gives
      the 500 reply; an estimate is assembled into the result. */
  function FromEstimate(req: DepartureRequest, answer: Outcome<T.Estimate>): Outcome<DepartureResult>
    requires !MissingRequired(req)
  {
    match answer
    case Unanswered => Unanswered
    case Answered(Fail(_, _)) => Answered(Fail(500, CalculationFailed))
    case Answered(Ok(estimate)) =>
      Answered(Ok(AssembleResult(
        req.flightDepartureTime.value, req.flightType.value, ParkingNeeded(req), RiskTolerance(req), estimate)))
  }

  /** POST /calculate-departure-time over `/estimate` as written. `apiKey`,
      `nowMs` and `upstream` are what the `/estimate` handler needs: its
      configuration, clock and the Directions service. */
  function CalculateDepartureTime(
    req: DepartureRequest, apiKey: Option<string>, nowMs: nat,
    upstream: T.DirectionsQuery -> T.Fetch): (r: Outcome<DepartureResult>)
    ensures MissingRequired(req) ==> r == Answered(Fail(400, MissingFields))
    ensures r.Answered? && r.reply.Fail? && r.reply.status == 400 <==> MissingRequired(req)
    ensures r.Answered? && r.reply.Fail? ==> r.reply.status == 400 || r.reply == Fail(500, CalculationFailed)
    ensures r.Answered? && r.reply.Ok? ==> r.reply.value.flightDepartureTime == req.flightDepartureTime.value
    ensures r.Unanswered? <==>
      !MissingRequired(req)
      && T.PostEstimate(req.departureLocation, Destination(req.destinationAirport.value), apiKey, nowMs, upstream).Unanswered?
  {
    if MissingRequired(req) then Answered(Fail(400, MissingFields))
    else FromEstimate(req, T.PostEstimate(req.departureLocation, Destination(req.destinationAirport.value), apiKey, nowMs, upstream))
  }

  /** POST /calculate-departure-time over `/estimate` as intended: every
      request is answered. */
  function CalculateDepartureTimeIntended(
    req: DepartureRequest, apiKey: Option<string>, nowMs: nat,
    upstream: T.DirectionsQuery -> T.Fetch): (r: Outcome<DepartureResult>)
    ensures r.Answered?
    ensures r.reply.Fail? && r.reply.status == 400 <==> MissingRequired(req)
    ensures r.reply.Fail? ==> r.reply == Fail(400, MissingFields) || r.reply == Fail(500, CalculationFailed)
    ensures r.reply.Ok? ==> r.reply.value.flightDepartureTime == req.flightDepartureTime.value
  {
    if MissingRequired(req) then Answered(Fail(400, MissingFields))
    else FromEstimate(req, Answered(T.PostEstimateIntended(
      req.departureLocation, Destination(req.destinationAirport.value), apiKey, nowMs, upstream)))
  }

  /** The two calculators agree wherever the written one answers; where it
      sends nothing, the intended one answers 500. */
  lemma CalculatorAnsweredAsIntended(
    req: DepartureRequest, apiKey: Option<string>, nowMs: nat, upstream: T.DirectionsQuery -> T.Fetch)
    ensures var written := CalculateDepartureTime(req, apiKey, nowMs, upstream);
      var intended := CalculateDepartureTimeIntended(req, apiKey, nowMs, upstream);
      && (written.Answered? ==> written == intended)
      && (written.Unanswered? ==> intended == Answered(Fail(500, CalculationFailed)))
  {
    if !MissingRequired(req) {
      T.EstimateAnsweredAsIntended(req.departureLocation, Destination(req.destinationAirport.value), apiKey, nowMs, upstream);
    }
  }

  lemma ParseClockExample()
    ensures ParseClock("14:30") == Some(870)
    ensures ParseClock("14") == Some(840) && ParseClock("24") == Some(1440) && ParseClock("25").None?
  {
    assert DigitValue('1') == 1 && DigitValue('4') == 4 && DigitValue('3') == 3 && DigitValue('0') == 0;
    assert DigitValue('2') == 2 && DigitValue('5') == 5;
  }

  lemma FormatTimeExample()
    ensures FormatTime(710) == "11:50 AM"
  {
    NatToStringTwoDigits(11);
    assert HourText(11) == "11";
    assert TimeTail(50, false) == ":50 AM";
  }

  lemma MinsExamples()
    ensures Mins(40) == "40 mins" && Mins(60) == "60 mins" && Mins(160) == "160 mins"
  {
    NatToStringTwoDigits(40);
    NatToStringTwoDigits(60);
    NatToStringTwoDigits(16);
    assert NatToString(160) == NatToString(16) + [DigitChar(0)];
  }

  /** A 14:30 domestic flight, 40 minutes of driving, moderate risk, no
      parking: 160 minutes in all, leave by 11:50 AM. */
  lemma WorkedExample(estimate: T.Estimate)
    requires estimate.duration == 2400
    ensures var result := AssembleResult("14:30", "Domestic", false, "Moderate", estimate);
      && result.breakdown.travel == "40 mins"
      && result.breakdown.security == "60 mins"
      && result.breakdown.parking == "Not needed"
      && result.breakdown.total == "160 mins"
      && result.departureTime == "11:50 AM"
  {
    ParseClockExample();
    FormatTimeExample();
    MinsExamples();
    assert TravelMinutes(2400) == 40;
    assert BufferTotal(CalculateBuffers("Domestic", "Moderate", false)) == 120;
    assert LeaveBy(870, 160) == 710;
  }

  /** Absent `parkingNeeded` and `riskTolerance` behave as false and 'Moderate'. */
  lemma DefaultsApply(
    req: DepartureRequest, apiKey: Option<string>, nowMs: nat, upstream: T.DirectionsQuery -> T.Fetch)
    requires req.parkingNeeded.None? && req.riskTolerance.None?
    ensures CalculateDepartureTime(req, apiKey, nowMs, upstream)
         == CalculateDepartureTime(req.(parkingNeeded := Some(false), riskTolerance := Some("Moderate")), apiKey, nowMs, upstream)
  {
  }

  /** With every field present, the calculator answers the result assembled
      from the `/estimate` answer, fails with 500 when that answer is an
      error, and sends nothing when `/estimate` sends nothing. */
  lemma CalculateFromEstimate(
    req: DepartureRequest, apiKey: Option<string>, nowMs: nat, upstream: T.DirectionsQuery -> T.Fetch)
    requires !MissingRequired(req)
    ensures var answer := T.PostEstimate(req.departureLocation, Destination(req.destinationAirport.value), apiKey, nowMs, upstream);
      var r := CalculateDepartureTime(req, apiKey, nowMs, upstream);
      && (answer.Unanswered? ==> r == Unanswered)
      && (answer.Answered? && answer.reply.Fail? ==> r == Answered(Fail(500, CalculationFailed)))
      && (answer.Answered? && answer.reply.Ok? ==> r == Answered(Ok(AssembleResult(
            req.flightDepartureTime.value, req.flightType.value, ParkingNeeded(req), RiskTolerance(req), answer.reply.value))))
  {
  }

  /** An airport without an address makes `/estimate` refuse the request
      with 400, which the calculator answers with 500. */
  lemma MissingAddressFails(
    req: DepartureRequest, apiKey: Option<string>, nowMs: nat, upstream: T.DirectionsQuery -> T.Fetch)
    requires !MissingRequired(req)
    requires req.destinationAirport.value.address.None? || req.destinationAirport.value.address == Some("")
    ensures CalculateDepartureTime(req, apiKey, nowMs, upstream) == Answered(Fail(500, CalculationFailed))
  {
  }

  /** When the Directions service denies the request, the calculation still
      succeeds with one hour of travel and the fallback route; the fallback
      flag and message of the estimate are not part of the result. */
  lemma DeniedDirectionsUseFallback(
    req: DepartureRequest, key: string, nowMs: nat, upstream: T.DirectionsQuery -> T.Fetch)
    requires !MissingRequired(req) && key != ""
    requires T.Present(Destination(req.destinationAirport.value))
    requires forall q :: upstream(q) == T.Fetched(T.DirectionsResponse("REQUEST_DENIED", []))
    ensures var r := CalculateDepartureTime(req, Some(key), nowMs, upstream);
      && r.Answered? && r.reply.Ok?
      && r.reply.value.route == T.FallbackEstimate.route
      && r.reply.value.breakdown.travel == "60 mins"
  {
    var answer := T.PostEstimate(req.departureLocation, Destination(req.destinationAirport.value), Some(key), nowMs, upstream);
    assert answer == Answered(Ok(T.FallbackEstimate));
    CalculateFromEstimate(req, Some(key), nowMs, upstream);
    MinsExamples();
    assert TravelMinutes(3600) == 60;
  }

  /** As written, any other failing status from the Directions service
      leaves the calculation unanswered: `/estimate` never replies, so the
      calculator's request to it never completes. */
  lemma OtherStatusUnanswered(
    req: DepartureRequest, key: string, nowMs: nat, upstream: T.DirectionsQuery -> T.Fetch)
    requires !MissingRequired(req) && key != ""
    requires T.Present(Destination(req.destinationAirport.value))
    requires forall q :: upstream(q).Fetched? && upstream(q).data.status != "OK"
                         && upstream(q).data.status != "REQUEST_DENIED"
    ensures CalculateDepartureTime(req, Some(key), nowMs, upstream) == Unanswered
  {
  }

  /** As intended, any other failing status fails the whole calculation
      with 500; no partial result is answered. */
  lemma OtherStatusFails(
    req: DepartureRequest, key: string, nowMs: nat, upstream: T.DirectionsQuery -> T.Fetch)
    requires !MissingRequired(req) && key != ""
    requires forall q :: upstream(q).Fetched? && upstream(q).data.status != "OK"
                         && upstream(q).data.status != "REQUEST_DENIED"
    ensures CalculateDepartureTimeIntended(req, Some(key), nowMs, upstream) == Answered(Fail(500, CalculationFailed))
  {
  }
}
