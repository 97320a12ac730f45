/** The pure decisions of the REST reservation service: the token gate every
    operation passes first, the outcome of a create reply, and the date and
    time formats the requests carry. */
module ReservationApi {
  import opened Wrappers
  import opened Text
  import AuthService

  const NoTokenMessage := "No authentication token found"
  const EmptyResponseMessage := "Empty response from server"

  datatype ReservationStatus = Pending | Confirmed | Active | Completed | Cancelled

  datatype CreateRequest = CreateRequest(
    driverId: int,
    vehiclePlate: string,
    parkingId: int,
    parkingSpotId: string,
    date: string,       // YYYY-MM-DD
    startTime: string,  // HH:mm
    endTime: string)    // HH:mm

  datatype ReservationResource = ReservationResource(
    id: int,
    driverId: int,
    vehiclePlate: string,
    parkingId: int,
    parkingSpotId: string,
    date: string,
    startTime: string,
    endTime: string,
    status: ReservationStatus,
    totalCost: Option<real>,
    createdAt: Option<string>,
    updatedAt: Option<string>)

  /** The five operations of the service. */
  datatype Operation =
    | CreateReservation(request: CreateRequest)
    | GetDriverReservations(driverId: int)
    | GetReservationById(id: int)
    | UpdateReservation(id: int)
    | CancelReservation(id: int)

  datatype HttpRequest = HttpRequest(verb: string, path: string, bearerToken: string)

  function RequestFor(op: Operation, token: string): HttpRequest {
    match op
    case CreateReservation(_) => HttpRequest("POST", "/reservations", token)
    case GetDriverReservations(d) => HttpRequest("GET", "/reservations/driver/" + IntString(d), token)
    case GetReservationById(id) => HttpRequest("GET", "/reservations/" + IntString(id), token)
    case UpdateReservation(id) => HttpRequest("PUT", "/reservations/" + IntString(id), token)
    case CancelReservation(id) => HttpRequest("DELETE", "/reservations/" + IntString(id), token)
  }

  /** `authData?.user?.token || null`: an empty token counts as none. */
  function StoredToken(auth: Option<AuthService.AuthData>): (t: Option<string>)
    ensures t.Some? <==> AuthService.HasToken(auth)
    ensures t.Some? ==> t.value != [] && t.value == auth.value.user.value.token
  {
    if AuthService.HasToken(auth) then Some(auth.value.user.value.token) else None
  }

  /** The first step of every operation: without a stored token it fails before
      any request is issued; otherwise it issues the operation's request with
      the bearer token. */
  function Dispatch(auth: Option<AuthService.AuthData>, op: Operation): (r: Result<HttpRequest, string>)
    ensures r.Failure? <==> !AuthService.HasToken(auth)
    ensures r.Failure? ==> r.error == NoTokenMessage
    ensures r.Success? ==> r.value.bearerToken == auth.value.user.value.token && r.value.bearerToken != []
  {
    var token := StoredToken(auth);
    if token.None? then Failure(NoTokenMessage) else Success(RequestFor(op, token.value))
  }

  /** What `JSON.parse(errorText)` gave: `None` when it threw. */
  datatype ErrorJson = ErrorJson(message: Option<string>)

  /** The reply to the create request: status, body text, and the body parsed
      as an error object and as a reservation (`None` when parsing throws). */
  datatype Reply = Reply(status: int, text: string, errorJson: Option<ErrorJson>, resource: Option<ReservationResource>)

  predicate Ok(reply: Reply) { 200 <= reply.status <= 299 }

  datatype CreateError = Message(text: string) | MalformedBody

  function DefaultCreateError(status: int): string {
    "HTTP " + IntString(status) + ": Failed to create reservation"
  }

  /** The server's message, when the error body parsed and carries a non-empty one. */
  function ServerMessage(reply: Reply): Option<string> {
    if reply.text != [] && reply.errorJson.Some? && reply.errorJson.value.message.Some?
       && reply.errorJson.value.message.value != []
    then reply.errorJson.value.message else None
  }

  /** The result of one call: the request it issued, if any, and its outcome. */
  datatype Call = Call(sent: Option<HttpRequest>, result: Result<ReservationResource, CreateError>)

  /** `createReservation`, given the stored session and the reply the request would get. */
  function Create(auth: Option<AuthService.AuthData>, request: CreateRequest, reply: Reply): (c: Call)
    ensures !AuthService.HasToken(auth) ==> c == Call(None, Failure(Message(NoTokenMessage)))
    ensures AuthService.HasToken(auth) ==> c.sent == Some(HttpRequest("POST", "/reservations", auth.value.user.value.token))
    ensures AuthService.HasToken(auth) && !Ok(reply) ==>
              c.result == Failure(Message(ServerMessage(reply).GetOr(DefaultCreateError(reply.status))))
    ensures AuthService.HasToken(auth) && Ok(reply) && AllSpace(reply.text) ==>
              c.result == Failure(Message(EmptyResponseMessage))
    ensures AuthService.HasToken(auth) && Ok(reply) && !AllSpace(reply.text) ==>
              c.result == (if reply.resource.Some? then Success(reply.resource.value) else Failure(MalformedBody))
    ensures c.result.Success? ==> Ok(reply) && !AllSpace(reply.text) && reply.resource == Some(c.result.value)
  {
    var gate := Dispatch(auth, CreateReservation(request));
    if gate.Failure? then Call(None, Failure(Message(gate.error)))
    else if !Ok(reply) then
      var fallback := DefaultCreateError(reply.status);
      var message :=
        if reply.text != [] && reply.errorJson.Some? then reply.errorJson.value.message.GetOr([]) else [];
      Call(Some(gate.value), Failure(Message(if message != [] then message else fallback)))
    else
      TrimEmptyIffBlank(reply.text);
      if reply.text == [] || Trim(reply.text) == [] then Call(Some(gate.value), Failure(Message(EmptyResponseMessage)))
      else if reply.resource.None? then Call(Some(gate.value), Failure(MalformedBody))
      else Call(Some(gate.value), Success(reply.resource.value))
  }

  // ---------------------------------------------------------------- formatting

  /** A two-digit field of any non-negative value reads back as that value. */
  lemma Pad2Digits(n: int)
    requires n >= 0
    ensures AllDigits(Pad2(n)) && |Pad2(n)| >= 2
    ensures DigitsValue(Pad2(n)) == n
  {
    if n <= 99 {
      Pad2Field(n);
    } else {
      Pad2Wide(n);
      DecimalRoundTrip(n);
    }
  }

  /** `formatTime(hours, minutes)`: `HH:mm`, each field padded to two digits.
      What the fields read back as is stated by `TimeShape` and `TimeParses`. */
  function FormatTime(hours: int, minutes: int): (r: string)
    ensures 0 <= hours <= 99 && 0 <= minutes <= 99 ==> |r| == 5 && r[2] == ':'
  {
    Pad2Field(hours);
    Pad2Field(minutes);
    Pad2(hours) + ":" + Pad2(minutes)
  }

  /** Hours and minutes in 0..99 give five characters, a colon in the middle,
      whose two fields read back as the two values. */
  lemma TimeShape(hours: int, minutes: int)
    requires 0 <= hours <= 99 && 0 <= minutes <= 99
    ensures var r := FormatTime(hours, minutes);
            && |r| == 5 && r[2] == ':' && AllDigits(r[..2]) && AllDigits(r[3..])
            && DigitsValue(r[..2]) == hours && DigitsValue(r[3..]) == minutes
  {
    TimeFields(hours, minutes);
  }

  /** Whatever their size, non-negative hours and minutes are read back by
      `parseInt` on the two sides of the colon; hours of 100 or more are
      written in full, not cut to two digits. */
  lemma TimeParses(hours: int, minutes: int)
    ensures var r := FormatTime(hours, minutes);
            && (hours >= 0 && minutes >= 0 ==>
                  ParseInt(BeforeColon(r)) == Some(hours) && ParseInt(AfterColon(r)) == Some(minutes))
            && (hours >= 100 ==> BeforeColon(r) == Decimal(hours))
  {
    TimeFields(hours, minutes);
  }

  lemma TimeFields(hours: int, minutes: int)
    ensures var h, m := Pad2(hours), Pad2(minutes);
            var r := h + ":" + m;
            && (0 <= hours <= 99 && 0 <= minutes <= 99 ==>
                  |r| == 5 && r[2] == ':' && AllDigits(r[..2]) && AllDigits(r[3..])
                  && DigitsValue(r[..2]) == hours && DigitsValue(r[3..]) == minutes)
            && (hours >= 0 && minutes >= 0 ==>
                  ParseInt(BeforeColon(r)) == Some(hours) && ParseInt(AfterColon(r)) == Some(minutes))
            && (hours >= 100 ==> BeforeColon(r) == Decimal(hours))
  {
    var h, m := Pad2(hours), Pad2(minutes);
    if hours >= 0 && minutes >= 0 {
      Pad2Digits(hours);
      Pad2Digits(minutes);
      Pad2Field(hours);
      Pad2Field(minutes);
      JoinedFields(h, m, hours, minutes);
    }
    if hours >= 100 {
      Pad2Wide(hours);
      Pad2Digits(hours);
      DigitsHaveNoColon(h);
      SplitAtColon(h, m);
    }
  }

  /** Two numerals joined by a colon split back into the two numbers. */
  lemma JoinedFields(h: string, m: string, hours: nat, minutes: nat)
    requires |h| > 0 && |m| > 0 && AllDigits(h) && AllDigits(m)
    requires DigitsValue(h) == hours && DigitsValue(m) == minutes
    ensures var r := h + ":" + m;
            && ParseInt(BeforeColon(r)) == Some(hours) && ParseInt(AfterColon(r)) == Some(minutes)
            && BeforeColon(r) == h
            && (|h| == 2 && |m| == 2 ==> |r| == 5 && r[2] == ':' && r[..2] == h && r[3..] == m)
  {
    var r := h + ":" + m;
    DigitsHaveNoColon(h);
    SplitAtColon(h, m);
    ParseIntDigits(h);
    ParseIntDigits(m);
    if |h| == 2 && |m| == 2 {
      assert r[..2] == h && r[3..] == m;
    }
  }

  /** `formatDate`: the year, then the 1-based month and the day padded to two
      digits, joined by `-`; a four-digit year gives `YYYY-MM-DD`. `month0` is
      `getMonth()`, counting from 0. */
  function FormatDate(year: int, month0: int, day: int): (r: string)
    requires 0 <= month0 <= 11 && 1 <= day <= 31
    ensures var n := |IntString(year)|;
            && |r| == n + 6 && r[..n] == IntString(year) && r[n] == '-' && r[n + 3] == '-'
            && AllDigits(r[n + 1..n + 3]) && DigitsValue(r[n + 1..n + 3]) == month0 + 1
            && AllDigits(r[n + 4..]) && DigitsValue(r[n + 4..]) == day
    ensures 1000 <= year <= 9999 ==> |r| == 10 && r[..4] == Decimal(year) && DigitsValue(r[..4]) == year
  {
    var y, m, d := IntString(year), Pad2(month0 + 1), Pad2(day);
    Pad2Field(month0 + 1);
    Pad2Field(day);
    YearField(year);
    DashedFields(y, m, d, month0 + 1, day);
    y + "-" + m + "-" + d
  }

  /** A year of four digits renders as four digits that read back as it. */
  lemma YearField(year: int)
    ensures 1000 <= year <= 9999 ==>
              IntString(year) == Decimal(year) && |Decimal(year)| == 4 && DigitsValue(Decimal(year)) == year
  {
    if 1000 <= year <= 9999 {
      assert IntString(year) == Decimal(year);
      DecimalLength(year);
      DecimalRoundTrip(year);
    }
  }

  /** Three fields joined by dashes split back into their values. */
  lemma DashedFields(y: string, m: string, d: string, month: int, day: int)
    requires |m| == 2 && |d| == 2 && AllDigits(m) && AllDigits(d)
    requires DigitsValue(m) == month && DigitsValue(d) == day
    ensures var r := y + "-" + m + "-" + d;
            var n := |y|;
            && |r| == n + 6 && r[..n] == y && r[n] == '-' && r[n + 3] == '-'
            && AllDigits(r[n + 1..n + 3]) && DigitsValue(r[n + 1..n + 3]) == month
            && AllDigits(r[n + 4..]) && DigitsValue(r[n + 4..]) == day
  {
    var r := y + "-" + m + "-" + d;
    assert r[..|y|] == y;
    assert r[|y| + 1..|y| + 3] == m;
    assert r[|y| + 4..] == d;
  }
}
