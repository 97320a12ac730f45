/** The booking screen (`app/parking/reserve.tsx`): the hour arithmetic behind
    the duration and total, the short date on the ticket, the first vehicle and
    payment method picked on load, and what paying checks and submits. The
    screen's start and end times are the constants it is initialised with; no
    control changes them. */
module Reserve {
  import opened Wrappers
  import opened Seqs
  import opened Text
  import opened LocalData
  import opened Calendar

  const DefaultStart: string := "08:00"
  const DefaultEnd: string := "12:00"
  const DefaultSpot: string := "20"
  const NeedVehicle: string := "Please select a vehicle"
  const NeedPayment: string := "Please select a payment method"

  /** `parseInt(time.split(':')[0])`: the hour field, `None` for `NaN`. */
  function HourField(time: string): Option<int> {
    ParseInt(BeforeColon(time))
  }

  /** `calculateDuration`: end hour minus start hour; `NaN` when either hour
      does not parse. */
  function CalculateDuration(startTime: string, endTime: string): (r: Option<int>)
    ensures r.Some? <==> HourField(startTime).Some? && HourField(endTime).Some?
    ensures r.Some? ==> r.value + HourField(startTime).value == HourField(endTime).value
  {
    match (HourField(startTime), HourField(endTime))
    case (Some(s), Some(e)) => Some(e - s)
    case _ => None
  }

  /** On `h:m` times the duration is the difference of the hours, whatever the
      minutes, and it is negative when the end hour comes first. */
  lemma DurationIgnoresMinutes(h1: string, m1: string, h2: string, m2: string)
    requires |h1| > 0 && |h2| > 0 && AllDigits(h1) && AllDigits(h2)
    ensures CalculateDuration(h1 + ":" + m1, h2 + ":" + m2).Some?
    ensures CalculateDuration(h1 + ":" + m1, h2 + ":" + m2).value == DigitsValue(h2) - DigitsValue(h1)
  {
    HourOfTime(h1, m1);
    HourOfTime(h2, m2);
  }

  /** The hour field of `h:m` is the value of `h`. */
  lemma HourOfTime(h: string, m: string)
    requires |h| > 0 && AllDigits(h)
    ensures HourField(h + ":" + m) == Some(DigitsValue(h))
  {
    ParseBeforeColon(h, m);
  }

  /** The screen's times give four hours; swapped they give minus four. */
  lemma DefaultDuration()
    ensures CalculateDuration(DefaultStart, DefaultEnd) == Some(4)
    ensures CalculateDuration(DefaultEnd, DefaultStart) == Some(-4)
  {
    assert DefaultStart == "08" + ":" + "00";
    assert DefaultEnd == "12" + ":" + "00";
    assert DigitsValue("08") == 8 by { TwoDigitsValue("08"); }
    assert DigitsValue("12") == 12 by { TwoDigitsValue("12"); }
    DurationIgnoresMinutes("08", "00", "12", "00");
    DurationIgnoresMinutes("12", "00", "08", "00");
  }

  lemma TwoDigitsValue(t: string)
    requires |t| == 2 && AllDigits(t)
    ensures DigitsValue(t) == DigitValue(t[0]) * 10 + DigitValue(t[1])
  {
    TwoDigits(t);
  }

  /** `calculateTotal`: nothing without a parking, otherwise the hourly price
      times the duration (`NaN` with it). */
  function CalculateTotal(parking: Option<Parking>, startTime: string, endTime: string): (r: Option<real>)
    ensures parking.None? ==> r == Some(0.0)
    ensures parking.Some? ==> (r.Some? <==> CalculateDuration(startTime, endTime).Some?)
    ensures parking.Some? && r.Some? ==>
              r.value == parking.value.pricePerHour * CalculateDuration(startTime, endTime).value as real
  {
    if parking.None? then Some(0.0)
    else PriceFor(parking.value.pricePerHour, CalculateDuration(startTime, endTime))
  }

  /** The hourly price times a number of hours; `NaN` stays `NaN`. */
  function PriceFor(pricePerHour: real, hours: Option<int>): (r: Option<real>)
    ensures r.Some? <==> hours.Some?
    ensures r.Some? ==> r.value == pricePerHour * hours.value as real
  {
    match hours
    case None => None
    case Some(h) => Some(pricePerHour * h as real)
  }

  /** `String(...).slice(-2)`: the last two characters, or the whole string
      when shorter. */
  function LastTwo(s: string): (r: string)
    ensures |r| == if |s| >= 2 then 2 else |s|
    ensures r == s[|s| - |r|..]
  {
    if |s| >= 2 then s[|s| - 2..] else s
  }

  /** `formatDate`: `DD/MM/YY`, day and 1-based month padded to two digits and
      the last two characters of the year. */
  function FormatShortDate(date: CalendarDate): (r: string)
    ensures date.year >= 10 ==>
              && |r| == 8 && r[2] == '/' && r[5] == '/'
              && AllDigits(r[..2]) && DigitsValue(r[..2]) == date.day
              && AllDigits(r[3..5]) && DigitsValue(r[3..5]) == date.month0 + 1
              && AllDigits(r[6..]) && DigitsValue(r[6..]) == date.year % 100
  {
    var d, m, y := Pad2(date.day), Pad2(date.month0 + 1), LastTwo(IntString(date.year));
    Pad2Field(date.day);
    Pad2Field(date.month0 + 1);
    YearTail(date.year);
    SlashedFields(d, m, y);
    d + "/" + m + "/" + y
  }

  /** From year 10 on, the last two characters of the year's numeral read as the
      year modulo 100. */
  lemma YearTail(year: int)
    ensures year >= 10 ==>
              var y := LastTwo(IntString(year));
              |y| == 2 && AllDigits(y) && DigitsValue(y) == year % 100
  {
    if year >= 10 {
      assert IntString(year) == Decimal(year);
      DecimalLastTwo(year);
    }
  }

  /** What loading selects: the user's first vehicle, in store order, when
      there is one. */
  function DefaultVehicle(db: Database, userId: string): (r: Option<Vehicle>)
    ensures r.None? <==> forall v :: v in db.vehicles ==> v.userId != userId
    ensures r.Some? ==> r.value in db.vehicles && r.value.userId == userId
    ensures r.Some? ==> exists i :: 0 <= i < |db.vehicles| && db.vehicles[i] == r.value
                          && forall j :: 0 <= j < i ==> db.vehicles[j].userId != userId
  {
    var mine := GetVehicles(db, userId);
    if |mine| == 0 then None
    else
      assert mine[0] in mine;
      FirstOfFilter(db.vehicles, VehicleUserTest(userId));
      Some(mine[0])
  }

  /** What loading selects: the user's first payment method, in store order,
      when there is one. */
  function DefaultPayment(db: Database, userId: string): (r: Option<PaymentMethod>)
    ensures r.None? <==> forall p :: p in db.paymentMethods ==> p.userId != userId
    ensures r.Some? ==> r.value in db.paymentMethods && r.value.userId == userId
    ensures r.Some? ==> exists i :: 0 <= i < |db.paymentMethods| && db.paymentMethods[i] == r.value
                          && forall j :: 0 <= j < i ==> db.paymentMethods[j].userId != userId
  {
    var mine := GetPaymentMethods(db, userId);
    if |mine| == 0 then None
    else
      assert mine[0] in mine;
      FirstOfFilter(db.paymentMethods, PaymentUserTest(userId));
      Some(mine[0])
  }

  datatype Screen = Screen(
    parking: Option<Parking>, spotId: Option<string>, date: CalendarDate,
    selectedVehicle: Option<Vehicle>, selectedPayment: Option<PaymentMethod>)

  datatype PayOutcome =
    | Alerted(message: string)
    | Abandoned
    | Booked(db: Database, reservation: Reservation)

  /** `spotId || '20'`. */
  function SpotOrDefault(spotId: Option<string>): (r: string)
    ensures spotId.Some? && spotId.value != "" ==> r == spotId.value
    ensures spotId.None? || spotId.value == "" ==> r == DefaultSpot
  {
    if spotId.Some? && spotId.value != "" then spotId.value else DefaultSpot
  }

  /** The time stamp the screen submits: the short date, `T`, the time, `:00Z`.
      For years from 10 on the date part is the eight characters `DD/MM/YY`. */
  function Stamp(date: CalendarDate, time: string): (r: string)
    ensures date.year >= 10 ==>
              && |r| == |time| + 13 && r[..8] == FormatShortDate(date) && r[8] == 'T'
              && r[9..9 + |time|] == time && r[9 + |time|..] == ":00Z"
  {
    var d := FormatShortDate(date);
    StampFields(d, time);
    d + "T" + time + ":00Z"
  }

  /** A date part, `T`, a time and `:00Z`, each at its own fixed position. */
  lemma StampFields(d: string, time: string)
    ensures var r := d + "T" + time + ":00Z";
            && |r| == |d| + |time| + 5 && r[..|d|] == d && r[|d|] == 'T'
            && r[|d| + 1..|d| + 1 + |time|] == time && r[|d| + 1 + |time|..] == ":00Z"
  {
    var r := d + "T" + time + ":00Z";
    assert r[..|d|] == d && r[|d| + 1..|d| + 1 + |time|] == time && r[|d| + 1 + |time|..] == ":00Z";
  }

  /** `handlePay`: the vehicle is checked before the payment method; without a
      signed-in user or a parking nothing happens; otherwise one active
      reservation is created with the default spot when none was passed and the
      computed total. */
  function HandlePay(st: Screen, currentUser: Option<User>, db: Database, newId: string): (r: PayOutcome)
    ensures st.selectedVehicle.None? ==> r == Alerted(NeedVehicle)
    ensures st.selectedVehicle.Some? && st.selectedPayment.None? ==> r == Alerted(NeedPayment)
    ensures st.selectedVehicle.Some? && st.selectedPayment.Some? && (currentUser.None? || st.parking.None?) ==>
              r == Abandoned
    ensures r.Booked? <==>
              st.selectedVehicle.Some? && st.selectedPayment.Some? && currentUser.Some? && st.parking.Some?
    ensures r.Booked? ==>
              && r.db.reservations == db.reservations + [r.reservation]
              && r.db.(reservations := db.reservations) == db
              && r.reservation.id == newId
              && r.reservation.userId == currentUser.value.id
              && r.reservation.parkingId == st.parking.value.id
              && r.reservation.vehicleId == st.selectedVehicle.value.id
              && r.reservation.spotId == SpotOrDefault(st.spotId)
              && r.reservation.status == Active
              && r.reservation.totalCost == st.parking.value.pricePerHour * 4.0
              && r.reservation.startTime == Stamp(st.date, DefaultStart)
              && r.reservation.endTime == Stamp(st.date, DefaultEnd)
  {
    if st.selectedVehicle.None? then Alerted(NeedVehicle)
    else if st.selectedPayment.None? then Alerted(NeedPayment)
    else if currentUser.None? || st.parking.None? then Abandoned
    else
      DefaultDuration();
      var total := CalculateTotal(st.parking, DefaultStart, DefaultEnd).value;
      var draft := ReservationDraft(
        currentUser.value.id, st.parking.value.id, SpotOrDefault(st.spotId),
        Stamp(st.date, DefaultStart), Stamp(st.date, DefaultEnd), Active,
        total, st.selectedVehicle.value.id);
      var (after, rec) := CreateReservation(db, draft, newId);
      Booked(after, rec)
  }
}
