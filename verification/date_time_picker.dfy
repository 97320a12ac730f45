/** The date and time picker (`components/reservation/DateTimePicker.tsx`): the
    list of `HH:MM` options for a minute interval, the removal of times already
    past when the selected date is today, and the `DD/MM/YYYY` date label. The
    current time is a parameter. */
module DateTimePicker {
  import opened Wrappers
  import opened Seqs
  import opened Text
  import opened Calendar
  import ReservationApi

  const DefaultInterval: int := 30

  // ---------------------------------------------------------------------------
  // Arithmetic on slots

  /** `Array.from({ length: 60 / minuteInterval })` for a non-zero interval: the
      length is the quotient rounded down, and nothing when it is negative. */
  function MinuteCount(interval: int): (n: nat)
    ensures interval > 0 ==> n * interval <= 60 < (n + 1) * interval
    ensures interval < 0 || interval > 60 ==> n == 0
  {
    if interval <= 0 then 0 else 60 / interval
  }

  /** `a <= b` and a non-negative factor keep the order of products. */
  lemma MulMono(a: int, b: int, c: int)
    requires c >= 0
    ensures a <= b ==> a * c <= b * c
  {
  }

  /** The quotient and remainder are the only ones. */
  lemma DivModUnique(a: int, n: int, q: int, r: int)
    requires n > 0 && a == q * n + r && 0 <= r < n
    ensures a / n == q && a % n == r
  {
    var q', r' := a / n, a % n;
    MulMono(q + 1, q', n);
    MulMono(q' + 1, q, n);
    assert (q + 1) * n == q * n + n && (q' + 1) * n == q' * n + n;
  }

  /** Option `k` of a list with `n` minutes per hour: hour `k / n`, minute
      `(k % n) * interval`. */
  function Slot(k: int, n: nat, interval: int): string {
    if n == 0 then "" else ReservationApi.FormatTime(k / n, (k % n) * interval)
  }

  /** The time of day, in minutes, option `k` stands for. */
  function SlotMinute(k: int, n: nat, interval: int): int {
    if n == 0 then 0 else (k / n) * 60 + (k % n) * interval
  }

  /** The option whose hour and minute are `h` and `m` is written `h:m`. */
  lemma SlotIs(k: nat, n: nat, interval: int, h: int, m: int)
    requires n > 0 && k / n == h && (k % n) * interval == m
    ensures Slot(k, n, interval) == ReservationApi.FormatTime(h, m)
  {
  }

  /** Option `hour * n + i` is the time `hour:i * interval`. */
  lemma SlotAt(hour: nat, i: nat, n: nat, interval: int)
    requires i < n
    ensures Slot(hour * n + i, n, interval) == ReservationApi.FormatTime(hour, i * interval)
  {
    var k := hour * n + i;
    DivModUnique(k, n, hour, i);
    SlotIs(k, n, interval, hour, i * interval);
  }

  /** The options of one hour: that hour with each of the minutes. */
  method HourOptions(hour: int, minutes: seq<int>) returns (row: seq<string>)
    ensures |row| == |minutes|
    ensures forall i :: 0 <= i < |minutes| ==> row[i] == ReservationApi.FormatTime(hour, minutes[i])
  {
    row := [];
    var i := 0;
    while i < |minutes|
      invariant 0 <= i <= |minutes| && |row| == i
      invariant forall j :: 0 <= j < i ==> row[j] == ReservationApi.FormatTime(hour, minutes[j])
    {
      row := row + [ReservationApi.FormatTime(hour, minutes[i])];
      i := i + 1;
    }
  }

  /** The options of hour `hour` are the options `hour * n` to `hour * n + n - 1`. */
  lemma HourRowSlots(row: seq<string>, hour: nat, minutes: seq<int>, n: nat, interval: int, base: int)
    requires |minutes| == n && |row| == n && base == hour * n
    requires forall i :: 0 <= i < n ==> minutes[i] == i * interval
    requires forall i :: 0 <= i < n ==> row[i] == ReservationApi.FormatTime(hour, minutes[i])
    ensures forall i :: 0 <= i < n ==> row[i] == Slot(base + i, n, interval)
  {
    forall i | 0 <= i < n
      ensures row[i] == Slot(base + i, n, interval)
    {
      SlotAt(hour, i, n, interval);
    }
  }

  /** The `k`-th option, as a function of `k`. */
  function SlotOf(n: nat, interval: int): int -> string {
    k => Slot(k, n, interval)
  }

  /** Appending a block whose `i`-th element is `f(|xs| + i)` to a list whose
      `k`-th element is `f(k)` keeps that shape. */
  lemma AppendBlock<T>(xs: seq<T>, block: seq<T>, f: int -> T)
    requires forall k :: 0 <= k < |xs| ==> xs[k] == f(k)
    requires forall i :: 0 <= i < |block| ==> block[i] == f(|xs| + i)
    ensures forall k :: 0 <= k < |xs + block| ==> (xs + block)[k] == f(k)
  {
    forall k | |xs| <= k < |xs + block|
      ensures (xs + block)[k] == f(k)
    {
      assert (xs + block)[k] == block[k - |xs|];
    }
  }

  /** Appending the options that follow a prefix of the option list extends it. */
  lemma AppendSlots(options: seq<string>, row: seq<string>, n: nat, interval: int)
    requires forall k :: 0 <= k < |options| ==> options[k] == Slot(k, n, interval)
    requires forall i :: 0 <= i < |row| ==> row[i] == Slot(|options| + i, n, interval)
    ensures forall k :: 0 <= k < |options + row| ==> (options + row)[k] == Slot(k, n, interval)
  {
    AppendBlock(options, row, SlotOf(n, interval));
  }

  lemma NextMultiple(a: int, hour: int, n: int)
    requires a == hour * n
    ensures a + n == (hour + 1) * n
  {
  }

  /** The option list, built as the component builds it: the minutes
      `i * interval` for `i` below `60 / interval`, then every hour 0..23 with
      each of them. An interval of 0 makes the minute array's length infinite,
      which throws. */
  method TimeOptions(interval: int) returns (r: Option<seq<string>>)
    ensures r.None? <==> interval == 0
    ensures r.Some? ==> |r.value| == 24 * MinuteCount(interval)
    ensures r.Some? ==> forall k :: 0 <= k < |r.value| ==> r.value[k] == Slot(k, MinuteCount(interval), interval)
  {
    if interval == 0 {
      return None;
    }
    var n := MinuteCount(interval);
    var minutes := seq(n, i => i * interval);
    var options: seq<string> := [];
    var hour := 0;
    while hour < 24
      invariant 0 <= hour <= 24
      invariant |options| == hour * n
      invariant forall k :: 0 <= k < |options| ==> options[k] == Slot(k, n, interval)
    {
      var row := HourOptions(hour, minutes);
      HourRowSlots(row, hour, minutes, n, interval, |options|);
      AppendSlots(options, row, n, interval);
      NextMultiple(|options|, hour, n);
      options := options + row;
      hour := hour + 1;
    }
    return Some(options);
  }

  /** The default interval of 30 minutes gives 48 options. */
  lemma DefaultIntervalCount()
    ensures 24 * MinuteCount(DefaultInterval) == 48
  {
  }

  // ---------------------------------------------------------------------------
  // Reading an option back

  /** `Number(s)` on the strings met here: the empty string is 0, a numeral its
      value, anything else `NaN`. */
  function NumberOf(s: string): (r: Option<int>)
    ensures |s| > 0 && AllDigits(s) ==> r == Some(DigitsValue(s))
    ensures r.Some? ==> r.value >= 0
  {
    if |s| == 0 then Some(0) else if AllDigits(s) then Some(DigitsValue(s)) else None
  }

  /** `const [hour, minute] = time.split(':').map(Number); hour * 60 + minute`;
      without a colon there is no minute, and the sum is `NaN`. */
  function MinuteOfDay(time: string): (r: Option<int>)
    ensures ':' !in time ==> r.None?
    ensures r.Some? ==> r.value >= 0
  {
    if ':' !in time then None
    else
      match (NumberOf(BeforeColon(time)), NumberOf(BeforeColon(AfterColon(time))))
      case (Some(h), Some(m)) => Some(h * 60 + m)
      case _ => None
  }

  /** With `n` minutes per hour spaced `interval` apart, option `k` has hour
      `k / n` and minute `(k % n) * interval`, in 0..23 and 0..59, the minute a
      multiple of the interval. */
  lemma SlotFields(k: nat, n: nat, interval: int)
    requires interval > 0 && n > 0 && n * interval <= 60 && k < 24 * n
    ensures var h, m := k / n, (k % n) * interval;
            && 0 <= h <= 23 && 0 <= m < 60 && m % interval == 0
            && Slot(k, n, interval) == ReservationApi.FormatTime(h, m)
            && SlotMinute(k, n, interval) == h * 60 + m
  {
    var h, i := k / n, k % n;
    assert k == h * n + i;
    MulMono(24, h, n);
    MulMono(i, n - 1, interval);
    assert (n - 1) * interval == n * interval - interval;
    DivModUnique(i * interval, interval, i, 0);
  }

  /** A five-character `HH:MM` of digits reads back as its minute of the day. */
  lemma FieldsReadBack(r: string, h: int, m: int)
    requires |r| == 5 && r[2] == ':' && AllDigits(r[..2]) && AllDigits(r[3..])
    requires DigitsValue(r[..2]) == h && DigitsValue(r[3..]) == m
    ensures MinuteOfDay(r) == Some(h * 60 + m)
  {
    var a, b := r[..2], r[3..];
    assert r == a + ":" + b;
    DigitsHaveNoColon(a);
    DigitsHaveNoColon(b);
    SplitAtColon(a, b);
    BeforeColonWhole(b);
  }

  /** A time written by `FormatTime` from two fields in 0..99 reads back as its
      minute of the day. */
  lemma TimeReadsBack(h: int, m: int)
    requires 0 <= h <= 99 && 0 <= m <= 99
    ensures MinuteOfDay(ReservationApi.FormatTime(h, m)) == Some(h * 60 + m)
  {
    ReservationApi.TimeShape(h, m);
    FieldsReadBack(ReservationApi.FormatTime(h, m), h, m);
  }

  /** Every option is the `HH:MM` of an hour below 24 and a minute below 60
      that is a multiple of the interval, and it reads back as its minute of
      the day. */
  lemma SlotShape(k: nat, interval: int)
    requires interval > 0 && k < 24 * MinuteCount(interval)
    ensures var n := MinuteCount(interval);
            var h, m := k / n, (k % n) * interval;
            && 0 <= h <= 23 && 0 <= m < 60 && m % interval == 0
            && Slot(k, n, interval) == ReservationApi.FormatTime(h, m)
            && MinuteOfDay(Slot(k, n, interval)) == Some(SlotMinute(k, n, interval))
  {
    var n := MinuteCount(interval);
    SlotFields(k, n, interval);
    TimeReadsBack(k / n, (k % n) * interval);
  }


  /** The next option is later in the day. */
  lemma SlotMinuteStep(k: nat, n: nat, interval: int)
    requires interval > 0 && n > 0 && n * interval <= 60
    ensures SlotMinute(k, n, interval) < SlotMinute(k + 1, n, interval)
  {
    var q, i := k / n, k % n;
    if i + 1 < n {
      DivModUnique(k + 1, n, q, i + 1);
    } else {
      DivModUnique(k + 1, n, q + 1, 0);
      MulMono(i, n - 1, interval);
      assert (n - 1) * interval == n * interval - interval;
    }
  }

  /** Options are strictly increasing in time of day. */
  lemma {:induction false} SlotsIncreasing(i: nat, j: nat, n: nat, interval: int)
    requires interval > 0 && n > 0 && n * interval <= 60 && i < j
    ensures SlotMinute(i, n, interval) < SlotMinute(j, n, interval)
    decreases j - i
  {
    SlotMinuteStep(i, n, interval);
    if i + 1 < j {
      SlotsIncreasing(i + 1, j, n, interval);
    }
  }

  // ---------------------------------------------------------------------------
  // Removing past times

  /** `selectedDate` is given and falls on the same day, month and year as now. */
  function IsToday(selected: Option<CalendarDate>, now: CalendarDate): (r: bool)
    ensures r <==> selected == Some(now)
  {
    selected.Some? && selected.value.day == now.day && selected.value.month0 == now.month0
      && selected.value.year == now.year
  }

  predicate NotPast(time: string, nowMinutes: int) {
    MinuteOfDay(time).Some? && MinuteOfDay(time).value >= nowMinutes
  }

  function NotPastTest(nowMinutes: int): string -> bool {
    (t: string) => NotPast(t, nowMinutes)
  }

  /** The options shown: on today's date, those at or after the current minute,
      in order; on any other date, all of them. */
  function FilterPast(options: seq<string>, isToday: bool, nowMinutes: int): (r: seq<string>)
    ensures !isToday ==> r == options
    ensures isToday ==> Subseq(r, options)
    ensures isToday ==> forall t :: t in r <==> t in options && NotPast(t, nowMinutes)
    ensures isToday ==> |r| == Count(options, NotPastTest(nowMinutes))
  {
    if isToday then Filter(options, NotPastTest(nowMinutes)) else options
  }

  /** On a list whose times strictly increase, keeping the times at or after a
      threshold keeps a suffix. */
  lemma {:induction false} ThresholdKeepsSuffix(s: seq<string>, nowMinutes: int)
    requires forall i :: 0 <= i < |s| ==> MinuteOfDay(s[i]).Some?
    requires forall i, j :: 0 <= i < j < |s| ==> MinuteOfDay(s[i]).value < MinuteOfDay(s[j]).value
    ensures exists j :: 0 <= j <= |s| && Filter(s, NotPastTest(nowMinutes)) == s[j..]
    decreases |s|
  {
    if |s| == 0 {
      assert Filter(s, NotPastTest(nowMinutes)) == s[0..];
    } else if NotPast(s[0], nowMinutes) {
      forall t | t in s
        ensures NotPastTest(nowMinutes)(t)
      {
        var i :| 0 <= i < |s| && s[i] == t;
        if i > 0 {
          assert MinuteOfDay(s[0]).value < MinuteOfDay(s[i]).value;
        }
      }
      FilterAll(s, NotPastTest(nowMinutes));
      assert Filter(s, NotPastTest(nowMinutes)) == s[0..];
    } else {
      ThresholdKeepsSuffix(s[1..], nowMinutes);
      var j :| 0 <= j <= |s[1..]| && Filter(s[1..], NotPastTest(nowMinutes)) == s[1..][j..];
      assert s[1..][j..] == s[j + 1..];
    }
  }

  /** On today's date the options shown are the generated ones from some point
      on: every earlier option is past, every later one is not. */
  lemma TodayShowsSuffix(interval: int, options: seq<string>, nowMinutes: int)
    requires interval > 0
    requires |options| == 24 * MinuteCount(interval)
    requires forall k :: 0 <= k < |options| ==> options[k] == Slot(k, MinuteCount(interval), interval)
    ensures exists j :: 0 <= j <= |options| && FilterPast(options, true, nowMinutes) == options[j..]
  {
    var n := MinuteCount(interval);
    forall i | 0 <= i < |options|
      ensures MinuteOfDay(options[i]) == Some(SlotMinute(i, n, interval))
    {
      SlotShape(i, interval);
    }
    forall i, j | 0 <= i < j < |options|
      ensures MinuteOfDay(options[i]).value < MinuteOfDay(options[j]).value
    {
      SlotsIncreasing(i, j, n, interval);
    }
    ThresholdKeepsSuffix(options, nowMinutes);
  }

  // ---------------------------------------------------------------------------
  // Date label

  /** `formatDate`: `DD/MM/YYYY`, day and 1-based month padded to two digits,
      the year in full. */
  function FormatLongDate(date: CalendarDate): (r: string)
    ensures 1000 <= date.year <= 9999 ==>
              && |r| == 10 && r[2] == '/' && r[5] == '/'
              && AllDigits(r[..2]) && DigitsValue(r[..2]) == date.day
              && AllDigits(r[3..5]) && DigitsValue(r[3..5]) == date.month0 + 1
              && r[6..] == Decimal(date.year) && DigitsValue(Decimal(date.year)) == date.year
  {
    var d, m, y := Pad2(date.day), Pad2(date.month0 + 1), IntString(date.year);
    Pad2Field(date.day);
    Pad2Field(date.month0 + 1);
    ReservationApi.YearField(date.year);
    SlashedFields(d, m, y);
    d + "/" + m + "/" + y
  }
}
