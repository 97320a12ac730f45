/** Calendar dates as the screens read them from a JavaScript `Date`:
    `getFullYear()`, `getMonth()` (counting from 0) and `getDate()`. */
module Calendar {
  datatype DateParts = DateParts(year: int, month0: int, day: int)

  /** The values a `Date` reports: a month index 0..11 and a day 1..31. */
  type CalendarDate = d: DateParts | 0 <= d.month0 <= 11 && 1 <= d.day <= 31 witness DateParts(2000, 0, 1)
}
