/**
 * The device's local calendar, which the pages read through `Date`. Time-zone
 * arithmetic is not modelled: a Clock gives the local date of an instant.
 */
module Calendar {
  /** What `getFullYear()`, `getMonth()` (0 for January) and `getDate()` report. */
  datatype LocalDate = LocalDate(year: int, month: int, day: int)

  /** The local date of an instant given in milliseconds since the epoch. */
  type Clock = int -> LocalDate
}
