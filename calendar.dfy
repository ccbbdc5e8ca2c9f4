/** Calendar dates as Python's `datetime.date` accepts them, and their printed forms. */
module Calendar {
  import opened Strings

  datatype Date = Date(day: int, month: int, year: int)

  /** The Gregorian leap-year rule `datetime` uses. */
  predicate IsLeap(year: int) {
    year % 4 == 0 && (year % 100 != 0 || year % 400 == 0)
  }

  /**
   * The length of a month `datetime` checks a day against: 30 days for April,
   * June, September and November, February 29 days in a leap year and 28
   * otherwise, and 31 days for the other months.
   */
  function DaysInMonth(month: int, year: int): (n: int)
    requires 1 <= month <= 12
    ensures 28 <= n <= 31
    ensures month == 2 ==> n == (if IsLeap(year) then 29 else 28)
    ensures month in {4, 6, 9, 11} ==> n == 30
    ensures month != 2 && month !in {4, 6, 9, 11} ==> n == 31
  {
    if month == 2 then (if IsLeap(year) then 29 else 28)
    else if month == 4 || month == 6 || month == 9 || month == 11 then 30
    else 31
  }

  /** `datetime(year, month, day)` succeeds (it raises `ValueError` otherwise). */
  predicate IsValid(d: Date) {
    1 <= d.year <= 9999 && 1 <= d.month <= 12 && 1 <= d.day <= DaysInMonth(d.month, d.year)
  }

  /** A valid date whose year prints with four digits. */
  predicate IsPrintable(d: Date) {
    IsValid(d) && d.year >= 1000
  }

  /** `strftime('%d/%m/%Y')`, the SIRE date form. */
  function Format(d: Date): (s: string)
    requires IsPrintable(d)
    ensures |s| == 10 && s[2] == '/' && s[5] == '/'
  {
    Pad2Digits(d.day);
    Pad2Digits(d.month);
    NatToString4(d.year);
    Pad2(d.day) + "/" + Pad2(d.month) + "/" + NatToString(d.year)
  }

  /** `str()` of a pandas Timestamp at midnight: `yyyy-mm-dd 00:00:00`. */
  function IsoText(d: Date): string
    requires IsPrintable(d)
  {
    NatToString(d.year) + "-" + Pad2(d.month) + "-" + Pad2(d.day) + " 00:00:00"
  }
}
