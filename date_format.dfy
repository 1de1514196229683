/**
 * The display form of a date, `toLocaleDateString("en-US", { month: "short",
 * day: "numeric" })`, taken here to be the English month abbreviation, one
 * space and the day of the month in decimal without leading zero ("Jan 2",
 * "Dec 25"). A reader for that form is its partner: it recovers the month
 * and the day from a formatted date followed by anything that does not
 * start with a digit.
 */
module DateFormat {
  import opened Wrappers
  import opened Calendar

  const MonthAbbrevs: seq<string> :=
    ["Jan", "Feb", "Mar", "Apr", "May", "Jun", "Jul", "Aug", "Sep", "Oct", "Nov", "Dec"]

  predicate IsDigit(c: char) {
    '0' <= c <= '9'
  }

  function DigitChar(k: int): (c: char)
    requires 0 <= k <= 9
    ensures IsDigit(c) && DigitValue(c) == k
  {
    ('0' as int + k) as char
  }

  function DigitValue(c: char): int
    requires IsDigit(c)
  {
    c as int - '0' as int
  }

  /** The day of the month in decimal, without leading zero. */
  function DayString(day: int): string
    requires 1 <= day <= 31
  {
    if day < 10 then [DigitChar(day)] else [DigitChar(day / 10), DigitChar(day % 10)]
  }

  /**
   * The "Mon D" rendering of a date: the month's three-letter abbreviation,
   * one space, and the day in one or two digits without a leading zero.
   */
  function FormatDate(d: Date): string
    requires 1 <= d.month <= 12 && 1 <= d.day <= 31
  {
    MonthAbbrevs[d.month - 1] + " " + DayString(d.day)
  }

  /** The month number of a three-letter abbreviation. */
  function MonthNumber(abbrev: string): (r: Option<int>)
    ensures r.Some? ==> 1 <= r.value <= 12 && MonthAbbrevs[r.value - 1] == abbrev
  {
    if abbrev == "Jan" then Some(1)
    else if abbrev == "Feb" then Some(2)
    else if abbrev == "Mar" then Some(3)
    else if abbrev == "Apr" then Some(4)
    else if abbrev == "May" then Some(5)
    else if abbrev == "Jun" then Some(6)
    else if abbrev == "Jul" then Some(7)
    else if abbrev == "Aug" then Some(8)
    else if abbrev == "Sep" then Some(9)
    else if abbrev == "Oct" then Some(10)
    else if abbrev == "Nov" then Some(11)
    else if abbrev == "Dec" then Some(12)
    else None
  }

  /** Every abbreviation reads back as its own month. */
  lemma MonthNumberOfAbbrev(m: int)
    requires 1 <= m <= 12
    ensures MonthNumber(MonthAbbrevs[m - 1]) == Some(m)
  {
  }

  /** The (month, day) written at the head of `s`, the day being one or two digits. */
  function ParseMonthDay(s: string): Option<(int, int)>
  {
    if |s| < 5 || s[3] != ' ' || !IsDigit(s[4]) then None
    else
      match MonthNumber(s[..3])
      case None => None
      case Some(m) =>
        if |s| > 5 && IsDigit(s[5]) then Some((m, 10 * DigitValue(s[4]) + DigitValue(s[5])))
        else Some((m, DigitValue(s[4])))
  }

  /** Formatting a date and reading it back gives its month and day, whatever non-digit follows. */
  lemma ParseFormatDate(d: Date, rest: string)
    requires 1 <= d.month <= 12 && 1 <= d.day <= 31
    requires rest == [] || !IsDigit(rest[0])
    ensures ParseMonthDay(FormatDate(d) + rest) == Some((d.month, d.day))
  {
    var s := FormatDate(d) + rest;
    assert s[..3] == MonthAbbrevs[d.month - 1];
    MonthNumberOfAbbrev(d.month);
    if d.day >= 10 {
      assert s[4] == DigitChar(d.day / 10) && s[5] == DigitChar(d.day % 10);
    } else {
      assert s[4] == DigitChar(d.day);
      assert |s| > 5 ==> s[5] == rest[0];
    }
  }

  /** A formatted date followed by a non-digit determines the month and the day. */
  lemma FormatDatePrefixDetermines(d1: Date, r1: string, d2: Date, r2: string)
    requires 1 <= d1.month <= 12 && 1 <= d1.day <= 31
    requires 1 <= d2.month <= 12 && 1 <= d2.day <= 31
    requires r1 == [] || !IsDigit(r1[0])
    requires r2 == [] || !IsDigit(r2[0])
    requires FormatDate(d1) + r1 == FormatDate(d2) + r2
    ensures d1.month == d2.month && d1.day == d2.day
  {
    ParseFormatDate(d1, r1);
    ParseFormatDate(d2, r2);
  }
}
