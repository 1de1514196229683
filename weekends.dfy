/**
 * The weekend generator: starting from January 1 it steps a day at a time to
 * the first Friday, then emits the label of the Friday-to-Sunday span that
 * starts there and steps a week at a time for as long as the start date is
 * still in the year. The year is the generator's constant; `TripYear` is the
 * value the application uses.
 */
module Weekends {
  import opened Wrappers
  import opened Calendar
  import opened DateFormat

  const TripYear: int := 2026

  /** The separator between the two dates of a label (U+2013, en dash). */
  const EnDash: char := '\U{2013}'

  /** Day number of the first Friday on or after January 1 of `y`. */
  function FirstFriday(y: int): nat
    requires y >= Epoch
  {
    YearStart(y) + (Friday - Weekday(YearStart(y))) % 7
  }

  /** Day number of January 1 of the year after `y`. */
  function YearEnd(y: int): nat
    requires y >= Epoch
  {
    YearStart(y) + DaysInYear(y)
  }

  /** How many weeks the generator steps through before leaving year `y`. */
  function FridayCount(y: int): nat
    requires y >= Epoch
  {
    (YearEnd(y) - 1 - FirstFriday(y)) / 7 + 1
  }

  /** Day numbers of the Fridays the generator starts weekends on, in order: each is a Friday inside year `y`. */
  function WeekendStarts(y: int): (r: seq<nat>)
    requires y >= Epoch
    ensures |r| == FridayCount(y)
    ensures forall i :: 0 <= i < |r| ==> YearStart(y) <= r[i] < YearEnd(y) && Weekday(r[i]) == Friday
  {
    FirstFridayIsFirst(y);
    FridayCountBounds(y);
    assert forall i :: 0 <= i < FridayCount(y) ==> Weekday(FirstFriday(y) + 7 * i) == Friday by {
      forall i | 0 <= i < FridayCount(y)
        ensures Weekday(FirstFriday(y) + 7 * i) == Friday
      {
        WeekdayPeriodic(FirstFriday(y), i);
      }
    }
    seq(FridayCount(y), i => FirstFriday(y) + 7 * i)
  }

  /** The label of the weekend starting on day `start`: the formatted Friday, an en dash, the formatted Sunday. */
  function WeekendLabel(start: nat): string
  {
    FormatDate(ToDate(start)) + [EnDash] + FormatDate(ToDate(start + 2))
  }

  /** The labels the generator returns for year `y`, one per start, in order. */
  function WeekendLabels(y: int): seq<string>
    requires y >= Epoch
  {
    var starts := WeekendStarts(y);
    seq(|starts|, i requires 0 <= i < |starts| => WeekendLabel(starts[i]))
  }

  /** The start's month and day read back from the head of its label, and the end's from what follows the dash. */
  lemma WeekendLabelReadsBack(start: nat)
    ensures ParseMonthDay(WeekendLabel(start)) == Some((ToDate(start).month, ToDate(start).day))
    ensures var k := |FormatDate(ToDate(start))|;
            ParseMonthDay(WeekendLabel(start)[k + 1..]) == Some((ToDate(start + 2).month, ToDate(start + 2).day))
  {
    var first, last := FormatDate(ToDate(start)), FormatDate(ToDate(start + 2));
    assert !IsDigit(EnDash);
    ParseFormatDate(ToDate(start), [EnDash] + last);
    ParseFormatDate(ToDate(start + 2), []);
    assert WeekendLabel(start) == first + ([EnDash] + last);
    assert WeekendLabel(start)[|first| + 1..] == last + [];
  }

  /** Two day numbers with the same weekday are a whole number of weeks apart. */
  lemma SameWeekday(m: nat, n: nat)
    requires m <= n && Weekday(m) == Weekday(n)
    ensures (n - m) % 7 == 0
  {
    var a, b := EpochWeekday + m, EpochWeekday + n;
    assert a == 7 * (a / 7) + a % 7;
    assert b == 7 * (b / 7) + b % 7;
    assert n - m == 7 * (b / 7 - a / 7);
  }

  /** `FirstFriday(y)` is a Friday, lies in the first week of `y`, and no day of `y` before it is a Friday. */
  lemma FirstFridayIsFirst(y: int)
    requires y >= Epoch
    ensures YearStart(y) <= FirstFriday(y) < YearStart(y) + 7
    ensures Weekday(FirstFriday(y)) == Friday
    ensures forall n :: YearStart(y) <= n < FirstFriday(y) ==> Weekday(n) != Friday
  {
    var s := YearStart(y);
    var a := Weekday(s);
    var b := (Friday - a) % 7;
    assert EpochWeekday + s == 7 * ((EpochWeekday + s) / 7) + a;
    if a <= Friday {
      assert b == Friday - a;
    } else {
      assert a == 6 && b == 6;
    }
    forall n | s <= n < s + b
      ensures Weekday(n) != Friday
    {
      assert EpochWeekday + n == 7 * ((EpochWeekday + s) / 7) + a + (n - s);
    }
  }

  /** The last start is still in the year and the next step would leave it. */
  lemma FridayCountBounds(y: int)
    requires y >= Epoch
    ensures FirstFriday(y) + 7 * (FridayCount(y) - 1) < YearEnd(y)
    ensures YearEnd(y) <= FirstFriday(y) + 7 * FridayCount(y)
  {
    FirstFridayIsFirst(y);
  }

  /** Every start is a Friday of year `y`, and every Friday of `y` is a start. */
  lemma {:induction false} WeekendStartsAreTheFridays(y: int, n: nat)
    requires y >= Epoch
    ensures n in WeekendStarts(y) <==> ToDate(n).year == y && Weekday(n) == Friday
  {
    var starts := WeekendStarts(y);
    FirstFridayIsFirst(y);
    FridayCountBounds(y);
    YearOfDay(n, y);
    if n in starts {
      var i :| 0 <= i < |starts| && starts[i] == n;
      assert Weekday(FirstFriday(y) + 7 * i) == Weekday(FirstFriday(y)) by {
        assert EpochWeekday + FirstFriday(y) + 7 * i == (EpochWeekday + FirstFriday(y)) + 7 * i;
      }
    }
    if ToDate(n).year == y && Weekday(n) == Friday {
      var f := FirstFriday(y);
      assert f <= n;
      SameWeekday(f, n);
      var i := (n - f) / 7;
      assert n == f + 7 * i;
      assert i < FridayCount(y);
      assert starts[i] == n;
    }
  }

  /** The first start is the first Friday on or after January 1, and each start is one week after the previous. */
  lemma WeekendStartsChronological(y: int)
    requires y >= Epoch
    ensures |WeekendStarts(y)| > 0 && WeekendStarts(y)[0] == FirstFriday(y)
    ensures forall i :: 0 < i < |WeekendStarts(y)| ==> WeekendStarts(y)[i] == WeekendStarts(y)[i - 1] + 7
    ensures forall i, j :: 0 <= i < j < |WeekendStarts(y)| ==> WeekendStarts(y)[i] < WeekendStarts(y)[j]
  {
  }

  /** A weekend that starts on a Friday ends on the Sunday two days later. */
  lemma WeekendEndsOnSunday(start: nat)
    requires Weekday(start) == Friday
    ensures Weekday(start + 2) == Sunday
  {
  }

  /** A label determines the month and the day of its start. */
  lemma LabelDeterminesMonthDay(a: nat, b: nat)
    requires WeekendLabel(a) == WeekendLabel(b)
    ensures ToDate(a).month == ToDate(b).month && ToDate(a).day == ToDate(b).day
  {
    WeekendLabelReadsBack(a);
    WeekendLabelReadsBack(b);
  }

  /** Within one year, the label of a weekend determines its start day. */
  lemma LabelDeterminesStart(a: nat, b: nat)
    requires ToDate(a).year == ToDate(b).year
    requires WeekendLabel(a) == WeekendLabel(b)
    ensures a == b
  {
    LabelDeterminesMonthDay(a, b);
    assert ToDate(a) == ToDate(b);
  }

  /** Distinct weekends get distinct labels, so each has a vote key of its own. */
  lemma WeekendLabelsDistinct(y: int)
    requires y >= Epoch
    ensures forall i, j :: 0 <= i < j < |WeekendLabels(y)| ==> WeekendLabels(y)[i] != WeekendLabels(y)[j]
  {
    var starts := WeekendStarts(y);
    var labels := WeekendLabels(y);
    forall i, j | 0 <= i < j < |labels|
      ensures labels[i] != labels[j]
    {
      var a, b := starts[i], starts[j];
      YearOfDay(a, y);
      YearOfDay(b, y);
      WeekendLabelReadsBack(a);
      WeekendLabelReadsBack(b);
      assert ToDate(a) != ToDate(b);
      assert (ToDate(a).month, ToDate(a).day) != (ToDate(b).month, ToDate(b).day);
      assert ParseMonthDay(labels[i]) != ParseMonthDay(labels[j]);
    }
  }

  /** When the last Friday of `y` is at least three days before its end, every weekend ends in `y` too. */
  lemma WeekendsEndInYear(y: int)
    requires y >= Epoch
    requires FirstFriday(y) + 7 * (FridayCount(y) - 1) + 2 < YearEnd(y)
    ensures forall i :: 0 <= i < |WeekendStarts(y)| ==> ToDate(WeekendStarts(y)[i] + 2).year == y
  {
    var starts := WeekendStarts(y);
    forall i | 0 <= i < |starts|
      ensures ToDate(starts[i] + 2).year == y
    {
      YearOfDay(starts[i] + 2, y);
    }
  }

  /** In 2026 the generator lists 52 weekends, from Friday, January 2 to Friday, December 25. */
  lemma TripYearWeekends()
    ensures |WeekendLabels(TripYear)| == 52
    ensures WeekendStarts(TripYear)[0] == DayNumber(Date(2026, 1, 2))
    ensures WeekendStarts(TripYear)[51] == DayNumber(Date(2026, 12, 25))
  {
    assert YearStart(TripYear) == 0 && YearEnd(TripYear) == 365;
    assert FirstFriday(TripYear) == 1;
    assert FridayCount(TripYear) == 52;
    var starts := WeekendStarts(TripYear);
    assert starts[0] == 1 && starts[51] == 358;
    assert DayNumber(Date(2026, 1, 2)) == 1;
    assert DayNumber(Date(2026, 12, 25)) == 358;
  }

  /** No weekend of 2026 ends in 2027. */
  lemma TripYearWeekendsEndInYear()
    ensures forall i :: 0 <= i < |WeekendStarts(TripYear)| ==> ToDate(WeekendStarts(TripYear)[i] + 2).year == TripYear
  {
    assert YearStart(TripYear) == 0 && YearEnd(TripYear) == 365;
    assert FirstFriday(TripYear) == 1;
    assert FridayCount(TripYear) == 52;
    WeekendsEndInYear(TripYear);
  }

  /** The weekend starting on Friday, January 2, 2026 reads "Jan 2–Jan 4". */
  lemma FirstTripWeekendLabel()
    ensures WeekendLabel(DayNumber(Date(2026, 1, 2))) == "Jan 2\U{2013}Jan 4"
  {
  }

  /** The loop tests the start date only: the last weekend of 2027 starts on Friday, December 31 and ends on Sunday, January 2, 2028. */
  lemma LastWeekendMayCrossYear()
    ensures |WeekendStarts(2027)| == 53
    ensures WeekendStarts(2027)[52] == DayNumber(Date(2027, 12, 31))
    ensures WeekendStarts(2027)[52] + 2 == DayNumber(Date(2028, 1, 2))
  {
    assert YearStart(2027) == 365;
    assert YearStart(2028) == 730;
    assert FirstFriday(2027) == 365;
  }

  /** `generateWeekends`: the labels of every Friday-to-Sunday weekend whose Friday lies in `year`. */
  method GenerateWeekends(year: int) returns (weekends: seq<string>)
    requires year >= Epoch
    ensures weekends == WeekendLabels(year)
  {
    FirstFridayIsFirst(year);
    FridayCountBounds(year);
    weekends := [];
    var d: nat := YearStart(year);
    while Weekday(d) != Friday
      invariant YearStart(year) <= d <= FirstFriday(year)
      decreases FirstFriday(year) - d
    {
      d := d + 1;
    }
    while ToDate(d).year == year
      invariant d == FirstFriday(year) + 7 * |weekends|
      invariant |weekends| <= FridayCount(year)
      invariant weekends == WeekendLabels(year)[..|weekends|]
      decreases YearEnd(year) - d
    {
      YearOfDay(d, year);
      var start := d;
      var end := d + 2;
      var text := FormatDate(ToDate(start)) + [EnDash] + FormatDate(ToDate(end));
      weekends := weekends + [text];
      d := d + 7;
    }
    YearOfDay(d, year);
  }
}
