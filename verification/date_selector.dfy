/** The projection-date picker: the selected day, month, year, hour and minute, kept within
    the Gregorian calendar, and the text of its time field. */
module DateSelection {
  import opened Optional
  import opened JsNumbers
  import opened JsText
  import opened JsConvert

  // ---------------- Calendar ----------------

  predicate IsLeap(y: int) {
    y % 4 == 0 && (y % 100 != 0 || y % 400 == 0)
  }

  /** Days of month m (0 is January) of year y in the Gregorian calendar. */
  function MonthLength(y: int, m: int): (n: int)
    requires 0 <= m < 12
    ensures 28 <= n <= 31
  {
    if m == 1 then (if IsLeap(y) then 29 else 28)
    else if m == 3 || m == 5 || m == 8 || m == 10 then 30
    else 31
  }

  /** The year the Date constructor uses: 0..99 stand for 1900..1999. */
  function FullYear(year: int): int {
    if 0 <= year <= 99 then 1900 + year else year
  }

  /** `getDaysInMonth`: day 0 of the following month, i.e. the last day of this one; a month
      outside 0..11 rolls over into a neighbouring year first. */
  function DaysInMonth(month: int, year: int): (n: int)
    ensures 28 <= n <= 31
  {
    MonthLength(FullYear(year) + month / 12, month % 12)
  }

  /** The month lengths of the calendar: thirty days hath September, April, June and November,
      February has 29 days exactly in leap years, the others 31. */
  lemma GregorianMonths(month: int, year: int)
    requires 0 <= month < 12 && !(0 <= year <= 99)
    ensures month == 1 ==> (DaysInMonth(month, year) == 29 <==> IsLeap(year))
    ensures month == 1 ==> (DaysInMonth(month, year) == 28 <==> !IsLeap(year))
    ensures month in {3, 5, 8, 10} <==> DaysInMonth(month, year) == 30
    ensures month !in {1, 3, 5, 8, 10} <==> DaysInMonth(month, year) == 31
  {
    assert month / 12 == 0 && month % 12 == month;
  }

  /** The twelve months add up to the length of the year. */
  lemma YearLength(year: int)
    requires !(0 <= year <= 99)
    ensures DaysInMonth(0, year) + DaysInMonth(1, year) + DaysInMonth(2, year) + DaysInMonth(3, year)
      + DaysInMonth(4, year) + DaysInMonth(5, year) + DaysInMonth(6, year) + DaysInMonth(7, year)
      + DaysInMonth(8, year) + DaysInMonth(9, year) + DaysInMonth(10, year) + DaysInMonth(11, year)
      == if IsLeap(year) then 366 else 365
  {
    GregorianMonths(1, year);
  }

  /** Month 12 is January of the next year, and month -1 December of the previous one. */
  lemma MonthRollover(month: int, year: int)
    requires !(0 <= year <= 99) && !(-1 <= year <= 100)
    ensures DaysInMonth(month + 12, year) == DaysInMonth(month, year + 1)
    ensures DaysInMonth(month - 12, year) == DaysInMonth(month, year - 1)
  {
    assert (month + 12) / 12 == month / 12 + 1 && (month + 12) % 12 == month % 12;
    assert (month - 12) / 12 == month / 12 - 1 && (month - 12) % 12 == month % 12;
  }

  /** Years 0..99 are read as 1900..1999: February of year 0 has 28 days, although 0 is a
      leap year of the proleptic calendar. */
  lemma TwoDigitYears()
    ensures IsLeap(0) && DaysInMonth(1, 0) == 28
  {
    assert FullYear(0) == 1900;
  }

  // ---------------- Time field ----------------

  /** The two-digit text of an hour or a minute. */
  function TwoDigits(n: int): string {
    PadStart(IntToString(n), 2, '0')
  }

  /** The time field's value, `HH:MM`: for a time of day, five characters, the hour and the
      minute in two digits each around a colon. */
  function TimeValue(hour: int, minute: int): (t: string)
    ensures 0 <= hour < 24 && 0 <= minute < 60 ==>
      |t| == 5 && t[2] == ':' && AllDigits(t[..2]) && AllDigits(t[3..])
      && DigitsValue(t[..2]) == hour && DigitsValue(t[3..]) == minute
  {
    if 0 <= hour < 24 && 0 <= minute < 60 then
      TwoDigitsOfNat(hour);
      TwoDigitsOfNat(minute);
      ColonBetween(TwoDigits(hour), TwoDigits(minute));
      TwoDigits(hour) + ":" + TwoDigits(minute)
    else TwoDigits(hour) + ":" + TwoDigits(minute)
  }

  /** The field's part before and after the first colon; a missing or empty part reads as "0",
      so a cleared field is midnight and a field without a colon has minute 0. */
  function ParseTime(value: string): (hm: (JsNumber, JsNumber))
    ensures value == "" ==> hm == (Fin(0.0), Fin(0.0))
    ensures ':' !in value ==> hm.1 == Fin(0.0)
  {
    var parts := Split(value, ':');
    var hh := parts[0];
    var mm := if |parts| >= 2 then parts[1] else "";
    ParseIntDigits("0");
    (ParseInt(if hh == "" then "0" else hh), ParseInt(if mm == "" then "0" else mm))
  }

  lemma ShortNumeral(n: nat)
    requires n < 100
    ensures |NatToString(n)| <= 2
  {
    if n >= 10 {
      assert NatToString(n) == NatToString(n / 10) + [DigitChar(n % 10)];
    }
  }

  lemma TwoDigitsOfNat(n: nat)
    ensures var t := TwoDigits(n);
      t != [] && AllDigits(t) && DigitsValue(t) == n && ':' !in t && (n < 100 ==> |t| == 2)
  {
    var t := TwoDigits(n);
    assert IntToString(n) == NatToString(n);
    PadStartValue(NatToString(n), 2);
    NatToStringValue(n);
    if n < 100 {
      ShortNumeral(n);
    }
    assert forall k :: 0 <= k < |t| ==> IsDigit(t[k]);
  }

  lemma ColonBetween(a: string, b: string)
    requires |a| == 2 && |b| == 2
    ensures var t := a + ":" + b;
      |t| == 5 && t[..2] == a && t[2] == ':' && t[3..] == b
  {
  }

  /** A field made of two digit runs around a colon reads as their two values. */
  lemma ParseTimeOfDigits(a: string, b: string)
    requires a != [] && AllDigits(a) && ':' !in a
    requires b != [] && AllDigits(b) && ':' !in b
    ensures ParseTime(a + ":" + b) == (Fin(DigitsValue(a) as real), Fin(DigitsValue(b) as real))
  {
    assert Join([a, b], [':']) == a + [':'] + Join([b], [':']);
    assert a + ":" + b == Join([a, b], [':']);
    SplitJoin([a, b], ':');
    ParseIntDigits(a);
    ParseIntDigits(b);
  }

  /** Reading the field back gives the hour and the minute written into it. */
  lemma TimeRoundTrip(hour: nat, minute: nat)
    ensures ParseTime(TimeValue(hour, minute)) == (FromInt(hour), FromInt(minute))
  {
    TwoDigitsOfNat(hour);
    TwoDigitsOfNat(minute);
    ParseTimeOfDigits(TwoDigits(hour), TwoDigits(minute));
  }

  /** Option values are written with `toString` and read with `parseInt`: each reads back. */
  lemma OptionValuesReadBack(options: seq<int>)
    ensures forall i :: 0 <= i < |options| ==> ParseInt(IntToString(options[i])) == FromInt(options[i])
  {
    forall i | 0 <= i < |options|
      ensures ParseInt(IntToString(options[i])) == FromInt(options[i])
    {
      ParseIntOfIntToString(options[i]);
    }
  }

  // ---------------- Selection state ----------------

  /** The arguments of the `new Date(...)` handed to the change callback. */
  datatype DateArgs = DateArgs(year: int, month: int, day: int, hour: int, minute: int)

  /** The picker's state. */
  class DateSelector {
    /** The year of the clock when the picker was created. */
    const currentYear: int
    var day: int
    var month: int
    var year: int
    var hour: int
    var minute: int

    /** The selected day does not run past the end of the selected month. */
    predicate DayFits()
      reads this
    {
      day <= DaysInMonth(month, year)
    }

    /** The date handed to the callback. */
    function Selected(): DateArgs
      reads this
    {
      DateArgs(year, month, day, hour, minute)
    }

    /** Starts on today's date and time, read from the clock. */
    constructor (today: int, thisMonth: int, thisYear: int, hourNow: int, minuteNow: int)
      requires 0 <= thisMonth < 12 && 1 <= today <= DaysInMonth(thisMonth, thisYear)
      ensures currentYear == thisYear && year == thisYear && month == thisMonth && day == today
      ensures hour == hourNow && minute == minuteNow
      ensures DayFits() && year in YearOptions() && day in DayOptions()
    {
      currentYear := thisYear;
      day := today;
      month := thisMonth;
      year := thisYear;
      hour := hourNow;
      minute := minuteNow;
      new;
      assert YearOptions()[0] == thisYear;
      assert DayOptions()[today - 1] == today;
    }

    /** `handleDateChange`: an undefined argument keeps the current value; the day is cut down
        to the length of the new month. The time is kept. */
    method HandleDateChange(newDay: Option<int>, newMonth: Option<int>, newYear: Option<int>)
      returns (emitted: DateArgs)
      modifies this
      ensures month == newMonth.GetOr(old(month)) && year == newYear.GetOr(old(year))
      ensures var wanted := newDay.GetOr(old(day));
        day == (if wanted <= DaysInMonth(month, year) then wanted else DaysInMonth(month, year))
      ensures hour == old(hour) && minute == old(minute)
      ensures DayFits() && (1 <= newDay.GetOr(old(day)) ==> day in DayOptions())
      ensures emitted == Selected()
    {
      var wanted := newDay.GetOr(day);
      month := newMonth.GetOr(month);
      year := newYear.GetOr(year);
      var days := DaysInMonth(month, year);
      day := if wanted <= days then wanted else days;
      emitted := DateArgs(year, month, day, hour, minute);
      if 1 <= day {
        assert DayOptions()[day - 1] == day;
      }
    }

    /** `handleTimeChange`: only the hour and the minute change. */
    method HandleTimeChange(newHour: int, newMinute: int) returns (emitted: DateArgs)
      modifies this
      ensures hour == newHour && minute == newMinute
      ensures day == old(day) && month == old(month) && year == old(year)
      ensures old(DayFits()) ==> DayFits()
      ensures emitted == Selected()
    {
      hour := newHour;
      minute := newMinute;
      emitted := DateArgs(year, month, day, hour, minute);
    }

    /** The day options, 1 to the length of the selected month. */
    function DayOptions(): (days: seq<int>)
      reads this
      ensures |days| == DaysInMonth(month, year)
      ensures forall i :: 0 <= i < |days| ==> days[i] == i + 1
    {
      seq(DaysInMonth(month, year), i requires 0 <= i => i + 1)
    }

    /** The year options: a hundred years from the current one. */
    function YearOptions(): (years: seq<int>)
      ensures |years| == 100
      ensures forall i :: 0 <= i < |years| ==> years[i] == currentYear + i
    {
      seq(100, i requires 0 <= i => currentYear + i)
    }

    /** The time field's text for the selected hour and minute. */
    function TimeText(): string
      reads this
    {
      TimeValue(hour, minute)
    }
  }

  /** A day is offered exactly when it lies between 1 and the month length, and the options
      follow one another without a gap. */
  lemma DayOptionsCover(s: DateSelector, d: int)
    ensures d in s.DayOptions() <==> 1 <= d <= DaysInMonth(s.month, s.year)
    ensures forall i :: 0 < i < |s.DayOptions()| ==> s.DayOptions()[i] == s.DayOptions()[i - 1] + 1
  {
    if 1 <= d <= DaysInMonth(s.month, s.year) {
      assert s.DayOptions()[d - 1] == d;
    }
  }

  /** Every offered year lies in the hundred years from the current one, each exactly once. */
  lemma YearOptionsCover(s: DateSelector, y: int)
    ensures y in s.YearOptions() <==> s.currentYear <= y < s.currentYear + 100
  {
    if s.currentYear <= y < s.currentYear + 100 {
      assert s.YearOptions()[y - s.currentYear] == y;
    }
  }
}
