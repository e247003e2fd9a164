/** The number, date and time shown at the top of an invoice
    (source/modules/merchant/transactions/scripts/invoice-event-manager.js).
    The date is kept as `DD/MM/YYYY` and the time as `h:mm AM`; the native
    date and time pickers work in `YYYY-MM-DD` and 24-hour `HH:MM`, so every
    edit converts one way and back. The picked value and the clock's offset
    from UTC are parameters. */
module InvoiceMeta {
  import opened Wrappers
  import opened Text
  import opened Js
  import PyStr

  /** `n.toString().padStart(2, '0')`. */
  function Pad2(n: nat): string {
    PadStart(NatToString(n), 2, '0')
  }

  /** A number below 100 pads to two digits that read back as it. */
  lemma Pad2Spec(n: nat)
    requires n < 100
    ensures |Pad2(n)| == 2 && AllDigits(Pad2(n))
    ensures ParseInt(Pad2(n)) == Int(n)
    ensures Pad2(n) == [DigitChar(n / 10), DigitChar(n % 10)]
  {
    PyStr.ZeroPaddedValue(NatToString(n), 2);
    ParseIntOfDigits(Pad2(n));
    if n >= 10 {
      assert NatToString(n) == NatToString(n / 10) + [DigitChar(n % 10)];
    }
  }

  /** `a + sep + b + sep + c` splits back into its three parts when none of
      them holds the separator. */
  lemma SplitThree(a: string, b: string, c: string, sep: char)
    requires sep !in a && sep !in b && sep !in c
    ensures Split(a + [sep] + b + [sep] + c, [sep]) == [a, b, c]
  {
    ThreeSeparable(a, b, c, sep);
    JoinThree(a, b, c, [sep]);
    SplitJoin([a, b, c], [sep]);
  }

  lemma ThreeSeparable(a: string, b: string, c: string, sep: char)
    requires sep !in a && sep !in b && sep !in c
    ensures Separable([a, b, c], [sep])
  {
    AbsentChar(a, [sep], 0);
    AbsentChar(b, [sep], 0);
    AbsentChar(c, [sep], 0);
  }

  lemma JoinThree(a: string, b: string, c: string, sep: string)
    ensures Join([a, b, c], sep) == a + sep + b + sep + c
  {
    var parts := [a, b, c];
    assert parts[1..] == [b, c] && parts[1..][1..] == [c];
    assert Join([b, c], sep) == b + sep + c;
  }

  // ---------------------------------------------------------------------------
  // Dates
  // ---------------------------------------------------------------------------

  /** The date picker's value for a stored `DD/MM/YYYY` date: `YYYY-MM-DD`
      with day and month padded to two digits, and '' for a date that does
      not have exactly three parts. */
  function DateInputValue(date: string): (r: string)
    ensures r != "" <==> |Split(date, "/")| == 3
  {
    var dateParts := Split(date, "/");
    if |dateParts| == 3 then
      dateParts[2] + "-" + PadStart(dateParts[1], 2, '0') + "-" + PadStart(dateParts[0], 2, '0')
    else ""
  }

  /** Three slash-free parts are reordered, the last first, and the day and
      month padded. */
  lemma DateInputValueSpec(day: string, month: string, year: string)
    requires '/' !in day && '/' !in month && '/' !in year
    ensures DateInputValue(day + "/" + month + "/" + year) ==
      year + "-" + PadStart(month, 2, '0') + "-" + PadStart(day, 2, '0')
  {
    SplitThree(day, month, year, '/');
  }

  /** A day of the proleptic Gregorian calendar, as JavaScript's `Date`
      counts them. */
  datatype CivilDate = CivilDate(year: int, month: int, day: int)

  predicate IsLeapYear(y: int) {
    (y % 4 == 0 && y % 100 != 0) || y % 400 == 0
  }

  function DaysInMonth(y: int, m: int): int
    requires 1 <= m <= 12
  {
    if m == 2 then (if IsLeapYear(y) then 29 else 28)
    else if m == 4 || m == 6 || m == 9 || m == 11 then 30
    else 31
  }

  predicate ValidDate(c: CivilDate) {
    1 <= c.month <= 12 && 1 <= c.day <= DaysInMonth(c.year, c.month)
  }

  /** The day before. */
  function PreviousDay(c: CivilDate): (r: CivilDate)
    requires ValidDate(c)
    ensures ValidDate(r) && r.day != c.day
  {
    if c.day > 1 then CivilDate(c.year, c.month, c.day - 1)
    else if c.month > 1 then CivilDate(c.year, c.month - 1, DaysInMonth(c.year, c.month - 1))
    else CivilDate(c.year - 1, 12, 31)
  }

  /** How a day is stored: `${day}/${month}/${year}` with day and month
      padded to two digits. */
  function DateText(c: CivilDate): string
    requires ValidDate(c)
  {
    Pad2(c.day) + "/" + Pad2(c.month) + "/" + IntToString(c.year)
  }

  /** Two days stored as the same text fall on the same day of the month. */
  lemma DateTextDay(c: CivilDate, d: CivilDate)
    requires ValidDate(c) && ValidDate(d) && DateText(c) == DateText(d)
    ensures c.day == d.day
  {
    DateTextStart(c);
    DateTextStart(d);
    Pad2Injective(c.day, d.day);
  }

  lemma DateTextStart(c: CivilDate)
    requires ValidDate(c)
    ensures DateText(c)[..2] == Pad2(c.day)
  {
    var p := Pad2(c.day);
    var t := DateText(c);
    Pad2Spec(c.day);
    assert t[0] == p[0] && t[1] == p[1];
  }

  lemma Pad2Injective(m: nat, n: nat)
    requires m < 100 && n < 100 && Pad2(m) == Pad2(n)
    ensures m == n
  {
    Pad2Spec(m);
    Pad2Spec(n);
  }

  /** The local calendar day of midnight UTC on `c`, on a clock
      `offsetMinutes` ahead of UTC (negative west of Greenwich): what
      `new Date('YYYY-MM-DD')` followed by `getDate()`, `getMonth()` and
      `getFullYear()` reads. */
  function LocalDayOfUtcMidnight(c: CivilDate, offsetMinutes: int): CivilDate
    requires ValidDate(c) && -1440 < offsetMinutes < 1440
  {
    if offsetMinutes < 0 then PreviousDay(c) else c
  }

  /** The stored date after picking the day `c`, as the source computes it. */
  function DateChangedAsWritten(c: CivilDate, offsetMinutes: int): string
    requires ValidDate(c) && -1440 < offsetMinutes < 1440
  {
    DateText(LocalDayOfUtcMidnight(c, offsetMinutes))
  }

  /** West of Greenwich the stored date is the day before the one picked. */
  lemma PickedDayShiftsWest(c: CivilDate, offsetMinutes: int)
    requires ValidDate(c) && -1440 < offsetMinutes < 0
    ensures DateChangedAsWritten(c, offsetMinutes) == DateText(PreviousDay(c))
    ensures DateChangedAsWritten(c, offsetMinutes) != DateText(c)
  {
    if DateText(PreviousDay(c)) == DateText(c) {
      DateTextDay(PreviousDay(c), c);
    }
  }

  /** Picking 16 December 2025 on a clock five hours behind UTC stores
      15 December. */
  lemma PickedDayShiftExample()
    ensures DateChangedAsWritten(CivilDate(2025, 12, 16), -300) == "15/12/2025"
  {
    var c := CivilDate(2025, 12, 16);
    var prev := CivilDate(2025, 12, 15);
    assert LocalDayOfUtcMidnight(c, -300) == prev;
    FifteenthText();
  }

  lemma FifteenthText()
    ensures DateText(CivilDate(2025, 12, 15)) == "15/12/2025"
  {
    PadFifteenTwelve();
    Year2025();
    FifteenthJoined();
    assert DateText(CivilDate(2025, 12, 15)) == Pad2(15) + "/" + Pad2(12) + "/" + IntToString(2025);
  }

  lemma PadFifteenTwelve()
    ensures Pad2(15) == "15" && Pad2(12) == "12"
  {
    TwoDigits(15);
    TwoDigits(12);
  }

  lemma FifteenthJoined()
    ensures "15" + "/" + "12" + "/" + "2025" == "15/12/2025"
  {
  }

  lemma TwoDigits(n: nat)
    requires 10 <= n < 100
    ensures Pad2(n) == [DigitChar(n / 10), DigitChar(n % 10)]
  {
    Pad2Spec(n);
  }

  lemma Year2025()
    ensures IntToString(2025) == "2025"
  {
    assert NatToString(2) == "2";
    assert NatToString(20) == "20";
    assert NatToString(202) == "202";
    assert NatToString(2025) == "2025";
  }

  /** The stored date after picking the day `c`, read as a local day
      whatever the clock's offset. */
  function DateChanged(c: CivilDate): string
    requires ValidDate(c)
  {
    DateText(c)
  }

  /** A stored date goes back to the picker as the day it names, so that
      opening the picker and keeping the day stores the same text. */
  lemma DateRoundTrip(c: CivilDate)
    requires ValidDate(c)
    ensures DateInputValue(DateChanged(c)) == IntToString(c.year) + "-" + Pad2(c.month) + "-" + Pad2(c.day)
  {
    Pad2Spec(c.day);
    Pad2Spec(c.month);
    var year := IntToString(c.year);
    assert '/' !in year by {
      var digits := NatToString(if c.year < 0 then -c.year else c.year);
      assert AllDigits(digits);
    }
    DateInputValueSpec(Pad2(c.day), Pad2(c.month), year);
  }

  // ---------------------------------------------------------------------------
  // Times
  // ---------------------------------------------------------------------------

  /** What `(\d{1,2}):(\d{2})\s*(AM|PM)` with the `i` flag captures. */
  datatype TimeMatch = TimeMatch(hours: string, minutes: string, ampm: string)

  /** A capture of the pattern: one or two hour digits, two minute digits,
      and `AM` or `PM` in either case. */
  predicate WellFormed(m: TimeMatch) {
    1 <= |m.hours| <= 2 && AllDigits(m.hours) && |m.minutes| == 2 && AllDigits(m.minutes)
    && (Upper(m.ampm) == "AM" || Upper(m.ampm) == "PM")
  }

  /** The pattern at index `i` with `n` hour digits. */
  function MatchWith(s: string, i: nat, n: nat): (r: Option<TimeMatch>)
    requires i <= |s| && 1 <= n <= 2
    ensures r.Some? ==> WellFormed(r.value)
  {
    var colon := i + n;
    if colon + 3 > |s| || !AllDigits(s[i..colon]) || s[colon] != ':' || !AllDigits(s[colon + 1..colon + 3]) then None
    else
      var rest := LStrip(s[colon + 3..], IsSpace);
      if |rest| >= 2 && (Upper(rest[..2]) == "AM" || Upper(rest[..2]) == "PM") then
        Some(TimeMatch(s[i..colon], s[colon + 1..colon + 3], rest[..2]))
      else None
  }

  /** The pattern at index `i`: the greedy `\d{1,2}` tries two hour digits,
      then one. */
  function MatchAt(s: string, i: nat): (r: Option<TimeMatch>)
    requires i <= |s|
    ensures r.Some? ==> WellFormed(r.value)
  {
    var two := MatchWith(s, i, 2);
    if two.Some? then two else MatchWith(s, i, 1)
  }

  /** `s.match(pattern)` searching from index `i`: the leftmost match. */
  function FindTime(s: string, i: nat): (r: Option<TimeMatch>)
    requires i <= |s|
    ensures r.Some? ==> WellFormed(r.value)
    decreases |s| - i
  {
    if MatchAt(s, i).Some? then MatchAt(s, i)
    else if i == |s| then None
    else FindTime(s, i + 1)
  }

  /** The 24-hour hour for a 12-hour one: PM adds 12 except at 12, and
      12 AM is hour 0. */
  function Hours24(hours: nat, ampm: string): nat {
    if ampm == "PM" && hours != 12 then hours + 12
    else if ampm == "AM" && hours == 12 then 0
    else hours
  }

  /** The 12-hour hour for a 24-hour one: 0 is 12, above 12 subtracts 12. */
  function Hours12(hours: int): int {
    if hours == 0 then 12 else if hours > 12 then hours - 12 else hours
  }

  /** PM from hour 12 on. */
  function Meridiem(hours: int): string {
    if hours >= 12 then "PM" else "AM"
  }

  /** The time picker's value for a stored time: the hour in 24-hour form,
      padded to two digits, and the minutes; '' when the text holds no time. */
  function TimeInputValue(time: string): string {
    match FindTime(time, 0)
    case None => ""
    case Some(m) =>
      var hours := Hours24(DigitsValue(m.hours), Upper(m.ampm));
      Pad2(hours) + ":" + m.minutes
  }

  /** The stored time for a picked `HH:MM`: `${hours12}:${minutes} ${ampm}`,
      the hour unpadded. */
  function TimeFromInput(value: string): string {
    var parts := Split(value, ":");
    var hours := ParseInt(parts[0]);
    var minutes := if |parts| >= 2 then parts[1] else "undefined";
    var ampm := if hours.Int? then Meridiem(hours.value) else "AM";
    var hours12 := if hours.Int? then Int(Hours12(hours.value)) else NaN;
    NumberToString(hours12) + ":" + minutes + " " + ampm
  }

  /** On hours, 12-hour to 24-hour and back is the identity both ways. */
  lemma HoursRoundTrip(h: nat, ampm: string, h24: int)
    requires 1 <= h <= 12 && (ampm == "AM" || ampm == "PM")
    requires 0 <= h24 <= 23
    ensures 0 <= Hours24(h, ampm) <= 23
    ensures Hours12(Hours24(h, ampm)) == h && Meridiem(Hours24(h, ampm)) == ampm
    ensures 1 <= Hours12(h24) <= 12 && Hours24(Hours12(h24), Meridiem(h24)) == h24
  {
  }

  /** A 24-hour `HH:MM` is stored as the 12-hour hour, the minutes and the
      meridiem. */
  lemma TimeFromInputOf(h: nat, minutes: string)
    requires h <= 23 && |minutes| == 2 && AllDigits(minutes)
    ensures TimeFromInput(Pad2(h) + ":" + minutes) ==
      NatToString(Hours12(h)) + ":" + minutes + " " + Meridiem(h)
  {
    Pad2Spec(h);
    var value := Pad2(h) + ":" + minutes;
    AbsentChar(Pad2(h), ":", 0);
    AbsentChar(minutes, ":", 0);
    SplitJoin([Pad2(h), minutes], ":");
    assert Join([Pad2(h), minutes], ":") == value;
  }

  /** The pattern finds a stored 12-hour time at its start. */
  lemma ReadTwelve(h: nat, minutes: string, ampm: string)
    requires 1 <= h <= 12 && |minutes| == 2 && AllDigits(minutes) && (ampm == "AM" || ampm == "PM")
    ensures FindTime(NatToString(h) + ":" + minutes + " " + ampm, 0) ==
      Some(TimeMatch(NatToString(h), minutes, ampm))
  {
    var hours := NatToString(h);
    var s := hours + ":" + minutes + " " + ampm;
    HourWidth(h);
    MatchStored(hours, minutes, ampm);
    if |hours| == 1 {
      NoTwoDigitMatch(hours, minutes, ampm);
    }
    assert MatchAt(s, 0) == Some(TimeMatch(hours, minutes, ampm));
  }

  /** The pattern with as many hour digits as `hours` has reads the pieces. */
  lemma MatchStored(hours: string, minutes: string, ampm: string)
    requires 1 <= |hours| <= 2 && AllDigits(hours) && |minutes| == 2 && AllDigits(minutes)
    requires ampm == "AM" || ampm == "PM"
    ensures MatchWith(hours + ":" + minutes + " " + ampm, 0, |hours|) == Some(TimeMatch(hours, minutes, ampm))
  {
    StoredTimeParts(hours, minutes, ampm);
    SpacedMeridiem(ampm);
  }

  /** With one hour digit, the two-digit reading stops at the colon. */
  lemma NoTwoDigitMatch(hours: string, minutes: string, ampm: string)
    requires |hours| == 1 && |minutes| == 2
    ensures MatchWith(hours + ":" + minutes + " " + ampm, 0, 2).None?
  {
    var s := hours + ":" + minutes + " " + ampm;
    assert s[1] == ':' && !IsDigit(s[1]);
    assert !AllDigits(s[0..2]) by {
      assert s[0..2][1] == s[1];
    }
  }

  lemma HourWidth(h: nat)
    requires 1 <= h <= 12
    ensures |NatToString(h)| == 1 || |NatToString(h)| == 2
  {
    if h >= 10 {
      assert NatToString(h) == NatToString(h / 10) + [DigitChar(h % 10)];
    }
  }

  /** Where the pieces of `hours:minutes ampm` sit. */
  lemma StoredTimeParts(hours: string, minutes: string, ampm: string)
    requires |minutes| == 2
    ensures var s := hours + ":" + minutes + " " + ampm; var n := |hours|;
      && |s| == n + 4 + |ampm| && s[..n] == hours && s[n] == ':'
      && s[n + 1..n + 3] == minutes && s[n + 3..] == " " + ampm
  {
  }

  lemma SpacedMeridiem(ampm: string)
    requires ampm == "AM" || ampm == "PM"
    ensures LStrip(" " + ampm, IsSpace) == ampm && |ampm| == 2 && ampm[..2] == ampm && Upper(ampm) == ampm
  {
    assert IsSpace(' ');
    assert (" " + ampm)[1..] == ampm;
    assert !IsSpace(ampm[0]);
  }

  /** A picked 24-hour time that is stored and opened again shows the same
      `HH:MM`. */
  lemma TimeRoundTrip24(h: nat, minutes: string)
    requires h <= 23 && |minutes| == 2 && AllDigits(minutes)
    ensures TimeInputValue(TimeFromInput(Pad2(h) + ":" + minutes)) == Pad2(h) + ":" + minutes
  {
    var h12 := Hours12(h);
    var ampm := Meridiem(h);
    var stored := NatToString(h12) + ":" + minutes + " " + ampm;
    TimeFromInputOf(h, minutes);
    HoursRoundTrip(1, "AM", h);
    ReadTwelve(h12, minutes, ampm);
    SpacedMeridiem(ampm);
    assert TimeInputValue(stored) == Pad2(Hours24(DigitsValue(NatToString(h12)), ampm)) + ":" + minutes;
  }

  /** A stored 12-hour time with an hour from 1 to 12 that is opened in the
      picker and kept is stored again with the same hour, minutes and
      meridiem (the hour losing any leading zero). */
  lemma TimeRoundTrip12(time: string)
    requires FindTime(time, 0).Some?
    requires 1 <= DigitsValue(FindTime(time, 0).value.hours) <= 12
    ensures var m := FindTime(time, 0).value;
      FindTime(TimeFromInput(TimeInputValue(time)), 0) ==
        Some(TimeMatch(NatToString(DigitsValue(m.hours)), m.minutes, Upper(m.ampm)))
  {
    var m := FindTime(time, 0).value;
    var h := DigitsValue(m.hours);
    var ampm := Upper(m.ampm);
    HoursRoundTrip(h, ampm, 0);
    var h24 := Hours24(h, ampm);
    TimeFromInputOf(h24, m.minutes);
    ReadTwelve(h, m.minutes, ampm);
  }

  // ---------------------------------------------------------------------------
  // The invoice number
  // ---------------------------------------------------------------------------

  /** The Save button of the number dialog accepts the trimmed text when it
      is not empty and is a number (`!isNaN(text)`). */
  predicate AcceptsNumber(value: string) {
    Trim(value) != "" && IsNumericText(Trim(value))
  }

  /** Every written integer is accepted; empty or all-blank text is not. */
  lemma NumberAcceptance(i: int, blank: string)
    requires forall k :: 0 <= k < |blank| ==> IsSpace(blank[k])
    ensures AcceptsNumber(IntToString(i))
    ensures !AcceptsNumber(blank)
  {
    var r := IntToString(i);
    TrimOfClean(r);
    ToNumberOfString(i);
    ToNumberNumeric(r);
    assert Trim(r) == r;
    TrimOfClean(Trim(r));
    LStripSpec(blank, IsSpace);
  }

  // ---------------------------------------------------------------------------
  // The fields
  // ---------------------------------------------------------------------------

  class InvoiceMetaFields {
    var number: string
    var date: string
    var time: string

    /** The values a new invoice starts from. */
    constructor ()
      ensures number == "116" && date == "16/12/2025" && time == "02:26 PM"
    {
      number := "116";
      date := "16/12/2025";
      time := "02:26 PM";
    }

    /** Save in the number dialog: the trimmed text is kept when accepted,
        and the dialog closes exactly then. */
    method SaveNumber(inputValue: string) returns (closed: bool)
      modifies this
      ensures closed <==> AcceptsNumber(inputValue)
      ensures closed ==> number == Trim(inputValue)
      ensures !closed ==> number == old(number)
      ensures date == old(date) && time == old(time)
    {
      var newValue := Trim(inputValue);
      if newValue != "" && IsNumericText(newValue) {
        number := newValue;
        return true;
      }
      return false;
    }

    /** A day picked in the date picker is stored as the local day of
        midnight UTC on that day, on a clock `offsetMinutes` ahead of UTC:
        the picked day itself east of Greenwich and at it, the day before
        west of it (see `PickedDayShiftsWest`). */
    method ChangeDate(picked: CivilDate, offsetMinutes: int)
      requires ValidDate(picked) && -1440 < offsetMinutes < 1440
      modifies this
      ensures date == DateChangedAsWritten(picked, offsetMinutes)
      ensures offsetMinutes >= 0 ==> date == DateChanged(picked)
      ensures number == old(number) && time == old(time)
    {
      var local := LocalDayOfUtcMidnight(picked, offsetMinutes);
      var day := Pad2(local.day);
      var month := Pad2(local.month);
      date := day + "/" + month + "/" + IntToString(local.year);
    }

    /** A value picked in the time picker is stored in 12-hour form; an
        empty value changes nothing. */
    method ChangeTime(value: string)
      modifies this
      ensures value != "" ==> time == TimeFromInput(value)
      ensures value == "" ==> time == old(time)
      ensures number == old(number) && date == old(date)
    {
      if value != "" {
        var parts := Split(value, ":");
        var hours := ParseInt(parts[0]);
        var minutes := if |parts| >= 2 then parts[1] else "undefined";
        var ampm := if hours.Int? && hours.value >= 12 then "PM" else "AM";
        var hours12 := if hours.Int? then Int(Hours12(hours.value)) else NaN;
        time := NumberToString(hours12) + ":" + minutes + " " + ampm;
      }
    }
  }
}
