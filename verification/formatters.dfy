/** Display formatting (source/utils/formatters.js): Indian phone numbers
    with a space after the country code, the guard in front of the currency
    formatter, and "how long ago" texts. The clock and the locale formatter
    are parameters. */
module Formatters {
  import opened Wrappers
  import opened Text
  import opened Js

  // ---------------------------------------------------------------------------
  // Phone numbers
  // ---------------------------------------------------------------------------

  /** The Indian country code. */
  const CountryCode := "+91"

  /** `formatPhoneNumberWithSpace(e164Phone)`. */
  function FormatPhone(e164Phone: Value): string {
    if !e164Phone.Str? || e164Phone.s == "" then ""
    else
      var phone := e164Phone.s;
      if StartsWith(phone, CountryCode) && Utf16Length(phone) > 3 then CountryCode + " " + phone[3..]
      else phone
  }

  /** Empty or non-string input gives the empty string; a `+91` number with
      more after the code gets one space after it; any other string is kept.
      Taking the space out again gives back the number. */
  lemma FormatPhoneSpec(e164Phone: Value)
    ensures !e164Phone.Str? || e164Phone.s == "" ==> FormatPhone(e164Phone) == ""
    ensures e164Phone.Str? && StartsWith(e164Phone.s, CountryCode) && |e164Phone.s| > 3 ==>
      var r := FormatPhone(e164Phone);
      && |r| == |e164Phone.s| + 1
      && r[..3] == CountryCode && r[3] == ' '
      && r[..3] + r[4..] == e164Phone.s
    ensures e164Phone.Str? && e164Phone.s != "" && !(StartsWith(e164Phone.s, CountryCode) && |e164Phone.s| > 3) ==>
      FormatPhone(e164Phone) == e164Phone.s
  {
    if e164Phone.Str? && StartsWith(e164Phone.s, CountryCode) {
      var phone := e164Phone.s;
      if |phone| == 3 {
        assert phone == CountryCode;
        assert Utf16Length(phone) == 3 by {
          assert phone[..2] == "+9" && phone[..1] == "+" && phone[..0] == "";
        }
      } else {
        assert phone == phone[..3] + phone[3..];
      }
    }
  }

  /** Formatting an already formatted number adds a second space: the
      function is not idempotent. */
  lemma FormatPhoneTwice(rest: string)
    requires rest != ""
    ensures FormatPhone(Str(FormatPhone(Str(CountryCode + rest)))) == CountryCode + "  " + rest
  {
    var once := CountryCode + rest;
    assert once[..3] == CountryCode && once[3..] == rest;
    FormatPhoneSpec(Str(once));
    var twice := CountryCode + " " + rest;
    assert FormatPhone(Str(once)) == twice;
    assert twice[..3] == CountryCode && twice[3..] == " " + rest;
    FormatPhoneSpec(Str(twice));
  }

  // ---------------------------------------------------------------------------
  // Currency
  // ---------------------------------------------------------------------------

  /** What `formatCurrency` shows for a value that is not a number. */
  const ZeroRupees := "₹0.00"

  /** `formatCurrency(amount)`: the guard in front of the locale formatter,
      which is the parameter `intlFormat`. */
  function FormatCurrency(amount: Value, intlFormat: int -> string): (r: string)
    ensures !amount.Num? ==> r == ZeroRupees
    ensures amount.Num? ==> r == intlFormat(amount.n)
  {
    if TypeOf(amount) != "number" then ZeroRupees else intlFormat(amount.n)
  }

  // ---------------------------------------------------------------------------
  // Relative time
  // ---------------------------------------------------------------------------

  /** A unit of `formatRelativeTime` and its length in seconds. */
  datatype Unit = Unit(name: string, seconds: nat)

  /** The units, largest first (a month is 30 days, a year 365). */
  const Units: seq<Unit> := [
    Unit("year", 31536000), Unit("month", 2592000), Unit("week", 604800),
    Unit("day", 86400), Unit("hour", 3600), Unit("minute", 60)
  ]

  /** A relative time before it is written out. */
  datatype Relative = JustNow | InUnit(count: int, unit: string) | InSeconds(count: int)

  /** `n unit(s) ago`, plural above 1, or `n seconds ago`. */
  function Render(rel: Relative): string {
    match rel
    case JustNow => "just now"
    case InUnit(count, unit) => IntToString(count) + " " + unit + (if count > 1 then "s" else "") + " ago"
    case InSeconds(count) => IntToString(count) + " seconds ago"
  }

  /** The loop over the units from `units` on: the first whose whole count
      in `diff` is at least 1, else seconds. */
  function FirstUnit(diff: int, units: seq<Unit>): (rel: Relative)
    requires diff >= 5 && forall i :: 0 <= i < |units| ==> units[i].seconds > 0
    ensures rel != JustNow && rel.count >= 1
    ensures rel.InSeconds? <==> forall i :: 0 <= i < |units| ==> diff < units[i].seconds
    ensures rel.InSeconds? ==> rel.count == diff
  {
    if |units| == 0 then InSeconds(diff)
    else if diff / units[0].seconds >= 1 then InUnit(diff / units[0].seconds, units[0].name)
    else FirstUnit(diff, units[1..])
  }

  /** The difference in whole seconds between two instants in milliseconds
      (`Math.floor((now - date) / 1000)`; Dafny's division by a positive
      number rounds down like `Math.floor`). */
  function DiffInSeconds(now: int, date: int): int {
    (now - date) / 1000
  }

  /** `formatRelativeTime(date)` at the instant `now`; `None` is a value
      that is not a valid date. */
  function RelativeTime(date: Option<int>, now: int): (r: Option<Relative>)
    ensures date.None? <==> r.None?
  {
    if date.None? then None
    else
      var diff := DiffInSeconds(now, date.value);
      if diff < 5 then Some(JustNow) else Some(FirstUnit(diff, Units))
  }

  /** The text `formatRelativeTime` returns: '' for an invalid date. */
  function FormatRelativeTime(date: Option<int>, now: int): string {
    match RelativeTime(date, now)
    case None => ""
    case Some(rel) => Render(rel)
  }

  /** The index of the unit `FirstUnit` picks: the first unit that fits
      into the difference, or `|units|` when none does. */
  function FirstFit(diff: int, units: seq<Unit>): (k: nat)
    requires forall i :: 0 <= i < |units| ==> units[i].seconds > 0
    ensures k <= |units|
    ensures forall j :: 0 <= j < k ==> diff < units[j].seconds
    ensures k < |units| ==> units[k].seconds <= diff
  {
    if |units| == 0 || units[0].seconds <= diff then 0
    else 1 + FirstFit(diff, units[1..])
  }

  /** The unit chosen is the largest one that fits at least once into the
      difference, and the count is how many whole times it fits. */
  lemma {:induction false} FirstUnitLargest(diff: int, units: seq<Unit>)
    requires diff >= 5 && forall i :: 0 <= i < |units| ==> units[i].seconds > 0
    ensures var k := FirstFit(diff, units); var rel := FirstUnit(diff, units);
      && (rel.InUnit? <==> k < |units|)
      && (rel.InUnit? ==> rel.unit == units[k].name && rel.count == diff / units[k].seconds)
    decreases |units|
  {
    if |units| > 0 {
      assert diff / units[0].seconds >= 1 <==> units[0].seconds <= diff;
      if diff < units[0].seconds {
        FirstUnitLargest(diff, units[1..]);
      }
    }
  }

  /** Under five seconds a valid date is "just now"; from five seconds to a
      minute the count is in seconds; otherwise it is in the largest unit
      that fits. An invalid date gives the empty text. */
  lemma RelativeTimeSpec(date: Option<int>, now: int)
    ensures date.None? ==> FormatRelativeTime(date, now) == ""
    ensures date.Some? ==>
      var diff := DiffInSeconds(now, date.value);
      && (diff < 5 ==> FormatRelativeTime(date, now) == "just now")
      && (5 <= diff < 60 ==> FormatRelativeTime(date, now) == IntToString(diff) + " seconds ago")
      && (diff >= 60 ==>
            var k := FirstFit(diff, Units);
            && k < |Units| && Units[k].seconds <= diff
            && (forall j :: 0 <= j < k ==> diff < Units[j].seconds)
            && FormatRelativeTime(date, now) == Render(InUnit(diff / Units[k].seconds, Units[k].name)))
  {
    if date.Some? {
      var diff := DiffInSeconds(now, date.value);
      if diff >= 5 {
        var rel := FirstUnit(diff, Units);
        if diff < 60 {
          assert forall i :: 0 <= i < |Units| ==> diff < Units[i].seconds;
        } else {
          assert Units[5].seconds <= diff;
          FirstUnitLargest(diff, Units);
        }
      }
    }
  }
}
