/**
 * The timestamp written at the head of each line: `std::format("{:%Y-%m-%d %H:%M:%S}", now)`
 * applied to a `system_clock` reading. The clock itself is not modelled; its reading arrives
 * as calendar fields. Because `%S` on a time point finer than one second writes the
 * sub-second digits too, a reading also carries the clock's fractional digits.
 */
module Timestamps {
  import opened Wrappers
  import opened Decimal
  import opened Text

  /**
   * A clock reading broken into calendar fields (UTC). `precision` is the number of
   * decimal digits of the clock's tick below one second (0 for a clock that ticks in whole
   * seconds, 9 for a nanosecond clock) and `fraction` the sub-second count in those ticks.
   */
  datatype Timestamp = Timestamp(
    year: nat, month: nat, day: nat,
    hour: nat, minute: nat, second: nat,
    fraction: nat, precision: nat)

  /** A reading the clock can produce: the sub-second count fits in its digits. */
  predicate WellFormed(t: Timestamp) {
    t.fraction < Pow10(t.precision)
  }

  /** Calendar fields within their usual ranges, and a four-digit year. */
  predicate InCalendarRange(t: Timestamp) {
    t.year <= 9999 && 1 <= t.month <= 12 && 1 <= t.day <= 31 &&
    t.hour <= 23 && t.minute <= 59 && t.second <= 59
  }

  /** `%Y-%m-%d` */
  function RenderDate(t: Timestamp): (r: string)
    ensures |r| >= 10
    ensures forall i :: 0 <= i < |r| ==> IsDigit(r[i]) || r[i] == '-'
  {
    PadDigits(t.year, 4) + "-" + PadDigits(t.month, 2) + "-" + PadDigits(t.day, 2)
  }

  /** The sub-second part that `%S` appends: nothing, or '.' and `precision` digits. */
  function RenderFraction(t: Timestamp): (r: string)
    ensures r == [] <==> t.precision == 0
    ensures r != [] ==> r[0] == '.' && |r| >= 1 + t.precision && AllDigits(r[1..])
  {
    if t.precision == 0 then "" else "." + PadDigits(t.fraction, t.precision)
  }

  /** `%H:%M:%S` */
  function RenderTime(t: Timestamp): (r: string)
    ensures |r| >= 8
    ensures forall i :: 0 <= i < |r| ==> IsDigit(r[i]) || r[i] == ':' || r[i] == '.'
  {
    PadDigits(t.hour, 2) + ":" + PadDigits(t.minute, 2) + ":" + PadDigits(t.second, 2) + RenderFraction(t)
  }

  /** `%Y-%m-%d %H:%M:%S` */
  function Render(t: Timestamp): (r: string)
    // The one space in the timestamp is the one between the date and the time.
    ensures |r| >= 19
    ensures forall i :: 0 <= i < |r| ==> (r[i] == ' ' <==> i == |RenderDate(t)|)
  {
    var date, time := RenderDate(t), RenderTime(t);
    var r := date + " " + time;
    assert forall i :: 0 <= i < |date| ==> r[i] == date[i];
    assert forall i :: |date| < i < |r| ==> r[i] == time[i - |date| - 1];
    r
  }

  /** Reads `%Y-%m-%d` back into year, month and day. */
  function ParseDate(date: string): Option<(nat, nat, nat)> {
    var yearRest :- SplitAt(date, '-');
    var monthDay :- SplitAt(yearRest.1, '-');
    var year :- ParseField(yearRest.0);
    var month :- ParseField(monthDay.0);
    var day :- ParseField(monthDay.1);
    Some((year, month, day))
  }

  /** Reads the seconds field of `%S` back: the whole seconds, the sub-second count and its digits. */
  function ParseSeconds(text: string): Option<(nat, nat, nat)> {
    match SplitAt(text, '.')
    case None =>
      var second :- ParseField(text);
      Some((second, 0, 0))
    case Some(secondFraction) =>
      var second :- ParseField(secondFraction.0);
      var fraction :- ParseField(secondFraction.1);
      Some((second, fraction, |secondFraction.1|))
  }

  /** Reads `%H:%M:%S` back into hour, minute and the seconds fields. */
  function ParseTime(time: string): Option<(nat, nat, (nat, nat, nat))> {
    var hourRest :- SplitAt(time, ':');
    var minuteRest :- SplitAt(hourRest.1, ':');
    var hour :- ParseField(hourRest.0);
    var minute :- ParseField(minuteRest.0);
    var seconds :- ParseSeconds(minuteRest.1);
    Some((hour, minute, seconds))
  }

  /** Reads `%Y-%m-%d` and `%H:%M:%S` back into a clock reading. */
  function ParseTimestamp(date: string, time: string): Option<Timestamp> {
    var ymd :- ParseDate(date);
    var hms :- ParseTime(time);
    Some(Timestamp(ymd.0, ymd.1, ymd.2, hms.0, hms.1, hms.2.0, hms.2.1, hms.2.2))
  }

  lemma NoSeparatorInDigits(s: string, sep: char)
    requires AllDigits(s) && !IsDigit(sep)
    ensures sep !in s
  {
  }

  /** Neither rendered half contains a space, so the line's separators can be found again. */
  lemma RenderHasNoSpaces(t: Timestamp)
    ensures ' ' !in RenderDate(t) && ' ' !in RenderTime(t)
  {
    var date, time := RenderDate(t), RenderTime(t);
    assert forall i :: 0 <= i < |date| ==> IsDigit(date[i]) || date[i] == '-';
    assert forall i :: 0 <= i < |time| ==> IsDigit(time[i]) || time[i] == ':' || time[i] == '.';
  }

  lemma DateRoundTrip(t: Timestamp)
    ensures ParseDate(RenderDate(t)) == Some((t.year, t.month, t.day))
  {
    var yy, mm, dd := PadDigits(t.year, 4), PadDigits(t.month, 2), PadDigits(t.day, 2);
    NoSeparatorInDigits(yy, '-');
    NoSeparatorInDigits(mm, '-');
    assert RenderDate(t) == yy + ['-'] + (mm + ['-'] + dd);
    SplitAtJoin(yy, '-', mm + ['-'] + dd);
    SplitAtJoin(mm, '-', dd);
    PadDigitsRoundTrip(t.year, 4);
    PadDigitsRoundTrip(t.month, 2);
    PadDigitsRoundTrip(t.day, 2);
  }

  lemma SecondsRoundTrip(t: Timestamp)
    requires WellFormed(t)
    ensures ParseSeconds(PadDigits(t.second, 2) + RenderFraction(t)) == Some((t.second, t.fraction, t.precision))
  {
    var ss := PadDigits(t.second, 2);
    PadDigitsRoundTrip(t.second, 2);
    NoSeparatorInDigits(ss, '.');
    if t.precision == 0 {
      assert ss + RenderFraction(t) == ss;
    } else {
      var digits := PadDigits(t.fraction, t.precision);
      PadDigitsRoundTrip(t.fraction, t.precision);
      assert ss + RenderFraction(t) == ss + ['.'] + digits;
      SplitAtJoin(ss, '.', digits);
    }
  }

  lemma TimeRoundTrip(t: Timestamp)
    requires WellFormed(t)
    ensures ParseTime(RenderTime(t)) == Some((t.hour, t.minute, (t.second, t.fraction, t.precision)))
  {
    var hh, mm, rest := PadDigits(t.hour, 2), PadDigits(t.minute, 2), PadDigits(t.second, 2) + RenderFraction(t);
    NoSeparatorInDigits(hh, ':');
    NoSeparatorInDigits(mm, ':');
    assert RenderTime(t) == hh + [':'] + (mm + [':'] + rest);
    SplitAtJoin(hh, ':', mm + [':'] + rest);
    SplitAtJoin(mm, ':', rest);
    PadDigitsRoundTrip(t.hour, 2);
    PadDigitsRoundTrip(t.minute, 2);
    SecondsRoundTrip(t);
  }

  /** Rendering and parsing are inverse: every clock reading is recovered from its text. */
  lemma TimestampRoundTrip(t: Timestamp)
    requires WellFormed(t)
    ensures ParseTimestamp(RenderDate(t), RenderTime(t)) == Some(t)
  {
    DateRoundTrip(t);
    TimeRoundTrip(t);
  }

  /** `%Y-%m-%d` of an in-range reading is `YYYY-MM-DD`. */
  lemma DateShape(t: Timestamp)
    requires InCalendarRange(t)
    ensures var d := RenderDate(t);
      |d| == 10 && d[4] == '-' && d[7] == '-' &&
      AllDigits(d[..4]) && AllDigits(d[5..7]) && AllDigits(d[8..])
  {
    assert Pow10(2) == 100 && Pow10(4) == 10000;
    PadDigitsRoundTrip(t.year, 4);
    PadDigitsRoundTrip(t.month, 2);
    PadDigitsRoundTrip(t.day, 2);
    var d := RenderDate(t);
    assert d[..4] == PadDigits(t.year, 4);
    assert d[5..7] == PadDigits(t.month, 2);
    assert d[8..] == PadDigits(t.day, 2);
  }

  /** `%H:%M:%S` of an in-range reading is `HH:MM:SS` followed by the sub-second part. */
  lemma TimeShape(t: Timestamp)
    requires InCalendarRange(t) && WellFormed(t)
    ensures var h := RenderTime(t);
      |h| == 8 + |RenderFraction(t)| && h[2] == ':' && h[5] == ':' &&
      AllDigits(h[..2]) && AllDigits(h[3..5]) && AllDigits(h[6..8]) &&
      h[8..] == RenderFraction(t)
    ensures |RenderFraction(t)| == if t.precision == 0 then 0 else 1 + t.precision
  {
    assert Pow10(2) == 100;
    PadDigitsRoundTrip(t.hour, 2);
    PadDigitsRoundTrip(t.minute, 2);
    PadDigitsRoundTrip(t.second, 2);
    if t.precision > 0 {
      PadDigitsRoundTrip(t.fraction, t.precision);
    }
    var h := RenderTime(t);
    assert h[..2] == PadDigits(t.hour, 2);
    assert h[3..5] == PadDigits(t.minute, 2);
    assert h[6..8] == PadDigits(t.second, 2);
  }

  /**
   * The rendered timestamp of an in-range reading is `YYYY-MM-DD HH:MM:SS`: 19 characters
   * with '-' at 4 and 7, ' ' at 10 and ':' at 13 and 16, then the sub-second part, which is
   * empty for a clock that ticks in whole seconds and otherwise '.' and `precision` digits.
   */
  lemma RenderShape(t: Timestamp)
    requires InCalendarRange(t) && WellFormed(t)
    ensures var r := Render(t);
      |r| == 19 + |RenderFraction(t)| &&
      r[4] == '-' && r[7] == '-' && r[10] == ' ' && r[13] == ':' && r[16] == ':' &&
      AllDigits(r[..4]) && AllDigits(r[5..7]) && AllDigits(r[8..10]) &&
      AllDigits(r[11..13]) && AllDigits(r[14..16]) && AllDigits(r[17..19]) &&
      r[19..] == RenderFraction(t)
    ensures |RenderFraction(t)| == if t.precision == 0 then 0 else 1 + t.precision
  {
    DateShape(t);
    TimeShape(t);
    var d, h, r := RenderDate(t), RenderTime(t), Render(t);
    assert r[..10] == d && r[11..] == h;
    assert r[..4] == d[..4] && r[5..7] == d[5..7] && r[8..10] == d[8..];
    assert r[11..13] == h[..2] && r[14..16] == h[3..5] && r[17..19] == h[6..8];
  }
}
