/**
 * `LogFormatter::format`: one log call becomes one line, the timestamp, the line number,
 * the level name and the message, separated by single spaces. The clock reading is a
 * parameter; the source file name is accepted and ignored.
 */
module Formatter {
  import opened Wrappers
  import opened Levels
  import opened Decimal
  import opened Text
  import opened Timestamps

  /** The line as `LogFormatter::format` composes it. */
  function FormatLine(level: LogLevel, msg: string, file: string, line: Int32, now: Timestamp): (r: string)
    // No field is padded: the line is as long as its four fields and three separators.
    ensures |r| == |Render(now)| + |IntToString(line)| + |LevelName(level)| + |msg| + 3
  {
    Render(now) + " " + IntToString(line) + " " + LevelName(level) + " " + msg
  }

  /** What a formatted line records: everything the caller passed except the file name. */
  datatype Entry = Entry(time: Timestamp, line: int, level: LogLevel, message: string)

  /** Cuts a line at its first four spaces: date, time, line number, level name and message. */
  function SplitFields(s: string): Option<(string, string, string, string, string)> {
    var dateRest :- SplitAt(s, ' ');
    var timeRest :- SplitAt(dateRest.1, ' ');
    var numberRest :- SplitAt(timeRest.1, ' ');
    var levelRest :- SplitAt(numberRest.1, ' ');
    Some((dateRest.0, timeRest.0, numberRest.0, levelRest.0, levelRest.1))
  }

  /** Reads a formatted line back; the message is everything after the fourth space. */
  function ParseLine(s: string): Option<Entry> {
    var fields :- SplitFields(s);
    var time :- ParseTimestamp(fields.0, fields.1);
    var line :- ParseInt(fields.2);
    var level :- ParseLevel(fields.3);
    Some(Entry(time, line, level, fields.4))
  }

  /**
   * The layout: cutting the line at its first four spaces gives the date, the time, the
   * decimal line number, the level name and the message, each exactly as rendered, so the
   * fields are separated by single spaces and none is padded.
   */
  lemma FormatLayout(level: LogLevel, msg: string, file: string, line: Int32, now: Timestamp)
    ensures SplitFields(FormatLine(level, msg, file, line, now)) ==
      Some((RenderDate(now), RenderTime(now), IntToString(line), LevelName(level), msg))
  {
    var date, time, number, name := RenderDate(now), RenderTime(now), IntToString(line), LevelName(level);
    RenderHasNoSpaces(now);
    assert ' ' !in number by {
      assert forall i :: 0 <= i < |number| ==> number[i] == '-' || IsDigit(number[i]);
    }
    assert FormatLine(level, msg, file, line, now) == date + " " + time + " " + number + " " + name + " " + msg;
    SplitFieldsJoin(date, time, number, name, msg);
  }

  /** The file argument does not reach the output. */
  lemma FormatIgnoresFile(level: LogLevel, msg: string, file1: string, file2: string, line: Int32, now: Timestamp)
    ensures FormatLine(level, msg, file1, line, now) == FormatLine(level, msg, file2, line, now)
  {
  }

  /** The message is the verbatim suffix of the line, empty or multi-line as it may be. */
  lemma FormatEndsWithMessage(level: LogLevel, msg: string, file: string, line: Int32, now: Timestamp)
    ensures var r := FormatLine(level, msg, file, line, now);
      |r| > |msg| && r[|r| - |msg|..] == msg && r[|r| - |msg| - 1] == ' '
  {
    var r := FormatLine(level, msg, file, line, now);
    var head := Render(now) + " " + IntToString(line) + " " + LevelName(level) + " ";
    assert r == head + msg;
  }

  /** Four fields free of spaces, joined by single spaces ahead of any message, are cut apart again. */
  lemma SplitFieldsJoin(date: string, time: string, number: string, name: string, msg: string)
    requires ' ' !in date && ' ' !in time && ' ' !in number && ' ' !in name
    ensures SplitFields(date + " " + time + " " + number + " " + name + " " + msg) ==
      Some((date, time, number, name, msg))
  {
    var s := date + " " + time + " " + number + " " + name + " " + msg;
    assert s == date + [' '] + (time + [' '] + (number + [' '] + (name + [' '] + msg)));
    SplitAtJoin(date, ' ', time + [' '] + (number + [' '] + (name + [' '] + msg)));
    SplitAtJoin(time, ' ', number + [' '] + (name + [' '] + msg));
    SplitAtJoin(number, ' ', name + [' '] + msg);
    SplitAtJoin(name, ' ', msg);
  }

  /**
   * Parsing a formatted line recovers the clock reading, line number, level and message,
   * whatever the message holds (spaces and newlines included).
   */
  lemma FormatRoundTrip(level: LogLevel, msg: string, file: string, line: Int32, now: Timestamp)
    requires WellFormed(now)
    ensures ParseLine(FormatLine(level, msg, file, line, now)) == Some(Entry(now, line as int, level, msg))
  {
    FormatLayout(level, msg, file, line, now);
    TimestampRoundTrip(now);
    IntToStringRoundTrip(line);
    ParseLevelName(level);
  }

  /**
   * Two calls with well-formed clock readings give the same line only when they agree on
   * reading, line number, level and message: the format loses nothing but the file name.
   */
  lemma FormatInjective(
    level1: LogLevel, msg1: string, file1: string, line1: Int32, now1: Timestamp,
    level2: LogLevel, msg2: string, file2: string, line2: Int32, now2: Timestamp)
    requires WellFormed(now1) && WellFormed(now2)
    requires FormatLine(level1, msg1, file1, line1, now1) == FormatLine(level2, msg2, file2, line2, now2)
    ensures level1 == level2 && msg1 == msg2 && line1 == line2 && now1 == now2
  {
    FormatRoundTrip(level1, msg1, file1, line1, now1);
    FormatRoundTrip(level2, msg2, file2, line2, now2);
  }
}
