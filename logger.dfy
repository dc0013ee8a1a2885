/**
 * `Logger`: formats each call once and hands the line to its single console sink, fixed at
 * construction. The clock reading that `LogFormatter::format` takes is a parameter.
 */
module Logging {
  import opened Wrappers
  import opened Levels
  import opened Decimal
  import opened Timestamps
  import opened Formatter
  import opened Appenders

  class Logger {
    /** The one sink, created with the logger and never replaced. */
    const appender: ConsoleAppender

    constructor ()
      ensures fresh(appender) && appender.lines == []
    {
      appender := new ConsoleAppender();
    }

    /**
     * One call adds exactly one line, the formatted one, after all earlier lines; the line
     * reads back as the call's clock reading, line number, level and message.
     */
    method Log(level: LogLevel, msg: string, file: string, line: Int32, now: Timestamp)
      modifies appender
      ensures appender.lines == old(appender.lines) + [FormatLine(level, msg, file, line, now)]
      ensures WellFormed(now) ==>
        ParseLine(appender.lines[|appender.lines| - 1]) == Some(Entry(now, line as int, level, msg))
    {
      var formatted := FormatLine(level, msg, file, line, now);
      appender.Log(formatted);
      if WellFormed(now) {
        FormatRoundTrip(level, msg, file, line, now);
      }
    }
  }

  /**
   * The demonstration call, `LOG_INFO("Hello World!!")`, at a hypothetical clock that
   * ticks in whole seconds.
   */
  lemma HelloWorldLine()
    ensures FormatLine(INFO, "Hello World!!", "main.cpp", 90, Timestamp(2024, 1, 1, 12, 0, 0, 0, 0)) ==
      "2024-01-01 12:00:00 90 INFO Hello World!!"
  {
    DemoTimestamp();
    assert IntToString(90) == "90" by {
      assert NatDigits(9) == "9";
    }
  }

  /**
   * The same call on a nanosecond `system_clock`, at the same instant: `%S` writes the
   * nine sub-second digits.
   */
  lemma HelloWorldLineNanosecond()
    ensures FormatLine(INFO, "Hello World!!", "main.cpp", 90, Timestamp(2024, 1, 1, 12, 0, 0, 0, 9)) ==
      "2024-01-01 12:00:00.000000000 90 INFO Hello World!!"
  {
    DemoNanosecondTimestamp();
    assert IntToString(90) == "90" by {
      assert NatDigits(9) == "9";
    }
  }

  lemma DemoNanosecondTimestamp()
    ensures Render(Timestamp(2024, 1, 1, 12, 0, 0, 0, 9)) == "2024-01-01 12:00:00.000000000"
  {
    DemoDate(Timestamp(2024, 1, 1, 12, 0, 0, 0, 9));
    DemoNanosecondTime();
  }

  lemma DemoNanosecondTime()
    ensures RenderTime(Timestamp(2024, 1, 1, 12, 0, 0, 0, 9)) == "12:00:00.000000000"
  {
    DemoFields();
    DemoNanoseconds();
    assert RenderFraction(Timestamp(2024, 1, 1, 12, 0, 0, 0, 9)) == ".000000000";
  }

  lemma DemoDate(t: Timestamp)
    requires t.year == 2024 && t.month == 1 && t.day == 1
    ensures RenderDate(t) == "2024-01-01"
  {
    DemoFields();
  }

  lemma DemoNanoseconds()
    ensures PadDigits(0, 9) == "000000000"
  {
    assert NatDigits(0) == "0" && Zeros(8) == "00000000";
  }

  lemma DemoTimestamp()
    ensures Render(Timestamp(2024, 1, 1, 12, 0, 0, 0, 0)) == "2024-01-01 12:00:00"
  {
    DemoFields();
    var t := Timestamp(2024, 1, 1, 12, 0, 0, 0, 0);
    assert RenderDate(t) == "2024-01-01";
    assert RenderTime(t) == "12:00:00";
  }

  lemma DemoFields()
    ensures PadDigits(2024, 4) == "2024" && PadDigits(1, 2) == "01"
    ensures PadDigits(0, 2) == "00" && PadDigits(12, 2) == "12"
  {
    assert PadDigits(2024, 4) == "2024" by {
      assert NatDigits(2) == "2" && NatDigits(20) == "20" && NatDigits(202) == "202";
    }
    assert PadDigits(1, 2) == "01" by {
      assert NatDigits(1) == "1" && Zeros(1) == "0";
    }
    assert PadDigits(0, 2) == "00" by {
      assert NatDigits(0) == "0" && Zeros(1) == "0";
    }
    assert PadDigits(12, 2) == "12" by {
      assert NatDigits(1) == "1";
    }
  }
}
