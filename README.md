# Synchronous in-process logger, modelled in Dafny

The repository is a single C++ file, `logger/main.cpp`, holding a small logger: a log
call names a level, a message, a source file and a line number; `LogFormatter::format`
turns it into one text line (timestamp, line number, level name, message); and the
process-wide `Logger` hands that line to its one `ConsoleAppender`, which writes it to
standard output. A `FileAppender` exists too, but its file stream is never opened, so it
writes nothing.

The Dafny project models that pipeline:

- `levels.dfy` — `LogLevel` and `log_level_to_string` (`Levels.LevelName`).
- `decimal.dfy` — `std::to_string(int)` for the line number (`Decimal.IntToString`, with
  the 32-bit C++ `int` as `Decimal.Int32`) and the zero-padded fields of `std::format`.
- `timestamps.dfy` — the `"{:%Y-%m-%d %H:%M:%S}"` rendering of a clock reading, given as
  calendar fields.
- `formatter.dfy` — `LogFormatter::format` as the function `Formatter.FormatLine`, with
  the clock reading as a parameter.
- `appenders.dfy` — `ConsoleAppender` and `FileAppender` as classes whose output is a
  `seq<string>` of lines they were given; `Text()` gives the characters those lines make
  on the stream, each followed by the `endl` terminator.
- `logger.dfy` — `Logger` as a class holding its one console appender, and `Logger::log`
  as a method that formats once and appends to that appender.
- `text.dfy`, `wrappers.dfy` — a first-separator split and an `Option` type.

Every rendering has an inverse beside it, written for the proofs and not part of the
C++ code: `Decimal.ParseInt`, `Timestamps.ParseTimestamp`, `Formatter.ParseLine` and
`Appenders.SplitLines`. The round-trip lemmas show that a formatted line loses nothing
but the ignored file name, and that console output reads back line by line as long as
no message holds a newline.

The code is simpler than a full logger design, and the model follows the code:

- Fields are separated by single spaces (`logger/main.cpp:64`). No field is padded to a
  column width.
- The logger has exactly one appender, a `ConsoleAppender` made in the constructor
  (`logger/main.cpp:83-85`). There is no `addAppender`, no appender list and no mutex.
- `FileAppender` never opens its file and raises no open-failure error
  (`logger/main.cpp:42-51`). Its only flush, the `endl` at `logger/main.cpp:46`, is on
  that never-opened stream.
- The timestamp is not limited to whole seconds. In C++20 `std::format`, `%S` applied to
  a time point whose tick is finer than a second writes the seconds with the tick's
  fractional digits (`12:00:00.123456789` for a nanosecond `system_clock`). A
  `Timestamps.Timestamp` therefore carries `fraction` and `precision` (the number of
  sub-second digits). With `precision == 0` the timestamp is exactly
  `YYYY-MM-DD HH:MM:SS`; otherwise `.` and `precision` digits follow. A clock that ticks
  in whole seconds is hypothetical for `system_clock`; `Logging.HelloWorldLine` uses one
  only to show the bare layout, and `Logging.HelloWorldLineNanosecond` shows the same call
  on a nanosecond clock.

## Model

| member | source | states |
|---|---|---|
| Levels.LevelName | logger/main.cpp:18-27 | each level's display name is one of "INFO", "DEBUG", "ERROR" and contains no space |
| Levels.LevelNameInjective | logger/main.cpp:18-27 | two levels have the same name exactly when they are the same level (the three names are pairwise distinct) |
| Levels.ParseLevelName | logger/main.cpp:12-27 | every level's display name reads back as that level |
| Decimal.NatDigits | logger/main.cpp:64 | the decimal digits of a line-number magnitude are non-empty, all digits, without a leading zero unless the number is 0, one digit exactly for numbers below 10 |
| Decimal.IntToString | logger/main.cpp:64 | `to_string(line)` starts with '-' exactly when the line is negative and is digits otherwise |
| Decimal.ParseNatDigits | logger/main.cpp:64 | reading the rendered digits gives back the number |
| Decimal.IntToStringRoundTrip | logger/main.cpp:64 | reading `to_string(line)` back gives the original 32-bit line number, negative ones included |
| Decimal.PadDigits | logger/main.cpp:63 | a `%Y`/`%m`/`%d`/`%H`/`%M`/`%S` field is all digits and at least its width long (and, by `Decimal.PadDigitsRoundTrip`, reads back as its value) |
| Decimal.PadDigitsRoundTrip | logger/main.cpp:63 | a zero-padded calendar field is at least its width long, exactly its width when the value fits, and reads back as the value |
| Timestamps.RenderDate | logger/main.cpp:63 | `%Y-%m-%d` is at least 10 characters, each a digit or '-' |
| Timestamps.RenderFraction | logger/main.cpp:63 | the sub-second part of `%S` is empty exactly for a whole-second clock, and otherwise '.' followed by at least `precision` digits |
| Timestamps.RenderTime | logger/main.cpp:63 | `%H:%M:%S` is at least 8 characters, each a digit, ':' or '.' |
| Timestamps.Render | logger/main.cpp:63 | the timestamp is at least 19 characters and its only space is the one between date and time |
| Timestamps.TimestampRoundTrip | logger/main.cpp:63 | the rendered `%Y-%m-%d` and `%H:%M:%S` read back as the same clock reading, sub-second digits included |
| Timestamps.RenderHasNoSpaces | logger/main.cpp:63 | neither the rendered date nor the rendered time holds a space |
| Timestamps.DateShape | logger/main.cpp:63 | for years up to 9999 the date is `YYYY-MM-DD`: 10 characters, '-' at 4 and 7, digits elsewhere |
| Timestamps.TimeShape | logger/main.cpp:63 | the time is `HH:MM:SS` with ':' at 2 and 5, then the sub-second part ('.' and `precision` digits, or nothing) |
| Timestamps.RenderShape | logger/main.cpp:63 | the timestamp is 19 characters `YYYY-MM-DD HH:MM:SS` ('-' at 4 and 7, ' ' at 10, ':' at 13 and 16, digits elsewhere), then the sub-second part |
| Formatter.FormatLine | logger/main.cpp:61-64 | the line is exactly as long as timestamp, line number, level name and message plus three separators, so no field is padded (its layout and inverse are `Formatter.FormatLayout` and `Formatter.FormatRoundTrip`) |
| Formatter.FormatLayout | logger/main.cpp:61-64 | cutting the line at its first four spaces gives exactly the rendered date, time, decimal line number, level name and message: single spaces, no padding |
| Formatter.FormatIgnoresFile | logger/main.cpp:61-64 | two calls that differ only in the file argument give the same line |
| Formatter.FormatEndsWithMessage | logger/main.cpp:64 | the message is the verbatim suffix of the line, after a space, whatever it holds (empty, spaces, newlines) |
| Formatter.SplitFieldsJoin | logger/main.cpp:64 | fields free of spaces, joined by single spaces ahead of the message, are cut apart again at the first four spaces |
| Formatter.FormatRoundTrip | logger/main.cpp:59-66 | parsing a formatted line gives back the clock reading, line number, level and message |
| Formatter.FormatInjective | logger/main.cpp:59-66 | two formatted lines are equal only when reading, line number, level and message all agree |
| Appenders.Joined | logger/main.cpp:38 | the stream text is empty exactly when no line was written, and otherwise ends with the `endl` terminator |
| Appenders.JoinedAppend | logger/main.cpp:37-39 | writing one more line adds that line and one terminator at the end of the stream text |
| Appenders.SplitJoinedLines | logger/main.cpp:38 | stream text of newline-free lines reads back as exactly those lines, in order |
| Appenders.EmbeddedNewlineSplitsRecord | logger/main.cpp:38 | for any message made of two newline-free parts joined by a newline, the stream text equals that of two separate lines and reads back as two lines |
| Appenders.ConsoleAppender.constructor | logger/main.cpp:35-40 | a new console appender has written nothing |
| Appenders.ConsoleAppender.Log | logger/main.cpp:37-39 | one call appends exactly the given line, earlier lines unchanged, and the stream text grows by the line and a newline |
| Appenders.FileWrite | logger/main.cpp:44-48 | one `FileAppender::log` leaves all earlier lines in place and adds one line, the message, exactly when the stream is open |
| Appenders.FileAppender.constructor | logger/main.cpp:49-50 | a new file appender's stream is closed and its file is empty |
| Appenders.FileAppender.Log | logger/main.cpp:44-48 | the file becomes `FileWrite` of the old contents: the line is appended only when the stream is open, and a closed stream (the only state the constructor makes and no call changes) leaves the file unchanged |
| Logging.Logger.constructor | logger/main.cpp:83-85 | a new logger owns one fresh console appender that has written nothing |
| Logging.Logger.Log | logger/main.cpp:75-78 | one call appends exactly the formatted line to the console, earlier lines unchanged, and that line reads back as the call's reading, line number, level and message |
| Logging.HelloWorldLine | logger/main.cpp:88-92 | the demonstration call at line 90 on 2024-01-01 12:00:00, on a hypothetical whole-second clock, gives `2024-01-01 12:00:00 90 INFO Hello World!!` |
| Logging.HelloWorldLineNanosecond | logger/main.cpp:88-92 | the same call on a nanosecond clock at the same instant gives `2024-01-01 12:00:00.000000000 90 INFO Hello World!!` |

## Left out

- Reading the wall clock (`system_clock::now`) and converting the epoch time to UTC
  calendar fields: the reading is a parameter, already broken into fields.
- Years before year 0: `Timestamp.year` is a natural number, since a `system_clock`
  reading cannot reach them.
- Real I/O: `cout`, `endl` and `std::ofstream` are modelled as sequences of lines. The
  flush that `endl` performs on `cout` has no visible effect in the model.
- The singleton mechanics of `Logger::getInstance` (function-local static, deleted copy
  constructor and assignment, private destructor): one `Logger` object stands for the
  instance.
- The `LOG_INFO` macro's capture of `__FILE__` and `__LINE__`: file and line are
  parameters.
- Virtual dispatch through `IAppender` and `Iformatter`: the concrete classes are used
  directly. `LogFormatter` has no state, so it is the function `Formatter.FormatLine`,
  and the `Logger` class holds no formatter field.
- `log_level_to_string` falling off the end of its switch for a value outside the enum:
  the datatype has exactly the three levels, so that case cannot arise.
- `main`'s return code: only the line its `LOG_INFO` call formats is modelled.
- Concurrency, multiple appenders, field padding and open-failure errors: the code has
  none of them. The only flush of the file, the `endl` at `logger/main.cpp:46`, is on a
  stream that is never open.
