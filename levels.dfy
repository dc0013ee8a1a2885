/** The closed set of severities and their display names (`LogLevel`, `log_level_to_string`). */
module Levels {
  import opened Wrappers

  datatype LogLevel = INFO | DEBUG | ERROR

  /** The display name printed in every log line. */
  function LevelName(level: LogLevel): (name: string)
    ensures name == "INFO" || name == "DEBUG" || name == "ERROR"
    ensures ' ' !in name
  {
    match level
    case INFO => "INFO"
    case DEBUG => "DEBUG"
    case ERROR => "ERROR"
  }

  /** Reads a display name back; any other text is rejected. */
  function ParseLevel(name: string): (r: Option<LogLevel>)
    ensures r.Some? ==> LevelName(r.value) == name
  {
    if name == "INFO" then Some(INFO)
    else if name == "DEBUG" then Some(DEBUG)
    else if name == "ERROR" then Some(ERROR)
    else None
  }

  /** The three names are pairwise distinct, so the name identifies the level. */
  lemma LevelNameInjective(a: LogLevel, b: LogLevel)
    ensures LevelName(a) == LevelName(b) <==> a == b
  {
  }

  /** Every level's name parses back to that level. */
  lemma ParseLevelName(level: LogLevel)
    ensures ParseLevel(LevelName(level)) == Some(level)
  {
  }
}
