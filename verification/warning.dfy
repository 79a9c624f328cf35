/** Line diagnostics (warning.go). */
module Diagnostics {

  /** `LowSeverity`: a plausible line with an anomaly; `HighSeverity`: a line
      that could not be trusted. */
  datatype Severity = Low | High {
    /** The numeric value Go's `iota` gives each level. */
    function Level(): (n: int)
      ensures 2 <= n <= 3
      ensures (n == 3) == High?
    {
      match this
      case Low => 2
      case High => 3
    }
  }

  /** A warning: the 1-based line index, the original line text, the reason
      and its severity. */
  datatype Warning = Warning(index: int, text: string, message: string, level: Severity)
}
