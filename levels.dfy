/** The `LogLevel` enum of src/lib/logger.ts: four severities with the numeric values
    0 to 3, in ascending order of severity. As a TypeScript numeric enum it also
    maps each value back to its member's name (`LogLevel[level]`) and each name to
    its value (`LogLevel["WARN"]`). */
module Levels {
  import opened Wrappers

  datatype LogLevel = DEBUG | INFO | WARN | ERROR

  /** The numeric value the enum declares for a member. */
  function Value(level: LogLevel): (v: nat)
    ensures FromValue(v) == Some(level)
  {
    match level
    case DEBUG => 0
    case INFO => 1
    case WARN => 2
    case ERROR => 3
  }

  /** The member that has numeric value `n`, if there is one. */
  function FromValue(n: int): (r: Option<LogLevel>)
    ensures r.Some? <==> 0 <= n < 4
  {
    if n == 0 then Some(DEBUG)
    else if n == 1 then Some(INFO)
    else if n == 2 then Some(WARN)
    else if n == 3 then Some(ERROR)
    else None
  }

  /** Severity order: DEBUG < INFO < WARN < ERROR. */
  predicate Below(a: LogLevel, b: LogLevel) {
    Value(a) < Value(b)
  }

  /** The member's name, `LogLevel[level]` (the enum's reverse mapping). */
  function Name(level: LogLevel): (name: string)
    ensures FromName(name) == Some(level)
    ensures ']' !in name
  {
    match level
    case DEBUG => "DEBUG"
    case INFO => "INFO"
    case WARN => "WARN"
    case ERROR => "ERROR"
  }

  /** The member a name denotes, `LogLevel[name]`, if it names one. */
  function FromName(name: string): Option<LogLevel> {
    if name == "DEBUG" then Some(DEBUG)
    else if name == "INFO" then Some(INFO)
    else if name == "WARN" then Some(WARN)
    else if name == "ERROR" then Some(ERROR)
    else None
  }

  /** Value and FromValue are inverse: every in-range number names exactly one
      member, and the order of the values is the declared order. */
  lemma ValueBijective(n: int)
    ensures FromValue(n).Some? ==> Value(FromValue(n).value) == n
    ensures Below(DEBUG, INFO) && Below(INFO, WARN) && Below(WARN, ERROR)
  {
  }

  /** Name and FromName are inverse: a name is accepted only when it is exactly
      some member's name. */
  lemma NameBijective(name: string)
    ensures FromName(name).Some? ==> Name(FromName(name).value) == name
  {
  }
}
