/** The `LogEntry` record of src/lib/logger.ts and the values it carries. */
module Entries {
  import opened Levels

  /** A point in time as a `Date` holds it: milliseconds since the epoch. */
  type Time = nat

  /** The JavaScript values an `unknown` payload can be. Numbers are integers here
      (no NaN, no -0) and objects are known only by their identity. `Undefined` is
      also what an omitted `data` argument is. */
  datatype Payload =
    | Undefined
    | Null
    | Bool(b: bool)
    | Num(n: int)
    | Str(s: string)
    | Obj(id: nat)

  /** JavaScript falsiness: the values for which `data || ''` yields `''`. */
  predicate IsFalsy(p: Payload) {
    match p
    case Undefined => true
    case Null => true
    case Bool(b) => !b
    case Num(n) => n == 0
    case Str(s) => s == ""
    case Obj(_) => false
  }

  datatype LogEntry = LogEntry(level: LogLevel, message: string, timestamp: Time, data: Payload)

  /** Entries in nondecreasing timestamp order. */
  ghost predicate Chronological(entries: seq<LogEntry>) {
    forall i, j :: 0 <= i < j < |entries| ==> entries[i].timestamp <= entries[j].timestamp
  }
}
