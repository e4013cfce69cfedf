/** The `Logger` class of src/lib/logger.ts: one process-wide object holding the
    bounded history, with an entry point per severity, a snapshot read and a clear.
    The console is the ghost trace `console` of the calls made on it; the clock
    (`new Date()`) is the `now` argument of each write; ISO-8601 rendering
    (`toISOString`) is the host's function `toIso`. */
module Logging {
  import opened Levels
  import opened Entries
  import opened Console
  import opened History

  /** The capacity every Logger is created with (`maxLogs = 1000`). */
  const MaxLogs: nat := 1000

  class Logger {
    var logs: seq<LogEntry>
    var maxLogs: nat
    const toIso: Time -> string
    ghost var console: seq<ConsoleCall>

    /** The history never exceeds the capacity, which stays at 1000. */
    ghost predicate Valid()
      reads this
    {
      maxLogs == MaxLogs && |logs| <= maxLogs
    }

    /** `private constructor() {}` with the field initialisers `logs = []` and
        `maxLogs = 1000`. */
    constructor (toIso: Time -> string)
      ensures Valid()
      ensures logs == [] && console == [] && this.toIso == toIso
    {
      logs := [];
      maxLogs := MaxLogs;
      this.toIso := toIso;
      console := [];
    }

    /** The private `log`: record the entry, trim to the newest `maxLogs`, and
        send the formatted line to the console method of the entry's level. */
    method Log(level: LogLevel, message: string, data: Payload, now: Time)
      requires Valid()
      modifies this
      ensures Valid() && maxLogs == old(maxLogs)
      ensures logs == Record(old(logs), LogEntry(level, message, now, data), maxLogs)
      ensures logs[|logs| - 1] == LogEntry(level, message, now, data)
      ensures |old(logs)| < maxLogs ==> logs == old(logs) + [LogEntry(level, message, now, data)]
      ensures |old(logs)| == maxLogs ==>
                logs == old(logs)[1..] + [LogEntry(level, message, now, data)]
      ensures console == old(console) + [Dispatch(LogEntry(level, message, now, data), toIso(now))]
      ensures (Chronological(old(logs)) &&
               (old(logs) != [] ==> old(logs)[|old(logs)| - 1].timestamp <= now)) ==>
              Chronological(logs)
    {
      var entry := LogEntry(level, message, now, data);
      RecordShape(logs, entry, maxLogs);
      if Chronological(logs) && (logs != [] ==> logs[|logs| - 1].timestamp <= now) {
        RecordChronological(logs, entry, maxLogs);
      }

      logs := logs + [entry];
      if |logs| > maxLogs {
        logs := SliceLast(logs, maxLogs);
      }

      var levelName := Name(level);
      var timestamp := toIso(entry.timestamp);
      var line := FormatLine(timestamp, levelName, message);
      match level {
        case DEBUG => console := console + [ConsoleCall(DebugChannel, line, ConsoleArg(data))];
        case INFO => console := console + [ConsoleCall(InfoChannel, line, ConsoleArg(data))];
        case WARN => console := console + [ConsoleCall(WarnChannel, line, ConsoleArg(data))];
        case ERROR => console := console + [ConsoleCall(ErrorChannel, line, ConsoleArg(data))];
      }
    }

    method Debug(message: string, data: Payload, now: Time)
      requires Valid()
      modifies this
      ensures Valid() && maxLogs == old(maxLogs)
      ensures logs == Record(old(logs), LogEntry(DEBUG, message, now, data), maxLogs)
      ensures logs[|logs| - 1] == LogEntry(DEBUG, message, now, data)
      ensures console == old(console) + [Dispatch(LogEntry(DEBUG, message, now, data), toIso(now))]
      ensures (Chronological(old(logs)) &&
               (old(logs) != [] ==> old(logs)[|old(logs)| - 1].timestamp <= now)) ==>
              Chronological(logs)
    {
      Log(DEBUG, message, data, now);
    }

    method Info(message: string, data: Payload, now: Time)
      requires Valid()
      modifies this
      ensures Valid() && maxLogs == old(maxLogs)
      ensures logs == Record(old(logs), LogEntry(INFO, message, now, data), maxLogs)
      ensures logs[|logs| - 1] == LogEntry(INFO, message, now, data)
      ensures console == old(console) + [Dispatch(LogEntry(INFO, message, now, data), toIso(now))]
      ensures (Chronological(old(logs)) &&
               (old(logs) != [] ==> old(logs)[|old(logs)| - 1].timestamp <= now)) ==>
              Chronological(logs)
    {
      Log(INFO, message, data, now);
    }

    method Warn(message: string, data: Payload, now: Time)
      requires Valid()
      modifies this
      ensures Valid() && maxLogs == old(maxLogs)
      ensures logs == Record(old(logs), LogEntry(WARN, message, now, data), maxLogs)
      ensures logs[|logs| - 1] == LogEntry(WARN, message, now, data)
      ensures console == old(console) + [Dispatch(LogEntry(WARN, message, now, data), toIso(now))]
      ensures (Chronological(old(logs)) &&
               (old(logs) != [] ==> old(logs)[|old(logs)| - 1].timestamp <= now)) ==>
              Chronological(logs)
    {
      Log(WARN, message, data, now);
    }

    method Error(message: string, data: Payload, now: Time)
      requires Valid()
      modifies this
      ensures Valid() && maxLogs == old(maxLogs)
      ensures logs == Record(old(logs), LogEntry(ERROR, message, now, data), maxLogs)
      ensures logs[|logs| - 1] == LogEntry(ERROR, message, now, data)
      ensures console == old(console) + [Dispatch(LogEntry(ERROR, message, now, data), toIso(now))]
      ensures (Chronological(old(logs)) &&
               (old(logs) != [] ==> old(logs)[|old(logs)| - 1].timestamp <= now)) ==>
              Chronological(logs)
    {
      Log(ERROR, message, data, now);
    }

    /** `[...this.logs]`: a new array holding the history in insertion order. */
    method GetLogs() returns (snapshot: array<LogEntry>)
      ensures fresh(snapshot)
      ensures snapshot[..] == logs
    {
      var current := logs;
      snapshot := new LogEntry[|current|](i requires 0 <= i < |current| => current[i]);
    }

    /** `this.logs = []`; nothing else changes. */
    method ClearLogs()
      modifies this
      ensures logs == []
      ensures maxLogs == old(maxLogs) && console == old(console)
      ensures old(Valid()) ==> Valid()
    {
      logs := [];
    }
  }

  /** The static side of `Logger`: the `instance` slot, and the host's ISO-8601
      rendering handed to the one Logger it creates. */
  class LoggerStatics {
    var instance: Logger?
    const toIso: Time -> string

    /** Before the first `getInstance`, `instance` is unset. */
    constructor (toIso: Time -> string)
      ensures instance == null && this.toIso == toIso
    {
      instance := null;
      this.toIso := toIso;
    }

    ghost predicate Valid()
      reads this, instance
    {
      instance != null ==> instance.Valid() && instance.toIso == toIso
    }

    /** `getInstance`: creates the Logger on the first call only; every call
        returns the object held in `instance`. */
    method GetInstance() returns (l: Logger)
      requires Valid()
      modifies this
      ensures Valid() && l.Valid() && instance == l
      ensures old(instance) != null ==> l == old(instance)
      ensures old(instance) == null ==> fresh(l) && l.logs == [] && l.console == []
    {
      if instance == null {
        instance := new Logger(toIso);
      }
      l := instance;
    }
  }

  /** `export const logger = Logger.getInstance()` and any later `getInstance()`
      reach the same object: a write through one reference is what a read
      through the other sees. */
  method SharedInstance(statics: LoggerStatics, message: string, now: Time)
    returns (first: Logger, second: Logger)
    requires statics.Valid()
    modifies statics, statics.instance
    ensures first == second
    ensures second.logs != [] && second.logs[|second.logs| - 1] == LogEntry(INFO, message, now, Undefined)
  {
    first := statics.GetInstance();
    first.Info(message, Undefined, now);
    second := statics.GetInstance();
    var seen := second.GetLogs();
    assert seen[seen.Length - 1] == LogEntry(INFO, message, now, Undefined);
  }

  /** Writing into a slot of the array GetLogs returned leaves the history
      untouched: a later GetLogs still returns the old history. */
  method SnapshotIsolation(l: Logger, replacement: LogEntry)
    returns (snapshot: array<LogEntry>, again: array<LogEntry>)
    requires l.logs != []
    ensures snapshot.Length == |old(l.logs)| && snapshot[0] == replacement
    ensures again[..] == old(l.logs)
  {
    snapshot := l.GetLogs();
    snapshot[0] := replacement;
    again := l.GetLogs();
  }

  /** Clearing twice leaves the same state as clearing once. */
  method ClearTwice(l: Logger)
    modifies l
    ensures l.logs == [] && l.maxLogs == old(l.maxLogs) && l.console == old(l.console)
  {
    l.ClearLogs();
    l.ClearLogs();
  }
}
