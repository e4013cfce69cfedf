# Verified model of the application logger

This project models the process-wide logger of `src/lib/logger.ts` and proves
properties of the model in Dafny. Callers write leveled, timestamped entries
through one entry point per severity (`debug`, `info`, `warn`, `error`). The
logger keeps the newest 1000 entries and drops the oldest first. It sends every
entry to the `console` method of its level, as the line
`[<ISO timestamp>] [<LEVEL>] <message>` followed by the payload. `getLogs`
returns a copy of the history and `clearLogs` empties it. One `Logger` object is
created lazily and shared by every caller.

Files, one module each:

- `wrappers.dfy`: `Option`.
- `levels.dfy`: the `LogLevel` enum. It covers the numeric values 0 to 3, the member names, and the lookups both ways.
- `entries.dfy`: `LogEntry`, the timestamp type, and the JavaScript values a payload can be, with their falsiness.
- `console.dfy`: the console channels, the line format, the payload argument `data || ''`, and the routing by level. `ParseLine` is an independent inverse of the line format.
- `history.dfy`: the bounded history as a value. `SliceLast` is JavaScript's `slice(-n)`, `Record` is one append-and-trim, and `Replay` is a run of writes.
- `logging.dfy`: the `Logger` class, with `logs` as a `seq` field that its methods reassign and the console as a ghost trace of calls. `LoggerStatics` holds the static `instance` slot and `getInstance`.

The clock (`new Date()`) is the `now` argument of each write. ISO-8601 rendering
(`toISOString`) is the host function `toIso`. The model receives it when the
statics object is constructed and passes it to the one `Logger` it creates.

The history functions are generic in the capacity, so they can be read with any
capacity. The `Logger` class always has capacity 1000, as in the source. With a
capacity of 0, JavaScript's `slice(-0)` would keep the whole array, and
`SliceLast` models that case as written. The source never uses that capacity.

## Model

| member | source | states |
|---|---|---|
| Levels.Value | src/lib/logger.ts:1-6 | each member's declared numeric value maps back to that member |
| Levels.FromValue | src/lib/logger.ts:1-6 | exactly the numbers 0 to 3 name a member |
| Levels.ValueBijective | src/lib/logger.ts:1-6 | FromValue inverts Value, and the values order the levels DEBUG < INFO < WARN < ERROR |
| Levels.Name | src/lib/logger.ts:43 | `LogLevel[level]` is a name that looks up to the same member and contains no ']' |
| Levels.NameBijective | src/lib/logger.ts:43 | a name is accepted only when it is exactly some member's name |
| Console.ChannelFor | src/lib/logger.ts:46-58 | each level goes to the one console channel reserved for it, and to no other |
| Entries.IsFalsy | src/lib/logger.ts:48 | the JavaScript falsy values among payloads: undefined, null, false, 0 and the empty string |
| Console.ConsoleArg | src/lib/logger.ts:48 | the console argument passes a truthy payload unchanged and turns every falsy one into the empty string, never undefined or null |
| Console.FormatLine | src/lib/logger.ts:48 | the template `[timestamp] [levelName] message`; ParseFormatLine and FormatParseLine prove it invertible |
| Console.Dispatch | src/lib/logger.ts:46-58 | the one console call the switch makes for an entry: its level's channel, the formatted line, and the console argument of its data |
| Console.ParseFormatLine | src/lib/logger.ts:48 | a formatted line reads back as exactly its timestamp text, level and message, for any message and any timestamp text without ']' |
| Console.FormatParseLine | src/lib/logger.ts:48 | every line that reads back is the formatting of what it reads as |
| History.SliceLast | src/lib/logger.ts:40 | `slice(-n)` as JavaScript defines it, with `slice(-0)` the whole array; SliceLastSuffix states what it keeps |
| History.Record | src/lib/logger.ts:37-41 | `push` then, past maxLogs, `slice(-maxLogs)`; RecordShape and RecordKeepsNewest state its effect |
| History.Replay | src/lib/logger.ts:37-41 | a run of writes in call order, each one a Record; ReplayKeepsNewest and RetainsLastWrites state what it retains |
| History.SliceLastSuffix | src/lib/logger.ts:40 | `slice(-n)` keeps a suffix of min(n, length) elements, or the whole array when n is 0 |
| History.RecordShape | src/lib/logger.ts:37-41 | one append under the bound keeps the bound and puts the entry last; it drops nothing, or when full exactly the oldest entry |
| History.RecordKeepsNewest | src/lib/logger.ts:37-41 | one append keeps the newest maxLogs elements of old history followed by the entry |
| History.SliceLastAppend | src/lib/logger.ts:40 | trimming before appending more does not change what a later trim keeps |
| History.ReplayKeepsNewest | src/lib/logger.ts:37-41 | after any run of writes the history is the newest maxLogs of old history followed by the writes, in call order and across all levels |
| History.RetainsLastWrites | src/lib/logger.ts:37-41 | after at least maxLogs writes the history is exactly the last maxLogs writes, in order |
| History.CapacityThree | src/lib/logger.ts:39-40 | with capacity 3, writing a, b, c, d leaves b, c, d |
| History.RecordChronological | src/lib/logger.ts:30-41 | timestamps stay in nondecreasing order when no write is dated before the newest entry |
| Logging.Logger.constructor | src/lib/logger.ts:17-20 | a new logger has an empty history and capacity 1000 |
| Logging.Logger.Log | src/lib/logger.ts:29-60 | the new history is the append-and-trim of the old one. The entry is last and keeps its data. The bound holds, and the console gets exactly one call, on the level's channel, with the formatted line and the console argument of the data |
| Logging.Logger.Debug | src/lib/logger.ts:62-64 | records and dispatches a DEBUG entry as Log does |
| Logging.Logger.Info | src/lib/logger.ts:66-68 | records and dispatches an INFO entry as Log does |
| Logging.Logger.Warn | src/lib/logger.ts:70-72 | records and dispatches a WARN entry as Log does |
| Logging.Logger.Error | src/lib/logger.ts:74-76 | records and dispatches an ERROR entry as Log does |
| Logging.Logger.GetLogs | src/lib/logger.ts:78-80 | returns a newly allocated array equal to the history, in insertion order, and changes nothing |
| Logging.Logger.ClearLogs | src/lib/logger.ts:82-84 | empties the history and leaves the capacity and everything else unchanged |
| Logging.LoggerStatics.constructor | src/lib/logger.ts:16 | before the first `getInstance` the static `instance` slot is unset |
| Logging.LoggerStatics.GetInstance | src/lib/logger.ts:22-27 | creates a logger only when `instance` is unset, and otherwise returns the object already held |
| Logging.SharedInstance | src/lib/logger.ts:87 | two `getInstance` results are the same object, so a write through one is read through the other |
| Logging.SnapshotIsolation | src/lib/logger.ts:78-80 | writing into a slot of a snapshot leaves the history unchanged: a later GetLogs returns the old history |
| Logging.ClearTwice | src/lib/logger.ts:82-84 | clearing twice leaves the same state as clearing once |

## Left out

- Logging.Logger.GetLogs: entries are immutable values here, so the model does not capture that the source's copy `[...this.logs]` is shallow. In the source the copy shares each entry object and its `Date` with the history, so changing a field of a returned entry (its `message`, or `setTime` on its timestamp) changes the stored entry too. Only writes to the copy's slots are isolated, and that is all `SnapshotIsolation` shows.
- Real console output is not modelled. Each `console.debug`/`info`/`warn`/`error` call is appended to the ghost trace `Logger.console`.
- `new Date()` is not modelled. Each write takes its time as the argument `now`.
- `toISOString` is not modelled. It is the host function `toIso`, an argument to the constructor. `ParseFormatLine` assumes its output has no ']', as ISO-8601 text never does.
- JavaScript numbers are integers in `Payload`. NaN and -0 (both falsy), bigints and floating point are not modelled. Objects are known only by identity.
- TypeScript `private` is not modelled. Dafny callers could assign `logs` directly, so the methods require `Valid()` instead of relying on field privacy.
- Concurrent first access to `getInstance` is not modelled. The host runs one thread, so nothing can race.
- Timestamps are not forced to increase. `Logger.Log` keeps the history in time order only when each `now` is no earlier than the newest entry's time. The source reads a wall clock, which can go backwards.
- The page components under `src/pages/` are not part of this model. They are view code over a remote backend.
