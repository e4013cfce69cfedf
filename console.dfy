/** Console dispatch in src/lib/logger.ts: the formatted line, the payload argument,
    and the choice of `console` method by severity. The console itself is modelled
    as the sequence of calls made on it. */
module Console {
  import opened Wrappers
  import opened Levels
  import opened Entries

  /** The four `console` methods the logger writes to. */
  datatype Channel = DebugChannel | InfoChannel | WarnChannel | ErrorChannel

  /** One call `console.<channel>(line, arg)`. */
  datatype ConsoleCall = ConsoleCall(channel: Channel, line: string, arg: Payload)

  /** The severity a channel is reserved for. */
  function ChannelLevel(c: Channel): LogLevel {
    match c
    case DebugChannel => DEBUG
    case InfoChannel => INFO
    case WarnChannel => WARN
    case ErrorChannel => ERROR
  }

  /** The channel an entry of the given level goes to; it is the one channel
      reserved for that level. */
  function ChannelFor(level: LogLevel): (c: Channel)
    ensures ChannelLevel(c) == level
    ensures forall d: Channel :: ChannelLevel(d) == level ==> d == c
  {
    match level
    case DEBUG => DebugChannel
    case INFO => InfoChannel
    case WARN => WarnChannel
    case ERROR => ErrorChannel
  }

  /** The second console argument, `data || ''`: the payload itself when it is
      truthy, the empty string otherwise. */
  function ConsoleArg(data: Payload): (arg: Payload)
    ensures arg == data || arg == Str("")
    ensures !IsFalsy(data) ==> arg == data
    ensures IsFalsy(data) ==> arg == Str("")
    ensures IsFalsy(arg) <==> IsFalsy(data)
    ensures arg != Undefined && arg != Null
  {
    if IsFalsy(data) then Str("") else data
  }

  /** The line `[<timestamp>] [<levelName>] <message>`. */
  function FormatLine(timestamp: string, levelName: string, message: string): string {
    "[" + timestamp + "] [" + levelName + "] " + message
  }

  /** The console call that `log` makes for an entry whose timestamp renders as `iso`. */
  function Dispatch(entry: LogEntry, iso: string): ConsoleCall {
    ConsoleCall(ChannelFor(entry.level), FormatLine(iso, Name(entry.level), entry.message),
                ConsoleArg(entry.data))
  }

  /** The first index at or after `from` where `s` holds `c`. */
  function IndexOf(s: string, c: char, from: nat): (r: Option<nat>)
    ensures r.Some? ==> from <= r.value < |s| && s[r.value] == c
    ensures r.Some? ==> forall k :: from <= k < r.value ==> s[k] != c
    ensures r.None? ==> forall k :: from <= k < |s| ==> s[k] != c
    decreases |s| - from
  {
    if from >= |s| then None
    else if s[from] == c then Some(from)
    else IndexOf(s, c, from + 1)
  }

  /** Reads a console line back into its timestamp text, level and message: the
      inverse of FormatLine, as a reader of the console would apply it. */
  function ParseLine(line: string): Option<(string, LogLevel, string)> {
    if |line| == 0 || line[0] != '[' then None
    else match IndexOf(line, ']', 1)
      case None => None
      case Some(i) =>
        match ParseLevelAndMessage(line[i + 1..])
        case None => None
        case Some((level, message)) => Some((line[1..i], level, message))
  }

  /** Reads the part ` [<levelName>] <message>` that follows the timestamp. */
  function ParseLevelAndMessage(rest: string): Option<(LogLevel, string)> {
    if |rest| < 2 || rest[..2] != " [" then None
    else match IndexOf(rest, ']', 2)
      case None => None
      case Some(j) =>
        if j + 1 == |rest| || rest[j + 1] != ' ' then None
        else match FromName(rest[2..j])
          case None => None
          case Some(level) => Some((level, rest[j + 2..]))
  }

  lemma FirstIndex(s: string, c: char, from: nat, at: nat)
    requires from <= at < |s| && s[at] == c
    requires forall k :: from <= k < at ==> s[k] != c
    ensures IndexOf(s, c, from) == Some(at)
  {
  }

  lemma ParseFormatLevelAndMessage(level: LogLevel, message: string)
    ensures ParseLevelAndMessage(" [" + Name(level) + "] " + message) == Some((level, message))
  {
    var name := Name(level);
    var rest := " [" + name + "] " + message;
    var j := |name| + 2;
    assert rest[2..j] == name;
    forall k | 2 <= k < j ensures rest[k] != ']' {
      assert rest[k] == name[k - 2];
    }
    FirstIndex(rest, ']', 2, j);
    assert rest[j + 2..] == message;
  }

  lemma FormatParseLevelAndMessage(rest: string)
    requires ParseLevelAndMessage(rest).Some?
    ensures var (level, message) := ParseLevelAndMessage(rest).value;
      rest == " [" + Name(level) + "] " + message
  {
    var j := IndexOf(rest, ']', 2).value;
    NameBijective(rest[2..j]);
    assert rest == rest[..2] + rest[2..j] + rest[j..j + 2] + rest[j + 2..];
  }

  /** The line format is unambiguous: a line formatted from a timestamp text
      without ']' reads back as exactly the timestamp, level and message that
      produced it, whatever the message holds. */
  lemma {:induction false} ParseFormatLine(iso: string, level: LogLevel, message: string)
    requires ']' !in iso
    ensures ParseLine(FormatLine(iso, Name(level), message)) == Some((iso, level, message))
  {
    var line := FormatLine(iso, Name(level), message);
    var i := |iso| + 1;
    assert line[1..i] == iso;
    forall k | 1 <= k < i ensures line[k] != ']' {
      assert line[k] == iso[k - 1];
    }
    FirstIndex(line, ']', 1, i);
    assert line[i + 1..] == " [" + Name(level) + "] " + message;
    ParseFormatLevelAndMessage(level, message);
  }

  /** What ParseLine found in a line it accepts: the opening '[', the first ']'
      at index i, and the part after it that ParseLevelAndMessage accepts. */
  lemma ParseLineParts(line: string) returns (i: nat)
    requires ParseLine(line).Some?
    ensures 0 < i < |line| && line[0] == '[' && line[i] == ']'
    ensures forall k :: 1 <= k < i ==> line[k] != ']'
    ensures ParseLevelAndMessage(line[i + 1..]).Some?
    ensures ParseLine(line).value.0 == line[1..i]
    ensures (ParseLine(line).value.1, ParseLine(line).value.2)
            == ParseLevelAndMessage(line[i + 1..]).value
  {
    i := IndexOf(line, ']', 1).value;
  }

  lemma SplitAtBracket(line: string, i: nat)
    requires 0 < i < |line| && line[0] == '[' && line[i] == ']'
    ensures line == "[" + line[1..i] + "]" + line[i + 1..]
  {
    assert line == line[..1] + line[1..i] + line[i..i + 1] + line[i + 1..];
  }

  lemma FormatLineSplit(iso: string, levelName: string, message: string)
    ensures FormatLine(iso, levelName, message) == "[" + iso + "]" + (" [" + levelName + "] " + message)
  {
  }

  /** Conversely, every line that reads back is the formatting of what it reads
      as, and its timestamp text holds no ']'. */
  lemma {:induction false} FormatParseLine(line: string)
    requires ParseLine(line).Some?
    ensures ']' !in ParseLine(line).value.0
    ensures FormatLine(ParseLine(line).value.0, Name(ParseLine(line).value.1),
                       ParseLine(line).value.2) == line
  {
    var i := ParseLineParts(line);
    var iso := line[1..i];
    var rest := line[i + 1..];
    forall k | 0 <= k < |iso| ensures iso[k] != ']' {
      assert iso[k] == line[k + 1];
    }
    FormatParseLevelAndMessage(rest);
    var (level, message) := ParseLevelAndMessage(rest).value;
    SplitAtBracket(line, i);
    FormatLineSplit(iso, Name(level), message);
  }
}
