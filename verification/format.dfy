/** The fixed layout of a log line:
    `[YYYY-MM-DD HH:MM:SS] <LEVEL padded> <message> [<file>:<line>]` and a newline.
    The clock reading and the caller frame are parameters. */
module Format {
  import opened Wrappers
  import opened Levels
  import Decimal

  /** The wall-clock fields printed in the prefix. */
  datatype Stamp = Stamp(year: nat, month: nat, day: nat, hour: nat, minute: nat, second: nat)

  /** Every field fits its printed width: four digits for the year, two for the rest. */
  predicate FixedWidth(t: Stamp) {
    t.year < 10000 && t.month < 100 && t.day < 100 && t.hour < 100 && t.minute < 100 && t.second < 100
  }

  /** The call site: base name of the source file and line number. */
  datatype Caller = Caller(file: string, line: nat)

  function Spaces(k: nat): string {
    Decimal.Repeat(' ', k)
  }

  /** `%-<width>s`: left-justified, padded with spaces, never truncated. */
  function PadRight(s: string, width: nat): string {
    if |s| < width then s + Spaces(width - |s|) else s
  }

  /** Width of the level column: 14 for coloured names (which carry escape codes), 5 otherwise. */
  function FieldWidth(colored: bool): nat {
    if colored then 14 else 5
  }

  function PrintedName(lvl: LogLevel, colored: bool): string {
    if colored then ColoredLevelName(lvl) else LevelName(lvl)
  }

  function LevelField(lvl: LogLevel, colored: bool): string {
    PadRight(PrintedName(lvl, colored), FieldWidth(colored))
  }

  /** `%04d-%02d-%02d` */
  function DateText(t: Stamp): string {
    Decimal.PadZero(t.year, 4) + ("-" + (Decimal.PadZero(t.month, 2) + ("-" + Decimal.PadZero(t.day, 2))))
  }

  /** `%02d:%02d:%02d` */
  function TimeText(t: Stamp): string {
    Decimal.PadZero(t.hour, 2) + (":" + (Decimal.PadZero(t.minute, 2) + (":" + Decimal.PadZero(t.second, 2))))
  }

  /** `[%04d-%02d-%02d %02d:%02d:%02d] ` */
  function StampText(t: Stamp): string {
    "[" + (DateText(t) + (" " + (TimeText(t) + "] ")))
  }

  /** ` [file:line]` and a newline; an unresolved caller prints as `???:0`. */
  function CallerText(caller: Option<Caller>): string {
    var c := caller.GetOr(Caller("???", 0));
    " [" + c.file + ":" + Decimal.DecimalString(c.line) + "]\n"
  }

  /** `Logger.logFormat` without the dispatch: the complete line for one message. */
  function LogFormat(t: Stamp, lvl: LogLevel, colored: bool, msg: string, caller: Option<Caller>): string {
    StampText(t) + (LevelField(lvl, colored) + (" " + (msg + CallerText(caller))))
  }

  // ---- reading a line back ----

  /** The fields of a line: clock reading, level name with its padding removed, and the
      rest of the line (message and call site). */
  datatype Parsed = Parsed(stamp: Stamp, levelName: string, body: string)

  function TrimRight(s: string): string
    decreases |s|
  {
    if |s| > 0 && s[|s| - 1] == ' ' then TrimRight(s[..|s| - 1]) else s
  }

  /** The value of a non-empty run of digits. */
  function Number(s: string): Option<nat> {
    if |s| > 0 && Decimal.AllDigits(s) then Some(Decimal.ParseDecimal(s)) else None
  }

  /** Three numbers, the first `p` and the second `q` characters wide, separated by `sep`. */
  function ParseTriple(s: string, p: nat, q: nat, sep: char): Option<(nat, nat, nat)> {
    if |s| < p + q + 2 || s[p] != sep then None
    else
      var r := s[p + 1..];
      if r[q] != sep then None
      else
        var a, b, c := Number(s[..p]), Number(r[..q]), Number(r[q + 1..]);
        if a.None? || b.None? || c.None? then None else Some((a.value, b.value, c.value))
  }

  /** Reads the timestamp from the first 22 characters of a line. */
  function ParseStamp(line: string): Option<Stamp> {
    if |line| < 22 || line[0] != '[' || line[11] != ' ' || line[20..22] != "] " then None
    else
      match (ParseTriple(line[1..11], 4, 2, '-'), ParseTriple(line[12..20], 2, 2, ':'))
      case (Some(d), Some(h)) => Some(Stamp(d.0, d.1, d.2, h.0, h.1, h.2))
      case _ => None
  }

  /** Splits a line produced in the given colour mode into its fields. */
  function ParseLine(line: string, colored: bool): Option<Parsed> {
    var w := FieldWidth(colored);
    if |line| < 23 + w then None
    else
      var stamp, tail := ParseStamp(line[..22]), line[22..];
      if stamp.None? || tail[w] != ' ' then None
      else Some(Parsed(stamp.value, TrimRight(tail[..w]), tail[w + 1..]))
  }

  lemma {:induction false} TrimSpaces(s: string, k: nat)
    requires |s| > 0 && s[|s| - 1] != ' '
    ensures TrimRight(s + Spaces(k)) == s
    decreases k
  {
    if k > 0 {
      assert (s + Spaces(k))[..|s| + k - 1] == s + Spaces(k - 1);
      TrimSpaces(s, k - 1);
    } else {
      assert s + Spaces(0) == s;
    }
  }

  /** Every printed level name fits its column and does not end in a space. */
  lemma PrintedNameShape(lvl: LogLevel, colored: bool)
    ensures var n := PrintedName(lvl, colored);
      0 < |n| <= FieldWidth(colored) && n[|n| - 1] != ' '
  {
  }

  /** Cutting `x + [sep] + y` at `|x|` gives back `x`, `sep` and `y`. */
  lemma SplitAtSeparator(x: string, sep: char, y: string)
    ensures var s := x + ([sep] + y);
      |s| == |x| + 1 + |y| && s[..|x|] == x && s[|x|] == sep && s[|x| + 1..] == y
  {
    var s := x + ([sep] + y);
    assert s[..|x|] == x;
    assert s[|x| + 1..] == y;
  }

  lemma ParseTripleOf(a: string, b: string, c: string, sep: char)
    requires 0 < |a| && 0 < |b| && 0 < |c|
    requires Decimal.AllDigits(a) && Decimal.AllDigits(b) && Decimal.AllDigits(c)
    ensures ParseTriple(a + ([sep] + (b + ([sep] + c))), |a|, |b|, sep)
         == Some((Decimal.ParseDecimal(a), Decimal.ParseDecimal(b), Decimal.ParseDecimal(c)))
  {
    SplitAtSeparator(a, sep, b + ([sep] + c));
    SplitAtSeparator(b, sep, c);
  }

  lemma DateTextParses(t: Stamp)
    requires FixedWidth(t)
    ensures |DateText(t)| == 10
    ensures ParseTriple(DateText(t), 4, 2, '-') == Some((t.year, t.month, t.day))
  {
    Decimal.FourWide(t.year);
    Decimal.TwoWide(t.month);
    Decimal.TwoWide(t.day);
    Decimal.ParsePadZero(t.year, 4);
    Decimal.ParsePadZero(t.month, 2);
    Decimal.ParsePadZero(t.day, 2);
    ParseTripleOf(Decimal.PadZero(t.year, 4), Decimal.PadZero(t.month, 2), Decimal.PadZero(t.day, 2), '-');
  }

  lemma TimeTextParses(t: Stamp)
    requires FixedWidth(t)
    ensures |TimeText(t)| == 8
    ensures ParseTriple(TimeText(t), 2, 2, ':') == Some((t.hour, t.minute, t.second))
  {
    Decimal.TwoWide(t.hour);
    Decimal.TwoWide(t.minute);
    Decimal.TwoWide(t.second);
    Decimal.ParsePadZero(t.hour, 2);
    Decimal.ParsePadZero(t.minute, 2);
    Decimal.ParsePadZero(t.second, 2);
    ParseTripleOf(Decimal.PadZero(t.hour, 2), Decimal.PadZero(t.minute, 2), Decimal.PadZero(t.second, 2), ':');
  }

  /** Where the bracket, the date, the separator and the time sit in a bracketed stamp. */
  lemma StampLayout(d: string, h: string)
    requires |d| == 10 && |h| == 8
    ensures var s := "[" + (d + (" " + (h + "] ")));
      && |s| == 22 && s[0] == '[' && s[1..11] == d && s[11] == ' '
      && s[12..20] == h && s[20..22] == "] "
  {
    var s := "[" + (d + (" " + (h + "] ")));
    var afterDate := " " + (h + "] ");
    assert s[1..] == d + afterDate;
    assert s[1..11] == d;
    assert s[11..] == afterDate;
    assert s[12..20] == h;
    assert s[20..22] == "] ";
  }

  /** The printed timestamp is 22 characters wide and reads back as the clock reading. */
  lemma StampTextParses(t: Stamp)
    requires FixedWidth(t)
    ensures |StampText(t)| == 22
    ensures ParseStamp(StampText(t)) == Some(t)
  {
    DateTextParses(t);
    TimeTextParses(t);
    StampLayout(DateText(t), TimeText(t));
  }

  /** The level column is exactly its width wide and trims back to the printed name. */
  lemma LevelFieldShape(lvl: LogLevel, colored: bool)
    ensures |LevelField(lvl, colored)| == FieldWidth(colored)
    ensures TrimRight(LevelField(lvl, colored)) == PrintedName(lvl, colored)
  {
    var n := PrintedName(lvl, colored);
    PrintedNameShape(lvl, colored);
    TrimSpaces(n, FieldWidth(colored) - |n|);
  }

  lemma ParseLineOf(st: string, field: string, rest: string, colored: bool)
    requires |st| == 22 && ParseStamp(st).Some?
    requires |field| == FieldWidth(colored)
    ensures ParseLine(st + (field + (" " + rest)), colored) == Some(Parsed(ParseStamp(st).value, TrimRight(field), rest))
  {
    var w := FieldWidth(colored);
    var tail := field + (" " + rest);
    var line := st + tail;
    assert line[..22] == st;
    assert line[22..] == tail;
    assert tail[..w] == field;
    assert tail[w] == ' ';
    assert tail[w + 1..] == rest;
  }

  /** A formatted line reads back as its clock reading, the level's printed name, and the
      message followed by the call site. */
  lemma FormatRoundTrip(t: Stamp, lvl: LogLevel, colored: bool, msg: string, caller: Option<Caller>)
    requires FixedWidth(t)
    ensures ParseLine(LogFormat(t, lvl, colored, msg, caller), colored)
         == Some(Parsed(t, PrintedName(lvl, colored), msg + CallerText(caller)))
  {
    var st, field := StampText(t), LevelField(lvl, colored);
    var rest := msg + CallerText(caller);
    StampTextParses(t);
    LevelFieldShape(lvl, colored);
    ParseLineOf(st, field, rest, colored);
  }

  /** Without colour, the level is recovered from the line by its name. */
  lemma PlainLevelRoundTrip(t: Stamp, lvl: LogLevel, msg: string, caller: Option<Caller>)
    requires FixedWidth(t)
    ensures var p := ParseLine(LogFormat(t, lvl, false, msg, caller), false);
      p.Some? && GetLevelByName(p.value.levelName) == lvl
  {
    FormatRoundTrip(t, lvl, false, msg, caller);
    LevelNameRoundTrip(lvl);
  }

  /** An unresolved caller is printed as `???:0`. */
  lemma UnknownCaller()
    ensures CallerText(None) == " [???:0]\n"
  {
  }
}
