/** The logger as a value: an ordered sequence of targets, a readiness flag and
    the colour option. Each target is a threshold plus the record of lines it
    has been handed; the fan-out appends a line to every target admitting its level. */
module Loggers {
  import opened Wrappers
  import opened Levels
  import opened Targets
  import opened FileSystem
  import Format

  /** A destination, its threshold, and the lines appended to it so far. */
  datatype Target = Target(kind: TargetKind, level: LogLevel, lines: seq<string>) {

    /** `logTarget.IsEnabled`: the target accepts `lvl` exactly when it is at or above the threshold. */
    predicate IsEnabled(lvl: LogLevel) {
      Admits(level, lvl)
    }
  }

  function NewTarget(kind: TargetKind, lvl: LogLevel): Target {
    Target(kind, lvl, [])
  }

  datatype Logger = Logger(targets: seq<Target>, isReady: bool, useColoredLevelName: bool)

  function NewLogger(useColoredLevelName: bool): Logger {
    Logger([], false, useColoredLevelName)
  }

  /** The logger is ready exactly when it has a target; every operation keeps this. */
  predicate WellFormed(l: Logger) {
    l.isReady <==> |l.targets| > 0
  }

  /** `Logger.AddTarget`: the target goes last, the earlier ones are kept in order,
      and the logger becomes ready. */
  function AddTarget(l: Logger, t: Target): (r: Logger)
    ensures |r.targets| == |l.targets| + 1 && r.targets[|l.targets|] == t
    ensures r.targets[..|l.targets|] == l.targets
    ensures r.isReady && r.useColoredLevelName == l.useColoredLevelName
  {
    l.(targets := l.targets + [t], isReady := true)
  }

  /** `Logger.IsEnabled`: false without targets, otherwise the first target's verdict. */
  function IsEnabled(l: Logger, lvl: LogLevel): bool {
    if |l.targets| == 0 then false else l.targets[0].IsEnabled(lvl)
  }

  /** Indices, from `from` on, of the targets `log` calls `Append` on, in the order it calls them. */
  function Recipients(ts: seq<Target>, lvl: LogLevel, from: nat): (r: seq<nat>)
    requires from <= |ts|
    ensures forall j :: 0 <= j < |r| ==> from <= r[j] < |ts| && ts[r[j]].IsEnabled(lvl)
    ensures forall j, k :: 0 <= j < k < |r| ==> r[j] < r[k]
    ensures forall i :: from <= i < |ts| && ts[i].IsEnabled(lvl) ==> i in r
    decreases |ts| - from
  {
    if from == |ts| then []
    else if ts[from].IsEnabled(lvl) then [from] + Recipients(ts, lvl, from + 1)
    else Recipients(ts, lvl, from + 1)
  }

  /** The loop of `log`: every target admitting `lvl` gets `msg` appended once; the others,
      and every threshold and destination, are unchanged. */
  function Deliver(ts: seq<Target>, lvl: LogLevel, msg: string): (r: seq<Target>)
    ensures |r| == |ts|
    ensures forall i :: 0 <= i < |ts| ==> r[i].kind == ts[i].kind && r[i].level == ts[i].level
    ensures forall i :: 0 <= i < |ts| ==>
      r[i].lines == ts[i].lines + (if ts[i].IsEnabled(lvl) then [msg] else [])
    decreases |ts|
  {
    if |ts| == 0 then []
    else
      var t := ts[0];
      var t' := if t.IsEnabled(lvl) then t.(lines := t.lines + [msg]) else t;
      [t'] + Deliver(ts[1..], lvl, msg)
  }

  /** The loop of `log` against the destinations, from position `from` on: each target
      admitting `lvl` performs its `Append` on the world. `envs[i]` is what position `i`'s
      `Append` observes (its own clock reading and file-system outcomes), since every
      `Append` call reads the clock and consults the file system afresh. */
  function DispatchFrom(w: World, ts: seq<Target>, envs: seq<AppendEnv>, lvl: LogLevel, msg: string, from: nat): (r: World)
    requires |envs| == |ts| && from <= |ts|
    ensures (forall i :: from <= i < |ts| ==> !ts[i].IsEnabled(lvl)) ==> r == w
    decreases |ts| - from
  {
    if from == |ts| then w
    else
      var next := if ts[from].IsEnabled(lvl) then Targets.Append(w, ts[from].kind, envs[from], msg) else w;
      DispatchFrom(next, ts, envs, lvl, msg, from + 1)
  }

  /** The appends at positions `order`, performed one after another. */
  function AppendInOrder(w: World, ts: seq<Target>, envs: seq<AppendEnv>, order: seq<nat>, msg: string): World
    requires |envs| == |ts| && forall j :: 0 <= j < |order| ==> order[j] < |ts|
    decreases |order|
  {
    if |order| == 0 then w
    else AppendInOrder(Targets.Append(w, ts[order[0]].kind, envs[order[0]], msg), ts, envs, order[1..], msg)
  }

  lemma {:induction false} DispatchFromInOrder(w: World, ts: seq<Target>, envs: seq<AppendEnv>, lvl: LogLevel,
                                               msg: string, from: nat)
    requires |envs| == |ts| && from <= |ts|
    ensures DispatchFrom(w, ts, envs, lvl, msg, from) == AppendInOrder(w, ts, envs, Recipients(ts, lvl, from), msg)
    decreases |ts| - from
  {
    if from < |ts| {
      var next := if ts[from].IsEnabled(lvl) then Targets.Append(w, ts[from].kind, envs[from], msg) else w;
      DispatchFromInOrder(next, ts, envs, lvl, msg, from + 1);
      if ts[from].IsEnabled(lvl) {
        var order := Recipients(ts, lvl, from);
        assert order[0] == from;
        assert order[1..] == Recipients(ts, lvl, from + 1);
      }
    }
  }

  /** The loop of `log` against the destinations: the targets admitting `lvl` perform their
      `Append`, each once, in the order they were added (`Recipients`), and no other does.
      A target listed twice appends twice, as an aliased Go pointer does. */
  function Dispatch(w: World, ts: seq<Target>, envs: seq<AppendEnv>, lvl: LogLevel, msg: string): (r: World)
    requires |envs| == |ts|
    ensures r == AppendInOrder(w, ts, envs, Recipients(ts, lvl, 0), msg)
    ensures (forall i :: 0 <= i < |ts| ==> !ts[i].IsEnabled(lvl)) ==> r == w
  {
    DispatchFromInOrder(w, ts, envs, lvl, msg, 0);
    DispatchFrom(w, ts, envs, lvl, msg, 0)
  }

  /** `n` copies of `msg`, one after another. */
  function Copies(msg: string, n: nat): string
    decreases n
  {
    if n == 0 then "" else msg + Copies(msg, n - 1)
  }

  lemma {:induction false} ConsoleInOrder(w: World, ts: seq<Target>, envs: seq<AppendEnv>, order: seq<nat>, msg: string)
    requires |envs| == |ts| && forall j :: 0 <= j < |order| ==> order[j] < |ts|
    requires forall i :: 0 <= i < |ts| ==> ts[i].kind == Console
    ensures AppendInOrder(w, ts, envs, order, msg) == World(w.console + Copies(msg, |order|), w.files)
    decreases |order|
  {
    if |order| == 0 {
      assert w.console + "" == w.console;
    } else {
      var next := World(w.console + msg, w.files);
      ConsoleInOrder(next, ts, envs, order[1..], msg);
      calc {
        (w.console + msg) + Copies(msg, |order| - 1);
        w.console + (msg + Copies(msg, |order| - 1));
      }
    }
  }

  /** With console targets only, one call prints the line once per admitting position (a
      target listed twice prints it twice), and no file changes. */
  lemma ConsoleDispatch(w: World, ts: seq<Target>, envs: seq<AppendEnv>, lvl: LogLevel, msg: string)
    requires |envs| == |ts|
    requires forall i :: 0 <= i < |ts| ==> ts[i].kind == Console
    ensures Dispatch(w, ts, envs, lvl, msg) == World(w.console + Copies(msg, |Recipients(ts, lvl, 0)|), w.files)
  {
    ConsoleInOrder(w, ts, envs, Recipients(ts, lvl, 0), msg);
  }

  /** A daily target listed twice appends the line twice to the day's file: the first append
      may discard an expired file, and the second sees the file it just wrote. */
  lemma AliasedDailyAppendsTwice(w: World, t: Target, e1: AppendEnv, e2: AppendEnv, lvl: LogLevel, msg: string)
    requires t.kind.DailyFile? && t.IsEnabled(lvl)
    requires e2.daily.date == e1.daily.date
    requires e1.daily.dirError.None? && e1.daily.openError.None?
    requires e2.daily.dirError.None? && e2.daily.openError.None?
    requires e2.daily.ageHours <= DailyFile.RetentionHours
    ensures var p := DailyFile.DailyPath(t.kind.logPath, e1.daily.date);
      var kept := if p in w.files && e1.daily.ageHours > DailyFile.RetentionHours then "" else Content(w.files, p);
      Lookup(Dispatch(w, [t, t], [e1, e2], lvl, msg).files, p) == Some(kept + msg + msg)
  {
    var base, p := t.kind.logPath, DailyFile.DailyPath(t.kind.logPath, e1.daily.date);
    var ts, envs := [t, t], [e1, e2];
    assert Recipients(ts, lvl, 2) == [];
    assert Recipients(ts, lvl, 1) == [1];
    assert Recipients(ts, lvl, 0) == [0, 1];
    var w1 := Targets.Append(w, t.kind, e1, msg);
    var w2 := Targets.Append(w1, t.kind, e2, msg);
    assert AppendInOrder(w1, ts, envs, [1], msg) == AppendInOrder(w2, ts, envs, [], msg);
    assert Dispatch(w, ts, envs, lvl, msg) == w2;
    DailyFile.AppendSpec(w, base, e1.daily, msg);
    DailyFile.AppendSpec(w1, base, e2.daily, msg);
  }

  /** Diagnostic printed when the logger is not ready. */
  const NotReady: string := "[ Logger ] log path is not set.\n"

  /** The logger after a call, and what the call printed to standard output itself. */
  datatype LogResult = LogResult(logger: Logger, console: string)

  /** `Logger.log`: a diagnostic when the logger is not ready, then the fan-out. */
  function Log(l: Logger, lvl: LogLevel, msg: string): LogResult {
    LogResult(l.(targets := Deliver(l.targets, lvl, msg)), if l.isReady then "" else NotReady)
  }

  /** The targets that gain the line are exactly the recipients, each gaining it once. */
  lemma LogReachesExactlyRecipients(l: Logger, lvl: LogLevel, msg: string, i: nat)
    requires i < |l.targets|
    ensures var after := Log(l, lvl, msg).logger.targets[i];
      (i in Recipients(l.targets, lvl, 0) ==> after.lines == l.targets[i].lines + [msg])
      && (i !in Recipients(l.targets, lvl, 0) ==> after == l.targets[i])
  {
  }

  /** Readiness only decides the diagnostic: the targets end up the same either way. */
  lemma ReadinessOnlyAddsDiagnostic(l: Logger, lvl: LogLevel, msg: string, ready: bool)
    ensures Log(l.(isReady := ready), lvl, msg).logger.targets == Log(l, lvl, msg).logger.targets
    ensures Log(l, lvl, msg).console == NotReady <==> !l.isReady
    ensures l.isReady ==> Log(l, lvl, msg).console == ""
  {
  }

  /** `Logger.IsEnabled` tells whether the first target would receive a line at `lvl`. */
  lemma IsEnabledMeansFirstTargetReceives(l: Logger, lvl: LogLevel, msg: string)
    ensures IsEnabled(l, lvl) <==>
      |l.targets| > 0 && Log(l, lvl, msg).logger.targets[0].lines == l.targets[0].lines + [msg]
  {
    if |l.targets| > 0 {
      var before := l.targets[0].lines;
      assert |before + [msg]| != |before|;
    }
  }

  /** The lifecycle keeps the logger ready exactly when it has targets, and then the
      diagnostic appears exactly when there is no target. */
  lemma WellFormedLifecycle(l: Logger, t: Target, lvl: LogLevel, msg: string, colored: bool)
    ensures WellFormed(NewLogger(colored))
    ensures WellFormed(AddTarget(l, t))
    ensures WellFormed(l) ==> WellFormed(Log(l, lvl, msg).logger)
    ensures WellFormed(l) ==> (Log(l, lvl, msg).console == NotReady <==> |l.targets| == 0)
  {
  }

  /** The two-target logger of the package test, both at INFO: TRACE and DEBUG are
      disabled, INFO and ERROR enabled. */
  lemma InfoThresholdExample()
    ensures var l := AddTarget(AddTarget(NewLogger(false), NewTarget(Console, INFO)),
                               NewTarget(SizeFile(SizeRotation.SizeConfig(10, 10, "/tmp/message")), INFO));
      !IsEnabled(l, TRACE) && !IsEnabled(l, DEBUG) && IsEnabled(l, INFO) && IsEnabled(l, ERROR)
  {
  }

  // ---- a run of calls ----

  /** One call of `log`: a level and a formatted line. */
  datatype Event = Event(level: LogLevel, line: string)

  /** The lines of `events` that a target with threshold `threshold` accepts, in order. */
  function Admitted(events: seq<Event>, threshold: LogLevel): seq<string>
    decreases |events|
  {
    if |events| == 0 then []
    else (if Admits(threshold, events[0].level) then [events[0].line] else []) + Admitted(events[1..], threshold)
  }

  function LogAll(l: Logger, events: seq<Event>): LogResult
    decreases |events|
  {
    if |events| == 0 then LogResult(l, "")
    else
      var first := Log(l, events[0].level, events[0].line);
      var rest := LogAll(first.logger, events[1..]);
      LogResult(rest.logger, first.console + rest.console)
  }

  lemma AppendAssoc<T>(a: seq<T>, b: seq<T>, c: seq<T>)
    ensures (a + b) + c == a + (b + c)
  {
  }

  lemma {:induction false} LogAllKeepsTargetCount(l: Logger, events: seq<Event>)
    ensures |LogAll(l, events).logger.targets| == |l.targets|
    decreases |events|
  {
    if |events| > 0 {
      LogAllKeepsTargetCount(Log(l, events[0].level, events[0].line).logger, events[1..]);
    }
  }

  lemma {:induction false} LogAllDeliversTo(l: Logger, events: seq<Event>, i: nat)
    requires i < |l.targets|
    ensures |LogAll(l, events).logger.targets| == |l.targets|
    ensures var t := LogAll(l, events).logger.targets[i];
      t.kind == l.targets[i].kind && t.level == l.targets[i].level
      && t.lines == l.targets[i].lines + Admitted(events, l.targets[i].level)
    decreases |events|
  {
    LogAllKeepsTargetCount(l, events);
    if |events| > 0 {
      var e := events[0];
      var t := l.targets[i];
      var first := Log(l, e.level, e.line).logger;
      var now := if Admits(t.level, e.level) then [e.line] else [];
      assert first.targets[i].lines == t.lines + now;
      LogAllDeliversTo(first, events[1..], i);
      var later := Admitted(events[1..], t.level);
      assert Admitted(events, t.level) == now + later;
      assert LogAll(l, events).logger == LogAll(first, events[1..]).logger;
      AppendAssoc(t.lines, now, later);
    }
  }

  /** Over any run of calls, each target receives exactly the lines its threshold admits,
      each once and in call order, after what it held before. */
  lemma LogAllDelivers(l: Logger, events: seq<Event>)
    ensures |LogAll(l, events).logger.targets| == |l.targets|
    ensures forall i :: 0 <= i < |l.targets| ==>
      LogAll(l, events).logger.targets[i].kind == l.targets[i].kind
      && LogAll(l, events).logger.targets[i].level == l.targets[i].level
      && LogAll(l, events).logger.targets[i].lines == l.targets[i].lines + Admitted(events, l.targets[i].level)
  {
    LogAllKeepsTargetCount(l, events);
    forall i | 0 <= i < |l.targets| {
      LogAllDeliversTo(l, events, i);
    }
  }

  // ---- the leveled methods ----

  /** Trace, Debug, Info, Warn, Error and Fatal. */
  datatype Severity = Trace | Debug | Info | Warn | Error | Fatal

  function SeverityLevel(s: Severity): LogLevel {
    match s
    case Trace => TRACE
    case Debug => DEBUG
    case Info => INFO
    case Warn => WARN
    case Error => ERROR
    case Fatal => FATAL
  }

  /** A leveled call's effect, and the exit status the process terminates with, if any. */
  datatype EmitResult = EmitResult(logger: Logger, console: string, exitCode: Option<int>)

  /** `Logger.Trace` … `Logger.Fatal`: format the message for the given clock reading and call
      site, dispatch it, and for Fatal end the process with status 1 afterwards. */
  function Emit(l: Logger, s: Severity, t: Format.Stamp, caller: Option<Format.Caller>, msg: string): (r: EmitResult)
    ensures r.exitCode == (if s == Fatal then Some(1) else None)
    ensures |r.logger.targets| == |l.targets| && r.logger.useColoredLevelName == l.useColoredLevelName
    ensures forall i :: 0 <= i < |l.targets| ==>
      r.logger.targets[i].kind == l.targets[i].kind && r.logger.targets[i].level == l.targets[i].level
    ensures var line := Format.LogFormat(t, SeverityLevel(s), l.useColoredLevelName, msg, caller);
      forall i :: 0 <= i < |l.targets| ==>
        r.logger.targets[i].lines == l.targets[i].lines + (if l.targets[i].IsEnabled(SeverityLevel(s)) then [line] else [])
  {
    var lvl := SeverityLevel(s);
    var r := Log(l, lvl, Format.LogFormat(t, lvl, l.useColoredLevelName, msg, caller));
    EmitResult(r.logger, r.console, if s == Fatal then Some(1) else None)
  }
}
