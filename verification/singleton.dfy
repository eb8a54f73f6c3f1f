/** The process-wide logger registry. Its state is the optional current
    instance; instances carry an identity so that "the same logger" and "a
    fresh logger" can be told apart even when their contents coincide. */
module Singleton {
  import opened Wrappers
  import opened Levels
  import opened Targets
  import opened Loggers
  import SizeRotation
  import Format

  /** Rotation policy selector: daily (1) or size (2); any value but daily selects size rotation. */
  type RollType = int

  const RollDaily: RollType := 1
  const RollSize: RollType := 2

  /** A logger together with the identity of the object holding it. */
  datatype Instance = Instance(id: nat, logger: Logger)

  /** The current instance, if any, and the identity the next fresh instance will get. */
  datatype Registry = Registry(current: Option<Instance>, nextId: nat)

  /** The registry at process start: no instance yet. */
  const Uninitialized: Registry := Registry(None, 0)

  /** Identities already handed out are below `nextId`. */
  predicate Valid(r: Registry) {
    r.current.Some? ==> r.current.value.id < r.nextId
  }

  function FileTarget(lvl: LogLevel, limitSize: int, numFiles: int, logPath: string, rollType: RollType): Target {
    if rollType == RollDaily then NewTarget(DailyFile(logPath), lvl)
    else NewTarget(SizeFile(SizeRotation.SizeConfig(limitSize, numFiles, logPath)), lvl)
  }

  /** The logger `InitLogger` builds: ready, a console target then one file target (daily
      for RollDaily, size-rotated for any other selector), both at threshold `lvl`, empty. */
  function FreshLogger(lvl: LogLevel, limitSize: int, numFiles: int, logPath: string,
                       rollType: RollType, colored: bool): (l: Logger)
    ensures l.isReady && WellFormed(l) && l.useColoredLevelName == colored
    ensures |l.targets| == 2 && l.targets[0].kind == Console
    ensures l.targets[1].kind ==
      if rollType == RollDaily then DailyFile(logPath) else SizeFile(SizeRotation.SizeConfig(limitSize, numFiles, logPath))
    ensures forall i :: 0 <= i < 2 ==> l.targets[i].level == lvl && l.targets[i].lines == []
  {
    var withConsole := AddTarget(NewLogger(colored), NewTarget(Console, lvl));
    var withFile := AddTarget(withConsole, FileTarget(lvl, limitSize, numFiles, logPath, rollType));
    withFile.(isReady := true)
  }

  datatype InitResult = InitResult(registry: Registry, instance: Instance)

  /** `InitLogger`: an existing instance is returned unchanged unless `force` is set;
      otherwise a fresh instance replaces it and is returned. */
  function InitLogger(reg: Registry, lvl: LogLevel, limitSize: int, numFiles: int, logPath: string,
                      rollType: RollType, colored: bool, force: bool): (r: InitResult)
    ensures reg.current.Some? && !force ==> r.registry == reg && r.instance == reg.current.value
    ensures reg.current.None? || force ==>
      r.instance.logger == FreshLogger(lvl, limitSize, numFiles, logPath, rollType, colored)
      && r.instance.id == reg.nextId && r.registry.nextId == reg.nextId + 1
    ensures r.registry.current == Some(r.instance)
    ensures Valid(reg) ==> Valid(r.registry)
  {
    if reg.current.Some? && !force then InitResult(reg, reg.current.value)
    else
      var inst := Instance(reg.nextId, FreshLogger(lvl, limitSize, numFiles, logPath, rollType, colored));
      InitResult(Registry(Some(inst), reg.nextId + 1), inst)
  }

  /** `GetLogger`: only defined once the registry has been initialised (before that the
      process exits). */
  function GetLogger(reg: Registry): (i: Instance)
    requires reg.current.Some?
    ensures reg.current == Some(i)
  {
    reg.current.value
  }

  /** Two initialising calls without `force` yield the identical instance, whatever the
      second call's configuration. */
  lemma InitTwiceSameInstance(reg: Registry,
                              lvl: LogLevel, limitSize: int, numFiles: int, logPath: string, rollType: RollType, colored: bool,
                              lvl': LogLevel, limitSize': int, numFiles': int, logPath': string, rollType': RollType, colored': bool)
    ensures var first := InitLogger(reg, lvl, limitSize, numFiles, logPath, rollType, colored, false);
      var second := InitLogger(first.registry, lvl', limitSize', numFiles', logPath', rollType', colored', false);
      second.instance == first.instance && second.registry == first.registry
  {
  }

  /** A forced initialisation yields an instance distinct from every earlier one. */
  lemma ForceGivesNewInstance(reg: Registry, lvl: LogLevel, limitSize: int, numFiles: int, logPath: string,
                              rollType: RollType, colored: bool)
    requires Valid(reg)
    ensures var r := InitLogger(reg, lvl, limitSize, numFiles, logPath, rollType, colored, true);
      (reg.current.Some? ==> r.instance.id != reg.current.value.id) && r.instance.id >= reg.nextId
  {
  }

  /** The package test: forced initialisation at ALL with size rotation, then `GetLogger`,
      returns that very instance, whose two targets admit every level. */
  lemma InitThenGetExample(reg: Registry)
    ensures var r := InitLogger(reg, ALL, 10, 10, "/tmp/message", RollSize, true, true);
      GetLogger(r.registry) == r.instance
      && r.instance.logger.targets[1].kind == SizeFile(SizeRotation.SizeConfig(10, 10, "/tmp/message"))
      && (forall l: LogLevel :: IsEnabled(r.instance.logger, l))
      && forall i, l: LogLevel :: 0 <= i < 2 ==> r.instance.logger.targets[i].IsEnabled(l)
  {
  }

  /** Two leveled calls that an empty target accepts leave it holding the two lines in order. */
  lemma DeliverTwice(l: Logger, s2: Severity, s3: Severity, t: Format.Stamp,
                     caller: Option<Format.Caller>, m2: string, m3: string, i: nat)
    requires i < |l.targets| && l.targets[i].lines == []
    requires l.targets[i].IsEnabled(SeverityLevel(s2)) && l.targets[i].IsEnabled(SeverityLevel(s3))
    ensures var e3 := Emit(Emit(l, s2, t, caller, m2).logger, s3, t, caller, m3);
      && |e3.logger.targets| == |l.targets|
      && e3.logger.targets[i].lines == [Format.LogFormat(t, SeverityLevel(s2), l.useColoredLevelName, m2, caller),
                                        Format.LogFormat(t, SeverityLevel(s3), l.useColoredLevelName, m3, caller)]
  {
  }

  /** Three leveled calls on an empty target that rejects the first severity and accepts the
      other two leave it holding the second line then the third. */
  lemma SkipThenDeliverTwice(l: Logger, s1: Severity, s2: Severity, s3: Severity, t: Format.Stamp,
                             caller: Option<Format.Caller>, m1: string, m2: string, m3: string, i: nat)
    requires i < |l.targets| && l.targets[i].lines == []
    requires !l.targets[i].IsEnabled(SeverityLevel(s1))
    requires l.targets[i].IsEnabled(SeverityLevel(s2)) && l.targets[i].IsEnabled(SeverityLevel(s3))
    ensures var e1 := Emit(l, s1, t, caller, m1);
      var e3 := Emit(Emit(e1.logger, s2, t, caller, m2).logger, s3, t, caller, m3);
      && |e3.logger.targets| == |l.targets|
      && e3.logger.targets[i].lines == [Format.LogFormat(t, SeverityLevel(s2), l.useColoredLevelName, m2, caller),
                                        Format.LogFormat(t, SeverityLevel(s3), l.useColoredLevelName, m3, caller)]
  {
    var e1 := Emit(l, s1, t, caller, m1);
    assert e1.logger.targets[i].lines == [];
    DeliverTwice(e1.logger, s2, s3, t, caller, m2, m3, i);
  }

  /** End to end: a logger initialised at INFO, called at TRACE, INFO and ERROR, hands each of
      its targets exactly two lines, the INFO line then the ERROR line, and the INFO line reads
      back with the message text at its place. */
  lemma InfoEndToEnd(rollType: RollType, colored: bool, t: Format.Stamp, caller: Option<Format.Caller>,
                     m1: string, m2: string, m3: string)
    requires Format.FixedWidth(t)
    ensures var l := InitLogger(Uninitialized, INFO, 10, 10, "/tmp/message", rollType, colored, false).instance.logger;
      var e1 := Emit(l, Trace, t, caller, m1);
      var e2 := Emit(e1.logger, Info, t, caller, m2);
      var e3 := Emit(e2.logger, Error, t, caller, m3);
      var infoLine := Format.LogFormat(t, INFO, colored, m2, caller);
      && |e3.logger.targets| == 2
      && (forall i :: 0 <= i < 2 ==>
           e3.logger.targets[i].lines == [infoLine, Format.LogFormat(t, ERROR, colored, m3, caller)])
      && Format.ParseLine(infoLine, colored).Some?
      && m2 <= Format.ParseLine(infoLine, colored).value.body
  {
    var l := InitLogger(Uninitialized, INFO, 10, 10, "/tmp/message", rollType, colored, false).instance.logger;
    SkipThenDeliverTwice(l, Trace, Info, Error, t, caller, m1, m2, m3, 0);
    SkipThenDeliverTwice(l, Trace, Info, Error, t, caller, m1, m2, m3, 1);
    Format.FormatRoundTrip(t, INFO, colored, m2, caller);
  }
}
