/** The closed set of log destinations and the dispatch of an append to the
    destination-specific behaviour. */
module Targets {
  import opened Wrappers
  import opened FileSystem
  import SizeRotation
  import DailyFile

  /** Console, size-rotated file, or daily file. */
  datatype TargetKind =
    | Console
    | SizeFile(config: SizeRotation.SizeConfig)
    | DailyFile(logPath: Path)

  /** Everything outside the model that one append consults: the clock and the
      file-system outcomes the daily target needs, and the open result of the size target. */
  datatype AppendEnv = AppendEnv(daily: DailyFile.DailyEnv, sizeOpenError: Option<string>)

  /** `Append` of the target interface: each kind writes only to its own destination. */
  function Append(w: World, kind: TargetKind, env: AppendEnv, msg: string): (r: World)
    ensures kind.Console? ==> r == World(w.console + msg, w.files)
    ensures kind.SizeFile? ==> forall p ::
      !SizeRotation.IsTargetFile(kind.config.logPath, SizeRotation.TopBackup(kind.config.numFiles), p) ==>
        Lookup(r.files, p) == Lookup(w.files, p)
    ensures kind.DailyFile? ==> forall p :: p != DailyFile.DailyPath(kind.logPath, env.daily.date) ==>
      Lookup(r.files, p) == Lookup(w.files, p)
  {
    match kind
    case Console => World(w.console + msg, w.files)
    case SizeFile(c) =>
      SizeRotation.AppendSpec(w, c, msg, env.sizeOpenError);
      SizeRotation.Append(w, c, msg, env.sizeOpenError).world
    case DailyFile(base) =>
      DailyFile.AppendSpec(w, base, env.daily, msg);
      DailyFile.Append(w, base, env.daily, msg)
  }
}
