/** The daily file target: each append goes to `base/MM/MMDD.log` for the
    current month and day, after deleting that file if it is older than the
    retention horizon of 24*360 hours. */
module DailyFile {
  import opened Wrappers
  import opened FileSystem
  import Decimal

  /** The calendar fields of the clock reading taken by an append. */
  datatype Date = Date(month: nat, day: nat)

  /** What the clock can report: a month 1..12 and a day 1..31. */
  predicate ValidDate(d: Date) {
    1 <= d.month <= 12 && 1 <= d.day <= 31
  }

  /** The month directory `base/MM`. */
  function MonthDir(base: Path, month: nat): Path {
    base + "/" + Decimal.PadZero(month, 2)
  }

  /** The day's file `base/MM/MMDD.log`, which lies inside its month directory `MonthDir`. */
  function DailyPath(base: Path, d: Date): Path {
    MonthDir(base, d.month) + "/" + Decimal.PadZero(d.month, 2) + Decimal.PadZero(d.day, 2) + ".log"
  }

  /** Files older than this many hours are deleted before the next write to them. */
  const RetentionHours: int := 24 * 360

  /** The age in hours that the retention check sees for `p`: `ageIfPresent` for an
      existing file, and 0 for a missing one (its modification time reads as "now"). */
  function FileAgeHours(fs: Files, p: Path, ageIfPresent: int): int {
    if p in fs then ageIfPresent else 0
  }

  predicate Expired(ageHours: int) {
    ageHours > RetentionHours
  }

  /** A missing file is never old enough to be deleted. */
  lemma MissingFileNeverExpires(fs: Files, p: Path, ageIfPresent: int)
    requires p !in fs
    ensures !Expired(FileAgeHours(fs, p, ageIfPresent))
  {
  }

  /** The outside world as one append observes it: the clock's date, the age of the day's
      file if it exists, whether the month directory is missing and cannot be created, and
      whether the day's file fails to open. */
  datatype DailyEnv = DailyEnv(date: Date, ageHours: int, dirError: Option<string>, openError: Option<string>)

  function MkdirFailed(dir: Path, err: string): string {
    "[ logTargetFileDaily:Append() ] Mkdir(\"" + dir + "\") failed, error=" + err
  }

  function OpenFailed(path: Path, err: string): string {
    "[ logTargetFileDaily:Append() ] file(\"" + path + "\") open failed, error=" + err
  }

  /** `logTargetFileDaily.Append`. */
  function Append(w: World, base: Path, env: DailyEnv, msg: string): World {
    var dir := MonthDir(base, env.date.month);
    match env.dirError
    case Some(err) => World(w.console + MkdirFailed(dir, err), w.files)
    case None =>
      var path := DailyPath(base, env.date);
      var files := if Expired(FileAgeHours(w.files, path, env.ageHours)) then Remove(w.files, path) else w.files;
      match env.openError
      case Some(err) => World(w.console + OpenFailed(path, err), files)
      case None => World(w.console, AppendFile(files, path, msg))
  }

  /** An existing day's file is discarded exactly when it is older than the horizon; a
      successful append leaves the day's file holding its surviving content followed by the
      message; a directory failure drops the message and changes no file; no file other
      than the day's file ever changes. */
  lemma AppendSpec(w: World, base: Path, env: DailyEnv, msg: string)
    ensures var r := Append(w, base, env, msg);
      var path := DailyPath(base, env.date);
      var kept := if path in w.files && env.ageHours > RetentionHours then None else Lookup(w.files, path);
      && (env.dirError.Some? ==>
           r == World(w.console + MkdirFailed(MonthDir(base, env.date.month), env.dirError.value), w.files))
      && (env.dirError.None? && env.openError.None? ==>
           r.console == w.console && Lookup(r.files, path) == Some(kept.GetOr("") + msg))
      && (env.dirError.None? && env.openError.Some? ==>
           r.console == w.console + OpenFailed(path, env.openError.value) && Lookup(r.files, path) == kept)
      && (forall q :: q != path ==> Lookup(r.files, q) == Lookup(w.files, q))
  {
  }

  /** The day's path determines the month and day: two dates share a file exactly when
      they agree on both. */
  lemma DailyPathInjective(base: Path, d1: Date, d2: Date)
    requires ValidDate(d1) && ValidDate(d2)
    ensures DailyPath(base, d1) == DailyPath(base, d2) <==> d1 == d2
  {
    if DailyPath(base, d1) == DailyPath(base, d2) {
      DailyPathFields(base, d1);
      DailyPathFields(base, d2);
      Decimal.ParsePadZero(d1.month, 2);
      Decimal.ParsePadZero(d2.month, 2);
      Decimal.ParsePadZero(d1.day, 2);
      Decimal.ParsePadZero(d2.day, 2);
    }
  }

  /** Where the month and day digits sit in a day's path. */
  lemma DailyPathFields(base: Path, d: Date)
    requires ValidDate(d)
    ensures var p, n := DailyPath(base, d), |base|;
      && |p| == n + 12
      && p[n + 1..n + 3] == Decimal.PadZero(d.month, 2)
      && p[n + 6..n + 8] == Decimal.PadZero(d.day, 2)
  {
    Decimal.TwoWide(d.month);
    Decimal.TwoWide(d.day);
  }
}
