# A Dafny model of go-logger's decision logic

This project models the core of `logger.go`, a small leveled logging package.
The package stamps messages with the time and a level. It fans them out to a
console target and to file targets. A size-rotated file target keeps numbered
backups. A daily file target writes one file per calendar day. A process-wide
registry holds the singleton logger.

The operating system, the clock and stack introspection are replaced by
parameters:

- files are a map from path to content (`FileSystem.World`), and standard
  output is a string;
- the clock is passed in as calendar fields (`Format.Stamp`,
  `DailyFile.Date`), and a file's age as a whole number of hours;
- the caller frame is an optional `(file, line)` pair;
- whatever an OS call would report (open failure, mkdir failure) is an
  explicit `Option<string>` error parameter.

Modules, leaves first:

- `Wrappers`: `Option`.
- `Decimal`: `%d` and `%0Nd` rendering, plus a parser to read numbers back.
- `Levels`: the eight levels, their names, threshold filtering, and
  `GetLevelByName`.
- `FileSystem`: paths, contents, and the `stat`/`rename`/`remove`/append
  semantics the targets rely on.
- `SizeRotation`: `logTargetFileBySize.Append` and `RotateLogFiles`.
- `DailyFile`: `logTargetFileDaily.Append`, with path derivation and the
  retention check.
- `Targets`: the closed set of target kinds and their `Append`.
- `Format`: the line layout of `logFormat`.
- `Loggers`: the logger as a value, with `AddTarget`, `IsEnabled`, the fan-out
  of `log`, and the leveled methods.
- `Singleton`: `InitLogger` and `GetLogger`.

Each logger target is a threshold plus the record of lines handed to the
target's `Append`. That record is not the destination's content. What the
destination then holds is given by `Targets.Append` on the `World`: a
size-rotated file, for example, may have moved earlier lines into its
backups, as `SizeRotation.AppendAllConservesArchive` describes.
`Loggers.Dispatch` runs the fan-out of `log` against the `World` itself.

Behaviour of the Go code that is easy to misread:

- The "log path is not set" diagnostic depends only on the readiness flag.
  Only `AddTarget` and `InitLogger` set that flag, and `InitLogger` does so
  (logger.go:322) after adding two targets. So under `Loggers.WellFormed`
  (ready exactly when there are targets), which every operation preserves, the
  diagnostic appears exactly when the logger has no target.
- When `numFiles` is 1 or less, a rotation still moves the live file to
  `path.1`. The rotation loop is then empty, but the final rename is
  unconditional. So the highest backup index written is `max(1, numFiles-1)`
  (`SizeRotation.TopBackup`).
- The top backup `path.(max(1, numFiles-1))` is overwritten only when its
  source exists: `path.(numFiles-2)` when numFiles is at least 3, the live file
  otherwise. When that source is missing, the rename does nothing and the top
  backup survives the rotation (`SizeRotation.RotatedSlot`).
- When the daily target fails to open its file, the code does not return. The
  following write and close on the nil file handle fail without effect. So the
  message is dropped, as in the size target.

## Model

| member | source | states |
|---|---|---|
| `Levels.OffSilences` | logger.go:85-87 | A threshold of OFF admits only OFF, so every level from ALL through FATAL is rejected |
| `Levels.AllAdmitsEverything` | logger.go:85-87 | A threshold of ALL admits every level |
| `Levels.AdmitsMonotone` | logger.go:85-87 | The admitted levels are upward-closed in the level and downward-closed in the threshold |
| `Levels.NamesFoldDistinct` | logger.go:38-47 | No two level names are equal ignoring case |
| `Levels.GetLevelByName` | logger.go:327-334 | If some level name equals the argument ignoring case, the result is such a level; if none does, the result is ALL |
| `Levels.LevelNameRoundTrip` | logger.go:327-334 | Looking up any level's own name returns that level |
| `Levels.GetLevelByNameIgnoresCase` | logger.go:327-334 | Two names that differ only in letter case select the same level |
| `Levels.LowerCaseNameRoundTrip` | logger.go:329 | A level's name written in lower case still selects that level |
| `Decimal.ParsePadZero` | logger.go:250-254 | A zero-padded `%0Nd` field reads back as the number printed |
| `Decimal.DecimalStringInjective` | logger.go:143 | Distinct backup numbers give distinct suffixes, so the `path.i` names never collide |
| `FileSystem.FileSize` | logger.go:338-345 | A missing file has size 0; an existing file has the length of its content |
| `FileSystem.Rename` | logger.go:143-145 | The destination gets the source's content and the source disappears; a missing source changes nothing, the destination included; no other path changes |
| `SizeRotation.RotateLogFilesSpec` | logger.go:141-146 | After a rotation the live path is absent. Backup k holds what backup k-1 held (backup 1 gets the live file); if that source was missing, the top backup `max(1, numFiles-1)` keeps its content and lower backups are absent. Every path outside the live file and backups 1..max(1, numFiles-1) is unchanged |
| `SizeRotation.RotateConservesArchive` | logger.go:141-146 | The concatenation of backups (oldest first) and the live file is preserved by a rotation, except that the overwritten top backup is dropped from the front |
| `SizeRotation.AppendSpec` | logger.go:123-139 | Rotation happens iff size (missing file = 0) + message length > limit. After a successful open the live file ends with the message; after a rotation it holds only the message, and the previous live content is at `.1`. A failed open only prints the diagnostic. Files outside the target's set are unchanged |
| `SizeRotation.AppendKeepsBackupsBounded` | logger.go:123-146 | If no backup above `max(1, numFiles-1)` exists before an append, none exists after it |
| `SizeRotation.AppendAllConservesArchive` | logger.go:123-139 | Over any run of appends, each with its own open outcome, the initial archive followed by the messages whose open succeeded equals the rotations' evicted content followed by the final archive: a failed open drops its message (after any rotation), and otherwise no line is lost or reordered except by eviction |
| `SizeRotation.AppendAllKeepsBackupsBounded` | logger.go:123-146 | However many appends, rotations and failed opens happen, no backup index above `max(1, numFiles-1)` ever appears |
| `DailyFile.MissingFileNeverExpires` | logger.go:347-352 | A missing file counts as age 0 and is never old enough to delete |
| `DailyFile.AppendSpec` | logger.go:160-191 | A mkdir failure drops the message and changes no file. Otherwise an existing day's file is discarded iff it is older than 24*360 hours, and a successful open leaves it holding its surviving content followed by the message. An open failure prints the diagnostic. No other file changes |
| `DailyFile.DailyPathInjective` | logger.go:165-175 | For valid dates, `base/MM/MMDD.log` is equal for two dates iff their month and day are equal |
| `Targets.Append` | logger.go:103-191 | The console target only extends standard output. A size target touches only its live file and backups. A daily target touches only the day's file |
| `Format.FormatRoundTrip` | logger.go:243-264 | A formatted line parses back into the timestamp fields, the level's printed name (padding removed), and the message followed by the call site |
| `Format.PlainLevelRoundTrip` | logger.go:253-254 | In the uncoloured layout, the level is recovered from the line by name lookup |
| `Format.UnknownCaller` | logger.go:259-264 | An unresolved call site prints as ` [???:0]` and a newline |
| `Loggers.AddTarget` | logger.go:206-209 | The new target is appended after the existing ones, which keep their order, and the logger becomes ready |
| `Loggers.Recipients` | logger.go:274-278 | The targets `log` appends to are listed in strictly increasing position, so each appears at most once; they are exactly the targets admitting the level |
| `Loggers.Deliver` | logger.go:274-278 | Each target admitting the level gains the line once at the end of its record; every other target is unchanged; kinds and thresholds never change |
| `Loggers.LogReachesExactlyRecipients` | logger.go:269-279 | A target gains the line iff it is a recipient; non-recipients are left exactly as they were |
| `Loggers.ReadinessOnlyAddsDiagnostic` | logger.go:269-272 | An unset readiness flag only adds the diagnostic; the targets end up the same as when ready |
| `Loggers.IsEnabledMeansFirstTargetReceives` | logger.go:211-216 | `IsEnabled` is false without targets; otherwise it holds iff the first target would receive a line at that level |
| `Loggers.WellFormedLifecycle` | logger.go:202-209 | New, add-target and log keep "ready iff there are targets"; under it, the diagnostic appears iff there is no target |
| `Loggers.InfoThresholdExample` | logger_test.go:20-27 | With two INFO targets, TRACE and DEBUG are disabled and INFO and ERROR are enabled |
| `Loggers.Dispatch` | logger.go:274-278 | The fan-out on the world is the targets' `Append` calls, performed in insertion order on exactly the admitting positions (`Recipients`), each once, every call seeing its own clock reading and file-system outcomes; with no admitting target the world is unchanged |
| `Loggers.ConsoleDispatch` | logger.go:103-107 | With only console targets, one call prints the line once for every admitting position, a target listed twice printing it twice, and leaves the files alone |
| `Loggers.AliasedDailyAppendsTwice` | logger.go:160-191 | A daily target listed twice appends the line twice to the day's file: the first append may discard an expired file, the second (which sees a fresh file) keeps it and appends again |
| `Loggers.LogAllDelivers` | logger.go:269-279 | Over any run of calls, each target receives exactly the lines its threshold admits, once each and in call order |
| `Loggers.Emit` | logger.go:218-241 | A leveled call hands its formatted line to exactly the targets admitting that level; only Fatal ends the process, with status 1 |
| `Singleton.FreshLogger` | logger.go:310-322 | A fresh logger is ready with exactly [console, daily file] for RollDaily and [console, size file] for any other selector; both targets are at the requested threshold and have no lines yet |
| `Singleton.InitLogger` | logger.go:301-325 | With an instance present and no force, the registry and the returned instance are unchanged; otherwise a fresh logger with a new identity is stored and returned |
| `Singleton.GetLogger` | logger.go:284-290 | Defined only after initialisation; returns the stored instance |
| `Singleton.InitTwiceSameInstance` | logger.go:306-308 | Two unforced initialisations return the identical instance, whatever the second call's configuration |
| `Singleton.ForceGivesNewInstance` | logger.go:306-310 | A forced initialisation returns an instance distinct from every earlier one |
| `Singleton.InitThenGetExample` | logger_test.go:36-38 | After forced initialisation, `GetLogger` returns that same instance, the logger reports every level enabled, and both of its targets admit every level |
| `Singleton.InfoEndToEnd` | logger.go:243-279 | A logger initialised at INFO and called at TRACE, INFO and ERROR hands each target's `Append` exactly the INFO line then the ERROR line, and the INFO line carries the message text |

## Left out

- Mutexes: the per-target locks, the registry lock, and concurrent appends. Every operation is modelled as atomic.
- `time.Now()`: the clock is a parameter. The format and the daily target read the same kind of fields, but their separate clock readings are not tied together.
- The float `Hours()` comparison: the file's age is a whole number of hours. A stat error other than "does not exist" makes the modification time zero and the file very old; that case is not modelled.
- `runtime.Caller` and `filepath.Base`: the call site is passed in as an optional (base name, line).
- `fmt.Sprintf` beyond the fixed layout: `%d` on negative numbers is not modelled. All date and time fields are natural numbers. The round trips (`Format.FormatRoundTrip`, `Format.PlainLevelRoundTrip`, `Singleton.InfoEndToEnd`) assume a four-digit year and two-digit other fields (`Format.FixedWidth`): from year 10000 on, `%04d` prints five digits and the fixed-offset reading no longer applies.
- Levels outside 0..7: Go allows any `LogLevel` integer, which would panic when formatted. The model's `LogLevel` is limited to the eight declared values.
- `Levels.GetLevelByName`: case folding covers ASCII letters only. This is exact for the eight level names. Their letters have no non-ASCII fold partners (only k and s do).
- Bytes vs characters: a character stands for a byte, so `len(msg)` is the sequence length. The `int64` sums in the size check are unbounded integers.
- `os.MkdirAll` and `isExist`: reduced to one error parameter, whose `None` means the month directory exists or was created. Directories are not tracked in the file map.
- `os.Remove` is assumed to succeed. Open failure is modelled only as a dropped message plus a diagnostic.
- `os.Rename` errors: the rotation's renames (whose errors the code ignores) are assumed to succeed whenever the source exists. A rename that fails for another reason, leaving both paths unchanged, is not modelled.
- `f.WriteString` errors: the code ignores them, and the model always writes the whole message once the open succeeded. Short or failed writes are not modelled.
- Target aliasing: Go targets are pointers, so a target added twice appends twice to one destination. On the `World`, `Loggers.Dispatch` appends once per position, and files are identified by path, so the destination receives both appends (`Loggers.ConsoleDispatch`, `Loggers.AliasedDailyAppendsTwice`). The per-target record of handed lines is kept per position.
- Loggers.Dispatch: each position's clock reading and file-system outcomes are free parameters, one per `Append` call. The model does not derive a later call's observed file age from an earlier call's write in the same fan-out, where Go would see an age of about zero. `Loggers.AliasedDailyAppendsTwice` states the outcome when that later age is within the retention horizon.
- `os.Exit` in `Fatal` is an exit-status field of the result. In `GetLogger` it is the precondition that the registry was initialised.
- The base `logTarget.Append` (an empty method) and the `NewConsole`/`NewLogTarget*` constructors: these are plain record construction (`Loggers.NewTarget`).
- Go pointer identity: represented by an instance identity number that the registry hands out. A logger's record of delivered lines belongs to the value that `log` returns; the registry does not track it.
- The benchmark and fake-message helpers of the test file.
