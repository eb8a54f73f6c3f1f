/** The size-rotated file target: before a write that would push the live
    file over its byte limit, backups `path.1 … path.(numFiles-1)` are shifted
    up by one and the live file becomes `path.1`. */
module SizeRotation {
  import opened Wrappers
  import opened FileSystem
  import Decimal

  /** Parameters of a size-rotated target: byte limit, number of files kept, live file path. */
  datatype SizeConfig = SizeConfig(limitSize: int, numFiles: int, logPath: Path)

  /** The name of backup `i`: `base.i`. */
  function BackupPath(base: Path, i: nat): Path {
    base + "." + Decimal.DecimalString(i)
  }

  /** The highest backup index a rotation writes: numFiles-1, and never less than 1,
      since the live file is always moved to `.1`. */
  function TopBackup(numFiles: int): nat {
    if numFiles >= 2 then numFiles - 1 else 1
  }

  /** `p` is the live file or one of backups 1..top. */
  ghost predicate IsTargetFile(base: Path, top: nat, p: Path) {
    p == base || exists k: nat :: 1 <= k <= top && p == BackupPath(base, k)
  }

  lemma BackupPathIsNotBase(base: Path, i: nat)
    ensures BackupPath(base, i) != base
  {
    assert |BackupPath(base, i)| > |base|;
  }

  lemma BackupPathsDistinct(base: Path, i: nat, j: nat)
    requires i != j
    ensures BackupPath(base, i) != BackupPath(base, j)
  {
    var a, b := BackupPath(base, i), BackupPath(base, j);
    if a == b {
      var k := |base| + 1;
      assert a[k..] == Decimal.DecimalString(i);
      assert b[k..] == Decimal.DecimalString(j);
      Decimal.DecimalStringInjective(i, j);
    }
  }

  // ---- RotateLogFiles ----

  /** The loop `for i := numFiles-2; i > 0; i--`: rename `base.i` to `base.(i+1)`. */
  function ShiftBackups(fs: Files, base: Path, i: int): Files
    decreases i
  {
    if i <= 0 then fs
    else ShiftBackups(Rename(fs, BackupPath(base, i), BackupPath(base, i + 1)), base, i - 1)
  }

  /** Shift the backups, then move the live file to `base.1`. */
  function RotateLogFiles(fs: Files, base: Path, numFiles: int): Files {
    Rename(ShiftBackups(fs, base, numFiles - 2), base, BackupPath(base, 1))
  }

  /** What backup `k` holds after a rotation: whatever its source (the live file for
      `k == 1`, backup `k-1` otherwise) held; if that source was missing, the topmost
      backup keeps its old content and every lower one is gone. */
  function RotatedSlot(fs: Files, base: Path, numFiles: int, k: nat): Option<string>
    requires 1 <= k
  {
    var src := if k == 1 then base else BackupPath(base, k - 1);
    if src in fs then Some(fs[src])
    else if k == TopBackup(numFiles) then Lookup(fs, BackupPath(base, k))
    else None
  }

  /** Paths outside the target's files are as they were in `fs0`. */
  ghost predicate FrameKept(fs0: Files, g: Files, base: Path, top: nat) {
    forall p :: !IsTargetFile(base, top, p) ==> Lookup(g, p) == Lookup(fs0, p)
  }

  /** Backups 1..i are as they were in `fs0`. */
  ghost predicate LowKept(fs0: Files, g: Files, base: Path, i: nat) {
    forall k: nat :: 1 <= k <= i ==> Lookup(g, BackupPath(base, k)) == Lookup(fs0, BackupPath(base, k))
  }

  /** Backups from..n-1 already hold their rotated content. */
  ghost predicate HighDone(fs0: Files, g: Files, base: Path, n: int, from: nat) {
    forall k: nat :: from <= k <= n - 1 && 1 <= k ==> Lookup(g, BackupPath(base, k)) == RotatedSlot(fs0, base, n, k)
  }

  /** State of the shift loop just before iteration `i`, relative to the initial files `fs0`. */
  ghost predicate ShiftInv(fs0: Files, g: Files, base: Path, n: int, i: nat)
    requires 3 <= n && i <= n - 2
  {
    && FrameKept(fs0, g, base, n - 1)
    && Lookup(g, base) == Lookup(fs0, base)
    && LowKept(fs0, g, base, i)
    && Lookup(g, BackupPath(base, i + 1)) == (if i + 1 == n - 1 then Lookup(fs0, BackupPath(base, n - 1)) else None)
    && HighDone(fs0, g, base, n, i + 2)
  }

  lemma StepFrame(fs0: Files, g: Files, base: Path, top: nat, i: nat)
    requires 1 <= i && i + 1 <= top
    requires FrameKept(fs0, g, base, top)
    ensures FrameKept(fs0, Rename(g, BackupPath(base, i), BackupPath(base, i + 1)), base, top)
  {
    assert IsTargetFile(base, top, BackupPath(base, i));
    assert IsTargetFile(base, top, BackupPath(base, i + 1));
  }

  lemma StepLow(fs0: Files, g: Files, base: Path, i: nat)
    requires 1 <= i
    requires LowKept(fs0, g, base, i)
    ensures LowKept(fs0, Rename(g, BackupPath(base, i), BackupPath(base, i + 1)), base, i - 1)
  {
    forall k: nat | 1 <= k <= i - 1
      ensures Lookup(Rename(g, BackupPath(base, i), BackupPath(base, i + 1)), BackupPath(base, k))
           == Lookup(g, BackupPath(base, k))
    {
      BackupPathsDistinct(base, k, i);
      BackupPathsDistinct(base, k, i + 1);
    }
  }

  lemma StepHigh(fs0: Files, g: Files, base: Path, n: int, i: nat)
    requires 3 <= n && 1 <= i <= n - 2
    requires HighDone(fs0, g, base, n, i + 2)
    ensures HighDone(fs0, Rename(g, BackupPath(base, i), BackupPath(base, i + 1)), base, n, i + 2)
  {
    forall k: nat | i + 2 <= k <= n - 1
      ensures Lookup(Rename(g, BackupPath(base, i), BackupPath(base, i + 1)), BackupPath(base, k))
           == Lookup(g, BackupPath(base, k))
    {
      BackupPathsDistinct(base, k, i);
      BackupPathsDistinct(base, k, i + 1);
    }
  }

  /** After renaming backup i to i+1, backup i+1 holds its rotated content. */
  lemma StepSlot(fs0: Files, g: Files, base: Path, n: int, i: nat)
    requires 3 <= n && 1 <= i <= n - 2
    requires Lookup(g, BackupPath(base, i)) == Lookup(fs0, BackupPath(base, i))
    requires Lookup(g, BackupPath(base, i + 1)) == (if i + 1 == n - 1 then Lookup(fs0, BackupPath(base, n - 1)) else None)
    ensures Lookup(Rename(g, BackupPath(base, i), BackupPath(base, i + 1)), BackupPath(base, i + 1))
         == RotatedSlot(fs0, base, n, i + 1)
    ensures Lookup(Rename(g, BackupPath(base, i), BackupPath(base, i + 1)), BackupPath(base, i)) == None
  {
    BackupPathsDistinct(base, i, i + 1);
  }

  lemma ShiftStep(fs0: Files, g: Files, base: Path, n: int, i: nat)
    requires 3 <= n && 1 <= i <= n - 2
    requires ShiftInv(fs0, g, base, n, i)
    ensures ShiftInv(fs0, Rename(g, BackupPath(base, i), BackupPath(base, i + 1)), base, n, i - 1)
  {
    var g' := Rename(g, BackupPath(base, i), BackupPath(base, i + 1));
    BackupPathIsNotBase(base, i);
    BackupPathIsNotBase(base, i + 1);
    StepFrame(fs0, g, base, n - 1, i);
    StepLow(fs0, g, base, i);
    StepHigh(fs0, g, base, n, i);
    StepSlot(fs0, g, base, n, i);
    assert HighDone(fs0, g', base, n, i + 1);
  }

  lemma {:induction false} ShiftLoop(fs0: Files, g: Files, base: Path, n: int, i: nat)
    requires 3 <= n && i <= n - 2
    requires ShiftInv(fs0, g, base, n, i)
    ensures ShiftInv(fs0, ShiftBackups(g, base, i), base, n, 0)
    decreases i
  {
    if i > 0 {
      ShiftStep(fs0, g, base, n, i);
      ShiftLoop(fs0, Rename(g, BackupPath(base, i), BackupPath(base, i + 1)), base, n, i - 1);
    }
  }

  /** A rotation empties the live file's path, fills each backup from its source as
      `RotatedSlot` says, and touches no other path. */
  lemma RotateLogFilesSpec(fs: Files, base: Path, numFiles: int)
    ensures base !in RotateLogFiles(fs, base, numFiles)
    ensures forall k: nat :: 1 <= k <= TopBackup(numFiles) ==>
      Lookup(RotateLogFiles(fs, base, numFiles), BackupPath(base, k)) == RotatedSlot(fs, base, numFiles, k)
    ensures forall p :: !IsTargetFile(base, TopBackup(numFiles), p) ==>
      Lookup(RotateLogFiles(fs, base, numFiles), p) == Lookup(fs, p)
  {
    var top := TopBackup(numFiles);
    var b1 := BackupPath(base, 1);
    BackupPathIsNotBase(base, 1);
    assert IsTargetFile(base, top, b1);
    if numFiles >= 3 {
      ShiftLoop(fs, fs, base, numFiles, numFiles - 2);
      var g := ShiftBackups(fs, base, numFiles - 2);
      forall k: nat | 2 <= k <= top
        ensures Lookup(Rename(g, base, b1), BackupPath(base, k)) == Lookup(g, BackupPath(base, k))
      {
        BackupPathsDistinct(base, k, 1);
        BackupPathIsNotBase(base, k);
      }
    }
  }

  lemma RotateSlot(fs: Files, base: Path, numFiles: int, k: nat)
    requires 1 <= k <= TopBackup(numFiles)
    ensures Lookup(RotateLogFiles(fs, base, numFiles), BackupPath(base, k)) == RotatedSlot(fs, base, numFiles, k)
  {
    RotateLogFilesSpec(fs, base, numFiles);
  }

  lemma RotateClearsLive(fs: Files, base: Path, numFiles: int)
    ensures base !in RotateLogFiles(fs, base, numFiles)
  {
    RotateLogFilesSpec(fs, base, numFiles);
  }

  /** A rotation leaves every path outside the live file and its backups as it was. */
  lemma RotateFrame(fs: Files, base: Path, numFiles: int, p: Path)
    requires !IsTargetFile(base, TopBackup(numFiles), p)
    ensures Lookup(RotateLogFiles(fs, base, numFiles), p) == Lookup(fs, p)
  {
    RotateLogFilesSpec(fs, base, numFiles);
  }

  // ---- what the target's files hold, taken together ----

  /** Backups `k` down to 1 followed by the live file, concatenated. */
  function ArchiveFrom(fs: Files, base: Path, k: nat): string
    decreases k
  {
    if k == 0 then Content(fs, base)
    else Content(fs, BackupPath(base, k)) + ArchiveFrom(fs, base, k - 1)
  }

  /** Everything the target's files hold, oldest backup first and the live file last. */
  function Archive(fs: Files, base: Path, numFiles: int): string {
    ArchiveFrom(fs, base, TopBackup(numFiles))
  }

  /** The content a rotation discards: the topmost backup, when its source exists to overwrite it. */
  function Evicted(fs: Files, base: Path, numFiles: int): string {
    var top := TopBackup(numFiles);
    var src := if top == 1 then base else BackupPath(base, top - 1);
    if src in fs then Content(fs, BackupPath(base, top)) else ""
  }

  /** Below the topmost backup, a rotated backup holds exactly its source's old content. */
  lemma RotateLowContent(fs: Files, base: Path, numFiles: int, k: nat)
    requires 1 <= k < TopBackup(numFiles)
    ensures Content(RotateLogFiles(fs, base, numFiles), BackupPath(base, k))
         == Content(fs, if k == 1 then base else BackupPath(base, k - 1))
  {
    RotateSlot(fs, base, numFiles, k);
  }

  lemma {:induction false} ArchiveShifted(fs: Files, base: Path, numFiles: int, k: nat)
    requires 1 <= k < TopBackup(numFiles)
    ensures ArchiveFrom(RotateLogFiles(fs, base, numFiles), base, k) == ArchiveFrom(fs, base, k - 1)
    decreases k
  {
    var r := RotateLogFiles(fs, base, numFiles);
    var src := if k == 1 then base else BackupPath(base, k - 1);
    RotateLowContent(fs, base, numFiles, k);
    if k == 1 {
      RotateClearsLive(fs, base, numFiles);
      assert ArchiveFrom(r, base, 0) == "";
      assert ArchiveFrom(r, base, 1) == Content(fs, base) + "";
    } else {
      ArchiveShifted(fs, base, numFiles, k - 1);
      assert ArchiveFrom(r, base, k) == Content(fs, src) + ArchiveFrom(fs, base, k - 2);
    }
  }

  /** The topmost backup after a rotation holds its source's old content, or keeps its own. */
  lemma RotateTopContent(fs: Files, base: Path, numFiles: int)
    ensures var top := TopBackup(numFiles);
      var src := if top == 1 then base else BackupPath(base, top - 1);
      Content(RotateLogFiles(fs, base, numFiles), BackupPath(base, top))
        == if src in fs then fs[src] else Content(fs, BackupPath(base, top))
  {
    RotateSlot(fs, base, numFiles, TopBackup(numFiles));
  }

  /** A rotation loses nothing but the evicted content, and keeps the order of the rest. */
  lemma RotateConservesArchive(fs: Files, base: Path, numFiles: int)
    ensures Archive(fs, base, numFiles) == Evicted(fs, base, numFiles) + Archive(RotateLogFiles(fs, base, numFiles), base, numFiles)
  {
    var top := TopBackup(numFiles);
    var r := RotateLogFiles(fs, base, numFiles);
    var bt := BackupPath(base, top);
    var src := if top == 1 then base else BackupPath(base, top - 1);
    RotateClearsLive(fs, base, numFiles);
    RotateTopContent(fs, base, numFiles);
    var ct := Content(r, bt);
    // What the rotated archive holds below the topmost backup.
    var below := if top == 1 then "" else ArchiveFrom(fs, base, top - 2);
    if top == 1 {
      assert Archive(r, base, numFiles) == ct + below;
      assert Content(fs, src) + below == Content(fs, src);
    } else {
      ArchiveShifted(fs, base, numFiles, top - 1);
      assert Archive(r, base, numFiles) == ct + below;
      assert ArchiveFrom(fs, base, top - 1) == Content(fs, src) + below;
    }
    assert Archive(fs, base, numFiles) == Content(fs, bt) + (Content(fs, src) + below);
    if src !in fs {
      assert Content(fs, src) + below == below;
    }
  }

  lemma {:induction false} ArchiveOfAppend(fs: Files, base: Path, k: nat, data: string)
    ensures ArchiveFrom(AppendFile(fs, base, data), base, k) == ArchiveFrom(fs, base, k) + data
    decreases k
  {
    var fs' := AppendFile(fs, base, data);
    if k == 0 {
      assert Content(fs', base) == Content(fs, base) + data;
    } else {
      var c := Content(fs, BackupPath(base, k));
      BackupPathIsNotBase(base, k);
      assert Content(fs', BackupPath(base, k)) == c;
      ArchiveOfAppend(fs, base, k - 1, data);
      var rest := ArchiveFrom(fs, base, k - 1);
      assert ArchiveFrom(fs', base, k) == c + (rest + data);
      assert c + (rest + data) == (c + rest) + data;
    }
  }

  // ---- Append ----

  /** The state after one append, and whether it rotated first. */
  datatype AppendOutcome = AppendOutcome(world: World, rotated: bool)

  /** Diagnostic printed (without a newline) when the live file cannot be opened. */
  function OpenFailed(path: Path, err: string): string {
    "[ logTargetFileBySize:Append() ] file(\"" + path + "\") open failed, error=" + err
  }

  /** `logTargetFileBySize.Append`. `openError` is what opening the live file reports
      (`None` when it opens); a failed open drops the message after any rotation. */
  function Append(w: World, c: SizeConfig, msg: string, openError: Option<string>): AppendOutcome {
    var rotated := FileSize(w.files, c.logPath) + |msg| > c.limitSize;
    var files := if rotated then RotateLogFiles(w.files, c.logPath, c.numFiles) else w.files;
    match openError
    case Some(err) => AppendOutcome(World(w.console + OpenFailed(c.logPath, err), files), rotated)
    case None => AppendOutcome(World(w.console, AppendFile(files, c.logPath, msg)), rotated)
  }

  /** An append rotates exactly when the live file's size (0 if missing) plus the message
      exceeds the limit; afterwards the live file ends with the message, holding only the
      message after a rotation, with the previous live content at `.1`. A failed open only
      adds a diagnostic. Nothing outside the live file and its backups changes. */
  lemma AppendSpec(w: World, c: SizeConfig, msg: string, openError: Option<string>)
    ensures var r := Append(w, c, msg, openError);
      && (r.rotated <==> (if c.logPath in w.files then |w.files[c.logPath]| else 0) + |msg| > c.limitSize)
      && (openError.None? ==> r.world.console == w.console)
      && (openError.None? ==>
           Lookup(r.world.files, c.logPath) == Some(if r.rotated then msg else Content(w.files, c.logPath) + msg))
      && (openError.Some? ==> r.world.console == w.console + OpenFailed(c.logPath, openError.value))
      && (openError.Some? ==>
           Lookup(r.world.files, c.logPath) == if r.rotated then None else Lookup(w.files, c.logPath))
      && (r.rotated && c.logPath in w.files ==>
           Lookup(r.world.files, BackupPath(c.logPath, 1)) == Some(w.files[c.logPath]))
      && (forall p :: !IsTargetFile(c.logPath, TopBackup(c.numFiles), p) ==>
           Lookup(r.world.files, p) == Lookup(w.files, p))
  {
    var base := c.logPath;
    var r := Append(w, c, msg, openError);
    var rot := RotateLogFiles(w.files, base, c.numFiles);
    BackupPathIsNotBase(base, 1);
    if r.rotated {
      RotateClearsLive(w.files, base, c.numFiles);
      RotateSlot(w.files, base, c.numFiles, 1);
      forall p | !IsTargetFile(base, TopBackup(c.numFiles), p)
        ensures Lookup(rot, p) == Lookup(w.files, p)
      {
        RotateFrame(w.files, base, c.numFiles, p);
      }
      assert Content(rot, base) == "";
      assert "" + msg == msg;
    }
  }

  /** No backup index above `TopBackup(numFiles)` exists: at most numFiles files are kept. */
  ghost predicate BackupsBounded(fs: Files, base: Path, numFiles: int) {
    forall k: nat :: k > TopBackup(numFiles) ==> BackupPath(base, k) !in fs
  }

  /** Appending, with or without a rotation, never creates a backup beyond the top index. */
  lemma AppendKeepsBackupsBounded(w: World, c: SizeConfig, msg: string, openError: Option<string>)
    requires BackupsBounded(w.files, c.logPath, c.numFiles)
    ensures BackupsBounded(Append(w, c, msg, openError).world.files, c.logPath, c.numFiles)
  {
    var top := TopBackup(c.numFiles);
    var after := Append(w, c, msg, openError).world.files;
    forall k: nat | k > top
      ensures BackupPath(c.logPath, k) !in after
    {
      forall j: nat | 1 <= j <= top {
        BackupPathsDistinct(c.logPath, k, j);
      }
      BackupPathIsNotBase(c.logPath, k);
      assert !IsTargetFile(c.logPath, top, BackupPath(c.logPath, k));
      AppendSpec(w, c, msg, openError);
    }
  }

  /** What an append adds to the archive: the message if the open succeeded, nothing otherwise. */
  function Kept(msg: string, openError: Option<string>): string {
    if openError.None? then msg else ""
  }

  /** Evicting `e` and then writing `k` leaves the old archive plus `k` as `e` plus the new one. */
  lemma Chain(a0: string, e: string, a1: string, k: string, a2: string)
    requires a0 == e + a1
    requires a1 + k == a2
    ensures a0 + k == e + a2
  {
    assert (e + a1) + k == e + (a1 + k);
  }

  /** The rotation half of an append: the archive loses only what the rotation evicts. */
  lemma RotationStep(fs: Files, c: SizeConfig, rotated: bool)
    ensures Archive(fs, c.logPath, c.numFiles)
         == (if rotated then Evicted(fs, c.logPath, c.numFiles) else "")
          + Archive(if rotated then RotateLogFiles(fs, c.logPath, c.numFiles) else fs, c.logPath, c.numFiles)
  {
    if rotated {
      RotateConservesArchive(fs, c.logPath, c.numFiles);
    } else {
      assert "" + Archive(fs, c.logPath, c.numFiles) == Archive(fs, c.logPath, c.numFiles);
    }
  }

  /** The write half of an append: the archive gains the message exactly when the open succeeded. */
  lemma WriteStep(fs: Files, c: SizeConfig, msg: string, openError: Option<string>)
    ensures Archive(fs, c.logPath, c.numFiles) + Kept(msg, openError)
         == Archive(if openError.None? then AppendFile(fs, c.logPath, msg) else fs, c.logPath, c.numFiles)
  {
    if openError.None? {
      ArchiveOfAppend(fs, c.logPath, TopBackup(c.numFiles), msg);
    } else {
      assert Archive(fs, c.logPath, c.numFiles) + "" == Archive(fs, c.logPath, c.numFiles);
    }
  }

  /** One append adds the message it writes at the end of the archive and loses only what
      its rotation evicted; a failed open writes nothing but may still rotate. */
  lemma AppendConservesArchive(w: World, c: SizeConfig, msg: string, openError: Option<string>)
    ensures var r := Append(w, c, msg, openError);
      Archive(w.files, c.logPath, c.numFiles) + Kept(msg, openError)
      == (if r.rotated then Evicted(w.files, c.logPath, c.numFiles) else "") + Archive(r.world.files, c.logPath, c.numFiles)
  {
    var r := Append(w, c, msg, openError);
    var files := if r.rotated then RotateLogFiles(w.files, c.logPath, c.numFiles) else w.files;
    assert r.world.files == if openError.None? then AppendFile(files, c.logPath, msg) else files;
    RotationStep(w.files, c, r.rotated);
    WriteStep(files, c, msg, openError);
    var e := if r.rotated then Evicted(w.files, c.logPath, c.numFiles) else "";
    var a0, a1 := Archive(w.files, c.logPath, c.numFiles), Archive(files, c.logPath, c.numFiles);
    var a2, k := Archive(r.world.files, c.logPath, c.numFiles), Kept(msg, openError);
    Chain(a0, e, a1, k, a2);
  }

  // ---- many appends ----

  /** One call of `Append`: the message and what opening the live file reports. */
  datatype Write = Write(msg: string, openError: Option<string>)

  /** The messages of a run that reached the file, in order. */
  function Written(ws: seq<Write>): string
    decreases |ws|
  {
    if |ws| == 0 then "" else Kept(ws[0].msg, ws[0].openError) + Written(ws[1..])
  }

  /** Perform every write in order. */
  function AppendAll(w: World, c: SizeConfig, ws: seq<Write>): World
    decreases |ws|
  {
    if |ws| == 0 then w else AppendAll(Append(w, c, ws[0].msg, ws[0].openError).world, c, ws[1..])
  }

  /** Everything the rotations of `AppendAll` discard, oldest first. */
  function EvictedAll(w: World, c: SizeConfig, ws: seq<Write>): string
    decreases |ws|
  {
    if |ws| == 0 then ""
    else
      var r := Append(w, c, ws[0].msg, ws[0].openError);
      (if r.rotated then Evicted(w.files, c.logPath, c.numFiles) else "") + EvictedAll(r.world, c, ws[1..])
  }

  lemma Regroup(a0: string, m: string, t: string, e: string, a1: string, ef: string, af: string)
    requires a0 + m == e + a1
    requires a1 + t == ef + af
    ensures a0 + (m + t) == (e + ef) + af
  {
    calc {
      a0 + (m + t);
      (a0 + m) + t;
      (e + a1) + t;
      e + (a1 + t);
      e + (ef + af);
      (e + ef) + af;
    }
  }

  /** No written message is lost or reordered: the initial archive followed by every message
      whose open succeeded equals what rotations evicted followed by the final archive. */
  lemma {:induction false} AppendAllConservesArchive(w: World, c: SizeConfig, ws: seq<Write>)
    ensures Archive(w.files, c.logPath, c.numFiles) + Written(ws)
         == EvictedAll(w, c, ws) + Archive(AppendAll(w, c, ws).files, c.logPath, c.numFiles)
    decreases |ws|
  {
    if |ws| > 0 {
      var r := Append(w, c, ws[0].msg, ws[0].openError);
      var e := if r.rotated then Evicted(w.files, c.logPath, c.numFiles) else "";
      var a0, a1 := Archive(w.files, c.logPath, c.numFiles), Archive(r.world.files, c.logPath, c.numFiles);
      var m, t := Kept(ws[0].msg, ws[0].openError), Written(ws[1..]);
      var ef, af := EvictedAll(r.world, c, ws[1..]), Archive(AppendAll(r.world, c, ws[1..]).files, c.logPath, c.numFiles);
      AppendConservesArchive(w, c, ws[0].msg, ws[0].openError);
      assert a0 + m == e + a1;
      AppendAllConservesArchive(r.world, c, ws[1..]);
      assert a1 + t == ef + af;
      assert Written(ws) == m + t;
      assert EvictedAll(w, c, ws) == e + ef;
      assert AppendAll(w, c, ws) == AppendAll(r.world, c, ws[1..]);
      Regroup(a0, m, t, e, a1, ef, af);
    }
  }

  /** However many appends, rotations and failed opens happen, no backup beyond the top
      index ever appears. */
  lemma {:induction false} AppendAllKeepsBackupsBounded(w: World, c: SizeConfig, ws: seq<Write>)
    requires BackupsBounded(w.files, c.logPath, c.numFiles)
    ensures BackupsBounded(AppendAll(w, c, ws).files, c.logPath, c.numFiles)
    decreases |ws|
  {
    if |ws| > 0 {
      AppendKeepsBackupsBounded(w, c, ws[0].msg, ws[0].openError);
      AppendAllKeepsBackupsBounded(Append(w, c, ws[0].msg, ws[0].openError).world, c, ws[1..]);
    }
  }
}
