/** The eight severities, their printed names, per-threshold filtering and
    the case-insensitive lookup of a level by its name. */
module Levels {

  /** `LogLevel` values ALL (0) through OFF (7), numbered as the enumeration declares them. */
  type LogLevel = l: int | 0 <= l < 8

  const ALL: LogLevel := 0
  const TRACE: LogLevel := 1
  const DEBUG: LogLevel := 2
  const INFO: LogLevel := 3
  const WARN: LogLevel := 4
  const ERROR: LogLevel := 5
  const FATAL: LogLevel := 6
  const OFF: LogLevel := 7

  const LevelNames: seq<string> := ["ALL", "TRACE", "DEBUG", "INFO", "WARN", "ERROR", "FATAL", "OFF"]

  /** Level names wrapped in ANSI colour escapes; ALL and OFF are left plain. */
  const ColoredLevelNames: seq<string> := [
    "ALL",
    "\U{1B}[37mTRACE\U{1B}[0m",
    "\U{1B}[00mDEBUG\U{1B}[0m",
    "\U{1B}[32mINFO\U{1B}[0m",
    "\U{1B}[33mWARN\U{1B}[0m",
    "\U{1B}[31mERROR\U{1B}[0m",
    "\U{1B}[31mFATAL\U{1B}[0m",
    "OFF"
  ]

  function LevelName(l: LogLevel): string {
    LevelNames[l]
  }

  function ColoredLevelName(l: LogLevel): string {
    ColoredLevelNames[l]
  }

  /** A target whose threshold is `threshold` accepts a message at `level`. */
  predicate Admits(threshold: LogLevel, level: LogLevel) {
    level >= threshold
  }

  /** A threshold of OFF silences every level below it, FATAL included. */
  lemma OffSilences(level: LogLevel)
    ensures Admits(OFF, level) <==> level == OFF
  {
  }

  /** A threshold of ALL lets every level through. */
  lemma AllAdmitsEverything(level: LogLevel)
    ensures Admits(ALL, level)
  {
  }

  /** The accepted levels form an upward-closed set: raising the level never drops a message,
      and raising the threshold never admits more. */
  lemma AdmitsMonotone(threshold: LogLevel, threshold': LogLevel, level: LogLevel, level': LogLevel)
    requires threshold' <= threshold && level <= level'
    ensures Admits(threshold, level) ==> Admits(threshold', level')
  {
  }

  // ---- case folding, as `strings.EqualFold` does it on ASCII letters ----

  function Lower(c: char): char {
    if 'A' <= c <= 'Z' then (c as int + 32) as char else c
  }

  function Fold(s: string): (r: string)
    ensures |r| == |s|
    ensures forall i :: 0 <= i < |s| ==> r[i] == Lower(s[i])
  {
    seq(|s|, i requires 0 <= i < |s| => Lower(s[i]))
  }

  predicate EqualFold(a: string, b: string) {
    Fold(a) == Fold(b)
  }

  /** No two level names are equal up to case, so a name lookup has at most one answer. */
  lemma NamesFoldDistinct(a: LogLevel, b: LogLevel)
    requires EqualFold(LevelName(a), LevelName(b))
    ensures a == b
  {
    var x, y := LevelName(a), LevelName(b);
    assert |x| == |Fold(x)| == |Fold(y)| == |y|;
    assert Lower(x[0]) == Fold(x)[0] == Fold(y)[0] == Lower(y[0]);
  }

  /** The first level, from index `i` on, whose name equals `name` up to case; ALL when none does. */
  function LevelByNameFrom(name: string, i: nat): (r: LogLevel)
    requires i <= 8
    ensures (exists l: LogLevel :: i <= l && EqualFold(LevelName(l), name)) ==> EqualFold(LevelName(r), name)
    ensures (forall l: LogLevel :: i <= l ==> !EqualFold(LevelName(l), name)) ==> r == ALL
    decreases 8 - i
  {
    if i == 8 then ALL
    else if EqualFold(LevelNames[i], name) then i
    else LevelByNameFrom(name, i + 1)
  }

  /** The level whose name matches `name` ignoring case, or ALL for an unknown name. */
  function GetLevelByName(name: string): (r: LogLevel)
    ensures (exists l: LogLevel :: EqualFold(LevelName(l), name)) ==> EqualFold(LevelName(r), name)
    ensures (forall l: LogLevel :: !EqualFold(LevelName(l), name)) ==> r == ALL
  {
    LevelByNameFrom(name, 0)
  }

  /** Looking up a level's own name gives back that level. */
  lemma LevelNameRoundTrip(l: LogLevel)
    ensures GetLevelByName(LevelName(l)) == l
  {
    var r := GetLevelByName(LevelName(l));
    NamesFoldDistinct(r, l);
  }

  /** Two names that differ only in letter case select the same level. */
  lemma GetLevelByNameIgnoresCase(a: string, b: string)
    requires EqualFold(a, b)
    ensures GetLevelByName(a) == GetLevelByName(b)
  {
    var ra, rb := GetLevelByName(a), GetLevelByName(b);
    if exists l: LogLevel :: EqualFold(LevelName(l), a) {
      NamesFoldDistinct(ra, rb);
    }
  }

  /** In particular, a level's name written in lower case selects that level. */
  lemma LowerCaseNameRoundTrip(l: LogLevel)
    ensures GetLevelByName(Fold(LevelName(l))) == l
  {
    var n := LevelName(l);
    assert Fold(Fold(n)) == Fold(n);
    GetLevelByNameIgnoresCase(Fold(n), n);
    LevelNameRoundTrip(l);
  }
}
