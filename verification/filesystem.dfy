/** An abstract file system: a map from path to file content, plus the
    console's accumulated output. Only the operations the targets use are
    modelled, each with the POSIX meaning the Go runtime gives it. */
module FileSystem {
  import opened Wrappers

  type Path = string

  type Files = map<Path, string>

  /** Everything a log target can change: standard output and the files. */
  datatype World = World(console: string, files: Files)

  function Lookup(fs: Files, p: Path): Option<string> {
    if p in fs then Some(fs[p]) else None
  }

  /** The bytes of `p`; a missing file reads as empty. */
  function Content(fs: Files, p: Path): string {
    if p in fs then fs[p] else ""
  }

  /** Size of `p` in bytes, a missing file counting as size 0 (a failed stat is not an error). */
  function FileSize(fs: Files, p: Path): (n: nat)
    ensures p !in fs ==> n == 0
    ensures p in fs ==> n == |fs[p]|
  {
    |Content(fs, p)|
  }

  /** `os.Rename(src, dst)` with its error ignored: the destination is replaced by the
      source, and a missing source leaves everything, the destination included, untouched. */
  function Rename(fs: Files, src: Path, dst: Path): (r: Files)
    ensures src in fs ==> Lookup(r, dst) == Some(fs[src])
    ensures src !in fs ==> r == fs
    ensures src != dst ==> src !in r
    ensures forall p :: p != src && p != dst ==> Lookup(r, p) == Lookup(fs, p)
  {
    if src !in fs || src == dst then fs else (fs - {src})[dst := fs[src]]
  }

  /** `os.Remove(p)` with its error ignored. */
  function Remove(fs: Files, p: Path): (r: Files)
    ensures p !in r
    ensures forall q :: q != p ==> Lookup(r, q) == Lookup(fs, q)
  {
    fs - {p}
  }

  /** Open with O_APPEND|O_CREATE and write `data`: the file is created if missing. */
  function AppendFile(fs: Files, p: Path, data: string): (r: Files)
    ensures Lookup(r, p) == Some(Content(fs, p) + data)
    ensures forall q :: q != p ==> Lookup(r, q) == Lookup(fs, q)
  {
    fs[p := Content(fs, p) + data]
  }
}
