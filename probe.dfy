/**
 * `utils.itemExists`: stat a path and classify it. The filesystem is a map
 * from absolute paths to what `fs.stat` reports; a path outside the map is
 * missing (`ENOENT`).
 */
module Probe {
  import opened Wrappers
  import opened Paths

  /** What `fs.stat` sees at a path that exists (symbolic links followed). */
  datatype NodeKind = RegularFile | Directory | OtherNode

  datatype StatResult = StatFailed(code: string) | StatOk(kind: NodeKind)

  type FileSystem = map<Path, StatResult>

  function Stat(fs: FileSystem, p: Path): StatResult
  {
    if p in fs then fs[p] else StatFailed("ENOENT")
  }

  /** The object handed to the callback: `{error, exists, file, dir}` (`exists` is `present` here, `exists` being a keyword). */
  datatype ProbeResult = ProbeResult(error: Option<string>, present: bool, file: bool, dir: bool)

  function ItemExists(fs: FileSystem, p: Path): (o: ProbeResult)
    ensures o.error.Some? <==> Stat(fs, p).StatFailed?
    ensures o.error.Some? ==> !o.present && !o.file && !o.dir
    ensures o.error.None? ==> o.present
    ensures o.file <==> Stat(fs, p) == StatOk(RegularFile)
    ensures o.dir <==> Stat(fs, p) == StatOk(Directory)
    ensures !(o.file && o.dir)
  {
    match Stat(fs, p)
    case StatFailed(code) => ProbeResult(Some(code), false, false, false)
    case StatOk(kind) => ProbeResult(None, true, kind == RegularFile, kind == Directory)
  }
}
