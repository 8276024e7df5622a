/**
 * The directories the program touches, each a tree of files, keyed by the
 * path string the program builds for it, and the `os`/`shutil` calls it makes
 * on them. Directories are independent entries: nesting between two of these
 * paths is not represented.
 */
module FileSystem {

  import opened Wrappers
  import opened Trees

  type Fs = map<string, Tree>

  /** How a `shutil.copytree` call goes: completely, or failing half-way with only some files copied. */
  datatype Fault = NoFault | Partial(kept: set<Path>)

  /** The files under `p`, with a missing directory read as empty. */
  function Contents(fs: Fs, p: string): Tree
  {
    if p in fs then fs[p] else map[]
  }

  /** `os.makedirs(p, exist_ok=True)`: an existing directory keeps its files. */
  function MakeDirs(fs: Fs, p: string): (r: Fs)
    ensures p in r && r[p] == Contents(fs, p)
    ensures forall q :: q != p ==> (q in r <==> q in fs) && (q in fs ==> r[q] == fs[q])
  {
    if p in fs then fs else fs[p := map[]]
  }

  /** `shutil.rmtree(p)`: `FileNotFoundError` when it is missing. */
  function RmTree(fs: Fs, p: string): (r: Result<Fs>)
    ensures r.Err? <==> p !in fs
    ensures r.Err? ==> r.error == FileNotFoundError
    ensures r.Ok? ==> r.value.Keys == fs.Keys - {p} && forall q :: q in r.value ==> r.value[q] == fs[q]
  {
    if p in fs then Ok(fs - {p}) else Err(FileNotFoundError)
  }

  /** The state after a call, and the exception it raised if any. */
  datatype Step = Step(fs: Fs, err: Option<Error>)

  /**
   * `shutil.copytree(src, dst)`: it lists `src` first (`FileNotFoundError` if
   * missing), then creates `dst` (`FileExistsError` if present), then copies
   * every file with its time; a fault leaves the part copied so far.
   */
  function CopyTree(fs: Fs, src: string, dst: string, fault: Fault): (r: Step)
    ensures src !in fs ==> r == Step(fs, Some(FileNotFoundError))
    ensures src in fs && dst in fs ==> r == Step(fs, Some(FileExistsError))
    ensures src in fs && dst !in fs ==>
              r.fs.Keys == fs.Keys + {dst}
              && (forall q :: q in fs ==> r.fs[q] == fs[q])
              && (r.err.None? <==> fault.NoFault?)
              && (fault.NoFault? ==> r.fs[dst] == fs[src])
              && (fault.Partial? ==> r.fs[dst].Keys <= fs[src].Keys && forall p :: p in r.fs[dst] ==> r.fs[dst][p] == fs[src][p])
  {
    if src !in fs then Step(fs, Some(FileNotFoundError))
    else if dst in fs then Step(fs, Some(FileExistsError))
    else match fault
      case NoFault => Step(fs[dst := fs[src]], None)
      case Partial(kept) => Step(fs[dst := map p | p in fs[src] && p in kept :: fs[src][p]], Some(IoFault))
  }
}
