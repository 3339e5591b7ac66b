/** The filesystem as the drivers see it, frozen into one value: what `os.listdir`,
    `os.path.isdir`, `os.path.isfile`, `glob.glob` and `json.load` would return. */
module Snapshot {
  import opened Base
  import opened PyStr

  /** Outcome of `json.load` on a sidecar: its top-level keys with `str()` of each
      value, or a decode error. */
  datatype Sidecar = Decoded(fields: map<string, string>) | Undecodable

  /** Directories are exactly the keys of `listing` (each with its `os.listdir` entries,
      in listing order); `globs` maps a pattern string to its result, a pattern with no
      entry matching nothing. */
  datatype Fs = Fs(
    listing: map<string, seq<string>>,
    files: set<string>,
    globs: map<string, seq<string>>,
    sidecars: map<string, Sidecar>)

  /** `os.path.isdir(p)` */
  predicate IsDir(fs: Fs, p: string) {
    p in fs.listing
  }

  /** `os.path.isfile(p)` */
  predicate IsFile(fs: Fs, p: string) {
    p in fs.files
  }

  /** `os.listdir(p)`: the entries of a directory; NotADirectoryError on a regular
      file and FileNotFoundError on a path that does not exist. */
  function ListDir(fs: Fs, p: string): (r: Result<seq<string>>)
    ensures r.Ok? <==> IsDir(fs, p)
    ensures r.Ok? ==> r.value == Entries(fs, p)
    ensures r.Err? ==> r.error == if IsFile(fs, p) then NotADirectory(p) else FileNotFound(p)
  {
    if p in fs.listing then Ok(fs.listing[p])
    else if p in fs.files then Err(NotADirectory(p))
    else Err(FileNotFound(p))
  }

  /** Entries of a directory, and none for anything else. */
  function Entries(fs: Fs, p: string): seq<string> {
    if p in fs.listing then fs.listing[p] else []
  }

  /** `glob.glob(pattern)`: no match is an empty list, never an error. */
  function Glob(fs: Fs, pattern: string): seq<string> {
    if pattern in fs.globs then fs.globs[pattern] else []
  }

  /** `json.load(open(p))`; a sidecar the snapshot does not hold reads as undecodable. */
  function ReadSidecar(fs: Fs, p: string): Sidecar {
    if p in fs.sidecars then fs.sidecars[p] else Undecodable
  }
}
