/** Regular files and directories, and the two writes that can find one in the place of the other. */
module FileTree {
  import opened Paths
  import opened Wrappers

  type Bytes = seq<bv8>

  /** Regular files and directories by cleaned path; the current and the root directory always exist. */
  datatype Disk = Disk(files: map<Path, Bytes>, dirs: set<Path>)

  function Ancestors(p: Path): set<Path> {
    set n | 0 < n <= |p.parts| :: Path(p.rooted, p.parts[..n])
  }

  function Parent(p: Path): Path {
    if p.parts == [] then p else Path(p.rooted, p.parts[..|p.parts| - 1])
  }

  /** Making a directory and those above it fails where a file is in the way. */
  function MkdirAll(d: Disk, p: Path): Option<Disk> {
    if exists q <- Ancestors(p) :: q in d.files then None
    else Some(d.(dirs := d.dirs + Ancestors(p)))
  }

  /** Writing a file in an existing directory fails where a directory is in the way. */
  function WriteFile(d: Disk, p: Path, content: Bytes): Option<Disk> {
    if p in d.dirs || p.parts == [] then None else Some(d.(files := d.files[p := content]))
  }
}
