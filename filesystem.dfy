/** The part of the file system the scripts look at: which paths exist, as
    files or directories, with their modification times, and which paths the
    operating system refuses to create, write or remove (PermissionError). */
module FileSystem {
  import opened WinPath

  datatype Kind = File | Dir

  datatype Entry = Entry(kind: Kind, mtime: int)

  datatype Fs = Fs(entries: map<Path, Entry>, denied: set<Path>)

  /** `os.path.isfile`. */
  predicate IsFile(fs: Fs, p: Path) {
    p in fs.entries && fs.entries[p].kind == File
  }

  /** `os.path.isdir`; the empty path is not a directory. */
  predicate IsDir(fs: Fs, p: Path) {
    p != [] && p in fs.entries && fs.entries[p].kind == Dir
  }

  /** The directory `os.mkdir`/`open` need to find: a relative name without
      a directory part lives in the current directory, which exists. */
  predicate ParentExists(fs: Fs, p: Path) {
    Dirname(p) == [] || IsDir(fs, Dirname(p))
  }

  /** `os.listdir(d)` is empty. */
  predicate IsEmptyDir(fs: Fs, d: Path) {
    forall p :: p in fs.entries && p != d ==> Dirname(p) != d
  }

  /** Every entry is a non-empty path whose parent directory exists. */
  predicate WellFormed(fs: Fs) {
    forall p :: p in fs.entries ==> p != [] && ParentExists(fs, p)
  }

  function Remove(fs: Fs, p: Path): (r: Fs)
    ensures r.entries.Keys == fs.entries.Keys - {p} && r.denied == fs.denied
  {
    fs.(entries := fs.entries - {p})
  }

  /** `r` is `fs` with some entries removed and nothing else changed. */
  predicate Shrunk(r: Fs, fs: Fs) {
    r.denied == fs.denied && forall p :: p in r.entries ==> p in fs.entries && r.entries[p] == fs.entries[p]
  }

  /** Writing file `p`, which then carries modification time `now`. */
  function PutFile(fs: Fs, p: Path, now: int): (r: Fs)
    ensures IsFile(r, p) && r.entries[p].mtime == now
    ensures r.denied == fs.denied && r.entries.Keys == fs.entries.Keys + {p}
    ensures forall q :: q in fs.entries && q != p ==> r.entries[q] == fs.entries[q]
  {
    fs.(entries := fs.entries[p := Entry(File, now)])
  }

  /** `p` is `d` itself or lies somewhere beneath it. */
  predicate Under(p: Path, d: Path) {
    p == d || (|p| > |d| && p[..|d|] == d && IsSep(p[|d|]))
  }

  /** `rmdir /s /q d` (and `shutil.rmtree(d)`): `d` and everything beneath
      it are gone; nothing else changes. */
  function RemoveTree(fs: Fs, d: Path): (r: Fs)
    ensures d !in r.entries && r.denied == fs.denied
    ensures forall p :: p in r.entries <==> p in fs.entries && !Under(p, d)
    ensures forall p :: p in r.entries ==> r.entries[p] == fs.entries[p]
  {
    fs.(entries := map p | p in fs.entries && !Under(p, d) :: fs.entries[p])
  }
}
