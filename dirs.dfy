/** Directory creation and removal in make.py: `create_dirs`, the
    destinations of `MakerDirs`, `rm_f` and the removal sequence of
    `Maker.uninstall`. */
module Dirs {
  import opened Wrappers
  import opened WinPath
  import opened FileSystem

  /** errno values carried by FileExistsError and PermissionError. */
  const EEXIST: int := 17
  const EACCES: int := 13

  /** What one `os.mkdir(d)` does; the empty path cannot be found. */
  datatype MkdirResult = Made(fs: Fs) | AlreadyExists | PermissionDenied | ParentMissing

  function Mkdir(fs: Fs, d: Path, now: int): (r: MkdirResult)
    ensures r.Made? ==> r.fs.entries == fs.entries[d := Entry(Dir, now)] && r.fs.denied == fs.denied
    ensures r.Made? <==> d != [] && d !in fs.entries && d !in fs.denied && ParentExists(fs, d)
  {
    if d == [] then ParentMissing
    else if d in fs.entries then AlreadyExists
    else if d in fs.denied then PermissionDenied
    else if !ParentExists(fs, d) then ParentMissing
    else Made(fs.(entries := fs.entries[d := Entry(Dir, now)]))
  }

  /** How `create_dirs` ends: it returns an error code, or the
      FileNotFoundError of a missing parent escapes it. */
  datatype DirsOutcome = Returned(rc: int, fs: Fs) | Raised(fs: Fs)

  /** `create_dirs(dirs)`: the entries are made in order; one that already
      exists as a directory is accepted; the first one that exists as a
      non-directory, or that the system refuses, ends the loop with that
      error's errno. Existing entries are never altered and only the listed
      directories are added, each stamped `now`. */
  function CreateDirsSpec(dirs: seq<Path>, fs: Fs, now: int): (r: DirsOutcome)
    ensures r.Returned? ==> r.rc == 0 || r.rc == EEXIST || r.rc == EACCES
    ensures r.fs.denied == fs.denied
    ensures forall p :: p in fs.entries ==> p in r.fs.entries && r.fs.entries[p] == fs.entries[p]
    ensures forall p :: p in r.fs.entries && p !in fs.entries ==> p in dirs && r.fs.entries[p] == Entry(Dir, now)
  {
    if dirs == [] then Returned(0, fs)
    else
      match Mkdir(fs, dirs[0], now)
      case Made(fs') => CreateDirsSpec(dirs[1..], fs', now)
      case AlreadyExists =>
        if IsDir(fs, dirs[0]) then CreateDirsSpec(dirs[1..], fs, now) else Returned(EEXIST, fs)
      case PermissionDenied => Returned(EACCES, fs)
      case ParentMissing => Raised(fs)
  }

  /** The loop of `create_dirs`, with its early return. */
  method CreateDirs(dirs: seq<Path>, fs: Fs, now: int) returns (out: DirsOutcome)
    ensures out == CreateDirsSpec(dirs, fs, now)
  {
    var cur := fs;
    var i := 0;
    while i < |dirs|
      invariant 0 <= i <= |dirs|
      invariant CreateDirsSpec(dirs, fs, now) == CreateDirsSpec(dirs[i..], cur, now)
    {
      var d := dirs[i];
      assert dirs[i..][1..] == dirs[i + 1..];
      var m := Mkdir(cur, d, now);
      if m.Made? {
        cur := m.fs;
      } else if m.AlreadyExists? {
        if !IsDir(cur, d) {
          return Returned(EEXIST, cur);
        }
      } else if m.PermissionDenied? {
        return Returned(EACCES, cur);
      } else {
        return Raised(cur);
      }
      i := i + 1;
    }
    return Returned(0, cur);
  }

  /** A return code of 0 means every listed path is now a directory. */
  lemma {:induction false} CreateDirsZeroMeansAllDirs(dirs: seq<Path>, fs: Fs, now: int)
    requires CreateDirsSpec(dirs, fs, now) == Returned(0, CreateDirsSpec(dirs, fs, now).fs)
    ensures forall d :: d in dirs ==> IsDir(CreateDirsSpec(dirs, fs, now).fs, d)
  {
    if dirs != [] {
      var m := Mkdir(fs, dirs[0], now);
      var next := if m.Made? then m.fs else fs;
      CreateDirsZeroMeansAllDirs(dirs[1..], next, now);
      assert IsDir(next, dirs[0]);
      forall d | d in dirs ensures IsDir(CreateDirsSpec(dirs, fs, now).fs, d) {
        if d != dirs[0] { assert d in dirs[1..]; }
      }
    }
  }

  /** A non-zero return code comes from the first failing entry: the state
      is that after the entries before it, which all succeeded, and no later
      entry was attempted. */
  lemma {:induction false} CreateDirsStopsAtFirstFailure(dirs: seq<Path>, fs: Fs, now: int)
    requires CreateDirsSpec(dirs, fs, now).Returned?
    requires CreateDirsSpec(dirs, fs, now).rc != 0
    ensures exists k :: 0 <= k < |dirs| && FailsAt(dirs, fs, now, k)
  {
    var m := Mkdir(fs, dirs[0], now);
    if m.Made? || (m.AlreadyExists? && IsDir(fs, dirs[0])) {
      var next := if m.Made? then m.fs else fs;
      CreateDirsStopsAtFirstFailure(dirs[1..], next, now);
      var k :| 0 <= k < |dirs[1..]| && FailsAt(dirs[1..], next, now, k);
      assert dirs[1..][..k] == dirs[..k + 1][1..];
      assert FailsAt(dirs, fs, now, k + 1);
    } else {
      assert dirs[..0] == [];
      assert FailsAt(dirs, fs, now, 0);
    }
  }

  /** Entry `k` is where `create_dirs` stops: the ones before it succeed,
      the returned state is theirs, and `dirs[k]` is an existing
      non-directory (EEXIST) or a refused path (EACCES). */
  predicate FailsAt(dirs: seq<Path>, fs: Fs, now: int, k: int)
    requires 0 <= k < |dirs|
  {
    var before := CreateDirsSpec(dirs[..k], fs, now);
    var d := dirs[k];
    && before.Returned? && before.rc == 0
    && CreateDirsSpec(dirs, fs, now) == Returned(if d in before.fs.entries then EEXIST else EACCES, before.fs)
    && (if d in before.fs.entries then !IsDir(before.fs, d) else d in before.fs.denied)
  }

  /** Every entry is a non-empty path whose parent is the current
      directory, an existing directory, or an earlier entry. */
  predicate ParentsFirst(dirs: seq<Path>, fs: Fs) {
    forall i :: 0 <= i < |dirs| ==> ParentAvailable(dirs, fs, i)
  }

  predicate ParentAvailable(dirs: seq<Path>, fs: Fs, i: int)
    requires 0 <= i < |dirs|
  {
    var pd := Dirname(dirs[i]);
    dirs[i] != [] && (pd == [] || IsDir(fs, pd) || exists j :: 0 <= j < i && dirs[j] == pd)
  }

  /** When parents come first, `create_dirs` never lets FileNotFoundError
      escape: an earlier entry either became a directory or stopped the
      loop. */
  lemma {:induction false} ParentsFirstNeverRaises(dirs: seq<Path>, fs: Fs, now: int)
    requires ParentsFirst(dirs, fs)
    ensures CreateDirsSpec(dirs, fs, now).Returned?
  {
    if dirs != [] {
      var m := Mkdir(fs, dirs[0], now);
      if m.Made? || (m.AlreadyExists? && IsDir(fs, dirs[0])) {
        var next := if m.Made? then m.fs else fs;
        assert IsDir(next, dirs[0]);
        forall i | 0 <= i < |dirs[1..]|
          ensures ParentAvailable(dirs[1..], next, i)
        {
          assert dirs[1..][i] == dirs[i + 1];
          assert ParentAvailable(dirs, fs, i + 1);
          var pd := Dirname(dirs[i + 1]);
          if pd != [] && !IsDir(fs, pd) && pd != dirs[0] {
            var j :| 0 <= j < i + 1 && dirs[j] == pd;
            assert dirs[1..][j - 1] == pd;
          }
        }
        ParentsFirstNeverRaises(dirs[1..], next, now);
      } else {
        assert ParentAvailable(dirs, fs, 0);
      }
    }
  }

  /** The five values of `MakerDirs.install_dests()`, in dictionary order. */
  datatype InstallDests = InstallDests(includeRoot: Path, binRoot: Path, libRoot: Path,
                                       libWin32Root: Path, libX64Root: Path)
  {
    function Values(): seq<Path> { [includeRoot, binRoot, libRoot, libWin32Root, libX64Root] }
  }

  function MakeInstallDests(prefix: Path): InstallDests {
    var lib := Join(prefix, "lib");
    InstallDests(Join(prefix, "include"), Join(prefix, "bin"), lib, Join(lib, "Win32"), Join(lib, "x64"))
  }

  /** Installing into an existing prefix directory: each destination's
      parent is the prefix or the `lib` entry listed before it, so
      `create_dirs` on them never raises. */
  lemma InstallDestsParentsFirst(prefix: Path, fs: Fs, now: int)
    requires Normalized(prefix) && IsDir(fs, prefix)
    ensures CreateDirsSpec(MakeInstallDests(prefix).Values(), fs, now).Returned?
  {
    var d := MakeInstallDests(prefix);
    PlainNames();
    JoinSplits(prefix, "include");
    JoinSplits(prefix, "bin");
    JoinSplits(prefix, "lib");
    JoinSplits(d.libRoot, "Win32");
    JoinSplits(d.libRoot, "x64");
    InstallTreeParentsFirst(fs, prefix, d);
    ParentsFirstNeverRaises(d.Values(), fs, now);
  }

  lemma InstallTreeParentsFirst(fs: Fs, prefix: Path, d: InstallDests)
    requires IsDir(fs, prefix)
    requires Dirname(d.includeRoot) == prefix && Dirname(d.binRoot) == prefix && Dirname(d.libRoot) == prefix
    requires Dirname(d.libWin32Root) == d.libRoot && Dirname(d.libX64Root) == d.libRoot
    requires d.includeRoot != [] && d.binRoot != [] && d.libRoot != []
    requires d.libWin32Root != [] && d.libX64Root != []
    ensures ParentsFirst(d.Values(), fs)
  {
    var top := [d.includeRoot, d.binRoot, d.libRoot];
    InstallTopParentsFirst(fs, prefix, d);
    assert top[2] == d.libRoot;
    ParentsFirstAppend(top, [d.libWin32Root, d.libX64Root], fs, 2);
    assert d.Values() == top + [d.libWin32Root, d.libX64Root];
  }

  lemma InstallTopParentsFirst(fs: Fs, prefix: Path, d: InstallDests)
    requires IsDir(fs, prefix)
    requires Dirname(d.includeRoot) == prefix && Dirname(d.binRoot) == prefix && Dirname(d.libRoot) == prefix
    requires d.includeRoot != [] && d.binRoot != [] && d.libRoot != []
    ensures ParentsFirst([d.includeRoot, d.binRoot, d.libRoot], fs)
  {
    var top := [d.includeRoot, d.binRoot, d.libRoot];
    assert ParentAvailable(top, fs, 0) && ParentAvailable(top, fs, 1) && ParentAvailable(top, fs, 2);
  }

  /** Appending entries whose parent is an earlier entry keeps the list
      parents-first. */
  lemma ParentsFirstAppend(dirs: seq<Path>, more: seq<Path>, fs: Fs, j: int)
    requires ParentsFirst(dirs, fs) && 0 <= j < |dirs|
    requires forall i :: 0 <= i < |more| ==> more[i] != [] && Dirname(more[i]) == dirs[j]
    ensures ParentsFirst(dirs + more, fs)
  {
    var all := dirs + more;
    forall i | 0 <= i < |all|
      ensures ParentAvailable(all, fs, i)
    {
      if i < |dirs| {
        assert ParentAvailable(dirs, fs, i);
        var pd := Dirname(dirs[i]);
        if pd != [] && !IsDir(fs, pd) {
          var k :| 0 <= k < i && dirs[k] == pd;
          assert all[k] == pd;
        }
      } else {
        assert all[j] == dirs[j];
      }
    }
  }

  lemma PlainNames()
    ensures IsPlainName("include") && IsPlainName("bin") && IsPlainName("lib")
    ensures IsPlainName("Win32") && IsPlainName("x64") && IsPlainName("nsis")
    ensures IsPlainName("sqlite3.h") && IsPlainName("sqlite3ext.h") && IsPlainName("sqlite3.lib")
    ensures IsPlainName("sqlite3-Win32.dll") && IsPlainName("sqlite3-x64.dll")
  {
  }

  /** The six values of `MakerDirs.nsis_dests()` when makensis is
      configured: the staging tree under `build\nsis`, in dictionary order.
      (With makensis unconfigured it returns an empty dictionary.) */
  datatype NsisDests = NsisDests(nsis: Path, includeDir: Path, bin: Path, lib: Path,
                                 libWin32: Path, libX64: Path)
  {
    function Values(): seq<Path> { [nsis, includeDir, bin, lib, libWin32, libX64] }
  }

  function MakeNsisDests(): NsisDests {
    NsisDestsUnder(Join("build", "nsis"))
  }

  /** The staging tree rooted at `root`. */
  function NsisDestsUnder(root: Path): NsisDests {
    var lib := Join(root, "lib");
    NsisDests(root, Join(root, "include"), Join(root, "bin"), lib, Join(lib, "Win32"), Join(lib, "x64"))
  }

  /** Once `build` is a directory, creating the staging tree never raises. */
  lemma NsisDestsParentsFirst(fs: Fs, now: int)
    requires IsDir(fs, "build")
    ensures CreateDirsSpec(MakeNsisDests().Values(), fs, now).Returned?
  {
    var d := MakeNsisDests();
    NsisDestsShape();
    NsisTreeParentsFirst(fs, "build", d);
    ParentsFirstNeverRaises(d.Values(), fs, now);
  }

  /** The staging tree: `nsis` inside `build`, three entries inside it and
      two inside its `lib`. */
  lemma NsisDestsShape()
    ensures var d := MakeNsisDests();
      && Dirname(d.nsis) == "build"
      && Dirname(d.includeDir) == d.nsis && Dirname(d.bin) == d.nsis && Dirname(d.lib) == d.nsis
      && Dirname(d.libWin32) == d.lib && Dirname(d.libX64) == d.lib
      && d.nsis != [] && d.includeDir != [] && d.bin != [] && d.lib != []
      && d.libWin32 != [] && d.libX64 != []
  {
    assert IsPlainName("nsis");
    assert Normalized("build") by { assert PathPart("build") == "build"; }
    JoinSplits("build", "nsis");
    NsisTreeUnder(Join("build", "nsis"));
  }

  /** Under a normalized root the tree has the same shape. */
  lemma NsisTreeUnder(root: Path)
    requires Normalized(root) && root != []
    ensures var d := NsisDestsUnder(root);
      && d.nsis == root
      && Dirname(d.includeDir) == root && Dirname(d.bin) == root && Dirname(d.lib) == root
      && Dirname(d.libWin32) == d.lib && Dirname(d.libX64) == d.lib
      && d.includeDir != [] && d.bin != [] && d.lib != []
      && d.libWin32 != [] && d.libX64 != []
  {
    var lib := Join(root, "lib");
    PlainNames();
    JoinSplits(root, "include");
    JoinSplits(root, "bin");
    JoinSplits(root, "lib");
    JoinSplits(lib, "Win32");
    JoinSplits(lib, "x64");
  }

  lemma NsisTreeParentsFirst(fs: Fs, root: Path, d: NsisDests)
    requires IsDir(fs, root) && Dirname(d.nsis) == root
    requires Dirname(d.includeDir) == d.nsis && Dirname(d.bin) == d.nsis && Dirname(d.lib) == d.nsis
    requires Dirname(d.libWin32) == d.lib && Dirname(d.libX64) == d.lib
    requires d.nsis != [] && d.includeDir != [] && d.bin != [] && d.lib != []
    requires d.libWin32 != [] && d.libX64 != []
    ensures ParentsFirst(d.Values(), fs)
  {
    var top := [d.nsis, d.includeDir, d.bin, d.lib];
    NsisTopParentsFirst(fs, root, d);
    assert top[3] == d.lib;
    ParentsFirstAppend(top, [d.libWin32, d.libX64], fs, 3);
    assert d.Values() == top + [d.libWin32, d.libX64];
  }

  lemma NsisTopParentsFirst(fs: Fs, root: Path, d: NsisDests)
    requires IsDir(fs, root) && Dirname(d.nsis) == root
    requires Dirname(d.includeDir) == d.nsis && Dirname(d.bin) == d.nsis && Dirname(d.lib) == d.nsis
    requires d.nsis != [] && d.includeDir != [] && d.bin != [] && d.lib != []
    ensures ParentsFirst([d.nsis, d.includeDir, d.bin, d.lib], fs)
  {
    assert ParentsFirst([d.nsis], fs) by {
      assert ParentAvailable([d.nsis], fs, 0);
    }
    ParentsFirstAppend([d.nsis], [d.includeDir, d.bin, d.lib], fs, 0);
    assert [d.nsis] + [d.includeDir, d.bin, d.lib] == [d.nsis, d.includeDir, d.bin, d.lib];
  }

  /** `rm_f(path)` as written: the file is unlinked only when
      `os.path.isdir(os.path.dirname(path))` holds. Unlinking a path the
      system refuses raises PermissionError (`Err(EACCES)`). */
  function RmFAsWritten(fs: Fs, p: Path): (r: Result<Fs, int>)
    ensures r.Err? <==> IsDir(fs, Dirname(p)) && IsFile(fs, p) && p in fs.denied
    ensures r.Err? ==> r.error == EACCES
    ensures r.Ok? && IsDir(fs, Dirname(p)) && IsFile(fs, p) ==> r.value == Remove(fs, p)
    ensures r.Ok? && !(IsDir(fs, Dirname(p)) && IsFile(fs, p)) ==> r.value == fs
  {
    if IsDir(fs, Dirname(p)) && IsFile(fs, p) then
      if p in fs.denied then Err(EACCES) else Ok(Remove(fs, p))
    else Ok(fs)
  }

  /** `rm_f(path)` as evidently intended: a path without a directory part
      names a file in the current directory, which exists. */
  function RmF(fs: Fs, p: Path): (r: Result<Fs, int>)
    ensures r.Err? <==> ParentExists(fs, p) && IsFile(fs, p) && p in fs.denied
    ensures r.Err? ==> r.error == EACCES
    ensures r.Ok? && ParentExists(fs, p) && IsFile(fs, p) ==> r.value == Remove(fs, p)
    ensures r.Ok? && !(ParentExists(fs, p) && IsFile(fs, p)) ==> r.value == fs
  {
    if ParentExists(fs, p) && IsFile(fs, p) then
      if p in fs.denied then Err(EACCES) else Ok(Remove(fs, p))
    else Ok(fs)
  }

  /** The two agree on every path with a directory part. */
  lemma RmFAgreesWithDirectory(fs: Fs, p: Path)
    requires Dirname(p) != []
    ensures RmFAsWritten(fs, p) == RmF(fs, p)
  {
  }

  /** A name with no directory part, such as `configvars.py`: as written
      `rm_f` never removes it, since `os.path.isdir('')` is False; the
      corrected version removes it when it is a file. */
  lemma RmFBareName(fs: Fs, n: string)
    requires IsPlainName(n) && IsFile(fs, n) && n !in fs.denied
    ensures RmFAsWritten(fs, n) == Ok(fs)
    ensures RmF(fs, n) == Ok(Remove(fs, n)) && !IsFile(RmF(fs, n).value, n)
  {
    PlainNameHasNoDir(n);
  }

  /** `configvars.py` is such a name. */
  lemma ConfigvarsIsBare()
    ensures IsPlainName("configvars.py")
  {
  }

  /** One removal of `Maker.uninstall`: `rm_f(p)`, or `rmdirIfEmpty(p)`,
      which removes `p` when it is a directory with nothing in it. */
  datatype Removal = RemoveFile(path: Path) | RemoveDirIfEmpty(path: Path)

  function ApplyRemoval(fs: Fs, r: Removal): (out: Result<Fs, int>)
    ensures out.Err? ==> out.error == EACCES && r.path in fs.denied
    ensures out.Ok? ==> out.value == fs || out.value == Remove(fs, r.path)
    ensures r.RemoveDirIfEmpty? && IsDir(fs, r.path) && IsEmptyDir(fs, r.path) && r.path !in fs.denied ==>
      out == Ok(Remove(fs, r.path))
    ensures r.RemoveDirIfEmpty? && !(IsDir(fs, r.path) && IsEmptyDir(fs, r.path)) ==> out == Ok(fs)
  {
    match r
    case RemoveFile(p) => RmFAsWritten(fs, p)
    case RemoveDirIfEmpty(p) =>
      if IsDir(fs, p) && IsEmptyDir(fs, p) then
        if p in fs.denied then Err(EACCES) else Ok(Remove(fs, p))
      else Ok(fs)
  }

  /** The removals in order; the first PermissionError ends the sequence
      (uninstall then exits with its errno). */
  function ApplyRemovals(fs: Fs, rs: seq<Removal>): (out: Result<Fs, int>)
    ensures out.Err? ==> out.error == EACCES
    ensures out.Ok? ==> out.value.denied == fs.denied && out.value.entries.Keys <= fs.entries.Keys
    ensures out.Ok? ==> forall p :: p in out.value.entries ==> out.value.entries[p] == fs.entries[p]
    ensures out.Ok? ==> forall p :: p in fs.entries && (forall i :: 0 <= i < |rs| ==> rs[i].path != p) ==> p in out.value.entries
    decreases |rs|
  {
    if rs == [] then Ok(fs)
    else
      match ApplyRemoval(fs, rs[0])
      case Err(e) => Err(e)
      case Ok(fs') =>
        var out := ApplyRemovals(fs', rs[1..]);
        assert forall p :: p in fs.entries && (forall i :: 0 <= i < |rs| ==> rs[i].path != p) ==>
          (forall i :: 0 <= i < |rs[1..]| ==> rs[1..][i].path != p) by {
          forall p | p in fs.entries && (forall i :: 0 <= i < |rs| ==> rs[i].path != p)
            ensures forall i :: 0 <= i < |rs[1..]| ==> rs[1..][i].path != p
          {
            forall i | 0 <= i < |rs[1..]| ensures rs[1..][i].path != p {
              assert rs[1..][i] == rs[i + 1];
            }
          }
        }
        out
  }

  /** Running `a` then `b` is running `a + b`; an error in `a` ends it. */
  lemma {:induction false} ApplyRemovalsAppend(fs: Fs, a: seq<Removal>, b: seq<Removal>)
    ensures ApplyRemovals(fs, a).Err? ==> ApplyRemovals(fs, a + b) == ApplyRemovals(fs, a)
    ensures ApplyRemovals(fs, a).Ok? ==> ApplyRemovals(fs, a + b) == ApplyRemovals(ApplyRemovals(fs, a).value, b)
    decreases |a|
  {
    if a == [] {
      assert a + b == b;
    } else {
      assert (a + b)[0] == a[0];
      assert (a + b)[1..] == a[1..] + b;
      match ApplyRemoval(fs, a[0])
      case Err(_) =>
      case Ok(f) => ApplyRemovalsAppend(f, a[1..], b);
    }
  }

  /** `rm_f` of each named file inside `dir`, in order. */
  function FileRemovals(dir: Path, names: seq<string>): (rs: seq<Removal>)
    ensures |rs| == |names|
    ensures forall i :: 0 <= i < |rs| ==> rs[i] == RemoveFile(Join(dir, names[i]))
  {
    if names == [] then [] else [RemoveFile(Join(dir, names[0]))] + FileRemovals(dir, names[1..])
  }

  /** One directory's share of the uninstall: its files, then the
      directory itself if that left it empty. */
  function DirGroup(dir: Path, names: seq<string>): seq<Removal> {
    FileRemovals(dir, names) + [RemoveDirIfEmpty(dir)]
  }

  /** Within a group every file removal targets a file inside the
      directory, and the directory comes last. */
  lemma DirGroupOrder(dir: Path, names: seq<string>)
    requires Normalized(dir)
    requires forall i :: 0 <= i < |names| ==> IsPlainName(names[i])
    ensures var g := DirGroup(dir, names);
      && g[|g| - 1] == RemoveDirIfEmpty(dir)
      && forall i :: 0 <= i < |g| - 1 ==> g[i].RemoveFile? && Dirname(g[i].path) == dir
  {
    var g := DirGroup(dir, names);
    forall i | 0 <= i < |g| - 1 ensures g[i].RemoveFile? && Dirname(g[i].path) == dir {
      JoinSplits(dir, names[i]);
    }
  }

  /** The removals of `Maker.uninstall`, in the order the source performs
      them. The `lib` root and the prefix are left in place. */
  function UninstallPlan(d: InstallDests): seq<Removal> {
    DirGroup(d.includeRoot, ["sqlite3.h", "sqlite3ext.h"])
    + DirGroup(d.libWin32Root, ["sqlite3.lib"])
    + DirGroup(d.libX64Root, ["sqlite3.lib"])
    + DirGroup(d.binRoot, ["sqlite3-Win32.dll", "sqlite3-x64.dll"])
  }

  /** Removing a file, or a directory with nothing in it, keeps every
      remaining entry's parent in place. */
  lemma RemovalKeepsWellFormed(fs: Fs, r: Removal)
    requires WellFormed(fs) && ApplyRemoval(fs, r).Ok?
    ensures WellFormed(ApplyRemoval(fs, r).value)
  {
    var out := ApplyRemoval(fs, r).value;
    if out != fs {
      var p := r.path;
      assert out == Remove(fs, p);
      assert r.RemoveFile? ==> IsFile(fs, p);
      assert r.RemoveDirIfEmpty? ==> IsEmptyDir(fs, p);
      forall q | q in out.entries ensures q != [] && ParentExists(out, q) {
        assert ParentExists(fs, q);
        var pd := Dirname(q);
        if pd != [] {
          assert pd != p by {
            if r.RemoveDirIfEmpty? { assert q != p; }
          }
        }
      }
    }
  }

  /** A run of removals that succeeds keeps the file system well formed. */
  lemma {:induction false} RemovalsKeepWellFormed(fs: Fs, rs: seq<Removal>)
    requires WellFormed(fs) && ApplyRemovals(fs, rs).Ok?
    ensures WellFormed(ApplyRemovals(fs, rs).value)
    decreases |rs|
  {
    if rs != [] {
      RemovalKeepsWellFormed(fs, rs[0]);
      RemovalsKeepWellFormed(ApplyRemoval(fs, rs[0]).value, rs[1..]);
    }
  }

  /** Once a file removal has run in a well-formed state, the file is gone,
      provided its path has a directory part. */
  lemma RemoveFileRemoves(fs: Fs, p: Path)
    requires WellFormed(fs) && Dirname(p) != [] && ApplyRemoval(fs, RemoveFile(p)).Ok?
    ensures !IsFile(ApplyRemoval(fs, RemoveFile(p)).value, p)
  {
  }

  /** After a run of removals that succeeds, no file any of them targets is
      left. */
  lemma {:induction false} RemovalsClearFiles(fs: Fs, rs: seq<Removal>)
    requires WellFormed(fs) && ApplyRemovals(fs, rs).Ok?
    requires forall i :: 0 <= i < |rs| && rs[i].RemoveFile? ==> Dirname(rs[i].path) != []
    ensures forall i :: 0 <= i < |rs| && rs[i].RemoveFile? ==> !IsFile(ApplyRemovals(fs, rs).value, rs[i].path)
    decreases |rs|
  {
    if rs != [] {
      var fs' := ApplyRemoval(fs, rs[0]).value;
      RemovalKeepsWellFormed(fs, rs[0]);
      assert forall i :: 0 <= i < |rs[1..]| ==> rs[1..][i] == rs[i + 1];
      RemovalsClearFiles(fs', rs[1..]);
      if rs[0].RemoveFile? {
        RemoveFileRemoves(fs, rs[0].path);
      }
    }
  }

  /** A removal below the prefix that is neither the prefix nor the `lib`
      root, and that targets a file only through a directory part. */
  predicate Beneath(prefix: Path, r: Removal) {
    && |r.path| > |prefix|
    && Basename(r.path) != "lib"
    && (r.RemoveFile? ==> Dirname(r.path) != [])
  }

  /** A directory's group of removals lies beneath the prefix when the
      directory does. */
  lemma DirGroupBeneath(prefix: Path, dir: Path, names: seq<string>)
    requires Normalized(dir) && dir != [] && |dir| > |prefix| && Basename(dir) != "lib"
    requires forall i :: 0 <= i < |names| ==> IsPlainName(names[i]) && names[i] != "lib"
    ensures forall r :: r in DirGroup(dir, names) ==> Beneath(prefix, r)
  {
    var g := DirGroup(dir, names);
    forall r | r in g ensures Beneath(prefix, r) {
      var i :| 0 <= i < |g| && g[i] == r;
      if i < |names| {
        JoinSplits(dir, names[i]);
      }
    }
  }

  /** A directory of the install tree other than the `lib` root. */
  lemma InstallDirBeneath(prefix: Path, a: Path, n: string)
    requires Normalized(a) && IsPlainName(n) && n != "lib" && |a| >= |prefix|
    ensures var p := Join(a, n);
      Normalized(p) && p != [] && |p| > |prefix| && Basename(p) != "lib"
  {
    JoinSplits(a, n);
  }

  /** The four directories the uninstall empties: each normalized, below
      the prefix, and not named `lib`. */
  predicate RemovableDirs(prefix: Path, d: InstallDests) {
    && Normalized(d.includeRoot) && d.includeRoot != [] && |d.includeRoot| > |prefix| && Basename(d.includeRoot) != "lib"
    && Normalized(d.binRoot) && d.binRoot != [] && |d.binRoot| > |prefix| && Basename(d.binRoot) != "lib"
    && Normalized(d.libWin32Root) && d.libWin32Root != [] && |d.libWin32Root| > |prefix| && Basename(d.libWin32Root) != "lib"
    && Normalized(d.libX64Root) && d.libX64Root != [] && |d.libX64Root| > |prefix| && Basename(d.libX64Root) != "lib"
  }

  lemma InstallDestsRemovable(prefix: Path)
    requires Normalized(prefix)
    ensures RemovableDirs(prefix, MakeInstallDests(prefix))
    ensures Basename(MakeInstallDests(prefix).libRoot) == "lib"
  {
    var d := MakeInstallDests(prefix);
    PlainNames();
    JoinSplits(prefix, "lib");
    InstallDirBeneath(prefix, prefix, "include");
    InstallDirBeneath(prefix, prefix, "bin");
    InstallDirBeneath(prefix, d.libRoot, "Win32");
    InstallDirBeneath(prefix, d.libRoot, "x64");
  }

  /** Where each removal of the uninstall sequence points: the `include`,
      `bin`, `lib\Win32` and `lib\x64` directories under the prefix, and
      the installed files inside them. */
  lemma UninstallPlanShape(prefix: Path, d: InstallDests)
    requires RemovableDirs(prefix, d)
    ensures forall r :: r in UninstallPlan(d) ==> Beneath(prefix, r)
  {
    PlainNames();
    DirGroupBeneath(prefix, d.includeRoot, ["sqlite3.h", "sqlite3ext.h"]);
    DirGroupBeneath(prefix, d.libWin32Root, ["sqlite3.lib"]);
    DirGroupBeneath(prefix, d.libX64Root, ["sqlite3.lib"]);
    DirGroupBeneath(prefix, d.binRoot, ["sqlite3-Win32.dll", "sqlite3-x64.dll"]);
  }

  /** `Maker.uninstall` that runs to the end removes every installed file;
      it never touches the prefix or the `lib` root. */
  lemma UninstallRemovesFiles(prefix: Path, fs: Fs)
    requires Normalized(prefix) && WellFormed(fs)
    requires ApplyRemovals(fs, UninstallPlan(MakeInstallDests(prefix))).Ok?
    ensures var plan := UninstallPlan(MakeInstallDests(prefix));
      var out := ApplyRemovals(fs, plan).value;
      forall i :: 0 <= i < |plan| && plan[i].RemoveFile? ==> !IsFile(out, plan[i].path)
  {
    var d := MakeInstallDests(prefix);
    InstallDestsRemovable(prefix);
    PlanClearsFiles(prefix, d, fs);
  }

  lemma PlanClearsFiles(prefix: Path, d: InstallDests, fs: Fs)
    requires RemovableDirs(prefix, d) && WellFormed(fs) && ApplyRemovals(fs, UninstallPlan(d)).Ok?
    ensures forall i :: 0 <= i < |UninstallPlan(d)| && UninstallPlan(d)[i].RemoveFile? ==>
      !IsFile(ApplyRemovals(fs, UninstallPlan(d)).value, UninstallPlan(d)[i].path)
  {
    var plan := UninstallPlan(d);
    UninstallPlanShape(prefix, d);
    assert forall i :: 0 <= i < |plan| ==> plan[i] in plan;
    RemovalsClearFiles(fs, plan);
  }

  /** The prefix and the `lib` root survive the uninstall. */
  lemma UninstallKeepsRoots(prefix: Path, fs: Fs)
    requires Normalized(prefix)
    requires ApplyRemovals(fs, UninstallPlan(MakeInstallDests(prefix))).Ok?
    ensures var d := MakeInstallDests(prefix);
      var out := ApplyRemovals(fs, UninstallPlan(d)).value;
      && (d.libRoot in fs.entries ==> d.libRoot in out.entries && out.entries[d.libRoot] == fs.entries[d.libRoot])
      && (prefix in fs.entries ==> prefix in out.entries && out.entries[prefix] == fs.entries[prefix])
  {
    var d := MakeInstallDests(prefix);
    InstallDestsRemovable(prefix);
    PlanKeepsRoots(prefix, d, fs);
  }

  lemma PlanKeepsRoots(prefix: Path, d: InstallDests, fs: Fs)
    requires RemovableDirs(prefix, d) && Basename(d.libRoot) == "lib" && ApplyRemovals(fs, UninstallPlan(d)).Ok?
    ensures var out := ApplyRemovals(fs, UninstallPlan(d)).value;
      && (d.libRoot in fs.entries ==> d.libRoot in out.entries && out.entries[d.libRoot] == fs.entries[d.libRoot])
      && (prefix in fs.entries ==> prefix in out.entries && out.entries[prefix] == fs.entries[prefix])
  {
    var plan := UninstallPlan(d);
    UninstallPlanShape(prefix, d);
    assert forall i :: 0 <= i < |plan| ==> plan[i] in plan;
  }

  /** Everything directly inside `dir` is one of the files its group
      removes, and `dir` itself, if present, is a directory. */
  predicate HoldsOnly(fs: Fs, dir: Path, names: seq<string>) {
    && (dir in fs.entries ==> fs.entries[dir].kind == Dir)
    && forall q :: q in fs.entries && q != dir && Dirname(q) == dir ==>
         IsFile(fs, q) && RemoveFile(q) in FileRemovals(dir, names)
  }

  /** Removing entries keeps a directory holding only its listed files. */
  lemma HoldsOnlyShrinks(fs: Fs, f: Fs, dir: Path, names: seq<string>)
    requires HoldsOnly(fs, dir, names)
    requires f.entries.Keys <= fs.entries.Keys && forall q :: q in f.entries ==> f.entries[q] == fs.entries[q]
    ensures HoldsOnly(f, dir, names)
  {
  }

  /** A group run to the end on a directory that held only its listed
      files removes the directory too: `rmdirIfEmpty` then finds it
      empty. */
  lemma DirGroupEmpties(fs: Fs, dir: Path, names: seq<string>)
    requires WellFormed(fs) && Normalized(dir) && dir != []
    requires forall i :: 0 <= i < |names| ==> IsPlainName(names[i])
    requires HoldsOnly(fs, dir, names)
    requires ApplyRemovals(fs, DirGroup(dir, names)).Ok?
    ensures dir !in ApplyRemovals(fs, DirGroup(dir, names)).value.entries
  {
    var files := FileRemovals(dir, names);
    var last := RemoveDirIfEmpty(dir);
    ApplyRemovalsAppend(fs, files, [last]);
    var f1 := ApplyRemovals(fs, files).value;
    forall i | 0 <= i < |files| ensures Dirname(files[i].path) == dir {
      JoinSplits(dir, names[i]);
    }
    RemovalsClearFiles(fs, files);
    assert IsEmptyDir(f1, dir) by {
      forall q | q in f1.entries && q != dir ensures Dirname(q) != dir {
      }
    }
    assert [last][1..] == [];
    if dir in f1.entries {
      assert IsDir(f1, dir);
      assert ApplyRemovals(f1, [last]) == ApplyRemoval(f1, last);
    }
  }

  /** The same inside a longer run: a group between `pre` and `post`
      removes its directory when that held only the group's files. */
  lemma PlanGroupEmpties(fs: Fs, pre: seq<Removal>, dir: Path, names: seq<string>, post: seq<Removal>)
    requires WellFormed(fs) && Normalized(dir) && dir != []
    requires forall i :: 0 <= i < |names| ==> IsPlainName(names[i])
    requires HoldsOnly(fs, dir, names)
    requires ApplyRemovals(fs, pre + DirGroup(dir, names) + post).Ok?
    ensures dir !in ApplyRemovals(fs, pre + DirGroup(dir, names) + post).value.entries
  {
    var g := DirGroup(dir, names);
    ApplyRemovalsAppend(fs, pre + g, post);
    ApplyRemovalsAppend(fs, pre, g);
    var f0 := ApplyRemovals(fs, pre).value;
    RemovalsKeepWellFormed(fs, pre);
    HoldsOnlyShrinks(fs, f0, dir, names);
    DirGroupEmpties(f0, dir, names);
  }

  /** Four groups run one after the other: each directory that held only
      its group's files is gone at the end. */
  lemma FourGroupsEmpty(fs: Fs, g1: Path, n1: seq<string>, g2: Path, n2: seq<string>,
                        g3: Path, n3: seq<string>, g4: Path, n4: seq<string>)
    requires WellFormed(fs)
    requires Normalized(g1) && g1 != [] && Normalized(g2) && g2 != []
    requires Normalized(g3) && g3 != [] && Normalized(g4) && g4 != []
    requires forall i :: 0 <= i < |n1| ==> IsPlainName(n1[i])
    requires forall i :: 0 <= i < |n2| ==> IsPlainName(n2[i])
    requires forall i :: 0 <= i < |n3| ==> IsPlainName(n3[i])
    requires forall i :: 0 <= i < |n4| ==> IsPlainName(n4[i])
    requires ApplyRemovals(fs, DirGroup(g1, n1) + DirGroup(g2, n2) + DirGroup(g3, n3) + DirGroup(g4, n4)).Ok?
    ensures var out := ApplyRemovals(fs, DirGroup(g1, n1) + DirGroup(g2, n2) + DirGroup(g3, n3) + DirGroup(g4, n4)).value;
      && (HoldsOnly(fs, g1, n1) ==> g1 !in out.entries)
      && (HoldsOnly(fs, g2, n2) ==> g2 !in out.entries)
      && (HoldsOnly(fs, g3, n3) ==> g3 !in out.entries)
      && (HoldsOnly(fs, g4, n4) ==> g4 !in out.entries)
  {
    var a, b, c, e := DirGroup(g1, n1), DirGroup(g2, n2), DirGroup(g3, n3), DirGroup(g4, n4);
    Assoc4(a, b, c, e);
    if HoldsOnly(fs, g1, n1) {
      PlanGroupEmpties(fs, [], g1, n1, b + c + e);
    }
    if HoldsOnly(fs, g2, n2) {
      PlanGroupEmpties(fs, a, g2, n2, c + e);
    }
    if HoldsOnly(fs, g3, n3) {
      PlanGroupEmpties(fs, a + b, g3, n3, e);
    }
    if HoldsOnly(fs, g4, n4) {
      PlanGroupEmpties(fs, a + b + c, g4, n4, []);
    }
  }

  /** The four-group plan regrouped around each group in turn. */
  lemma Assoc4(a: seq<Removal>, b: seq<Removal>, c: seq<Removal>, e: seq<Removal>)
    ensures a + b + c + e == [] + a + (b + c + e) == a + b + (c + e) == a + b + c + e + []
  {
    assert a + b + c + e == [] + a + (b + c + e);
    assert a + b + c + e == a + b + (c + e);
  }

  /** Uninstall plan for any four removable directories: each directory
      that held only its installed files is gone at the end. */
  lemma PlanRemovesEmptiedDirs(prefix: Path, d: InstallDests, fs: Fs)
    requires RemovableDirs(prefix, d) && WellFormed(fs) && ApplyRemovals(fs, UninstallPlan(d)).Ok?
    ensures var out := ApplyRemovals(fs, UninstallPlan(d)).value;
      && (HoldsOnly(fs, d.includeRoot, ["sqlite3.h", "sqlite3ext.h"]) ==> d.includeRoot !in out.entries)
      && (HoldsOnly(fs, d.libWin32Root, ["sqlite3.lib"]) ==> d.libWin32Root !in out.entries)
      && (HoldsOnly(fs, d.libX64Root, ["sqlite3.lib"]) ==> d.libX64Root !in out.entries)
      && (HoldsOnly(fs, d.binRoot, ["sqlite3-Win32.dll", "sqlite3-x64.dll"]) ==> d.binRoot !in out.entries)
  {
    var hs, ls, bs := ["sqlite3.h", "sqlite3ext.h"], ["sqlite3.lib"], ["sqlite3-Win32.dll", "sqlite3-x64.dll"];
    assert forall i :: 0 <= i < |hs| ==> IsPlainName(hs[i]) by { PlainNames(); }
    assert forall i :: 0 <= i < |ls| ==> IsPlainName(ls[i]) by { PlainNames(); }
    assert forall i :: 0 <= i < |bs| ==> IsPlainName(bs[i]) by { PlainNames(); }
    FourGroupsEmpty(fs, d.includeRoot, hs, d.libWin32Root, ls, d.libX64Root, ls, d.binRoot, bs);
  }

  /** `Maker.uninstall` run to the end removes the `include`, `lib\Win32`,
      `lib\x64` and `bin` directories whose only contents were the
      installed files. */
  lemma UninstallRemovesEmptiedDirs(prefix: Path, fs: Fs)
    requires Normalized(prefix) && WellFormed(fs)
    requires ApplyRemovals(fs, UninstallPlan(MakeInstallDests(prefix))).Ok?
    ensures var d := MakeInstallDests(prefix);
      var out := ApplyRemovals(fs, UninstallPlan(d)).value;
      && (HoldsOnly(fs, d.includeRoot, ["sqlite3.h", "sqlite3ext.h"]) ==> d.includeRoot !in out.entries)
      && (HoldsOnly(fs, d.libWin32Root, ["sqlite3.lib"]) ==> d.libWin32Root !in out.entries)
      && (HoldsOnly(fs, d.libX64Root, ["sqlite3.lib"]) ==> d.libX64Root !in out.entries)
      && (HoldsOnly(fs, d.binRoot, ["sqlite3-Win32.dll", "sqlite3-x64.dll"]) ==> d.binRoot !in out.entries)
  {
    InstallDestsRemovable(prefix);
    PlanRemovesEmptiedDirs(prefix, MakeInstallDests(prefix), fs);
  }
}
