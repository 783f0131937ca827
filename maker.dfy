/** `Maker` in make.py: the targets `all`, `install`, `uninstall`,
    `package`, `clean`, `scrub` and `help`, the `done_` memo that keeps
    `install` and `package` from rebuilding, the `step_performed_` flag
    behind "Nothing to do", and `process`, which runs the ordered targets.
    Each target is first stated as a function on a `State` value; the
    `Maker` class then performs it step by step and is proved to reach
    that state. The work outside the scripts' own decisions (downloading,
    unpacking and linking, copying, running makensis) is given by `Env`. */
module Orchestrator {
  import opened Wrappers
  import opened WinPath
  import opened FileSystem
  import opened Staleness
  import opened Dirs
  import opened Targets
  import opened Processes

  /** The exceptions that end a run. */
  datatype Exception = FileNotFound | PermissionError | AssertionFailed | KeyError | AttributeError | BuildError

  /** How a run ends early: `sys.exit(code)` or an uncaught exception. */
  datatype Halt = Exit(code: int) | Uncaught(error: Exception)

  /** Why a `shutil.copy2` fails. */
  datatype CopyError = CopyDenied | CopyMissing

  /** The paths a run touches. `SourceLayout` gives the ones make.py
      uses; the rules below hold for any layout. */
  datatype Layout = Layout(buildDir: Path, win32Dir: Path, x64Dir: Path, allTouch: Path,
                           packagePath: Path, configvars: Path, pycache: Path,
                           install: InstallDests, nsis: NsisDests)

  /** `build`, `build\Win32`, `build\x64`, the `build\all.touch` sentinel,
      `build\sqlite3-for-msvc-setup.exe`, `configvars.py`, `__pycache__`,
      `MakerDirs.install_dests()` and `MakerDirs.nsis_dests()`. */
  function SourceLayout(prefix: Path): Layout {
    Layout("build", WinPath.Join("build", "Win32"), WinPath.Join("build", "x64"), "build\\all.touch",
           WinPath.Join("build", "sqlite3-for-msvc-setup.exe"), "configvars.py", "__pycache__",
           MakeInstallDests(prefix), MakeNsisDests())
  }

  /** The settings and the outside world:
      - `layout`: the paths, from `PREFIX`;
      - `makeNsis`: `MAKE_NSIS` from `configvars.py`;
      - `now`: the time stamp of every file or directory written;
      - `build`: the download, unpack, `.def` and `lib` phase of `make_all`;
      - `installCopy`, `packageCopy`: the `shutil.copy2` calls of `install`
        and of `package` (before makensis runs);
      - `nsisInputs`: `Path('NSIS').glob('*')`;
      - `nsisStatus`: the exit status of the makensis command;
      - `installerMade`: makensis left the installer in the staging
        directory, where the last `shutil.copy2` of `package` reads it. */
  datatype Env = Env(layout: Layout, makeNsis: Option<string>, now: int,
                     build: Fs -> Result<Fs, Exception>,
                     installCopy: Fs -> Result<Fs, CopyError>,
                     packageCopy: Fs -> Result<Fs, CopyError>,
                     nsisInputs: seq<Path>, nsisStatus: int, installerMade: bool)

  /** `MAKE_NSIS` is truthy: neither `None` nor empty. */
  predicate HasNsis(env: Env) {
    env.makeNsis.Some? && env.makeNsis.value != []
  }

  /** The state a run changes: the files, `done_`, `step_performed_`, how
      the run ended if it did, and how many times `make_all` started. */
  datatype State = State(fs: Fs, done: set<string>, stepPerformed: bool, halt: Option<Halt>, allRuns: nat)

  function Initial(fs: Fs): State {
    State(fs, {}, false, None, 0)
  }

  // ---- the targets as functions of the state ----

  /** Writing file `p` (`open(p, 'w')`, or the destination of
      `shutil.copy2`): refused with PermissionError on a protected path or a
      directory, FileNotFoundError when its directory is missing; otherwise
      `p` is a file stamped `now` and nothing else changes. */
  function WriteFile(fs: Fs, p: Path, now: int): (r: Result<Fs, Exception>)
    ensures r.Err? <==> p in fs.denied || IsDir(fs, p) || !ParentExists(fs, p)
    ensures r.Err? ==> r.error == if p in fs.denied || IsDir(fs, p) then PermissionError else FileNotFound
    ensures r.Ok? ==> IsFile(r.value, p) && r.value.entries[p].mtime == now && r.value.denied == fs.denied
    ensures r.Ok? ==> forall q :: q != p ==> (q in r.value.entries <==> q in fs.entries)
    ensures r.Ok? ==> forall q :: q in fs.entries && q != p ==> r.value.entries[q] == fs.entries[q]
  {
    if p in fs.denied || IsDir(fs, p) then Err(PermissionError)
    else if !ParentExists(fs, p) then Err(FileNotFound)
    else Ok(PutFile(fs, p, now))
  }

  /** `make_all`: make the build directories (the return code is ignored);
      if the sentinel is no older than its inputs, only record `all` as
      done; otherwise build, record `all`, set the step flag and then write
      the sentinel, whose failure ends the run with both already set. */
  function MakeAllSpec(env: Env, s: State): (r: State)
    requires s.halt.None?
    ensures r.allRuns == s.allRuns + 1
    ensures r.done == s.done || r.done == s.done + {"all"}
    ensures r.halt.None? ==> r.done == s.done + {"all"}
    ensures r.halt.Some? ==> !r.halt.value.Exit?
    ensures r.halt.Some? && r.done != s.done ==> r.stepPerformed && r.halt.value.error in {PermissionError, FileNotFound}
    ensures s.stepPerformed ==> r.stepPerformed
    ensures r.stepPerformed && !s.stepPerformed ==> "all" in r.done
  {
    var l := env.layout;
    var s0 := s.(allRuns := s.allRuns + 1);
    match CreateDirsSpec([l.buildDir, l.win32Dir, l.x64Dir], s.fs, env.now)
    case Raised(f) => s0.(fs := f, halt := Some(Uncaught(FileNotFound)))
    case Returned(_, f) =>
      match SourceIsNewer(f, l.allTouch, None)
      case Err(_) => s0.(fs := f, halt := Some(Uncaught(FileNotFound)))
      case Ok(false) => s0.(fs := f, done := s.done + {"all"})
      case Ok(true) =>
        match env.build(f)
        case Err(e) => s0.(fs := f, halt := Some(Uncaught(e)))
        case Ok(f') =>
          var s1 := s0.(fs := f', done := s.done + {"all"}, stepPerformed := true);
          match WriteFile(f', l.allTouch, env.now)
          case Err(e) => s1.(halt := Some(Uncaught(e)))
          case Ok(f'') => s1.(fs := f'')
  }

  /** `make_all` unless `all` is already done. */
  function EnsureBuilt(env: Env, s: State): State
    requires s.halt.None?
  {
    if "all" in s.done then s else MakeAllSpec(env, s)
  }

  /** `install`: build if needed, make the destinations (a non-zero code
      exits with it), copy; a PermissionError exits with its errno. It
      builds only when `all` is not yet done. */
  function InstallSpec(env: Env, s: State): (r: State)
    requires s.halt.None?
    ensures r.allRuns == if "all" in s.done then s.allRuns else s.allRuns + 1
    ensures r.done >= s.done && (r.halt.None? ==> "all" in r.done)
    ensures s.stepPerformed ==> r.stepPerformed
    ensures r.halt.None? ==> r.stepPerformed
  {
    var s1 := EnsureBuilt(env, s);
    if s1.halt.Some? then s1
    else match CreateDirsSpec(env.layout.install.Values(), s1.fs, env.now)
      case Raised(f) => s1.(fs := f, halt := Some(Uncaught(FileNotFound)))
      case Returned(rc, f) =>
        if rc != 0 then s1.(fs := f, halt := Some(Exit(rc)))
        else match env.installCopy(f)
          case Err(CopyDenied) => s1.(fs := f, halt := Some(Exit(EACCES)))
          case Err(CopyMissing) => s1.(fs := f, halt := Some(Uncaught(FileNotFound)))
          case Ok(f') => s1.(fs := f', stepPerformed := true)
  }

  /** `uninstall`: the removals in order; a PermissionError exits with its
      errno and otherwise the step is recorded. */
  function UninstallSpec(env: Env, s: State): (r: State)
    requires s.halt.None?
    ensures r.allRuns == s.allRuns && r.done == s.done
    ensures r.halt.None? <==> ApplyRemovals(s.fs, UninstallPlan(env.layout.install)).Ok?
    ensures r.halt.None? ==> r.stepPerformed && r.fs == ApplyRemovals(s.fs, UninstallPlan(env.layout.install)).value
    ensures r.halt.Some? ==> r.halt == Some(Exit(EACCES)) && r.stepPerformed == s.stepPerformed
  {
    match ApplyRemovals(s.fs, UninstallPlan(env.layout.install))
    case Err(code) => s.(halt := Some(Exit(code)))
    case Ok(f) => s.(fs := f, stepPerformed := true)
  }

  /** `package`: exit 1 without makensis; build if needed; stop quietly if
      the installer is no older than `configvars.py`, the `.nsi` script and
      everything in `NSIS`; otherwise make the NSIS tree, copy, run
      makensis (a non-zero status exits with it) and copy the installer to
      `build`; a failure of that last copy ends the run. */
  function PackageSpec(env: Env, s: State): (r: State)
    requires s.halt.None?
    ensures !HasNsis(env) ==> r.halt == Some(Exit(1)) && r.allRuns == s.allRuns && r.fs == s.fs && r.done == s.done
    ensures HasNsis(env) ==> r.allRuns == if "all" in s.done then s.allRuns else s.allRuns + 1
    ensures r.done >= s.done && (r.halt.None? ==> "all" in r.done)
    ensures s.stepPerformed ==> r.stepPerformed
  {
    if !HasNsis(env) then s.(halt := Some(Exit(1)))
    else
      var s1 := EnsureBuilt(env, s);
      if s1.halt.Some? then s1
      else match SourceIsNewer(s1.fs, env.layout.packagePath, Some(env.nsisInputs))
        case Err(_) => s1.(halt := Some(Uncaught(FileNotFound)))
        case Ok(false) => s1
        case Ok(true) => PackageBuild(env, s1)
  }

  /** The part of `package` after the dependency check. A finished build
      leaves a fresh installer in `build`, and the step flag is set only
      then. */
  function PackageBuild(env: Env, s: State): (r: State)
    requires s.halt.None?
    ensures r.allRuns == s.allRuns && r.done == s.done
    ensures s.stepPerformed ==> r.stepPerformed
    ensures r.stepPerformed && !s.stepPerformed ==> r.halt.None?
    ensures r.halt.None? ==> r.stepPerformed && IsFile(r.fs, env.layout.packagePath) && r.fs.entries[env.layout.packagePath].mtime == env.now
    ensures r.halt.None? ==> env.nsisStatus == 0 && env.installerMade
  {
    match CreateDirsSpec(env.layout.nsis.Values(), s.fs, env.now)
    case Raised(f) => s.(fs := f, halt := Some(Uncaught(FileNotFound)))
    case Returned(rc, f) =>
      if rc != 0 then s.(fs := f, halt := Some(Exit(rc)))
      else match env.packageCopy(f)
        case Err(CopyDenied) => s.(fs := f, halt := Some(Uncaught(PermissionError)))
        case Err(CopyMissing) => s.(fs := f, halt := Some(Uncaught(FileNotFound)))
        case Ok(f') =>
          if env.nsisStatus != 0 then s.(fs := f', halt := Some(Exit(env.nsisStatus)))
          else if !env.installerMade then s.(fs := f', halt := Some(Uncaught(FileNotFound)))
          else match WriteFile(f', env.layout.packagePath, env.now)
            case Err(e) => s.(fs := f', halt := Some(Uncaught(e)))
            case Ok(f'') => s.(fs := f'', stepPerformed := true)
  }

  /** Where `deleteThese` got to: the file system, and whether a
      PermissionError escaped before the last path. */
  datatype Deletion = Deletion(fs: Fs, stopped: bool)

  /** No entry of the file system is protected against removal. */
  predicate NothingDenied(fs: Fs) {
    forall q :: q in fs.entries ==> q !in fs.denied
  }

  /** `deleteThese`: a directory is removed with everything under it,
      anything else with `rm_f`; the first PermissionError escapes, with
      the earlier paths already gone. */
  function DeleteThese(fs: Fs, paths: seq<Path>): (r: Deletion)
    ensures Shrunk(r.fs, fs)
    ensures !r.stopped ==> forall i :: 0 <= i < |paths| ==> !IsDir(r.fs, paths[i])
    ensures NothingDenied(fs) ==> !r.stopped
    ensures r.stopped ==> exists q :: q in fs.entries && q in fs.denied
    decreases |paths|
  {
    if paths == [] then Deletion(fs, false)
    else
      match DeleteOne(fs, paths[0])
      case Err(_) => Deletion(fs, true)
      case Ok(f) =>
        var r := DeleteThese(f, paths[1..]);
        assert forall i :: 1 <= i < |paths| ==> paths[i] == paths[1..][i - 1];
        r
  }

  /** Some entry of the tree at `d` is protected against removal. */
  predicate TreeDenied(fs: Fs, d: Path) {
    exists q :: q in fs.entries && Under(q, d) && q in fs.denied
  }

  /** `shutil.rmtree(d)`: the tree goes, unless the system refuses to
      remove an entry of it, which raises PermissionError. */
  function RmTree(fs: Fs, d: Path): (r: Result<Fs, int>)
    ensures r.Err? <==> TreeDenied(fs, d)
    ensures r.Ok? ==> Shrunk(r.value, fs)
    ensures r.Ok? ==> forall q :: q in r.value.entries <==> q in fs.entries && !Under(q, d)
  {
    if TreeDenied(fs, d) then Err(EACCES) else Ok(RemoveTree(fs, d))
  }

  /** One path of `deleteThese`: a directory goes with its tree; anything
      else goes through `rm_f` as written, so a bare file name stays. */
  function DeleteOne(fs: Fs, p: Path): (r: Result<Fs, int>)
    ensures r.Ok? ==> Shrunk(r.value, fs) && !IsDir(r.value, p)
    ensures IsDir(fs, p) ==> (r.Err? <==> TreeDenied(fs, p))
    ensures IsDir(fs, p) && r.Ok? ==> forall q :: q in r.value.entries <==> q in fs.entries && !Under(q, p)
    ensures !IsDir(fs, p) ==> (r.Err? <==> IsDir(fs, Dirname(p)) && IsFile(fs, p) && p in fs.denied)
    ensures !IsDir(fs, p) && r.Ok? && IsDir(fs, Dirname(p)) ==> !IsFile(r.value, p)
    ensures !IsDir(fs, p) && !IsDir(fs, Dirname(p)) ==> r == Ok(fs)
  {
    if IsDir(fs, p) then RmTree(fs, p) else RmFAsWritten(fs, p)
  }

  /** `clean` never finishes: with `MAKE_NSIS` unset the `'nsis'` key is
      missing; otherwise the four paths go (a protected entry stops this
      with PermissionError) and then the call to the nonexistent
      `MakerDirs.touch_files` raises AttributeError. */
  function CleanSpec(env: Env, s: State): (r: State)
    requires s.halt.None?
    ensures r.halt.Some? && r.halt.value.Uncaught?
    ensures r.stepPerformed == s.stepPerformed && r.done == s.done && r.allRuns == s.allRuns
    ensures !HasNsis(env) ==> r.halt.value.error == KeyError && r.fs == s.fs
    ensures HasNsis(env) ==> r.halt.value.error in {PermissionError, AttributeError} && Shrunk(r.fs, s.fs)
    ensures HasNsis(env) && NothingDenied(s.fs) ==> r.halt.value.error == AttributeError
  {
    var l := env.layout;
    if !HasNsis(env) then s.(halt := Some(Uncaught(KeyError)))
    else
      var d := DeleteThese(s.fs, [l.win32Dir, l.x64Dir, l.nsis.nsis, l.packagePath]);
      s.(fs := d.fs, halt := Some(Uncaught(if d.stopped then PermissionError else AttributeError)))
  }

  /** `scrub`: remove the `build` tree, `configvars.py` through `rm_f` as
      written, and the `__pycache__` tree. The two trees go through
      `rmdir /s /q`, whose status is not looked at. */
  function ScrubSpec(env: Env, s: State): (r: State)
    requires s.halt.None?
    ensures r.done == s.done && r.allRuns == s.allRuns
    ensures s.stepPerformed ==> r.stepPerformed
    ensures r.halt.None? ==> r.stepPerformed && !IsDir(r.fs, env.layout.buildDir)
    ensures r.halt.None? ==> !IsDir(r.fs, env.layout.pycache)
    ensures Shrunk(r.fs, s.fs)
  {
    var l := env.layout;
    var f1 := if IsDir(s.fs, l.buildDir) then RemoveTree(s.fs, l.buildDir) else s.fs;
    match RmFAsWritten(f1, l.configvars)
    case Err(_) => s.(fs := f1, halt := Some(Uncaught(PermissionError)))
    case Ok(f2) =>
      var f3 := if IsDir(f2, l.pycache) then RemoveTree(f2, l.pycache) else f2;
      s.(fs := f3, stepPerformed := true)
  }

  /** `scrub` with `rm_f` corrected (`Dirs.RmF`): `configvars.py` in the
      current directory is removed too. */
  function ScrubSpecCorrected(env: Env, s: State): (r: State)
    requires s.halt.None?
    ensures r.done == s.done && r.allRuns == s.allRuns
    ensures s.stepPerformed ==> r.stepPerformed
    ensures r.halt.None? ==> r.stepPerformed && !IsDir(r.fs, env.layout.buildDir)
    ensures r.halt.None? ==> !IsDir(r.fs, env.layout.pycache)
    ensures Shrunk(r.fs, s.fs)
  {
    var l := env.layout;
    var f1 := if IsDir(s.fs, l.buildDir) then RemoveTree(s.fs, l.buildDir) else s.fs;
    match RmF(f1, l.configvars)
    case Err(_) => s.(fs := f1, halt := Some(Uncaught(PermissionError)))
    case Ok(f2) =>
      var f3 := if IsDir(f2, l.pycache) then RemoveTree(f2, l.pycache) else f2;
      s.(fs := f3, stepPerformed := true)
  }

  /** The target names `Maker.targets` knows. */
  const Known: set<string> := {"all", "install", "uninstall", "package", "clean", "scrub", "help"}

  /** One turn of the loop in `process`: an unknown name fails the
      `assert`. */
  function Dispatch(env: Env, s: State, t: string): State
    requires s.halt.None?
  {
    if t == "all" then MakeAllSpec(env, s)
    else if t == "install" then InstallSpec(env, s)
    else if t == "uninstall" then UninstallSpec(env, s)
    else if t == "package" then PackageSpec(env, s)
    else if t == "clean" then CleanSpec(env, s)
    else if t == "scrub" then ScrubSpec(env, s)
    else if t == "help" then s.(stepPerformed := true)
    else s.(halt := Some(Uncaught(AssertionFailed)))
  }

  /** The loop of `process`: targets in order until one ends the run. */
  function RunSpec(env: Env, s: State, ts: seq<string>): State
    decreases |ts|
  {
    if ts == [] || s.halt.Some? then s
    else RunSpec(env, Dispatch(env, s, ts[0]), ts[1..])
  }

  /** One target further into the loop of `process`. */
  lemma RunStep(env: Env, s: State, ts: seq<string>, i: nat)
    requires i < |ts| && s.halt.None?
    ensures RunSpec(env, s, ts[i..]) == RunSpec(env, Dispatch(env, s, ts[i]), ts[i + 1..])
  {
    assert ts[i..][1..] == ts[i + 1..];
  }

  /** "Nothing to do for targets" is printed at the end of a run. */
  predicate NothingToDo(s: State) {
    s.halt.None? && !s.stepPerformed
  }

  // ---- the memo, the flag, the run ----

  /** The sentinel is up to date: `all` is recorded and the step flag is
      left alone. */
  lemma MakeAllSkipPath(env: Env, s: State)
    requires s.halt.None?
    requires var l := env.layout;
      var made := CreateDirsSpec([l.buildDir, l.win32Dir, l.x64Dir], s.fs, env.now);
      made.Returned? && SourceIsNewer(made.fs, l.allTouch, None) == Ok(false)
    ensures var r := MakeAllSpec(env, s);
      r.halt.None? && "all" in r.done && r.stepPerformed == s.stepPerformed
  {
    var l := env.layout;
    var made := CreateDirsSpec([l.buildDir, l.win32Dir, l.x64Dir], s.fs, env.now);
    assert made == Returned(made.rc, made.fs);
  }

  /** A build that finishes records `all` and sets the step flag; the run
      then goes on exactly when `build\all.touch` can be written, which
      leaves it stamped with the current time. A protected sentinel ends
      the run with PermissionError, `all` and the flag already set. */
  lemma MakeAllFullPath(env: Env, s: State)
    requires s.halt.None?
    requires var l := env.layout;
      var made := CreateDirsSpec([l.buildDir, l.win32Dir, l.x64Dir], s.fs, env.now);
      made.Returned? && SourceIsNewer(made.fs, l.allTouch, None) == Ok(true) && env.build(made.fs).Ok?
    ensures var r := MakeAllSpec(env, s);
      "all" in r.done && r.stepPerformed
    ensures var l := env.layout;
      var built := env.build(CreateDirsSpec([l.buildDir, l.win32Dir, l.x64Dir], s.fs, env.now).fs).value;
      var r := MakeAllSpec(env, s);
      && (r.halt.None? <==> l.allTouch !in built.denied && !IsDir(built, l.allTouch) && ParentExists(built, l.allTouch))
      && (r.halt.None? ==> IsFile(r.fs, l.allTouch) && r.fs.entries[l.allTouch].mtime == env.now)
      && (l.allTouch in built.denied ==> r.halt == Some(Uncaught(PermissionError)))
  {
    var l := env.layout;
    var made := CreateDirsSpec([l.buildDir, l.win32Dir, l.x64Dir], s.fs, env.now);
    assert made == Returned(made.rc, made.fs);
    var built := env.build(made.fs);
    assert built == Ok(built.value);
  }

  /** After makensis returned 0: without the installer the last copy
      raises FileNotFoundError; with it the run goes on exactly when
      `build\sqlite3-for-msvc-setup.exe` can be written, and a protected
      one raises PermissionError. Either failure leaves the flag alone. */
  lemma PackageFinalCopy(env: Env, s: State)
    requires s.halt.None? && env.nsisStatus == 0
    requires var made := CreateDirsSpec(env.layout.nsis.Values(), s.fs, env.now);
      made.Returned? && made.rc == 0 && env.packageCopy(made.fs).Ok?
    ensures !env.installerMade ==>
      PackageBuild(env, s).halt == Some(Uncaught(FileNotFound)) && PackageBuild(env, s).stepPerformed == s.stepPerformed
    ensures var p := env.layout.packagePath;
      var copied := env.packageCopy(CreateDirsSpec(env.layout.nsis.Values(), s.fs, env.now).fs).value;
      var r := PackageBuild(env, s);
      && (env.installerMade ==> (r.halt.None? <==> p !in copied.denied && !IsDir(copied, p) && ParentExists(copied, p)))
      && (env.installerMade && p in copied.denied ==> r.halt == Some(Uncaught(PermissionError)) && r.stepPerformed == s.stepPerformed)
  {
    var made := CreateDirsSpec(env.layout.nsis.Values(), s.fs, env.now);
    assert made == Returned(made.rc, made.fs);
    var copied := env.packageCopy(made.fs);
    assert copied == Ok(copied.value);
  }

  /** Without makensis, `package` exits 1 at once: nothing is built and
      the targets after it never run. */
  lemma {:induction false} PackageNeedsNsis(env: Env, fs: Fs, rest: seq<string>)
    requires !HasNsis(env)
    ensures RunSpec(env, Initial(fs), ["package"] + rest) == Initial(fs).(halt := Some(Exit(1)))
  {
    var s1 := Dispatch(env, Initial(fs), "package");
    assert s1 == Initial(fs).(halt := Some(Exit(1)));
    assert (["package"] + rest)[1..] == rest;
    assert RunSpec(env, s1, rest) == s1;
  }

  /** The memo invariant: while the run goes on, `make_all` has started
      only if `all` is recorded. */
  predicate MemoInv(s: State) {
    s.halt.None? && s.allRuns > 0 ==> "all" in s.done
  }

  /** Every target keeps the memo invariant and records what it records;
      only the `all` target starts `make_all` when `all` is already
      recorded. */
  lemma DispatchKeepsMemo(env: Env, s: State, t: string)
    requires s.halt.None? && MemoInv(s)
    ensures var r := Dispatch(env, s, t);
      && MemoInv(r)
      && r.done >= s.done
      && r.allRuns <= s.allRuns + 1
      && (t != "all" && "all" in s.done ==> r.allRuns == s.allRuns)
  {
  }

  /** Unless `all` is requested explicitly, `make_all` runs at most once. */
  lemma {:induction false} BuildAtMostOnce(env: Env, s: State, ts: seq<string>)
    requires MemoInv(s) && "all" !in ts
    ensures RunSpec(env, s, ts).allRuns <= if s.allRuns == 0 then 1 else s.allRuns
    decreases |ts|
  {
    if ts != [] && s.halt.None? {
      DispatchKeepsMemo(env, s, ts[0]);
      assert ts[0] != "all";
      assert "all" !in ts[1..] by {
        assert forall i :: 0 <= i < |ts[1..]| ==> ts[1..][i] == ts[i + 1];
      }
      BuildAtMostOnce(env, Dispatch(env, s, ts[0]), ts[1..]);
    }
  }

  lemma BuildAtMostOnceFromStart(env: Env, fs: Fs, raw: seq<string>)
    requires "all" !in raw
    ensures RunSpec(env, Initial(fs), Order(raw)).allRuns <= 1
  {
    var o := Order(raw);
    if o == ["all"] {
      var s1 := MakeAllSpec(env, Initial(fs));
      assert RunSpec(env, Initial(fs), o) == RunSpec(env, s1, []);
    } else {
      assert "all" !in o by {
        if "help" !in raw && "clean" in raw {
          CleanHoisted(raw);
          assert multiset(o)["all"] == 0;
        } else if "help" !in raw {
          WithoutCleanCounts(raw);
          assert multiset(o)["all"] == 0;
        }
      }
      BuildAtMostOnce(env, Initial(fs), o);
    }
  }

  /** A finished target other than `all` and `package` has set the step
      flag, and no target clears it. */
  lemma DispatchSetsStep(env: Env, s: State, t: string)
    requires s.halt.None?
    ensures var r := Dispatch(env, s, t);
      && (s.stepPerformed ==> r.stepPerformed)
      && (r.halt.None? && t != "all" && t != "package" ==> r.stepPerformed)
  {
  }

  /** "Nothing to do" means the run finished, no step was performed, and
      every target was `all` or `package`. */
  lemma {:induction false} NothingToDoTargets(env: Env, s: State, ts: seq<string>)
    requires s.halt.None?
    requires NothingToDo(RunSpec(env, s, ts))
    ensures !s.stepPerformed
    ensures forall i :: 0 <= i < |ts| ==> ts[i] == "all" || ts[i] == "package"
    decreases |ts|
  {
    if ts != [] {
      var s' := Dispatch(env, s, ts[0]);
      DispatchSetsStep(env, s, ts[0]);
      if s'.halt.None? {
        NothingToDoTargets(env, s', ts[1..]);
        assert forall i :: 1 <= i < |ts| ==> ts[i] == ts[1..][i - 1];
      } else {
        HaltStays(env, s', ts[1..]);
        assert false;
      }
    }
  }

  /** `help` anywhere: the run prints the help and nothing else happens. */
  lemma HelpRunsAlone(env: Env, fs: Fs, raw: seq<string>)
    requires "help" in raw
    ensures RunSpec(env, Initial(fs), Order(raw)) == Initial(fs).(stepPerformed := true)
    ensures !NothingToDo(RunSpec(env, Initial(fs), Order(raw)))
  {
    assert Order(raw) == ["help"];
    assert RunSpec(env, Initial(fs), ["help"]) == RunSpec(env, Initial(fs).(stepPerformed := true), []);
  }

  /** A target `Maker.targets` does not know ends the run by the time the
      loop reaches it; the targets before it have already run. */
  lemma {:induction false} UnknownTargetHalts(env: Env, s: State, ts: seq<string>, k: int)
    requires 0 <= k < |ts| && ts[k] !in Known
    ensures RunSpec(env, s, ts).halt.Some?
    decreases |ts|
  {
    if s.halt.None? {
      if k == 0 {
        assert Dispatch(env, s, ts[0]).halt == Some(Uncaught(AssertionFailed));
        HaltStays(env, Dispatch(env, s, ts[0]), ts[1..]);
      } else {
        assert ts[1..][k - 1] == ts[k];
        UnknownTargetHalts(env, Dispatch(env, s, ts[0]), ts[1..], k - 1);
      }
    }
  }

  /** Once the run has ended, the remaining targets do nothing. */
  lemma {:induction false} HaltStays(env: Env, s: State, ts: seq<string>)
    requires s.halt.Some?
    ensures RunSpec(env, s, ts) == s
  {
  }

  /** With make.py's paths, `scrub` always finishes and sets the flag, and
      leaves `configvars.py` exactly as it was, protected or not: `rm_f`
      as written never reaches the unlink. */
  lemma ScrubKeepsConfigvars(env: Env, s: State, prefix: Path)
    requires s.halt.None? && env.layout == SourceLayout(prefix)
    ensures ScrubSpec(env, s).halt.None? && ScrubSpec(env, s).stepPerformed
    ensures "configvars.py" in s.fs.entries ==>
      "configvars.py" in ScrubSpec(env, s).fs.entries
      && ScrubSpec(env, s).fs.entries["configvars.py"] == s.fs.entries["configvars.py"]
  {
    var l := env.layout;
    var f1 := if IsDir(s.fs, l.buildDir) then RemoveTree(s.fs, l.buildDir) else s.fs;
    ConfigvarsIsBare();
    PlainNameHasNoDir("configvars.py");
    assert RmFAsWritten(f1, l.configvars) == Ok(f1);
    assert !Under("configvars.py", "build");
    assert !Under("configvars.py", "__pycache__");
  }

  /** The corrected `scrub`, once finished with make.py's paths, leaves no
      `build` directory and no `configvars.py`. */
  lemma ScrubClears(env: Env, s: State, prefix: Path)
    requires s.halt.None? && env.layout == SourceLayout(prefix)
    requires ScrubSpecCorrected(env, s).halt.None?
    ensures !IsDir(ScrubSpecCorrected(env, s).fs, "build")
    ensures !IsFile(ScrubSpecCorrected(env, s).fs, "configvars.py")
  {
    var l := env.layout;
    var f1 := if IsDir(s.fs, l.buildDir) then RemoveTree(s.fs, l.buildDir) else s.fs;
    ConfigvarsIsBare();
    PlainNameHasNoDir("configvars.py");
    var removed := RmF(f1, l.configvars);
    assert removed == Ok(removed.value);
    assert !IsFile(removed.value, "configvars.py");
  }

  // ---- the class ----

  class Maker {
    const env: Env
    var fs: Fs
    /** `done_` */
    var done: set<string>
    /** `step_performed_` */
    var stepPerformed: bool
    var halt: Option<Halt>
    var allRuns: nat

    function Snapshot(): State
      reads this
    {
      State(fs, done, stepPerformed, halt, allRuns)
    }

    constructor (env: Env, fs: Fs)
      ensures this.env == env
      ensures Snapshot() == Initial(fs)
    {
      this.env := env;
      this.fs := fs;
      done := {};
      stepPerformed := false;
      halt := None;
      allRuns := 0;
    }

    method MakeAll()
      requires halt.None?
      modifies this
      ensures Snapshot() == MakeAllSpec(env, old(Snapshot()))
    {
      var l := env.layout;
      allRuns := allRuns + 1;
      var made := CreateDirs([l.buildDir, l.win32Dir, l.x64Dir], fs, env.now);
      fs := made.fs;
      if made.Raised? {
        halt := Some(Uncaught(FileNotFound));
        return;
      }
      var stale := SourceIsNewer(fs, l.allTouch, None);
      if stale.Err? {
        halt := Some(Uncaught(FileNotFound));
        return;
      }
      if !stale.value {
        done := done + {"all"};
        return;
      }
      var built := env.build(fs);
      if built.Err? {
        halt := Some(Uncaught(built.error));
        return;
      }
      fs := built.value;
      done := done + {"all"};
      stepPerformed := true;
      var touched := WriteFile(fs, l.allTouch, env.now);
      if touched.Err? {
        halt := Some(Uncaught(touched.error));
        return;
      }
      fs := touched.value;
    }

    method Install()
      requires halt.None?
      modifies this
      ensures Snapshot() == InstallSpec(env, old(Snapshot()))
    {
      if "all" !in done {
        MakeAll();
        if halt.Some? {
          return;
        }
      }
      var made := CreateDirs(env.layout.install.Values(), fs, env.now);
      fs := made.fs;
      if made.Raised? {
        halt := Some(Uncaught(FileNotFound));
        return;
      }
      if made.rc != 0 {
        halt := Some(Exit(made.rc));
        return;
      }
      var copied := env.installCopy(fs);
      if copied.Err? {
        halt := Some(if copied.error == CopyDenied then Exit(EACCES) else Uncaught(FileNotFound));
        return;
      }
      fs := copied.value;
      stepPerformed := true;
    }

    method Uninstall()
      requires halt.None?
      modifies this
      ensures Snapshot() == UninstallSpec(env, old(Snapshot()))
    {
      var removed := ApplyRemovals(fs, UninstallPlan(env.layout.install));
      if removed.Err? {
        halt := Some(Exit(removed.error));
        return;
      }
      fs := removed.value;
      stepPerformed := true;
    }

    method Package()
      requires halt.None?
      modifies this
      ensures Snapshot() == PackageSpec(env, old(Snapshot()))
    {
      if !HasNsis(env) {
        halt := Some(Exit(1));
        return;
      }
      if "all" !in done {
        MakeAll();
        if halt.Some? {
          return;
        }
      }
      var stale := SourceIsNewer(fs, env.layout.packagePath, Some(env.nsisInputs));
      if stale.Err? {
        halt := Some(Uncaught(FileNotFound));
        return;
      }
      if stale.value {
        BuildPackage();
      }
    }

    method BuildPackage()
      requires halt.None?
      modifies this
      ensures Snapshot() == PackageBuild(env, old(Snapshot()))
    {
      var made := CreateDirs(env.layout.nsis.Values(), fs, env.now);
      fs := made.fs;
      if made.Raised? {
        halt := Some(Uncaught(FileNotFound));
        return;
      }
      if made.rc != 0 {
        halt := Some(Exit(made.rc));
        return;
      }
      var copied := env.packageCopy(fs);
      if copied.Err? {
        halt := Some(Uncaught(if copied.error == CopyDenied then PermissionError else FileNotFound));
        return;
      }
      fs := copied.value;
      var nsis := new Proc(true, false, [], env.nsisStatus);
      var rc := nsis.Run();
      if rc != 0 {
        halt := Some(Exit(rc));
        return;
      }
      if !env.installerMade {
        halt := Some(Uncaught(FileNotFound));
        return;
      }
      var copied2 := WriteFile(fs, env.layout.packagePath, env.now);
      if copied2.Err? {
        halt := Some(Uncaught(copied2.error));
        return;
      }
      fs := copied2.value;
      stepPerformed := true;
    }

    method Clean()
      requires halt.None?
      modifies this
      ensures Snapshot() == CleanSpec(env, old(Snapshot()))
    {
      var l := env.layout;
      if !HasNsis(env) {
        halt := Some(Uncaught(KeyError));
        return;
      }
      var deleted := DeleteThese(fs, [l.win32Dir, l.x64Dir, l.nsis.nsis, l.packagePath]);
      fs := deleted.fs;
      if deleted.stopped {
        halt := Some(Uncaught(PermissionError));
        return;
      }
      halt := Some(Uncaught(AttributeError));
    }

    method Scrub()
      requires halt.None?
      modifies this
      ensures Snapshot() == ScrubSpec(env, old(Snapshot()))
    {
      var l := env.layout;
      if IsDir(fs, l.buildDir) {
        fs := RemoveTree(fs, l.buildDir);
      }
      var removed := RmFAsWritten(fs, l.configvars);
      if removed.Err? {
        halt := Some(Uncaught(PermissionError));
        return;
      }
      fs := removed.value;
      if IsDir(fs, l.pycache) {
        fs := RemoveTree(fs, l.pycache);
      }
      stepPerformed := true;
    }

    method Help()
      modifies this
      ensures Snapshot() == old(Snapshot()).(stepPerformed := true)
    {
      stepPerformed := true;
    }

    /** One target of `process`: the method of that name, or the failed
        assertion on a name that is not a target. */
    method Step(t: string)
      requires halt.None?
      modifies this
      ensures Snapshot() == Dispatch(env, old(Snapshot()), t)
    {
      if t == "all" {
        MakeAll();
      } else if t == "install" {
        Install();
      } else if t == "uninstall" {
        Uninstall();
      } else if t == "package" {
        Package();
      } else if t == "clean" {
        Clean();
      } else if t == "scrub" {
        Scrub();
      } else if t == "help" {
        Help();
      } else {
        halt := Some(Uncaught(AssertionFailed));
      }
    }

    /** `process(args)`: the ordered targets, one by one, until one ends
        the run; `nothingToDo` is the closing message. */
    method Process(raw: seq<string>) returns (nothingToDo: bool)
      modifies this
      ensures Snapshot() == RunSpec(env, old(Snapshot()), Order(raw))
      ensures nothingToDo == NothingToDo(Snapshot())
    {
      var order := ValidOrder(raw);
      var i := 0;
      while i < |order| && halt.None?
        invariant 0 <= i <= |order|
        invariant RunSpec(env, old(Snapshot()), order) == RunSpec(env, Snapshot(), order[i..])
      {
        RunStep(env, Snapshot(), order, i);
        Step(order[i]);
        i := i + 1;
      }
      nothingToDo := halt.None? && !stepPerformed;
    }
  }
}
