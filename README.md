# sqlite_msvc_packager in Dafny

sqlite_msvc_packager fetches the SQLite amalgamation and prebuilt Windows DLLs and turns them into MSVC import libraries. It then installs the headers, libraries and DLLs under a prefix, or packages them with NSIS. The project has two Python scripts:

- `configure.py` finds the Visual C++ settings batch files (`vcvars32`/`vcvars64`). It checks that `lib` runs after them and checks the `makensis` version. It then writes `configvars.py` and `make.cmd`.
- `make.py` is a small make replacement. It provides the targets `all`, `install`, `uninstall`, `package`, `clean`, `scrub` and `help`. It runs them in a fixed order. A `done_` memo stops `install` and `package` from building twice. A `step_performed_` flag decides whether "Nothing to do" is printed.

This model restates both scripts in Dafny and proves what they promise. Each Dafny module corresponds to one part of the scripts:

| module | models |
|---|---|
| `Targets` | `Maker.valid_order` |
| `Processes` | the `Proc` wrapper around a child process, as a class |
| `Staleness` | `source_is_newer` |
| `Dirs` | `create_dirs`, `rm_f`, `MakerDirs.install_dests` / `nsis_dests`, and the removal sequence of `uninstall` |
| `Listing` | the parse of the SQLite download page |
| `Download` | the size and SHA3 check of each download, the choice of unpack directory, and the `.def` rewrite. These are proved on their own, over a store of file contents; `make_all` in `Orchestrator` sees this phase only through its `build` parameter |
| `Orchestrator` | every target as a function of a `State`, plus a `Maker` class whose methods perform the targets step by step and are proved to reach that state, and `process`, which runs a list of targets |
| `Vcvars` | `drive_letters`, `find_files_by_name` and `locate_vcvars_files` |
| `ToolCheck` | `find_lib_in_platform` and `find_make_nsis` |
| `Configure` | the `argv` rewrite, the `configvars.py` and `make.cmd` writers, the vcvars pairing, and `main` |

Four modules support the others:

- `Text` gives `str.strip`, `split` and `int` on strings.
- `WinPath` gives `ntpath.join`, `dirname` and `basename`.
- `FileSystem` is a map from paths to files and directories. Each entry has a modification time. The map also holds a set of paths whose removal is denied.
- `Wrappers` holds `Option` and `Result`.

Some things the scripts do are given to the model as parameters instead of being run:

- the download payloads;
- the SHA3-256 digest;
- the output of `dir /s /b`, of the `lib` session and of `makensis /VERSION`;
- the set of existing drive letters;
- the download/unpack/link phase of `make_all`;
- the `shutil.copy2` calls;
- the makensis exit status;
- Python's `repr`.

Three behaviours of the code are worth spelling out, because the names of the targets suggest something else:

- **Unknown target names.** `process` asserts once per target inside its loop, so the targets before an unknown name have already run when the assertion fails (`Orchestrator.UnknownTargetHalts`).
- **`clean`.** It never finishes:
  - with `MAKE_NSIS` unset, `nsis_dests()['nsis']` raises KeyError before anything is deleted;
  - otherwise the four paths are deleted (a protected entry stops this with PermissionError), and then the call to the nonexistent `MakerDirs.touch_files` raises AttributeError (`Orchestrator.CleanSpec`).
- **`scrub`.** It deletes `build` and `__pycache__`, but `rm_f('configvars.py')` never unlinks the file, so `configvars.py` stays (`Orchestrator.ScrubKeepsConfigvars`). The model follows the code in `ScrubSpec` and `Maker.Scrub`. The version that also removes the file is `Orchestrator.ScrubSpecCorrected` (see Findings).

## Model

| member | source | states |
|---|---|---|
| Targets.ValidOrder | make.py:177-188 | building `valid` by appends yields exactly `Order(raw)`: `help` alone, else one `clean` first and then the other targets in request order, else `all` |
| Targets.HelpPreempts | make.py:179-180 | a `help` anywhere in the request makes the order `["help"]` |
| Targets.AllByDefault | make.py:186-187 | the order is `["all"]` exactly when the request is empty or is `["all"]` |
| Targets.CleanHoisted | make.py:181-185 | with `clean` requested and no `help`, the order is `clean` followed by the other targets, and as a multiset it is the request with `clean` counted once |
| Targets.PlainRequestUnchanged | make.py:183-188 | a non-empty request without `help` or `clean` runs as given |
| Targets.OrderIdempotent | make.py:177-188 | ordering an already ordered list changes nothing |
| Targets.WithoutCleanCounts | make.py:183-185 | the filter drops exactly the `clean`s: every other name keeps its number of occurrences |
| Targets.WithoutCleanMember | make.py:183-185 | every target the filter keeps was requested |
| Targets.WithoutCleanAppend | make.py:183-185 | the filter distributes over concatenation, so the loop may filter one name at a time |
| Processes.Proc.constructor | make.py:55-70 | a missing executable leaves no process and the cached status 9009; otherwise nothing is cached and no line is collected |
| Processes.Proc.Rc | make.py:72-78 | returns the exit status (9009 when the program was not found), caches it, collects the output once when it is consumed, and changes nothing on a second call |
| Processes.Proc.Lines | make.py:80-83 | returns the collected output (all of it when consumed, none otherwise) and leaves the cached status alone |
| Processes.Proc.Run | make.py:85-86 | the same result and state as `rc` |
| Processes.RcIsCached | make.py:72-78 | two calls to `rc` return the same status |
| Processes.MissingExecutable | make.py:68-70 | a process that could not start reports 9009 and no output |
| Processes.OutputCollectedOnce | make.py:75-83 | whether `lines` or `rc` comes first, the output is collected exactly once and the status is the child's |
| Staleness.AnyNewer | make.py:96-105 | the scan is true exactly when some input is newer than the stamp, false exactly when every input exists and none is newer, and fails on the first missing input it reaches |
| Staleness.SourceIsNewer | make.py:89-105 | a missing target is always stale; otherwise the target is stale exactly when `configvars.py`, `NSIS\sqlite_packager.nsi` or an extra input is newer |
| Staleness.UpToDateWhenNoInputNewer | make.py:99-105 | when every input exists and none is newer than the target, nothing needs to be done |
| Staleness.StaleWhenSomeInputNewer | make.py:99-105 | one newer input makes the target stale |
| Staleness.ExtraInputsKeepStale | make.py:101-103 | adding the NSIS inputs never makes a stale target up to date |
| Dirs.Mkdir | make.py:117 | a directory is made exactly when the path is new, its parent exists and creation is allowed, and then only that entry is added |
| Dirs.CreateDirsSpec | make.py:114-123 | the return code is 0, EEXIST or EACCES; nothing existing changes, and every new entry is one of the requested directories |
| Dirs.CreateDirs | make.py:114-123 | the loop with its early return computes `CreateDirsSpec` |
| Dirs.CreateDirsZeroMeansAllDirs | make.py:114-123 | a return code of 0 means every requested path is now a directory |
| Dirs.CreateDirsStopsAtFirstFailure | make.py:118-122 | a non-zero code comes from the first failing entry: every entry before it succeeded, and it is an existing non-directory (EEXIST) or a refused path (EACCES) |
| Dirs.ParentsFirstNeverRaises | make.py:114-123 | when each directory's parent exists or comes earlier in the list, no uncaught FileNotFoundError escapes |
| Dirs.InstallDestsParentsFirst | make.py:133-143 | for an existing prefix, creating `include`, `bin`, `lib`, `lib\Win32` and `lib\x64` never raises |
| Dirs.NsisDestsShape | make.py:145-158 | the NSIS tree is `build\nsis` with `include`, `bin` and `lib` under it, and `Win32` and `x64` under `lib` |
| Dirs.NsisDestsParentsFirst | make.py:145-158 | with `build` present, creating the NSIS tree never raises |
| Dirs.RmFAsWritten | make.py:126-128 | as written: the file is removed only when `isdir(dirname(path))`, and a denied removal fails with EACCES |
| Dirs.RmF | make.py:126-128 | corrected: the file is removed when its directory exists, the bare name included; otherwise nothing changes; a denied removal fails with EACCES |
| Dirs.RmFAgreesWithDirectory | make.py:126-128 | for a path with a directory part, the two versions agree |
| Dirs.RmFBareName | make.py:425 | on a bare file name the code as written removes nothing, and the corrected version removes it |
| Dirs.ApplyRemoval | make.py:343-347 | one removal either changes nothing or removes its path, and fails only when that path is protected; `rmdirIfEmpty` removes an existing empty unprotected directory and leaves anything else (a missing path, a file, a directory with contents) untouched |
| Dirs.ApplyRemovals | make.py:348-360 | the removals in order never create or alter an entry, and keep every path that no removal names |
| Dirs.FileRemovals | make.py:349-359 | one `rm_f` per installed file name, joined to its directory |
| Dirs.DirGroupOrder | make.py:349-351 | in each group the files come first and the `rmdirIfEmpty` of their directory comes last |
| Dirs.UninstallRemovesFiles | make.py:340-360 | after a finished uninstall none of the six installed files is left |
| Dirs.DirGroupEmpties | make.py:349-351 | a directory whose only contents are the files its group removes is gone once the group's `rm_f` calls and its `rmdirIfEmpty` have run |
| Dirs.UninstallRemovesEmptiedDirs | make.py:340-360 | after a finished uninstall, each of `include`, `lib\Win32`, `lib\x64` and `bin` that held only its installed files no longer exists |
| Dirs.UninstallKeepsRoots | make.py:340-360 | uninstall never removes the prefix or its `lib` directory |
| Dirs.UninstallPlanShape | make.py:340-360 | every removal lies strictly beneath the prefix and none names a `lib` directory |
| Dirs.RemovalsClearFiles | make.py:348-360 | after removals that finished, no file a `rm_f` named is left |
| Listing.ProductLines | make.py:214-217 | the kept lines are product lines that mention `dll-win` or `amalgam` |
| Listing.ProductLinesMembers | make.py:214-217 | a line is kept exactly when it is on the page and is such a product line |
| Listing.ProductLinesAppend | make.py:214-217 | the filter keeps page order |
| Listing.ParseDescriptor | make.py:219-220 | a line yields `(suburl, size, sha3sum)` from fields 2-4 exactly when it has at least five fields and an integer size; a bad size raises ValueError, too few fields IndexError |
| Listing.ParseLines | make.py:219-220 | all lines parse, one descriptor each in order, or the first failing line decides the error |
| Listing.FormatParses | make.py:219-220 | a download-page line built from a descriptor parses back to that descriptor |
| Listing.FormatKeptByFilter | make.py:214-217 | such a line for a DLL or amalgamation download passes the filter |
| Download.HexRoundTrip | make.py:231-233 | the hex text of a digest decodes back to the digest |
| Download.HexInjective | make.py:233 | different digests have different hex texts |
| Download.Verify | make.py:227-237 | a payload is accepted exactly when its size matches and its SHA3 hex equals the listed sum |
| Download.SizeCheckedFirst | make.py:227-230 | a wrong size is rejected as such, whatever the digest |
| Download.AcceptedDigest | make.py:231-237 | an accepted payload's digest is exactly the one the listed hex text encodes |
| Download.DownloadTarget | make.py:222-240 | an accepted payload is written to `build\<basename>`, and a rejected one writes nothing |
| Download.DownloadAll | make.py:243-244 | the loop over the targets computes `DownloadAllSpec` |
| Download.DownloadAllKeys | make.py:238-244 | a finished download adds exactly the targets' destination files |
| Download.DownloadAllKeepsOthers | make.py:238-244 | files that no target names are kept unchanged |
| Download.DownloadAllLastWins | make.py:238-244 | each destination holds the payload of the last target that names it |
| Download.DownloadAllStopsAtRejection | make.py:243-244 | a failed download is the first target to be rejected, and all targets before it were accepted |
| Download.Classify | make.py:247-256 | `dll-win32` unpacks into `build\Win32`, `dll-win64` into `build\x64` and `amalgam` into `build`, checked in that order |
| Download.ClassifyIsFirstMatch | make.py:247-256 | the classification is the first matching rule of the three |
| Download.PickAmalgamDir | make.py:257 | the chosen directory is the first entry that starts with `sqlite` and has no `dll-`; there is none exactly when no entry qualifies |
| Download.NobbleDefSplits | make.py:265-274 | the rewritten `.def` starts with the line `LIBRARY sqlite3-<arch>` and then holds the old contents unchanged |
| Download.NobbleDefArchDistinct | make.py:276-277 | the Win32 and x64 rewrites never coincide |
| Download.NobbleOneDefFile | make.py:265-274 | with `sqlite3.def` present it is replaced by its rewrite and the temporary file is gone; without it, only the header has been written to `new-sqlite3.def` |
| Orchestrator.WriteFile | make.py:311 | writing a file fails exactly on a protected path, a directory (PermissionError) or a missing directory (FileNotFoundError); otherwise the file is stamped now and no other entry changes |
| Orchestrator.MakeAllSpec | make.py:190-312 | `make_all` starts a build once; a run that goes on has recorded `all`; `all` and the step flag are set only after a build or an up-to-date check, and when the sentinel write then fails the run ends with them already set |
| Orchestrator.MakeAllSkipPath | make.py:193-195 | an up-to-date sentinel records `all` without performing a step |
| Orchestrator.MakeAllFullPath | make.py:307-312 | a finished build records `all` and sets the step flag; the run goes on exactly when `build\all.touch` can be written, which leaves it stamped now, and a protected sentinel ends the run with PermissionError |
| Orchestrator.InstallSpec | make.py:314-338 | `install` builds only when `all` is not yet done, and a finished install has `all` done and the step performed |
| Orchestrator.UninstallSpec | make.py:340-365 | `uninstall` finishes exactly when its removals do, leaving their result; a PermissionError exits with EACCES |
| Orchestrator.PackageSpec | make.py:367-377 | without makensis, `package` exits 1 and changes nothing; otherwise it builds only when `all` is not yet done |
| Orchestrator.PackageBuild | make.py:379-406 | the step flag is set only when the package step finishes, which needs makensis to return 0 and leave the installer, and leaves a fresh installer in `build` |
| Orchestrator.PackageFinalCopy | make.py:404-406 | after makensis returns 0, a missing installer raises FileNotFoundError; otherwise the run goes on exactly when the installer in `build` can be written, and a protected one raises PermissionError; neither failure sets the step flag |
| Orchestrator.PackageNeedsNsis | make.py:368-371 | a run that starts with `package` and no makensis exits 1 before anything happens |
| Orchestrator.RmTree | make.py:412 | `shutil.rmtree` fails exactly when some entry of the tree is protected; otherwise exactly the tree's entries go and nothing else changes |
| Orchestrator.DeleteOne | make.py:410-414 | a directory goes with its tree, and fails exactly when some entry of the tree is protected (`shutil.rmtree`'s PermissionError); anything else goes through `rm_f` as written, so it fails exactly when it is a protected file in an existing directory, and a bare file name or a file whose directory is missing stays; nothing is created |
| Orchestrator.DeleteThese | make.py:409-414 | the deletions create nothing; a run that is not stopped leaves none of the paths a directory; a PermissionError can stop it only when some entry is protected, and with nothing protected it always runs to the end |
| Orchestrator.CleanSpec | make.py:408-420 | `clean` always ends with an uncaught exception and never sets the step flag: KeyError with nothing deleted when makensis is not set; otherwise the deletions only remove entries and end in AttributeError, or earlier in PermissionError, which needs a protected entry |
| Orchestrator.ScrubSpec | make.py:422-428 | a finished `scrub` leaves neither `build` nor `__pycache__` and sets the step flag; `configvars.py` goes through `rm_f` as written; the run only ever removes entries |
| Orchestrator.ScrubClears | make.py:422-428 | with the corrected `rm_f`, a finished `scrub` leaves neither `build` nor `configvars.py` |
| Orchestrator.ScrubSpecCorrected | make.py:422-428 | `scrub` with the corrected `rm_f`: a finished run leaves neither `build` nor `__pycache__` and sets the step flag; the run only ever removes entries |
| Orchestrator.ScrubKeepsConfigvars | make.py:422-428 | with make.py's paths `scrub` always finishes and sets the step flag, and `configvars.py` stays exactly as it was, protected or not |
| Orchestrator.DispatchKeepsMemo | make.py:315-316 | every target keeps the memo invariant and starts the build at most once, and does not start it again once `all` is done unless the target is `all` itself |
| Orchestrator.BuildAtMostOnce | make.py:372-373 | over any run without an explicit `all`, the build starts at most once |
| Orchestrator.BuildAtMostOnceFromStart | make.py:446-450 | a fresh run of any request that does not name `all` builds at most once |
| Orchestrator.DispatchSetsStep | make.py:420-440 | every target except `all` and `package` sets the step flag when it finishes, and none clears it |
| Orchestrator.NothingToDoTargets | make.py:451-452 | "Nothing to do" is printed only when every target run was `all` or `package` |
| Orchestrator.HelpRunsAlone | make.py:430-440 | a request with `help` only sets the step flag |
| Orchestrator.UnknownTargetHalts | make.py:448-450 | an unknown name anywhere in the order ends the run |
| Orchestrator.HaltStays | make.py:446-450 | once the run has ended, the remaining targets change nothing |
| Orchestrator.Maker.constructor | make.py:165-175 | a fresh `Maker` has nothing done and no step performed |
| Orchestrator.Maker.MakeAll | make.py:190-312 | performs `make_all` step by step, sentinel write included, and reaches `MakeAllSpec` |
| Orchestrator.Maker.Install | make.py:314-338 | reaches `InstallSpec` |
| Orchestrator.Maker.Uninstall | make.py:340-365 | reaches `UninstallSpec` |
| Orchestrator.Maker.Package | make.py:367-377 | reaches `PackageSpec` |
| Orchestrator.Maker.BuildPackage | make.py:379-406 | performs the package build step by step, final installer copy included, and reaches `PackageBuild` |
| Orchestrator.Maker.Clean | make.py:408-420 | reaches `CleanSpec` |
| Orchestrator.Maker.Scrub | make.py:422-428 | reaches `ScrubSpec`, with `rm_f` as written |
| Orchestrator.Maker.Help | make.py:430-440 | only sets the step flag |
| Orchestrator.Maker.Step | make.py:442-450 | one target dispatches to the method of that name and leaves the state `Dispatch` gives; a name outside the target table ends the run with the failed assertion |
| Orchestrator.Maker.Process | make.py:446-452 | the loop runs the ordered targets to `RunSpec` and reports "Nothing to do" exactly when no step was performed and the run did not end early |
| Vcvars.DriveLetters | configure.py:47-53 | the loop from `a` to `z` collects the present drive letters |
| Vcvars.DrivesArePresentLetters | configure.py:47-53 | the letters are exactly the present ones from `a` to `z`, in increasing order |
| Vcvars.FindFilesByNameShape | configure.py:56-65 | a search that could not start raises TypeError; empty output or a lone "File Not Found" gives no paths; otherwise the stripped lines come back |
| Vcvars.FoundPathsReturned | configure.py:60-65 | paths listed one per line, ending in CR LF, come back unchanged |
| Vcvars.HitsAppend | configure.py:72-74 | the hits over several drives are the hits per drive, concatenated in drive order |
| Vcvars.HitsOneDrive | configure.py:73-74 | one drive contributes what its search found |
| Vcvars.Choose | configure.py:75-121 | a pair is chosen exactly when one file of each kind was found, and flagged when the two lie in different directories; otherwise the error message carries the two counts |
| Vcvars.CountsMessageParses | configure.py:97-121 | the counts can be read back from the error message |
| Vcvars.LocateVcvarsFiles | configure.py:68-121 | the search over all drives computes `LocateSpec` |
| Vcvars.SearchDrives | configure.py:72-74 | the loop over the drives runs to the end exactly when every search could start, and then has gathered the 32-bit and 64-bit hits of every drive, in drive order |
| Vcvars.SinglePairChosen | configure.py:75-83 | when the searches ran and found one file of each kind, those two are chosen |
| Vcvars.OtherCountsFail | configure.py:84-121 | any other counts fail, with the counts in the message |
| ToolCheck.FindLibVerdict | configure.py:130-139 | the check fails exactly when some stripped line contains `'lib' is not`; it is recognised exactly when no line says so and some line starts with the Library Manager banner |
| ToolCheck.FindLibOnLines | configure.py:130 | the session output is read as its lines, split on newlines and stripped |
| ToolCheck.FindMakeNsis | configure.py:142-169 | it raises IndexError exactly when the first output line strips to nothing; a usable verdict returns the given location |
| ToolCheck.VersionVerdict | configure.py:152-169 | the same on the stripped first line |
| ToolCheck.NsisRejections | configure.py:144-165 | no output, a first line not starting with `v`, or a major version that is not an integer all make makensis unusable |
| ToolCheck.NsisVersionAccepted | configure.py:152-169 | a version line `v<major>.<minor>` makes the location usable, flagged exactly when the major version is below 3 |
| Configure.RewriteArgv | configure.py:255-262 | an empty `argv` fails; a lone program name gets `--help`; an option first is left alone; otherwise the first argument becomes `called_by` and removing it is undone by putting it back |
| Configure.MakeCmdRoundTrip | configure.py:251-252 | `make.cmd` reads back as the launcher it was written for |
| Configure.AssignmentParses | configure.py:237-241 | a written `KEY = value` line parses back into its key and value |
| Configure.RenderParses | configure.py:236-241 | the written lines parse back into the keys and values, in order |
| Configure.ConfigvarsRoundTrip | configure.py:235-241 | `configvars.py` reads back as PREFIX, VCVARS_32, VCVARS_64, SQLITE_DL_PAGE and MAKE_NSIS with the values written |
| Configure.PairVcvars | configure.py:211-228 | both flags pass exactly when both files exist; only one flag is an error; neither flag takes the located pair |
| Configure.PairVcvarsAsWritten | configure.py:221-226 | as written, a lone `--vcvars-64` reports "(have vcvars32)" |
| Configure.LoneFlagMessagesAgreeAsWritten | configure.py:221-226 | as written, both lone-flag errors are the same |
| Configure.LoneFlagMessagesNameTheFlag | configure.py:221-226 | corrected, each lone-flag error names the flag that was given, so the two differ |
| Configure.ExplicitPairIgnoresSearch | configure.py:211-220 | explicit flags never depend on the search, and a missing file names which one is missing |
| Configure.Main | configure.py:204-252 | files are written only after the prefix and the vcvars pair have passed, and `make.cmd` names the launcher; a lone `--vcvars-64` fails with the message that names vcvars32, as configure.py:225-226 writes it |
| Configure.MainRecords | configure.py:229-252 | a finished configure writes `configvars.py` holding the prefix, the pair, the page and makensis when it is usable, and a `make.cmd` that reads back as the launcher |
| Configure.LibFailureWritesNothing | configure.py:229-236 | when `lib` does not run after either batch file, nothing is written |
| Text.StripCharacterized | configure.py:60 | stripping removes exactly the surrounding whitespace |
| Text.StripIdempotent | configure.py:130 | stripping twice is stripping once |
| Text.Split | make.py:219 | the fields contain no separator and join back to the line |
| Text.SplitJoin | make.py:219 | fields without the separator, joined, split back into the same fields |
| Text.IntToStringRoundTrip | make.py:220 | `int` reads back every integer's decimal text |
| WinPath.JoinSplits | make.py:134-138 | joining a plain name to a directory gives a path whose dirname is the directory and whose basename is the name |
| WinPath.PlainNameHasNoDir | make.py:127 | a bare file name has an empty dirname |
| WinPath.SplitPathRebuilds | configure.py:76 | dirname, separators and basename rebuild the path |

## Left out

- The network: the download page and payloads are inputs, the fixed URL is not modelled, and the configured `SQLITE_DL_PAGE` is only written, since `make.py` never reads it (make.py:211).
- The SHA3-256 computation: the digest is a function parameter.
- Zip extraction, the `shutil.copy2` calls, the DLL renames and the `lib` call that turns the `.def` files into `.lib` files. These are the `build`, `installCopy` and `packageCopy` parameters. The clean-up at the start of `make_all` (make.py:197-208) is part of `build` too.
- The `lib` command template never fills in `/MACHINE:{}` (make.py:290). A missing "Creating library" message only prints (make.py:297-301). Neither affects a state the model tracks.
- The mismatch messages use `dt.size` and `dt.sha3sum` on a dict (make.py:229, 236), so a mismatch raises AttributeError instead of the intended message. The model only records which check rejected the payload.
- Subprocesses are given by their output: the `cmd.exe` sessions, `dir /s /b`, `makensis /VERSION`, the makensis build, the `git submodule` call and the 15-second timeouts. A timeout is not modelled.
- `Proc`'s `cwd` and `env` arguments and the stdin pipe.
- The `rmdir /s /q` runs of `scrub` and of `make_all` are modelled as removing the tree. Their own failures, which the scripts ignore, are not.
- Partial effects of a failing call: when a copy, the `build` phase or a makensis run fails, the file system is kept as it was before that call, and when `DownloadAllSpec` stops with an error it returns no store, so the files fetched before the failure are dropped. The source may leave such partial files behind.
- The last `shutil.copy2` of `package` (make.py:405) is modelled by its destination only: `installerMade` says whether makensis left the installer, and a refusal to read it is not modelled. When `build` is not a directory, `copy2` would write a file named `build`; the model raises FileNotFoundError there.
- `rmdirIfEmpty` is modelled, but an `os.rmdir` failure other than a denial is not.
- Orchestrator.DeleteThese: states that nothing is created, that a run that is not stopped leaves none of the paths a directory, and that a stop needs a protected entry. It does not say which path stopped the run.
- Orchestrator.RmTree: when an entry of the tree is protected, the model leaves the whole tree in place. `shutil.rmtree` removes entries in the order `os.scandir` lists them until the refused one, and that order is not modelled.
- Text.ParseInt: accepts only the ASCII digits `0`-`9`, with single underscores between digits, an optional sign and surrounding whitespace. Python's `int()` also accepts other Unicode decimal digits, such as fullwidth `１２`. On such a size field the model raises ValueError where make.py:220 would get a number, so the `Listing.ParseDescriptor` row holds only for ASCII sizes.
- Path handling covers drive letters and both separators. UNC paths, case-insensitive comparison and `realpath` are left out. The prefix check takes "the prefix is a directory after `mkdir`" as an input.
- Python's `repr` is a parameter. Only newline-free results are read back.
- `argparse`, the verbose flag, all printing, warnings and help text.
- Text-mode newline translation: files are read as written.
- Integer sizes are unbounded. Python's `int` is unbounded too.

## Findings

| source | as written | input that shows it | evidently intended | confidence | as-written member | corrected member |
|---|---|---|---|---|---|---|
| make.py:126-128 | `rm_f` removes a file only when `isdir(dirname(path))`. For a bare name the dirname is `''`, which is not a directory, so `rm_f('configvars.py')` in `scrub` (make.py:425) never removes it | a run of `scrub` with `configvars.py` present in the current directory | remove the file when it exists in its directory, the current one included | high, not executed | Dirs.RmFBareName | Dirs.RmF |
| configure.py:224-226 | a lone `--vcvars-64` raises "Either specify neither, or both vcvars files. (have vcvars32)", the same message as a lone `--vcvars-32` | `configure.py --vcvars-64 C:\vc\vcvars64.bat` | "(have vcvars64)" | high, not executed | Configure.LoneFlagMessagesAgreeAsWritten | Configure.LoneFlagMessagesNameTheFlag |
