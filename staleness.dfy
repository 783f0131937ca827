/** `source_is_newer` in make.py: is a target's sentinel file older than the
    files it depends on? */
module Staleness {
  import opened Wrappers
  import opened WinPath
  import opened FileSystem

  /** The fixed inputs every check scans first, in this order:
      `configvars.py` and `os.path.join('NSIS', 'sqlite_packager.nsi')`. */
  const Baseline: seq<Path> := ["configvars.py", "NSIS\\sqlite_packager.nsi"]

  /** Every one of the first `k` inputs exists and is not newer than `stamp`. */
  predicate ScannedOlder(fs: Fs, ps: seq<Path>, k: int, stamp: int)
    requires 0 <= k <= |ps|
  {
    forall j :: 0 <= j < k ==> ps[j] in fs.entries && fs.entries[ps[j]].mtime <= stamp
  }

  /** The scan reaches input `k` and finds it newer. */
  predicate NewerAt(fs: Fs, ps: seq<Path>, k: int, stamp: int) {
    0 <= k < |ps| && ScannedOlder(fs, ps, k, stamp) && ps[k] in fs.entries && fs.entries[ps[k]].mtime > stamp
  }

  /** The scan reaches input `k` and `os.path.getmtime` raises on it. */
  predicate MissingAt(fs: Fs, ps: seq<Path>, k: int, stamp: int) {
    0 <= k < |ps| && ScannedOlder(fs, ps, k, stamp) && ps[k] !in fs.entries
  }

  /** `any(newer(p) for p in ps)`: a short-circuiting scan in order. `Err(p)`
      is the FileNotFoundError `getmtime` raises for a missing `p` met before
      any newer input. */
  function AnyNewer(fs: Fs, ps: seq<Path>, stamp: int): (r: Result<bool, Path>)
    ensures r == Ok(true) <==> exists k :: NewerAt(fs, ps, k, stamp)
    ensures r == Ok(false) <==> ScannedOlder(fs, ps, |ps|, stamp)
    ensures r.Err? ==> exists k :: MissingAt(fs, ps, k, stamp) && r.error == ps[k]
  {
    if ps == [] then Ok(false)
    else if ps[0] !in fs.entries then
      assert MissingAt(fs, ps, 0, stamp);
      assert !ScannedOlder(fs, ps, |ps|, stamp);
      Err(ps[0])
    else if fs.entries[ps[0]].mtime > stamp then
      assert NewerAt(fs, ps, 0, stamp);
      assert !ScannedOlder(fs, ps, |ps|, stamp);
      Ok(true)
    else
      var r := AnyNewer(fs, ps[1..], stamp);
      ShiftScan(fs, ps, stamp);
      r
  }

  lemma ShiftScan(fs: Fs, ps: seq<Path>, stamp: int)
    requires ps != [] && ps[0] in fs.entries && fs.entries[ps[0]].mtime <= stamp
    ensures forall k :: NewerAt(fs, ps, k + 1, stamp) <==> NewerAt(fs, ps[1..], k, stamp)
    ensures forall k :: MissingAt(fs, ps, k + 1, stamp) <==> MissingAt(fs, ps[1..], k, stamp)
    ensures !NewerAt(fs, ps, 0, stamp) && !MissingAt(fs, ps, 0, stamp)
    ensures (exists k :: NewerAt(fs, ps, k, stamp)) <==> (exists k :: NewerAt(fs, ps[1..], k, stamp))
    ensures ScannedOlder(fs, ps, |ps|, stamp) <==> ScannedOlder(fs, ps[1..], |ps| - 1, stamp)
  {
    forall k: nat | k < |ps| - 1
      ensures ScannedOlder(fs, ps, k + 1, stamp) <==> ScannedOlder(fs, ps[1..], k, stamp)
    {
      assert forall j :: 0 < j < k + 1 ==> ps[j] == ps[1..][j - 1];
    }
    assert ScannedOlder(fs, ps, |ps|, stamp) <==> ScannedOlder(fs, ps[1..], |ps| - 1, stamp) by {
      assert forall j :: 0 < j < |ps| ==> ps[j] == ps[1..][j - 1];
    }
    if exists k :: NewerAt(fs, ps, k, stamp) {
      var k :| NewerAt(fs, ps, k, stamp);
      assert NewerAt(fs, ps[1..], k - 1, stamp);
    }
  }

  /** `source_is_newer(than, other)`: a sentinel that is not a file is stale;
      otherwise the baseline inputs, then the extra ones, are scanned for one
      modified strictly after the sentinel. */
  function SourceIsNewer(fs: Fs, than: Path, other: Option<seq<Path>>): (r: Result<bool, Path>)
    ensures !IsFile(fs, than) ==> r == Ok(true)
    ensures IsFile(fs, than) ==>
      (r == Ok(true) <==> exists k :: NewerAt(fs, Inputs(other), k, fs.entries[than].mtime))
  {
    if !IsFile(fs, than) then Ok(true)
    else AnyNewer(fs, Inputs(other), fs.entries[than].mtime)
  }

  function Inputs(other: Option<seq<Path>>): seq<Path> {
    Baseline + other.GetOr([])
  }

  /** A sentinel no older than every input (equal times included) means the
      target is up to date. */
  lemma UpToDateWhenNoInputNewer(fs: Fs, than: Path, other: Option<seq<Path>>)
    requires IsFile(fs, than)
    requires forall p :: p in Inputs(other) ==> p in fs.entries && fs.entries[p].mtime <= fs.entries[than].mtime
    ensures SourceIsNewer(fs, than, other) == Ok(false)
  {
    var ps := Inputs(other);
    assert ScannedOlder(fs, ps, |ps|, fs.entries[than].mtime) by {
      forall j | 0 <= j < |ps| ensures ps[j] in fs.entries && fs.entries[ps[j]].mtime <= fs.entries[than].mtime {
        assert ps[j] in ps;
      }
    }
  }

  /** When every input exists, one of them modified after the sentinel makes
      the target stale. */
  lemma {:induction false} StaleWhenSomeInputNewer(fs: Fs, than: Path, other: Option<seq<Path>>, q: Path)
    requires IsFile(fs, than)
    requires forall p :: p in Inputs(other) ==> p in fs.entries
    requires q in Inputs(other) && fs.entries[q].mtime > fs.entries[than].mtime
    ensures SourceIsNewer(fs, than, other) == Ok(true)
  {
    var ps := Inputs(other);
    var stamp := fs.entries[than].mtime;
    var i :| 0 <= i < |ps| && ps[i] == q;
    var k := 0;
    while k < i && fs.entries[ps[k]].mtime <= stamp
      invariant 0 <= k <= i
      invariant ScannedOlder(fs, ps, k, stamp)
    {
      assert ps[k] in ps;
      k := k + 1;
    }
    assert ps[k] in ps;
    assert NewerAt(fs, ps, k, stamp);
  }

  /** Extra inputs can only make a target stale, never fresh again. */
  lemma {:induction false} ExtraInputsKeepStale(fs: Fs, than: Path, extra: seq<Path>)
    requires SourceIsNewer(fs, than, None) == Ok(true)
    ensures SourceIsNewer(fs, than, Some(extra)) == Ok(true)
  {
    if IsFile(fs, than) {
      var stamp := fs.entries[than].mtime;
      var k :| NewerAt(fs, Inputs(None), k, stamp);
      assert Inputs(None) == Baseline;
      var ps := Inputs(Some(extra));
      assert ps[..|Baseline|] == Baseline;
      assert NewerAt(fs, ps, k, stamp);
    }
  }
}
