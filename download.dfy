/** The download half of `make_all`: each descriptor's archive is fetched,
    checked (size first, then the SHA3-256 digest of FIPS 202, section 6.1,
    as lowercase hex) and written under `build`; then each archive is sent
    to the directory its name selects, the amalgamation directory is found,
    and the `.def` files get their `LIBRARY` line. The network is a
    function from sub-URL to payload and the digest an uninterpreted
    function from bytes to bytes. */
module Download {
  import opened Wrappers
  import opened Text
  import opened WinPath
  import opened Listing

  newtype byte = x: int | 0 <= x < 256

  type Bytes = seq<byte>

  /** File contents by path. */
  type Store = map<Path, Bytes>

  // ---- lowercase hex, as `bytes.hex()` ----

  function HexDigit(n: int): (c: char)
    requires 0 <= n < 16
    ensures HexValue(c) == Some(n)
  {
    if n < 10 then ('0' as int + n) as char else ('a' as int + n - 10) as char
  }

  function HexValue(c: char): (r: Option<int>)
    ensures r.Some? ==> 0 <= r.value < 16
  {
    if '0' <= c <= '9' then Some(c as int - '0' as int)
    else if 'a' <= c <= 'f' then Some(c as int - 'a' as int + 10)
    else None
  }

  /** `digest.hex()`: two lowercase hex digits per byte, high nibble first. */
  function Hex(d: Bytes): (s: string)
    ensures |s| == 2 * |d|
  {
    if d == [] then []
    else [HexDigit(d[0] as int / 16), HexDigit(d[0] as int % 16)] + Hex(d[1..])
  }

  /** The reverse reading of a hex string: `bytes.fromhex` restricted to
      lowercase digits without spaces. */
  function Unhex(s: string): Option<Bytes>
    decreases |s|
  {
    if s == [] then Some([])
    else if |s| == 1 then None
    else match (HexValue(s[0]), HexValue(s[1]), Unhex(s[2..]))
      case (Some(hi), Some(lo), Some(rest)) => Some([(hi * 16 + lo) as byte] + rest)
      case _ => None
  }

  /** Reading the hex back gives the digest: equal hex means equal digest. */
  lemma {:induction false} HexRoundTrip(d: Bytes)
    ensures Unhex(Hex(d)) == Some(d)
  {
    if d != [] {
      var s := Hex(d);
      assert s[2..] == Hex(d[1..]);
      HexRoundTrip(d[1..]);
      assert [d[0]] + d[1..] == d;
    }
  }

  lemma HexInjective(a: Bytes, b: Bytes)
    requires Hex(a) == Hex(b)
    ensures a == b
  {
    HexRoundTrip(a);
    HexRoundTrip(b);
  }

  // ---- checking and storing one download ----

  /** Why a payload is refused. (The source's messages would themselves
      fail on `dt.size` / `dt.sha3sum`; either way the download is
      rejected with an exception.) */
  datatype Rejection = WrongSize | WrongHash

  /** The checks of `downloadTarget`: the length against `size`, and only
      then the hex digest against `sha3sum`. */
  function Verify(d: Descriptor, payload: Bytes, hash: Bytes -> Bytes): (r: Option<Rejection>)
    ensures r.None? <==> |payload| == d.size && Hex(hash(payload)) == d.sha3sum
  {
    if |payload| != d.size then Some(WrongSize)
    else if Hex(hash(payload)) != d.sha3sum then Some(WrongHash)
    else None
  }

  /** A payload of the wrong size is rejected whatever the digest function:
      no hash is consulted. */
  lemma SizeCheckedFirst(d: Descriptor, payload: Bytes, h1: Bytes -> Bytes, h2: Bytes -> Bytes)
    requires |payload| != d.size
    ensures Verify(d, payload, h1) == Verify(d, payload, h2) == Some(WrongSize)
  {
  }

  /** An accepted payload's digest is exactly the one the checksum spells. */
  lemma AcceptedDigest(d: Descriptor, payload: Bytes, hash: Bytes -> Bytes)
    requires Verify(d, payload, hash).None?
    ensures Unhex(d.sha3sum) == Some(hash(payload))
  {
    HexRoundTrip(hash(payload));
  }

  /** `build\<basename(suburl)>`, where an accepted payload is written. */
  function DestFile(d: Descriptor): Path {
    WinPath.Join("build", Basename(d.suburl))
  }

  /** `downloadTarget(dt)` with the payload the server returns. */
  function DownloadTarget(store: Store, d: Descriptor, payload: Bytes, hash: Bytes -> Bytes): (r: Result<Store, Rejection>)
    ensures r.Ok? <==> Verify(d, payload, hash).None?
    ensures r.Ok? ==> r.value == store[DestFile(d) := payload]
    ensures r.Err? ==> r.error == Verify(d, payload, hash).value
  {
    match Verify(d, payload, hash)
    case Some(why) => Err(why)
    case None => Ok(store[DestFile(d) := payload])
  }

  /** The downloads in order; the first rejection ends them. */
  function DownloadAllSpec(store: Store, ds: seq<Descriptor>, fetch: string -> Bytes, hash: Bytes -> Bytes): (r: Result<Store, Rejection>)
    decreases |ds|
  {
    if ds == [] then Ok(store)
    else match DownloadTarget(store, ds[0], fetch(ds[0].suburl), hash)
      case Err(why) => Err(why)
      case Ok(store') => DownloadAllSpec(store', ds[1..], fetch, hash)
  }

  /** `for t in targets: downloadTarget(t)`. */
  method DownloadAll(store: Store, ds: seq<Descriptor>, fetch: string -> Bytes, hash: Bytes -> Bytes)
    returns (r: Result<Store, Rejection>)
    ensures r == DownloadAllSpec(store, ds, fetch, hash)
  {
    var cur := store;
    var i := 0;
    while i < |ds|
      invariant 0 <= i <= |ds|
      invariant DownloadAllSpec(store, ds, fetch, hash) == DownloadAllSpec(cur, ds[i..], fetch, hash)
    {
      assert ds[i..][1..] == ds[i + 1..];
      var step := DownloadTarget(cur, ds[i], fetch(ds[i].suburl), hash);
      if step.Err? {
        return Err(step.error);
      }
      cur := step.value;
      i := i + 1;
    }
    return Ok(cur);
  }

  /** The destination files of a run of descriptors. */
  function Dests(ds: seq<Descriptor>): (r: set<Path>)
    ensures forall k :: 0 <= k < |ds| ==> DestFile(ds[k]) in r
  {
    if ds == [] then {} else {DestFile(ds[0])} + Dests(ds[1..])
  }

  /** When every download is accepted, the store gains exactly the
      destination files. */
  lemma {:induction false} DownloadAllKeys(store: Store, ds: seq<Descriptor>, fetch: string -> Bytes, hash: Bytes -> Bytes)
    requires DownloadAllSpec(store, ds, fetch, hash).Ok?
    ensures DownloadAllSpec(store, ds, fetch, hash).value.Keys == store.Keys + Dests(ds)
    decreases |ds|
  {
    if ds != [] {
      DownloadAllKeys(store[DestFile(ds[0]) := fetch(ds[0].suburl)], ds[1..], fetch, hash);
    }
  }

  /** Files no descriptor names are left as they were. */
  lemma {:induction false} DownloadAllKeepsOthers(store: Store, ds: seq<Descriptor>, fetch: string -> Bytes, hash: Bytes -> Bytes, p: Path)
    requires DownloadAllSpec(store, ds, fetch, hash).Ok?
    requires p in store && p !in Dests(ds)
    ensures p in DownloadAllSpec(store, ds, fetch, hash).value
    ensures DownloadAllSpec(store, ds, fetch, hash).value[p] == store[p]
    decreases |ds|
  {
    if ds != [] {
      DownloadAllKeepsOthers(store[DestFile(ds[0]) := fetch(ds[0].suburl)], ds[1..], fetch, hash, p);
    }
  }

  /** A destination holds the payload of the last descriptor naming it. */
  lemma {:induction false} DownloadAllLastWins(store: Store, ds: seq<Descriptor>, fetch: string -> Bytes, hash: Bytes -> Bytes, k: nat)
    requires DownloadAllSpec(store, ds, fetch, hash).Ok?
    requires k < |ds| && DestFile(ds[k]) !in Dests(ds[k + 1..])
    ensures DestFile(ds[k]) in DownloadAllSpec(store, ds, fetch, hash).value
    ensures DownloadAllSpec(store, ds, fetch, hash).value[DestFile(ds[k])] == fetch(ds[k].suburl)
    decreases |ds|
  {
    var next := store[DestFile(ds[0]) := fetch(ds[0].suburl)];
    if k == 0 {
      assert ds[1..] == ds[k + 1..];
      DownloadAllKeepsOthers(next, ds[1..], fetch, hash, DestFile(ds[0]));
    } else {
      assert ds[1..][k - 1 + 1..] == ds[k + 1..];
      DownloadAllLastWins(next, ds[1..], fetch, hash, k - 1);
    }
  }

  /** A rejection stops at the first descriptor whose payload fails, after
      the ones before it were all stored. */
  lemma {:induction false} DownloadAllStopsAtRejection(store: Store, ds: seq<Descriptor>, fetch: string -> Bytes, hash: Bytes -> Bytes)
    requires DownloadAllSpec(store, ds, fetch, hash).Err?
    ensures exists k :: (0 <= k < |ds|
      && Verify(ds[k], fetch(ds[k].suburl), hash) == Some(DownloadAllSpec(store, ds, fetch, hash).error)
      && forall j :: 0 <= j < k ==> Verify(ds[j], fetch(ds[j].suburl), hash).None?)
    decreases |ds|
  {
    if Verify(ds[0], fetch(ds[0].suburl), hash).None? {
      var next := store[DestFile(ds[0]) := fetch(ds[0].suburl)];
      DownloadAllStopsAtRejection(next, ds[1..], fetch, hash);
      var k :| (0 <= k < |ds[1..]|
        && Verify(ds[1..][k], fetch(ds[1..][k].suburl), hash) == Some(DownloadAllSpec(next, ds[1..], fetch, hash).error)
        && forall j :: 0 <= j < k ==> Verify(ds[1..][j], fetch(ds[1..][j].suburl), hash).None?);
      assert forall j :: 0 < j <= k ==> ds[j] == ds[1..][j - 1];
      assert ds[k + 1] == ds[1..][k];
    }
  }

  // ---- where each archive is unpacked ----

  /** The three extraction directories of `make_all`. */
  datatype Unpack = ToWin32 | ToX64 | ToBuild

  function UnpackDir(u: Unpack): Path {
    match u
    case ToWin32 => WinPath.Join("build", "Win32")
    case ToX64 => WinPath.Join("build", "x64")
    case ToBuild => "build"
  }

  /** The `if`/`elif` chain on the archive name: `dll-win32`, then
      `dll-win64`, then `amalgam`; any other archive is not unpacked. */
  function Classify(fname: string): (r: Option<Unpack>)
    ensures r == Some(ToWin32) <==> Contains(fname, "dll-win32")
    ensures r == Some(ToX64) <==> !Contains(fname, "dll-win32") && Contains(fname, "dll-win64")
    ensures r == Some(ToBuild) <==> !Contains(fname, "dll-win32") && !Contains(fname, "dll-win64") && Contains(fname, "amalgam")
  {
    if Contains(fname, "dll-win32") then Some(ToWin32)
    else if Contains(fname, "dll-win64") then Some(ToX64)
    else if Contains(fname, "amalgam") then Some(ToBuild)
    else None
  }

  /** The same rule as a table searched from the top. */
  const Rules: seq<(string, Unpack)> := [("dll-win32", ToWin32), ("dll-win64", ToX64), ("amalgam", ToBuild)]

  function FirstMatch(rules: seq<(string, Unpack)>, fname: string): (r: Option<Unpack>)
    ensures r.Some? ==> exists i :: 0 <= i < |rules| && rules[i].1 == r.value && Contains(fname, rules[i].0)
    ensures r.None? ==> forall i :: 0 <= i < |rules| ==> !Contains(fname, rules[i].0)
  {
    if rules == [] then None
    else if Contains(fname, rules[0].0) then Some(rules[0].1)
    else
      var r := FirstMatch(rules[1..], fname);
      assert forall i :: 1 <= i < |rules| ==> rules[i] == rules[1..][i - 1];
      r
  }

  lemma ClassifyIsFirstMatch(fname: string)
    ensures Classify(fname) == FirstMatch(Rules, fname)
  {
    var r1 := Rules[1..];
    var r2 := r1[1..];
    assert r2[1..] == [];
    assert FirstMatch(r2, fname) == if Contains(fname, "amalgam") then Some(ToBuild) else None;
    assert FirstMatch(r1, fname) == if Contains(fname, "dll-win64") then Some(ToX64) else FirstMatch(r2, fname);
  }

  /** `[name for name in listing if name.startswith('sqlite') and not
      'dll-' in name][0]`: `None` stands for the IndexError when there is
      none. */
  predicate IsAmalgamDir(name: string) {
    StartsWith(name, "sqlite") && !Contains(name, "dll-")
  }

  function PickAmalgamDir(listing: seq<string>): (r: Option<string>)
    ensures r.Some? ==> exists i :: (0 <= i < |listing| && listing[i] == r.value && IsAmalgamDir(r.value)
      && forall j :: 0 <= j < i ==> !IsAmalgamDir(listing[j]))
    ensures r.None? <==> forall i :: 0 <= i < |listing| ==> !IsAmalgamDir(listing[i])
  {
    if listing == [] then None
    else if IsAmalgamDir(listing[0]) then Some(listing[0])
    else
      var r := PickAmalgamDir(listing[1..]);
      PickShift(listing, r);
      r
  }

  lemma PickShift(listing: seq<string>, r: Option<string>)
    requires listing != [] && !IsAmalgamDir(listing[0])
    requires r.Some? ==> exists i :: (0 <= i < |listing[1..]| && listing[1..][i] == r.value && IsAmalgamDir(r.value)
      && forall j :: 0 <= j < i ==> !IsAmalgamDir(listing[1..][j]))
    requires r.None? <==> forall i :: 0 <= i < |listing[1..]| ==> !IsAmalgamDir(listing[1..][i])
    ensures r.Some? ==> exists i :: (0 <= i < |listing| && listing[i] == r.value && IsAmalgamDir(r.value)
      && forall j :: 0 <= j < i ==> !IsAmalgamDir(listing[j]))
    ensures r.None? <==> forall i :: 0 <= i < |listing| ==> !IsAmalgamDir(listing[i])
  {
    assert forall i :: 1 <= i < |listing| ==> listing[i] == listing[1..][i - 1];
    if r.Some? {
      var i :| (0 <= i < |listing[1..]| && listing[1..][i] == r.value && IsAmalgamDir(r.value)
        && forall j :: 0 <= j < i ==> !IsAmalgamDir(listing[1..][j]));
      assert listing[i + 1] == r.value;
    }
  }

  // ---- the `.def` rewrite ----

  /** `LIBRARY sqlite3-<arch>` and the newline `print` ends it with. */
  function LibraryLine(arch: string): string {
    "LIBRARY sqlite3-" + arch
  }

  /** The rewritten `.def` text: the `LIBRARY` line, then the original text
      unchanged. */
  function NobbleDef(arch: string, content: string): string {
    LibraryLine(arch) + "\n" + content
  }

  /** Everything after the first line. */
  function AfterFirstLine(text: string): string
    requires '\n' in text
  {
    text[IndexOf(text, '\n') + 1..]
  }

  /** The first line of the rewritten text is the `LIBRARY` line and the
      rest is the original content. */
  lemma NobbleDefSplits(arch: string, content: string)
    requires '\n' !in arch
    ensures Split(NobbleDef(arch, content), '\n')[0] == LibraryLine(arch)
    ensures AfterFirstLine(NobbleDef(arch, content)) == content
  {
    var text := NobbleDef(arch, content);
    var line := LibraryLine(arch);
    assert '\n' !in line by {
      assert forall i :: 0 <= i < |line| ==> (i < 16 ==> line[i] == "LIBRARY sqlite3-"[i]) && (i >= 16 ==> line[i] == arch[i - 16]);
    }
    assert text[|line|] == '\n';
    assert text[..|line|] == line;
    assert IndexOf(text, '\n') == |line|;
    assert text[|line| + 1..] == content;
  }

  /** The two architectures give different files for any contents. */
  lemma NobbleDefArchDistinct(c1: string, c2: string)
    ensures NobbleDef("Win32", c1) != NobbleDef("x64", c2)
  {
    assert NobbleDef("Win32", c1)[16] == 'W';
    assert NobbleDef("x64", c2)[16] == 'x';
  }

  /** `nobbleOneDefFile(dir, arch)` on the files of `dir`: the output file
      is opened first, so a missing `sqlite3.def` (FileNotFoundError, `None`
      here) leaves `new-sqlite3.def` holding just the `LIBRARY` line.
      Otherwise `sqlite3.def` ends up with the rewritten text and
      `new-sqlite3.def` is gone. Text files are modelled as their
      characters. */
  function NobbleOneDefFile(files: map<Path, string>, dir: Path, arch: string): (r: Result<map<Path, string>, map<Path, string>>)
    ensures var inF := WinPath.Join(dir, "sqlite3.def");
      var outF := WinPath.Join(dir, "new-sqlite3.def");
      && (r.Ok? <==> inF in files)
      && (r.Ok? && inF != outF ==> r.value == (files - {outF})[inF := NobbleDef(arch, files[inF])])
      && (r.Err? ==> r.error == files[outF := LibraryLine(arch) + "\n"])
  {
    var inF := WinPath.Join(dir, "sqlite3.def");
    var outF := WinPath.Join(dir, "new-sqlite3.def");
    var created := files[outF := LibraryLine(arch) + "\n"];
    if inF !in files then Err(created)
    else
      var written := created[outF := NobbleDef(arch, files[inF])];
      var unlinked := written - {inF};
      Ok((unlinked - {outF})[inF := written[outF]])
  }
}
