/** `drive_letters`, `find_files_by_name` and `locate_vcvars_files` in
    configure.py: every drive is searched for `vcvars32.*` and
    `vcvars64.*`, and a pair is chosen only when exactly one of each was
    found. Which drives exist and what `dir /s /b` prints on each are
    inputs. */
module Vcvars {
  import opened Wrappers
  import opened Text
  import WinPath

  // ---- drives ----

  /** The letters from code point `k` to `z` whose drive exists, in
      alphabetical order. */
  function DrivesFrom(present: set<char>, k: int): seq<char>
    requires 'a' as int <= k <= 'z' as int + 1
    decreases 'z' as int + 1 - k
  {
    if k == 'z' as int + 1 then []
    else (if k as char in present then [k as char] else []) + DrivesFrom(present, k + 1)
  }

  lemma {:induction false} DrivesFromShape(present: set<char>, k: int)
    requires 'a' as int <= k <= 'z' as int + 1
    ensures forall c :: c in DrivesFrom(present, k) <==> k <= c as int <= 'z' as int && c in present
    ensures forall i, j :: 0 <= i < j < |DrivesFrom(present, k)| ==> DrivesFrom(present, k)[i] < DrivesFrom(present, k)[j]
    decreases 'z' as int + 1 - k
  {
    if k <= 'z' as int {
      var rest := DrivesFrom(present, k + 1);
      DrivesFromShape(present, k + 1);
      forall j | 0 <= j < |rest|
        ensures k < rest[j] as int
      {
        assert rest[j] in rest;
      }
    }
  }

  /** The drive letters `drive_letters` reports. */
  function Drives(present: set<char>): seq<char> {
    DrivesFrom(present, 'a' as int)
  }

  /** They are the letters `a` to `z` whose drive exists, alphabetical,
      each once. */
  lemma DrivesArePresentLetters(present: set<char>)
    ensures forall c :: c in Drives(present) <==> 'a' <= c <= 'z' && c in present
    ensures forall i, j :: 0 <= i < j < |Drives(present)| ==> Drives(present)[i] < Drives(present)[j]
  {
    DrivesFromShape(present, 'a' as int);
  }

  /** `drive_letters`: the probe loop over `a`..`z`, appending the letters
      whose drive exists. */
  method DriveLetters(present: set<char>) returns (letters: seq<char>)
    ensures letters == Drives(present)
  {
    letters := [];
    for ch := 'a' as int to 'z' as int + 1
      invariant letters + DrivesFrom(present, ch) == Drives(present)
    {
      var c := ch as char;
      DrivesFromStep(present, ch);
      if c in present {
        letters := letters + [c];
      }
    }
  }

  /** One letter of the probe: it is reported when its drive exists. */
  lemma DrivesFromStep(present: set<char>, k: int)
    requires 'a' as int <= k <= 'z' as int
    ensures k as char in present ==> DrivesFrom(present, k) == [k as char] + DrivesFrom(present, k + 1)
    ensures k as char !in present ==> DrivesFrom(present, k) == DrivesFrom(present, k + 1)
  {
  }

  // ---- one search ----

  /** `run_it` returns None when `cmd.exe` cannot be started; iterating
      over None is a TypeError, which `find_files_by_name` does not catch. */
  datatype SearchError = TypeError

  /** `find_files_by_name` given what `dir /s /b` printed. */
  function FindFilesByName(output: Option<seq<string>>): Result<seq<string>, SearchError> {
    match output
    case None => Err(TypeError)
    case Some(raw) =>
      var lines := StripAll(raw);
      if |lines| < 1 then Ok([])
      else if |lines| == 1 && lines[0] == "File Not Found" then Ok([])
      else Ok(lines)
  }

  /** It fails only on a missing `cmd.exe`; it finds nothing on empty
      output or the lone `File Not Found`, and otherwise returns every
      line stripped. */
  lemma FindFilesByNameShape(output: Option<seq<string>>)
    ensures FindFilesByName(output).Err? <==> output.None?
    ensures output.Some? ==> (FindFilesByName(output).value == [] <==> output.value == [] || (|output.value| == 1 && Strip(output.value[0]) == "File Not Found"))
    ensures output.Some? && FindFilesByName(output).value != [] ==>
      FindFilesByName(output).value == StripAll(output.value)
  {
    if output.Some? {
      StripAllShape(output.value);
    }
  }

  /** A path without surrounding white space. */
  predicate Trimmed(p: string) {
    p != [] && !IsSpace(p[0]) && !IsSpace(p[|p| - 1])
  }

  /** The paths `dir /s /b` prints, one per CRLF-terminated line, come back
      as they were, unless the listing is the lone `File Not Found`. */
  lemma FoundPathsReturned(paths: seq<string>)
    requires forall i :: 0 <= i < |paths| ==> Trimmed(paths[i])
    requires paths != ["File Not Found"]
    ensures FindFilesByName(Some(seq(|paths|, i requires 0 <= i < |paths| => paths[i] + "\r\n"))) == Ok(paths)
  {
    var raw := seq(|paths|, i requires 0 <= i < |paths| => paths[i] + "\r\n");
    forall i | 0 <= i < |paths|
      ensures Strip(raw[i]) == paths[i]
    {
      StripCharacterized([], paths[i], "\r\n");
      assert [] + paths[i] + "\r\n" == raw[i];
    }
    StripAllShape(raw);
    assert StripAll(raw) == paths;
    if |paths| == 1 {
      assert paths == [paths[0]];
    }
  }

  // ---- gathering over the drives ----

  /** The two patterns searched for on every drive, in this order. */
  const Glob32 := "vcvars32.*"
  const Glob64 := "vcvars64.*"

  /** Every search on `drives` produced output (`cmd.exe` started). */
  predicate SearchesRan(search: (char, string) -> Option<seq<string>>, drives: seq<char>) {
    forall i :: 0 <= i < |drives| ==> search(drives[i], Glob32).Some? && search(drives[i], Glob64).Some?
  }

  /** The hits for `glob`, drive after drive, as the `+=` in the loop
      accumulates them. */
  function Hits(search: (char, string) -> Option<seq<string>>, drives: seq<char>, glob: string): seq<string>
    decreases |drives|
  {
    if drives == [] then []
    else Hits(search, drives[..|drives| - 1], glob) + Found(search, drives[|drives| - 1], glob)
  }

  /** What one drive adds: the paths found there. */
  function Found(search: (char, string) -> Option<seq<string>>, d: char, glob: string): seq<string> {
    var found := FindFilesByName(search(d, glob));
    if found.Ok? then found.value else []
  }

  /** Candidates accumulate in drive order: the hits on `a + b` are those
      on `a` followed by those on `b`. */
  lemma {:induction false} HitsAppend(search: (char, string) -> Option<seq<string>>, a: seq<char>, b: seq<char>, glob: string)
    ensures Hits(search, a + b, glob) == Hits(search, a, glob) + Hits(search, b, glob)
    decreases |b|
  {
    if b == [] {
      assert a + b == a;
    } else {
      var b' := b[..|b| - 1];
      var ab := a + b;
      assert ab[..|ab| - 1] == a + b';
      assert ab[|ab| - 1] == b[|b| - 1];
      HitsAppend(search, a, b', glob);
      var f := Found(search, b[|b| - 1], glob);
      assert Hits(search, ab, glob) == Hits(search, a + b', glob) + f;
      assert Hits(search, b, glob) == Hits(search, b', glob) + f;
      Reassociate(Hits(search, a, glob), Hits(search, b', glob), f);
    }
  }

  lemma Reassociate(x: seq<string>, y: seq<string>, z: seq<string>)
    ensures (x + y) + z == x + (y + z)
  {
  }

  /** One drive contributes exactly what its search found. */
  lemma HitsOneDrive(search: (char, string) -> Option<seq<string>>, d: char, glob: string)
    requires search(d, glob).Some?
    ensures Hits(search, [d], glob) == FindFilesByName(search(d, glob)).value
  {
    assert [d][..0] == [];
  }

  // ---- the choice ----

  /** The chosen pair; `distinctDirs` is the warning printed when the two
      files are not in the same directory. */
  datatype Located = Located(vcvars32: string, vcvars64: string, distinctDirs: bool)

  datatype LocateError = CouldNotChoose(message: string) | SearchFailed(error: SearchError)

  const CountsPrefix := "Could not choose vcvars files automatically "

  /** The message of every failed choice: `(m,n)` with the two counts. */
  function CountsMessage(m: nat, n: nat): string {
    CountsPrefix + "(" + NatToString(m) + "," + NatToString(n) + ")"
  }

  /** Reading the counts back from a failure message. */
  function ParseCounts(msg: string): Option<(int, int)> {
    ParseCountsAfter(CountsPrefix, msg)
  }

  /** The counts in `msg` when it is `pre` followed by `(m,n)`. */
  function ParseCountsAfter(pre: string, msg: string): Option<(int, int)> {
    var lead := |pre| + 1;
    if |msg| < lead + 1 || msg[..lead] != pre + "(" || msg[|msg| - 1] != ')' then None
    else
      var fields := Split(msg[lead..|msg| - 1], ',');
      if |fields| != 2 then None
      else match (ParseInt(fields[0]), ParseInt(fields[1]))
        case (Some(m), Some(n)) => Some((m, n))
        case _ => None
  }

  /** A failure message names the two counts it was made from. */
  lemma CountsMessageParses(m: nat, n: nat)
    ensures ParseCounts(CountsMessage(m, n)) == Some((m as int, n as int))
  {
    var a := NatToString(m);
    var b := NatToString(n);
    assert ',' !in a && ',' !in b by {
      assert forall i :: 0 <= i < |a| ==> IsDigit(a[i]);
      assert forall i :: 0 <= i < |b| ==> IsDigit(b[i]);
    }
    IntToStringRoundTrip(m);
    IntToStringRoundTrip(n);
    CountsParseAfter(CountsPrefix, a, b);
  }

  /** Two comma-free integers framed as `pre(a,b)` are read back. */
  lemma CountsParseAfter(pre: string, a: string, b: string)
    requires ',' !in a && ',' !in b && ParseInt(a).Some? && ParseInt(b).Some?
    ensures ParseCountsAfter(pre, pre + "(" + a + "," + b + ")") == Some((ParseInt(a).value, ParseInt(b).value))
  {
    var body := a + [','] + b;
    var msg := pre + "(" + a + "," + b + ")";
    Regroup(pre + "(", a, ",", b, ")");
    Framed(pre + "(", body, ")");
    assert msg[..|pre| + 1] == pre + "(" && msg[|msg| - 1] == ')';
    assert msg[|pre| + 1..|msg| - 1] == body;
    assert Join([a, b], ',') == body;
    SplitJoin([a, b], ',');
    assert Split(msg[|pre| + 1..|msg| - 1], ',') == [a, b];
  }

  lemma Regroup(x: string, a: string, c: string, b: string, z: string)
    ensures x + a + c + b + z == x + (a + c + b) + z
  {
  }

  /** The parts of a three-part concatenation can be sliced back out. */
  lemma Framed(x: string, y: string, z: string)
    ensures (x + y + z)[..|x|] == x
    ensures (x + y + z)[|x|..|x + y + z| - |z|] == y
    ensures |x + y + z| >= |x| + |z|
  {
  }

  /** The counts classification after the search loop, branch by branch:
      one of each is chosen (with a warning when their directories differ);
      every other combination fails with a message carrying the counts. */
  function Choose(v32: seq<string>, v64: seq<string>): (r: Result<Located, LocateError>)
    ensures r.Ok? <==> |v32| == 1 && |v64| == 1
    ensures r.Ok? ==> r.value.vcvars32 == v32[0] && r.value.vcvars64 == v64[0]
    ensures r.Ok? ==> (r.value.distinctDirs <==> WinPath.Dirname(v32[0]) != WinPath.Dirname(v64[0]))
    ensures r.Err? ==> r.error == CouldNotChoose(CountsMessage(|v32|, |v64|))
  {
    if |v32| == 1 && |v64| == 1 then
      Ok(Located(v32[0], v64[0], WinPath.Dirname(v32[0]) != WinPath.Dirname(v64[0])))
    else if |v32| == 0 && |v64| == 0 then
      assert CountsMessage(0, 0) == CountsPrefix + "(0,0)";
      Err(CouldNotChoose(CountsPrefix + "(0,0)"))
    else if |v32| == 0 then
      assert CountsMessage(0, |v64|) == CountsPrefix + "(0," + NatToString(|v64|) + ")";
      Err(CouldNotChoose(CountsPrefix + "(0," + NatToString(|v64|) + ")"))
    else if |v64| == 0 then
      assert CountsMessage(|v32|, 0) == CountsPrefix + "(" + NatToString(|v32|) + ",0)";
      Err(CouldNotChoose(CountsPrefix + "(" + NatToString(|v32|) + ",0)"))
    else
      Err(CouldNotChoose(CountsPrefix + "(" + NatToString(|v32|) + "," + NatToString(|v64|) + ")"))
  }

  /** `locate_vcvars_files` as a whole: search every present drive, then
      choose. */
  function LocateSpec(present: set<char>, search: (char, string) -> Option<seq<string>>): Result<Located, LocateError> {
    var drives := Drives(present);
    if !SearchesRan(search, drives) then Err(SearchFailed(TypeError))
    else Choose(Hits(search, drives, Glob32), Hits(search, drives, Glob64))
  }

  /** `locate_vcvars_files`: search the drives, then the counts decide. */
  method LocateVcvarsFiles(present: set<char>, search: (char, string) -> Option<seq<string>>) returns (r: Result<Located, LocateError>)
    ensures r == LocateSpec(present, search)
  {
    var drives := DriveLetters(present);
    var ran, vcvars32, vcvars64 := SearchDrives(search, drives);
    if !ran {
      return Err(SearchFailed(TypeError));
    }
    r := Choose(vcvars32, vcvars64);
  }

  /** The loop over the drives: each extends the two lists, and the first
      search that cannot start ends it (the TypeError). */
  method SearchDrives(search: (char, string) -> Option<seq<string>>, drives: seq<char>)
    returns (ran: bool, vcvars32: seq<string>, vcvars64: seq<string>)
    ensures ran == SearchesRan(search, drives)
    ensures ran ==> vcvars32 == Hits(search, drives, Glob32) && vcvars64 == Hits(search, drives, Glob64)
  {
    vcvars32, vcvars64 := [], [];
    for i := 0 to |drives|
      invariant SearchesRan(search, drives[..i])
      invariant vcvars32 == Hits(search, drives[..i], Glob32)
      invariant vcvars64 == Hits(search, drives[..i], Glob64)
    {
      var hits32 := FindFilesByName(search(drives[i], Glob32));
      if hits32.Err? {
        return false, vcvars32, vcvars64;
      }
      HitsStep(search, drives, i, Glob32);
      vcvars32 := vcvars32 + hits32.value;
      var hits64 := FindFilesByName(search(drives[i], Glob64));
      if hits64.Err? {
        return false, vcvars32, vcvars64;
      }
      HitsStep(search, drives, i, Glob64);
      vcvars64 := vcvars64 + hits64.value;
      SearchesRanExtend(search, drives, i);
    }
    assert drives[..|drives|] == drives;
    ran := true;
  }

  /** One more drive adds what was found there. */
  lemma HitsStep(search: (char, string) -> Option<seq<string>>, drives: seq<char>, i: int, glob: string)
    requires 0 <= i < |drives|
    ensures Hits(search, drives[..i + 1], glob) == Hits(search, drives[..i], glob) + Found(search, drives[i], glob)
  {
    assert drives[..i + 1][..i] == drives[..i];
  }

  lemma SearchesRanExtend(search: (char, string) -> Option<seq<string>>, drives: seq<char>, i: int)
    requires 0 <= i < |drives| && SearchesRan(search, drives[..i])
    requires search(drives[i], Glob32).Some? && search(drives[i], Glob64).Some?
    ensures SearchesRan(search, drives[..i + 1])
  {
    assert forall j :: 0 <= j < i ==> drives[..i + 1][j] == drives[..i][j];
  }

  /** Exactly one file of each kind across all drives: that pair is
      chosen, even from different directories, which only warns. */
  lemma SinglePairChosen(present: set<char>, search: (char, string) -> Option<seq<string>>)
    requires SearchesRan(search, Drives(present))
    requires |Hits(search, Drives(present), Glob32)| == 1 && |Hits(search, Drives(present), Glob64)| == 1
    ensures LocateSpec(present, search).Ok?
    ensures LocateSpec(present, search).value.vcvars32 == Hits(search, Drives(present), Glob32)[0]
    ensures LocateSpec(present, search).value.vcvars64 == Hits(search, Drives(present), Glob64)[0]
  {
  }

  /** Any other counts fail, and the message reports them: `(0,0)`,
      `(0,n)`, `(m,0)` and `(m,n)` alike. */
  lemma OtherCountsFail(v32: seq<string>, v64: seq<string>)
    requires |v32| != 1 || |v64| != 1
    ensures Choose(v32, v64).Err? && Choose(v32, v64).error.CouldNotChoose?
    ensures ParseCounts(Choose(v32, v64).error.message) == Some((|v32|, |v64|))
  {
    CountsMessageParses(|v32|, |v64|);
  }
}
