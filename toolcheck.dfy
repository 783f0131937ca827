/** `find_lib_in_platform` and `find_make_nsis` in configure.py: verdicts
    on what a tool printed. The tools themselves are not run here; their
    output is the input. */
module ToolCheck {
  import opened Wrappers
  import opened Text

  // ---- find_lib_in_platform ----

  /** What `cmd.exe` prints when `lib` is not on the path after the
      settings batch file ran. */
  const NotRecognized := "'lib' is not"
  /** The first line of `lib /?`. */
  const Banner := "Microsoft (R) Library Manager"

  /** Some line contains `sub` (`any([sub in line for line in lines])`). */
  function AnyContains(lines: seq<string>, sub: string): bool {
    lines != [] && (Contains(lines[0], sub) || AnyContains(lines[1..], sub))
  }

  /** Some line starts with `p`. */
  function AnyStartsWith(lines: seq<string>, p: string): bool {
    lines != [] && (StartsWith(lines[0], p) || AnyStartsWith(lines[1..], p))
  }

  lemma {:induction false} AnyContainsExists(lines: seq<string>, sub: string)
    ensures AnyContains(lines, sub) <==> exists i :: 0 <= i < |lines| && Contains(lines[i], sub)
  {
    if lines != [] {
      AnyContainsExists(lines[1..], sub);
      assert forall i :: 1 <= i < |lines| ==> lines[i] == lines[1..][i - 1];
    }
  }

  lemma {:induction false} AnyStartsWithExists(lines: seq<string>, p: string)
    ensures AnyStartsWith(lines, p) <==> exists i :: 0 <= i < |lines| && StartsWith(lines[i], p)
  {
    if lines != [] {
      AnyStartsWithExists(lines[1..], p);
      assert forall i :: 1 <= i < |lines| ==> lines[i] == lines[1..][i - 1];
    }
  }

  /** `lib` ran and printed its banner, or ran without the banner being
      recognised (only a warning). */
  datatype LibCheck = Recognized | Unrecognized

  /** The exception "Running lib after ... did not succeed." */
  datatype LibError = LibDidNotRun

  /** The session's output lines, split on `'\n'` and stripped. */
  function SessionLines(output: string): seq<string> {
    StripAll(Split(output, '\n'))
  }

  /** `find_lib_in_platform` on the output of the `cmd.exe` session. */
  function FindLibInPlatform(output: string): Result<LibCheck, LibError> {
    var lines := SessionLines(output);
    if AnyContains(lines, NotRecognized) then Err(LibDidNotRun)
    else if !AnyStartsWith(lines, Banner) then Ok(Unrecognized)
    else Ok(Recognized)
  }

  /** It fails exactly when some stripped line says `lib` is not
      recognised; a missing banner only downgrades the verdict to
      `Unrecognized`. */
  lemma FindLibVerdict(output: string)
    ensures var lines := SessionLines(output);
      FindLibInPlatform(output).Err? <==> exists i :: 0 <= i < |lines| && Contains(lines[i], NotRecognized)
    ensures var lines := SessionLines(output);
      FindLibInPlatform(output) == Ok(Recognized) <==>
        (forall i :: 0 <= i < |lines| ==> !Contains(lines[i], NotRecognized))
        && exists i :: 0 <= i < |lines| && StartsWith(lines[i], Banner)
  {
    AnyContainsExists(SessionLines(output), NotRecognized);
    AnyStartsWithExists(SessionLines(output), Banner);
  }

  /** The verdict is read line by line: for a session made of the lines
      `ls`, it is decided on those lines, stripped. */
  lemma FindLibOnLines(ls: seq<string>)
    requires |ls| >= 1 && forall i :: 0 <= i < |ls| ==> '\n' !in ls[i]
    ensures SessionLines(Join(ls, '\n')) == StripAll(ls)
  {
    SplitJoin(ls, '\n');
  }

  // ---- find_make_nsis ----

  /** `find_make_nsis` returns the location (with a warning when the major
      version is below 3), or None. */
  datatype NsisVerdict = Usable(loc: string, oldVersion: bool) | Unusable

  /** Indexing the empty first line (`nsis_output[0]`) raises IndexError,
      which nothing catches. */
  datatype NsisCrash = IndexError

  /** `find_make_nsis(loc)` given what `loc /VERSION` printed, None when
      it could not be started. */
  function FindMakeNsis(loc: string, output: Option<seq<string>>): (r: Result<NsisVerdict, NsisCrash>)
    ensures r.Err? <==> output.Some? && output.value != [] && Strip(output.value[0]) == []
    ensures r.Ok? && r.value.Usable? ==> r.value.loc == loc
  {
    if output.None? || output.value == [] then Ok(Unusable)
    else VersionVerdict(loc, Strip(output.value[0]))
  }

  /** The verdict on the stripped first line. */
  function VersionVerdict(loc: string, first: string): (r: Result<NsisVerdict, NsisCrash>)
    ensures r.Err? <==> first == []
    ensures r.Ok? && r.value.Usable? ==> r.value.loc == loc
  {
    if first == [] then Err(IndexError)
    else if first[0] != 'v' then Ok(Unusable)
    else
      var parts := Split(first[1..], '.');
      match ParseInt(parts[0])
      case None => Ok(Unusable)
      case Some(major) => Ok(Usable(loc, major < 3))
  }

  /** The rejections: no output at all; a first line that does not start
      with `v`; a major version that is not an integer. */
  lemma NsisRejections(loc: string, output: Option<seq<string>>)
    ensures output.None? || output == Some([]) ==> FindMakeNsis(loc, output) == Ok(Unusable)
    ensures output.Some? && output.value != [] && Strip(output.value[0]) != [] && Strip(output.value[0])[0] != 'v'
      ==> FindMakeNsis(loc, output) == Ok(Unusable)
    ensures output.Some? && output.value != [] && StartsWith(Strip(output.value[0]), "v")
      && ParseInt(Split(Strip(output.value[0])[1..], '.')[0]).None?
      ==> FindMakeNsis(loc, output) == Ok(Unusable)
  {
  }

  /** A version line as makensis prints it, `v<major>.<minor>` and a line
      end, makes the location usable, flagged when the major version is
      below 3. */
  lemma NsisVersionAccepted(loc: string, major: nat, minor: string, rest: seq<string>)
    requires minor != [] && !IsSpace(minor[|minor| - 1])
    ensures FindMakeNsis(loc, Some(["v" + NatToString(major) + "." + minor + "\r\n"] + rest))
      == Ok(Usable(loc, major < 3))
  {
    var core := "v" + NatToString(major) + "." + minor;
    StripCharacterized([], core, "\r\n");
    assert [] + core + "\r\n" == core + "\r\n";
    VersionLineVerdict(loc, major, minor);
  }

  lemma VersionLineVerdict(loc: string, major: nat, minor: string)
    ensures VersionVerdict(loc, "v" + NatToString(major) + "." + minor) == Ok(Usable(loc, major < 3))
  {
    var digits := NatToString(major);
    var core := "v" + digits + "." + minor;
    assert core[0] == 'v';
    assert core[1..] == digits + ['.'] + minor;
    assert '.' !in digits by {
      assert forall i :: 0 <= i < |digits| ==> IsDigit(digits[i]);
    }
    SplitHead(digits, minor, '.');
    IntToStringRoundTrip(major);
  }

  /** The first field of a split is everything before the first
      separator. */
  lemma SplitHead(x: string, y: string, sep: char)
    requires sep !in x
    ensures Split(x + [sep] + y, sep)[0] == x
  {
    var s := x + [sep] + y;
    assert s[|x|] == sep;
    assert s[..|x|] == x;
  }
}
