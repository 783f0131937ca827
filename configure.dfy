/** `main` and the `__main__` block of configure.py: capturing the launcher
    name, pairing the two settings batch files, checking the tools, and
    writing `configvars.py` and `make.cmd`. Option parsing, `realpath` and
    the tools' runs are replaced by their results. */
module Configure {
  import opened Wrappers
  import opened Text
  import opened FileSystem
  import Vcvars
  import ToolCheck

  // ---- sys.argv ----

  /** The launcher written into `make.cmd` when none is given. */
  const DefaultCalledBy := "python"

  /** The launcher name and the arguments option parsing will see. */
  datatype Launch = Launch(calledBy: string, argv: seq<string>)

  /** `sys.argv[1]` on an empty `sys.argv` raises IndexError. */
  datatype ArgvCrash = ArgvIndexError

  /** The `__main__` block: no arguments asks for the help; a first
      argument that is not an option is the launcher, and is removed. */
  method RewriteArgv(argv: seq<string>) returns (r: Result<Launch, ArgvCrash>)
    ensures r.Err? <==> argv == []
    ensures |argv| == 1 ==> r == Ok(Launch(DefaultCalledBy, argv + ["--help"]))
    ensures |argv| >= 2 && StartsWith(argv[1], "-") ==> r == Ok(Launch(DefaultCalledBy, argv))
    ensures |argv| >= 2 && !StartsWith(argv[1], "-") ==>
      r.Ok? && r.value.calledBy == argv[1] && |r.value.argv| == |argv| - 1
      && [r.value.argv[0], r.value.calledBy] + r.value.argv[1..] == argv
  {
    var calledBy := DefaultCalledBy;
    var args := argv;
    if |args| == 0 {
      return Err(ArgvIndexError);
    }
    if |args| == 1 {
      args := args + ["--help"];
    } else if !StartsWith(args[1], "-") {
      calledBy := args[1];
      var replacement := [args[0]];
      replacement := replacement + args[2..];
      args := replacement;
    }
    r := Ok(Launch(calledBy, args));
  }

  // ---- make.cmd ----

  const MakeCmdTail := " make.py %*\n"

  /** `make.cmd`: the single line `@<called_by> make.py %*`. */
  function MakeCmd(calledBy: string): string {
    "@" + calledBy + MakeCmdTail
  }

  /** The launcher a `make.cmd` runs, read back from its text. */
  function ParseMakeCmd(text: string): Option<string> {
    if |text| < 1 + |MakeCmdTail| || text[0] != '@' || text[|text| - |MakeCmdTail|..] != MakeCmdTail then None
    else Some(text[1..|text| - |MakeCmdTail|])
  }

  /** The launcher is recovered from `make.cmd`, whatever it is. */
  lemma MakeCmdRoundTrip(calledBy: string)
    ensures ParseMakeCmd(MakeCmd(calledBy)) == Some(calledBy)
  {
    var text := MakeCmd(calledBy);
    assert text[|text| - |MakeCmdTail|..] == MakeCmdTail;
    assert text[1..|text| - |MakeCmdTail|] == calledBy;
  }

  // ---- configvars.py ----

  /** The five settings, in the order they are written. */
  const ConfigKeys: seq<string> := ["PREFIX", "VCVARS_32", "VCVARS_64", "SQLITE_DL_PAGE", "MAKE_NSIS"]

  /** One `KEY = value` line per setting. */
  function Render(keys: seq<string>, values: seq<string>): string
    requires |keys| == |values|
  {
    if keys == [] then []
    else keys[0] + " = " + values[0] + "\n" + Render(keys[1..], values[1..])
  }

  /** The right-hand sides: `repr` of each string (Python's `repr` is a
      parameter), `None` when makensis is not usable. */
  function ConfigValues(prefix: string, vcvars32: string, vcvars64: string, page: string,
                        makeNsis: Option<string>, repr: string -> string): (r: seq<string>)
    ensures |r| == |ConfigKeys|
  {
    [repr(prefix), repr(vcvars32), repr(vcvars64), repr(page),
     if makeNsis.None? then "None" else repr(makeNsis.value)]
  }

  /** The text of `configvars.py`. */
  function ConfigvarsText(prefix: string, vcvars32: string, vcvars64: string, page: string,
                          makeNsis: Option<string>, repr: string -> string): string {
    Render(ConfigKeys, ConfigValues(prefix, vcvars32, vcvars64, page, makeNsis, repr))
  }

  /** One `key = value` line read back: the key ends at the first space. */
  function ParseAssignment(line: string): Option<(string, string)> {
    if ' ' !in line then None
    else
      var k := IndexOf(line, ' ');
      if |line| >= k + 3 && line[k..k + 3] == " = " then Some((line[..k], line[k + 3..]))
      else None
  }

  /** The assignments of a settings file, in file order; every line must
      end with `'\n'`. */
  function ParseConfigvars(text: string): Option<seq<(string, string)>>
    decreases |text|
  {
    if text == [] then Some([])
    else if '\n' !in text then None
    else
      var i := IndexOf(text, '\n');
      match (ParseAssignment(text[..i]), ParseConfigvars(text[i + 1..]))
      case (Some(kv), Some(rest)) => Some([kv] + rest)
      case _ => None
  }

  /** The pairs `(keys[i], values[i])`. */
  function Zip(keys: seq<string>, values: seq<string>): (r: seq<(string, string)>)
    requires |keys| == |values|
    ensures |r| == |keys| && forall i :: 0 <= i < |r| ==> r[i] == (keys[i], values[i])
  {
    if keys == [] then [] else [(keys[0], values[0])] + Zip(keys[1..], values[1..])
  }

  lemma AssignmentParses(key: string, value: string)
    requires ' ' !in key
    ensures ParseAssignment(key + " = " + value) == Some((key, value))
  {
    var line := key + " = " + value;
    assert line[|key|] == ' ';
    assert line[..|key|] == key;
    assert IndexOf(line, ' ') == |key|;
    assert line[|key|..|key| + 3] == " = ";
    assert line[|key| + 3..] == value;
  }

  /** Reading back rendered settings gives every key with its value, in
      order, when no key holds a space or line break and no value a line
      break. */
  lemma {:induction false} RenderParses(keys: seq<string>, values: seq<string>)
    requires |keys| == |values|
    requires forall i :: 0 <= i < |keys| ==> ' ' !in keys[i] && '\n' !in keys[i] && '\n' !in values[i]
    ensures ParseConfigvars(Render(keys, values)) == Some(Zip(keys, values))
  {
    if keys != [] {
      var line := keys[0] + " = " + values[0];
      var rest := Render(keys[1..], values[1..]);
      var text := Render(keys, values);
      assert text == line + "\n" + rest;
      assert '\n' !in line;
      assert text[|line|] == '\n' && text[..|line|] == line;
      assert IndexOf(text, '\n') == |line|;
      assert text[|line| + 1..] == rest;
      AssignmentParses(keys[0], values[0]);
      RenderParses(keys[1..], values[1..]);
    }
  }

  /** `configvars.py` holds exactly the five settings, in the fixed order,
      each with the value it was given, as long as `repr` writes no line
      break (Python's `repr` of a string never does). */
  lemma ConfigvarsRoundTrip(prefix: string, vcvars32: string, vcvars64: string, page: string,
                            makeNsis: Option<string>, repr: string -> string)
    requires forall s :: '\n' !in repr(s)
    ensures ParseConfigvars(ConfigvarsText(prefix, vcvars32, vcvars64, page, makeNsis, repr))
      == Some(Zip(ConfigKeys, ConfigValues(prefix, vcvars32, vcvars64, page, makeNsis, repr)))
  {
    var values := ConfigValues(prefix, vcvars32, vcvars64, page, makeNsis, repr);
    assert forall i :: 0 <= i < |ConfigKeys| ==> ' ' !in ConfigKeys[i] && '\n' !in ConfigKeys[i];
    assert forall i :: 0 <= i < |values| ==> '\n' !in values[i];
    RenderParses(ConfigKeys, values);
  }

  // ---- the vcvars pair ----

  /** Why configuration stops (each an exception in configure.py). */
  datatype ConfigError =
    | PrefixUnavailable
    | OnlyOneVcvars(message: string)
    | BothVcvarsMissing
    | Vcvars32Missing
    | Vcvars64Missing
    | NotLocated(error: Vcvars.LocateError)
    | LibNotRunnable(vcvars: string)
    | NsisOutputCrash

  /** The message for a lone `--vcvars-32` or `--vcvars-64`. */
  function OnlyOneMessage(have: string): string {
    "Either specify neither, or both vcvars files. (have " + have + ")"
  }

  /** The pairing rule: both flags name existing files, or neither flag is
      given and the located pair is used. A lone flag is an error naming
      the flag that was given. */
  function PairVcvars(arg32: Option<string>, arg64: Option<string>, fs: Fs,
                      located: Result<Vcvars.Located, Vcvars.LocateError>): (r: Result<(string, string), ConfigError>)
    ensures arg32.Some? && arg64.Some? ==>
      (r.Ok? <==> IsFile(fs, arg32.value) && IsFile(fs, arg64.value))
      && (r.Ok? ==> r.value == (arg32.value, arg64.value))
    ensures arg32.Some? != arg64.Some? ==> r.Err? && r.error.OnlyOneVcvars?
    ensures arg32.None? && arg64.None? ==>
      (r.Ok? <==> located.Ok?) && (r.Ok? ==> r.value == (located.value.vcvars32, located.value.vcvars64))
  {
    match (arg32, arg64)
    case (Some(v32), Some(v64)) =>
      if !IsFile(fs, v32) && !IsFile(fs, v64) then Err(BothVcvarsMissing)
      else if !IsFile(fs, v32) then Err(Vcvars32Missing)
      else if !IsFile(fs, v64) then Err(Vcvars64Missing)
      else Ok((v32, v64))
    case (Some(_), None) => Err(OnlyOneVcvars(OnlyOneMessage("vcvars32")))
    case (None, Some(_)) => Err(OnlyOneVcvars(OnlyOneMessage("vcvars64")))
    case (None, None) =>
      match located
      case Ok(l) => Ok((l.vcvars32, l.vcvars64))
      case Err(e) => Err(NotLocated(e))
  }

  /** The rule as configure.py writes it: a lone `--vcvars-64` gets the
      same message as a lone `--vcvars-32`. */
  function PairVcvarsAsWritten(arg32: Option<string>, arg64: Option<string>, fs: Fs,
                               located: Result<Vcvars.Located, Vcvars.LocateError>): (r: Result<(string, string), ConfigError>)
    ensures arg32.None? && arg64.Some? ==> r == Err(OnlyOneVcvars(OnlyOneMessage("vcvars32")))
    ensures !(arg32.None? && arg64.Some?) ==> r == PairVcvars(arg32, arg64, fs, located)
  {
    if arg32.None? && arg64.Some? then Err(OnlyOneVcvars(OnlyOneMessage("vcvars32")))
    else PairVcvars(arg32, arg64, fs, located)
  }

  /** As written, a lone `--vcvars-64` cannot be told from a lone
      `--vcvars-32`, and the message claims the 32-bit file was given. */
  lemma LoneFlagMessagesAgreeAsWritten(p: string, fs: Fs, located: Result<Vcvars.Located, Vcvars.LocateError>)
    ensures PairVcvarsAsWritten(None, Some(p), fs, located) == PairVcvarsAsWritten(Some(p), None, fs, located)
  {
  }

  /** Corrected, each lone flag is reported as the one given. */
  lemma LoneFlagMessagesNameTheFlag(p: string, fs: Fs, located: Result<Vcvars.Located, Vcvars.LocateError>)
    ensures PairVcvars(Some(p), None, fs, located) == Err(OnlyOneVcvars(OnlyOneMessage("vcvars32")))
    ensures PairVcvars(None, Some(p), fs, located) == Err(OnlyOneVcvars(OnlyOneMessage("vcvars64")))
    ensures PairVcvars(Some(p), None, fs, located) != PairVcvars(None, Some(p), fs, located)
  {
    var m32 := OnlyOneMessage("vcvars32");
    var m64 := OnlyOneMessage("vcvars64");
    var at := |"Either specify neither, or both vcvars files. (have vcvars"|;
    assert m32[at] == '3' && m64[at] == '6';
  }

  /** With both flags given, the located pair is never consulted, and the
      three missing-file cases are told apart. */
  lemma ExplicitPairIgnoresSearch(v32: string, v64: string, fs: Fs,
                                  l1: Result<Vcvars.Located, Vcvars.LocateError>,
                                  l2: Result<Vcvars.Located, Vcvars.LocateError>)
    ensures PairVcvars(Some(v32), Some(v64), fs, l1) == PairVcvars(Some(v32), Some(v64), fs, l2)
    ensures !IsFile(fs, v32) && !IsFile(fs, v64) ==> PairVcvars(Some(v32), Some(v64), fs, l1) == Err(BothVcvarsMissing)
    ensures !IsFile(fs, v32) && IsFile(fs, v64) ==> PairVcvars(Some(v32), Some(v64), fs, l1) == Err(Vcvars32Missing)
    ensures IsFile(fs, v32) && !IsFile(fs, v64) ==> PairVcvars(Some(v32), Some(v64), fs, l1) == Err(Vcvars64Missing)
  {
  }

  // ---- main ----

  /** What `main` leaves behind. */
  datatype Written = Written(configvars: string, makeCmd: string)

  /** What `main` is given, once options are parsed and the tools have
      run: the resolved prefix and whether it is a directory after
      `mkdir`; the two flags; the file system; what the automatic search
      found; each `lib` session's output by batch file; the makensis
      location option and what `/VERSION` printed; the download page;
      the launcher; and Python's `repr`. */
  datatype Inputs = Inputs(
    prefix: string, prefixIsDir: bool,
    arg32: Option<string>, arg64: Option<string>, fs: Fs,
    located: Result<Vcvars.Located, Vcvars.LocateError>,
    libSession: string -> string,
    makeNsis: string, nsisOutput: Option<seq<string>>,
    page: string, calledBy: string, repr: string -> string)

  /** `main`, step by step: prefix, pair, `lib` after each batch file,
      makensis, then the two files. */
  function Main(inp: Inputs): (r: Result<Written, ConfigError>)
    ensures r.Ok? ==> inp.prefixIsDir && PairVcvarsAsWritten(inp.arg32, inp.arg64, inp.fs, inp.located).Ok?
    ensures r.Ok? ==> r.value.makeCmd == MakeCmd(inp.calledBy)
    ensures inp.prefixIsDir && inp.arg32.None? && inp.arg64.Some? ==>
      r == Err(OnlyOneVcvars(OnlyOneMessage("vcvars32")))
  {
    if !inp.prefixIsDir then Err(PrefixUnavailable)
    else match PairVcvarsAsWritten(inp.arg32, inp.arg64, inp.fs, inp.located)
      case Err(e) => Err(e)
      case Ok(pair) =>
        if ToolCheck.FindLibInPlatform(inp.libSession(pair.0)).Err? then Err(LibNotRunnable(pair.0))
        else if ToolCheck.FindLibInPlatform(inp.libSession(pair.1)).Err? then Err(LibNotRunnable(pair.1))
        else match ToolCheck.FindMakeNsis(inp.makeNsis, inp.nsisOutput)
          case Err(_) => Err(NsisOutputCrash)
          case Ok(verdict) =>
            var nsis := if verdict.Usable? then Some(verdict.loc) else None;
            Ok(Written(ConfigvarsText(inp.prefix, pair.0, pair.1, inp.page, nsis, inp.repr), MakeCmd(inp.calledBy)))
  }

  /** A finished configuration records the chosen pair and the makensis
      verdict: the settings read back in order, `MAKE_NSIS` is `None`
      exactly when makensis was not usable, and `make.cmd` runs the
      launcher. */
  lemma MainRecords(inp: Inputs)
    requires Main(inp).Ok?
    requires forall s :: '\n' !in inp.repr(s)
    ensures var pair := PairVcvarsAsWritten(inp.arg32, inp.arg64, inp.fs, inp.located).value;
      var verdict := ToolCheck.FindMakeNsis(inp.makeNsis, inp.nsisOutput);
      && verdict.Ok?
      && ParseConfigvars(Main(inp).value.configvars) == Some(Zip(ConfigKeys,
           ConfigValues(inp.prefix, pair.0, pair.1, inp.page,
                        if verdict.value.Usable? then Some(inp.makeNsis) else None, inp.repr)))
    ensures ParseMakeCmd(Main(inp).value.makeCmd) == Some(inp.calledBy)
  {
    var pair := PairVcvarsAsWritten(inp.arg32, inp.arg64, inp.fs, inp.located).value;
    var verdict := ToolCheck.FindMakeNsis(inp.makeNsis, inp.nsisOutput);
    var nsis := if verdict.value.Usable? then Some(inp.makeNsis) else None;
    ConfigvarsRoundTrip(inp.prefix, pair.0, pair.1, inp.page, nsis, inp.repr);
    MakeCmdRoundTrip(inp.calledBy);
  }

  /** A batch file after which `lib` is not recognised stops
      configuration: nothing is written. */
  lemma LibFailureWritesNothing(inp: Inputs)
    requires inp.prefixIsDir && PairVcvarsAsWritten(inp.arg32, inp.arg64, inp.fs, inp.located).Ok?
    requires var pair := PairVcvarsAsWritten(inp.arg32, inp.arg64, inp.fs, inp.located).value;
      ToolCheck.FindLibInPlatform(inp.libSession(pair.0)).Err? || ToolCheck.FindLibInPlatform(inp.libSession(pair.1)).Err?
    ensures Main(inp).Err? && Main(inp).error.LibNotRunnable?
  {
  }
}
