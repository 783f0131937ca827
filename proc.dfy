/** `Proc` in make.py: a child process whose exit code is fetched once and
    cached. When the executable cannot be found the code is 9009, the value
    `cmd.exe` reports for an unknown command. The child itself is given
    as what it would print (read only when output is consumed) and the
    status it would exit with. */
module Processes {
  import opened Wrappers

  /** The exit code recorded when the executable is missing. */
  const NotFound: int := 9009

  class Proc {
    /** `lines_`: the output read so far. */
    var lines: seq<string>
    /** `rc_`: the cached exit code. */
    var rc: Option<int>
    /** `consume_`: output is piped back rather than left on the console. */
    const consume: bool
    /** `p_ is not None`: the child was started. */
    const started: bool
    /** What the child prints, and the status `wait()` returns. */
    const output: seq<string>
    const status: int
    /** The piped output not yet read. */
    var unread: seq<string>

    /** Nothing read is lost or read twice: what has been read, followed by
        what is still waiting, is everything the child prints when that is
        piped back; a missing executable has code 9009 and no output. */
    predicate Valid()
      reads this
    {
      && lines + unread == (if started && consume then output else [])
      && (!started ==> rc == Some(NotFound))
      && (started && rc.Some? ==> rc.value == status && unread == [])
    }

    /** `Proc(*args, consume=...)`: `Popen` either starts the child or
        raises FileNotFoundError, which is caught. */
    constructor (found: bool, consume: bool, output: seq<string>, status: int)
      ensures Valid()
      ensures this.consume == consume && this.output == output && this.status == status
      ensures started == found && lines == []
      ensures rc == (if found then None else Some(NotFound))
      ensures unread == (if found && consume then output else [])
    {
      this.consume := consume;
      this.output := output;
      this.status := status;
      started := found;
      lines := [];
      rc := if found then None else Some(NotFound);
      unread := if found && consume then output else [];
    }

    /** `rc()`: the cached code if there is one; otherwise the remaining
        output is read (when consumed) and the child waited for. */
    method Rc() returns (code: int)
      requires Valid()
      modifies this
      ensures Valid()
      ensures code == (if started then status else NotFound)
      ensures rc == Some(code)
      ensures lines == (if started && consume then output else [])
      ensures old(rc).Some? ==> unchanged(this)
    {
      if rc.Some? {
        return rc.value;
      }
      if consume {
        lines := lines + unread;
        unread := [];
      }
      rc := Some(status);
      return status;
    }

    /** `lines()`: reads the remaining output unless the code is already
        cached (then it has all been read). */
    method Lines() returns (out: seq<string>)
      requires Valid()
      modifies this
      ensures Valid()
      ensures out == lines == (if started && consume then output else [])
      ensures rc == old(rc)
    {
      if rc.None? && consume {
        lines := lines + unread;
        unread := [];
      }
      return lines;
    }

    /** `run()`: the same as `rc()`. */
    method Run() returns (code: int)
      requires Valid()
      modifies this
      ensures Valid()
      ensures code == (if started then status else NotFound)
      ensures rc == Some(code)
      ensures lines == (if started && consume then output else [])
      ensures old(rc).Some? ==> unchanged(this)
    {
      code := Rc();
    }
  }

  /** Asking twice gives the same code and changes nothing the second time;
      reading the lines in between does not alter it either. */
  method RcIsCached(p: Proc) returns (first: int, second: int)
    requires p.Valid()
    modifies p
    ensures first == second
    ensures p.Valid() && p.rc == Some(first)
  {
    first := p.Rc();
    var ls := p.Lines();
    second := p.Rc();
  }

  /** A missing executable reports 9009 and no output, whatever was asked
      of it. */
  method MissingExecutable(consume: bool, output: seq<string>, status: int) returns (code: int, out: seq<string>)
    ensures code == NotFound && out == []
  {
    var p := new Proc(false, consume, output, status);
    out := p.Lines();
    code := p.Run();
  }

  /** A started child consuming its output: all of it is collected, once,
      whichever of `lines()` and `rc()` is called first. */
  method OutputCollectedOnce(output: seq<string>, status: int, linesFirst: bool) returns (code: int, out: seq<string>)
    ensures code == status && out == output
  {
    var p := new Proc(true, true, output, status);
    if linesFirst {
      out := p.Lines();
      code := p.Rc();
    } else {
      code := p.Rc();
      out := p.Lines();
    }
  }
}
