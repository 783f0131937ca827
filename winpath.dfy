/** Windows path manipulation as Python's `ntpath` (the `os.path` of the
    platform these scripts target) does it: drive splitting, joining a
    directory with a name, and splitting a path into directory and base name.
    UNC drives (`\\server\share`) are not modelled. */
module WinPath {

  type Path = string

  predicate IsSep(c: char) { c == '\\' || c == '/' }

  predicate AllSeps(s: string) {
    forall i :: 0 <= i < |s| ==> IsSep(s[i])
  }

  predicate HasDrive(p: Path) { |p| >= 2 && p[1] == ':' }

  /** Length of the drive `ntpath.splitdrive` finds: 2 for `X:`, else 0. */
  function DriveLen(p: Path): (n: nat)
    ensures n <= |p|
  {
    if HasDrive(p) then 2 else 0
  }

  /** The two halves of `ntpath.splitdrive(p)`. */
  function Drive(p: Path): string { p[..DriveLen(p)] }

  function PathPart(p: Path): string { p[DriveLen(p)..] }

  /** A non-empty name with neither separators nor colons: what the scripts
      join onto directories ('include', 'Win32', 'sqlite3.lib', ...). */
  predicate IsPlainName(n: string) {
    n != [] && NameChars(n)
  }

  /** `ntpath.join(a, b)` for two arguments (drive letters compared
      exactly). */
  function Join(a: Path, b: Path): Path {
    var ad := Drive(a);
    var ap := PathPart(a);
    var bd := Drive(b);
    var bp := PathPart(b);
    if bp != [] && IsSep(bp[0]) then (if bd != [] || ad == [] then bd else ad) + bp
    else if bd != [] && bd != ad then b
    else ad + (if ap != [] && !IsSep(ap[|ap| - 1]) then ap + "\\" else ap) + bp
  }

  /** Index just past the last separator of `s` (0 when there is none). */
  function TailStart(s: string): (i: nat)
    ensures i <= |s|
  {
    if s == [] then 0
    else if IsSep(s[|s| - 1]) then |s|
    else TailStart(s[..|s| - 1])
  }

  /** What follows `TailStart(s)` has no separator, and what precedes it
      ends in one. */
  lemma {:induction false} TailStartSplits(s: string)
    ensures forall k :: TailStart(s) <= k < |s| ==> !IsSep(s[k])
    ensures TailStart(s) > 0 ==> IsSep(s[TailStart(s) - 1])
  {
    if s != [] && !IsSep(s[|s| - 1]) {
      TailStartSplits(s[..|s| - 1]);
    }
  }

  /** `s.rstrip(seps)`. */
  function RStripSeps(s: string): (r: string)
    ensures |r| <= |s|
  {
    if s == [] || !IsSep(s[|s| - 1]) then s
    else RStripSeps(s[..|s| - 1])
  }

  /** `RStripSeps(s)` is a prefix of `s` that does not end in a separator,
      and only separators were removed. */
  lemma {:induction false} RStripSepsRemovesSeps(s: string)
    ensures RStripSeps(s) == s[..|RStripSeps(s)|]
    ensures AllSeps(s[|RStripSeps(s)|..])
    ensures RStripSeps(s) == [] || !IsSep(RStripSeps(s)[|RStripSeps(s)| - 1])
  {
    if s != [] && IsSep(s[|s| - 1]) {
      var r := RStripSeps(s[..|s| - 1]);
      RStripSepsRemovesSeps(s[..|s| - 1]);
      assert s[|r|..] == s[..|s| - 1][|r|..] + [s[|s| - 1]];
    }
  }

  /** `ntpath.dirname(p)`, the head of `ntpath.split(p)`: the trailing
      name is dropped, then the trailing separators, unless nothing but
      separators is left after the drive. */
  function Dirname(p: Path): Path
    decreases |p|
  {
    var rest := PathPart(p);
    if rest == [] then p
    else if !IsSep(rest[|rest| - 1]) then Dirname(p[..|p| - 1])
    else
      var stripped := RStripSeps(rest);
      Drive(p) + (if stripped == [] then rest else stripped)
  }

  /** `ntpath.basename(p)`, the tail of `ntpath.split(p)`. */
  function Basename(p: Path): (r: string)
    ensures forall i :: 0 <= i < |r| ==> !IsSep(r[i])
  {
    var rest := PathPart(p);
    TailStartSplits(rest);
    rest[TailStart(rest)..]
  }

  /** Dropping the last character of a path part leaves the drive alone. */
  lemma DropLast(p: Path)
    requires PathPart(p) != []
    ensures Drive(p[..|p| - 1]) == Drive(p)
    ensures PathPart(p[..|p| - 1]) == PathPart(p)[..|PathPart(p)| - 1]
  {
    assert HasDrive(p[..|p| - 1]) <==> HasDrive(p);
  }

  /** The directory part, some separators and the base name make up the
      path again. */
  lemma {:induction false} SplitPathRebuilds(p: Path)
    ensures exists mid :: AllSeps(mid) && Dirname(p) + mid + Basename(p) == p
    decreases |p|, 1
  {
    var rest := PathPart(p);
    if rest == [] {
      assert Dirname(p) == p && Basename(p) == [];
      assert Dirname(p) + [] + Basename(p) == p;
    } else if !IsSep(rest[|rest| - 1]) {
      SplitAtName(p);
    } else {
      SplitAtSeparator(p);
    }
  }

  /** `SplitPathRebuilds` for a path ending in a name character: that
      character moves from the path to the base name. */
  lemma {:induction false} SplitAtName(p: Path)
    requires PathPart(p) != [] && !IsSep(PathPart(p)[|PathPart(p)| - 1])
    ensures exists mid :: AllSeps(mid) && Dirname(p) + mid + Basename(p) == p
    decreases |p|, 0
  {
    var rest := PathPart(p);
    var q := p[..|p| - 1];
    var c := p[|p| - 1];
    DropLast(p);
    assert Dirname(p) == Dirname(q);
    BasenameDropLast(p);
    SplitPathRebuilds(q);
    var mid :| AllSeps(mid) && Dirname(q) + mid + Basename(q) == q;
    assert q + [c] == p;
    assert Dirname(p) + mid + Basename(p) == p;
  }

  lemma BasenameDropLast(p: Path)
    requires PathPart(p) != [] && !IsSep(PathPart(p)[|PathPart(p)| - 1])
    ensures Basename(p) == Basename(p[..|p| - 1]) + [p[|p| - 1]]
  {
    var rest := PathPart(p);
    var q := p[..|p| - 1];
    DropLast(p);
    var t := TailStart(rest);
    assert t == TailStart(PathPart(q));
    assert rest == PathPart(q) + [p[|p| - 1]];
    assert rest[t..] == PathPart(q)[t..] + [p[|p| - 1]];
  }

  /** `SplitPathRebuilds` for a path ending in a separator. */
  lemma SplitAtSeparator(p: Path)
    requires PathPart(p) != [] && IsSep(PathPart(p)[|PathPart(p)| - 1])
    ensures exists mid :: AllSeps(mid) && Dirname(p) + mid + Basename(p) == p
  {
    var d, rest := Drive(p), PathPart(p);
    var stripped := RStripSeps(rest);
    if stripped == [] {
      assert AllSeps([]) && Dirname(p) + [] + Basename(p) == p by {
        AtSeparatorParts(p);
      }
    } else {
      var mid := rest[|stripped|..];
      assert AllSeps(mid) && Dirname(p) + mid + Basename(p) == p by {
        AtSeparatorParts(p);
        StripSplits(rest);
        Regather(d, stripped, mid);
      }
    }
  }

  /** For a path ending in a separator: the directory is the drive and the
      part with its trailing separators stripped (or kept, when nothing else
      is left), and the name is empty. */
  lemma AtSeparatorParts(p: Path)
    requires PathPart(p) != [] && IsSep(PathPart(p)[|PathPart(p)| - 1])
    ensures var stripped := RStripSeps(PathPart(p));
      Dirname(p) == Drive(p) + (if stripped == [] then PathPart(p) else stripped)
    ensures Basename(p) == []
    ensures p == Drive(p) + PathPart(p)
  {
  }

  /** Stripping trailing separators cuts the string in two: what is kept
      and a run of separators. */
  lemma StripSplits(s: string)
    ensures s == RStripSeps(s) + s[|RStripSeps(s)|..]
    ensures AllSeps(s[|RStripSeps(s)|..])
  {
    RStripSepsRemovesSeps(s);
    var k := |RStripSeps(s)|;
    assert s == s[..k] + s[k..];
  }

  /** Regrouping a concatenation; kept apart because the same step
      stated inline in `SplitAtSeparator` makes that proof unstable. */
  lemma Regather(x: string, y: string, z: string)
    ensures (x + y) + z + [] == x + (y + z)
  {
  }

  /** A directory path that does not end in a separator unless it is a
      root such as `C:\`. `os.path.realpath` yields such paths. */
  predicate Normalized(a: Path) {
    var ap := PathPart(a);
    ap == [] || !IsSep(ap[|ap| - 1]) || AllSeps(ap)
  }

  /** Characters that can neither end a directory part nor form a drive. */
  predicate NameChars(n: string) {
    forall i :: 0 <= i < |n| ==> !IsSep(n[i]) && n[i] != ':'
  }

  /** Appending characters other than a colon never changes the drive. */
  lemma DriveOfAppend(a: Path, n: string)
    requires forall i :: 0 <= i < |n| ==> n[i] != ':'
    ensures DriveLen(a + n) == DriveLen(a)
    ensures Drive(a + n) == Drive(a)
  {
    if |a| >= 2 {
      assert (a + n)[1] == a[1];
      assert (a + n)[..2] == a[..2];
    } else if |a| == 1 && |n| >= 1 {
      assert (a + n)[1] == n[0];
    } else if |a| == 0 {
      assert a + n == n;
    }
  }

  /** A trailing name is dropped by `Dirname`, one character at a time. */
  lemma {:induction false} DirnameStripsName(a: Path, n: string)
    requires NameChars(n)
    ensures Dirname(a + n) == Dirname(a)
    decreases |n|
  {
    if n != [] {
      var p := a + n;
      var n' := n[..|n| - 1];
      DriveOfAppend(a, n);
      assert p == (a + n') + [n[|n| - 1]];
      assert p[..|p| - 1] == a + n';
      assert PathPart(p)[|PathPart(p)| - 1] == n[|n| - 1];
      DirnameStripsName(a, n');
    } else {
      assert a + n == a;
    }
  }

  /** What `Join` puts in front of a plain name: the directory, with a
      separator added unless its path part is empty or already ends in one. */
  function DirPrefix(a: Path): Path {
    var ap := PathPart(a);
    Drive(a) + (if ap != [] && !IsSep(ap[|ap| - 1]) then ap + "\\" else ap)
  }

  lemma JoinPlain(a: Path, n: string)
    requires IsPlainName(n)
    ensures Join(a, n) == DirPrefix(a) + n
  {
    assert DriveLen(n) == 0;
    assert PathPart(n) == n && Drive(n) == [];
  }

  /** The directory part of `DirPrefix(a)` is `a` itself. */
  lemma DirnameOfDirPrefix(a: Path)
    requires Normalized(a)
    ensures Dirname(DirPrefix(a)) == a
    ensures Drive(DirPrefix(a)) == Drive(a)
    ensures PathPart(DirPrefix(a)) == [] || IsSep(PathPart(DirPrefix(a))[|PathPart(DirPrefix(a))| - 1])
  {
    var ap := PathPart(a);
    if ap != [] && !IsSep(ap[|ap| - 1]) {
      assert DirPrefix(a) == a + "\\";
      DirnameAddSep(a);
    } else {
      assert DirPrefix(a) == a;
      if ap != [] {
        DirnameAllSeps(a);
      }
    }
  }

  /** Adding a separator after a name: `Dirname` strips it again. */
  lemma DirnameAddSep(a: Path)
    requires PathPart(a) != [] && !IsSep(PathPart(a)[|PathPart(a)| - 1])
    ensures Drive(a + "\\") == Drive(a)
    ensures PathPart(a + "\\") == PathPart(a) + "\\"
    ensures Dirname(a + "\\") == a
  {
    var ap := PathPart(a);
    assert a == Drive(a) + ap;
    DriveOfAppend(a, "\\");
    var p := a + "\\";
    assert PathPart(p) == ap + "\\";
    assert RStripSeps(ap + "\\") == ap by {
      assert (ap + "\\")[..|ap|] == ap;
    }
    assert Dirname(p) == Drive(p) + ap;
  }

  /** A path part of separators only is kept whole by `Dirname`. */
  lemma DirnameAllSeps(a: Path)
    requires PathPart(a) != [] && AllSeps(PathPart(a))
    ensures Dirname(a) == a
  {
    var ap := PathPart(a);
    assert a == Drive(a) + ap;
    assert IsSep(ap[|ap| - 1]);
    AllSepsStrip(ap);
  }

  /** Joining a plain name onto a normalized directory: splitting the result
      gives the directory and the name back. */
  lemma JoinSplits(a: Path, n: string)
    requires Normalized(a) && IsPlainName(n)
    ensures Dirname(Join(a, n)) == a
    ensures Basename(Join(a, n)) == n
    ensures Normalized(Join(a, n))
    ensures |Join(a, n)| > |a|
  {
    JoinPlain(a, n);
    PrefixSplits(a, n);
  }

  lemma PrefixSplits(a: Path, n: string)
    requires Normalized(a) && IsPlainName(n)
    ensures Dirname(DirPrefix(a) + n) == a
    ensures Basename(DirPrefix(a) + n) == n
    ensures Normalized(DirPrefix(a) + n)
  {
    DirnameOfDirPrefix(a);
    DirnameStripsName(DirPrefix(a), n);
    NameAfterSeparator(DirPrefix(a), n);
  }

  /** A plain name after a path part that is empty or ends in a separator
      is the base name, and the result is normalized. */
  lemma NameAfterSeparator(a: Path, n: string)
    requires IsPlainName(n)
    requires PathPart(a) == [] || IsSep(PathPart(a)[|PathPart(a)| - 1])
    ensures Basename(a + n) == n
    ensures Normalized(a + n)
  {
    DriveOfAppend(a, n);
    var ap := PathPart(a);
    assert a == Drive(a) + ap;
    assert PathPart(a + n) == ap + n;
    TailStartAfter(ap, n);
    assert (ap + n)[|ap|..] == n;
    assert PathPart(a + n)[|PathPart(a + n)| - 1] == n[|n| - 1];
  }

  lemma {:induction false} TailStartAfter(a: string, n: string)
    requires a == [] || IsSep(a[|a| - 1])
    requires forall i :: 0 <= i < |n| ==> !IsSep(n[i])
    ensures TailStart(a + n) == |a|
    decreases |n|
  {
    if n != [] {
      assert (a + n)[..|a + n| - 1] == a + n[..|n| - 1];
      TailStartAfter(a, n[..|n| - 1]);
    } else {
      assert a + n == a;
    }
  }

  lemma {:induction false} AllSepsStrip(s: string)
    requires AllSeps(s)
    ensures RStripSeps(s) == []
  {
    if s != [] {
      assert AllSeps(s[..|s| - 1]);
      AllSepsStrip(s[..|s| - 1]);
    }
  }

  /** A plain name has no directory part. */
  lemma PlainNameHasNoDir(n: string)
    requires IsPlainName(n)
    ensures Dirname(n) == []
  {
    DirnameStripsName([], n);
    assert [] + n == n;
  }
}
