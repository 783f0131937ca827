/** The handful of Python `str` operations the build scripts rely on:
    `strip`, `startswith`, `in`/`find`, `split` on one character and `int`. */
module Text {
  import opened Wrappers

  /** Python's `str.isspace` for one character. */
  predicate IsSpace(c: char) {
    || c == ' ' || c == '\t' || c == '\n' || c == '\r' || c == '\U{0B}' || c == '\U{0C}'
    || ('\U{1C}' <= c <= '\U{1F}') || c == '\U{85}' || c == '\U{A0}' || c == '\U{1680}'
    || ('\U{2000}' <= c <= '\U{200A}') || c == '\U{2028}' || c == '\U{2029}'
    || c == '\U{202F}' || c == '\U{205F}' || c == '\U{3000}'
  }

  predicate AllSpace(s: string) {
    forall i :: 0 <= i < |s| ==> IsSpace(s[i])
  }

  /** Number of leading white-space characters. */
  function LeadingSpace(s: string): (k: nat)
    ensures k <= |s|
    ensures AllSpace(s[..k])
    ensures k < |s| ==> !IsSpace(s[k])
  {
    if s == [] || !IsSpace(s[0]) then 0
    else
      var k := 1 + LeadingSpace(s[1..]);
      assert s[..k] == [s[0]] + s[1..][..k - 1];
      k
  }

  /** Length of `s` once trailing white space is removed. */
  function TrailingStart(s: string): (k: nat)
    ensures k <= |s|
    ensures AllSpace(s[k..])
    ensures k > 0 ==> !IsSpace(s[k - 1])
  {
    if s == [] || !IsSpace(s[|s| - 1]) then |s|
    else
      var k := TrailingStart(s[..|s| - 1]);
      assert s[k..] == s[..|s| - 1][k..] + [s[|s| - 1]];
      k
  }

  /** Python's `s.strip()`. */
  function Strip(s: string): (r: string)
    ensures r == [] || (!IsSpace(r[0]) && !IsSpace(r[|r| - 1]))
  {
    var t := s[LeadingSpace(s)..];
    t[..TrailingStart(t)]
  }

  /** Strip removes exactly the white space around a core that starts and
      ends with a non-space character. */
  lemma {:induction false} StripCharacterized(w1: string, core: string, w2: string)
    requires AllSpace(w1) && AllSpace(w2)
    requires core == [] || (!IsSpace(core[0]) && !IsSpace(core[|core| - 1]))
    ensures Strip(w1 + core + w2) == core
  {
    var s := w1 + core + w2;
    if core == [] {
      assert AllSpace(s);
      AllSpaceStrip(s);
    } else {
      LeadingSpaceAt(w1, core + w2);
      assert s == w1 + (core + w2);
      var t := s[|w1|..];
      assert t == core + w2;
      TrailingSpaceAt(core, w2);
    }
  }

  lemma AllSpaceStrip(s: string)
    requires AllSpace(s)
    ensures Strip(s) == []
  {
    var k := LeadingSpace(s);
    assert k == |s|;
  }

  lemma LeadingSpaceAt(w: string, rest: string)
    requires AllSpace(w)
    requires rest != [] && !IsSpace(rest[0])
    ensures LeadingSpace(w + rest) == |w|
  {
    var s := w + rest;
    var k := LeadingSpace(s);
    assert forall i :: 0 <= i < |w| ==> s[i] == w[i];
    assert s[|w|] == rest[0];
  }

  lemma TrailingSpaceAt(core: string, w: string)
    requires AllSpace(w)
    requires core != [] && !IsSpace(core[|core| - 1])
    ensures (core + w)[..TrailingStart(core + w)] == core
  {
    var s := core + w;
    var k := TrailingStart(s);
    assert forall i :: |core| <= i < |s| ==> s[i] == w[i - |core|];
    assert s[|core| - 1] == core[|core| - 1];
    assert s[..|core|] == core;
  }

  /** Stripping twice is stripping once. */
  lemma StripIdempotent(s: string)
    ensures Strip(Strip(s)) == Strip(s)
  {
    StripCharacterized([], Strip(s), []);
    assert [] + Strip(s) + [] == Strip(s);
  }

  /** Every line stripped, as `[line.strip() for line in lines]` does. */
  function StripAll(lines: seq<string>): seq<string> {
    if lines == [] then [] else [Strip(lines[0])] + StripAll(lines[1..])
  }

  lemma {:induction false} StripAllShape(lines: seq<string>)
    ensures |StripAll(lines)| == |lines|
    ensures forall i :: 0 <= i < |lines| ==> StripAll(lines)[i] == Strip(lines[i])
  {
    if lines != [] {
      StripAllShape(lines[1..]);
    }
  }

  /** Python's `s.startswith(p)`. */
  predicate StartsWith(s: string, p: string) {
    |p| <= |s| && s[..|p|] == p
  }

  /** Python's `sub in s`, equivalently `s.find(sub) >= 0`. */
  predicate Contains(s: string, sub: string) {
    exists i | 0 <= i <= |s| - |sub| :: OccursAt(s, sub, i)
  }

  predicate OccursAt(s: string, sub: string, i: int)
    requires 0 <= i <= |s| - |sub|
  {
    s[i..i + |sub|] == sub
  }

  /** Index of the first occurrence of `c` in `s`. */
  function IndexOf(s: string, c: char): (i: nat)
    requires c in s
    ensures i < |s| && s[i] == c && c !in s[..i]
  {
    if s[0] == c then 0
    else
      var i := 1 + IndexOf(s[1..], c);
      assert s[..i] == [s[0]] + s[1..][..i - 1];
      i
  }

  /** Python's `sep.join(parts)` for a one-character separator. */
  function Join(parts: seq<string>, sep: char): string {
    if parts == [] then []
    else if |parts| == 1 then parts[0]
    else parts[0] + [sep] + Join(parts[1..], sep)
  }

  /** Python's `s.split(sep)` for a one-character separator: at least one
      field, no field holds the separator, and joining the fields back
      gives `s`. */
  function Split(s: string, sep: char): (r: seq<string>)
    ensures |r| >= 1
    ensures forall i :: 0 <= i < |r| ==> sep !in r[i]
    ensures Join(r, sep) == s
    decreases |s|
  {
    if sep !in s then [s]
    else
      var i := IndexOf(s, sep);
      var rest := Split(s[i + 1..], sep);
      assert s == s[..i] + [sep] + s[i + 1..];
      [s[..i]] + rest
  }

  /** Splitting a join of separator-free fields gives the fields back. */
  lemma {:induction false} SplitJoin(parts: seq<string>, sep: char)
    requires |parts| >= 1
    requires forall i :: 0 <= i < |parts| ==> sep !in parts[i]
    ensures Split(Join(parts, sep), sep) == parts
  {
    if |parts| > 1 {
      var s := Join(parts, sep);
      var tail := Join(parts[1..], sep);
      assert s == parts[0] + [sep] + tail;
      assert s[|parts[0]|] == sep;
      assert s[..|parts[0]|] == parts[0];
      assert IndexOf(s, sep) == |parts[0]|;
      assert s[|parts[0]| + 1..] == tail;
      SplitJoin(parts[1..], sep);
    }
  }

  // ---- Python's int(str) ----

  predicate IsDigit(c: char) { '0' <= c <= '9' }

  function DigitValue(c: char): nat
    requires IsDigit(c)
  {
    (c as int) - ('0' as int)
  }

  function DigitChar(d: nat): (c: char)
    requires d < 10
    ensures IsDigit(c) && DigitValue(c) == d
  {
    (('0' as int) + d) as char
  }

  /** A run of decimal digits in which single underscores may separate
      digits, as Python's `int` accepts. */
  predicate IsDigitRun(s: string) {
    && |s| >= 1 && IsDigit(s[0]) && IsDigit(s[|s| - 1])
    && (forall i :: 0 <= i < |s| ==> IsDigit(s[i]) || s[i] == '_')
    && (forall i :: 0 <= i < |s| - 1 ==> s[i] == '_' ==> s[i + 1] != '_')
  }

  /** Value of a digit run, underscores ignored. */
  function RunValue(s: string): nat
    requires forall i :: 0 <= i < |s| ==> IsDigit(s[i]) || s[i] == '_'
  {
    if s == [] then 0
    else if s[|s| - 1] == '_' then RunValue(s[..|s| - 1])
    else RunValue(s[..|s| - 1]) * 10 + DigitValue(s[|s| - 1])
  }

  /** Python's `int(s)` for base-10 text: surrounding white space, an
      optional sign and a digit run. `None` stands for the ValueError. */
  function ParseInt(s: string): (r: Option<int>)
    ensures r.Some? ==> Strip(s) != []
  {
    var t := Strip(s);
    if t == [] then None
    else
      var neg := t[0] == '-';
      var body := if t[0] == '-' || t[0] == '+' then t[1..] else t;
      if IsDigitRun(body) then Some(if neg then -(RunValue(body) as int) else RunValue(body) as int)
      else None
  }

  /** Python's `str(n)` for a natural number. */
  function NatToString(n: nat): (s: string)
    ensures |s| >= 1 && forall i :: 0 <= i < |s| ==> IsDigit(s[i])
  {
    if n < 10 then [DigitChar(n)]
    else NatToString(n / 10) + [DigitChar(n % 10)]
  }

  /** Python's `str(n)`. */
  function IntToString(n: int): string {
    if n < 0 then "-" + NatToString(-n) else NatToString(n)
  }

  lemma {:induction false} NatToStringValue(n: nat)
    ensures RunValue(NatToString(n)) == n
  {
    if n >= 10 {
      var s := NatToString(n);
      assert s[..|s| - 1] == NatToString(n / 10);
      NatToStringValue(n / 10);
    }
  }

  /** `int(str(n)) == n`: the decimal rendering reads back as the same number. */
  lemma IntToStringRoundTrip(n: int)
    ensures ParseInt(IntToString(n)) == Some(n)
  {
    var s := IntToString(n);
    var m: nat := if n < 0 then -n else n;
    var d := NatToString(m);
    NatToStringValue(m);
    DigitsAreRun(d);
    StripNoSpace(s);
    if n < 0 {
      assert s[1..] == d;
    } else {
      assert s == d;
    }
  }

  lemma DigitsAreRun(d: string)
    requires |d| >= 1 && forall i :: 0 <= i < |d| ==> IsDigit(d[i])
    ensures IsDigitRun(d)
  {
  }

  lemma StripNoSpace(s: string)
    requires s != [] && !IsSpace(s[0]) && !IsSpace(s[|s| - 1])
    ensures Strip(s) == s
  {
    StripCharacterized([], s, []);
    assert [] + s + [] == s;
  }
}
