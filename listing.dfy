/** The part of `make_all` that reads the sqlite.org download page: the
    `PRODUCT` lines naming a Windows DLL or amalgamation archive, and the
    descriptor each one gives (sub-URL, size, SHA3-256 checksum). */
module Listing {
  import opened Wrappers
  import opened Text

  /** One download: `{'suburl': ..., 'size': ..., 'sha3sum': ...}`. */
  datatype Descriptor = Descriptor(suburl: string, size: int, sha3sum: string)

  /** The exceptions the comprehension can raise: a missing comma field
      (IndexError) or a size that `int` rejects (ValueError). */
  datatype ParseError = IndexError | ValueError

  /** A line kept by the filter: it starts with `PRODUCT` and names a
      Windows DLL archive or the amalgamation. */
  predicate IsProductLine(line: string) {
    StartsWith(line, "PRODUCT") && (Contains(line, "dll-win") || Contains(line, "amalgam"))
  }

  /** `[line for line in lines if IsProductLine(line)]`. */
  function ProductLines(lines: seq<string>): (r: seq<string>)
    ensures |r| <= |lines|
    ensures forall i :: 0 <= i < |r| ==> IsProductLine(r[i])
  {
    if lines == [] then []
    else if IsProductLine(lines[0]) then [lines[0]] + ProductLines(lines[1..])
    else ProductLines(lines[1..])
  }

  /** The filter works line by line: filtering a concatenation filters each
      part, so kept lines stay in listing order. */
  lemma {:induction false} ProductLinesAppend(a: seq<string>, b: seq<string>)
    ensures ProductLines(a + b) == ProductLines(a) + ProductLines(b)
  {
    if a != [] {
      assert (a + b)[1..] == a[1..] + b;
      ProductLinesAppend(a[1..], b);
    } else {
      assert a + b == b;
    }
  }

  /** A line is kept exactly when it is in the listing and passes the
      test. */
  lemma {:induction false} ProductLinesMembers(lines: seq<string>, line: string)
    ensures line in ProductLines(lines) <==> line in lines && IsProductLine(line)
  {
    if lines != [] {
      ProductLinesMembers(lines[1..], line);
      assert lines == [lines[0]] + lines[1..];
    }
  }

  /** The descriptor of one kept line, evaluated in dictionary-display
      order: `l[2]`, then `int(l[3])`, then `l[4]`. */
  function ParseDescriptor(line: string): (r: Result<Descriptor, ParseError>)
    ensures r.Ok? <==> |Split(line, ',')| >= 5 && ParseInt(Split(line, ',')[3]).Some?
    ensures r.Ok? ==> r.value == Descriptor(Split(line, ',')[2], ParseInt(Split(line, ',')[3]).value, Split(line, ',')[4])
    ensures r == Err(ValueError) <==> |Split(line, ',')| >= 4 && ParseInt(Split(line, ',')[3]).None?
  {
    var l := Split(line, ',');
    if |l| < 3 then Err(IndexError)
    else if |l| < 4 then Err(IndexError)
    else match ParseInt(l[3])
      case None => Err(ValueError)
      case Some(size) => if |l| < 5 then Err(IndexError) else Ok(Descriptor(l[2], size, l[4]))
  }

  /** The list comprehension over the kept lines: every descriptor in
      order, or the first exception. */
  function ParseLines(lines: seq<string>): (r: Result<seq<Descriptor>, ParseError>)
    ensures r.Ok? <==> forall i :: 0 <= i < |lines| ==> ParseDescriptor(lines[i]).Ok?
    ensures r.Ok? ==> |r.value| == |lines| && forall i :: 0 <= i < |lines| ==> r.value[i] == ParseDescriptor(lines[i]).value
    ensures r.Err? ==> exists k :: 0 <= k < |lines| && FirstFailure(lines, k) && r.error == ParseDescriptor(lines[k]).error
  {
    if lines == [] then Ok([])
    else
      match ParseDescriptor(lines[0])
      case Err(e) =>
        assert FirstFailure(lines, 0);
        Err(e)
      case Ok(d) =>
        var rest := ParseLines(lines[1..]);
        ShiftFailure(lines);
        if rest.Err? then Err(rest.error) else Ok([d] + rest.value)
  }

  /** Line `k` is the first whose descriptor cannot be built. */
  predicate FirstFailure(lines: seq<string>, k: int)
    requires 0 <= k < |lines|
  {
    ParseDescriptor(lines[k]).Err? && forall j :: 0 <= j < k ==> ParseDescriptor(lines[j]).Ok?
  }

  lemma ShiftFailure(lines: seq<string>)
    requires lines != [] && ParseDescriptor(lines[0]).Ok?
    ensures forall k :: 0 <= k < |lines| - 1 ==> (FirstFailure(lines[1..], k) <==> FirstFailure(lines, k + 1))
  {
    forall k | 0 <= k < |lines| - 1
      ensures FirstFailure(lines[1..], k) <==> FirstFailure(lines, k + 1)
    {
      assert forall j :: 0 <= j < k ==> lines[1..][j] == lines[j + 1];
    }
  }

  /** The whole page: split on `'\n'` (lines keep any `'\r'`), filtered,
      parsed. */
  function ParseListing(page: string): Result<seq<Descriptor>, ParseError> {
    ParseLines(ProductLines(Split(page, '\n')))
  }

  /** A `PRODUCT` line as the download page writes it:
      `PRODUCT,<version>,<suburl>,<size>,<sha3sum>`. */
  function FormatLine(version: string, d: Descriptor): string {
    Text.Join(["PRODUCT", version, d.suburl, IntToString(d.size), d.sha3sum], ',')
  }

  /** Comma-free text. */
  predicate NoComma(s: string) { ',' !in s }

  /** Parsing a formatted line gives the descriptor back. */
  lemma FormatParses(version: string, d: Descriptor)
    requires NoComma(version) && NoComma(d.suburl) && NoComma(d.sha3sum)
    ensures ParseDescriptor(FormatLine(version, d)) == Ok(d)
  {
    var fields := ["PRODUCT", version, d.suburl, IntToString(d.size), d.sha3sum];
    IntToStringNoComma(d.size);
    SplitJoin(fields, ',');
    IntToStringRoundTrip(d.size);
  }

  lemma IntToStringNoComma(n: int)
    ensures NoComma(IntToString(n))
  {
    var s := IntToString(n);
    assert forall i :: 0 <= i < |s| ==> s[i] != ',' by {
      if n < 0 {
        assert forall i :: 1 <= i < |s| ==> s[i] == NatToString(-n)[i - 1];
      }
    }
  }

  /** A formatted line whose sub-URL names a DLL archive or the
      amalgamation is kept by the filter. */
  lemma FormatKeptByFilter(version: string, d: Descriptor)
    requires Contains(d.suburl, "dll-win") || Contains(d.suburl, "amalgam")
    ensures IsProductLine(FormatLine(version, d))
  {
    var line := FormatLine(version, d);
    var pre := "PRODUCT," + version + ",";
    var post := "," + IntToString(d.size) + "," + d.sha3sum;
    var size := IntToString(d.size);
    JoinCons(size, [d.sha3sum], ',');
    JoinCons(d.suburl, [size, d.sha3sum], ',');
    JoinCons(version, [d.suburl, size, d.sha3sum], ',');
    JoinCons("PRODUCT", [version, d.suburl, size, d.sha3sum], ',');
    assert line == pre + d.suburl + post;
    assert line[..7] == "PRODUCT";
    if Contains(d.suburl, "dll-win") {
      ContainsInside(pre, d.suburl, post, "dll-win");
    } else {
      ContainsInside(pre, d.suburl, post, "amalgam");
    }
  }

  lemma JoinCons(x: string, rest: seq<string>, sep: char)
    requires rest != []
    ensures Text.Join([x] + rest, sep) == x + [sep] + Text.Join(rest, sep)
  {
    assert ([x] + rest)[1..] == rest;
  }

  lemma ContainsInside(pre: string, mid: string, post: string, sub: string)
    requires Contains(mid, sub)
    ensures Contains(pre + mid + post, sub)
  {
    var i :| 0 <= i <= |mid| - |sub| && OccursAt(mid, sub, i);
    var s := pre + mid + post;
    assert s[|pre| + i..|pre| + i + |sub|] == mid[i..i + |sub|];
    assert OccursAt(s, sub, |pre| + i);
  }
}
