/** `Maker.valid_order` in make.py: the order in which the requested
    targets run. */
module Targets {

  /** The requested targets with every `clean` dropped, in their order,
      duplicates kept. */
  function WithoutClean(raw: seq<string>): (r: seq<string>)
    ensures |r| <= |raw|
    ensures "clean" !in r
  {
    if raw == [] then []
    else if raw[0] == "clean" then WithoutClean(raw[1..])
    else [raw[0]] + WithoutClean(raw[1..])
  }

  /** The order `valid_order` produces: `help` alone if requested; else
      `clean` once at the front if requested, then the other targets;
      `all` when that leaves nothing. */
  function Order(raw: seq<string>): (r: seq<string>)
    ensures r != []
  {
    if "help" in raw then ["help"]
    else
      var valid := (if "clean" in raw then ["clean"] else []) + WithoutClean(raw);
      if valid == [] then ["all"] else valid
  }

  /** `valid_order`, appending to `valid` as the source does. */
  method ValidOrder(raw: seq<string>) returns (valid: seq<string>)
    ensures valid == Order(raw)
  {
    if "help" in raw {
      return ["help"];
    }
    valid := [];
    if "clean" in raw {
      valid := valid + ["clean"];
    }
    ghost var front := valid;
    for i := 0 to |raw|
      invariant valid == front + WithoutClean(raw[..i])
    {
      WithoutCleanAppend(raw[..i], [raw[i]]);
      assert raw[..i + 1] == raw[..i] + [raw[i]];
      if raw[i] != "clean" {
        valid := valid + [raw[i]];
      }
    }
    assert raw[..|raw|] == raw;
    if valid == [] {
      return ["all"];
    }
  }

  // ---- the filter ----

  lemma {:induction false} WithoutCleanAppend(a: seq<string>, b: seq<string>)
    ensures WithoutClean(a + b) == WithoutClean(a) + WithoutClean(b)
  {
    if a == [] {
      assert a + b == b;
    } else {
      assert (a + b)[1..] == a[1..] + b;
      WithoutCleanAppend(a[1..], b);
    }
  }

  /** Exactly the `clean`s are dropped: every other target keeps its number
      of occurrences. */
  lemma {:induction false} WithoutCleanCounts(raw: seq<string>)
    ensures multiset(WithoutClean(raw)) == multiset(raw)["clean" := 0]
  {
    if raw != [] {
      WithoutCleanCounts(raw[1..]);
      assert raw == [raw[0]] + raw[1..];
    }
  }

  /** Without `clean` the filter keeps everything. */
  lemma {:induction false} WithoutCleanKeepsAll(raw: seq<string>)
    requires "clean" !in raw
    ensures WithoutClean(raw) == raw
  {
    if raw != [] {
      assert "clean" !in raw[1..] by {
        assert forall i :: 0 <= i < |raw[1..]| ==> raw[1..][i] == raw[i + 1];
      }
      WithoutCleanKeepsAll(raw[1..]);
    }
  }

  /** Every kept target was requested. */
  lemma {:induction false} WithoutCleanMember(raw: seq<string>, k: int)
    requires 0 <= k < |WithoutClean(raw)|
    ensures exists q :: 0 <= q < |raw| && raw[q] == WithoutClean(raw)[k]
  {
    if raw[0] == "clean" {
      WithoutCleanMember(raw[1..], k);
      var q :| 0 <= q < |raw[1..]| && raw[1..][q] == WithoutClean(raw[1..])[k];
      assert raw[q + 1] == raw[1..][q];
    } else if k > 0 {
      WithoutCleanMember(raw[1..], k - 1);
      var q :| 0 <= q < |raw[1..]| && raw[1..][q] == WithoutClean(raw[1..])[k - 1];
      assert raw[q + 1] == raw[1..][q];
    }
  }

  // ---- properties of the order ----

  /** `help` anywhere preempts every other target. */
  lemma HelpPreempts(raw: seq<string>, k: int)
    requires 0 <= k < |raw| && raw[k] == "help"
    ensures Order(raw) == ["help"]
  {
  }

  /** An empty request is `all`, and only `[]` and `['all']` give `['all']`. */
  lemma AllByDefault(raw: seq<string>)
    ensures Order(raw) == ["all"] <==> raw == [] || raw == ["all"]
  {
    if "help" !in raw && "clean" !in raw {
      WithoutCleanKeepsAll(raw);
    }
  }

  /** With `clean` requested (and no `help`), `clean` runs first and once,
      followed by the other targets in request order, duplicates kept. */
  lemma CleanHoisted(raw: seq<string>)
    requires "help" !in raw && "clean" in raw
    ensures Order(raw) == ["clean"] + WithoutClean(raw)
    ensures multiset(Order(raw)) == multiset(raw)["clean" := 1]
  {
    WithoutCleanCounts(raw);
  }

  /** Without `help` or `clean`, a non-empty request runs as given. */
  lemma PlainRequestUnchanged(raw: seq<string>)
    requires raw != [] && "help" !in raw && "clean" !in raw
    ensures Order(raw) == raw
  {
    WithoutCleanKeepsAll(raw);
  }

  /** Ordering an order changes nothing. */
  lemma OrderIdempotent(raw: seq<string>)
    ensures Order(Order(raw)) == Order(raw)
  {
    var o := Order(raw);
    if "help" !in raw {
      if "clean" in raw {
        WithoutCleanKeepsAll(WithoutClean(raw));
        assert o[1..] == WithoutClean(raw);
        assert "help" !in o by {
          assert forall i :: 0 <= i < |WithoutClean(raw)| ==> WithoutClean(raw)[i] != "help" by {
            forall i | 0 <= i < |WithoutClean(raw)| ensures WithoutClean(raw)[i] != "help" {
              WithoutCleanMember(raw, i);
            }
          }
        }
        assert WithoutClean(o) == WithoutClean(raw) by {
          assert o == ["clean"] + WithoutClean(raw);
          WithoutCleanAppend(["clean"], WithoutClean(raw));
          assert WithoutClean(["clean"]) == [] by {
            assert ["clean"][1..] == [];
          }
        }
      } else if WithoutClean(raw) != [] {
        WithoutCleanKeepsAll(raw);
        assert [] + raw == raw;
        assert o == raw;
      }
    }
  }
}
