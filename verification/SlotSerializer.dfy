/**
 SlotSerializer (src/astra/cluster/cluster_config.hpp): cluster slots as compact text such as
 "0-8191,10000,16382-16383".
 */
module SlotSerializer {
  import opened Common
  import opened Decimal

  const UINT16: nat := 0x1_0000
  const UINT64_LIMIT: nat := 0x1_0000_0000_0000_0000

  /** Slots are uint16_t values; a cluster uses those below 16384. */
  predicate AreSlots(s: seq<nat>) { forall i | 0 <= i < |s| :: s[i] < UINT16 }

  datatype Range = Range(lo: nat, hi: nat)

  // ----- Sorting and removing duplicates -----

  predicate Increasing(s: seq<nat>) { forall i, j | 0 <= i < j < |s| :: s[i] < s[j] }

  function Insert(s: seq<nat>, x: nat): seq<nat> {
    if s == [] then [x]
    else if x < s[0] then [x] + s
    else if x == s[0] then s
    else [s[0]] + Insert(s[1..], x)
  }

  /** std::sort followed by std::unique. */
  function Normalize(slots: seq<nat>): seq<nat> {
    if slots == [] then [] else Insert(Normalize(slots[..|slots| - 1]), slots[|slots| - 1])
  }

  lemma {:induction false} InsertSpec(s: seq<nat>, x: nat)
    requires Increasing(s)
    ensures Increasing(Insert(s, x)) && forall y :: y in Insert(s, x) <==> y in s || y == x
  {
    if s != [] && x > s[0] {
      InsertSpec(s[1..], x);
      var r := Insert(s[1..], x);
      assert s == [s[0]] + s[1..];
      forall j | 0 <= j < |r| ensures s[0] < r[j] {
        assert r[j] in r;
      }
    } else if s != [] {
      assert s == [s[0]] + s[1..];
    }
  }

  /** Sorted, without duplicates, and the same slots. */
  lemma {:induction false} NormalizeSpec(slots: seq<nat>)
    ensures Increasing(Normalize(slots)) && forall y :: y in Normalize(slots) <==> y in slots
  {
    if slots != [] {
      var init, x := slots[..|slots| - 1], slots[|slots| - 1];
      NormalizeSpec(init);
      InsertSpec(Normalize(init), x);
      assert slots == init + [x];
    }
  }

  lemma SameHead(a: seq<nat>, b: seq<nat>)
    requires a != [] && b != [] && Increasing(a) && Increasing(b) && a[0] in b && b[0] in a
    ensures a[0] == b[0]
  {
    var i :| 0 <= i < |b| && b[i] == a[0];
    var j :| 0 <= j < |a| && a[j] == b[0];
  }

  lemma TailWithoutHead(a: seq<nat>, y: nat)
    requires a != [] && Increasing(a)
    ensures y in a[1..] <==> y in a && y != a[0]
  {
    assert a == [a[0]] + a[1..];
  }

  lemma BothEmpty(a: seq<nat>, b: seq<nat>)
    requires forall y :: y in a <==> y in b
    ensures a == [] <==> b == []
  {
    if a != [] {
      assert a[0] in b;
    }
    if b != [] {
      assert b[0] in a;
    }
  }

  lemma {:induction false} IncreasingUnique(a: seq<nat>, b: seq<nat>)
    requires Increasing(a) && Increasing(b) && forall y :: y in a <==> y in b
    ensures a == b
  {
    BothEmpty(a, b);
    if a != [] {
      assert a[0] in b && b[0] in a;
      SameHead(a, b);
      forall y ensures y in a[1..] <==> y in b[1..] {
        TailWithoutHead(a, y);
        TailWithoutHead(b, y);
      }
      IncreasingUnique(a[1..], b[1..]);
      assert a == [a[0]] + a[1..] && b == [b[0]] + b[1..];
    }
  }

  // ----- Runs of consecutive slots -----

  function RunLen(s: seq<nat>): (n: nat)
    requires s != []
    ensures 0 < n <= |s|
  {
    if |s| > 1 && s[1] == s[0] + 1 then 1 + RunLen(s[1..]) else 1
  }

  function Ranges(s: seq<nat>): seq<Range> {
    if s == [] then [] else [Range(s[0], s[RunLen(s) - 1])] + Ranges(s[RunLen(s)..])
  }

  function Expand(r: Range): seq<nat> {
    if r.hi < r.lo then [] else seq(r.hi - r.lo + 1, i requires 0 <= i <= r.hi - r.lo => r.lo + i)
  }

  function Expander(): Range -> seq<nat> { (r: Range) => Expand(r) }

  function ExpandAll(rs: seq<Range>): seq<nat> { Flatten(Map(rs, Expander())) }

  lemma {:induction false} RunIsConsecutive(s: seq<nat>, k: nat)
    requires s != [] && k < RunLen(s)
    ensures s[k] == s[0] + k
  {
    if k > 0 {
      RunIsConsecutive(s[1..], k - 1);
    }
  }

  lemma {:induction false} RunIsMaximal(s: seq<nat>)
    requires s != [] && RunLen(s) < |s|
    ensures s[RunLen(s)] != s[RunLen(s) - 1] + 1
  {
    if RunLen(s) > 1 {
      RunIsMaximal(s[1..]);
    }
  }

  lemma ExpandIs(r: Range, xs: seq<nat>)
    requires r.lo <= r.hi && |xs| == r.hi - r.lo + 1 && forall k | 0 <= k < |xs| :: xs[k] == r.lo + k
    ensures Expand(r) == xs
  {
  }

  lemma RunExpands(s: seq<nat>)
    requires s != []
    ensures s[0] <= s[RunLen(s) - 1] && Expand(Range(s[0], s[RunLen(s) - 1])) == s[..RunLen(s)]
  {
    var n := RunLen(s);
    forall k | 0 <= k < n ensures s[k] == s[0] + k {
      RunIsConsecutive(s, k);
    }
    ExpandIs(Range(s[0], s[n - 1]), s[..n]);
  }

  lemma {:induction false} RangesOrdered(s: seq<nat>)
    ensures forall i | 0 <= i < |Ranges(s)| :: Ranges(s)[i].lo <= Ranges(s)[i].hi
  {
    if s != [] {
      RunExpands(s);
      RangesOrdered(s[RunLen(s)..]);
    }
  }

  /** The ranges are a faithful picture of the slots. */
  lemma {:induction false} RangesCover(s: seq<nat>)
    ensures ExpandAll(Ranges(s)) == s
  {
    if s == [] {
      assert Map(Ranges(s), Expander()) == [];
    } else {
      var n := RunLen(s);
      RangesCover(s[n..]);
      CoverStep(s, n, Range(s[0], s[n - 1]), Ranges(s[n..]));
    }
  }

  lemma CoverStep(s: seq<nat>, n: nat, r: Range, rest: seq<Range>)
    requires s != [] && n == RunLen(s) && r == Range(s[0], s[n - 1]) && ExpandAll(rest) == s[n..]
    ensures ExpandAll([r] + rest) == s
  {
    RunExpands(s);
    ExpandCons(r, rest);
    assert s == s[..n] + s[n..];
  }

  lemma ExpandCons(r: Range, rest: seq<Range>)
    ensures ExpandAll([r] + rest) == Expand(r) + ExpandAll(rest)
  {
    assert ([r] + rest)[1..] == rest;
    FlattenMapFront([r] + rest, Expander());
  }

  /** And the shortest one: no two ranges touch. */
  lemma {:induction false} RangesApart(s: seq<nat>)
    requires Increasing(s)
    ensures forall i | 0 < i < |Ranges(s)| :: Ranges(s)[i - 1].hi + 1 < Ranges(s)[i].lo
  {
    if s != [] {
      var n := RunLen(s);
      var rest := Ranges(s[n..]);
      RangesApart(s[n..]);
      if n < |s| {
        RunIsMaximal(s);
        assert rest[0].lo == s[n];
      }
      forall i | 0 < i < |Ranges(s)| ensures Ranges(s)[i - 1].hi + 1 < Ranges(s)[i].lo {
        if i > 1 {
          assert Ranges(s)[i - 1] == rest[i - 2] && Ranges(s)[i] == rest[i - 1];
        }
      }
    }
  }

  // ----- Text -----

  function PrintRange(r: Range): string {
    if r.lo == r.hi then Print(r.lo) else Print(r.lo) + "-" + Print(r.hi)
  }

  function Printer(): Range -> string { (r: Range) => PrintRange(r) }

  function Texts(rs: seq<Range>): seq<string> { Map(rs, Printer()) }

  function Join(parts: seq<string>): string {
    if parts == [] then ""
    else if |parts| == 1 then parts[0]
    else Join(parts[..|parts| - 1]) + "," + parts[|parts| - 1]
  }

  /** The text of a list of slots. */
  function Text(slots: seq<nat>): string { Join(Texts(Ranges(Normalize(slots)))) }

  /** The end of the run of consecutive slots that starts at position `i`. */
  method FindRunEnd(sorted: seq<nat>, i: nat) returns (last: nat)
    requires i < |sorted|
    ensures last == i + RunLen(sorted[i..]) - 1
  {
    last := i;
    while last + 1 < |sorted| && sorted[last + 1] == sorted[last] + 1
      invariant i <= last < |sorted| && i + RunLen(sorted[i..]) == last + RunLen(sorted[last..])
    {
      assert sorted[last..][1..] == sorted[last + 1..];
      last := last + 1;
    }
  }

  /** The text of the ranges written so far, with the comma that announces more. */
  function SoFar(done: seq<Range>, more: bool): string {
    Join(Texts(done)) + if more && done != [] then "," else ""
  }

  method Serialize(slots: seq<nat>) returns (result: string)
    ensures result == Text(slots)
  {
    var sorted := Normalize(slots);
    result := "";
    var i := 0;
    ghost var done: seq<Range>, all := [], Ranges(sorted);
    SerializeStart(sorted);
    while i < |sorted|
      invariant 0 <= i <= |sorted| && all == done + Ranges(sorted[i..])
      invariant result == SoFar(done, i < |sorted|)
    {
      var last := FindRunEnd(sorted, i);
      var r := Range(sorted[i], sorted[last]);
      SerializeStep(sorted, i, done);
      result := result + PrintRange(r);
      done := done + [r];
      i := last + 1;
      if i < |sorted| {
        result := result + ",";
      }
    }
    SerializeEnd(sorted, done);
  }

  lemma SerializeStart(sorted: seq<nat>)
    ensures Ranges(sorted) == [] + Ranges(sorted[0..]) && SoFar([], true) == SoFar([], false) == ""
  {
    assert sorted[0..] == sorted && Texts([]) == [];
  }

  lemma SerializeStep(s: seq<nat>, i: nat, done: seq<Range>)
    requires i < |s|
    ensures var n := RunLen(s[i..]);
      var r := Range(s[i], s[i + n - 1]);
      && done + Ranges(s[i..]) == done + [r] + Ranges(s[i + n..])
      && SoFar(done + [r], false) == SoFar(done, true) + PrintRange(r)
      && SoFar(done + [r], true) == SoFar(done, true) + PrintRange(r) + ","
  {
    var n := RunLen(s[i..]);
    assert s[i..][n..] == s[i + n..];
    RangesJoin(done, Range(s[i], s[i + n - 1]), Ranges(s[i + n..]));
    JoinPush(done, Range(s[i], s[i + n - 1]));
  }

  lemma RangesJoin(done: seq<Range>, r: Range, rest: seq<Range>)
    ensures done + ([r] + rest) == done + [r] + rest
  {
  }

  lemma SerializeEnd(sorted: seq<nat>, done: seq<Range>)
    requires Ranges(sorted) == done + Ranges(sorted[|sorted|..])
    ensures SoFar(done, false) == Join(Texts(Ranges(sorted)))
  {
    assert done + [] == done;
  }

  lemma JoinPush(rs: seq<Range>, r: Range)
    ensures SoFar(rs + [r], false) == SoFar(rs, true) + PrintRange(r)
    ensures SoFar(rs + [r], true) == SoFar(rs, true) + PrintRange(r) + ","
  {
    MapPush(rs, r, Printer());
    JoinGrows(Texts(rs), PrintRange(r));
  }

  lemma JoinGrows(parts: seq<string>, part: string)
    ensures Join(parts + [part]) == Join(parts) + (if parts == [] then "" else ",") + part
  {
    assert (parts + [part])[..|parts|] == parts;
  }

  /** The text depends on which slots are meant, not on their order or repetition. */
  lemma TextIsCanonical(a: seq<nat>, b: seq<nat>)
    requires forall y :: y in a <==> y in b
    ensures Text(a) == Text(b)
  {
    NormalizeSpec(a);
    NormalizeSpec(b);
    IncreasingUnique(Normalize(a), Normalize(b));
  }
}
