/** SlotSerializer's Deserialize and GetStats, and the round trip of slot texts. */
module SlotParsing {
  import opened Common
  import opened Decimal
  import opened SlotSerializer

  function Split(d: string): seq<string>
    decreases |d|
  {
    match Find(d, ',', 0)
    case None => [d]
    case Some(i) => [d[..i]] + Split(d[i + 1..])
  }

  method SplitByComma(data: string) returns (parts: seq<string>)
    ensures parts == Split(data)
  {
    parts := [];
    var start := 0;
    var end := Find(data, ',', 0);
    assert data[0..] == data && [] + Split(data) == Split(data);
    while end.Some?
      invariant start <= |data| && end == Find(data[start..], ',', 0) && parts + Split(data[start..]) == Split(data)
      decreases |data| - start
    {
      SplitStep(data, start, parts);
      parts := parts + [data[start..start + end.value]];
      start := start + end.value + 1;
      end := Find(data[start..], ',', 0);
    }
    parts := parts + [data[start..]];
  }

  lemma SplitStep(d: string, start: nat, parts: seq<string>)
    requires start <= |d| && Find(d[start..], ',', 0).Some?
    ensures var i := Find(d[start..], ',', 0).value;
      parts + Split(d[start..]) == parts + [d[start..start + i]] + Split(d[start + i + 1..])
  {
    var i := Find(d[start..], ',', 0).value;
    Slices(d, start, i);
    Regroup(parts, d[start..start + i], Split(d[start + i + 1..]));
  }

  lemma Slices(d: string, start: nat, i: nat)
    requires start + i < |d|
    ensures d[start..][..i] == d[start..start + i] && d[start..][i + 1..] == d[start + i + 1..]
  {
  }

  lemma Regroup(a: seq<string>, x: string, b: seq<string>)
    ensures a + ([x] + b) == a + [x] + b
  {
  }

  /** std::isspace in the C locale: the blank and the codes from tab to carriage return. */
  predicate IsSpace(c: char) { c == ' ' || 9 <= c as nat <= 13 }

  function SkipSpaces(s: string): string {
    if s != "" && IsSpace(s[0]) then SkipSpaces(s[1..]) else s
  }

  /**
   std::stoul: blanks, an optional sign and digits, whatever follows them. No digits and overflow
   throw; a minus sign negates in the unsigned type.
   */
  function Stoul(s: string): Option<nat> {
    var text := SkipSpaces(s);
    var negative := text != "" && text[0] == '-';
    var body := if negative || (text != "" && text[0] == '+') then text[1..] else text;
    var run := body[..RunLength(body)];
    if run == "" || Value(run) >= UINT64_LIMIT then None
    else if negative then Some((UINT64_LIMIT - Value(run)) % UINT64_LIMIT)
    else Some(Value(run))
  }

  /**
   One part of the text. None where the call does not return: the exception of stoul ends the
   process, and a range up to 65535 never leaves its loop because the uint16_t counter wraps.
   */
  function ParsePart(part: string): Option<seq<nat>> {
    match Find(part, '-', 0)
    case None => (match Stoul(part) case None => None case Some(n) => Some([n % UINT16]))
    case Some(i) =>
      match (Stoul(part[..i]), Stoul(part[i + 1..]))
      case (Some(a), Some(b)) => RangeSlots(a % UINT16, b % UINT16)
      case _ => None
  }

  function RangeSlots(lo: nat, hi: nat): Option<seq<nat>> {
    if lo <= hi == UINT16 - 1 then None else Some(Expand(Range(lo, hi)))
  }

  function Append(a: Option<seq<nat>>, b: Option<seq<nat>>): Option<seq<nat>> {
    if a.Some? && b.Some? then Some(a.value + b.value) else None
  }

  function ParseParts(parts: seq<string>): Option<seq<nat>> {
    if parts == [] then Some([])
    else Append(ParseParts(parts[..|parts| - 1]), ParsePart(parts[|parts| - 1]))
  }

  function Parsed(data: string): Option<seq<nat>> {
    if data == "" then Some([]) else ParseParts(Split(data))
  }

  lemma {:induction false} FailureStays(parts: seq<string>, n: nat)
    requires n <= |parts| && ParseParts(parts[..n]).None?
    ensures ParseParts(parts).None?
  {
    if n == |parts| {
      assert parts[..n] == parts;
    } else {
      assert parts[..|parts| - 1][..n] == parts[..n];
      FailureStays(parts[..|parts| - 1], n);
    }
  }

  /** The counting loop over one range. */
  method AddRange(slots: seq<nat>, lo: nat, hi: nat) returns (r: seq<nat>)
    requires hi < UINT16 - 1
    ensures r == slots + Expand(Range(lo, hi))
  {
    r := slots;
    var slot := lo;
    while slot <= hi
      invariant lo <= slot && (slot <= hi + 1 || slot == lo)
      invariant r == slots + Expand(Range(lo, hi))[..slot - lo]
    {
      var e := Expand(Range(lo, hi));
      assert e[..slot - lo + 1] == e[..slot - lo] + [slot];
      r := r + [slot];
      slot := slot + 1;
    }
    assert Expand(Range(lo, hi))[..slot - lo] == Expand(Range(lo, hi));
  }

  method AddPart(slots: seq<nat>, part: string) returns (r: Option<seq<nat>>)
    ensures r == Append(Some(slots), ParsePart(part))
  {
    var dash := Find(part, '-', 0);
    if dash.Some? {
      var a, b := Stoul(part[..dash.value]), Stoul(part[dash.value + 1..]);
      if a.None? || b.None? {
        return None;
      }
      var lo, hi := a.value % UINT16, b.value % UINT16;
      if lo <= hi && hi == UINT16 - 1 {
        return None;
      }
      if hi < lo {
        return Some(slots + []);
      }
      var added := AddRange(slots, lo, hi);
      return Some(added);
    }
    var n := Stoul(part);
    if n.None? {
      return None;
    }
    return Some(slots + [n.value % UINT16]);
  }

  method Deserialize(data: string) returns (r: Option<seq<nat>>)
    ensures r == Parsed(data)
  {
    if data == "" {
      return Some([]);
    }
    var parts := SplitByComma(data);
    var slots: seq<nat> := [];
    for i := 0 to |parts|
      invariant ParseParts(parts[..i]) == Some(slots)
    {
      assert parts[..i + 1][..i] == parts[..i];
      var next := AddPart(slots, parts[i]);
      if next.None? {
        FailureStays(parts, i + 1);
        return None;
      }
      slots := next.value;
    }
    assert parts[..|parts|] == parts;
    return Some(slots);
  }

  // ----- The round trip -----

  lemma {:induction false} SplitJoin(parts: seq<string>)
    requires parts != [] && forall i | 0 <= i < |parts| :: ',' !in parts[i]
    ensures Split(Join(parts)) == parts
  {
    if |parts| > 1 {
      JoinFront(parts);
      var d := Join(parts);
      assert d[..|parts[0]|] == parts[0] && d[|parts[0]| + 1..] == Join(parts[1..]);
      FindIs(d, ',', 0, |parts[0]|);
      SplitJoin(parts[1..]);
    }
  }

  lemma {:induction false} JoinFront(parts: seq<string>)
    requires |parts| > 1
    ensures Join(parts) == parts[0] + "," + Join(parts[1..])
  {
    if |parts| > 2 {
      var init := parts[..|parts| - 1];
      JoinFront(init);
      assert init[1..] == parts[1..][..|parts[1..]| - 1];
    }
  }

  lemma StoulOfPrint(n: nat)
    requires n < UINT64_LIMIT
    ensures Stoul(Print(n)) == Some(n)
  {
    assert Print(n) + "" == Print(n) && IsDigit(Print(n)[0]);
    PrintedRun(n, "");
    ValueOfPrint(n);
  }

  lemma NotInDigits(s: string, c: char)
    requires AllDigits(s) && !IsDigit(c)
    ensures c !in s
  {
  }

  /** A range the reader never finishes. */
  predicate Endless(r: Range) { r.lo < r.hi == UINT16 - 1 }

  lemma NoComma(r: Range)
    ensures ',' !in PrintRange(r)
  {
    NotInDigits(Print(r.lo), ',');
    NotInDigits(Print(r.hi), ',');
  }

  lemma SingleReads(n: nat)
    requires n < UINT16
    ensures ParsePart(Print(n)) == Some(Expand(Range(n, n)))
  {
    StoulOfPrint(n);
    NotInDigits(Print(n), '-');
    assert Expand(Range(n, n)) == [n];
  }

  lemma PairReads(r: Range)
    requires r.lo < r.hi < UINT16
    ensures ParsePart(Print(r.lo) + "-" + Print(r.hi)) == if Endless(r) then None else Some(Expand(r))
  {
    var lo, hi := Print(r.lo), Print(r.hi);
    StoulOfPrint(r.lo);
    StoulOfPrint(r.hi);
    NotInDigits(lo, '-');
    SplitAtDash(lo, hi);
    PairParses(lo + "-" + hi, |lo|, r);
  }

  lemma PairParses(part: string, i: nat, r: Range)
    requires r.lo < r.hi < UINT16 && Find(part, '-', 0) == Some(i)
    requires Stoul(part[..i]) == Some(r.lo) && Stoul(part[i + 1..]) == Some(r.hi)
    ensures ParsePart(part) == if Endless(r) then None else Some(Expand(r))
  {
    assert r.lo % UINT16 == r.lo && r.hi % UINT16 == r.hi;
    assert ParsePart(part) == RangeSlots(r.lo, r.hi);
  }

  lemma SplitAtDash(lo: string, hi: string)
    requires '-' !in lo
    ensures var d := lo + "-" + hi;
      Find(d, '-', 0) == Some(|lo|) && d[..|lo|] == lo && d[|lo| + 1..] == hi
  {
    var d := lo + "-" + hi;
    assert d[..|lo|] == lo && d[|lo| + 1..] == hi;
    FindIs(d, '-', 0, |lo|);
  }

  lemma RangeReads(r: Range)
    requires r.lo <= r.hi < UINT16
    ensures ParsePart(PrintRange(r)) == if Endless(r) then None else Some(Expand(r))
  {
    if r.lo == r.hi {
      SingleReads(r.lo);
    } else {
      PairReads(r);
    }
  }

  predicate Proper(rs: seq<Range>) { forall i | 0 <= i < |rs| :: rs[i].lo <= rs[i].hi < UINT16 }

  lemma {:induction false} RangesRead(rs: seq<Range>)
    requires Proper(rs) && forall i | 0 <= i < |rs| :: !Endless(rs[i])
    ensures ParseParts(Texts(rs)) == Some(ExpandAll(rs))
  {
    if rs == [] {
      assert Map(rs, Expander()) == [] && Texts(rs) == [];
    } else {
      var n := |rs| - 1;
      var init, last := rs[..n], rs[n];
      assert rs == init + [last];
      RangesRead(init);
      RangeReads(last);
      FlattenMapPush(init, last, Expander());
      MapPush(init, last, Printer());
      assert (Texts(init) + [PrintRange(last)])[..n] == Texts(init);
    }
  }

  lemma OneFailureFails(parts: seq<string>, i: nat)
    requires i < |parts| && ParsePart(parts[i]).None?
    ensures ParseParts(parts).None?
  {
    assert parts[..i + 1][..i] == parts[..i] && parts[..i + 1][i] == parts[i];
    FailureStays(parts, i + 1);
  }

  lemma EndlessFails(rs: seq<Range>, i: nat)
    requires Proper(rs) && i < |rs| && Endless(rs[i])
    ensures ParseParts(Texts(rs)).None?
  {
    RangeReads(rs[i]);
    assert Texts(rs)[i] == PrintRange(rs[i]);
    OneFailureFails(Texts(rs), i);
  }

  lemma {:induction false} RangesInside(s: seq<nat>, i: nat, x: nat)
    requires i < |Ranges(s)| && Ranges(s)[i].lo <= x <= Ranges(s)[i].hi
    ensures x in s
  {
    var n := RunLen(s);
    if i == 0 {
      RunExpands(s);
      assert Expand(Ranges(s)[0])[x - s[0]] == x;
      assert s[..n][x - s[0]] == x;
    } else {
      RangesInside(s[n..], i - 1, x);
    }
  }

  lemma {:induction false} LastRange(s: seq<nat>)
    requires s != []
    ensures Ranges(s) != [] && Ranges(s)[|Ranges(s)| - 1].hi == s[|s| - 1]
    ensures |s| > 1 && s[|s| - 2] + 1 == s[|s| - 1] ==> Ranges(s)[|Ranges(s)| - 1].lo < s[|s| - 1]
  {
    var n := RunLen(s);
    RunIsConsecutive(s, n - 1);
    if n < |s| {
      LastRange(s[n..]);
      RunIsMaximal(s);
    }
  }

  /** Some range is endless exactly when the two highest numbers are both present. */
  lemma EndlessIff(s: seq<nat>)
    requires Increasing(s) && AreSlots(s)
    ensures (exists i :: 0 <= i < |Ranges(s)| && Endless(Ranges(s)[i])) <==> UINT16 - 2 in s && UINT16 - 1 in s
  {
    if i :| 0 <= i < |Ranges(s)| && Endless(Ranges(s)[i]) {
      RangesInside(s, i, UINT16 - 2);
      RangesInside(s, i, UINT16 - 1);
    } else if UINT16 - 2 in s && UINT16 - 1 in s {
      HighestAreLast(s);
      LastRange(s);
    }
  }

  lemma HighestAreLast(s: seq<nat>)
    requires Increasing(s) && AreSlots(s) && UINT16 - 2 in s && UINT16 - 1 in s
    ensures |s| > 1 && s[|s| - 2] == UINT16 - 2 && s[|s| - 1] == UINT16 - 1
  {
    var i :| 0 <= i < |s| && s[i] == UINT16 - 2;
    var j :| 0 <= j < |s| && s[j] == UINT16 - 1;
    assert i < j && j == |s| - 1;
    assert s[i] <= s[j - 1] < s[j];
  }

  lemma RangesProper(s: seq<nat>)
    requires AreSlots(s)
    ensures Proper(Ranges(s))
  {
    RangesOrdered(s);
    forall i | 0 <= i < |Ranges(s)| ensures Ranges(s)[i].hi < UINT16 {
      RangesInside(s, i, Ranges(s)[i].hi);
    }
  }

  lemma TextSplits(s: seq<nat>)
    requires s != []
    ensures Join(Texts(Ranges(s))) != "" && Split(Join(Texts(Ranges(s)))) == Texts(Ranges(s))
  {
    var rs := Ranges(s);
    LastRange(s);
    forall i | 0 <= i < |rs| ensures ',' !in Texts(rs)[i] {
      NoComma(rs[i]);
    }
    SplitJoin(Texts(rs));
    assert PrintRange(rs[|rs| - 1]) != "";
  }

  lemma NormalizedSlots(slots: seq<nat>)
    requires AreSlots(slots)
    ensures AreSlots(Normalize(slots))
  {
    var s := Normalize(slots);
    NormalizeSpec(slots);
    forall i | 0 <= i < |s| ensures s[i] < UINT16 {
      assert s[i] in s && s[i] in slots;
    }
  }

  /**
   Reading a slot text back gives the slots sorted and without duplicates, if and only if 65534 and
   65535 are not both among them; on cluster slots, which are below 16384, always.
   */
  lemma SlotsRoundTripExact(slots: seq<nat>)
    requires AreSlots(slots)
    ensures Parsed(Text(slots)) == Some(Normalize(slots)) <==> !(UINT16 - 2 in slots && UINT16 - 1 in slots)
    ensures Parsed(Text(slots)).None? <==> UINT16 - 2 in slots && UINT16 - 1 in slots
  {
    var s := Normalize(slots);
    NormalizeSpec(slots);
    NormalizedSlots(slots);
    if s != [] {
      TextSplits(s);
      RangesProper(s);
      EndlessIff(s);
      RangesCover(s);
      if i :| 0 <= i < |Ranges(s)| && Endless(Ranges(s)[i]) {
        EndlessFails(Ranges(s), i);
      } else {
        RangesRead(Ranges(s));
      }
    }
  }

  /** Writing what was read back gives the same text. */
  lemma TextIsStable(slots: seq<nat>)
    requires AreSlots(slots) && Parsed(Text(slots)).Some?
    ensures Text(Parsed(Text(slots)).value) == Text(slots)
  {
    SlotsRoundTripExact(slots);
    NormalizeSpec(slots);
    TextIsCanonical(Parsed(Text(slots)).value, slots);
  }

  // ----- Statistics -----

  datatype Stats = Stats(slots: int, ranges: nat)

  /** What one part adds; a range is counted by subtraction, so one up to 65535 is no problem here. */
  function PartStats(part: string): Option<Stats> {
    match Find(part, '-', 0)
    case None => Some(Stats(1, 0))
    case Some(i) =>
      match (Stoul(part[..i]), Stoul(part[i + 1..]))
      case (Some(a), Some(b)) => Some(Stats(b % UINT16 - a % UINT16 + 1, 1))
      case _ => None
  }

  function Counter(): string -> Option<Stats> { (part: string) => PartStats(part) }

  function Sum(a: Option<Stats>, b: Option<Stats>): Option<Stats> {
    if a.Some? && b.Some? then Some(Stats(a.value.slots + b.value.slots, a.value.ranges + b.value.ranges)) else None
  }

  function Total(xs: seq<Option<Stats>>): Option<Stats> {
    if xs == [] then Some(Stats(0, 0)) else Sum(Total(xs[..|xs| - 1]), xs[|xs| - 1])
  }

  function PartsStats(parts: seq<string>): Option<Stats> { Total(Map(parts, Counter())) }

  lemma TotalPush(xs: seq<Option<Stats>>, x: Option<Stats>)
    ensures Total(xs + [x]) == Sum(Total(xs), x)
  {
    assert (xs + [x])[..|xs|] == xs;
  }

  lemma {:induction false} TotalFails(xs: seq<Option<Stats>>, i: nat)
    requires i < |xs| && xs[i].None?
    ensures Total(xs).None?
  {
    if i < |xs| - 1 {
      TotalFails(xs[..|xs| - 1], i);
    }
  }

  /** The counting loop, for any way to count one part. */
  method AddUp(parts: seq<string>, count: string -> Option<Stats>) returns (r: Option<Stats>)
    ensures r == Total(Map(parts, count))
  {
    var slots: int, ranges: nat := 0, 0;
    assert Map(parts[..0], count) == [];
    for i := 0 to |parts|
      invariant Total(Map(parts[..i], count)) == Some(Stats(slots, ranges))
    {
      assert parts[..i + 1] == parts[..i] + [parts[i]];
      MapPush(parts[..i], parts[i], count);
      TotalPush(Map(parts[..i], count), count(parts[i]));
      var one := count(parts[i]);
      if one.None? {
        TotalFails(Map(parts, count), i);
        return None;
      }
      slots, ranges := slots + one.value.slots, ranges + one.value.ranges;
    }
    assert parts[..|parts|] == parts;
    return Some(Stats(slots, ranges));
  }

  method GetStats(data: string) returns (r: Option<Stats>)
    ensures r == PartsStats(if data == "" then [] else Split(data))
  {
    var parts: seq<string> := [];
    if data != "" {
      parts := SplitByComma(data);
    }
    r := AddUp(parts, Counter());
  }

  function SumOf<T>(xs: seq<T>, f: T -> nat): nat {
    if xs == [] then 0 else SumOf(xs[..|xs| - 1], f) + f(xs[|xs| - 1])
  }

  function Long(): Range -> nat { (r: Range) => if r.lo < r.hi then 1 else 0 }

  /** How many ranges are not single slots. */
  function LongRanges(rs: seq<Range>): nat { SumOf(rs, Long()) }

  lemma SumOfPush<T>(xs: seq<T>, x: T, f: T -> nat)
    ensures SumOf(xs + [x], f) == SumOf(xs, f) + f(x)
  {
    assert (xs + [x])[..|xs|] == xs;
  }

  /** Counting element by element counts the whole. */
  lemma {:induction false} TotalCounts<T>(
      xs: seq<T>, stats: T -> Option<Stats>, expand: T -> seq<nat>, long: T -> nat)
    requires forall i | 0 <= i < |xs| :: stats(xs[i]) == Some(Stats(|expand(xs[i])|, long(xs[i])))
    ensures Total(Map(xs, stats)) == Some(Stats(|Flatten(Map(xs, expand))|, SumOf(xs, long)))
  {
    if xs == [] {
      assert Map(xs, stats) == [] && Map(xs, expand) == [];
    } else {
      var init, last := xs[..|xs| - 1], xs[|xs| - 1];
      assert xs == init + [last];
      TotalCounts(init, stats, expand, long);
      MapPush(init, last, stats);
      TotalPush(Map(init, stats), stats(last));
      FlattenMapPush(init, last, expand);
      SumOfPush(init, last, long);
    }
  }

  lemma RangeCounts(r: Range)
    requires r.lo <= r.hi < UINT16
    ensures PartStats(PrintRange(r)) == Some(Stats(|Expand(r)|, Long()(r)))
  {
    var lo, hi := Print(r.lo), Print(r.hi);
    StoulOfPrint(r.lo);
    StoulOfPrint(r.hi);
    NotInDigits(lo, '-');
    if r.lo < r.hi {
      SplitAtDash(lo, hi);
      PairCounts(lo + "-" + hi, |lo|, r);
    }
  }

  lemma PairCounts(part: string, i: nat, r: Range)
    requires r.lo < r.hi < UINT16 && Find(part, '-', 0) == Some(i)
    requires Stoul(part[..i]) == Some(r.lo) && Stoul(part[i + 1..]) == Some(r.hi)
    ensures PartStats(part) == Some(Stats(r.hi - r.lo + 1, 1))
  {
    assert r.lo % UINT16 == r.lo && r.hi % UINT16 == r.hi;
  }

  function RangeStats(): Range -> Option<Stats> { (r: Range) => PartStats(PrintRange(r)) }

  lemma RangesCount(rs: seq<Range>)
    requires Proper(rs)
    ensures PartsStats(Texts(rs)) == Some(Stats(|ExpandAll(rs)|, LongRanges(rs)))
  {
    assert Map(Texts(rs), Counter()) == Map(rs, RangeStats());
    forall i | 0 <= i < |rs| ensures RangeStats()(rs[i]) == Some(Stats(|Expander()(rs[i])|, Long()(rs[i]))) {
      RangeCounts(rs[i]);
    }
    TotalCounts(rs, RangeStats(), Expander(), Long());
  }

  /** The statistics of a serialized text count exactly the distinct slots and the long ranges. */
  lemma StatsAreExact(slots: seq<nat>)
    requires AreSlots(slots)
    ensures PartsStats(if Text(slots) == "" then [] else Split(Text(slots)))
         == Some(Stats(|Normalize(slots)|, LongRanges(Ranges(Normalize(slots)))))
  {
    var s := Normalize(slots);
    NormalizedSlots(slots);
    if s != [] {
      TextSplits(s);
    }
    RangesProper(s);
    RangesCount(Ranges(s));
    RangesCover(s);
    assert s == [] ==> Texts(Ranges(s)) == [];
  }
}
