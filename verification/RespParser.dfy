/**
 The RESP parser (src/astra/protocol/resp/resp_parser.cpp): the general recursive parser, and the
 fast path that reads a command straight from the bytes of an array.

 Parsers return the value and the unread rest; None stands for both "incomplete" and "malformed",
 as in the source. `atod` is the conversion of RESP3 doubles.
 */
module RespParser {
  import opened Common
  import opened Commands
  import opened Decimal

  const INT_MAX: int := 0x7FFF_FFFF

  type Atod = string -> Option<real>

  datatype RespValue =
    | Simple(text: string)
    | Error(text: string)
    | Number(n: int)
    | Bulk(text: string)
    | NullBulk
    | Array(items: seq<RespValue>)
    | NullArray
    | NullValue
    | Boolean(b: bool)
    | Double(d: real)

  datatype Parsed<+T> = Parsed(value: T, rest: string)

  predicate CrlfAt(d: string, i: nat) { i + 1 < |d| && d[i] == '\r' && d[i + 1] == '\n' }

  function FindCrlf(d: string, from: nat): (r: Option<nat>)
    requires from <= |d|
    ensures r.Some? ==> from <= r.value && CrlfAt(d, r.value) && forall i | from <= i < r.value :: !CrlfAt(d, i)
    ensures r.None? ==> forall i | from <= i :: !CrlfAt(d, i)
    decreases |d| - from
  {
    if from == |d| then None
    else if CrlfAt(d, from) then Some(from)
    else FindCrlf(d, from + 1)
  }

  /** ReadUntilCRLF. */
  function ReadLine(d: string): (r: Option<Parsed<string>>)
    ensures r.Some? ==> |r.value.rest| + |r.value.value| + 2 == |d|
  {
    match FindCrlf(d, 0)
    case None => None
    case Some(i) => Some(Parsed(d[..i], d[i + 2..]))
  }

  function Parse(atod: Atod, d: string): (r: Option<Parsed<RespValue>>)
    ensures r.Some? ==> |r.value.rest| < |d|
    decreases |d|, 0
  {
    if d == "" then None
    else
      match ReadLine(d[1..])
      case None => None
      case Some(Parsed(line, rest)) => ParseTyped(atod, d, line, rest)
  }

  /** The parsers behind the type byte; each begins by reading a line. */
  function ParseTyped(atod: Atod, d: string, line: string, rest: string): (r: Option<Parsed<RespValue>>)
    requires d != "" && |rest| < |d|
    ensures r.Some? ==> |r.value.rest| < |d|
    decreases |rest|, 3
  {
    match d[0]
    case '+' => Some(Parsed(Simple(line), rest))
    case '-' => Some(Parsed(Error(line), rest))
    case ':' => (match ParseInt(line) case None => None case Some(n) => Some(Parsed(Number(n), rest)))
    case '$' => ParseBulk(line, rest)
    case '*' => ParseArray(atod, line, rest)
    case '_' => if line == "" then Some(Parsed(NullValue, rest)) else None
    case '#' =>
      if line == "t" then Some(Parsed(Boolean(true), rest))
      else if line == "f" then Some(Parsed(Boolean(false), rest))
      else None
    case ',' => (match atod(line) case None => None case Some(x) => Some(Parsed(Double(x), rest)))
    case _ => None
  }

  /** The two bytes after the payload are skipped, whatever they are. */
  function ParseBulk(line: string, rest: string): (r: Option<Parsed<RespValue>>)
    ensures r.Some? ==> |r.value.rest| <= |rest|
  {
    match ParseInt(line)
    case None => None
    case Some(n) =>
      if n == -1 then Some(Parsed(NullBulk, rest))
      else if n < 0 || |rest| < n + 2 then None
      else Some(Parsed(Bulk(rest[..n]), rest[n + 2..]))
  }

  function ParseArray(atod: Atod, line: string, rest: string): (r: Option<Parsed<RespValue>>)
    ensures r.Some? ==> |r.value.rest| <= |rest|
    decreases |rest|, 2
  {
    match ParseInt(line)
    case None => None
    case Some(n) =>
      if n == -1 then Some(Parsed(NullArray, rest))
      else if n < 0 then None
      else
        match ParseMany(atod, rest, n)
        case None => None
        case Some(Parsed(items, after)) => Some(Parsed(Array(items), after))
  }

  function ParseMany(atod: Atod, d: string, n: nat): (r: Option<Parsed<seq<RespValue>>>)
    ensures r.Some? ==> |r.value.rest| <= |d| && |r.value.value| == n
    decreases |d|, 1
  {
    if n == 0 then Some(Parsed([], d))
    else
      match Parse(atod, d)
      case None => None
      case Some(Parsed(x, rest)) =>
        match ParseMany(atod, rest, n - 1)
        case None => None
        case Some(Parsed(xs, after)) => Some(Parsed([x] + xs, after))
  }

  // ----- More input never changes what a complete value parses to -----

  lemma FindCrlfIs(d: string, from: nat, i: nat)
    requires from <= i && CrlfAt(d, i) && forall j | from <= j < i :: !CrlfAt(d, j)
    ensures FindCrlf(d, from) == Some(i)
  {
  }

  lemma ReadLineExtends(d: string, e: string)
    requires ReadLine(d).Some?
    ensures ReadLine(d + e) == Some(Parsed(ReadLine(d).value.value, ReadLine(d).value.rest + e))
  {
    var i := FindCrlf(d, 0).value;
    forall j | 0 <= j < i ensures !CrlfAt(d + e, j) {
      assert !CrlfAt(d, j);
    }
    FindCrlfIs(d + e, 0, i);
    assert (d + e)[..i] == d[..i] && (d + e)[i + 2..] == d[i + 2..] + e;
  }

  function Extend<T>(r: Option<Parsed<T>>, e: string): Option<Parsed<T>> {
    match r
    case None => None
    case Some(p) => Some(Parsed(p.value, p.rest + e))
  }

  lemma {:induction false} ParseExtends(atod: Atod, d: string, e: string)
    requires Parse(atod, d).Some?
    ensures Parse(atod, d + e) == Extend(Parse(atod, d), e)
    decreases |d|, 0
  {
    assert (d + e)[1..] == d[1..] + e;
    ReadLineExtends(d[1..], e);
    var line, rest := ReadLine(d[1..]).value.value, ReadLine(d[1..]).value.rest;
    if d[0] == '*' {
      ParseArrayExtends(atod, line, rest, e);
    } else if d[0] == '$' {
      ParseBulkExtends(line, rest, e);
    }
  }

  lemma ParseBulkExtends(line: string, rest: string, e: string)
    requires ParseBulk(line, rest).Some?
    ensures ParseBulk(line, rest + e) == Extend(ParseBulk(line, rest), e)
  {
    var n := ParseInt(line).value;
    if n >= 0 {
      assert (rest + e)[..n] == rest[..n] && (rest + e)[n + 2..] == rest[n + 2..] + e;
    }
  }

  lemma {:induction false} ParseArrayExtends(atod: Atod, line: string, rest: string, e: string)
    requires ParseArray(atod, line, rest).Some?
    ensures ParseArray(atod, line, rest + e) == Extend(ParseArray(atod, line, rest), e)
    decreases |rest|, 2
  {
    var n := ParseInt(line).value;
    if n >= 0 {
      ParseManyExtends(atod, rest, n, e);
    }
  }

  lemma {:induction false} ParseManyExtends(atod: Atod, d: string, n: nat, e: string)
    requires ParseMany(atod, d, n).Some?
    ensures ParseMany(atod, d + e, n) == Extend(ParseMany(atod, d, n), e)
    decreases |d|, 1
  {
    if n > 0 {
      ParseExtends(atod, d, e);
      ParseManyExtends(atod, Parse(atod, d).value.rest, n - 1, e);
    }
  }

  // ----- A parser leaves a suffix of its input -----

  predicate IsSuffix(rest: string, d: string) {
    |rest| <= |d| && rest == d[|d| - |rest|..]
  }

  lemma SuffixTrans(a: string, b: string, c: string)
    requires IsSuffix(a, b) && IsSuffix(b, c)
    ensures IsSuffix(a, c)
  {
  }

  lemma {:induction false} ParseIsSuffix(atod: Atod, d: string)
    requires Parse(atod, d).Some?
    ensures IsSuffix(Parse(atod, d).value.rest, d)
    decreases |d|, 0
  {
    var line, rest := ReadLine(d[1..]).value.value, ReadLine(d[1..]).value.rest;
    assert IsSuffix(rest, d);
    TypedIsSuffix(atod, d, line, rest);
    SuffixTrans(Parse(atod, d).value.rest, rest, d);
  }

  lemma {:induction false} TypedIsSuffix(atod: Atod, d: string, line: string, rest: string)
    requires d != "" && |rest| < |d| && ParseTyped(atod, d, line, rest).Some?
    ensures IsSuffix(ParseTyped(atod, d, line, rest).value.rest, rest)
    decreases |rest|, 3
  {
    if d[0] == '*' && ParseInt(line) != Some(-1) {
      ParseManyIsSuffix(atod, rest, ParseInt(line).value);
    }
  }

  lemma {:induction false} ParseManyIsSuffix(atod: Atod, d: string, n: nat)
    requires ParseMany(atod, d, n).Some?
    ensures IsSuffix(ParseMany(atod, d, n).value.rest, d)
    decreases |d|, 1
  {
    if n > 0 {
      var rest := Parse(atod, d).value.rest;
      ParseIsSuffix(atod, d);
      ParseManyIsSuffix(atod, rest, n - 1);
      SuffixTrans(ParseMany(atod, d, n).value.rest, rest, d);
    }
  }

  // ----- Commands -----

  /** ToCommandArg. */
  function ToArg(v: RespValue): Option<CommandArg> {
    match v
    case Bulk(t) => Some(CommandArg(BulkString, t))
    case Simple(t) => Some(CommandArg(SimpleString, t))
    case Number(n) => Some(CommandArg(Integer, PrintInt(n)))
    case NullBulk => Some(CommandArg(Null, ""))
    case NullArray => Some(CommandArg(Null, ""))
    case NullValue => Some(CommandArg(Null, ""))
    case _ => None
  }

  function ToArgs(vs: seq<RespValue>): Option<seq<CommandArg>> {
    if vs == [] then Some([])
    else
      match (ToArgs(vs[..|vs| - 1]), ToArg(vs[|vs| - 1]))
      case (Some(args), Some(arg)) => Some(args + [arg])
      case _ => None
  }

  lemma {:induction false} ToArgsPrefix(vs: seq<RespValue>, n: nat)
    requires n <= |vs| && ToArgs(vs[..n]).None?
    ensures ToArgs(vs).None?
  {
    if n < |vs| {
      assert vs[..|vs| - 1][..n] == vs[..n];
      ToArgsPrefix(vs[..|vs| - 1], n);
    } else {
      assert vs[..n] == vs;
    }
  }

  /** What a command is: a non-empty array of a bulk name and convertible arguments. */
  function CommandOf(items: seq<RespValue>): Option<Command> {
    if items == [] || !items[0].Bulk? then None
    else
      match ToArgs(items[1..])
      case None => None
      case Some(args) => Some(Command(items[0].text, args))
  }

  method ParseCommand(value: RespValue) returns (r: Option<Command>)
    ensures r == if value.Array? then CommandOf(value.items) else None
  {
    if !value.Array? || value.items == [] || !value.items[0].Bulk? {
      return None;
    }
    var arr := value.items;
    var args: seq<CommandArg> := [];
    for i := 1 to |arr|
      invariant ToArgs(arr[1..i]) == Some(args)
    {
      assert arr[1..i + 1][..|arr[1..i + 1]| - 1] == arr[1..i];
      var arg := ToArg(arr[i]);
      if arg.None? {
        assert arr[1..][..i] == arr[1..i + 1];
        ToArgsPrefix(arr[1..], i);
        return None;
      }
      args := args + [arg.value];
    }
    assert arr[1..|arr|] == arr[1..];
    return Some(Command(arr[0].text, args));
  }

  // ----- The fast path -----

  /** Digits, then CRLF at once, within int64_t. */
  function FastNat(body: string): (r: Option<Parsed<int>>)
    ensures r.Some? ==> |r.value.rest| < |body| && r.value.value >= 0
  {
    var n := RunLength(body);
    if n == 0 || !CrlfAt(body, n) || Value(body[..n]) > INT64_MAX then None
    else Some(Parsed(Value(body[..n]), body[n + 2..]))
  }

  /** What ParseIntLineFast accepts. */
  function FastInt(d: string, allowNegative: bool): (r: Option<Parsed<int>>)
    ensures r.Some? ==> |r.value.rest| < |d|
  {
    if d != "" && d[0] == '-' then
      if !allowNegative then None
      else
        match FastNat(d[1..])
        case None => None
        case Some(p) => Some(Parsed(0 - p.value, p.rest))
    else FastNat(d)
  }

  /** Two's-complement wrap of one int64_t addition. */
  function Wrap64(v: int): int {
    if v > INT64_MAX then v - 0x1_0000_0000_0000_0000 else v
  }

  /** The digit loop of ParseIntLineFast. */
  method ScanDigits(body: string) returns (r: Option<Parsed<int>>)
    ensures r == FastNat(body)
  {
    ghost var run := RunLength(body);
    if body == "" || !IsDigit(body[0]) {
      return None;
    }
    var ptr, value := 0, 0;
    while ptr < |body|
      invariant ptr <= run && run > 0
      invariant value == Value(body[..ptr]) <= INT64_MAX
    {
      var c := body[ptr];
      if c == '\r' {
        if ptr + 1 >= |body| || body[ptr + 1] != '\n' {
          return None;
        }
        return Some(Parsed(value, body[ptr + 2..]));
      }
      if !IsDigit(c) {
        return None;
      }
      assert body[..ptr + 1][..ptr] == body[..ptr];
      assert body[..run][..ptr + 1] == body[..ptr + 1];
      ValueMonotone(body[..run], ptr + 1);
      if value > INT64_MAX / 10 {
        return None;
      }
      value := Wrap64(value * 10 + DigitOf(c));
      if value < 0 {
        return None;
      }
      ptr := ptr + 1;
    }
    return None;
  }

  method ParseIntLineFast(input: string, allowNegative: bool) returns (r: Option<Parsed<int>>)
    ensures r == FastInt(input, allowNegative)
  {
    if input == "" {
      return None;
    }
    if input[0] == '-' {
      if !allowNegative {
        return None;
      }
      r := ScanDigits(input[1..]);
      if r.Some? {
        r := Some(Parsed(0 - r.value.value, r.value.rest));
      }
    } else {
      r := ScanDigits(input);
    }
  }

  lemma FastIntIsParseInt(d: string, allowNegative: bool)
    requires FastInt(d, allowNegative).Some?
    ensures ReadLine(d).Some? && ReadLine(d).value.rest == FastInt(d, allowNegative).value.rest
    ensures ParseInt(ReadLine(d).value.value) == Some(FastInt(d, allowNegative).value.value)
  {
    var sign := if d[0] == '-' then 1 else 0;
    var body := Magnitude(d);
    var n := RunLength(body);
    assert body == d[sign..];
    forall j | 0 <= j < sign + n ensures !CrlfAt(d, j) {
      if j >= sign {
        assert d[j] == body[..n][j - sign];
      }
    }
    FindCrlfIs(d, 0, sign + n);
    var line := d[..sign + n];
    assert Magnitude(line) == body[..n];
    RunLengthIs(body[..n], n);
    assert body[..n][..n] == body[..n];
  }

  /** One element on the fast path: a bulk string whose terminator is checked, or any other value. */
  function FastItem(atod: Atod, d: string): (r: Option<Parsed<RespValue>>)
    ensures r.Some? ==> |r.value.rest| < |d|
  {
    if d != "" && d[0] == '$' then
      match FastInt(d[1..], true)
      case None => None
      case Some(Parsed(n, rest)) =>
        if n == -1 then Some(Parsed(NullBulk, rest))
        else if n < 0 || !CrlfAt(rest, n) then None
        else Some(Parsed(Bulk(rest[..n]), rest[n + 2..]))
    else Parse(atod, d)
  }

  function FastItems(atod: Atod, d: string, n: nat): (r: Option<Parsed<seq<RespValue>>>)
    ensures r.Some? ==> |r.value.value| == n
    decreases n
  {
    if n == 0 then Some(Parsed([], d))
    else
      match FastItem(atod, d)
      case None => None
      case Some(Parsed(x, rest)) => Prepend([x], FastItems(atod, rest, n - 1))
  }

  function Prepend(xs: seq<RespValue>, r: Option<Parsed<seq<RespValue>>>): Option<Parsed<seq<RespValue>>> {
    match r
    case None => None
    case Some(p) => Some(Parsed(xs + p.value, p.rest))
  }

  function FastCommand(atod: Atod, d: string): Option<Parsed<Command>> {
    if d == "" || d[0] != '*' then None
    else
      match FastInt(d[1..], false)
      case None => None
      case Some(Parsed(count, rest)) =>
        if count <= 0 || count > INT_MAX then None
        else CommandFrom(FastItems(atod, rest, count))
  }

  function CommandFrom(r: Option<Parsed<seq<RespValue>>>): Option<Parsed<Command>> {
    match r
    case None => None
    case Some(Parsed(items, after)) =>
      match CommandOf(items)
      case None => None
      case Some(cmd) => Some(Parsed(cmd, after))
  }

  lemma FastItemIsParse(atod: Atod, d: string)
    requires FastItem(atod, d).Some?
    ensures Parse(atod, d) == FastItem(atod, d)
  {
    if d != "" && d[0] == '$' {
      FastIntIsParseInt(d[1..], true);
    }
  }

  lemma {:induction false} FastItemsIsParseMany(atod: Atod, d: string, n: nat)
    requires FastItems(atod, d, n).Some?
    ensures ParseMany(atod, d, n) == FastItems(atod, d, n)
    decreases n
  {
    if n > 0 {
      FastItemIsParse(atod, d);
      FastItemsIsParseMany(atod, FastItem(atod, d).value.rest, n - 1);
    }
  }

  /** Whatever the fast path accepts, the general parser reads as the same command and the same rest. */
  lemma FastPathRefinesParser(atod: Atod, d: string)
    requires FastCommand(atod, d).Some?
    ensures var r := FastCommand(atod, d).value;
      && Parse(atod, d).Some? && Parse(atod, d).value.rest == r.rest
      && Parse(atod, d).value.value.Array?
      && CommandOf(Parse(atod, d).value.value.items) == Some(r.value)
  {
    FastIntIsParseInt(d[1..], false);
    var count, rest := FastInt(d[1..], false).value.value, FastInt(d[1..], false).value.rest;
    FastItemsIsParseMany(atod, rest, count);
    var items := FastItems(atod, rest, count).value;
    var line := ReadLine(d[1..]).value.value;
    assert ParseArray(atod, line, rest) == Some(Parsed(Array(items.value), items.rest));
  }

  lemma PrependPrepend(xs: seq<RespValue>, x: RespValue, r: Option<Parsed<seq<RespValue>>>)
    ensures Prepend(xs, Prepend([x], r)) == Prepend(xs + [x], r)
  {
    if r.Some? {
      assert xs + ([x] + r.value.value) == xs + [x] + r.value.value;
    }
  }

  /** A list whose beginning is already no command is none however it goes on. */
  lemma BadStart(xs: seq<RespValue>, r: Option<Parsed<seq<RespValue>>>)
    requires xs != [] && CommandOf(xs).None?
    ensures CommandFrom(Prepend(xs, r)).None?
  {
    if r.Some? {
      var all := xs + r.value.value;
      assert all[0] == xs[0];
      if xs[0].Bulk? {
        assert all[1..][..|xs| - 1] == xs[1..];
        ToArgsPrefix(all[1..], |xs| - 1);
      }
    }
  }

  /** The command so far with one more element: the first is the name, the others are arguments. */
  function Grow(cmd: Option<Command>, value: RespValue): Option<Command> {
    match cmd
    case None => if value.Bulk? then Some(Command(value.text, [])) else None
    case Some(c) =>
      match ToArg(value)
      case None => None
      case Some(arg) => Some(Command(c.name, c.args + [arg]))
  }

  lemma CommandGrows(xs: seq<RespValue>, x: RespValue)
    requires xs == [] || CommandOf(xs).Some?
    ensures CommandOf(xs + [x]) == Grow(CommandOf(xs), x)
  {
    var all := xs + [x];
    if xs == [] {
      assert all[1..] == [];
    } else {
      assert all[0] == xs[0] && all[1..] == xs[1..] + [x];
      assert (xs[1..] + [x])[..|xs[1..] + [x]| - 1] == xs[1..];
    }
  }

  lemma NextItem(atod: Atod, items: seq<RespValue>, working: string, n: nat)
    requires n > 0
    ensures Prepend(items, FastItems(atod, working, n)) ==
      match FastItem(atod, working)
      case None => None
      case Some(p) => Prepend(items + [p.value], FastItems(atod, p.rest, n - 1))
  {
    if FastItem(atod, working).Some? {
      var p := FastItem(atod, working).value;
      PrependPrepend(items, p.value, FastItems(atod, p.rest, n - 1));
    }
  }

  /** One element of the fast path; the terminator of a bulk string is checked. */
  method ParseItemFast(atod: Atod, working: string) returns (r: Option<Parsed<RespValue>>)
    ensures r == FastItem(atod, working)
  {
    if working != "" && working[0] == '$' {
      var len := ParseIntLineFast(working[1..], true);
      if len.None? {
        return None;
      }
      var n, rest := len.value.value, len.value.rest;
      if n == -1 {
        return Some(Parsed(NullBulk, rest));
      }
      if n < 0 || |rest| < n + 2 || rest[n] != '\r' || rest[n + 1] != '\n' {
        return None;
      }
      return Some(Parsed(Bulk(rest[..n]), rest[n + 2..]));
    }
    return Parse(atod, working);
  }

  /** The loop over the elements of the array. */
  method ReadItems(atod: Atod, data: string, count: nat) returns (r: Option<Parsed<Command>>)
    requires count > 0
    ensures r == CommandFrom(FastItems(atod, data, count))
  {
    var working, cmd := data, None;
    ghost var items: seq<RespValue> := [];
    ghost var all := FastItems(atod, data, count);
    assert Prepend(items, all) == all by { assert all.Some? ==> [] + all.value.value == all.value.value; }
    for i := 0 to count
      invariant |items| == i && Prepend(items, FastItems(atod, working, count - i)) == all
      invariant CommandOf(items) == cmd && (i > 0 ==> cmd.Some?)
    {
      var item := ParseItemFast(atod, working);
      NextItem(atod, items, working, count - i);
      if item.None? {
        return None;
      }
      CommandGrows(items, item.value.value);
      cmd := Grow(cmd, item.value.value);
      items := items + [item.value.value];
      working := item.value.rest;
      if cmd.None? {
        BadStart(items, FastItems(atod, working, count - i - 1));
        return None;
      }
    }
    assert items + [] == items;
    return Some(Parsed(cmd.value, working));
  }

  /** On success the command and the unread rest; on failure nothing is consumed. */
  method ParseCommandFromArray(atod: Atod, data: string) returns (r: Option<Parsed<Command>>)
    ensures r == FastCommand(atod, data)
  {
    if data == "" || data[0] != '*' {
      return None;
    }
    var header := ParseIntLineFast(data[1..], false);
    if header.None? || header.value.value <= 0 || header.value.value > INT_MAX {
      return None;
    }
    r := ReadItems(atod, header.value.rest, header.value.value);
  }
}
