/**
 RespBuilder (src/astra/protocol/resp/resp_builder.cpp): every kind of value the parser knows, written as
 RESP, and exactly which of them the parser reads back. `dtoa` is the printing of RESP3 doubles.
 */
module RespBuilder {
  import opened Common
  import opened Commands
  import opened Decimal
  import opened RespParser
  import Receive = ReceiveBuffer

  type Dtoa = real -> string

  function Build(dtoa: Dtoa, v: RespValue): string {
    match v
    case Simple(text) => Line('+', text)
    case Error(text) => Line('-', text)
    case Number(n) => Line(':', PrintInt(n))
    case Bulk(text) => Line('$', Print(|text|)) + text + "\r\n"
    case NullBulk => "$-1\r\n"
    case Array(items) => Line('*', Print(|items|)) + BuildAll(dtoa, items)
    case NullArray => "*-1\r\n"
    case NullValue => "_\r\n"
    case Boolean(b) => Line('#', if b then "t" else "f")
    case Double(x) => Line(',', dtoa(x))
  }

  function Line(c: char, text: string): string { [c] + text + "\r\n" }

  function BuildAll(dtoa: Dtoa, items: seq<RespValue>): string {
    if items == [] then "" else Build(dtoa, items[0]) + BuildAll(dtoa, items[1..])
  }

  /** Numbers and sizes are 64-bit ones. */
  predicate Sized(v: RespValue) {
    match v
    case Number(n) => INT64_MIN <= n <= INT64_MAX
    case Bulk(text) => |text| <= INT64_MAX
    case Array(items) => |items| <= INT64_MAX && forall i | 0 <= i < |items| :: Sized(items[i])
    case _ => true
  }

  predicate OneLine(text: string) { forall i | 0 <= i < |text| :: !CrlfAt(text, i) }

  /** Texts on one line stay on it, and doubles print with all their digits. */
  predicate Plain(atod: Atod, dtoa: Dtoa, v: RespValue) {
    match v
    case Simple(text) => OneLine(text)
    case Error(text) => OneLine(text)
    case Array(items) => AllPlain(atod, dtoa, items)
    case Double(x) => atod(dtoa(x)) == Some(x)
    case _ => true
  }

  predicate AllPlain(atod: Atod, dtoa: Dtoa, items: seq<RespValue>) {
    items == [] || (Plain(atod, dtoa, items[0]) && AllPlain(atod, dtoa, items[1..]))
  }

  ghost predicate PrintsLines(dtoa: Dtoa) { forall x :: OneLine(dtoa(x)) }

  // ----- Lines -----

  lemma LineStarts(c: char, text: string, t: string)
    ensures var d := Line(c, text) + t; d != "" && d[0] == c && d[1..] == text + "\r\n" + t
  {
  }

  lemma LineReads(text: string, t: string)
    ensures var r := ReadLine(text + "\r\n" + t);
      r.Some? && if OneLine(text) then r.value == Parsed(text, t) else r.value.value != text
  {
    var d := text + "\r\n" + t;
    assert CrlfAt(d, |text|) && d[..|text|] == text && d[|text| + 2..] == t;
    if OneLine(text) {
      forall j | 0 <= j < |text| ensures !CrlfAt(d, j) {
        assert !CrlfAt(text, j);
      }
      FindCrlfIs(d, 0, |text|);
    } else {
      var j :| 0 <= j < |text| && CrlfAt(text, j);
      assert CrlfAt(d, j);
    }
  }

  lemma NumberIsOneLine(n: int)
    ensures OneLine(PrintInt(n))
  {
    var m := if n < 0 then 0 - n else n;
    assert n < 0 ==> PrintInt(n)[1..] == Print(m);
    forall i | 0 <= i < |PrintInt(n)| ensures PrintInt(n)[i] != '\r' {
      assert n < 0 && i > 0 ==> PrintInt(n)[i] == Print(m)[i - 1];
    }
  }

  lemma PrintedIntReads(n: int)
    requires INT64_MIN <= n <= INT64_MAX
    ensures ParseInt(PrintInt(n)) == Some(n)
  {
    var m, s := if n < 0 then 0 - n else n, PrintInt(n);
    PrintedRun(m, "");
    ValueOfPrint(m);
    assert Print(m) + "" == Print(m) && IsDigit(Print(m)[0]);
    assert Magnitude(s) == Print(m);
  }

  /** A line with a number on it, and what follows. */
  lemma NumberLineReads(c: char, n: int, t: string)
    requires INT64_MIN <= n <= INT64_MAX
    ensures ReadLine((Line(c, PrintInt(n)) + t)[1..]) == Some(Parsed(PrintInt(n), t))
    ensures ParseInt(PrintInt(n)) == Some(n)
  {
    LineStarts(c, PrintInt(n), t);
    NumberIsOneLine(n);
    LineReads(PrintInt(n), t);
    PrintedIntReads(n);
  }

  lemma Assoc(a: string, b: string, c: string)
    ensures a + b + c == a + (b + c)
  {
  }

  // ----- Values -----

  /** The value is read back and what follows is left; or something else is read, or nothing. */
  predicate ReadsBack<T(==)>(r: Option<Parsed<T>>, v: T, t: string, plain: bool) {
    if plain then r == Some(Parsed(v, t)) else r.None? || r.value.value != v
  }

  lemma BulkReads(atod: Atod, dtoa: Dtoa, text: string, t: string)
    requires |text| <= INT64_MAX
    ensures Parse(atod, Build(dtoa, Bulk(text)) + t) == Some(Parsed(Bulk(text), t))
  {
    var head, body := Line('$', Print(|text|)), text + "\r\n" + t;
    Assoc(head, text, "\r\n");
    Assoc(head, text + "\r\n", t);
    NumberLineReads('$', |text|, body);
    assert body[..|text|] == text && body[|text| + 2..] == t;
  }

  lemma TextReads(atod: Atod, dtoa: Dtoa, v: RespValue, t: string)
    requires (v.Simple? || v.Error? || v.Double? || v.Boolean? || v.NullValue?) && PrintsLines(dtoa)
    ensures ReadsBack(Parse(atod, Build(dtoa, v) + t), v, t, Plain(atod, dtoa, v))
  {
    var d := Build(dtoa, v) + t;
    if v.Simple? || v.Error? {
      LineStarts(if v.Simple? then '+' else '-', v.text, t);
      LineReads(v.text, t);
    } else if v.Double? {
      LineStarts(',', dtoa(v.d), t);
      LineReads(dtoa(v.d), t);
    } else {
      var text := if v.NullValue? then "" else if v.b then "t" else "f";
      assert d[1..] == text + "\r\n" + t;
      LineReads(text, t);
    }
  }

  lemma MinusOne(c: char)
    ensures Line(c, PrintInt(-1)) == [c] + "-1\r\n"
  {
    assert Print(1) == "1";
  }

  lemma NullReads(atod: Atod, dtoa: Dtoa, v: RespValue, t: string)
    requires v.NullBulk? || v.NullArray?
    ensures Parse(atod, Build(dtoa, v) + t) == Some(Parsed(v, t))
  {
    var c := if v.NullBulk? then '$' else '*';
    MinusOne(c);
    assert Build(dtoa, v) == Line(c, PrintInt(-1));
    NumberLineReads(c, -1, t);
    LineStarts(c, PrintInt(-1), t);
    if v.NullArray? {
      assert Parse(atod, Build(dtoa, v) + t) == ParseArray(atod, PrintInt(-1), t);
    }
  }

  lemma NumberReads(atod: Atod, n: int, t: string)
    requires INT64_MIN <= n <= INT64_MAX
    ensures Parse(atod, Line(':', PrintInt(n)) + t) == Some(Parsed(Number(n), t))
  {
    NumberLineReads(':', n, t);
  }

  lemma ArrayReads(atod: Atod, items: seq<RespValue>, body: string, t: string, plain: bool)
    requires |items| <= INT64_MAX && ReadsBack(ParseMany(atod, body, |items|), items, t, plain)
    ensures ReadsBack(Parse(atod, Line('*', Print(|items|)) + body), Array(items), t, plain)
  {
    var d := Line('*', Print(|items|)) + body;
    NumberLineReads('*', |items|, body);
    assert d[0] == '*';
    assert Parse(atod, d) == ParseArray(atod, Print(|items|), body);
  }

  /**
   Every value that was built, whatever follows it, is read back as itself, leaving exactly what follows,
   if and only if no simple string or error in it holds a line break and no double in it loses digits.
   */
  lemma {:induction false} BuiltReadsExactly(atod: Atod, dtoa: Dtoa, v: RespValue, t: string)
    requires Sized(v) && PrintsLines(dtoa)
    ensures ReadsBack(Parse(atod, Build(dtoa, v) + t), v, t, Plain(atod, dtoa, v))
    decreases v
  {
    match v
    case Number(n) => NumberReads(atod, n, t);
    case Bulk(text) => BulkReads(atod, dtoa, text, t);
    case NullBulk => NullReads(atod, dtoa, v, t);
    case NullArray => NullReads(atod, dtoa, v, t);
    case Array(items) =>
      BuiltAllReads(atod, dtoa, items, t);
      ArrayReads(atod, items, BuildAll(dtoa, items) + t, t, Plain(atod, dtoa, v));
      Assoc(Line('*', Print(|items|)), BuildAll(dtoa, items), t);
    case _ => TextReads(atod, dtoa, v, t);
  }

  lemma {:induction false} BuiltAllReads(atod: Atod, dtoa: Dtoa, items: seq<RespValue>, t: string)
    requires PrintsLines(dtoa) && forall i | 0 <= i < |items| :: Sized(items[i])
    ensures ReadsBack(ParseMany(atod, BuildAll(dtoa, items) + t, |items|), items, t, AllPlain(atod, dtoa, items))
    decreases items
  {
    if items == [] {
      assert BuildAll(dtoa, items) + t == t;
    } else {
      var first, rest := items[0], items[1..];
      var later := BuildAll(dtoa, rest) + t;
      Assoc(Build(dtoa, first), BuildAll(dtoa, rest), t);
      BuiltReadsExactly(atod, dtoa, first, later);
      BuiltAllReads(atod, dtoa, rest, t);
      assert items == [first] + rest;
      FirstReads(atod, Build(dtoa, first), later, first, rest, t, Plain(atod, dtoa, first), AllPlain(atod, dtoa, rest));
    }
  }

  lemma FirstReads(atod: Atod, head: string, later: string, v: RespValue, vs: seq<RespValue>, t: string,
                   plain: bool, others: bool)
    requires ReadsBack(Parse(atod, head + later), v, later, plain)
    requires ReadsBack(ParseMany(atod, later, |vs|), vs, t, others)
    ensures ReadsBack(ParseMany(atod, head + later, |vs| + 1), [v] + vs, t, plain && others)
  {
    var r := Parse(atod, head + later);
    if r.Some? && ParseMany(atod, r.value.rest, |vs|).Some? {
      var xs := ParseMany(atod, r.value.rest, |vs|).value.value;
      assert ([r.value.value] + xs)[0] == r.value.value && ([r.value.value] + xs)[1..] == xs;
      assert ([v] + vs)[0] == v && ([v] + vs)[1..] == vs;
    }
  }

  /** The failing case: a line break inside a simple string ends it, and the rest is left as the next value. */
  lemma LineBreakIsMisread(atod: Atod, dtoa: Dtoa, t: string)
    ensures Parse(atod, Build(dtoa, Simple("a\r\nb")) + t) == Some(Parsed(Simple("a"), "b\r\n" + t))
  {
    var d := "a\r\nb" + "\r\n" + t;
    LineStarts('+', "a\r\nb", t);
    assert CrlfAt(d, 1) && !CrlfAt(d, 0);
    FindCrlfIs(d, 0, 1);
    assert d[..1] == "a" && d[3..] == "b\r\n" + t;
  }

  // ----- The builder -----

  method BuildValue(dtoa: Dtoa, v: RespValue) returns (out: string)
    ensures out == Build(dtoa, v)
    decreases v
  {
    match v
    case Simple(text) => out := "+" + text + "\r\n";
    case Error(text) => out := "-" + text + "\r\n";
    case Number(n) => out := ":" + PrintInt(n) + "\r\n";
    case Bulk(text) => out := "$" + Print(|text|) + "\r\n" + text + "\r\n";
    case NullBulk => out := "$-1\r\n";
    case Array(items) => out := BuildArray(dtoa, items);
    case NullArray => out := "*-1\r\n";
    case NullValue => out := "_\r\n";
    case Boolean(b) => out := "#" + (if b then "t" else "f") + "\r\n";
    case Double(x) => out := "," + dtoa(x) + "\r\n";
  }

  method BuildArray(dtoa: Dtoa, items: seq<RespValue>) returns (out: string)
    ensures out == Line('*', Print(|items|)) + BuildAll(dtoa, items)
    decreases items
  {
    out := "*" + Print(|items|) + "\r\n";
    ghost var head := out;
    for i := 0 to |items|
      invariant out + BuildAll(dtoa, items[i..]) == head + BuildAll(dtoa, items)
    {
      var one := BuildValue(dtoa, items[i]);
      assert items[i..][0] == items[i] && items[i..][1..] == items[i + 1..];
      assert out + (one + BuildAll(dtoa, items[i + 1..])) == out + one + BuildAll(dtoa, items[i + 1..]);
      out := out + one;
    }
    assert out + "" == out;
  }

  // ----- Commands -----

  /** What an element of a command is passed on as. */
  predicate IsArg(v: RespValue, arg: CommandArg) {
    match v
    case Bulk(text) => arg == CommandArg(BulkString, text)
    case Simple(text) => arg == CommandArg(SimpleString, text)
    case Number(n) => arg.kind == Integer && arg.value == PrintInt(n)
    case NullBulk => arg == CommandArg(Null, "")
    case NullArray => arg == CommandArg(Null, "")
    case NullValue => arg == CommandArg(Null, "")
    case _ => false
  }

  /** An array is a command exactly if a bulk string comes first and every other element can be an argument. */
  lemma {:induction false} ArgsExactly(vs: seq<RespValue>, args: seq<CommandArg>)
    ensures ToArgs(vs) == Some(args) <==>
      |vs| == |args| && forall i | 0 <= i < |vs| :: IsArg(vs[i], args[i])
  {
    if vs != [] {
      var n := |vs| - 1;
      if |args| == |vs| {
        ArgsExactly(vs[..n], args[..n]);
        assert args == args[..n] + [args[n]];
        assert ToArg(vs[n]) == Some(args[n]) <==> IsArg(vs[n], args[n]);
        assert forall i | 0 <= i < n :: IsArg(vs[..n][i], args[..n][i]) == IsArg(vs[i], args[i]);
      }
      if ToArgs(vs) == Some(args) {
        ArgsExactly(vs[..n], ToArgs(vs[..n]).value);
      }
    }
  }

  /** The elements of an array make this command. */
  predicate IsCommand(items: seq<RespValue>, cmd: Command) {
    && items != [] && items[0] == Bulk(cmd.name) && |items| == |cmd.args| + 1
    && forall i | 0 < i < |items| :: IsArg(items[i], cmd.args[i - 1])
  }

  lemma CommandExactly(items: seq<RespValue>, cmd: Command)
    ensures CommandOf(items) == Some(cmd) <==> IsCommand(items, cmd)
  {
    if items != [] {
      ArgsExactly(items[1..], cmd.args);
      assert |items| == |cmd.args| + 1 ==>
        forall i | 0 < i < |items| :: IsArg(items[i], cmd.args[i - 1]) == IsArg(items[1..][i - 1], cmd.args[i - 1]);
    }
  }

  /** A value on the wire is received as the command it makes, or answered as a syntax error if it makes none. */
  lemma ReceivedExactly(atod: Atod, dtoa: Dtoa, v: RespValue, t: string, cmd: Command)
    requires Sized(v) && PrintsLines(dtoa) && Plain(atod, dtoa, v)
    ensures var r := Receive.Frame(atod, Build(dtoa, v) + t);
      && r.Some? && r.value.rest == t
      && (r.value.value == Receive.Received(cmd) <==> v.Array? && IsCommand(v.items, cmd))
      && (r.value.value == Receive.SyntaxError <==> !v.Array? || forall c :: !IsCommand(v.items, c))
  {
    BuiltReadsExactly(atod, dtoa, v, t);
    if v.Array? {
      CommandExactly(v.items, cmd);
      forall c ensures CommandOf(v.items) == Some(c) <==> IsCommand(v.items, c) {
        CommandExactly(v.items, c);
      }
    }
  }
}
