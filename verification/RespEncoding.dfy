/**
 Writing commands as RESP arrays of bulk strings. Three places do it: Worker's LogToAof
 (src/astra/server/worker.hpp), AofWriter's FormatRespCommand (src/astra/persistence/aof_writer.hpp)
 and ReplicationManager's CommandToResp (src/astra/replication/replication_manager.hpp).
 */
module RespEncoding {
  import opened Common
  import opened Commands
  import opened Decimal
  import opened RespParser
  import opened ReceiveBuffer

  const CRLF := "\r\n"

  function Item(s: string): string { "$" + Print(|s|) + CRLF + s + CRLF }

  function Itemizer(): string -> string { (s: string) => Item(s) }

  function Items(args: seq<string>): string { Flatten(Map(args, Itemizer())) }

  lemma ItemsPush(head: string, args: seq<string>, i: nat)
    requires i < |args|
    ensures head + Items(args[..i]) + Item(args[i]) == head + Items(args[..i + 1])
  {
    assert args[..i + 1] == args[..i] + [args[i]];
    FlattenMapPush(args[..i], args[i], Itemizer());
    Nest(head, Items(args[..i]), Item(args[i]));
  }

  lemma Nest(a: string, b: string, c: string)
    ensures a + b + c == a + (b + c)
  {
  }

  function EncodeWith(count: int, name: string, args: seq<string>): string {
    "*" + PrintInt(count) + CRLF + Item(name) + Items(args)
  }

  function Encode(name: string, args: seq<string>): string {
    EncodeWith(|args| + 1, name, args)
  }

  // ----- The three writers agree -----

  method LogToAof(command: string, args: seq<string>) returns (cmdStr: string)
    ensures cmdStr == Encode(command, args)
  {
    cmdStr := "*" + Print(|args| + 1) + CRLF;
    cmdStr := cmdStr + Item(command);
    ghost var head := cmdStr;
    for i := 0 to |args|
      invariant cmdStr == head + Items(args[..i])
    {
      ItemsPush(head, args, i);
      cmdStr := cmdStr + Item(args[i]);
    }
    assert args[..|args|] == args;
  }

  method FormatRespCommand(cmdName: string, args: seq<string>) returns (result: string)
    ensures result == Encode(cmdName, args)
  {
    var totalArgs := |args| + 1;
    result := "*" + Print(totalArgs) + CRLF + Item(cmdName);
    ghost var head := result;
    for i := 0 to |args|
      invariant result == head + Items(args[..i])
    {
      ItemsPush(head, args, i);
      result := result + Item(args[i]);
    }
    assert args[..|args|] == args;
  }

  /** Conversion of a size to a 32-bit int. */
  function ToInt32(n: nat): int {
    var m := n % 0x1_0000_0000;
    if m >= 0x8000_0000 then m - 0x1_0000_0000 else m
  }

  lemma ToInt32Exact(n: nat)
    ensures ToInt32(n) == n <==> n < 0x8000_0000
  {
  }

  function Texts(args: seq<CommandArg>): seq<string> {
    seq(|args|, i requires 0 <= i < |args| => args[i].value)
  }

  method CommandToResp(cmd: Command) returns (out: string)
    ensures out == EncodeWith(ToInt32(|cmd.args| + 1), cmd.name, Texts(cmd.args))
  {
    var argCount := ToInt32(|cmd.args| + 1);
    out := "*" + PrintInt(argCount) + CRLF + Item(cmd.name);
    ghost var head, texts := out, Texts(cmd.args);
    for i := 0 to |cmd.args|
      invariant out == head + Items(texts[..i])
    {
      ItemsPush(head, texts, i);
      out := out + Item(cmd.args[i].value);
    }
    assert texts[..|cmd.args|] == texts;
  }

  lemma PrintIntInjective(a: int, b: int)
    requires PrintInt(a) == PrintInt(b)
    ensures a == b
  {
    var m, n := if a < 0 then 0 - a else a, if b < 0 then 0 - b else b;
    ValueOfPrint(m);
    ValueOfPrint(n);
    assert IsDigit(Print(m)[0]) && IsDigit(Print(n)[0]);
    assert a < 0 ==> PrintInt(a)[1..] == Print(m);
    assert b < 0 ==> PrintInt(b)[1..] == Print(n);
  }

  lemma HeaderInjective(p: string, q: string, tail: string)
    requires "*" + p + tail == "*" + q + tail
    ensures p == q
  {
    assert ("*" + p + tail)[1..|p| + 1] == p && ("*" + q + tail)[1..|q| + 1] == q;
  }

  /** The replication writer agrees with the others exactly while the count fits its int. */
  lemma CommandToRespAgrees(name: string, args: seq<string>)
    ensures EncodeWith(ToInt32(|args| + 1), name, args) == Encode(name, args) <==> |args| + 1 < 0x8000_0000
  {
    var n, m := |args| + 1, ToInt32(|args| + 1);
    ToInt32Exact(n);
    if EncodeWith(m, name, args) == Encode(name, args) {
      EncodeCountInjective(m, n, name, args);
    }
  }

  lemma EncodeCountInjective(m: int, n: int, name: string, args: seq<string>)
    requires EncodeWith(m, name, args) == EncodeWith(n, name, args)
    ensures m == n
  {
    var p, q, item, items := PrintInt(m), PrintInt(n), Item(name), Items(args);
    assert "*" + p + CRLF + item + items == "*" + p + (CRLF + item + items);
    assert "*" + q + CRLF + item + items == "*" + q + (CRLF + item + items);
    HeaderInjective(p, q, CRLF + item + items);
    PrintIntInjective(m, n);
  }

  // ----- The parser reads back what the writers wrote -----

  /** No container holds more than 2^63 - 1 elements. */
  predicate Fits(name: string, args: seq<string>) {
    |name| <= INT64_MAX && |args| < INT64_MAX && forall i | 0 <= i < |args| :: |args[i]| <= INT64_MAX
  }

  function ToBulk(): string -> RespValue { (s: string) => Bulk(s) }

  function ToBulkArg(): string -> CommandArg { (s: string) => CommandArg(BulkString, s) }

  function Bulks(args: seq<string>): seq<RespValue> { Map(args, ToBulk()) }

  function BulkArgs(args: seq<string>): seq<CommandArg> { Map(args, ToBulkArg()) }

  /** A line of digits, for an arbitrary run of digits. */
  lemma ReadDigits(p: string, tail: string)
    requires p != "" && AllDigits(p)
    ensures ReadLine(p + CRLF + tail) == Some(Parsed(p, tail))
    ensures RunLength(p + CRLF + tail) == |p| && (p + CRLF + tail)[..|p|] == p
    ensures CrlfAt(p + CRLF + tail, |p|) && (p + CRLF + tail)[|p| + 2..] == tail
  {
    var d := p + CRLF + tail;
    assert d[..|p|] == p && d[|p| + 2..] == tail && d[|p|] == '\r' && d[|p| + 1] == '\n';
    forall j | 0 <= j < |p| ensures !CrlfAt(d, j) {
      assert IsDigit(p[j]) && d[j] == p[j];
    }
    FindCrlfIs(d, 0, |p|);
    RunLengthIs(d, |p|);
  }

  lemma ReadPrinted(n: nat, tail: string)
    requires n <= INT64_MAX
    ensures ReadLine(Print(n) + CRLF + tail) == Some(Parsed(Print(n), tail))
    ensures ParseInt(Print(n)) == Some(n)
    ensures FastNat(Print(n) + CRLF + tail) == Some(Parsed(n, tail))
  {
    ReadDigits(Print(n), tail);
    ParsePrinted(n, "");
    assert Print(n) + "" == Print(n);
    ValueOfPrint(n);
  }

  lemma ItemReads(atod: Atod, s: string, tail: string)
    requires |s| <= INT64_MAX
    ensures FastItem(atod, Item(s) + tail) == Some(Parsed(Bulk(s), tail))
  {
    var d, body := Item(s) + tail, s + CRLF + tail;
    assert d[1..] == Print(|s|) + CRLF + body;
    ReadPrinted(|s|, body);
    assert IsDigit(Print(|s|)[0]) && d[1..][0] == Print(|s|)[0];
    assert FastInt(d[1..], true) == Some(Parsed(|s|, body));
    assert body[..|s|] == s && body[|s| + 2..] == tail;
  }

  lemma {:induction false} ItemsRead(atod: Atod, args: seq<string>, tail: string)
    requires forall i | 0 <= i < |args| :: |args[i]| <= INT64_MAX
    ensures FastItems(atod, Items(args) + tail, |args|) == Some(Parsed(Bulks(args), tail))
  {
    if args == [] {
      assert Map(args, Itemizer()) == [] && Items(args) + tail == tail && Bulks(args) == [];
    } else {
      var item, later := Item(args[0]), Items(args[1..]);
      FlattenMapFront(args, Itemizer());
      Nest(item, later, tail);
      ItemReads(atod, args[0], later + tail);
      ItemsRead(atod, args[1..], tail);
      MapFront(args, ToBulk());
      FirstItemReads(atod, item, later + tail, |args|, Bulk(args[0]), Bulks(args[1..]), tail);
    }
  }

  lemma FirstItemReads(
      atod: Atod, item: string, later: string, n: nat, v: RespValue, vs: seq<RespValue>, tail: string)
    requires n > 0 && FastItem(atod, item + later) == Some(Parsed(v, later))
    requires FastItems(atod, later, n - 1) == Some(Parsed(vs, tail))
    ensures FastItems(atod, item + later, n) == Some(Parsed([v] + vs, tail))
  {
  }

  lemma {:induction false} BulksAreArgs(args: seq<string>)
    ensures ToArgs(Bulks(args)) == Some(BulkArgs(args))
  {
    if args == [] {
      assert BulkArgs(args) == [] && Bulks(args) == [];
    } else {
      var init, last := args[..|args| - 1], args[|args| - 1];
      BulksAreArgs(init);
      assert args == init + [last];
      MapPush(init, last, ToBulk());
      MapPush(init, last, ToBulkArg());
      assert (Bulks(init) + [Bulk(last)])[..|init|] == Bulks(init);
    }
  }

  lemma AllItemsRead(atod: Atod, name: string, args: seq<string>, tail: string)
    requires Fits(name, args)
    ensures FastItems(atod, Item(name) + Items(args) + tail, |args| + 1)
         == Some(Parsed([Bulk(name)] + Bulks(args), tail))
    ensures CommandOf([Bulk(name)] + Bulks(args)) == Some(Command(name, BulkArgs(args)))
  {
    assert Item(name) + Items(args) + tail == Item(name) + (Items(args) + tail);
    ItemReads(atod, name, Items(args) + tail);
    ItemsRead(atod, args, tail);
    BulksAreArgs(args);
    assert ([Bulk(name)] + Bulks(args))[1..] == Bulks(args);
  }

  /** A header line and the elements it announces. */
  lemma HeaderReads(atod: Atod, d: string, line: string, n: nat, body: string, items: seq<RespValue>, tail: string)
    requires d != "" && d[0] == '*' && n > 0
    requires ReadLine(d[1..]) == Some(Parsed(line, body)) && ParseInt(line) == Some(n)
    requires FastInt(d[1..], false) == Some(Parsed(n, body))
    requires FastItems(atod, body, n) == Some(Parsed(items, tail))
    ensures Parse(atod, d) == Some(Parsed(Array(items), tail))
    ensures n <= INT_MAX ==> FastCommand(atod, d) == CommandFrom(Some(Parsed(items, tail)))
  {
    FastItemsIsParseMany(atod, body, n);
    assert ParseArray(atod, line, body) == Some(Parsed(Array(items), tail));
  }

  lemma HeaderPrinted(n: nat, body: string)
    requires n <= INT64_MAX
    ensures var d := "*" + Print(n) + CRLF + body;
      && ReadLine(d[1..]) == Some(Parsed(Print(n), body)) && ParseInt(Print(n)) == Some(n)
      && FastInt(d[1..], false) == Some(Parsed(n, body))
  {
    var p := Print(n);
    assert ("*" + p + CRLF + body)[1..] == p + CRLF + body;
    ReadPrinted(n, body);
    assert IsDigit(p[0]) && (p + CRLF + body)[0] == p[0];
  }

  lemma ArrayReads(atod: Atod, n: nat, body: string, items: seq<RespValue>, cmd: Command, tail: string)
    requires 0 < n <= INT64_MAX && FastItems(atod, body, n) == Some(Parsed(items, tail))
    requires CommandOf(items) == Some(cmd)
    ensures var d := "*" + Print(n) + CRLF + body;
      && Frame(atod, d) == Some(Parsed(Received(cmd), tail))
      && (n <= INT_MAX ==> FastCommand(atod, d) == Some(Parsed(cmd, tail)))
  {
    HeaderPrinted(n, body);
    HeaderReads(atod, "*" + Print(n) + CRLF + body, Print(n), n, body, items, tail);
  }

  lemma EncodeShape(name: string, args: seq<string>, tail: string)
    ensures Encode(name, args) + tail == "*" + Print(|args| + 1) + CRLF + (Item(name) + Items(args) + tail)
  {
    Regroup("*" + Print(|args| + 1) + CRLF, Item(name), Items(args), tail);
  }

  lemma Regroup(a: string, b: string, c: string, d: string)
    ensures a + b + c + d == a + (b + c + d)
  {
  }

  function Written(name: string, args: seq<string>): Command { Command(name, BulkArgs(args)) }

  /** What was written is read back as the same command, leaving exactly what follows it. */
  lemma EncodedReads(atod: Atod, name: string, args: seq<string>, tail: string)
    requires Fits(name, args)
    ensures Frame(atod, Encode(name, args) + tail) == Some(Parsed(Received(Written(name, args)), tail))
    ensures |args| < INT_MAX ==>
      FastCommand(atod, Encode(name, args) + tail) == Some(Parsed(Written(name, args), tail))
  {
    EncodeShape(name, args, tail);
    AllItemsRead(atod, name, args, tail);
    ArrayReads(atod, |args| + 1, Item(name) + Items(args) + tail,
               [Bulk(name)] + Bulks(args), Written(name, args), tail);
  }

  // ----- A client's commands arrive whole, however the network cuts them -----

  datatype Call = Call(name: string, args: seq<string>)

  function Encoder(): Call -> string { (call: Call) => Encode(call.name, call.args) }

  function Receiver(): Call -> Event { (call: Call) => Received(Written(call.name, call.args)) }

  /** The commands written one after the other. */
  function EncodeAll(calls: seq<Call>): string { Flatten(Map(calls, Encoder())) }

  function Events(calls: seq<Call>): seq<Event> { Map(calls, Receiver()) }

  lemma {:induction false} EncodedStreamDrains(atod: Atod, f: Framer, calls: seq<Call>, tail: string)
    requires Implements(f, atod) && forall i | 0 <= i < |calls| :: Fits(calls[i].name, calls[i].args)
    ensures Drain(f, EncodeAll(calls) + tail) == Parsed(Events(calls) + Drain(f, tail).value, Drain(f, tail).rest)
  {
    if calls == [] {
      assert Map(calls, Encoder()) == [] && EncodeAll(calls) + tail == tail;
      assert Events(calls) + Drain(f, tail).value == Drain(f, tail).value;
    } else {
      var head, e := Encode(calls[0].name, calls[0].args), Received(Written(calls[0].name, calls[0].args));
      EncodedStreamDrains(atod, f, calls[1..], tail);
      FlattenMapFront(calls, Encoder());
      MapFront(calls, Receiver());
      EncodedReads(atod, calls[0].name, calls[0].args, EncodeAll(calls[1..]) + tail);
      assert head != "";
      DrainHead(f, head, EncodeAll(calls[1..]), tail, e, Events(calls[1..]));
    }
  }

  lemma DrainHead(f: Framer, head: string, rest: string, tail: string, e: Event, later: seq<Event>)
    requires head != "" && f(head + (rest + tail)) == Some(Parsed(e, rest + tail))
    requires Drain(f, rest + tail) == Parsed(later + Drain(f, tail).value, Drain(f, tail).rest)
    ensures Drain(f, head + rest + tail) == Parsed([e] + later + Drain(f, tail).value, Drain(f, tail).rest)
  {
    Nest(head, rest, tail);
    DrainUnfolds(f, head + (rest + tail));
    Splice(e, later, Drain(f, tail).value);
  }

  /**
   Every list of commands, written one after the other and cut into chunks anywhere, is drained as
   exactly those commands in that order with nothing left over.
   */
  lemma ChunkedCommandsArrive(atod: Atod, f: Framer, calls: seq<Call>, chunks: seq<string>)
    requires Implements(f, atod) && forall i | 0 <= i < |calls| :: Fits(calls[i].name, calls[i].args)
    requires Flatten(chunks) == EncodeAll(calls)
    ensures Feed(f, chunks) == Parsed(Events(calls), "")
  {
    ChunkingIndependent(atod, f, chunks);
    EncodedStreamDrains(atod, f, calls, "");
    assert EncodeAll(calls) + "" == EncodeAll(calls);
    assert f("") == Frame(atod, "");
    assert Events(calls) + [] == Events(calls);
  }

  /** A log of commands determines the commands. */
  lemma EncodeAllInjective(atod: Atod, a: seq<Call>, b: seq<Call>)
    requires forall i | 0 <= i < |a| :: Fits(a[i].name, a[i].args)
    requires forall i | 0 <= i < |b| :: Fits(b[i].name, b[i].args)
    requires EncodeAll(a) == EncodeAll(b)
    ensures Events(a) == Events(b) && a == b
  {
    var f: Framer := d => Frame(atod, d);
    EncodedStreamDrains(atod, f, a, "");
    EncodedStreamDrains(atod, f, b, "");
    EventsInjective(a, b, Drain(f, "").value);
  }

  lemma EventsInjective(a: seq<Call>, b: seq<Call>, more: seq<Event>)
    requires Events(a) + more == Events(b) + more
    ensures Events(a) == Events(b) && a == b
  {
    assert |Events(a) + more| == |a| + |more| && |Events(b) + more| == |b| + |more|;
    assert Events(a) == (Events(a) + more)[..|a|] == Events(b);
    forall i | 0 <= i < |a| ensures a[i] == b[i] {
      assert Events(a)[i] == Events(b)[i];
      ArgsInjective(a[i].args, b[i].args);
    }
  }

  lemma ArgsInjective(a: seq<string>, b: seq<string>)
    requires BulkArgs(a) == BulkArgs(b)
    ensures a == b
  {
    assert |BulkArgs(a)| == |a| && |BulkArgs(b)| == |b|;
    forall i | 0 <= i < |a| ensures a[i] == b[i] {
      assert BulkArgs(a)[i].value == a[i] && BulkArgs(b)[i].value == b[i];
    }
  }
}
