/**
 The receive side of a connection (src/astra/server/worker.hpp): bytes arrive in chunks, are kept in
 a buffer with a consumed prefix, and complete RESP values are cut off its front as commands.
 */
module ReceiveBuffer {
  import opened Common
  import opened Commands
  import opened RespMalformed
  import opened RespParser

  const COMPACT_THRESHOLD: nat := 8 * 1024

  /** A complete value at the front of the stream is a command or a syntax error. */
  datatype Event = Received(cmd: Command) | SyntaxError

  function EventOf(v: RespValue): Event {
    match if v.Array? then CommandOf(v.items) else None
    case None => SyntaxError
    case Some(cmd) => Received(cmd)
  }

  /** The first complete value of a byte stream, by the general parser alone. */
  function Frame(atod: Atod, d: string): (r: Option<Parsed<Event>>)
    ensures r.Some? ==> |r.value.rest| < |d|
  {
    match Parse(atod, d)
    case None => None
    case Some(p) => Some(Parsed(EventOf(p.value), p.rest))
  }

  /** A way to cut one event off the front of a stream. */
  type Framer = string -> Option<Parsed<Event>>

  /** `f` is the framing of the parser. */
  ghost predicate Implements(f: Framer, atod: Atod) {
    forall d {:trigger Frame(atod, d)} :: f(d) == Frame(atod, d)
  }

  /** All complete events of a byte stream, and the incomplete remainder. */
  function Drain(f: Framer, d: string): Parsed<seq<Event>>
    decreases |d|
  {
    var next := f(d);
    if next.None? || |next.value.rest| >= |d| then Parsed([], d)
    else
      var later := Drain(f, next.value.rest);
      Parsed([next.value.value] + later.value, later.rest)
  }

  /** More input never changes an event that is already complete. */
  lemma FrameExtends(atod: Atod, f: Framer, d: string, e: string)
    requires Implements(f, atod) && f(d).Some?
    ensures |f(d).value.rest| < |d| && f(d + e) == Extend(f(d), e)
  {
    assert f(d) == Frame(atod, d) && f(d + e) == Frame(atod, d + e);
    ParseExtends(atod, d, e);
  }

  lemma DrainUnfolds(f: Framer, d: string)
    requires f(d).Some? && |f(d).value.rest| < |d|
    ensures var p := f(d).value; var later := Drain(f, p.rest);
      Drain(f, d) == Parsed([p.value] + later.value, later.rest)
  {
  }

  lemma Splice(x: Event, a: seq<Event>, b: seq<Event>)
    ensures [x] + (a + b) == [x] + a + b && [] + b == b
  {
  }

  /** Draining early and again later reads what draining once at the end reads. */
  lemma {:induction false} DrainExtends(atod: Atod, f: Framer, d: string, e: string)
    requires Implements(f, atod)
    ensures var r := Drain(f, d);
      var s := Drain(f, r.rest + e);
      Drain(f, d + e) == Parsed(r.value + s.value, s.rest)
    decreases |d|
  {
    if f(d).None? {
      assert Drain(f, d) == Parsed([], d);
      assert [] + Drain(f, d + e).value == Drain(f, d + e).value;
    } else {
      FrameExtends(atod, f, d, e);
      DrainExtends(atod, f, f(d).value.rest, e);
      DrainExtendsStep(f, d, e);
    }
  }

  lemma DrainExtendsStep(f: Framer, d: string, e: string)
    requires f(d).Some? && |f(d).value.rest| < |d| && f(d + e) == Extend(f(d), e)
    requires var r := Drain(f, f(d).value.rest);
      var s := Drain(f, r.rest + e);
      Drain(f, f(d).value.rest + e) == Parsed(r.value + s.value, s.rest)
    ensures var r := Drain(f, d);
      var s := Drain(f, r.rest + e);
      Drain(f, d + e) == Parsed(r.value + s.value, s.rest)
  {
    var p := f(d).value;
    var r := Drain(f, p.rest);
    DrainUnfolds(f, d);
    DrainUnfolds(f, d + e);
    Splice(p.value, r.value, Drain(f, r.rest + e).value);
  }

  lemma DrainStep(f: Framer, d: string, before: seq<Event>)
    requires f(d).Some? && |f(d).value.rest| < |d|
    ensures before + Drain(f, d).value == before + [f(d).value.value] + Drain(f, f(d).value.rest).value
    ensures Drain(f, d).rest == Drain(f, f(d).value.rest).rest
  {
    DrainUnfolds(f, d);
  }

  /** Reading chunk by chunk: drain what is complete, keep the rest. */
  function Feed(f: Framer, chunks: seq<string>): Parsed<seq<Event>> {
    if chunks == [] then Parsed([], "")
    else
      var before := Feed(f, chunks[..|chunks| - 1]);
      var more := Drain(f, before.rest + chunks[|chunks| - 1]);
      Parsed(before.value + more.value, more.rest)
  }

  /** However a byte stream is cut, the events are those of the whole stream. */
  lemma {:induction false} ChunkingIndependent(atod: Atod, f: Framer, chunks: seq<string>)
    requires Implements(f, atod)
    ensures Feed(f, chunks) == Drain(f, Flatten(chunks))
  {
    if chunks == [] {
      assert f("") == Frame(atod, "");
    } else {
      var init := chunks[..|chunks| - 1];
      ChunkingIndependent(atod, f, init);
      DrainExtends(atod, f, Flatten(init), chunks[|chunks| - 1]);
    }
  }

  lemma WedgedIs(atod: Atod, f: Framer, d: string)
    requires Implements(f, atod)
    ensures Drain(f, d).value == [] <==> Parse(atod, d).None?
    ensures Parse(atod, d).None? ==> Drain(f, d).rest == d
  {
    assert f(d) == Frame(atod, d);
  }

  /**
   A connection is wedged for ever, with nothing delivered whatever else arrives, if and only if the
   pending bytes are malformed.
   */
  lemma WedgedExactly(atod: Atod, f: Framer, d: string)
    requires Implements(f, atod)
    ensures Malformed(atod, d) <==> forall e :: Drain(f, d + e).value == []
    ensures Malformed(atod, d) ==> forall e :: Drain(f, d + e).rest == d + e
  {
    MalformedExactly(atod, d);
    forall e
      ensures Drain(f, d + e).value == [] <==> Parse(atod, d + e).None?
      ensures Parse(atod, d + e).None? ==> Drain(f, d + e).rest == d + e
    {
      WedgedIs(atod, f, d + e);
    }
  }

  predicate IsTypeByte(c: char) {
    c == '+' || c == '-' || c == ':' || c == '$' || c == '*' || c == '_' || c == '#' || c == ','
  }

  /** The failing inputs: an unknown type byte, and a number that is none. */
  lemma MalformedInputsWedge(atod: Atod, f: Framer, d: string, e: string)
    requires Implements(f, atod) && d != "" && (!IsTypeByte(d[0]) || d == ":x\r\n")
    ensures Malformed(atod, d) && Drain(f, d + e) == Parsed([], d + e)
  {
    NoNumberIsMalformed(atod);
    WedgedExactly(atod, f, d);
  }

  /** HasCompleteValue: the test behind a protocol error, by the same parser. */
  predicate HasCompleteValue(atod: Atod, d: string) { Parse(atod, d).Some? }

  /** The next complete value: by the fast path if it applies, else by the general parser. */
  method NextEvent(atod: Atod, ghost f: Framer, remaining: string) returns (r: Option<Parsed<Event>>)
    requires Implements(f, atod)
    ensures r == f(remaining)
    ensures r.Some? ==> |r.value.rest| < |remaining| && IsSuffix(r.value.rest, remaining)
    ensures r.None? ==> !HasCompleteValue(atod, remaining)
  {
    assert f(remaining) == Frame(atod, remaining);
    var fast := ParseCommandFromArray(atod, remaining);
    if fast.Some? {
      FastPathRefinesParser(atod, remaining);
      ParseIsSuffix(atod, remaining);
      return Some(Parsed(Received(fast.value.value), fast.value.rest));
    }
    var value := Parse(atod, remaining);
    if value.None? {
      return None;
    }
    ParseIsSuffix(atod, remaining);
    var cmd := ParseCommand(value.value.value);
    return Some(Parsed(if cmd.Some? then Received(cmd.value) else SyntaxError, value.value.rest));
  }

  class Connection {
    const atod: Atod
    ghost const frame: Framer
    var buffer: string
    var offset: nat
    /** Commands handed to the executor and syntax errors answered, in order. */
    var delivered: seq<Event>
    /** Protocol errors answered. */
    var errors: nat

    ghost predicate Valid()
      reads this
    {
      offset <= |buffer| && Implements(frame, atod)
    }

    /** The bytes received and not yet consumed. */
    ghost function Pending(): string
      requires Valid()
      reads this
    {
      buffer[offset..]
    }

    constructor (atod: Atod)
      ensures Valid() && this.atod == atod && Pending() == "" && delivered == [] && errors == 0
    {
      this.atod := atod;
      frame := d => Frame(atod, d);
      buffer, offset, delivered, errors := "", 0, [], 0;
    }

    /** Drop the consumed prefix when all of it, or a large part, is consumed. */
    method Compact()
      requires Valid()
      modifies `buffer, `offset
      ensures Valid() && Pending() == old(Pending())
      ensures offset == 0 || (offset == old(offset) && (offset < COMPACT_THRESHOLD || offset * 2 < |buffer|))
    {
      if offset == |buffer| {
        buffer, offset := "", 0;
      } else if offset >= COMPACT_THRESHOLD && offset * 2 >= |buffer| {
        buffer, offset := buffer[offset..], 0;
      }
    }

    /** The end of ProcessCommands: drop what was consumed, or everything after a protocol error. */
    method Settle(consumed: nat, protocolError: bool)
      requires Valid() && consumed <= |Pending()|
      modifies `buffer, `offset, `errors
      ensures Valid() && Pending() == if protocolError then "" else old(Pending())[consumed..]
      ensures errors == old(errors) + if protocolError then 1 else 0
    {
      offset := offset + consumed;
      if protocolError {
        errors := errors + 1;
        buffer, offset := "", 0;
      } else {
        Compact();
      }
    }

    /**
     Cut complete values off the pending bytes. A protocol error is never answered, malformed bytes or
     not: its test asks the parser that has just failed.
     */
    method ProcessCommands()
      requires Valid()
      modifies this
      ensures Valid() && Pending() == Drain(frame, old(Pending())).rest
      ensures delivered == old(delivered) + Drain(frame, old(Pending())).value && errors == old(errors)
    {
      if offset >= |buffer| {
        assert frame("") == Frame(atod, "");
        buffer, offset := "", 0;
        return;
      }
      var remaining, consumed, protocolError := buffer[offset..], 0, false;
      ghost var all := Drain(frame, remaining);
      while remaining != ""
        invariant Valid() && buffer == old(buffer) && offset == old(offset) && errors == old(errors)
        invariant !protocolError
        invariant IsSuffix(remaining, buffer) && offset + consumed + |remaining| == |buffer|
        invariant delivered + Drain(frame, remaining).value == old(delivered) + all.value
        invariant Drain(frame, remaining).rest == all.rest
        decreases |remaining|
      {
        var next := NextEvent(atod, frame, remaining);
        if next.None? {
          protocolError := HasCompleteValue(atod, remaining);
          break;
        }
        var rest := next.value.rest;
        DrainStep(frame, remaining, delivered);
        SuffixTrans(rest, remaining, buffer);
        delivered := delivered + [next.value.value];
        consumed := consumed + (|remaining| - |rest|);
        remaining := rest;
      }
      assert delivered + [] == delivered;
      Settle(consumed, protocolError);
    }

    /** One completed read. */
    method Receive(chunk: string)
      requires Valid()
      modifies this
      ensures Valid() && Pending() == Drain(frame, old(Pending()) + chunk).rest
      ensures delivered == old(delivered) + Drain(frame, old(Pending()) + chunk).value && errors == old(errors)
    {
      Compact();
      assert (buffer + chunk)[offset..] == buffer[offset..] + chunk;
      buffer := buffer + chunk;
      ProcessCommands();
    }

    /**
     The read loop of a connection: however the network cuts the byte stream, the events delivered
     and the bytes left over are those of the whole stream.
     */
    method ReadLoop(chunks: seq<string>)
      requires Valid() && Pending() == ""
      modifies this
      ensures Valid() && Pending() == Drain(frame, Flatten(chunks)).rest
      ensures delivered == old(delivered) + Drain(frame, Flatten(chunks)).value && errors == old(errors)
    {
      for i := 0 to |chunks|
        invariant Valid() && Feed(frame, chunks[..i]).rest == Pending()
        invariant delivered == old(delivered) + Feed(frame, chunks[..i]).value && errors == old(errors)
      {
        assert chunks[..i + 1][..i] == chunks[..i];
        Receive(chunks[i]);
      }
      assert chunks[..|chunks|] == chunks;
      ChunkingIndependent(atod, frame, chunks);
    }
  }
}
