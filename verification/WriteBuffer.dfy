/**
 The outgoing byte stream of a connection: Send, DoWrite and the completion of a write
 (src/astra/network/connection.cpp). At most one asynchronous write is under way; it covers the bytes
 that were buffered when it began, and more may be appended behind them meanwhile.
 */
module WriteBuffer {

  /** `writing` is the size of the write under way, if `busy`; `accepted` and `delivered` are history. */
  datatype Out = Out(buffer: string, busy: bool, writing: nat, closing: bool, accepted: string, delivered: string)

  const EMPTY := Out("", false, 0, false, "", "")

  datatype Event =
    | Sent(data: string)
    | Completed(transferred: nat)
    | Failed(transferred: nat)
    | Closed

  /** A completion reports no more than the write covered, and the write covered buffered bytes. */
  predicate Enabled(o: Out, e: Event) {
    match e
    case Sent(_) => true
    case Completed(n) => o.busy && n <= o.writing <= |o.buffer|
    case Failed(n) => o.busy && n <= o.writing <= |o.buffer|
    case Closed => true
  }

  /** DoWrite: start writing all that is buffered, unless a write is under way or nothing is there. */
  function Started(o: Out): Out {
    if o.busy || o.buffer == "" then o else o.(busy := true, writing := |o.buffer|)
  }

  function Next(o: Out, e: Event): Out
    requires Enabled(o, e)
  {
    match e
    case Sent(data) =>
      if o.closing then o else Started(o.(buffer := o.buffer + data, accepted := o.accepted + data))
    case Completed(n) =>
      Started(o.(busy := false, writing := 0, buffer := o.buffer[n..], delivered := o.delivered + o.buffer[..n]))
    case Failed(n) => o.(busy := false, writing := 0, closing := true, delivered := o.delivered + o.buffer[..n])
    case Closed => o.(closing := true)
  }

  class Connection {
    var writeBuffer: string
    var writing: bool
    var writeSize: nat
    var closing: bool
    ghost var accepted: string
    ghost var delivered: string

    ghost function State(): Out
      reads this
    {
      Out(writeBuffer, writing, if writing then writeSize else 0, closing, accepted, delivered)
    }

    ghost predicate Valid()
      reads this
    {
      OutOk(State())
    }

    constructor ()
      ensures Valid() && State() == EMPTY
    {
      writeBuffer, writing, writeSize, closing := "", false, 0, false;
      accepted, delivered := "", "";
    }

    method DoWrite()
      modifies `writing, `writeSize
      ensures State() == Started(old(State()))
    {
      if writing || writeBuffer == "" {
        return;
      }
      writing := true;
      writeSize := |writeBuffer|;
    }

    method Send(data: string)
      requires Valid()
      modifies this
      ensures Valid() && State() == Next(old(State()), Sent(data))
    {
      StepKeeps(State(), Sent(data));
      if closing {
        return;
      }
      writeBuffer := writeBuffer + data;
      accepted := accepted + data;
      DoWrite();
    }

    method Close()
      requires Valid()
      modifies `closing
      ensures Valid() && State() == Next(old(State()), Closed)
    {
      closing := true;
    }

    /** The handler of a finished write. */
    method OnWritten(failed: bool, transferred: nat)
      requires Valid() && writing && transferred <= writeSize
      modifies this
      ensures Valid()
      ensures State() == Next(old(State()), if failed then Failed(transferred) else Completed(transferred))
    {
      StepKeeps(State(), if failed then Failed(transferred) else Completed(transferred));
      delivered := delivered + writeBuffer[..transferred];
      writing := false;
      if failed {
        closing := true;
        return;
      }
      if transferred < writeSize {
        writeBuffer := writeBuffer[transferred..];
        DoWrite();
      } else if |writeBuffer| > writeSize {
        writeBuffer := writeBuffer[writeSize..];
        if writeBuffer != "" {
          DoWrite();
        }
      } else {
        writeBuffer := "";
      }
    }
  }

  // ----- Runs -----

  /**
   The bytes under way are a prefix of the buffer. Until a write fails, what was delivered followed by
   the buffer is all that was accepted, and nothing waits without a write under way; afterwards the
   delivered bytes are still a prefix of the accepted ones.
   */
  predicate OutOk(o: Out) {
    && o.writing <= |o.buffer| && (!o.busy ==> o.writing == 0)
    && (o.delivered + o.buffer == o.accepted || (o.closing && !o.busy))
    && o.delivered <= o.accepted
    && (o.buffer != "" ==> o.busy || o.closing)
  }

  predicate IsRun(events: seq<Event>)
    decreases |events|, 0
  {
    events == []
    || (IsRun(events[..|events| - 1]) && Enabled(After(events[..|events| - 1]), events[|events| - 1]))
  }

  function After(events: seq<Event>): Out
    requires IsRun(events)
    decreases |events|, 1
  {
    if events == [] then EMPTY else Next(After(events[..|events| - 1]), events[|events| - 1])
  }

  lemma StepKeeps(o: Out, e: Event)
    requires OutOk(o) && Enabled(o, e)
    ensures OutOk(Next(o, e))
  {
    var t := Next(o, e);
    match e
    case Sent(data) =>
      if !o.closing {
        assert o.delivered + (o.buffer + data) == o.accepted + data;
      }
    case Completed(n) =>
      assert o.buffer == o.buffer[..n] + o.buffer[n..];
      assert o.delivered + o.buffer[..n] + o.buffer[n..] == o.delivered + o.buffer;
    case Failed(n) =>
      assert o.delivered + o.buffer == o.delivered + o.buffer[..n] + o.buffer[n..];
    case Closed =>
  }

  /** The connection was closed, or a write failed. */
  predicate Over(events: seq<Event>) { exists e :: e in events && (e.Closed? || e.Failed?) }

  /** What was sent before that, one piece after the other. */
  function Offered(events: seq<Event>): string {
    if events == [] then ""
    else
      var before, e := events[..|events| - 1], events[|events| - 1];
      if e.Sent? && !Over(before) then Offered(before) + e.data else Offered(before)
  }

  lemma {:induction false} AcceptedIsOffered(events: seq<Event>)
    requires IsRun(events)
    ensures After(events).accepted == Offered(events) && (After(events).closing <==> Over(events))
  {
    if events != [] {
      var before, e := events[..|events| - 1], events[|events| - 1];
      AcceptedIsOffered(before);
      assert forall x :: x in events <==> x in before || x == e;
    }
  }

  lemma {:induction false} RunKeeps(events: seq<Event>)
    requires IsRun(events)
    ensures OutOk(After(events))
  {
    if events != [] {
      RunKeeps(events[..|events| - 1]);
      StepKeeps(After(events[..|events| - 1]), events[|events| - 1]);
    }
  }

  /**
   For every interleaving of sends with full, partial and failed writes: what was delivered is a prefix
   of what was sent; until the end it is all of it but the buffer, and no byte waits without a write.
   */
  lemma StreamIsFaithful(events: seq<Event>)
    requires IsRun(events)
    ensures var o := After(events);
      && o.delivered <= Offered(events) && o.writing <= |o.buffer|
      && (!Over(events) ==> o.delivered + o.buffer == Offered(events) && (o.buffer != "" ==> o.busy))
  {
    RunKeeps(events);
    AcceptedIsOffered(events);
  }

  /** While no write fails, everything sent before the end is delivered once the buffer is empty. */
  lemma {:induction false} NothingFailsNothingLost(events: seq<Event>)
    requires IsRun(events) && forall e | e in events :: !e.Failed?
    ensures After(events).delivered + After(events).buffer == Offered(events)
  {
    if events != [] {
      var before, e := events[..|events| - 1], events[|events| - 1];
      NothingFailsNothingLost(before);
      AcceptedIsOffered(before);
      StepLosesNothing(After(before), e);
    }
  }

  lemma StepLosesNothing(o: Out, e: Event)
    requires Enabled(o, e) && !e.Failed?
    ensures var t := Next(o, e);
      t.delivered + t.buffer == o.delivered + o.buffer + if e.Sent? && !o.closing then e.data else ""
  {
    if e.Completed? {
      assert o.buffer == o.buffer[..e.transferred] + o.buffer[e.transferred..];
      assert o.delivered + o.buffer[..e.transferred] + o.buffer[e.transferred..] == o.delivered + o.buffer;
    } else if e.Sent? {
      assert o.delivered + (o.buffer + e.data) == o.delivered + o.buffer + e.data;
    }
  }
}
