/** What the append-only file says when the server's own parser reads it. */
module AofDecoding {
  import opened Common
  import opened Aof
  import opened RespParser
  import opened ReceiveBuffer
  import opened RespEncoding

  /** The entries are the encodings of the calls, one each. */
  predicate Encodes(es: seq<Entry>, calls: seq<Call>) {
    |es| == |calls| && forall i | 0 <= i < |es| :: es[i].bytes == Encode(calls[i].name, calls[i].args)
  }

  lemma BytesAreEncodings(es: seq<Entry>, calls: seq<Call>)
    requires Encodes(es, calls)
    ensures Bytes(es) == EncodeAll(calls)
  {
    assert Map(es, Aof.Text()) == Map(calls, Encoder());
  }

  /**
   After a stop, parsing the file gives exactly the written commands in order, with no bytes left;
   and at any time the file is a prefix of such a text.
   */
  lemma FileDecodesToLog(atod: Atod, f: Framer, enabled: bool, steps: seq<Aof.Step>, calls: seq<Call>)
    requires Implements(f, atod) && Aof.IsRun(Init(enabled), steps)
    requires Encodes(Aof.After(Init(enabled), steps).written, calls)
    requires forall i | 0 <= i < |calls| :: Fits(calls[i].name, calls[i].args)
    ensures Aof.After(Init(enabled), steps).file <= EncodeAll(calls)
    ensures Aof.After(Init(enabled), steps).phase.Done? ==>
      Drain(f, Aof.After(Init(enabled), steps).file) == Parsed(Events(calls), "")
  {
    var s := Aof.After(Init(enabled), steps);
    ConservedRun(enabled, steps);
    BytesAreEncodings(s.written, calls);
    if s.phase.Done? {
      StopInvariant(enabled, steps);
      assert s.file + "" == s.file;
      WholeTextDrains(atod, f, calls);
    }
  }

  lemma WholeTextDrains(atod: Atod, f: Framer, calls: seq<Call>)
    requires Implements(f, atod) && forall i | 0 <= i < |calls| :: Fits(calls[i].name, calls[i].args)
    ensures Drain(f, EncodeAll(calls)) == Parsed(Events(calls), "")
  {
    var text := EncodeAll(calls);
    assert Flatten([text]) == text by { assert [text][..0] == [] && "" + text == text; }
    ChunkedCommandsArrive(atod, f, calls, [text]);
    ChunkingIndependent(atod, f, [text]);
  }
}
