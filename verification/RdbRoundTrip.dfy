/** Reading back what was written: the snapshot round trip, and exactly where it fails. */
module RdbRoundTrip {
  import opened Common
  import opened RdbFormat

  // ----- Numbers -----

  function Power256(k: nat): nat { if k == 0 then 1 else 256 * Power256(k - 1) }

  lemma {:induction false} LittleEndianReads(n: nat, k: nat)
    requires n < Power256(k)
    ensures LittleValue(LittleEndian(n, k)) == n
  {
    if k > 0 {
      LittleEndianReads(n / 256, k - 1);
      assert LittleEndian(n, k)[1..] == LittleEndian(n / 256, k - 1);
    }
  }

  lemma FourBytes()
    ensures Power256(4) == 0x1_0000_0000
  {
  }

  lemma EightBytes()
    ensures Power256(8) == UINT64
  {
    assert Power256(4) == 0x1_0000_0000;
    assert Power256(6) == 0x1_0000_0000_0000;
  }

  /** A length is read back, leaving exactly what follows, if and only if it is below 0x4000. */
  lemma LengthRoundTripExact(n: nat, t: Bytes)
    requires n < UINT64
    ensures ReadLength(Length(n) + t) == Got(n, t) <==> n < 0x4000
  {
    var d := Length(n) + t;
    if n < 0x40 {
      assert d[1..] == t;
    } else if n < 0x4000 {
      assert d[2..] == t;
    } else {
      var r := ReadLength(d);
      assert r.Got? && (|r.rest| == |t| + 6 || |r.rest| == |t| + 7);
    }
  }

  /** So is a string: longer ones are written but not read back. */
  lemma StringRoundTripExact(s: Bytes, t: Bytes)
    requires |s| < UINT64
    ensures ReadString(String(s) + t) == Got(s, t) <==> |s| < 0x4000
  {
    assert String(s) + t == Length(|s|) + (s + t);
    LengthRoundTripExact(|s|, s + t);
    if |s| < 0x4000 {
      assert (s + t)[..|s|] == s && (s + t)[|s|..] == t;
    } else {
      LongStringMisread(s, t);
    }
  }

  lemma {:induction false} ZeroBytes(k: nat, i: nat)
    requires i < k
    ensures BigEndian(0, k)[i] == 0
  {
    if i < k - 1 {
      ZeroBytes(k - 1, i);
    }
  }

  /** The reader takes the two high bytes of a long length for the length. */
  lemma HighBytes(n: nat)
    requires 0x4000 <= n < UINT64
    ensures BigEndian(n, 8)[0] as nat * 256 + BigEndian(n, 8)[1] as nat < n
  {
    if n < 0x1_0000 {
      assert BigEndian(n, 8) == BigEndian(0, 6) + [n / 256 % 256, n % 256] by {
        assert n / 256 / 256 == 0;
        assert BigEndian(n / 256, 7) == BigEndian(0, 6) + [n / 256 % 256];
      }
      ZeroBytes(6, 0);
      ZeroBytes(6, 1);
    }
  }

  /** A long string is never read back: the reader gets a shorter one and stops before its end. */
  lemma LongStringMisread(s: Bytes, t: Bytes)
    requires 0x4000 <= |s| < UINT64
    ensures var r := ReadString(String(s) + t); r.Got? ==> |r.value| < |s| && |r.rest| > |t| + 5
  {
    var d := String(s) + t;
    var r := ReadLength(d);
    assert d == [0x80] + BigEndian(|s|, 8) + s + t;
    assert d[1] == BigEndian(|s|, 8)[0] && d[2] == BigEndian(|s|, 8)[1];
    HighBytes(|s|);
    assert r.Got? && r.value < |s| && (|r.rest| == 6 + |s| + |t| || |r.rest| == 7 + |s| + |t|);
  }

  // ----- Records -----

  predicate IsOpcode(b: Byte) {
    b == OPCODE_EOF || b == OPCODE_SELECTDB || b == OPCODE_RESIZEDB || b == OPCODE_EXPIRETIME_MS || b == OPCODE_AUX
  }

  /** What the reader can read: short lengths, non-empty keys, and a type byte that is no opcode. */
  predicate Readable(op: Op) {
    match op
    case SelectDb(db) => db < 0x4000
    case ResizeDb(a, b) => a < 0x4000 && b < 0x4000
    case WriteKv(kind, key, value, ms) =>
      0 < |key| < 0x4000 && |value| < 0x4000 && ms < UINT64 / 2 && (ms < 0 ==> !IsOpcode(kind))
  }

  /** The database selected after an operation. */
  function DbAfter(op: Op, db: nat): nat { if op.SelectDb? then op.db else db }

  /** The call an operation leads to: a record with a value, under the selected database. */
  function CallsOf(op: Op, db: nat): seq<Call> {
    if op.WriteKv? && op.value != [] then
      [Call(db, op.kind, op.key, op.value, if op.expireMs >= 0 then op.expireMs else -1)]
    else []
  }

  function Expected(ops: seq<Op>, db: nat): seq<Call> {
    if ops == [] then [] else CallsOf(ops[0], db) + Expected(ops[1..], DbAfter(ops[0], db))
  }

  /** What reading a written record should give. */
  function KvExpected(kind: Byte, ms: int, db: nat, key: Bytes, value: Bytes, t: Bytes): Read<seq<Call>> {
    Got(if value == [] then [] else [Call(db, kind, key, value, ms)], t)
  }

  lemma ShortKvReads(kind: Byte, ms: int, db: nat, key: Bytes, value: Bytes, t: Bytes)
    requires 0 < |key| < 0x4000 && |value| < 0x4000
    ensures ReadKv(kind, ms, db, String(key) + String(value) + t)
         == Got(if value == [] then [] else [Call(db, kind, key, value, ms)], t)
  {
    assert String(key) + String(value) + t == String(key) + (String(value) + t);
    StringRoundTripExact(key, String(value) + t);
    StringRoundTripExact(value, t);
  }

  /** A record is read back if and only if its key is not empty and both its strings are short. */
  lemma KvReads(kind: Byte, ms: int, db: nat, key: Bytes, value: Bytes, t: Bytes)
    requires |key| < UINT64 && |value| < UINT64
    ensures ReadKv(kind, ms, db, String(key) + String(value) + t) == KvExpected(kind, ms, db, key, value, t)
            <==> 0 < |key| < 0x4000 && |value| < 0x4000
  {
    assert String(key) + String(value) + t == String(key) + (String(value) + t);
    StringRoundTripExact(key, String(value) + t);
    if |key| >= 0x4000 {
      LongKeyMisread(kind, ms, db, key, value, t);
    } else {
      StringRoundTripExact(value, t);
      if |value| >= 0x4000 {
        LongStringMisread(value, t);
      }
    }
  }

  /** Skipping an empty string skips three bytes at most. */
  lemma EmptyStringIsShort(d: Bytes)
    ensures ReadString(d).Got? && ReadString(d).value == [] ==> |ReadString(d).rest| + 3 >= |d|
  {
  }

  lemma LongKeyMisread(kind: Byte, ms: int, db: nat, key: Bytes, value: Bytes, t: Bytes)
    requires 0x4000 <= |key| < UINT64
    ensures ReadKv(kind, ms, db, String(key) + (String(value) + t)) != KvExpected(kind, ms, db, key, value, t)
  {
    var d := String(key) + (String(value) + t);
    LongStringMisread(key, String(value) + t);
    if ReadString(d).Got? {
      EmptyStringIsShort(ReadString(d).rest);
    }
  }

  /** A record with an empty key is not skipped whole: its value is left to be read as opcodes. */
  lemma EmptyKeyDesynchronizes(kind: Byte, ms: int, db: nat, value: Bytes, t: Bytes)
    ensures ReadKv(kind, ms, db, String([]) + String(value) + t) == Got([], String(value) + t)
  {
    assert String([]) + String(value) + t == String([]) + (String(value) + t);
    StringRoundTripExact([], String(value) + t);
  }

  lemma ExpiryReads(ms: int, kind: Byte, db: nat, body: Bytes)
    requires 0 <= ms < UINT64 / 2
    ensures ReadSection(OPCODE_EXPIRETIME_MS, db, LittleEndian(ms, 8) + [kind] + body)
         == WithDb(db, ReadKv(kind, ms, db, body))
  {
    var d := LittleEndian(ms, 8) + [kind] + body;
    assert d[..8] == LittleEndian(ms, 8) && d[8] == kind && d[9..] == body;
    EightBytes();
    LittleEndianReads(ms, 8);
  }

  lemma Regroup(a: Bytes, b: Bytes, c: Bytes, d: Bytes, t: Bytes)
    ensures a + b + c + d + t == a + (b + (c + d + t))
  {
  }

  lemma Join(a: Bytes, b: Bytes, c: Bytes)
    ensures a + b + c == a + (b + c)
  {
  }

  lemma Nest(a: Bytes, b: Bytes, c: Bytes, t: Bytes)
    ensures a + b + c + t == a + (b + (c + t))
  {
  }

  lemma DropFirst(b: Byte, d: Bytes)
    ensures ([b] + d)[0] == b && ([b] + d)[1..] == d
  {
  }

  lemma KvSectionReads(op: Op, db: nat, t: Bytes)
    requires op.WriteKv? && Readable(op)
    ensures var d := OpBytes(op) + t;
      ReadSection(d[0], db, d[1..]) == Got(Section(db, CallsOf(op, db)), t)
  {
    var key, value := String(op.key), String(op.value);
    var body := key + value + t;
    Regroup(Expiry(op.expireMs), [op.kind], key, value, t);
    if op.expireMs >= 0 {
      var stamp := LittleEndian(op.expireMs, 8);
      assert OpBytes(op) + t == [OPCODE_EXPIRETIME_MS] + (stamp + [op.kind] + body);
      DropFirst(OPCODE_EXPIRETIME_MS, stamp + [op.kind] + body);
      ExpiryReads(op.expireMs, op.kind, db, body);
      ShortKvReads(op.kind, op.expireMs, db, op.key, op.value, t);
    } else {
      assert OpBytes(op) + t == [op.kind] + body;
      DropFirst(op.kind, body);
      ShortKvReads(op.kind, -1, db, op.key, op.value, t);
    }
  }

  lemma SectionReads(op: Op, db: nat, t: Bytes)
    requires Readable(op)
    ensures OpBytes(op) != [] && OpBytes(op)[0] != OPCODE_EOF && OpBytes(op)[0] != OPCODE_AUX
    ensures var d := OpBytes(op) + t;
      ReadSection(d[0], db, d[1..]) == Got(Section(DbAfter(op, db), CallsOf(op, db)), t)
  {
    var d := OpBytes(op) + t;
    match op
    case SelectDb(n) =>
      assert d[1..] == Length(n) + t;
      LengthRoundTripExact(n, t);
    case ResizeDb(a, b) =>
      assert d[1..] == Length(a) + (Length(b) + t);
      LengthRoundTripExact(a, Length(b) + t);
      LengthRoundTripExact(b, t);
    case WriteKv(_, _, _, _) => KvSectionReads(op, db, t);
  }

  lemma {:induction false} SectionsRead(ops: seq<Op>, db: nat, t: Bytes)
    requires forall op | op in ops :: Readable(op)
    ensures var d := OpsBytes(ops) + [OPCODE_EOF] + t;
      d[0] != OPCODE_AUX && ReadSections(d[0], db, d[1..]) == Got(Expected(ops, db), t)
  {
    var d := OpsBytes(ops) + [OPCODE_EOF] + t;
    if ops == [] {
      assert d == [OPCODE_EOF] + t;
      assert d[1..] == t;
    } else {
      var later := OpsBytes(ops[1..]) + [OPCODE_EOF] + t;
      FlattenMapFront(ops, OpWriter());
      assert d == OpBytes(ops[0]) + later;
      SectionReads(ops[0], db, later);
      SectionsRead(ops[1..], DbAfter(ops[0], db), t);
    }
  }

  // ----- Files -----

  predicate ShortFields(fields: seq<Field>) {
    forall f | f in fields :: |f.name| < 0x4000 && |f.text| < 0x4000
  }

  lemma AuxFieldReads(name: Bytes, text: Bytes, later: Bytes)
    requires |name| < 0x4000 && |text| < 0x4000
    ensures ReadAux(Aux(name, text) + later) == ReadAux(later)
  {
    var n, v := String(name), String(text);
    Nest([OPCODE_AUX], n, v, later);
    DropFirst(OPCODE_AUX, n + (v + later));
    StringRoundTripExact(name, v + later);
    StringRoundTripExact(text, later);
  }

  lemma {:induction false} AuxReads(fields: seq<Field>, d: Bytes)
    requires ShortFields(fields) && d != [] && d[0] != OPCODE_AUX
    ensures ReadAux(AuxBytes(fields) + d) == Got(d[0], d[1..])
  {
    if fields == [] {
      assert AuxBytes(fields) + d == d;
    } else {
      FlattenMapFront(fields, FieldWriter());
      Join(Aux(fields[0].name, fields[0].text), AuxBytes(fields[1..]), d);
      AuxFieldReads(fields[0].name, fields[0].text, AuxBytes(fields[1..]) + d);
      AuxReads(fields[1..], d);
    }
  }

  lemma HeaderReads(aux: Bytes, sections: Bytes, t: Bytes)
    ensures var d := MAGIC + [RDB_VERSION] + aux + sections + [OPCODE_EOF] + t;
      |d| >= 6 && d[..5] == MAGIC && d[5] == RDB_VERSION && d[6..] == aux + (sections + [OPCODE_EOF] + t)
  {
  }

  /**
   For all readable operations: the file is read back as exactly the records with a value, in order,
   each with its database, type and expiry, and reading stops right before the checksum.
   */
  lemma FileRoundTrip(fields: seq<Field>, ops: seq<Op>, t: Bytes)
    requires ShortFields(fields) && forall op | op in ops :: Readable(op)
    ensures ReadFile(Body(fields, ops) + t) == Got(Content(Expected(ops, 0)), t)
  {
    HeaderReads(AuxBytes(fields), OpsBytes(ops), t);
    SectionsRead(ops, 0, t);
    AuxReads(fields, OpsBytes(ops) + [OPCODE_EOF] + t);
  }

  /** Whatever the file holds, no call has an empty key or an empty value. */
  lemma CallsNeverEmpty(d: Bytes)
    ensures var r := ReadFile(d);
      r.Got? && r.value.Content? ==> forall c | c in r.value.calls :: c.key != [] && c.value != []
  {
  }
}
