/**
 RdbWriter and RdbReader as objects: a file that grows or a cursor that advances, and a checksum that
 both extend as they go (src/astra/persistence/rdb_writer.hpp, src/astra/persistence/rdb_reader.hpp).
 The checksum is any 32-bit function that can be computed piece by piece.
 */
module RdbFiles {
  import opened Common
  import opened RdbFormat
  import opened RdbRoundTrip

  /** absl::ExtendCrc32c. */
  type Extend = (nat, Bytes) -> nat

  /** Extending the checksum of `a` by `b` is the checksum of both, and is a 32-bit value. */
  predicate Extends(ext: Extend, a: Bytes, b: Bytes) {
    ext(ext(0, a), b) == ext(0, a + b) < 0x1_0000_0000
  }

  ghost predicate Streaming(ext: Extend) {
    ext(0, []) == 0 && forall a, b :: Extends(ext, a, b)
  }

  const CHECKSUM_SIZE: nat := 4

  lemma Grow3(f: Bytes, a: Bytes, b: Bytes, c: Bytes)
    ensures f + a + b + c == f + (a + b + c)
  {
  }

  lemma Grow4(f: Bytes, a: Bytes, b: Bytes, c: Bytes, d: Bytes)
    ensures f + a + b + c + d == f + (a + b + c + d)
  {
  }

  /** One more element written. */
  lemma WriteStep<T>(f: Bytes, s: seq<T>, i: nat, g: T -> Bytes)
    requires i < |s|
    ensures f + Flatten(Map(s[..i], g)) + g(s[i]) == f + Flatten(Map(s[..i + 1], g))
  {
    assert s[..i + 1] == s[..i] + [s[i]];
    FlattenMapPush(s[..i], s[i], g);
    Join(f, Flatten(Map(s[..i], g)), g(s[i]));
  }

  class RdbWriter {
    const ext: Extend
    var file: Bytes
    var crc: nat

    /** The running checksum is that of everything written. */
    ghost predicate Valid()
      reads this
    {
      Streaming(ext) && crc == ext(0, file)
    }

    constructor (ext: Extend)
      requires Streaming(ext)
      ensures Valid() && this.ext == ext && file == []
    {
      this.ext := ext;
      file, crc := [], 0;
    }

    method Write(data: Bytes)
      requires Valid()
      modifies this
      ensures Valid() && file == old(file) + data
    {
      assert Extends(ext, file, data);
      crc := ext(crc, data);
      file := file + data;
    }

    method WriteLength(n: nat)
      requires Valid()
      modifies this
      ensures Valid() && file == old(file) + Length(n)
    {
      if n < 0x40 {
        Write([n]);
      } else if n < 0x4000 {
        Write([0x40 + n / 256]);
        Write([n % 256]);
      } else {
        Join(file, [0x80], BigEndian(n, 8));
        Write([0x80]);
        Write(BigEndian(n, 8));
      }
    }

    method WriteString(s: Bytes)
      requires Valid()
      modifies this
      ensures Valid() && file == old(file) + String(s)
    {
      Join(file, Length(|s|), s);
      WriteLength(|s|);
      Write(s);
    }

    method WriteAux(key: Bytes, value: Bytes)
      requires Valid()
      modifies this
      ensures Valid() && file == old(file) + Aux(key, value)
    {
      Grow3(file, [OPCODE_AUX], String(key), String(value));
      Write([OPCODE_AUX]);
      WriteString(key);
      WriteString(value);
    }

    method SelectDb(db: nat)
      requires Valid()
      modifies this
      ensures Valid() && file == old(file) + OpBytes(Op.SelectDb(db))
    {
      Join(file, [OPCODE_SELECTDB], Length(db));
      Write([OPCODE_SELECTDB]);
      WriteLength(db);
    }

    method ResizeDb(dbSize: nat, expiresSize: nat)
      requires Valid()
      modifies this
      ensures Valid() && file == old(file) + OpBytes(Op.ResizeDb(dbSize, expiresSize))
    {
      Grow3(file, [OPCODE_RESIZEDB], Length(dbSize), Length(expiresSize));
      Write([OPCODE_RESIZEDB]);
      WriteLength(dbSize);
      WriteLength(expiresSize);
    }

    method WriteExpiry(ms: int)
      requires Valid()
      modifies this
      ensures Valid() && file == old(file) + Expiry(ms)
    {
      if ms >= 0 {
        Join(file, [OPCODE_EXPIRETIME_MS], LittleEndian(ms, 8));
        Write([OPCODE_EXPIRETIME_MS]);
        Write(LittleEndian(ms, 8));
      }
    }

    method WriteKv(kind: Byte, key: Bytes, value: Bytes, ms: int)
      requires Valid()
      modifies this
      ensures Valid() && file == old(file) + OpBytes(Op.WriteKv(kind, key, value, ms))
    {
      Grow4(file, Expiry(ms), [kind], String(key), String(value));
      WriteExpiry(ms);
      Write([kind]);
      WriteString(key);
      WriteString(value);
    }

    method WriteOp(op: Op)
      requires Valid()
      modifies this
      ensures Valid() && file == old(file) + OpBytes(op)
    {
      match op
      case SelectDb(db) => SelectDb(db);
      case ResizeDb(a, b) => ResizeDb(a, b);
      case WriteKv(kind, key, value, ms) => WriteKv(kind, key, value, ms);
    }

    /** Whatever the save callback does, as a list of operations. */
    method Callback(ops: seq<Op>)
      requires Valid()
      modifies this
      ensures Valid() && file == old(file) + OpsBytes(ops)
    {
      assert Map(ops[..0], OpWriter()) == [] && old(file) + [] == old(file);
      for i := 0 to |ops|
        invariant Valid() && file == old(file) + OpsBytes(ops[..i])
      {
        WriteStep(old(file), ops, i, OpWriter());
        WriteOp(ops[i]);
      }
      assert ops[..|ops|] == ops;
    }

    method WriteFields(fields: seq<Field>)
      requires Valid()
      modifies this
      ensures Valid() && file == old(file) + AuxBytes(fields)
    {
      assert Map(fields[..0], FieldWriter()) == [] && old(file) + [] == old(file);
      for i := 0 to |fields|
        invariant Valid() && file == old(file) + AuxBytes(fields[..i])
      {
        WriteStep(old(file), fields, i, FieldWriter());
        WriteAux(fields[i].name, fields[i].text);
      }
      assert fields[..|fields|] == fields;
    }

    /** The saved bytes: header, fields, operations, end mark and, if asked for, the checksum of all of it. */
    method Save(checksum: bool, fields: seq<Field>, ops: seq<Op>) returns (saved: Bytes)
      requires Valid() && file == []
      modifies this
      ensures saved == Saved(ext, checksum, fields, ops)
    {
      Grow4([], MAGIC, [RDB_VERSION], AuxBytes(fields), OpsBytes(ops));
      Write(MAGIC);
      Write([RDB_VERSION]);
      WriteFields(fields);
      Callback(ops);
      ghost var content := MAGIC + [RDB_VERSION] + AuxBytes(fields) + OpsBytes(ops);
      assert file == content by { assert [] + content == content; }
      Write([OPCODE_EOF]);
      saved := file;
      if checksum {
        saved := saved + LittleEndian(crc, CHECKSUM_SIZE);
      }
    }
  }

  function Saved(ext: Extend, checksum: bool, fields: seq<Field>, ops: seq<Op>): Bytes {
    var body := Body(fields, ops);
    if checksum then body + LittleEndian(ext(0, body), CHECKSUM_SIZE) else body
  }

  /** Whether loading succeeded; Undefined when it ran off the end of the file. */
  datatype Outcome = Loaded(ok: bool) | Undefined

  /** The reading of database sections, as a value. */
  type Sections = (Byte, nat, Bytes) -> Read<seq<Call>>

  ghost predicate IsReadSections(spec: Sections) {
    forall opcode, db, d {:trigger ReadSections(opcode, db, d)} :: spec(opcode, db, d) == ReadSections(opcode, db, d)
  }

  class RdbReader {
    const ext: Extend
    const file: Bytes
    var pos: nat
    var crc: nat
    var calls: seq<Call>

    /** The running checksum is that of everything read. */
    ghost predicate Valid()
      reads this
    {
      Streaming(ext) && pos <= |file| && crc == ext(0, file[..pos])
    }

    ghost function Rest(): Bytes
      requires Valid()
      reads this
    {
      file[pos..]
    }

    /** The next thing was read as `expected` says, or the file ended first. */
    ghost predicate Advanced<T>(expected: Read<T>, r: Option<T>)
      reads this
    {
      && Valid()
      && match expected
         case PastEnd => r.None?
         case Got(value, rest) => r == Some(value) && Rest() == rest
    }

    constructor (ext: Extend, file: Bytes)
      requires Streaming(ext)
      ensures Valid() && this.ext == ext && this.file == file && pos == 0 && calls == []
    {
      this.ext, this.file := ext, file;
      pos, crc, calls := 0, 0, [];
      new;
      assert file[..0] == [];
    }

    method ReadBytes(n: nat) returns (r: Option<Bytes>)
      requires Valid()
      modifies `pos, `crc
      ensures Advanced(RdbFormat.ReadBytes(old(Rest()), n), r)
    {
      if |file| - pos < n {
        return None;
      }
      var data := file[pos..pos + n];
      assert Extends(ext, file[..pos], data);
      assert file[..pos] + data == file[..pos + n];
      assert file[pos..][..n] == data && file[pos..][n..] == file[pos + n..];
      crc := ext(crc, data);
      pos := pos + n;
      r := Some(data);
    }

    method ReadOpcode() returns (r: Option<Byte>)
      requires Valid()
      modifies `pos, `crc
      ensures Advanced(ReadByte(old(Rest())), r)
    {
      var b := ReadBytes(1);
      if b.None? {
        return None;
      }
      r := Some(b.value[0]);
    }

    method ReadLength() returns (r: Option<nat>)
      requires Valid()
      modifies `pos, `crc
      ensures Advanced(RdbFormat.ReadLength(old(Rest())), r)
    {
      var first := ReadOpcode();
      if first.None? {
        return None;
      }
      if first.value < 0x40 {
        return Some(first.value);
      }
      var second := ReadOpcode();
      if second.None? {
        return None;
      }
      if first.value < 0x80 {
        return Some((first.value as nat - 0x40) * 256 + second.value as nat);
      }
      if second.value == 0x80 {
        return Some(0);
      }
      var third := ReadOpcode();
      if third.None? {
        return None;
      }
      r := Some(second.value as nat * 256 + third.value as nat);
    }

    method ReadString() returns (r: Option<Bytes>)
      requires Valid()
      modifies `pos, `crc
      ensures Advanced(RdbFormat.ReadString(old(Rest())), r)
    {
      var n := ReadLength();
      if n.None? {
        return None;
      }
      if n.value == 0 {
        return Some([]);
      }
      r := ReadBytes(n.value);
    }

    /** Skip auxiliary fields; the first other opcode. */
    method ReadAuxFields() returns (r: Option<Byte>)
      requires Valid()
      modifies `pos, `crc
      ensures Advanced(ReadAux(old(Rest())), r)
    {
      while true
        invariant Valid() && ReadAux(Rest()) == ReadAux(old(Rest()))
        decreases |file| - pos
      {
        var opcode := ReadOpcode();
        if opcode.None? || opcode.value != OPCODE_AUX {
          return opcode;
        }
        var key := ReadString();
        if key.None? {
          return None;
        }
        var value := ReadString();
        if value.None? {
          return None;
        }
      }
    }

    /** Read one record and call back, unless its key or value is empty; false past the end. */
    method ReadKeyValue(kind: Byte, expireMs: int, db: nat) returns (done: bool)
      requires Valid()
      modifies this
      ensures Valid()
      ensures match ReadKv(kind, expireMs, db, old(Rest()))
        case PastEnd => !done && calls == old(calls)
        case Got(cs, rest) => done && calls == old(calls) + cs && Rest() == rest
    {
      var key := ReadString();
      if key.None? {
        return false;
      }
      if key.value == [] {
        return true;
      }
      var value := ReadString();
      if value.None? {
        return false;
      }
      if value.value != [] {
        calls := calls + [Call(db, kind, key.value, value.value, expireMs)];
      }
      done := true;
    }

    /** One turn of the loop in Load: the database now selected. */
    method ReadSection(opcode: Byte, db: nat) returns (r: Option<nat>)
      requires Valid()
      modifies this
      ensures Valid()
      ensures match RdbFormat.ReadSection(opcode, db, old(Rest()))
        case PastEnd => r.None?
        case Got(section, rest) => r == Some(section.db) && calls == old(calls) + section.calls && Rest() == rest
    {
      if opcode == OPCODE_SELECTDB {
        r := ReadLength();
      } else if opcode == OPCODE_RESIZEDB {
        var dbSize := ReadLength();
        if dbSize.None? {
          return None;
        }
        var expiresSize := ReadLength();
        r := if expiresSize.None? then None else Some(db);
      } else if opcode == OPCODE_EXPIRETIME_MS {
        var d := Rest();
        var stamp := ReadBytes(8);
        if stamp.None? {
          return None;
        }
        var kind := ReadOpcode();
        if kind.None? {
          return None;
        }
        assert d[8..][1..] == d[9..];
        var done := ReadKeyValue(kind.value, ToInt64(LittleValue(stamp.value)), db);
        r := if done then Some(db) else None;
      } else {
        var done := ReadKeyValue(opcode, -1, db);
        r := if done then Some(db) else None;
      }
    }

    /** One turn of the loop and the opcode of the next. */
    method Turn(ghost spec: Sections, opcode: Byte, db: nat, ghost made: seq<Call>)
      returns (next: Option<(Byte, nat)>, ghost more: seq<Call>)
      requires Valid() && opcode != OPCODE_EOF && IsReadSections(spec)
      modifies this
      ensures Valid()
      ensures next.None? ==> Prepend(made, spec(opcode, db, old(Rest()))).PastEnd?
      ensures next.Some? ==>
        && old(pos) < pos && calls == old(calls) + more
        && Prepend(made, spec(opcode, db, old(Rest())))
           == Prepend(made + more, spec(next.value.0, next.value.1, Rest()))
    {
      more := [];
      NextSection(opcode, db, Rest(), made);
      ghost var section := RdbFormat.ReadSection(opcode, db, Rest());
      var selected := ReadSection(opcode, db);
      if selected.None? {
        return None, more;
      }
      var code := ReadOpcode();
      if code.None? {
        return None, more;
      }
      next, more := Some((code.value, selected.value)), section.value.calls;
      assert spec(code.value, selected.value, Rest()) == RdbFormat.ReadSections(code.value, selected.value, Rest());
    }

    /** The loop in Load, from the first opcode of the database section on. */
    method ReadSections(ghost spec: Sections, first: Byte) returns (done: bool)
      requires Valid() && IsReadSections(spec)
      modifies this
      ensures Valid()
      ensures match spec(first, 0, old(Rest()))
        case PastEnd => !done
        case Got(cs, rest) => done && calls == old(calls) + cs && Rest() == rest
    {
      var opcode, db := first, 0;
      ghost var made: seq<Call> := [];
      ghost var all := spec(first, 0, Rest());
      PrependNone(all);
      while opcode != OPCODE_EOF
        invariant Valid() && calls == old(calls) + made
        invariant Prepend(made, spec(opcode, db, Rest())) == all
        decreases |file| - pos
      {
        var next, more := Turn(spec, opcode, db, made);
        if next.None? {
          return false;
        }
        made := made + more;
        opcode, db := next.value.0, next.value.1;
      }
      assert spec(opcode, db, Rest()) == RdbFormat.ReadSections(opcode, db, Rest());
      assert made + [] == made;
      done := true;
    }

    method ReadHeader() returns (r: Option<bool>)
      requires Valid() && pos == 0
      modifies `pos, `crc
      ensures Valid()
      ensures r == Some(true) <==> |file| >= 6 && file[..5] == MAGIC && file[5] == RDB_VERSION
      ensures r == Some(true) ==> Rest() == file[6..]
      ensures r == Some(false) <==>
        |file| >= 5 && (file[..5] != MAGIC || (|file| >= 6 && file[5] != RDB_VERSION))
    {
      var magic := ReadBytes(5);
      if magic.None? {
        return None;
      }
      assert file[0..] == file;
      if magic.value != MAGIC {
        return Some(false);
      }
      var version := ReadOpcode();
      if version.None? {
        return None;
      }
      r := Some(version.value == RDB_VERSION);
    }

    method ReadContent() returns (done: bool)
      requires Valid()
      modifies this
      ensures Valid()
      ensures match RdbFormat.ReadContent(old(Rest()))
        case PastEnd => !done
        case Got(cs, rest) => done && calls == old(calls) + cs && Rest() == rest
    {
      var opcode := ReadAuxFields();
      if opcode.None? {
        return false;
      }
      done := ReadSections((op: Byte, db: nat, d: Bytes) => RdbFormat.ReadSections(op, db, d), opcode.value);
    }

    /** The stored checksum is that of everything read; None when the file ends before it. */
    method VerifyChecksum() returns (r: Option<bool>)
      requires Valid()
      ensures r == if |Rest()| < CHECKSUM_SIZE then None
                   else Some(LittleValue(Rest()[..CHECKSUM_SIZE]) == ext(0, file[..pos]))
    {
      if |file| - pos < CHECKSUM_SIZE {
        return None;
      }
      assert file[pos..][..CHECKSUM_SIZE] == file[pos..pos + CHECKSUM_SIZE];
      r := Some(LittleValue(file[pos..pos + CHECKSUM_SIZE]) == crc);
    }

    /** Load a whole file: the callbacks made, and whether header and checksum were right. */
    method Load(verifyChecksum: bool) returns (outcome: Outcome)
      requires Valid() && pos == 0 && calls == []
      modifies this
      ensures Valid()
      ensures outcome == Loaded(true) ==> |file| >= 6 && file[..6] == [0x52, 0x45, 0x44, 0x49, 0x53, 10]
      ensures outcome == Loaded(true) && verifyChecksum ==>
        |Rest()| >= 4 && LittleValue(Rest()[..4]) == ext(0, file[..pos])
      ensures match ReadFile(file)
        case PastEnd => outcome == Undefined
        case Got(BadHeader, _) => outcome == Loaded(false)
        case Got(Content(cs), rest) =>
          && calls == cs && Rest() == rest
          && if !verifyChecksum then outcome == Loaded(true)
             else if |rest| < 4 then outcome == Undefined
             else outcome == Loaded(LittleValue(rest[..4]) == ext(0, file[..pos]))
    {
      var header := ReadHeader();
      if header.None? {
        return Undefined;
      }
      if !header.value {
        return Loaded(false);
      }
      var done := ReadContent();
      if !done {
        return Undefined;
      }
      if !verifyChecksum {
        return Loaded(true);
      }
      var matches := VerifyChecksum();
      outcome := if matches.None? then Undefined else Loaded(matches.value);
    }
  }

  lemma PrependNone(r: Read<seq<Call>>)
    ensures Prepend([], r) == r
  {
    if r.Got? {
      assert [] + r.value == r.value;
    }
  }

  lemma PrependTwice(a: seq<Call>, b: seq<Call>, r: Read<seq<Call>>)
    ensures Prepend(a, Prepend(b, r)) == Prepend(a + b, r)
  {
    if r.Got? {
      assert a + (b + r.value) == a + b + r.value;
    }
  }

  lemma NextSection(opcode: Byte, db: nat, d: Bytes, made: seq<Call>)
    requires opcode != OPCODE_EOF
    ensures Prepend(made, ReadSections(opcode, db, d)) ==
      match ReadSection(opcode, db, d)
      case PastEnd => PastEnd
      case Got(section, rest) =>
        if rest == [] then PastEnd
        else Prepend(made + section.calls, ReadSections(rest[0], section.db, rest[1..]))
  {
    var r := ReadSection(opcode, db, d);
    if r.Got? && r.rest != [] {
      PrependTwice(made, r.value.calls, ReadSections(r.rest[0], r.value.db, r.rest[1..]));
    }
  }

  /**
   A written file with any bytes after it: it calls back exactly the records with a value, in order, with
   their database, type and expiry, and where the checksum is verified it loads if and only if the next
   four bytes, least significant first, are the checksum of what was written.
   */
  method LoadWritten(ext: Extend, verify: bool, fields: seq<Field>, ops: seq<Op>, t: Bytes)
    returns (outcome: Outcome, calls: seq<Call>)
    requires Streaming(ext) && ShortFields(fields) && forall op | op in ops :: Readable(op)
    ensures calls == Expected(ops, 0)
    ensures !verify ==> outcome == Loaded(true)
    ensures verify ==> (outcome == Undefined <==> |t| < 4)
    ensures verify && |t| >= 4 ==> outcome == Loaded(LittleValue(t[..4]) == ext(0, Body(fields, ops)))
  {
    var body := Body(fields, ops);
    FileRoundTrip(fields, ops, t);
    var reader := new RdbReader(ext, body + t);
    outcome := reader.Load(verify);
    calls := reader.calls;
    assert reader.pos == |body| && reader.file[..|body|] == body;
  }

  /**
   The snapshot round trip through both objects: what is saved loads again, unless a checksum is verified
   that was not written, when the reader runs off the end of the file.
   */
  method SaveThenLoad(ext: Extend, checksum: bool, verify: bool, fields: seq<Field>, ops: seq<Op>)
    returns (outcome: Outcome, calls: seq<Call>)
    requires Streaming(ext) && ShortFields(fields) && forall op | op in ops :: Readable(op)
    ensures calls == Expected(ops, 0)
    ensures outcome == if verify && !checksum then Undefined else Loaded(true)
  {
    var writer := new RdbWriter(ext);
    var saved := writer.Save(checksum, fields, ops);
    ghost var body := Body(fields, ops);
    ghost var t := if checksum then LittleEndian(ext(0, body), CHECKSUM_SIZE) else [];
    assert Extends(ext, body, []) && body + [] == body && saved == body + t;
    FourBytes();
    LittleEndianReads(ext(0, body), CHECKSUM_SIZE);
    FileRoundTrip(fields, ops, t);
    var reader := new RdbReader(ext, saved);
    outcome := reader.Load(verify);
    calls := reader.calls;
    assert reader.pos == |body| && reader.file[..|body|] == body;
    assert checksum ==> t[..4] == t;
  }

  // ----- A small file, byte by byte -----

  const SAMPLE_FIELDS: seq<Field> := [Field([97], [98])]
  const SAMPLE_OPS: seq<Op> := [Op.SelectDb(1), Op.WriteKv(0, [107], [118], 513)]
  const SAMPLE_RECORD: Bytes := [0xFD] + LittleEndian(513, 8) + [0, 1, 107, 1, 118]

  lemma SampleField()
    ensures AuxBytes(SAMPLE_FIELDS) == [0xFA, 1, 97, 1, 98]
  {
    FlattenMapFront(SAMPLE_FIELDS, FieldWriter());
    assert SAMPLE_FIELDS[1..] == [] && AuxBytes([]) == [];
    assert Aux([97], [98]) == [0xFA, 1, 97, 1, 98];
  }

  lemma RecordBytes(stamp: Bytes)
    ensures [0xFD] + stamp + [0] + String([107]) + String([118]) == [0xFD] + stamp + [0, 1, 107, 1, 118]
  {
    assert String([107]) == [1, 107] && String([118]) == [1, 118];
  }

  lemma SampleSections()
    ensures OpsBytes(SAMPLE_OPS) == [0xFE, 1] + SAMPLE_RECORD
  {
    FlattenMapFront(SAMPLE_OPS, OpWriter());
    FlattenMapFront(SAMPLE_OPS[1..], OpWriter());
    assert SAMPLE_OPS[1..][1..] == [] && OpsBytes([]) == [];
    RecordBytes(LittleEndian(513, 8));
  }

  /** One auxiliary field, one database, one record that expires. */
  lemma SampleFile()
    ensures Body(SAMPLE_FIELDS, SAMPLE_OPS)
         == [0x52, 0x45, 0x44, 0x49, 0x53, 10] + [0xFA, 1, 97, 1, 98] + ([0xFE, 1] + SAMPLE_RECORD) + [0xFF]
  {
    SampleField();
    SampleSections();
  }
}
