/**
 The bytes of an RDB snapshot: what RdbWriter (src/astra/persistence/rdb_writer.hpp) writes and what
 RdbReader (src/astra/persistence/rdb_reader.hpp) makes of any byte sequence, as functions on bytes.
 The opcodes are those of src/astra/persistence/rdb_common.hpp.
 */
module RdbFormat {
  import opened Common

  type Byte = b: nat | b < 256
  type Bytes = seq<Byte>

  const OPCODE_EOF: Byte := 0xFF
  const OPCODE_SELECTDB: Byte := 0xFE
  const OPCODE_EXPIRETIME_MS: Byte := 0xFD
  const OPCODE_RESIZEDB: Byte := 0xFB
  const OPCODE_AUX: Byte := 0xFA
  const RDB_VERSION: Byte := 10

  const MAGIC: Bytes := [0x52, 0x45, 0x44, 0x49, 0x53]

  const UINT64: int := 0x1_0000_0000_0000_0000

  // ----- Writing -----

  /** The `k` low bytes of `n`, least significant first: how a native integer is stored. */
  function LittleEndian(n: nat, k: nat): (r: Bytes)
    ensures |r| == k
  {
    if k == 0 then [] else [n % 256] + LittleEndian(n / 256, k - 1)
  }

  function BigEndian(n: nat, k: nat): (r: Bytes)
    ensures |r| == k
  {
    if k == 0 then [] else BigEndian(n / 256, k - 1) + [n % 256]
  }

  /** WriteLength: one byte, two bytes with the high bits 01, or 0x80 and eight bytes. */
  function Length(n: nat): Bytes {
    if n < 0x40 then [n]
    else if n < 0x4000 then [0x40 + n / 256, n % 256]
    else [0x80] + BigEndian(n, 8)
  }

  function String(s: Bytes): Bytes { Length(|s|) + s }

  function Aux(key: Bytes, value: Bytes): Bytes { [OPCODE_AUX] + String(key) + String(value) }

  /** What the save callback may do with the writer. */
  datatype Op =
    | SelectDb(db: nat)
    | ResizeDb(dbSize: nat, expiresSize: nat)
    | WriteKv(kind: Byte, key: Bytes, value: Bytes, expireMs: int)

  function Expiry(ms: int): Bytes {
    if ms >= 0 then [OPCODE_EXPIRETIME_MS] + LittleEndian(ms, 8) else []
  }

  function OpBytes(op: Op): Bytes {
    match op
    case SelectDb(db) => [OPCODE_SELECTDB] + Length(db)
    case ResizeDb(a, b) => [OPCODE_RESIZEDB] + Length(a) + Length(b)
    case WriteKv(kind, key, value, ms) => Expiry(ms) + [kind] + String(key) + String(value)
  }

  function OpWriter(): Op -> Bytes { (op: Op) => OpBytes(op) }

  function OpsBytes(ops: seq<Op>): Bytes { Flatten(Map(ops, OpWriter())) }

  /** An auxiliary field: a name and a text. */
  datatype Field = Field(name: Bytes, text: Bytes)

  function FieldWriter(): Field -> Bytes { (f: Field) => Aux(f.name, f.text) }

  function AuxBytes(fields: seq<Field>): Bytes { Flatten(Map(fields, FieldWriter())) }

  /** Everything the checksum covers. */
  function Body(fields: seq<Field>, ops: seq<Op>): Bytes {
    MAGIC + [RDB_VERSION] + AuxBytes(fields) + OpsBytes(ops) + [OPCODE_EOF]
  }

  // ----- Reading -----

  /** A read that runs off the end of the file leaves the reader's variables undefined: PastEnd. */
  datatype Read<+T> = Got(value: T, rest: Bytes) | PastEnd

  function ReadByte(d: Bytes): Read<Byte> {
    if d == [] then PastEnd else Got(d[0], d[1..])
  }

  function ReadBytes(d: Bytes, n: nat): Read<Bytes> {
    if |d| < n then PastEnd else Got(d[..n], d[n..])
  }

  function ReadLength(d: Bytes): (r: Read<nat>)
    ensures r.Got? ==> |r.rest| < |d|
  {
    if d == [] then PastEnd
    else if d[0] < 0x40 then Got(d[0], d[1..])
    else if d[0] < 0x80 then
      if |d| < 2 then PastEnd else Got((d[0] as nat - 0x40) * 256 + d[1] as nat, d[2..])
    else if |d| < 2 then PastEnd
    else if d[1] == 0x80 then Got(0, d[2..])
    else if |d| < 3 then PastEnd
    else Got(d[1] as nat * 256 + d[2] as nat, d[3..])
  }

  function ReadString(d: Bytes): (r: Read<Bytes>)
    ensures r.Got? ==> |r.rest| < |d|
  {
    match ReadLength(d)
    case PastEnd => PastEnd
    case Got(n, rest) => ReadBytes(rest, n)
  }

  function LittleValue(b: Bytes): nat {
    if b == [] then 0 else b[0] + 256 * LittleValue(b[1..])
  }

  function ToInt64(n: nat): int { if n >= UINT64 / 2 then n - UINT64 else n }

  /** One call of the load callback. */
  datatype Call = Call(db: nat, kind: Byte, key: Bytes, value: Bytes, expireMs: int)

  /** ReadKeyValue: a record with an empty key or value calls nothing back. */
  function ReadKv(kind: Byte, expireMs: int, db: nat, d: Bytes): (r: Read<seq<Call>>)
    ensures r.Got? ==> |r.rest| < |d|
    ensures r.Got? ==> forall c | c in r.value :: c.key != [] && c.value != []
  {
    match ReadString(d)
    case PastEnd => PastEnd
    case Got(key, rest) =>
      if key == [] then Got([], rest)
      else
        match ReadString(rest)
        case PastEnd => PastEnd
        case Got(value, after) =>
          Got(if value == [] then [] else [Call(db, kind, key, value, expireMs)], after)
  }

  datatype Section = Section(db: nat, calls: seq<Call>)

  /** One turn of the loop in Load, after its opcode was read. */
  function ReadSection(opcode: Byte, db: nat, d: Bytes): (r: Read<Section>)
    ensures r.Got? ==> |r.rest| < |d|
    ensures r.Got? ==> forall c | c in r.value.calls :: c.key != [] && c.value != []
  {
    if opcode == OPCODE_SELECTDB then
      match ReadLength(d)
      case PastEnd => PastEnd
      case Got(n, rest) => Got(Section(n, []), rest)
    else if opcode == OPCODE_RESIZEDB then
      match ReadLength(d)
      case PastEnd => PastEnd
      case Got(_, rest) =>
        (match ReadLength(rest)
         case PastEnd => PastEnd
         case Got(_, after) => Got(Section(db, []), after))
    else if opcode == OPCODE_EXPIRETIME_MS then
      if |d| < 9 then PastEnd
      else WithDb(db, ReadKv(d[8], ToInt64(LittleValue(d[..8])), db, d[9..]))
    else WithDb(db, ReadKv(opcode, -1, db, d))
  }

  function WithDb(db: nat, r: Read<seq<Call>>): Read<Section> {
    match r
    case PastEnd => PastEnd
    case Got(calls, rest) => Got(Section(db, calls), rest)
  }

  function Prepend(calls: seq<Call>, r: Read<seq<Call>>): Read<seq<Call>> {
    match r
    case PastEnd => PastEnd
    case Got(more, rest) => Got(calls + more, rest)
  }

  /** The loop in Load: the calls made until the EOF opcode, and what follows it. */
  function ReadSections(opcode: Byte, db: nat, d: Bytes): (r: Read<seq<Call>>)
    ensures r.Got? ==> |r.rest| <= |d|
    ensures r.Got? ==> forall c | c in r.value :: c.key != [] && c.value != []
    decreases |d|
  {
    if opcode == OPCODE_EOF then Got([], d)
    else
      match ReadSection(opcode, db, d)
      case PastEnd => PastEnd
      case Got(section, rest) =>
        if rest == [] then PastEnd
        else Prepend(section.calls, ReadSections(rest[0], section.db, rest[1..]))
  }

  /** ReadAuxFields: skip auxiliary fields; the first other opcode. */
  function ReadAux(d: Bytes): (r: Read<Byte>)
    ensures r.Got? ==> |r.rest| < |d|
    decreases |d|
  {
    if d == [] then PastEnd
    else if d[0] != OPCODE_AUX then Got(d[0], d[1..])
    else
      match ReadString(d[1..])
      case PastEnd => PastEnd
      case Got(_, rest) =>
        match ReadString(rest)
        case PastEnd => PastEnd
        case Got(_, after) => ReadAux(after)
  }

  /** Auxiliary fields, then database sections. */
  function ReadContent(d: Bytes): (r: Read<seq<Call>>)
    ensures r.Got? ==> |r.rest| <= |d|
  {
    match ReadAux(d)
    case PastEnd => PastEnd
    case Got(opcode, rest) => ReadSections(opcode, 0, rest)
  }

  /** Everything Load reads before the checksum; a wrong header stops it at once. */
  datatype Content = BadHeader | Content(calls: seq<Call>)

  function ReadFile(d: Bytes): Read<Content> {
    if |d| < 5 then PastEnd
    else if d[..5] != MAGIC then Got(BadHeader, d[5..])
    else if |d| < 6 then PastEnd
    else if d[5] != RDB_VERSION then Got(BadHeader, d[6..])
    else
      match ReadContent(d[6..])
      case PastEnd => PastEnd
      case Got(calls, rest) => Got(Content(calls), rest)
  }
}
