// The DMP1 backup stream: record types, little-endian lengths and frames.
module StreamFormat {
  import opened Wrappers
  import opened Codecs

  const MAGIC: bytes := [0x44, 0x4D, 0x50, 0x31]
  const MAX_PAYLOAD := 32 * 1024 * 1024

  datatype Kind = Header | PreData | TableSchema | TableDataSlice | Sequence | PostData | Routine | Trailer

  datatype StreamHeader = StreamHeader(version: nat, engine: string, database: string,
                                        serverVersion: string, startTime: int)
  datatype ColumnMeta = ColumnMeta(name: string, dataType: string, isNullable: bool, defaultVal: Option<string>)
  datatype DataSlice = DataSlice(schemaName: string, tableName: string, sliceSeq: nat, isLast: bool, data: bytes)
  datatype StreamTrailer = StreamTrailer(totalRecords: nat, totalLogicalBytes: nat, streamHash: string)

  datatype Record =
    | HeaderRecord(header: StreamHeader)
    | PreDataRecord(name: string, sql: string)
    | SchemaRecord(schemaName: string, tableName: string, columns: seq<ColumnMeta>, createSql: string)
    | SliceRecord(slice: DataSlice)
    | SequenceRecord(schemaName: string, sequenceName: string, lastValue: int, isCalled: bool)
    | PostDataRecord(schemaName: string, tableName: string, name: string, sql: string)
    | RoutineRecord(schemaName: string, name: string, routineType: string, sql: string)
    | TrailerRecord(trailer: StreamTrailer)

  function KindOf(r: Record): Kind {
    match r
    case HeaderRecord(_) => Header
    case PreDataRecord(_, _) => PreData
    case SchemaRecord(_, _, _, _) => TableSchema
    case SliceRecord(_) => TableDataSlice
    case SequenceRecord(_, _, _, _) => Sequence
    case PostDataRecord(_, _, _, _) => PostData
    case RoutineRecord(_, _, _, _) => Routine
    case TrailerRecord(_) => Trailer
  }

  function KindByte(k: Kind): byte {
    match k
    case Header => 0x01
    case PreData => 0x02
    case TableSchema => 0x03
    case TableDataSlice => 0x04
    case Sequence => 0x05
    case PostData => 0x06
    case Routine => 0x07
    case Trailer => 0xFF
  }

  // RecordType::try_from
  function KindOfByte(b: byte): Option<Kind> {
    match b
    case 0x01 => Some(Header)
    case 0x02 => Some(PreData)
    case 0x03 => Some(TableSchema)
    case 0x04 => Some(TableDataSlice)
    case 0x05 => Some(Sequence)
    case 0x06 => Some(PostData)
    case 0x07 => Some(Routine)
    case 0xFF => Some(Trailer)
    case _ => None
  }

  lemma KindByteExact(b: byte, k: Kind)
    ensures KindOfByte(b) == Some(k) <==> b == KindByte(k)
  {
  }

  type u32 = n: int | 0 <= n < 0x1_0000_0000

  function Le32(n: u32): (b: bytes)
    ensures |b| == 4
  {
    [(n % 256) as byte, (n / 256 % 256) as byte, (n / 65536 % 256) as byte, (n / 16777216) as byte]
  }

  function FromLe32(b: bytes): u32
    requires |b| == 4
  {
    b[0] as int + 256 * (b[1] as int) + 65536 * (b[2] as int) + 16777216 * (b[3] as int)
  }

  lemma Le32Inverse(n: u32)
    ensures FromLe32(Le32(n)) == n
  {
    var a, b, d := n / 256, n / 65536, n / 16777216;
    assert b == a / 256 && d == b / 256;
    assert n == n % 256 + 256 * a && a == a % 256 + 256 * b && b == b % 256 + 256 * d;
  }

  lemma FromLe32Inverse(b: bytes)
    requires |b| == 4
    ensures Le32(FromLe32(b)) == b
  {
    var n := FromLe32(b);
    assert n % 256 == b[0] as int;
    assert n / 256 == b[1] as int + 256 * (b[2] as int) + 65536 * (b[3] as int);
    assert n / 65536 == b[2] as int + 256 * (b[3] as int);
    assert n / 16777216 == b[3] as int;
    assert Le32(n)[0] == b[0] && Le32(n)[1] == b[1] && Le32(n)[2] == b[2] && Le32(n)[3] == b[3];
  }

  datatype StreamCodec = StreamCodec(
    sha256: bytes -> string,              // hex digest
    crc32: bytes -> u32,
    render: Record -> bytes,               // JSON
    parse: (Kind, bytes) -> Option<Record>)
  {
    ghost predicate Lawful() {
      && (forall r :: parse(KindOf(r), render(r)) == Some(r))
      && (forall k, payload :: parse(k, payload).Some? ==> KindOf(parse(k, payload).value) == k)
    }
  }

  datatype Frame = Frame(kind: Kind, flags: byte, payload: bytes)

  predicate Fits(f: Frame) {
    |f.payload| <= MAX_PAYLOAD
  }

  function Head(kindByte: byte, flags: byte, size: u32): (b: bytes)
    ensures |b| == 6
  {
    [kindByte, flags] + Le32(size)
  }

  function Print(c: StreamCodec, f: Frame): bytes
    requires Fits(f)
  {
    var covered := Head(KindByte(f.kind), f.flags, |f.payload|) + f.payload;
    covered + Le32(c.crc32(covered))
  }

  function PrintAll(c: StreamCodec, frames: seq<Frame>): bytes
    requires forall i :: 0 <= i < |frames| ==> Fits(frames[i])
  {
    if frames == [] then []
    else PrintAll(c, frames[..|frames| - 1]) + Print(c, frames[|frames| - 1])
  }

  // What has been written after some frames: the magic comes with the first.
  function Stream(c: StreamCodec, frames: seq<Frame>): bytes
    requires forall i :: 0 <= i < |frames| ==> Fits(frames[i])
  {
    if frames == [] then [] else MAGIC + PrintAll(c, frames)
  }

  function FrameOf(c: StreamCodec, r: Record): Frame {
    Frame(KindOf(r), 0, c.render(r))
  }

  function FramesOf(c: StreamCodec, records: seq<Record>): (frames: seq<Frame>)
    ensures |frames| == |records|
    ensures forall i :: 0 <= i < |frames| ==> frames[i] == FrameOf(c, records[i])
  {
    if records == [] then []
    else FramesOf(c, records[..|records| - 1]) + [FrameOf(c, records[|records| - 1])]
  }

  predicate AllFit(frames: seq<Frame>) {
    forall i :: 0 <= i < |frames| ==> Fits(frames[i])
  }

  // The trailer `finish` writes after some frames.
  function TrailerFor(c: StreamCodec, frames: seq<Frame>): Record
    requires AllFit(frames)
  {
    TrailerRecord(StreamTrailer(|frames|, |Stream(c, frames)|, c.sha256(Stream(c, frames))))
  }

  lemma PrintAllStep(c: StreamCodec, frames: seq<Frame>, f: Frame)
    requires AllFit(frames) && Fits(f)
    ensures AllFit(frames + [f]) && PrintAll(c, frames + [f]) == PrintAll(c, frames) + Print(c, f)
  {
  }

  // "DMP1", then frames: a type byte, a flag byte, the payload's length in four
  // bytes, the lowest first, the payload, and in the same way the checksum of all
  // that. The types count from 1 to 7, and the trailer is 255.
  lemma FrameLayout(c: StreamCodec, f: Frame)
    requires Fits(f)
    ensures MAGIC == ['D' as byte, 'M' as byte, 'P' as byte, '1' as byte]
    ensures var b, n := Print(c, f), |f.payload|;
            && |b| == n + 10 && n <= 33554432
            && b[0] == (match f.kind case Header => 1 case PreData => 2 case TableSchema => 3 case TableDataSlice => 4
                                case Sequence => 5 case PostData => 6 case Routine => 7 case Trailer => 255)
            && b[1] == f.flags
            && b[2] as int + 0x100 * b[3] as int + 0x1_0000 * b[4] as int + 0x100_0000 * b[5] as int == n
            && b[6..n + 6] == f.payload
            && b[n + 6] as int + 0x100 * b[n + 7] as int + 0x1_0000 * b[n + 8] as int + 0x100_0000 * b[n + 9] as int
               == c.crc32(b[..n + 6])
  {
    var covered := Head(KindByte(f.kind), f.flags, |f.payload|) + f.payload;
    var size, crc := Le32(|f.payload|), Le32(c.crc32(covered));
    LowestFirst(|f.payload|);
    LowestFirst(c.crc32(covered));
    hide Le32, KindByte;
    var b := Print(c, f);
    assert b == covered + crc && covered == [KindByte(f.kind), f.flags] + size + f.payload;
    assert b[..|covered|] == covered && b[2] == size[0] && b[3] == size[1] && b[4] == size[2] && b[5] == size[3];
  }

  lemma LowestFirst(n: u32)
    ensures var b := Le32(n); n == b[0] as int + 0x100 * b[1] as int + 0x1_0000 * b[2] as int + 0x100_0000 * b[3] as int
  {
    Le32Inverse(n);
  }
}
