/** The fixed 64-byte header in front of every record of the data file. */
module RecordLayout {
  import opened Bytes

  const DATA_HEADER_SIZE := 64

  datatype ChunkType = Empty | Vertex | Edge | Token

  datatype DataStatus = Normal | Deleted

  datatype DataHeader = DataHeader(
    chunkType: ChunkType, status: DataStatus, version: nat, entityId: nat,
    ctime: nat, mtime: nat, atime: nat, rank: nat, payloadLen: nat)

  function TypeByte(t: ChunkType): byte {
    match t
    case Empty => 0
    case Vertex => 1
    case Edge => 2
    case Token => 3
  }

  /** Unknown bytes read as an empty chunk. */
  function TypeOf(b: byte): ChunkType {
    if b == 1 then Vertex else if b == 2 then Edge else if b == 3 then Token else Empty
  }

  function StatusByte(s: DataStatus): byte {
    if s == Deleted then 1 else 0
  }

  function StatusOf(b: byte): DataStatus {
    if b == 1 then Deleted else Normal
  }

  /** Every field fits its width: u16 version and length, u32 id and rank, u64 times. */
  predicate Fits(h: DataHeader) {
    && h.version < 0x1_0000 && h.payloadLen < 0x1_0000
    && h.entityId < 0x1_0000_0000 && h.rank < 0x1_0000_0000
    && h.ctime < 0x1_0000_0000_0000_0000 && h.mtime < 0x1_0000_0000_0000_0000 && h.atime < 0x1_0000_0000_0000_0000
  }

  function Zeros(n: nat): (s: seq<byte>)
    ensures |s| == n
  {
    seq(n, _ => 0)
  }

  function Encode(h: DataHeader): (s: seq<byte>)
    ensures |s| == 64 && s[0] == TypeByte(h.chunkType)
  {
    [TypeByte(h.chunkType), StatusByte(h.status)] + ToLe(h.version, 2) + ToLe(h.entityId, 4)
      + ToLe(h.ctime, 8) + ToLe(h.mtime, 8) + ToLe(h.atime, 8) + ToLe(h.rank, 4) + ToLe(h.payloadLen, 2) + Zeros(26)
  }

  function Decode(s: seq<byte>): DataHeader
    requires |s| == 64
  {
    DataHeader(TypeOf(s[0]), StatusOf(s[1]), FromLe(s[2..4]), FromLe(s[4..8]), FromLe(s[8..16]),
               FromLe(s[16..24]), FromLe(s[24..32]), FromLe(s[32..36]), FromLe(s[36..38]))
  }

  /** The fields of an encoded header, where they stand. */
  lemma EncodeFields(h: DataHeader)
    ensures var s := Encode(h);
      && s[2..4] == ToLe(h.version, 2) && s[4..8] == ToLe(h.entityId, 4) && s[8..16] == ToLe(h.ctime, 8)
      && s[16..24] == ToLe(h.mtime, 8) && s[24..32] == ToLe(h.atime, 8) && s[32..36] == ToLe(h.rank, 4)
      && s[36..38] == ToLe(h.payloadLen, 2)
  {
  }

  lemma HeaderRoundTrip(h: DataHeader)
    requires Fits(h)
    ensures Decode(Encode(h)) == h
  {
    EncodeFields(h);
    Bounds();
    LeRoundTrip(h.version, 2);
    LeRoundTrip(h.entityId, 4);
    LeRoundTrip(h.ctime, 8);
    LeRoundTrip(h.mtime, 8);
    LeRoundTrip(h.atime, 8);
    LeRoundTrip(h.rank, 4);
    LeRoundTrip(h.payloadLen, 2);
  }
}
