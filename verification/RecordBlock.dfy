/** Records inside one block, and the start-up scan that finds them again.
  *
  * The scan has only the allocation bitmap and the bytes to go by. It is correct because the set
  * bits are always exactly the disjoint extents of the live records.
  */
module RecordBlock {
  import opened Bytes
  import opened ChunkAllocator
  import opened RecordLayout
  import opened Options

  const BLOCK_SIZE := 16384
  const MAX_STORABLE_DATA := 16320

  datatype Record = Record(header: DataHeader, payload: seq<byte>)
  {
    function Length(): nat {
      DATA_HEADER_SIZE + |payload|
    }

    /** Number of chunks the record occupies. */
    function Extent(): nat {
      ChunksNeeded(Length())
    }

    ghost predicate Storable() {
      && Fits(header) && header.chunkType != Empty
      && header.payloadLen == |payload| && Length() <= MAX_STORABLE_DATA
    }
  }

  type Records = map<nat, Record>

  /** The chunk lies in the record's extent. */
  ghost predicate Covers(records: Records, start: nat, chunk: nat) {
    start in records && start <= chunk < start + records[start].Extent()
  }

  ghost predicate Covered(records: Records, chunk: nat) {
    exists start :: Covers(records, start, chunk)
  }

  ghost predicate Disjoint(records: Records) {
    forall a, b | a in records && b in records && a < b :: a + records[a].Extent() <= b
  }

  ghost predicate Placed(records: Records) {
    forall a | a in records :: 1 <= a && a + records[a].Extent() <= 256 && records[a].Storable()
  }

  /** A data bit is set exactly where a live record lies. */
  ghost predicate BitsMatch(bitmap: seq<bv8>, records: Records)
    requires |bitmap| == 32
  {
    forall i | 1 <= i < 256 :: TestBit(bitmap, i) <==> Covered(records, i)
  }

  ghost predicate Stored(bytes: seq<byte>, start: nat, r: Record) {
    && start * CHUNK_SIZE + r.Length() <= |bytes|
    && bytes[start * CHUNK_SIZE..start * CHUNK_SIZE + r.Length()] == Encode(r.header) + r.payload
  }

  ghost predicate BytesMatch(bytes: seq<byte>, records: Records) {
    forall a | a in records :: Stored(bytes, a, records[a])
  }

  /** What makes a block readable: the bitmap is the disjoint union of the records' extents, and their bytes are in place. */
  ghost predicate Laid(bitmap: seq<bv8>, bytes: seq<byte>, records: Records) {
    && |bitmap| == 32 && |bytes| == BLOCK_SIZE && Placed(records) && Disjoint(records)
    && BitsMatch(bitmap, records) && BytesMatch(bytes, records)
  }

  // ── Adding and removing a record ──────────────────────────────────────────

  lemma ClearRunIsUncovered(bitmap: seq<bv8>, records: Records, start: nat, r: Record)
    requires |bitmap| == 32 && BitsMatch(bitmap, records) && Placed(records)
    requires 1 <= start && r.Length() <= MAX_STORABLE_DATA && start + r.Extent() <= 256 && RunClear(bitmap, start, r.Extent())
    ensures start !in records
    ensures forall a | a in records :: a + records[a].Extent() <= start || start + r.Extent() <= a
  {
    forall a | a in records ensures a + records[a].Extent() <= start || start + r.Extent() <= a {
      var first := if a < start then start else a;
      if first < a + records[a].Extent() && first < start + r.Extent() {
        assert Covers(records, a, first);
        assert Covered(records, first);
      }
    }
  }

  lemma AddKeepsLayout(bitmap: seq<bv8>, bitmap': seq<bv8>, records: Records, start: nat, r: Record)
    requires |bitmap| == |bitmap'| == 32 && BitsMatch(bitmap, records) && Placed(records) && Disjoint(records)
    requires r.Storable() && 1 <= start && start + r.Extent() <= 256
    requires RunClear(bitmap, start, r.Extent()) && RunAdded(bitmap, bitmap', start, r.Extent())
    ensures start !in records
    ensures forall a | a in records :: a + records[a].Extent() <= start || start + r.Extent() <= a
    ensures Placed(records[start := r]) && Disjoint(records[start := r]) && BitsMatch(bitmap', records[start := r])
  {
    ClearRunIsUncovered(bitmap, records, start, r);
    var records' := records[start := r];
    forall i | 1 <= i < 256 ensures TestBit(bitmap', i) <==> Covered(records', i) {
      if Covered(records, i) {
        var a: nat :| Covers(records, a, i);
        assert Covers(records', a, i);
      }
      if start <= i < start + r.Extent() {
        assert Covers(records', start, i);
      }
      if Covered(records', i) {
        var a: nat :| Covers(records', a, i);
        assert a != start ==> Covers(records, a, i);
      }
    }
  }

  lemma RemoveKeepsLayout(bitmap: seq<bv8>, bitmap': seq<bv8>, records: Records, start: nat)
    requires |bitmap| == |bitmap'| == 32 && BitsMatch(bitmap, records) && Placed(records) && Disjoint(records)
    requires start in records && RunRemoved(bitmap, bitmap', start, records[start].Extent())
    ensures Placed(records - {start}) && Disjoint(records - {start}) && BitsMatch(bitmap', records - {start})
  {
    var records' := records - {start};
    forall i | 1 <= i < 256 ensures TestBit(bitmap', i) <==> Covered(records', i) {
      if Covered(records', i) {
        var a: nat :| Covers(records', a, i);
        assert Covers(records, a, i);
        assert a < start || start < a;
      }
      if Covered(records, i) && !(start <= i < start + records[start].Extent()) {
        var a: nat :| Covers(records, a, i);
        assert Covers(records', a, i);
      }
    }
  }

  /** Chunks outside a written extent keep their bytes. */
  lemma StoredElsewhere(bytes: seq<byte>, bytes': seq<byte>, a: nat, r: Record, start: nat, extent: nat)
    requires Stored(bytes, a, r) && |bytes'| == |bytes| && r.Length() <= MAX_STORABLE_DATA
    requires a + r.Extent() <= start || start + extent <= a
    requires forall i | 0 <= i < |bytes| && !(start * CHUNK_SIZE <= i < (start + extent) * CHUNK_SIZE) :: bytes'[i] == bytes[i]
    ensures Stored(bytes', a, r)
  {
    assert r.Length() <= r.Extent() * CHUNK_SIZE;
    assert bytes'[a * CHUNK_SIZE..a * CHUNK_SIZE + r.Length()] == bytes[a * CHUNK_SIZE..a * CHUNK_SIZE + r.Length()];
  }

  /** What is stored decodes to what was written. */
  lemma StoredDecodes(bytes: seq<byte>, start: nat, r: Record)
    requires Stored(bytes, start, r) && r.Storable()
    ensures var at := start * CHUNK_SIZE;
      && at + r.Length() <= |bytes| && bytes[at] == TypeByte(r.header.chunkType)
      && Decode(bytes[at..at + DATA_HEADER_SIZE]) == r.header
      && bytes[at + DATA_HEADER_SIZE..at + r.Length()] == r.payload
  {
    var at := start * CHUNK_SIZE;
    var image := bytes[at..at + r.Length()];
    HeaderRoundTrip(r.header);
    assert image[..DATA_HEADER_SIZE] == Encode(r.header) == bytes[at..at + DATA_HEADER_SIZE];
    assert image[DATA_HEADER_SIZE..] == r.payload;
    assert bytes[at] == image[0];
  }

  class Block {
    var cursor: nat
    const bitmap: array<bv8>
    const bytes: array<byte>
    /** The live records by first chunk. */
    ghost var records: Records

    ghost predicate Valid()
      reads this, bitmap, bytes
    {
      cursor < 256 && bitmap.Length == 32 && bytes.Length == BLOCK_SIZE && Laid(bitmap[..], bytes[..], records)
    }

    /** A blank block reads as zeros: cursor 0, nothing allocated. */
    constructor ()
      ensures Valid() && records == map[] && fresh(bitmap) && fresh(bytes)
      ensures cursor == 0 && bitmap[..] == seq(32, _ => 0)
    {
      cursor := 0;
      bitmap := new bv8[32](_ => 0);
      bytes := new byte[BLOCK_SIZE](_ => 0);
      records := map[];
      new;
      forall i | 1 <= i < 256 ensures TestBit(bitmap[..], i) <==> Covered(records, i) {
      }
    }

    /** Allocate chunks and write header and payload; refuses what can never fit. */
    method Write(header: DataHeader, payload: seq<byte>) returns (start: Option<nat>)
      requires Valid() && Fits(header) && header.chunkType != Empty && header.payloadLen == |payload|
      modifies this, bitmap, bytes
      ensures Valid()
      ensures start == None ==> records == old(records) && bytes[..] == old(bytes[..])
      ensures start.Some? ==> start.value !in old(records) && records == old(records)[start.value := Record(header, payload)]
      ensures var r := Record(header, payload);
              start == None <==> r.Length() > MAX_STORABLE_DATA || !HasRoom(old(bitmap[..]), old(cursor), r.Extent())
    {
      var r := Record(header, payload);
      if r.Length() > MAX_STORABLE_DATA {
        return None;
      }
      start := Reserve(r);
      if start.Some? {
        WriteBytes(start.value, r);
        records := records[start.value := r];
      }
    }

    /** Find a clear run for the record and mark it in the bitmap. */
    method Reserve(r: Record) returns (start: Option<nat>)
      requires Valid() && r.Storable()
      modifies this`cursor, bitmap
      ensures bitmap.Length == 32 && cursor < 256
      ensures start == None <==> !HasRoom(old(bitmap[..]), old(cursor), r.Extent())
      ensures start == None ==> BitsMatch(bitmap[..], records)
      ensures match start
        case None => true
        case Some(a) =>
          && a !in records && 1 <= a && a + r.Extent() <= 256
          && (forall b | b in records :: b + records[b].Extent() <= a || a + r.Extent() <= b)
          && Placed(records[a := r]) && Disjoint(records[a := r]) && BitsMatch(bitmap[..], records[a := r])
    {
      ghost var before := bitmap[..];
      var offset;
      start, offset := AllocChunks(bitmap, cursor, r.Extent());
      NoneIff(before, cursor, r.Extent(), start, bitmap[..], offset);
      if start.Some? {
        AllocatedRunIsFresh(before, cursor, r.Extent(), start.value, bitmap[..], offset);
        AddKeepsLayout(before, bitmap[..], records, start.value, r);
      }
      cursor := offset;
    }

    /** Write the padded image of a record into its chunks. */
    method WriteBytes(start: nat, r: Record)
      requires bytes.Length == BLOCK_SIZE && r.Length() <= MAX_STORABLE_DATA && start + r.Extent() <= 256
      requires BytesMatch(bytes[..], records) && Placed(records)
      requires forall a | a in records :: a + records[a].Extent() <= start || start + r.Extent() <= a
      modifies bytes
      ensures BytesMatch(bytes[..], records) && Stored(bytes[..], start, r)
    {
      var image := Encode(r.header) + r.payload;
      var at := start * CHUNK_SIZE;
      forall i | 0 <= i < r.Extent() * CHUNK_SIZE {
        bytes[at + i] := if i < |image| then image[i] else 0;
      }
      assert bytes[at..at + r.Length()] == image;
      forall a | a in records ensures Stored(bytes[..], a, records[a]) {
        StoredElsewhere(old(bytes[..]), bytes[..], a, records[a], start, r.Extent());
      }
    }

    /** Decode the header and copy the payload of a live record. */
    method Read(start: nat) returns (header: DataHeader, payload: seq<byte>)
      requires Valid() && start in records
      ensures Record(header, payload) == records[start]
    {
      assert Stored(bytes[..], start, records[start]);
      StoredDecodes(bytes[..], start, records[start]);
      var at := start * CHUNK_SIZE;
      header := Decode(bytes[at..at + DATA_HEADER_SIZE]);
      payload := bytes[at + DATA_HEADER_SIZE..at + DATA_HEADER_SIZE + header.payloadLen];
    }

    /** Release the chunks of a record, as many as its header says. */
    method Free(start: nat)
      requires Valid() && start in records
      modifies this`records, bitmap
      ensures Valid() && records == old(records) - {start}
    {
      var header, _ := Read(start);
      var chunks := ChunksNeeded(DATA_HEADER_SIZE + header.payloadLen);
      ghost var before := bitmap[..];
      FreeChunks(bitmap, start, chunks);
      RemoveKeepsLayout(before, bitmap[..], records, start);
      records := records - {start};
    }

    /** Overwrite a record's header with one of the same kind and payload length. */
    method UpdateHeader(start: nat, header: DataHeader)
      requires Valid() && start in records && Fits(header)
      requires header.chunkType == records[start].header.chunkType && header.payloadLen == records[start].header.payloadLen
      modifies this`records, bytes
      ensures Valid() && records == old(records)[start := Record(header, old(records)[start].payload)]
    {
      ghost var before := bytes[..];
      var at := start * CHUNK_SIZE;
      var image := Encode(header);
      assert Stored(before, start, records[start]);
      forall i | 0 <= i < 64 {
        bytes[at + i] := image[i];
      }
      HeaderUpdated(before, bytes[..], records, start, header);
      SameExtents(bitmap[..], records, start, Record(header, records[start].payload));
      records := records[start := Record(header, records[start].payload)];
    }

    /** Copy-on-write update: the new version is written before the old one is released. */
    method Rewrite(start: nat, header: DataHeader, payload: seq<byte>) returns (moved: Option<nat>)
      requires Valid() && start in records
      requires Fits(header) && header.chunkType != Empty && header.payloadLen == |payload|
      modifies this, bitmap, bytes
      ensures Valid()
      ensures moved == None ==> records == old(records)
      ensures var r := Record(header, payload);
              moved == None <==> r.Length() > MAX_STORABLE_DATA || !HasRoom(old(bitmap[..]), old(cursor), r.Extent())
      ensures moved.Some? ==>
        moved.value !in old(records) && records == (old(records) - {start})[moved.value := Record(header, payload)]
    {
      moved := Write(header, payload);
      if moved.Some? {
        MovedRecords(old(records), start, moved.value, Record(header, payload));
        Free(start);
      }
    }
  }

  lemma HeaderReplaced(before: seq<byte>, after: seq<byte>, start: nat, r: Record, header: DataHeader)
    requires Stored(before, start, r) && |after| == |before|
    requires forall i | 0 <= i < 64 :: after[start * CHUNK_SIZE + i] == Encode(header)[i]
    requires forall i | 0 <= i < |before| && !(start * CHUNK_SIZE <= i < start * CHUNK_SIZE + 64) :: after[i] == before[i]
    ensures Stored(after, start, Record(header, r.payload))
  {
    var at := start * CHUNK_SIZE;
    var image := Encode(r.header) + r.payload;
    var image' := Encode(header) + r.payload;
    forall i | 0 <= i < r.Length() ensures after[at + i] == image'[i] {
      assert before[at..at + r.Length()][i] == image[i];
    }
    assert after[at..at + r.Length()] == image';
  }

  lemma HeaderUpdated(before: seq<byte>, after: seq<byte>, records: Records, start: nat, header: DataHeader)
    requires Placed(records) && Disjoint(records) && BytesMatch(before, records) && start in records && |after| == |before|
    requires forall i | 0 <= i < 64 :: after[start * CHUNK_SIZE + i] == Encode(header)[i]
    requires forall i | 0 <= i < |before| && !(start * CHUNK_SIZE <= i < start * CHUNK_SIZE + 64) :: after[i] == before[i]
    ensures BytesMatch(after, records[start := Record(header, records[start].payload)])
  {
    forall a | a in records && a != start ensures Stored(after, a, records[a]) {
      assert Stored(before, a, records[a]);
      assert a < start || start < a;
      StoredElsewhere(before, after, a, records[a], start, 1);
    }
    HeaderReplaced(before, after, start, records[start], header);
  }

  lemma MovedRecords(records: Records, start: nat, moved: nat, r: Record)
    requires start in records && moved !in records
    ensures records[moved := r] - {start} == (records - {start})[moved := r]
  {
  }

  lemma SameExtents(bitmap: seq<bv8>, records: Records, start: nat, r: Record)
    requires |bitmap| == 32 && BitsMatch(bitmap, records) && Placed(records) && Disjoint(records)
    requires start in records && r.Storable() && r.Length() == records[start].Length()
    ensures Placed(records[start := r]) && Disjoint(records[start := r]) && BitsMatch(bitmap, records[start := r])
  {
    forall i ensures Covered(records[start := r], i) <==> Covered(records, i) {
      if Covered(records, i) {
        var a: nat :| Covers(records, a, i);
        assert Covers(records[start := r], a, i);
      }
      if Covered(records[start := r], i) {
        var a: nat :| Covers(records[start := r], a, i);
        assert Covers(records, a, i);
      }
    }
  }

  // ── The start-up scan ─────────────────────────────────────────────────────

  /** A record as the scan reports it. */
  datatype Found = Found(start: nat, header: DataHeader, payload: seq<byte>)

  /** A chunk position outside of every record, or at the start of one. */
  ghost predicate Boundary(records: Records, co: nat) {
    forall a | a in records :: co <= a || a + records[a].Extent() <= co
  }

  /** The list holds exactly the live records that start before `co`, in order, as written. */
  ghost predicate Lists(found: seq<Found>, records: Records, co: nat) {
    && (forall i | 0 <= i < |found| :: found[i].start in records && found[i].start < co
          && records[found[i].start] == Record(found[i].header, found[i].payload))
    && (forall i, j | 0 <= i < j < |found| :: found[i].start < found[j].start)
    && (forall a | a in records && a < co :: Reported(found, a))
  }

  ghost predicate Reported(found: seq<Found>, start: nat) {
    exists f :: f in found && f.start == start
  }

  /** At a boundary a set bit is the first chunk of a record. */
  lemma SetBitStartsRecord(bitmap: seq<bv8>, records: Records, co: nat)
    requires |bitmap| == 32 && BitsMatch(bitmap, records) && 1 <= co < 256
    requires Boundary(records, co) && TestBit(bitmap, co)
    ensures co in records
  {
    assert Covered(records, co);
    var a: nat :| Covers(records, a, co);
  }

  lemma ClearBitMovesOn(bitmap: seq<bv8>, records: Records, co: nat, found: seq<Found>)
    requires |bitmap| == 32 && BitsMatch(bitmap, records) && Placed(records) && 1 <= co < 256
    requires Boundary(records, co) && !TestBit(bitmap, co) && Lists(found, records, co)
    ensures Boundary(records, co + 1) && Lists(found, records, co + 1)
  {
    if co in records {
      assert Covers(records, co, co);
      assert Covered(records, co);
    }
  }

  lemma RecordMovesOn(records: Records, co: nat, found: seq<Found>)
    requires Placed(records) && Disjoint(records) && co in records
    requires Boundary(records, co) && Lists(found, records, co)
    ensures var next := co + records[co].Extent();
      && Boundary(records, next)
      && Lists(found + [Found(co, records[co].header, records[co].payload)], records, next)
  {
    var next := co + records[co].Extent();
    BoundaryMovesOn(records, co);
    forall a | a in records && a < next && a != co ensures a < co {
      assert a >= co ==> a >= next;
    }
    ListsOneMore(records, co, next, found, Found(co, records[co].header, records[co].payload));
  }

  lemma BoundaryMovesOn(records: Records, co: nat)
    requires Placed(records) && Disjoint(records) && co in records && Boundary(records, co)
    ensures Boundary(records, co + records[co].Extent())
  {
  }

  lemma ListsOneMore(records: Records, co: nat, next: nat, found: seq<Found>, f: Found)
    requires Lists(found, records, co) && co < next && f.start == co
    requires co in records && records[co] == Record(f.header, f.payload)
    requires forall a | a in records && a < next && a != co :: a < co
    ensures Lists(found + [f], records, next)
  {
    var more := found + [f];
    forall a | a in records && a < next ensures Reported(more, a) {
      if a == co {
        assert f in more;
      } else {
        assert Reported(found, a);
        var g :| g in found && g.start == a;
        assert g in more;
      }
    }
  }

  /** Walk the chunks: skip clear ones, take a record at each set one and jump over it. */
  method Scan(bitmap: seq<bv8>, bytes: seq<byte>, ghost records: Records) returns (found: seq<Found>)
    requires Laid(bitmap, bytes, records)
    ensures Lists(found, records, 256)
  {
    found := [];
    var co := 1;
    while co < 256
      invariant 1 <= co <= 256 && Boundary(records, co) && Lists(found, records, co)
    {
      if !TestBit(bitmap, co) {
        ClearBitMovesOn(bitmap, records, co, found);
        co := co + 1;
      } else {
        SetBitStartsRecord(bitmap, records, co);
        RecordMovesOn(records, co, found);
        var some, chunks := ReadRecord(bytes, co, records);
        found := found + some;
        co := co + chunks;
      }
    }
  }

  /** Decode the record that starts at a set chunk; an empty type byte is stepped over. */
  method ReadRecord(bytes: seq<byte>, co: nat, ghost records: Records) returns (some: seq<Found>, chunks: int)
    requires |bytes| == BLOCK_SIZE && BytesMatch(bytes, records) && Placed(records) && co in records
    ensures some == [Found(co, records[co].header, records[co].payload)]
    ensures chunks == records[co].Extent()
  {
    ghost var r := records[co];
    assert Stored(bytes, co, r);
    StoredDecodes(bytes, co, r);
    var at := co * CHUNK_SIZE;
    if TypeOf(bytes[at]) == Empty {
      return [], 1;
    }
    assert at + r.Length() <= |bytes| && r.Length() >= DATA_HEADER_SIZE;
    var header := Decode(bytes[at..at + DATA_HEADER_SIZE]);
    assert header == r.header;
    var length := DATA_HEADER_SIZE + header.payloadLen;
    assert length == r.Length();
    some := [Found(co, header, bytes[at + DATA_HEADER_SIZE..at + length])];
    chunks := ChunksNeeded(length);
  }
}
