/** Records in a data file of many blocks.
  *
  * A record is found by the number of its block and its first chunk there. Which block takes a new record is up to the
  * advisory free list; an update may move a record to another block.
  */
module RecordStore {
  import opened BlockAllocation
  import opened Bytes
  import opened ChunkAllocator
  import opened Options
  import opened RecordBlock
  import opened RecordLayout

  datatype Pointer = Pointer(block: nat, start: nat)

  /** The live records of the blocks in use. */
  type Live = map<nat, Records>

  function RecordsOf(all: Live, idx: nat): Records {
    if idx in all then all[idx] else map[]
  }

  function At(all: Live, p: Pointer): Option<Record> {
    if p.block in all && p.start in all[p.block] then Some(all[p.block][p.start]) else None
  }

  /** Only this place changed. */
  ghost predicate ChangedAt(all: Live, all': Live, p: Pointer, now: Option<Record>) {
    forall q {:trigger At(all', q)} :: At(all', q) == if q == p then now else At(all, q)
  }

  /** The record went from one place to another, and nothing else changed. */
  ghost predicate Moved(all: Live, all': Live, from: Pointer, to: Pointer, r: Record) {
    forall q {:trigger At(all', q)} :: At(all', q) == if q == from then None else if q == to then Some(r) else At(all, q)
  }

  /** The bytes of a block after a write into it. */
  function Put(bytes: seq<byte>, at: nat, image: seq<byte>): seq<byte>
    requires at + |image| <= |bytes|
  {
    bytes[..at] + image + bytes[at + |image|..]
  }

  /** The image of a record, filled up to whole chunks. */
  function Padded(r: Record): seq<byte>
    requires r.Storable()
  {
    Encode(r.header) + r.payload + seq(r.Extent() * CHUNK_SIZE - r.Length(), _ => 0)
  }

  function Zeros(n: nat): seq<byte> {
    seq(n, _ => 0)
  }

  lemma PutKeeps(bytes: seq<byte>, records: Records, start: nat, r: Record, a: nat)
    requires |bytes| == BLOCK_SIZE && BytesMatch(bytes, records) && r.Storable() && start + r.Extent() <= 256
    requires a in records && records[a].Storable() && (a + records[a].Extent() <= start || start + r.Extent() <= a)
    ensures Stored(Put(bytes, start * CHUNK_SIZE, Padded(r)), a, records[a])
  {
    assert Stored(bytes, a, records[a]);
    StoredElsewhere(bytes, Put(bytes, start * CHUNK_SIZE, Padded(r)), a, records[a], start, r.Extent());
  }

  lemma PutStores(bytes: seq<byte>, start: nat, r: Record)
    requires |bytes| == BLOCK_SIZE && r.Storable() && start + r.Extent() <= 256
    ensures Stored(Put(bytes, start * CHUNK_SIZE, Padded(r)), start, r)
  {
    var at, image := start * CHUNK_SIZE, Encode(r.header) + r.payload;
    var after := Put(bytes, at, Padded(r));
    assert after[at..at + |image|] == image;
  }

  /** Taking a clear run for a record and writing its image keeps the block readable. */
  lemma WriteKeepsLaid(bitmap: seq<bv8>, bitmap': seq<bv8>, bytes: seq<byte>, records: Records, start: nat, r: Record)
    requires Laid(bitmap, bytes, records) && |bitmap'| == 32 && r.Storable() && 1 <= start && start + r.Extent() <= 256
    requires RunClear(bitmap, start, r.Extent()) && RunAdded(bitmap, bitmap', start, r.Extent())
    ensures start !in records && Laid(bitmap', Put(bytes, start * CHUNK_SIZE, Padded(r)), records[start := r])
  {
    AddKeepsLayout(bitmap, bitmap', records, start, r);
    PutStores(bytes, start, r);
    forall a | a in records ensures Stored(Put(bytes, start * CHUNK_SIZE, Padded(r)), a, records[a]) {
      PutKeeps(bytes, records, start, r, a);
    }
  }

  lemma FreeKeepsLaid(bitmap: seq<bv8>, bitmap': seq<bv8>, bytes: seq<byte>, records: Records, start: nat)
    requires Laid(bitmap, bytes, records) && |bitmap'| == 32 && start in records
    requires RunRemoved(bitmap, bitmap', start, records[start].Extent())
    ensures Laid(bitmap', bytes, records - {start})
  {
    RemoveKeepsLayout(bitmap, bitmap', records, start);
  }

  lemma BlankIsLaid()
    ensures Laid(Blank().bitmap, Zeros(BLOCK_SIZE), map[])
  {
    forall i | 1 <= i < 256 ensures TestBit(Blank().bitmap, i) <==> Covered(map[], i) {
    }
  }

  /** A block that was never written reads as zeros. */
  function ImageOf(images: map<nat, seq<byte>>, idx: nat): seq<byte> {
    if idx in images then images[idx] else Zeros(BLOCK_SIZE)
  }

  /** Every block is readable. */
  ghost predicate AllLaid(headers: map<nat, BlockHeader>, images: map<nat, seq<byte>>, live: Live) {
    && images.Keys == live.Keys == headers.Keys
    && forall idx | idx in live :: Laid(headers[idx].bitmap, images[idx], live[idx])
  }

  lemma LaidAt(headers: map<nat, BlockHeader>, images: map<nat, seq<byte>>, live: Live, idx: nat)
    requires AllLaid(headers, images, live)
    ensures Laid(HeaderOf(headers, idx).bitmap, ImageOf(images, idx), RecordsOf(live, idx))
  {
    if idx !in live {
      BlankIsLaid();
    }
  }

  lemma LaidWith(headers: map<nat, BlockHeader>, images: map<nat, seq<byte>>, live: Live, idx: nat,
                 header: BlockHeader, bytes: seq<byte>, records: Records)
    requires AllLaid(headers, images, live) && Laid(header.bitmap, bytes, records)
    ensures AllLaid(headers[idx := header], images[idx := bytes], live[idx := records])
  {
  }

  lemma AddedAt(all: Live, p: Pointer, r: Record)
    ensures ChangedAt(all, all[p.block := RecordsOf(all, p.block)[p.start := r]], p, Some(r))
  {
  }

  lemma RemovedAt(all: Live, p: Pointer)
    requires p.block in all
    ensures ChangedAt(all, all[p.block := all[p.block] - {p.start}], p, None)
  {
  }

  class Store {
    /** Block headers and the free list. */
    const chunks: ChunkStore
    /** The blocks' bytes. */
    var images: map<nat, seq<byte>>
    ghost var live: Live

    /** Every block is readable, and only blocks without room for two chunks are marked full. */
    ghost predicate Valid()
      reads this, chunks, chunks.free
    {
      chunks.Valid() && chunks.MarksRight() && AllLaid(chunks.headers, images, live)
    }

    constructor (free: BitmapFile)
      requires free.preAlloc >= 1 && forall i | 0 <= i < |free.bitmap| :: !free.bitmap[i]
      ensures Valid() && live == map[] && chunks.free == free && fresh(chunks)
    {
      chunks := new ChunkStore(free);
      images, live := map[], map[];
    }

    /** Allocate chunks and write the record there. Only a record that is too large for a block is refused. */
    method Write(header: DataHeader, payload: seq<byte>) returns (p: Option<Pointer>)
      requires Valid() && RecordLayout.Fits(header) && header.chunkType != Empty && header.payloadLen == |payload|
      modifies this, chunks, chunks.free
      ensures Valid()
      ensures p == None <==> Record(header, payload).Length() > MAX_STORABLE_DATA
      ensures p == None ==> live == old(live)
      ensures p.Some? ==> At(old(live), p.value) == None && ChangedAt(old(live), live, p.value, Some(Record(header, payload)))
      ensures var listed := old(chunks.free.freeBlocks);
              p.Some? && listed != [] && RoomIn(old(chunks.Header(listed[0])), Record(header, payload).Extent()) ==>
                p.value.block == listed[0]
    {
      var r := Record(header, payload);
      if r.Length() > MAX_STORABLE_DATA {
        return None;
      }
      ghost var headers := chunks.headers;
      var idx, start := chunks.AllocateChunks(r.Extent());
      ghost var header' := chunks.headers[idx];
      LaidAt(headers, images, live, idx);
      WriteKeepsLaid(HeaderOf(headers, idx).bitmap, header'.bitmap, ImageOf(images, idx), RecordsOf(live, idx), start, r);
      var bytes := Put(ImageOf(images, idx), start * CHUNK_SIZE, Padded(r));
      LaidWith(headers, images, live, idx, header', bytes, RecordsOf(live, idx)[start := r]);
      AddedAt(live, Pointer(idx, start), r);
      images := images[idx := bytes];
      live := live[idx := RecordsOf(live, idx)[start := r]];
      p := Some(Pointer(idx, start));
    }

    /** Read back what was written. */
    method Read(p: Pointer) returns (header: DataHeader, payload: seq<byte>)
      requires Valid() && At(live, p).Some?
      ensures At(live, p) == Some(Record(header, payload))
    {
      var bytes, at := images[p.block], p.start * CHUNK_SIZE;
      assert Stored(bytes, p.start, live[p.block][p.start]);
      StoredDecodes(bytes, p.start, live[p.block][p.start]);
      header := Decode(bytes[at..at + DATA_HEADER_SIZE]);
      payload := bytes[at + DATA_HEADER_SIZE..at + DATA_HEADER_SIZE + header.payloadLen];
    }

    /** Release a record, as many chunks as its header says. */
    method Free(p: Pointer)
      requires Valid() && At(live, p).Some?
      modifies this, chunks, chunks.free
      ensures Valid() && ChangedAt(old(live), live, p, None)
    {
      ghost var headers, records := chunks.headers, live[p.block];
      var header, _ := Read(p);
      ghost var listed := chunks.Release(p.block, p.start, ChunksNeeded(DATA_HEADER_SIZE + header.payloadLen));
      ghost var header' := chunks.headers[p.block];
      FreeKeepsLaid(headers[p.block].bitmap, header'.bitmap, images[p.block], records, p.start);
      LaidWith(headers, images, live, p.block, header', images[p.block], records - {p.start});
      RemovedAt(live, p);
      assert images == images[p.block := images[p.block]];
      live := live[p.block := records - {p.start}];
    }

    /** Copy-on-write update: the new version is written first, wherever there is room, and then the old one is released. */
    method Rewrite(p: Pointer, header: DataHeader, payload: seq<byte>) returns (moved: Option<Pointer>)
      requires Valid() && At(live, p).Some?
      requires RecordLayout.Fits(header) && header.chunkType != Empty && header.payloadLen == |payload|
      modifies this, chunks, chunks.free
      ensures Valid()
      ensures moved == None <==> Record(header, payload).Length() > MAX_STORABLE_DATA
      ensures moved == None ==> live == old(live)
      ensures moved.Some? ==>
        At(old(live), moved.value) == None && Moved(old(live), live, p, moved.value, Record(header, payload))
    {
      moved := Write(header, payload);
      if moved.Some? {
        Free(p);
      }
    }

    /** The start-up scan of the first `n` blocks. */
    method ScanAll(n: nat) returns (found: seq<seq<Found>>)
      requires Valid()
      ensures |found| == n && forall i | 0 <= i < n :: Lists(found[i], RecordsOf(live, i), 256)
    {
      found := [];
      for i := 0 to n
        invariant |found| == i && forall j | 0 <= j < i :: Lists(found[j], RecordsOf(live, j), 256)
      {
        LaidAt(chunks.headers, images, live, i);
        var some := Scan(HeaderOf(chunks.headers, i).bitmap, ImageOf(images, i), RecordsOf(live, i));
        found := found + [some];
      }
    }
  }

  /** A scan of every block reports exactly the live records of the file, as they were written. */
  lemma ScanReportsLive(all: Live, found: seq<seq<Found>>, p: Pointer, r: Record)
    requires forall i | 0 <= i < |found| :: Lists(found[i], RecordsOf(all, i), 256) && Placed(RecordsOf(all, i))
    requires p.block < |found|
    ensures At(all, p) == Some(r) <==> Found(p.start, r.header, r.payload) in found[p.block]
  {
    if At(all, p) == Some(r) {
      assert Reported(found[p.block], p.start);
      var f :| f in found[p.block] && f.start == p.start;
      var i :| 0 <= i < |found[p.block]| && found[p.block][i] == f;
    }
  }
}
