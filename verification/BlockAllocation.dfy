/** Choosing a block for a new record: the advisory free list and the retry loop over it.
  *
  * The free list may be unsorted, hold duplicates, full blocks or blocks past the end of the file.
  * None of this matters for safety, which rests on each block's own bitmap, nor for termination.
  */
module BlockAllocation {
  import opened ChunkAllocator
  import opened Options
  import opened Sequences
  import opened Sets

  /** The allocation part of a block's header. */
  datatype BlockHeader = BlockHeader(cursor: nat, bitmap: seq<bv8>)
  {
    predicate Ok() {
      cursor < 256 && |bitmap| == 32
    }
  }

  /** A block that was never written reads as zeros. */
  function Blank(): BlockHeader {
    BlockHeader(0, seq(32, _ => 0))
  }

  function HeaderOf(headers: map<nat, BlockHeader>, idx: nat): BlockHeader {
    if idx in headers then headers[idx] else Blank()
  }

  /** The block-level free list. */
  class BitmapFile {
    const preAlloc: nat
    /** True marks a block as full. */
    var bitmap: seq<bool>
    var freeBlocks: seq<nat>
    var lastScanPos: nat

    constructor (preAlloc: nat, bitmap: seq<bool>, freeBlocks: seq<nat>, lastScanPos: nat)
      ensures this.preAlloc == preAlloc && this.bitmap == bitmap
      ensures this.freeBlocks == freeBlocks && this.lastScanPos == lastScanPos
    {
      this.preAlloc, this.bitmap, this.freeBlocks, this.lastScanPos := preAlloc, bitmap, freeBlocks, lastScanPos;
    }

    function PeekFreeBlock(): Option<nat>
      reads this
    {
      if freeBlocks == [] then None else Some(freeBlocks[0])
    }

    method ConsumeFreeBlock(idx: nat)
      modifies this`freeBlocks
      ensures freeBlocks == Without(old(freeBlocks), idx)
    {
      freeBlocks := Without(freeBlocks, idx);
    }

    /** Take in a batch of blocks just appended to the data file. */
    method AllocNewBlocks(start: nat)
      modifies this
      ensures freeBlocks == old(freeBlocks) + seq(preAlloc, i => start + i)
      ensures |bitmap| >= |old(bitmap)| && bitmap[..|old(bitmap)|] == old(bitmap)
      ensures forall i | |old(bitmap)| <= i < |bitmap| :: !bitmap[i]
      ensures lastScanPos == start + preAlloc
    {
      var needed := (start + preAlloc + 7) / 8 * 8;
      if needed > |bitmap| {
        bitmap := bitmap + seq(needed - |bitmap|, _ => false);
      }
      freeBlocks := freeBlocks + seq(preAlloc, i => start + i);
      lastScanPos := start + preAlloc;
    }

    /** Put a block back where a binary search says it belongs, then trim the list to its limit.
      * On an unsorted list the search may miss a block that is present, and any position may come out.
      */
    method MarkPartial(idx: nat) returns (ghost listed: seq<nat>)
      modifies this`freeBlocks
      ensures PutBack(old(freeBlocks), idx, listed)
      ensures freeBlocks == First(listed, preAlloc)
    {
      var missed := idx !in freeBlocks;
      if * {
        missed := true;
      }
      if missed {
        var pos: nat :| pos <= |freeBlocks|;
        freeBlocks := InsertAt(freeBlocks, idx, pos);
      }
      listed := freeBlocks;
      if |freeBlocks| > preAlloc {
        freeBlocks := freeBlocks[..preAlloc];
      }
    }

    /** Mark a block as having room again and list it; a block that is not marked full is left as it is. */
    method MarkFree(idx: nat) returns (ghost listed: seq<nat>)
      modifies this`bitmap, this`freeBlocks
      ensures if idx < |old(bitmap)| && old(bitmap)[idx] then
                && bitmap == old(bitmap)[idx := false]
                && PutBack(old(freeBlocks), idx, listed) && freeBlocks == First(listed, preAlloc)
              else
                bitmap == old(bitmap) && freeBlocks == old(freeBlocks)
    {
      listed := freeBlocks;
      if idx < |bitmap| && bitmap[idx] {
        bitmap := bitmap[idx := false];
        listed := MarkPartial(idx);
      }
    }

    /** Mark a block full and refill the list from the block-level bitmap. */
    method MarkFull(idx: nat)
      modifies this
      ensures bitmap == if idx < |old(bitmap)| then old(bitmap)[idx := true] else old(bitmap)
      ensures freeBlocks == var kept := Without(old(freeBlocks), idx);
                            kept + ClearFrom(bitmap, old(lastScanPos), preAlloc - |kept|)
      ensures idx !in freeBlocks
    {
      if idx < |bitmap| {
        bitmap := bitmap[idx := true];
      }
      freeBlocks := Without(freeBlocks, idx);
      ClearFromIsFirst(bitmap, lastScanPos, preAlloc - |freeBlocks|);
      ScanForFreeBlocks();
    }

    /** Scan on from the last position for blocks that are not full, until the list has its length. */
    method ScanForFreeBlocks()
      modifies this`freeBlocks, this`lastScanPos
      ensures freeBlocks == old(freeBlocks) + ClearFrom(bitmap, old(lastScanPos), preAlloc - |old(freeBlocks)|)
      ensures lastScanPos == if |freeBlocks| > |old(freeBlocks)| then freeBlocks[|freeBlocks| - 1] else old(lastScanPos)
    {
      var blockIdx := lastScanPos;
      while blockIdx < |bitmap|
        invariant freeBlocks + ClearFrom(bitmap, blockIdx, preAlloc - |freeBlocks|)
                  == old(freeBlocks) + ClearFrom(bitmap, old(lastScanPos), preAlloc - |old(freeBlocks)|)
        invariant |freeBlocks| >= |old(freeBlocks)|
        invariant lastScanPos == if |freeBlocks| > |old(freeBlocks)| then freeBlocks[|freeBlocks| - 1] else old(lastScanPos)
      {
        if |freeBlocks| >= preAlloc {
          break;
        }
        if !bitmap[blockIdx] {
          freeBlocks := freeBlocks + [blockIdx];
          lastScanPos := blockIdx;
        }
        blockIdx := blockIdx + 1;
      }
    }
  }

  /** The first `n` elements, or all of them. */
  function First(s: seq<nat>, n: nat): seq<nat> {
    if |s| > n then s[..n] else s
  }

  function InsertAt(s: seq<nat>, x: nat, pos: nat): seq<nat>
    requires pos <= |s|
  {
    s[..pos] + [x] + s[pos..]
  }

  /** The block went in somewhere, unless it was there already. */
  ghost predicate PutBack(before: seq<nat>, idx: nat, after: seq<nat>) {
    (idx in before && after == before) || exists pos: nat :: pos <= |before| && after == InsertAt(before, idx, pos)
  }

  /** The first `n` blocks at or after `pos` that are not full. */
  function ClearFrom(bitmap: seq<bool>, pos: nat, n: int): seq<nat>
    decreases |bitmap| - pos
  {
    if pos >= |bitmap| || n <= 0 then []
    else if bitmap[pos] then ClearFrom(bitmap, pos + 1, n)
    else [pos] + ClearFrom(bitmap, pos + 1, n - 1)
  }

  lemma {:induction false} ClearFromIsFirst(bitmap: seq<bool>, pos: nat, n: int)
    ensures var found := ClearFrom(bitmap, pos, n);
            && (forall b | b in found :: pos <= b < |bitmap| && !bitmap[b])
            && (forall i, j | 0 <= i < j < |found| :: found[i] < found[j])
            && (|found| < n ==> forall b: nat | pos <= b < |bitmap| && !bitmap[b] :: b in found)
            && |found| <= if n > 0 then n else 0
    decreases |bitmap| - pos
  {
    if pos < |bitmap| && n > 0 {
      var n' := if bitmap[pos] then n else n - 1;
      var rest := ClearFrom(bitmap, pos + 1, n');
      ClearFromIsFirst(bitmap, pos + 1, n');
      assert bitmap[pos] || ([pos] + rest)[0] == pos;
      assert forall i | 0 <= i < |rest| :: rest[i] in rest;
      if |rest| < n' {
        forall b: nat | pos <= b < |bitmap| && !bitmap[b] ensures b in ClearFrom(bitmap, pos, n) {
          assert b == pos || b in rest;
        }
      }
    }
  }

  /** The data file behind the cache: the header every block currently shows, and the file length. */
  class ChunkStore {
    var headers: map<nat, BlockHeader>
    var fileBlocks: nat
    const free: BitmapFile

    constructor (free: BitmapFile)
      ensures this.free == free && headers == map[] && fileBlocks == 0
    {
      this.free, headers, fileBlocks := free, map[], 0;
    }

    function Header(idx: nat): BlockHeader
      reads this
    {
      HeaderOf(headers, idx)
    }

    ghost predicate Valid()
      reads this
    {
      free.preAlloc >= 1 && forall idx | idx in headers :: headers[idx].Ok()
    }

    /** Only blocks without room for two chunks are marked full. */
    ghost predicate MarksRight()
      requires Valid()
      reads this, free
    {
      forall idx | 0 <= idx < |free.bitmap| && free.bitmap[idx] :: FullyUsed(Header(idx).bitmap)
    }

    /** Blocks in use that the file does not reach yet. */
    ghost function Beyond(): set<nat>
      reads this
    {
      set idx | idx in headers && idx >= fileBlocks
    }

    /** Try to allocate in one block. */
    method TryBlock(idx: nat, count: nat) returns (found: Option<nat>)
      requires Valid() && 1 <= count < 256
      modifies this`headers
      ensures Valid()
      ensures found == None ==> headers == old(headers) && idx in headers
      ensures found.Some? <==> RoomIn(old(Header(idx)), count)
      ensures found.Some? ==>
        && idx in headers && headers == old(headers)[idx := headers[idx]]
        && Taken(old(Header(idx)), headers[idx], found.value, count)
      ensures old(MarksRight()) ==> MarksRight()
    {
      var header := Header(idx);
      var bitmap := new bv8[32](i requires 0 <= i < 32 => header.bitmap[i]);
      assert bitmap[..] == header.bitmap;
      var cursor;
      found, cursor := AllocChunks(bitmap, header.cursor, count);
      NoneIff(header.bitmap, header.cursor, count, found, bitmap[..], cursor);
      if found.Some? {
        AllocatedRunIsFresh(header.bitmap, header.cursor, count, found.value, bitmap[..], cursor);
        headers := headers[idx := BlockHeader(cursor, bitmap[..])];
        FullStaysFull(header.bitmap, bitmap[..], found.value, count);
      } else if idx !in headers {
        BlankBlockAllocates(count, found, bitmap[..], cursor);
      }
    }

    /** Take the first listed block off the list, extending the file when the list is empty. */
    method NextBlock() returns (blockIdx: nat)
      requires Valid()
      modifies this`fileBlocks, free
      ensures Valid() && (old(MarksRight()) ==> MarksRight())
      ensures if old(free.freeBlocks) == [] then
                blockIdx == old(fileBlocks) && fileBlocks == old(fileBlocks) + free.preAlloc
              else
                && blockIdx == old(free.freeBlocks)[0] && fileBlocks == old(fileBlocks)
                && free.freeBlocks == Without(old(free.freeBlocks), blockIdx) && |free.freeBlocks| < |old(free.freeBlocks)|
    {
      if free.PeekFreeBlock() == None {
        Extend();
      }
      blockIdx := free.PeekFreeBlock().value;
      free.ConsumeFreeBlock(blockIdx);
    }

    /** Find a block with room, retrying over the free list and extending the file when it runs dry. */
    method AllocateChunks(count: nat) returns (blockIdx: nat, offset: nat)
      requires Valid() && 1 <= count < 256
      modifies this, free
      ensures Valid()
      ensures blockIdx in headers && headers == old(headers)[blockIdx := headers[blockIdx]]
      ensures Taken(old(Header(blockIdx)), headers[blockIdx], offset, count)
      ensures fileBlocks >= old(fileBlocks)
      ensures var listed := old(free.freeBlocks);
              listed != [] && RoomIn(old(Header(listed[0])), count) ==> blockIdx == listed[0]
      ensures old(MarksRight()) ==> MarksRight()
    {
      var tried: nat := 0;
      ghost var turns: nat := 0;
      while true
        invariant Valid() && headers == old(headers) && fileBlocks >= old(fileBlocks)
        invariant old(MarksRight()) ==> MarksRight()
        invariant turns == 0 ==> free.freeBlocks == old(free.freeBlocks)
        invariant turns > 0 && old(free.freeBlocks) != [] ==> !RoomIn(old(Header(free.freeBlocks[0])), count)
        decreases |Beyond()|, |free.freeBlocks|, |free.freeBlocks| + 1 - tried
      {
        ghost var beyond, length := Beyond(), |free.freeBlocks|;
        ghost var extended := free.freeBlocks == [];
        ghost var end := fileBlocks;
        blockIdx := NextBlock();
        var found := TryBlock(blockIdx, count);
        if found.Some? {
          offset := found.value;
          Settle(blockIdx);
          return;
        }
        if extended {
          assert blockIdx == end && end in beyond && end !in Beyond();
          ProperSubsetSize(Beyond(), beyond, end);
        }
        tried, turns := tried + 1, turns + 1;
        if tried > |free.freeBlocks| {
          free.ConsumeFreeBlock(blockIdx);
          tried := 0;
        } else {
          ghost var listed := free.MarkPartial(blockIdx);
        }
      }
    }

    /** Release a run of chunks. A block that was full and has room again is marked and listed as such; any other block stays
      * listed, or not listed, as it was.
      */
    method Release(idx: nat, offset: nat, count: nat) returns (ghost listed: seq<nat>)
      requires Valid() && idx in headers && offset + count <= 256
      modifies this`headers, free
      ensures Valid() && idx in headers && headers == old(headers)[idx := BlockHeader(old(headers)[idx].cursor, headers[idx].bitmap)]
      ensures RunRemoved(old(headers)[idx].bitmap, headers[idx].bitmap, offset, count)
      ensures if FullyUsed(old(headers)[idx].bitmap) && !FullyUsed(headers[idx].bitmap)
                 && idx < |old(free.bitmap)| && old(free.bitmap)[idx] then
                && free.bitmap == old(free.bitmap)[idx := false]
                && PutBack(old(free.freeBlocks), idx, listed) && free.freeBlocks == First(listed, free.preAlloc)
              else
                free.bitmap == old(free.bitmap) && free.freeBlocks == old(free.freeBlocks)
      ensures old(MarksRight()) ==> MarksRight()
    {
      var header := headers[idx];
      var bitmap := new bv8[32](i requires 0 <= i < 32 => header.bitmap[i]);
      assert bitmap[..] == header.bitmap;
      var wasFull := IsBlockFull(bitmap);
      FreeChunks(bitmap, offset, count);
      headers := headers[idx := BlockHeader(header.cursor, bitmap[..])];
      var full := IsBlockFull(bitmap);
      listed := free.freeBlocks;
      if wasFull && !full {
        listed := free.MarkFree(idx);
      } else {
        StaysFull(header.bitmap, bitmap[..], offset, count);
      }
    }

    /** Append a batch of blank blocks to the file and list them. */
    method Extend()
      requires Valid() && free.freeBlocks == []
      modifies this`fileBlocks, free
      ensures Valid() && fileBlocks == old(fileBlocks) + free.preAlloc && (old(MarksRight()) ==> MarksRight())
      ensures free.freeBlocks != [] && free.freeBlocks[0] == old(fileBlocks)
    {
      free.AllocNewBlocks(fileBlocks);
      fileBlocks := fileBlocks + free.preAlloc;
    }

    /** Return the block to the list, which may then be over its limit and lose its tail, or mark the block full. */
    method Settle(idx: nat)
      requires Valid() && idx in headers
      modifies free
      ensures Valid()
      ensures FullyUsed(headers[idx].bitmap) ==> idx !in free.freeBlocks
      ensures FullyUsed(headers[idx].bitmap) ==>
                var kept := Without(old(free.freeBlocks), idx);
                free.freeBlocks == kept + ClearFrom(free.bitmap, old(free.lastScanPos), free.preAlloc - |kept|)
      ensures !FullyUsed(headers[idx].bitmap) ==>
                exists listed :: PutBack(old(free.freeBlocks), idx, listed) && free.freeBlocks == First(listed, free.preAlloc)
      ensures old(MarksRight()) ==> MarksRight()
      ensures free.bitmap == if FullyUsed(headers[idx].bitmap) && idx < |old(free.bitmap)|
                             then old(free.bitmap)[idx := true] else old(free.bitmap)
    {
      var header := headers[idx];
      var bitmap := new bv8[32](i requires 0 <= i < 32 => header.bitmap[i]);
      assert bitmap[..] == header.bitmap;
      var full := IsBlockFull(bitmap);
      if full {
        free.MarkFull(idx);
      } else {
        ghost var listed := free.MarkPartial(idx);
      }
    }
  }

  /** Freeing chunks of a block that has room leaves it with room. */
  lemma StaysFull(before: seq<bv8>, after: seq<bv8>, offset: nat, count: nat)
    requires |before| == |after| == 32 && RunRemoved(before, after, offset, count)
    ensures FullyUsed(after) ==> FullyUsed(before)
  {
  }

  /** Taking chunks of a full block leaves it full. */
  lemma FullStaysFull(before: seq<bv8>, after: seq<bv8>, offset: nat, count: nat)
    requires |before| == |after| == 32 && RunAdded(before, after, offset, count)
    ensures FullyUsed(before) ==> FullyUsed(after)
  {
  }

  /** The block can take a run of that length where the allocator looks. */
  ghost predicate RoomIn(header: BlockHeader, count: nat)
    requires 1 <= count < 256
  {
    header.Ok() && HasRoom(header.bitmap, header.cursor, count)
  }

  /** The run was wholly clear before and is the only thing added to the bitmap. */
  ghost predicate Taken(before: BlockHeader, after: BlockHeader, offset: nat, count: nat) {
    && before.Ok() && after.Ok() && 1 <= offset && offset + count <= 256
    && RunClear(before.bitmap, offset, count) && RunAdded(before.bitmap, after.bitmap, offset, count)
  }
}
