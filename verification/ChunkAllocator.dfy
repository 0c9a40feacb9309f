/** Chunk allocation inside one 16 KB block: 256 chunks of 64 bytes, chunk 0 being the header. */
module ChunkAllocator {
  import opened Options

  const CHUNK_SIZE := 64

  // ── Bits ──────────────────────────────────────────────────────────────────

  predicate TestBit(bitmap: seq<bv8>, bit: nat)
    requires |bitmap| == 32 && bit < 256
  {
    bitmap[bit / 8] & (1 << (bit % 8)) != 0
  }

  lemma ByteSet(b: bv8, k: nat, j: nat)
    requires k < 8 && j < 8
    ensures ((b | (1 << k)) & (1 << j) != 0) == (k == j || (b & (1 << j) != 0))
  {
  }

  lemma ByteClear(b: bv8, k: nat, j: nat)
    requires k < 8 && j < 8
    ensures ((b & !(1 << k)) & (1 << j) != 0) == (k != j && (b & (1 << j) != 0))
  {
  }

  method SetBit(bitmap: array<bv8>, bit: nat, value: bool)
    requires bitmap.Length == 32 && bit < 256
    modifies bitmap
    ensures forall j | 0 <= j < 256 :: TestBit(bitmap[..], j) == (if j == bit then value else TestBit(old(bitmap[..]), j))
  {
    if value {
      bitmap[bit / 8] := bitmap[bit / 8] | (1 << (bit % 8));
    } else {
      bitmap[bit / 8] := bitmap[bit / 8] & !(1 << (bit % 8));
    }
    forall j | 0 <= j < 256 ensures TestBit(bitmap[..], j) == (if j == bit then value else TestBit(old(bitmap[..]), j)) {
      ByteSet(old(bitmap[bit / 8]), bit % 8, j % 8);
      ByteClear(old(bitmap[bit / 8]), bit % 8, j % 8);
    }
  }

  // ── Specification of an allocation ────────────────────────────────────────

  /** `count` chunks from `start` are all clear. */
  predicate RunClear(bitmap: seq<bv8>, start: nat, count: nat)
    requires |bitmap| == 32 && start + count <= 256
  {
    forall i | start <= i < start + count :: !TestBit(bitmap, i)
  }

  /** The bitmap with exactly the run added. */
  ghost predicate RunAdded(before: seq<bv8>, after: seq<bv8>, start: nat, count: nat)
    requires |before| == |after| == 32
  {
    forall j | 0 <= j < 256 :: TestBit(after, j) == (TestBit(before, j) || start <= j < start + count)
  }

  ghost predicate RunRemoved(before: seq<bv8>, after: seq<bv8>, start: nat, count: nat)
    requires |before| == |after| == 32
  {
    forall j | 0 <= j < 256 :: TestBit(after, j) == (TestBit(before, j) && !(start <= j < start + count))
  }

  /** The cursor, as a chunk to start from; chunk 0 is never data. */
  function CursorStart(offset: nat): nat {
    if offset < 1 then 1 else offset
  }

  /** The window behind the cursor can take the run. */
  predicate WindowFits(bitmap: seq<bv8>, offset: nat, count: nat)
    requires |bitmap| == 32
  {
    CursorStart(offset) + count <= 256 && RunClear(bitmap, CursorStart(offset), count)
  }

  /** Last chunk the fallback scan looks at. */
  function ScanLimit(offset: nat, count: nat): nat
    requires count >= 1
  {
    (if CursorStart(offset) > count + 1 then CursorStart(offset) - count else 1) + count - 1
  }

  /** A clear run lies within the part the fallback scan looks at. */
  ghost predicate PrefixRun(bitmap: seq<bv8>, limit: nat, start: nat, count: nat)
    requires |bitmap| == 32 && limit < 256
  {
    1 <= start && start + count - 1 <= limit && RunClear(bitmap, start, count)
  }

  /** What one allocation may answer, and what it leaves in the bitmap and the cursor. */
  ghost predicate Allocated(before: seq<bv8>, offset: nat, count: nat, found: Option<nat>, after: seq<bv8>, offset': nat)
    requires |before| == |after| == 32 && offset < 256 && 1 <= count < 256
  {
    var limit := ScanLimit(offset, count);
    if WindowFits(before, offset, count) then
      && found == Some(CursorStart(offset)) && RunAdded(before, after, CursorStart(offset), count)
      && offset' == (CursorStart(offset) + count) % 256
    else
      && offset' == offset
      && match found
         case Some(start) =>
           && PrefixRun(before, limit, start, count) && RunAdded(before, after, start, count)
           && forall s :: 1 <= s < start ==> !PrefixRun(before, limit, s, count)
         case None =>
           after == before && forall s :: !PrefixRun(before, limit, s, count)
  }

  // ── The allocator ─────────────────────────────────────────────────────────

  method SetRun(bitmap: array<bv8>, start: nat, count: nat)
    requires bitmap.Length == 32 && start + count <= 256
    modifies bitmap
    ensures RunAdded(old(bitmap[..]), bitmap[..], start, count)
  {
    for i := start to start + count
      invariant RunAdded(old(bitmap[..]), bitmap[..], start, i - start)
    {
      SetBit(bitmap, i, true);
    }
  }

  method FreeChunks(bitmap: array<bv8>, offset: nat, count: nat)
    requires bitmap.Length == 32 && offset + count <= 256
    modifies bitmap
    ensures RunRemoved(old(bitmap[..]), bitmap[..], offset, count)
  {
    for i := offset to offset + count
      invariant RunRemoved(old(bitmap[..]), bitmap[..], offset, i - offset)
    {
      SetBit(bitmap, i, false);
    }
  }

  /** First the window behind the cursor, then the first clear run in the prefix before it. */
  method AllocChunks(bitmap: array<bv8>, offset: nat, count: nat) returns (found: Option<nat>, offset': nat)
    requires bitmap.Length == 32 && offset < 256 && count < 256
    modifies bitmap
    ensures count == 0 ==> found == None && bitmap[..] == old(bitmap[..]) && offset' == offset
    ensures count >= 1 ==> Allocated(old(bitmap[..]), offset, count, found, bitmap[..], offset')
  {
    if count == 0 {
      return None, offset;
    }
    var start := CursorStart(offset);
    if start + count <= 256 && RunClear(bitmap[..], start, count) {
      SetRun(bitmap, start, count);
      return Some(start), (start + count) % 256;
    }
    found := FirstRun(bitmap, ScanLimit(offset, count), count);
    if found.Some? {
      SetRun(bitmap, found.value, count);
    }
    return found, offset;
  }

  /** The first clear run of `count` chunks within `1..=limit`. */
  method FirstRun(bitmap: array<bv8>, limit: nat, count: nat) returns (found: Option<nat>)
    requires bitmap.Length == 32 && 1 <= count <= limit < 256
    ensures match found
      case Some(start) =>
        && PrefixRun(bitmap[..], limit, start, count)
        && forall s :: 1 <= s < start ==> !PrefixRun(bitmap[..], limit, s, count)
      case None => forall s :: !PrefixRun(bitmap[..], limit, s, count)
  {
    var run := 0;
    var pos := 1;
    while pos <= limit
      invariant 1 <= pos <= limit + 1 && 0 <= run < count && run <= pos - 1
      invariant RunClear(bitmap[..], pos - run, run)
      invariant pos - run > 1 ==> TestBit(bitmap[..], pos - run - 1)
      invariant forall s :: 1 <= s < pos - run && s + count <= pos ==> !RunClear(bitmap[..], s, count)
    {
      if !TestBit(bitmap[..], pos) {
        run := run + 1;
        if run == count {
          return Some(pos + 1 - count);
        }
      } else {
        run := 0;
      }
      pos := pos + 1;
    }
    return None;
  }

  /** A block is full when no two neighbouring data chunks are clear. */
  ghost predicate FullyUsed(bitmap: seq<bv8>)
    requires |bitmap| == 32
  {
    forall pos | 1 <= pos < 255 :: TestBit(bitmap, pos) || TestBit(bitmap, pos + 1)
  }

  method IsBlockFull(bitmap: array<bv8>) returns (full: bool)
    requires bitmap.Length == 32
    ensures full <==> FullyUsed(bitmap[..])
  {
    for pos := 1 to 255
      invariant forall p | 1 <= p < pos :: TestBit(bitmap[..], p) || TestBit(bitmap[..], p + 1)
    {
      if !TestBit(bitmap[..], pos) && !TestBit(bitmap[..], pos + 1) {
        return false;
      }
    }
    return true;
  }

  /** Chunks for `length` bytes, at most 255. */
  function ChunksNeeded(length: nat): (chunks: nat)
    ensures length <= 255 * CHUNK_SIZE ==> chunks * CHUNK_SIZE >= length && (chunks == 0 || (chunks - 1) * CHUNK_SIZE < length)
    ensures chunks <= 255
  {
    var chunks := (length + CHUNK_SIZE - 1) / CHUNK_SIZE;
    if chunks > 255 then 255 else chunks
  }

  // ── What an allocation answer means ───────────────────────────────────────

  /** A run handed out was wholly clear, lies in the data area, and only it was taken. */
  lemma AllocatedRunIsFresh(before: seq<bv8>, offset: nat, count: nat, start: nat, after: seq<bv8>, offset': nat)
    requires |before| == |after| == 32 && offset < 256 && 1 <= count < 256
    requires Allocated(before, offset, count, Some(start), after, offset')
    ensures 1 <= start && start + count <= 256 && RunClear(before, start, count) && RunAdded(before, after, start, count)
  {
  }

  /** Either place the allocator looks at can take the run. */
  ghost predicate HasRoom(bitmap: seq<bv8>, offset: nat, count: nat)
    requires |bitmap| == 32 && offset < 256 && 1 <= count < 256
  {
    WindowFits(bitmap, offset, count) || exists s :: PrefixRun(bitmap, ScanLimit(offset, count), s, count)
  }

  /** `None` is answered exactly when the window is unavailable and the scanned prefix has no clear run. */
  lemma NoneIff(before: seq<bv8>, offset: nat, count: nat, found: Option<nat>, after: seq<bv8>, offset': nat)
    requires |before| == |after| == 32 && offset < 256 && 1 <= count < 256
    requires Allocated(before, offset, count, found, after, offset')
    ensures found == None <==> !HasRoom(before, offset, count)
    ensures found == None ==> after == before
  {
  }

  /** A block that was never used can take any run. */
  lemma BlankBlockAllocates(count: nat, found: Option<nat>, after: seq<bv8>, offset': nat)
    requires |after| == 32 && 1 <= count < 256
    requires Allocated(seq(32, _ => 0), 0, count, found, after, offset')
    ensures found == Some(1)
  {
    var blank: seq<bv8> := seq(32, _ => 0);
    assert forall i | 0 <= i < 256 :: !TestBit(blank, i);
  }

  /** A cursor of 0, to which it wraps once the block's tail is used, makes both places the run at chunk 1: an allocation
    * then succeeds iff that very run is clear, whatever is free further on.
    */
  lemma WrappedCursorSeesFirstRunOnly(before: seq<bv8>, count: nat, found: Option<nat>, after: seq<bv8>, offset': nat)
    requires |before| == |after| == 32 && 1 <= count < 256
    requires Allocated(before, 0, count, found, after, offset')
    ensures found == None <==> !RunClear(before, 1, count)
    ensures found.Some? ==> found == Some(1)
  {
    NoneIff(before, 0, count, found, after, offset');
    forall s | PrefixRun(before, ScanLimit(0, count), s, count) ensures s == 1 {
    }
  }

  /** A block in use that refuses two chunks although 253 neighbouring ones are free: two records fill it from a blank block,
    * the larger one goes, and the cursor has wrapped to 0.
    */
  method FreedTailIsMissed() returns (bitmap: array<bv8>, cursor: nat, found: Option<nat>)
    ensures bitmap.Length == 32 && found == None && cursor == 0 && RunClear(bitmap[..], 3, 253)
  {
    bitmap := new bv8[32](_ => 0);
    assert bitmap[..] == seq(32, _ => 0);
    ghost var blank := bitmap[..];
    assert forall i | 0 <= i < 256 :: !TestBit(blank, i);
    var first, second;
    first, cursor := AllocChunks(bitmap, 0, 2);
    assert first == Some(1);
    ghost var one := bitmap[..];
    second, cursor := AllocChunks(bitmap, cursor, 253);
    assert second == Some(3);
    FreeChunks(bitmap, 3, 253);
    ghost var freed := bitmap[..];
    found, cursor := AllocChunks(bitmap, cursor, 2);
    assert TestBit(freed, 1);
    WrappedCursorSeesFirstRunOnly(freed, 2, found, bitmap[..], cursor);
  }
}
