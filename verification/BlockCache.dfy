/** The write-back block cache: an LRU list per shard, dirty flags, and a data file behind it.
  *
  * To its callers the cache is a flat map from block numbers to contents: what is cached, or else
  * what is on disk. Loading and flushing may fail at any point; a failure never changes that view.
  */
module BlockCache {
  import opened Numbers
  import opened Options
  import opened Sequences

  type Block = seq<bv8>

  datatype CachedBlock = CachedBlock(data: Block, dirty: bool)

  datatype CacheStats = CacheStats(hits: nat, misses: nat, evictions: nat, dirtyFlushes: nat)

  /** The data file: blocks that were never written read as blank. */
  class DataFile {
    const blank: Block
    var blocks: map<nat, Block>

    constructor (blank: Block)
      ensures this.blank == blank && blocks == map[]
    {
      this.blank := blank;
      blocks := map[];
    }

    function Read(idx: nat): Block
      reads this
    {
      if idx in blocks then blocks[idx] else blank
    }
  }

  // ── The LRU list ──────────────────────────────────────────────────────────

  /** The list is a duplicate-free permutation of the cached keys. */
  ghost predicate Lists(s: seq<nat>, keys: set<nat>) {
    NoRepeats(s) && forall k :: k in s <==> k in keys
  }

  lemma WithoutLists(s: seq<nat>, keys: set<nat>, x: nat)
    requires Lists(s, keys)
    ensures Lists(Without(s, x), keys - {x})
  {
    WithoutNoRepeats(s, x);
  }

  lemma TouchLists(s: seq<nat>, keys: set<nat>, x: nat)
    requires Lists(s, keys)
    ensures Lists([x] + Without(s, x), keys + {x})
  {
    WithoutLists(s, keys, x);
    NoRepeatsCons(x, Without(s, x));
  }

  /** Index of the clean block nearest the end, or -1. */
  function LastClean(lru: seq<nat>, blocks: map<nat, CachedBlock>): int {
    if lru == [] then -1
    else if lru[|lru| - 1] in blocks && !blocks[lru[|lru| - 1]].dirty then |lru| - 1
    else LastClean(lru[..|lru| - 1], blocks)
  }

  /** The block to evict: the least recently used clean one, or the least recently used one. */
  function Victim(lru: seq<nat>, blocks: map<nat, CachedBlock>): Option<nat> {
    var i := LastClean(lru, blocks);
    if 0 <= i < |lru| then Some(lru[i])
    else if lru != [] && lru[|lru| - 1] in blocks && blocks[lru[|lru| - 1]].dirty then Some(lru[|lru| - 1])
    else None
  }

  lemma {:induction false} LastCleanIsLast(lru: seq<nat>, blocks: map<nat, CachedBlock>)
    ensures var i := LastClean(lru, blocks);
      && -1 <= i < |lru|
      && (i >= 0 ==> lru[i] in blocks && !blocks[lru[i]].dirty)
      && (forall j | i < j < |lru| :: lru[j] in blocks ==> blocks[lru[j]].dirty)
  {
    if lru != [] {
      LastCleanIsLast(lru[..|lru| - 1], blocks);
    }
  }

  /** A dirty block goes only when no clean one is cached, and something always can go. */
  lemma VictimIsCleanIfPossible(lru: seq<nat>, blocks: map<nat, CachedBlock>)
    requires Lists(lru, blocks.Keys)
    ensures Victim(lru, blocks) == None <==> blocks == map[]
    ensures Victim(lru, blocks).Some? ==> Victim(lru, blocks).value in blocks
    ensures Victim(lru, blocks).Some? && blocks[Victim(lru, blocks).value].dirty ==> forall k | k in blocks :: blocks[k].dirty
  {
    LastCleanIsLast(lru, blocks);
    if lru == [] {
      assert forall k :: k !in blocks;
    } else {
      assert lru[|lru| - 1] in lru;
      forall k | k in blocks && LastClean(lru, blocks) == -1 ensures blocks[k].dirty {
        assert k in lru;
        var j :| 0 <= j < |lru| && lru[j] == k;
      }
    }
  }

  /** Exactly the block to evict left, and it was dirty only if every cached block was. */
  ghost predicate EvictedOne(before: map<nat, CachedBlock>, order: seq<nat>, after: map<nat, CachedBlock>, order': seq<nat>) {
    var victim := Victim(order, before);
    && victim.Some? && victim.value in before
    && after == before - {victim.value} && order' == Without(order, victim.value)
    && (before[victim.value].dirty ==> forall k | k in before :: before[k].dirty)
  }

  // ── One shard ─────────────────────────────────────────────────────────────

  class BlockShard {
    const file: DataFile
    const capacity: nat
    var blocks: map<nat, CachedBlock>
    var lru: seq<nat>
    var stats: CacheStats

    ghost predicate Valid()
      reads this, file
    {
      && Lists(lru, blocks.Keys)
      && |blocks| <= Max(capacity, 1)
      && CleanMatchesDisk()
    }

    /** A clean block is a copy of the block on disk. */
    ghost predicate CleanMatchesDisk()
      reads this, file
    {
      forall k | k in blocks && !blocks[k].dirty :: blocks[k].data == file.Read(k)
    }

    /** What a reader sees: cached, or else on disk. */
    ghost function View(idx: nat): Block
      reads this, file
    {
      if idx in blocks then blocks[idx].data else file.Read(idx)
    }

    constructor (file: DataFile, capacity: nat)
      ensures Valid() && this.file == file && this.capacity == capacity
      ensures blocks == map[]
    {
      this.file, this.capacity := file, capacity;
      blocks, lru, stats := map[], [], CacheStats(0, 0, 0, 0);
    }

    method Touch(idx: nat)
      requires Valid() && idx in blocks
      modifies this`lru
      ensures Valid() && lru == [idx] + Without(old(lru), idx)
    {
      TouchLists(lru, blocks.Keys, idx);
      assert blocks.Keys + {idx} == blocks.Keys;
      lru := [idx] + Without(lru, idx);
    }

    /** Walk the LRU list from its end for a clean block; fall back to the last one. */
    method FindVictim() returns (victim: Option<nat>)
      requires Valid()
      ensures victim == Victim(lru, blocks)
    {
      var i := |lru|;
      assert lru[..i] == lru;
      while i > 0
        invariant 0 <= i <= |lru|
        invariant LastClean(lru, blocks) == LastClean(lru[..i], blocks)
      {
        i := i - 1;
        assert lru[..i + 1][..i] == lru[..i];
        if lru[i] in blocks && !blocks[lru[i]].dirty {
          return Some(lru[i]);
        }
      }
      if lru != [] && lru[|lru| - 1] in blocks && blocks[lru[|lru| - 1]].dirty {
        return Some(lru[|lru| - 1]);
      }
      return None;
    }

    /** Write one dirty block back to disk. */
    method WriteBack(idx: nat)
      requires Valid() && idx in blocks && blocks[idx].dirty
      modifies file`blocks, this`stats
      ensures Valid() && file.Read(idx) == blocks[idx].data
      ensures forall k | k != idx :: file.Read(k) == old(file.Read(k))
    {
      file.blocks := file.blocks[idx := blocks[idx].data];
      stats := stats.(dirtyFlushes := stats.dirtyFlushes + 1);
    }

    /** Forget one block that agrees with the disk. */
    method Discard(idx: nat)
      requires Valid() && idx in blocks && blocks[idx].data == file.Read(idx)
      modifies this`blocks, this`lru, this`stats
      ensures Valid() && blocks == old(blocks) - {idx} && lru == Without(old(lru), idx)
      ensures |blocks| < |old(blocks)|
    {
      WithoutLists(lru, blocks.Keys, idx);
      assert blocks.Keys == (blocks - {idx}).Keys + {idx};
      blocks, lru := blocks - {idx}, Without(lru, idx);
      stats := stats.(evictions := stats.evictions + 1);
    }

    /** Evict one block, writing it back first when it is dirty; the write may fail. */
    method EvictOne(flushOk: nat -> bool) returns (outcome: Outcome, evicted: bool)
      requires Valid()
      modifies this, file`blocks
      ensures Valid() && forall k :: View(k) == old(View(k))
      ensures forall k | k !in old(blocks) :: file.Read(k) == old(file.Read(k))
      ensures outcome == Done ==> evicted == (old(blocks) != map[])
      ensures evicted ==> EvictedOne(old(blocks), old(lru), blocks, lru)
      ensures evicted ==> |blocks| < |old(blocks)|
      ensures !evicted ==> blocks == old(blocks) && lru == old(lru)
      ensures outcome == Failed ==> !evicted && forall k | k in blocks :: blocks[k].dirty
    {
      var victim := FindVictim();
      VictimIsCleanIfPossible(lru, blocks);
      if victim == None {
        return Done, false;
      }
      outcome := EvictBlock(victim.value, flushOk);
      evicted := outcome == Done;
    }

    method EvictBlock(idx: nat, flushOk: nat -> bool) returns (outcome: Outcome)
      requires Valid() && idx in blocks
      modifies this, file`blocks
      ensures Valid() && forall k :: View(k) == old(View(k))
      ensures forall k | k !in old(blocks) :: file.Read(k) == old(file.Read(k))
      ensures outcome == Done ==> blocks == old(blocks) - {idx} && lru == Without(old(lru), idx) && |blocks| < |old(blocks)|
      ensures outcome == Failed ==> blocks == old(blocks) && lru == old(lru) && blocks[idx].dirty
    {
      if blocks[idx].dirty {
        if !flushOk(idx) {
          return Failed;
        }
        WriteBack(idx);
      }
      Discard(idx);
      return Done;
    }

    /** Make room, then load the block unless it is cached. Both steps may fail part-way. */
    method EnsureLoaded(idx: nat, loadOk: bool, flushOk: nat -> bool) returns (outcome: Outcome)
      requires Valid()
      modifies this, file`blocks
      ensures Valid() && forall k :: View(k) == old(View(k))
      ensures forall k | k !in old(blocks) :: file.Read(k) == old(file.Read(k))
      ensures outcome == Done ==> idx in blocks && lru != [] && lru[0] == idx
      ensures forall k | k in blocks && k != idx :: k in old(blocks) && blocks[k] == old(blocks)[k]
      ensures idx in old(blocks) ==> blocks == old(blocks)
    {
      if idx in blocks {
        Touch(idx);
        stats := stats.(hits := stats.hits + 1);
        return Done;
      }
      stats := stats.(misses := stats.misses + 1);
      outcome := MakeRoom(flushOk);
      if outcome == Failed || !loadOk {
        return Failed;
      }
      Insert(idx);
    }

    method MakeRoom(flushOk: nat -> bool) returns (outcome: Outcome)
      requires Valid()
      modifies this, file`blocks
      ensures Valid() && forall k :: View(k) == old(View(k))
      ensures forall k | k !in old(blocks) :: file.Read(k) == old(file.Read(k))
      ensures forall k | k in blocks :: k in old(blocks) && blocks[k] == old(blocks)[k]
      ensures outcome == Done ==> |blocks| < Max(capacity, 1)
    {
      while |blocks| >= capacity
        invariant Valid() && forall k :: View(k) == old(View(k))
        invariant forall k | k !in old(blocks) :: file.Read(k) == old(file.Read(k))
        invariant forall k | k in blocks :: k in old(blocks) && blocks[k] == old(blocks)[k]
        decreases |blocks|
      {
        var evicted;
        outcome, evicted := EvictOne(flushOk);
        if outcome == Failed {
          return;
        }
        if !evicted {
          break;
        }
      }
      return Done;
    }

    /** Load a block from disk, clean, at the front of the LRU list. */
    method Insert(idx: nat)
      requires Valid() && idx !in blocks && |blocks| < Max(capacity, 1)
      modifies this`blocks, this`lru
      ensures Valid() && blocks == old(blocks)[idx := CachedBlock(file.Read(idx), false)] && lru == [idx] + old(lru)
    {
      NoRepeatsCons(idx, lru);
      blocks := blocks[idx := CachedBlock(file.Read(idx), false)];
      lru := [idx] + lru;
      assert blocks.Keys == old(blocks).Keys + {idx};
    }

    /** Load if needed, then replace the contents and mark the block dirty. */
    method WithBlock(idx: nat, update: Block -> Block, loadOk: bool, flushOk: nat -> bool) returns (outcome: Outcome)
      requires Valid()
      modifies this, file`blocks
      ensures Valid() && (outcome == Done ==> idx in blocks && blocks[idx].dirty && lru[0] == idx)
      ensures forall k | k != idx || outcome == Failed :: View(k) == old(View(k))
      ensures outcome == Done ==> View(idx) == update(old(View(idx)))
      ensures forall k | k !in old(blocks) :: file.Read(k) == old(file.Read(k))
      ensures blocks.Keys <= old(blocks).Keys + {idx}
    {
      outcome := EnsureLoaded(idx, loadOk, flushOk);
      if outcome == Done {
        var changed := CachedBlock(update(blocks[idx].data), true);
        assert blocks[idx := changed].Keys == blocks.Keys;
        blocks := blocks[idx := changed];
      }
    }

    /** Copy a block out, loading it if needed. */
    method ReadBlock(idx: nat, loadOk: bool, flushOk: nat -> bool) returns (outcome: Outcome, data: Block)
      requires Valid()
      modifies this, file`blocks
      ensures Valid() && forall k :: View(k) == old(View(k))
      ensures outcome == Done ==> data == View(idx) && idx in blocks && lru[0] == idx
      ensures forall k | k !in old(blocks) :: file.Read(k) == old(file.Read(k))
      ensures blocks.Keys <= old(blocks).Keys + {idx}
    {
      outcome := EnsureLoaded(idx, loadOk, flushOk);
      data := if outcome == Done then blocks[idx].data else [];
    }

    /** Write every dirty block back; stops at the first failure and then keeps all dirty marks. */
    method FlushDirty(flushOk: nat -> bool) returns (outcome: Outcome)
      requires Valid()
      modifies this, file`blocks
      ensures Valid() && forall k :: View(k) == old(View(k))
      ensures outcome == Done ==> forall k | k in blocks :: file.Read(k) == View(k) && !blocks[k].dirty
      ensures outcome == Failed ==> blocks == old(blocks)
      ensures forall k :: file.Read(k) == old(file.Read(k)) || file.Read(k) == View(k)
      ensures forall k | k !in old(blocks) :: file.Read(k) == old(file.Read(k))
      ensures blocks.Keys == old(blocks).Keys && lru == old(lru)
    {
      var dirty := set k | k in blocks && blocks[k].dirty;
      outcome := WriteAll(dirty, flushOk);
      if outcome == Done {
        MarkAllClean();
        stats := stats.(dirtyFlushes := stats.dirtyFlushes + |dirty|);
      }
    }

    /** Clear every dirty mark, once all cached blocks are on disk. */
    method MarkAllClean()
      requires Valid() && forall k | k in blocks :: file.Read(k) == blocks[k].data
      modifies this`blocks
      ensures Valid() && blocks.Keys == old(blocks).Keys
      ensures forall k | k in blocks :: blocks[k] == CachedBlock(old(blocks)[k].data, false)
    {
      blocks := map k | k in blocks :: blocks[k].(dirty := false);
      assert blocks.Keys == old(blocks).Keys;
    }

    method WriteAll(dirty: set<nat>, flushOk: nat -> bool) returns (outcome: Outcome)
      requires Valid() && dirty <= blocks.Keys
      modifies file`blocks
      ensures CleanMatchesDisk()
      ensures outcome == Done ==> forall k | k in dirty :: file.Read(k) == blocks[k].data
      ensures forall k :: file.Read(k) == old(file.Read(k)) || (k in dirty && file.Read(k) == blocks[k].data)
    {
      var rest := dirty;
      while rest != {}
        invariant rest <= dirty && CleanMatchesDisk()
        invariant forall k | k in dirty && k !in rest :: file.Read(k) == blocks[k].data
        invariant forall k :: file.Read(k) == old(file.Read(k)) || (k in dirty && file.Read(k) == blocks[k].data)
        decreases rest
      {
        var k :| k in rest;
        if !flushOk(k) {
          return Failed;
        }
        file.blocks := file.blocks[k := blocks[k].data];
        rest := rest - {k};
      }
      return Done;
    }
  }

  // ── The shards together ───────────────────────────────────────────────────

  /** Bitwise and. */
  function And(a: nat, b: nat): (r: nat)
    ensures r <= b
    decreases a
  {
    if a == 0 || b == 0 then 0 else 2 * And(a / 2, b / 2) + (if a % 2 == 1 && b % 2 == 1 then 1 else 0)
  }

  function Replacement(data: Block): Block -> Block {
    (old_: Block) => data
  }

  class ShardedBlockCache {
    const file: DataFile
    const shards: seq<BlockShard>

    function ShardOf(idx: nat): (i: nat)
      requires |shards| >= 1
      ensures i < |shards|
    {
      And(idx, |shards| - 1)
    }

    ghost predicate Valid()
      reads this, shards, file
    {
      && |shards| >= 1
      && (forall i, j | 0 <= i < j < |shards| :: shards[i] != shards[j])
      && (forall i | 0 <= i < |shards| :: ShardOk(i))
    }

    /** A shard is consistent and holds only blocks that belong to it. */
    ghost predicate ShardOk(i: nat)
      requires i < |shards|
      reads shards[i], file
    {
      && shards[i].file == file && shards[i].Valid()
      && forall k | k in shards[i].blocks :: ShardOf(k) == i
    }

    /** The flat map the cache stands for. */
    ghost function View(idx: nat): Block
      requires |shards| >= 1
      reads this, shards, set s | s in shards :: s.file
    {
      shards[ShardOf(idx)].View(idx)
    }

    constructor (file: DataFile, totalCapacity: nat, shardCount: nat)
      ensures Valid() && this.file == file && fresh(shards)
      ensures |shards| == Max(shardCount, 1)
      ensures forall idx :: View(idx) == file.Read(idx)
    {
      var n := Max(shardCount, 1);
      var per := (totalCapacity + n - 1) / n;
      var created: seq<BlockShard> := [];
      while |created| < n
        invariant |created| <= n && fresh(created)
        invariant forall i, j | 0 <= i < j < |created| :: created[i] != created[j]
        invariant forall i | 0 <= i < |created| ::
          created[i].file == file && created[i].Valid() && created[i].blocks == map[]
      {
        var shard := new BlockShard(file, per);
        created := created + [shard];
      }
      this.file, shards := file, created;
    }

    /** Change one block: the flat map changes there and nowhere else, and not at all on failure. */
    method WithBlock(idx: nat, update: Block -> Block, loadOk: bool, flushOk: nat -> bool) returns (outcome: Outcome)
      requires Valid()
      modifies shards, file`blocks
      ensures Valid()
      ensures forall k | k != idx || outcome == Failed :: View(k) == old(View(k))
      ensures outcome == Done ==> View(idx) == update(old(View(idx)))
    {
      var i := ShardOf(idx);
      assert ShardOk(i);
      var shard := shards[i];
      outcome := shard.WithBlock(idx, update, loadOk, flushOk);
      forall j | 0 <= j < |shards| ensures ShardOk(j) {
        assert old(ShardOk(j));
        forall k | k in shards[j].blocks && j != i ensures file.Read(k) == old(file.Read(k)) {
          assert ShardOf(k) == j;
        }
      }
      forall k | ShardOf(k) != i ensures View(k) == old(View(k)) {
        assert old(ShardOk(i)) && old(ShardOk(ShardOf(k)));
      }
    }

    method WriteBlock(idx: nat, data: Block, loadOk: bool, flushOk: nat -> bool) returns (outcome: Outcome)
      requires Valid()
      modifies shards, file`blocks
      ensures Valid()
      ensures forall k | k != idx || outcome == Failed :: View(k) == old(View(k))
      ensures outcome == Done ==> View(idx) == data
    {
      outcome := WithBlock(idx, Replacement(data), loadOk, flushOk);
    }

    method ReadBlock(idx: nat, loadOk: bool, flushOk: nat -> bool) returns (outcome: Outcome, data: Block)
      requires Valid()
      modifies shards, file`blocks
      ensures Valid() && forall k :: View(k) == old(View(k))
      ensures outcome == Done ==> data == View(idx)
    {
      var i := ShardOf(idx);
      assert ShardOk(i);
      var shard := shards[i];
      outcome, data := shard.ReadBlock(idx, loadOk, flushOk);
      forall j | 0 <= j < |shards| ensures ShardOk(j) {
        assert old(ShardOk(j));
        forall k | k in shards[j].blocks && j != i ensures file.Read(k) == old(file.Read(k)) {
          assert ShardOf(k) == j;
        }
      }
      forall k | ShardOf(k) != i ensures View(k) == old(View(k)) {
        assert old(ShardOk(i)) && old(ShardOk(ShardOf(k)));
      }
    }

    /** Flush shard by shard. When all succeed the data file holds the whole flat map. */
    method FlushDirty(flushOk: nat -> bool) returns (outcome: Outcome)
      requires Valid()
      modifies shards, file`blocks
      ensures Valid() && forall k :: View(k) == old(View(k))
      ensures outcome == Done ==> forall k :: file.Read(k) == View(k)
      ensures forall k :: file.Read(k) == old(file.Read(k)) || file.Read(k) == View(k)
    {
      for i := 0 to |shards|
        invariant Valid() && forall k :: View(k) == old(View(k))
        invariant forall k :: file.Read(k) == old(file.Read(k)) || file.Read(k) == View(k)
        invariant forall k | ShardOf(k) < i :: file.Read(k) == View(k)
      {
        outcome := FlushShard(i, flushOk);
        if outcome == Failed {
          return;
        }
      }
      return Done;
    }

    method FlushShard(i: nat, flushOk: nat -> bool) returns (outcome: Outcome)
      requires Valid() && i < |shards|
      modifies shards[i], file`blocks
      ensures Valid() && forall k :: View(k) == old(View(k))
      ensures outcome == Done ==> forall k | ShardOf(k) == i :: file.Read(k) == View(k)
      ensures forall k :: file.Read(k) == old(file.Read(k)) || file.Read(k) == View(k)
      ensures forall k | ShardOf(k) != i :: file.Read(k) == old(file.Read(k))
    {
      assert ShardOk(i);
      var shard := shards[i];
      outcome := shard.FlushDirty(flushOk);
      forall j | 0 <= j < |shards| ensures ShardOk(j) {
        assert old(ShardOk(j));
        forall k | k in shards[j].blocks && j != i ensures file.Read(k) == old(file.Read(k)) {
          assert ShardOf(k) == j;
        }
      }
      forall k | ShardOf(k) != i ensures View(k) == old(View(k)) {
        assert old(ShardOk(i)) && old(ShardOk(ShardOf(k)));
      }
    }
  }
}
