/** The redo log's background writer and its batching client.
  *
  * Entries reach the current file in the order they were appended, one by one or in batches. A file is
  * deleted only after the graph's block cache was flushed, so the data file shows all that it logged.
  */
module LogWriter {
  import opened BlockCache
  import opened Bytes
  import opened Options
  import opened RedoLog

  /** File names carry the second of creation and a running number. */
  datatype Name = Name(stamp: nat, seqNo: nat)

  /** What the outside decides during one flush: the clock, the file's age, and for each run of the flush handler which
    * block writes succeed.
    */
  datatype Env = Env(stamp: nat, aged: bool, flushOk: nat -> nat -> bool)

  const BATCH_SIZE := 128

  // ── Frames laid end to end ────────────────────────────────────────────────

  function Join(parts: seq<seq<byte>>): seq<byte> {
    if parts == [] then [] else parts[0] + Join(parts[1..])
  }

  lemma {:induction false} JoinSplits(a: seq<seq<byte>>, b: seq<seq<byte>>)
    ensures Join(a + b) == Join(a) + Join(b)
  {
    if a == [] {
      assert a + b == b;
    } else {
      JoinSplits(a[1..], b);
      assert (a + b)[1..] == a[1..] + b;
    }
  }

  lemma JoinSnoc(parts: seq<seq<byte>>, i: nat)
    requires i < |parts|
    ensures Join(parts[..i + 1]) == Join(parts[..i]) + parts[i]
  {
    JoinSplits(parts[..i], [parts[i]]);
    assert parts[..i + 1] == parts[..i] + [parts[i]];
    assert Join([parts[i]]) == parts[i] + Join([]);
  }

  lemma FramesMove(a: seq<seq<byte>>, b: seq<seq<byte>>, c: seq<seq<byte>>, d: seq<seq<byte>>)
    ensures a + (b + c) + [] + d == a + b + c + d
  {
  }

  method TotalSize(parts: seq<seq<byte>>) returns (total: nat)
    ensures total == |Join(parts)|
  {
    total := 0;
    for i := 0 to |parts|
      invariant total == |Join(parts[..i])|
    {
      JoinSnoc(parts, i);
      total := total + |parts[i]|;
    }
    assert parts[..|parts|] == parts;
  }

  method WriteAll(file: seq<byte>, parts: seq<seq<byte>>) returns (grown: seq<byte>)
    ensures grown == file + Join(parts)
  {
    grown := file;
    for i := 0 to |parts|
      invariant grown == file + Join(parts[..i])
    {
      JoinSnoc(parts, i);
      grown := grown + parts[i];
    }
    assert parts[..|parts|] == parts;
  }

  // ── The writer ────────────────────────────────────────────────────────────

  class Writer {
    const crc: Checksum
    const threshold: nat
    /** The cache whose flush is the handler. */
    const cache: ShardedBlockCache

    /** The log files on disk. */
    var dir: map<Name, seq<byte>>
    var name: Name
    var size: nat
    var nextSeq: nat
    /** Frames received by the writer and not yet written. */
    var batch: seq<seq<byte>>
    /** The client's own buffer while batching. */
    var buffer: Option<seq<seq<byte>>>

    /** How often the flush handler ran. */
    var handlerRuns: nat

    /** Frames of deleted files, and of the current file, in the order they were appended. */
    ghost var gone: seq<seq<byte>>
    ghost var inFile: seq<seq<byte>>
    /** The current file was written by one write. */
    ghost var single: bool

    /** The current file holds exactly the frames since the last switch, any other file is empty, and
      * a file is within the threshold or is a single write.
      */
    ghost predicate Valid()
      reads this
    {
      && name in dir && dir[name] == Join(inFile)
      && (forall n | n in dir :: n.seqNo < nextSeq && (n == name || dir[n] == []))
      && size == |dir[name]| && (size <= threshold || single)
    }

    /** The data file holds the cache's whole flat view. */
    ghost predicate DataCurrent()
      requires cache.Valid()
      reads cache, cache.shards, cache.file, set s | s in cache.shards :: s.file
    {
      forall k :: cache.file.Read(k) == cache.View(k)
    }

    function Buffered(): seq<seq<byte>>
      reads this
    {
      if buffer.Some? then buffer.value else []
    }

    /** Every frame appended since the last renewal, in order. */
    ghost function Log(): seq<seq<byte>>
      reads this
    {
      gone + inFile + batch + Buffered()
    }

    /** The writer of a graph whose log was just renewed. */
    constructor (crc: Checksum, threshold: nat, cache: ShardedBlockCache, stamp: nat)
      ensures Valid() && this.crc == crc && this.threshold == threshold && this.cache == cache
      ensures Log() == [] && buffer == None && batch == []
    {
      this.crc, this.threshold, this.cache := crc, threshold, cache;
      name := Name(stamp, 0);
      dir := map[Name(stamp, 0) := []];
      size, nextSeq, batch, buffer := 0, 1, [], None;
      gone, inFile, single := [], [], true;
      handlerRuns := 0;
    }

    /** The flush handler. A flush that fails part-way leaves every block of the data file old or current. */
    method RunHandler(flushOk: nat -> nat -> bool) returns (outcome: Outcome)
      requires cache.Valid()
      modifies this`handlerRuns, cache.shards, cache.file`blocks
      ensures cache.Valid() && forall k :: cache.View(k) == old(cache.View(k))
      ensures outcome == Done || old(DataCurrent()) ==> DataCurrent()
    {
      outcome := cache.FlushDirty(flushOk(handlerRuns));
      handlerRuns := handlerRuns + 1;
    }

    /** Create an empty file beside the current one. */
    method CreateFile(stamp: nat) returns (created: Name)
      requires Valid()
      modifies this`dir, this`nextSeq
      ensures Valid() && created != name && created !in old(dir) && name.seqNo < created.seqNo < nextSeq
      ensures dir == old(dir)[created := []]
    {
      created := Name(stamp, nextSeq);
      dir := dir[created := []];
      nextSeq := nextSeq + 1;
    }

    /** Start a new file, flush the dirty blocks, and only then delete the old file. */
    method Rotate(env: Env) returns (outcome: Outcome)
      requires Valid() && cache.Valid()
      modifies this`dir, this`name, this`size, this`nextSeq, this`gone, this`inFile, this`single
      modifies this`handlerRuns, cache.shards, cache.file`blocks
      ensures Valid()
      ensures cache.Valid() && forall k :: cache.View(k) == old(cache.View(k))
      ensures outcome == Done || old(DataCurrent()) ==> DataCurrent()
      ensures outcome == Done ==> old(name) !in dir && name.seqNo > old(name.seqNo)
      ensures outcome == Done ==> gone == old(gone + inFile) && inFile == [] && size == 0
      ensures outcome == Failed ==> name == old(name) && gone == old(gone) && inFile == old(inFile)
    {
      var created := CreateFile(env.stamp);
      outcome := RunHandler(env.flushOk);
      if outcome == Failed {
        return;
      }
      SwitchTo(created);
    }

    /** Delete the current file and go on in an empty one. */
    method SwitchTo(created: Name)
      requires Valid() && created in dir && dir[created] == [] && created != name && name.seqNo < created.seqNo
      modifies this`dir, this`name, this`size, this`gone, this`inFile, this`single
      ensures Valid() && name == created && dir == old(dir) - {old(name)}
      ensures gone == old(gone + inFile) && inFile == [] && size == 0
    {
      dir := dir - {name};
      name, size := created, 0;
      gone, inFile, single := gone + inFile, [], true;
    }

    /** Rotate when the file is too old, and again when the pending frames would not fit. */
    method MakeRoom(env: Env, batchSize: nat) returns (outcome: Outcome)
      requires Valid() && cache.Valid()
      modifies this`dir, this`name, this`size, this`nextSeq, this`gone, this`inFile, this`single
      modifies this`handlerRuns, cache.shards, cache.file`blocks
      ensures Valid()
      ensures cache.Valid() && forall k :: cache.View(k) == old(cache.View(k))
      ensures old(DataCurrent()) ==> DataCurrent()
      ensures outcome == Done ==> size + batchSize <= threshold || inFile == []
      ensures gone + inFile == old(gone + inFile) && Log() == old(Log())
      ensures if name == old(name) then gone == old(gone) && inFile == old(inFile)
              else gone == old(gone + inFile) && inFile == [] && DataCurrent() && name.seqNo > old(name.seqNo)
    {
      if env.aged {
        outcome := Rotate(env);
        if outcome == Failed {
          return;
        }
      }
      if size + batchSize > threshold {
        outcome := Rotate(env);
        if outcome == Failed {
          return;
        }
      }
      return Done;
    }

    /** Write out the pending frames, rotating first where needed. On failure they stay pending. */
    method Flush(env: Env) returns (outcome: Outcome)
      requires Valid() && cache.Valid()
      modifies this`dir, this`name, this`size, this`nextSeq, this`batch, this`gone, this`inFile, this`single
      modifies this`handlerRuns, cache.shards, cache.file`blocks
      ensures Valid() && Log() == old(Log())
      ensures cache.Valid() && forall k :: cache.View(k) == old(cache.View(k))
      ensures old(DataCurrent()) ==> DataCurrent()
      ensures batch == if outcome == Done then [] else old(batch)
      ensures gone == if name == old(name) then old(gone) else old(gone + inFile)
      ensures name != old(name) ==> DataCurrent()
    {
      if batch == [] {
        return Done;
      }
      var batchSize := TotalSize(batch);
      outcome := MakeRoom(env, batchSize);
      if outcome == Done {
        WriteBatch(batchSize);
      }
    }

    /** Write the pending frames behind the others; the cache is not involved. */
    method WriteBatch(batchSize: nat)
      requires Valid() && cache.Valid() && batchSize == |Join(batch)|
      requires size + batchSize <= threshold || inFile == []
      modifies this`dir, this`size, this`batch, this`inFile, this`single
      ensures Valid() && batch == [] && inFile == old(inFile + batch) && Log() == old(Log())
      ensures cache.Valid() && forall k :: cache.View(k) == old(cache.View(k))
      ensures old(DataCurrent()) ==> DataCurrent()
    {
      WritePending(batchSize);
    }

    /** The write itself. */
    method WritePending(batchSize: nat)
      requires Valid() && batchSize == |Join(batch)|
      requires size + batchSize <= threshold || inFile == []
      modifies this`dir, this`size, this`batch, this`inFile, this`single
      ensures Valid()
      ensures batch == [] && inFile == old(inFile + batch) && Log() == old(Log())
    {
      JoinSplits(inFile, batch);
      var grown := WriteAll(dir[name], batch);
      dir := dir[name := grown];
      size := size + batchSize;
      single := inFile == [];
      FramesMove(gone, inFile, batch, Buffered());
      inFile := inFile + batch;
      batch := [];
    }

    /** Handle one single entry sent to the writer. */
    method Receive(frame: seq<byte>, env: Env) returns (outcome: Outcome)
      requires Valid() && buffer == None && cache.Valid()
      modifies this, cache.shards, cache.file`blocks
      ensures cache.Valid() && forall k :: cache.View(k) == old(cache.View(k))
      ensures Valid() && buffer == None && Log() == old(Log()) + [frame]
      ensures outcome == Done ==> batch == []
      ensures gone == if name == old(name) then old(gone) else old(gone + inFile)
      ensures name != old(name) ==> DataCurrent()
    {
      batch := batch + [frame];
      outcome := Flush(env);
    }

    /** Hand the client's buffer to the writer, which writes a large batch at once. */
    method ReceiveBatch(env: Env)
      requires Valid() && buffer.Some? && cache.Valid()
      modifies this, cache.shards, cache.file`blocks
      ensures cache.Valid() && forall k :: cache.View(k) == old(cache.View(k))
      ensures Valid() && buffer == Some([]) && Log() == old(Log())
      ensures gone == if name == old(name) then old(gone) else old(gone + inFile)
      ensures name != old(name) ==> DataCurrent()
    {
      batch := batch + buffer.value;
      buffer := Some([]);
      if |batch| >= BATCH_SIZE {
        var outcome := Flush(env);
      }
    }

    // ── The client ──────────────────────────────────────────────────────────

    /** Append an entry: buffered while batching, else written before the call returns. */
    method Append(e: Entry, env: Env) returns (outcome: Outcome)
      requires Valid() && cache.Valid()
      modifies this, cache.shards, cache.file`blocks
      ensures cache.Valid() && forall k :: cache.View(k) == old(cache.View(k))
      ensures Valid() && Log() == old(Log()) + [Encode(crc, e)]
      ensures buffer.Some? == old(buffer.Some?)
      ensures outcome == Done && buffer.None? ==> batch == []
      ensures buffer.Some? ==> dir == old(dir)
      ensures gone == if name == old(name) then old(gone) else old(gone + inFile)
      ensures name != old(name) ==> DataCurrent()
    {
      var frame := Encode(crc, e);
      if buffer.Some? {
        buffer := Some(buffer.value + [frame]);
        return Done;
      }
      outcome := Receive(frame, env);
    }

    method StartBatch()
      requires Valid()
      modifies this`buffer
      ensures Valid() && buffer == (if old(buffer).Some? then old(buffer) else Some([]))
      ensures Log() == old(Log())
    {
      if buffer == None {
        buffer := Some([]);
      }
    }

    /** Send the buffer and wait until it is written. Nothing happens when nothing is buffered. */
    method FlushBatch(first: Env, second: Env) returns (outcome: Outcome)
      requires Valid() && cache.Valid()
      modifies this, cache.shards, cache.file`blocks
      ensures cache.Valid() && forall k :: cache.View(k) == old(cache.View(k))
      ensures Valid() && Log() == old(Log())
      ensures buffer == if old(buffer).Some? then Some([]) else None
      ensures outcome == Done && old(Buffered()) != [] ==> batch == []
      ensures name != old(name) ==> DataCurrent()
    {
      if buffer == None || buffer.value == [] {
        return Done;
      }
      ReceiveBatch(first);
      outcome := Flush(second);
    }

    method EndBatch(first: Env, second: Env) returns (outcome: Outcome)
      requires Valid() && cache.Valid()
      modifies this, cache.shards, cache.file`blocks
      ensures cache.Valid() && forall k :: cache.View(k) == old(cache.View(k))
      ensures Valid() && buffer == None && Log() == old(Log())
      ensures outcome == Done && old(Buffered()) != [] ==> batch == []
      ensures name != old(name) ==> DataCurrent()
    {
      outcome := FlushBatch(first, second);
      buffer := None;
    }

    /** Write what is pending, delete every file and start an empty one. */
    method Renew(env: Env) returns (outcome: Outcome)
      requires Valid() && cache.Valid()
      modifies this, cache.shards, cache.file`blocks
      ensures cache.Valid() && forall k :: cache.View(k) == old(cache.View(k))
      ensures Valid() && dir == map[name := []] && buffer == old(buffer)
      ensures Log() == batch + Buffered()
      ensures batch == if outcome == Done then [] else old(batch)
      ensures old(DataCurrent()) ==> DataCurrent()
    {
      outcome := Flush(env);
      StartOver(env.stamp);
    }

    /** Delete every file and start an empty one. */
    method StartOver(stamp: nat)
      requires Valid()
      modifies this`dir, this`nextSeq, this`name, this`size, this`gone, this`inFile, this`single
      ensures Valid() && dir == map[name := []] && gone == [] && inFile == []
    {
      name, size := Name(stamp, nextSeq), 0;
      dir := map[name := []];
      nextSeq := nextSeq + 1;
      gone, inFile, single := [], [], true;
    }

    /** Flush the blocks, then make everything sent durable and start an empty log. */
    method Close(env: Env) returns (outcome: Outcome)
      requires Valid() && cache.Valid()
      modifies this, cache.shards, cache.file`blocks
      ensures cache.Valid() && forall k :: cache.View(k) == old(cache.View(k))
      ensures Valid()
      ensures outcome == Done ==> DataCurrent() && dir == map[name := []] && batch == []
    {
      outcome := RunHandler(env.flushOk);
      if outcome == Failed {
        return;
      }
      outcome := Flush(env);
      if outcome == Done {
        outcome := Renew(env);
      }
    }
  }

  // ── What a restart reads back ─────────────────────────────────────────────

  function EncodeEach(crc: Checksum, es: seq<Entry>): (r: seq<seq<byte>>)
    ensures |r| == |es|
  {
    seq(|es|, i requires 0 <= i < |es| => Encode(crc, es[i]))
  }

  lemma {:induction false} JoinOfEncodings(crc: Checksum, es: seq<Entry>)
    ensures Join(EncodeEach(crc, es)) == EncodeAll(crc, es)
  {
    if es != [] {
      JoinOfEncodings(crc, es[1..]);
      assert EncodeEach(crc, es)[1..] == EncodeEach(crc, es[1..]);
    }
  }

  function Contents(dir: map<Name, seq<byte>>, names: seq<Name>): seq<seq<byte>>
    requires forall n | n in names :: n in dir
  {
    if names == [] then [] else [dir[names[0]]] + Contents(dir, names[1..])
  }

  /** Empty files left over from failed rotations do not disturb replay, whatever the listing order. */
  lemma {:induction false} EmptyFilesDoNotMatter(crc: Checksum, dir: map<Name, seq<byte>>, names: seq<Name>, name: Name)
    requires forall n | n in names :: n in dir && (n == name || dir[n] == [])
    requires forall i, j | 0 <= i < j < |names| :: names[i] != names[j]
    ensures ReplayFiles(crc, Contents(dir, names)) == if name in names then Replay(crc, dir[name]) else Replayed([], None)
  {
    if names != [] {
      EmptyFilesDoNotMatter(crc, dir, names[1..], name);
      assert Contents(dir, names)[1..] == Contents(dir, names[1..]);
      assert names == [names[0]] + names[1..];
    }
  }

  lemma {:induction false} SurvivorsCoverWritten(crc: Checksum, done: seq<Entry>, pending: seq<Entry>, k: nat)
    requires forall e | e in done :: e.Replayable()
    requires k >= |EncodeAll(crc, done)|
    ensures Survivors(done + pending, k) >= |done|
  {
    if done != [] {
      SurvivorsCoverWritten(crc, done[1..], pending, k - (17 + |done[0].data|));
      assert (done + pending)[1..] == done[1..] + pending;
    }
  }

  /** A crash while `pending` is being written behind `done`: replay of the directory delivers all of
    * `done` and a prefix of `pending`, in order.
    */
  lemma CrashKeepsWrittenEntries(crc: Checksum, dir: map<Name, seq<byte>>, names: seq<Name>, name: Name,
                                 done: seq<Entry>, pending: seq<Entry>, torn: nat)
    requires forall e | e in done + pending :: e.Fits() && e.Replayable()
    requires name in names && forall n | n in names :: n in dir && (n == name || dir[n] == [])
    requires forall i, j | 0 <= i < j < |names| :: names[i] != names[j]
    requires torn <= |Join(EncodeEach(crc, pending))|
    requires dir[name] == Join(EncodeEach(crc, done)) + Join(EncodeEach(crc, pending))[..torn]
    ensures exists n: nat :: n <= |pending| && ReplayFiles(crc, Contents(dir, names)) == Replayed(done + pending[..n], None)
  {
    JoinOfEncodings(crc, done);
    JoinOfEncodings(crc, pending);
    EmptyFilesDoNotMatter(crc, dir, names, name);
    var n := TornBehindWritten(crc, done, pending, torn);
  }

  lemma TornBehindWritten(crc: Checksum, done: seq<Entry>, pending: seq<Entry>, torn: nat) returns (n: nat)
    requires forall e | e in done + pending :: e.Fits() && e.Replayable()
    requires torn <= |EncodeAll(crc, pending)|
    ensures n <= |pending|
    ensures Replay(crc, EncodeAll(crc, done) + EncodeAll(crc, pending)[..torn]) == Replayed(done + pending[..n], None)
  {
    var k := |EncodeAll(crc, done)| + torn;
    TornBytes(crc, done, pending, torn);
    TornLogReplaysWholeEntries(crc, done + pending, k);
    n := SurvivorsBehind(crc, done, pending, k);
  }

  lemma SurvivorsBehind(crc: Checksum, done: seq<Entry>, pending: seq<Entry>, k: nat) returns (n: nat)
    requires forall e | e in done :: e.Replayable()
    requires k >= |EncodeAll(crc, done)|
    ensures n <= |pending| && (done + pending)[..Survivors(done + pending, k)] == done + pending[..n]
  {
    SurvivorsCoverWritten(crc, done, pending, k);
    n := Survivors(done + pending, k) - |done|;
  }

  lemma TornBytes(crc: Checksum, done: seq<Entry>, pending: seq<Entry>, torn: nat)
    requires torn <= |EncodeAll(crc, pending)|
    ensures |EncodeAll(crc, done)| + torn <= |EncodeAll(crc, done + pending)|
    ensures EncodeAll(crc, done) + EncodeAll(crc, pending)[..torn]
            == EncodeAll(crc, done + pending)[..|EncodeAll(crc, done)| + torn]
  {
    EncodeAllSplits(crc, done, pending);
    TornFile(EncodeAll(crc, done), EncodeAll(crc, pending), torn);
  }

  lemma TornFile(a: seq<byte>, b: seq<byte>, k: nat)
    requires k <= |b|
    ensures a + b[..k] == (a + b)[..|a| + k]
  {
  }
}
