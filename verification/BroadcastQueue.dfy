/** The persistent FIFO broadcast queue of the master.
  *
  * Each worker has a list of queue files, oldest first. Broadcasts are appended to the last file,
  * deliveries take the next entry of the first file, and a file is removed once all of it is
  * delivered. A delivery whose answer is lost or reports a server error is tried again, although the worker may have
  * carried the entry out. A restart forgets the in-memory progress and rebuilds the lists from the directory,
  * so it resumes at a file boundary. Appends are atomic and file stamps increase.
  */
module BroadcastQueue {
  import opened GraphModel
  import opened Numbers
  import opened Options
  import Protocol = QueueProtocol

  type Node = string
  /** One queued request: the operation a worker is to carry out. */
  datatype Entry = Entry(target: Node, request: Op)

  /** A queue file is named after its worker and its creation time. */
  datatype QueueFile = QueueFile(node: Node, stamp: nat)

  /** A queue file, how many of its entries were delivered and how many were written. */
  datatype FileProgress = FileProgress(file: QueueFile, consumed: nat, written: nat)

  /** What an append can do to the directory. */
  datatype Append = Appended | LeftEmpty | NotOpened

  /** How a delivery can end: an answer below 500, none or an error although the worker carried it out, or no contact. */
  datatype Answer = Answered | Lost | Unreached

  type Event = Protocol.Event<Entry>

  /** The history of one worker's queue: every entry appended, those in removed files, how many
    * leading entries have been delivered at least once, and all that happened in protocol terms. */
  datatype Trace = Trace(log: seq<Entry>, removed: seq<Entry>, high: nat, events: seq<Event>)

  type Disk = map<QueueFile, seq<Entry>>

  function Content(disk: Disk, file: QueueFile): seq<Entry> {
    if file in disk then disk[file] else []
  }

  ghost function Flatten(disk: Disk, files: seq<FileProgress>): seq<Entry> {
    if files == [] then [] else Content(disk, files[0].file) + Flatten(disk, files[1..])
  }

  // ── The queue as a protocol ───────────────────────────────────────────────

  type View = Protocol.View<Entry>

  /** The worker's queue as the protocol sees it. */
  ghost function ViewOf(files: seq<FileProgress>, t: Trace): View {
    Protocol.View(t.log, |t.removed|, |t.removed| + (if files == [] then 0 else files[0].consumed), t.high)
  }

  // ── Invariant of one worker's queue ───────────────────────────────────────

  ghost predicate FileOk(disk: Disk, max: nat, node: Node, fp: FileProgress) {
    && fp.file.node == node
    && fp.written == |Content(disk, fp.file)| <= max
    && fp.consumed <= fp.written
    && forall e | e in Content(disk, fp.file) :: e.target == node
  }

  ghost predicate Increasing(files: seq<FileProgress>, clock: nat) {
    && (forall i, j | 0 <= i < j < |files| :: files[i].file.stamp < files[j].file.stamp)
    && (forall i | 0 <= i < |files| :: files[i].file.stamp < clock)
  }

  ghost predicate FilesOk(disk: Disk, max: nat, node: Node, files: seq<FileProgress>) {
    forall i | 0 <= i < |files| :: FileOk(disk, max, node, files[i]) && (i > 0 ==> files[i].consumed == 0)
  }

  ghost predicate NodeOk(disk: Disk, max: nat, clock: nat, node: Node, files: seq<FileProgress>, t: Trace) {
    && FilesOk(disk, max, node, files)
    && Increasing(files, clock)
    && t.log == t.removed + Flatten(disk, files)
    && ViewOf(files, t).Ok(max)
    && Recorded(max, ViewOf(files, t), t.events)
  }

  /** The recorded events are a run of the protocol that ends in this view. */
  ghost predicate Recorded(max: nat, v: View, events: seq<Event>) {
    Protocol.Possible(max, Protocol.View([], 0, 0, 0), events) && Protocol.Run(Protocol.View([], 0, 0, 0), events) == v
  }

  lemma RecordMore(max: nat, v: View, events: seq<Event>, e: Event)
    requires Recorded(max, v, events) && Protocol.Enabled(max, v, e)
    ensures Recorded(max, Protocol.After(v, e), events + [e])
  {
    Protocol.Snoc(max, Protocol.View([], 0, 0, 0), events, e);
  }

  // ── Lemmas about file lists ───────────────────────────────────────────────

  lemma {:induction false} FlattenAppend(disk: Disk, files: seq<FileProgress>, fp: FileProgress)
    ensures Flatten(disk, files + [fp]) == Flatten(disk, files) + Content(disk, fp.file)
  {
    if files == [] {
      assert [fp][1..] == [];
    } else {
      FlattenAppend(disk, files[1..], fp);
      assert (files + [fp])[1..] == files[1..] + [fp];
    }
  }

  lemma IncreasingSnoc(files: seq<FileProgress>, clock: nat, fp: FileProgress)
    requires Increasing(files, clock) && clock <= fp.file.stamp
    ensures Increasing(files + [fp], fp.file.stamp + 1)
  {
  }

  lemma IncreasingLater(files: seq<FileProgress>, clock: nat, clock': nat)
    requires Increasing(files, clock) && clock <= clock'
    ensures Increasing(files, clock')
  {
  }

  lemma IncreasingTail(files: seq<FileProgress>, clock: nat)
    requires Increasing(files, clock) && files != []
    ensures Increasing(files[1..], clock)
    ensures forall i | 0 <= i < |files[1..]| :: files[0].file.stamp < files[1..][i].file.stamp
  {
    forall i, j | 0 <= i < j < |files[1..]| ensures files[1..][i].file.stamp < files[1..][j].file.stamp {
      assert files[i + 1].file.stamp < files[j + 1].file.stamp;
    }
  }

  lemma IncreasingCons(files: seq<FileProgress>, clock: nat, fp: FileProgress)
    requires Increasing(files, clock) && fp.file.stamp < clock
    requires forall i | 0 <= i < |files| :: fp.file.stamp < files[i].file.stamp
    ensures Increasing([fp] + files, clock)
  {
  }

  lemma IncreasingSame(files: seq<FileProgress>, files': seq<FileProgress>, clock: nat)
    requires Increasing(files, clock) && |files'| == |files|
    requires forall i | 0 <= i < |files| :: files'[i].file == files[i].file
    ensures Increasing(files', clock)
  {
  }

  /** Files elsewhere do not matter. */
  lemma {:induction false} FlattenFrame(disk: Disk, disk': Disk, files: seq<FileProgress>)
    requires forall fp | fp in files :: Content(disk', fp.file) == Content(disk, fp.file)
    ensures Flatten(disk', files) == Flatten(disk, files)
  {
    if files != [] {
      FlattenFrame(disk, disk', files[1..]);
    }
  }

  lemma NodeOkFrame(disk: Disk, disk': Disk, max: nat, clock: nat, clock': nat, node: Node, files: seq<FileProgress>, t: Trace)
    requires NodeOk(disk, max, clock, node, files, t) && clock <= clock'
    requires forall fp | fp in files :: Content(disk', fp.file) == Content(disk, fp.file)
    ensures NodeOk(disk', max, clock', node, files, t)
  {
    FlattenFrame(disk, disk', files);
  }

  lemma {:induction false} FlattenProgress(disk: Disk, files: seq<FileProgress>, files': seq<FileProgress>)
    requires |files| == |files'| && forall i | 0 <= i < |files| :: files'[i].file == files[i].file
    ensures Flatten(disk, files') == Flatten(disk, files)
  {
    if files != [] {
      FlattenProgress(disk, files[1..], files'[1..]);
    }
  }

  // ── Enqueue ───────────────────────────────────────────────────────────────

  /** Roll to a fresh file when there is none or the current one is full. */
  function Rolled(files: seq<FileProgress>, max: nat, file: QueueFile): seq<FileProgress> {
    if files == [] || files[|files| - 1].written >= max then files + [FileProgress(file, 0, 0)] else files
  }

  lemma RolledOk(disk: Disk, max: nat, clock: nat, node: Node, files: seq<FileProgress>, t: Trace, file: QueueFile)
    requires NodeOk(disk, max, clock, node, files, t) && max >= 1
    requires clock <= file.stamp && file.node == node && file !in disk
    ensures NodeOk(disk, max, file.stamp + 1, node, Rolled(files, max, file), t)
    ensures var files' := Rolled(files, max, file);
      files' != [] && files'[|files'| - 1].written < max && ViewOf(files', t) == ViewOf(files, t)
  {
    RolledFilesOk(disk, max, node, files, file);
    if files == [] || files[|files| - 1].written >= max {
      FlattenAppend(disk, files, FileProgress(file, 0, 0));
      IncreasingSnoc(files, clock, FileProgress(file, 0, 0));
    } else {
      IncreasingLater(files, clock, file.stamp + 1);
    }
  }

  lemma RolledFilesOk(disk: Disk, max: nat, node: Node, files: seq<FileProgress>, file: QueueFile)
    requires FilesOk(disk, max, node, files) && file !in disk && file.node == node && max >= 1
    ensures FilesOk(disk, max, node, Rolled(files, max, file))
  {
  }

  function Written(files: seq<FileProgress>): seq<FileProgress>
    requires files != []
  {
    var last := files[|files| - 1];
    files[|files| - 1 := last.(written := last.written + 1)]
  }

  function Grown(disk: Disk, files: seq<FileProgress>, e: Entry): Disk
    requires files != []
  {
    var file := files[|files| - 1].file;
    disk[file := Content(disk, file) + [e]]
  }

  ghost function Logged(t: Trace, e: Entry): Trace {
    t.(log := t.log + [e], events := t.events + [Protocol.Enqueue(e)])
  }

  /** Appending to the last file appends to the log. */
  lemma AppendOk(disk: Disk, max: nat, clock: nat, node: Node, files: seq<FileProgress>, t: Trace, e: Entry)
    requires NodeOk(disk, max, clock, node, files, t) && e.target == node
    requires files != [] && files[|files| - 1].written < max
    ensures NodeOk(Grown(disk, files, e), max, clock, node, Written(files), Logged(t, e))
  {
    AppendFlatten(disk, files, clock, e);
    IncreasingSame(files, Written(files), clock);
    AppendFilesOk(disk, max, clock, node, files, e);
    assert t.log + [e] == t.removed + (Flatten(disk, files) + [e]);
    assert Written(files)[0].consumed == files[0].consumed;
    RecordMore(max, ViewOf(files, t), t.events, Protocol.Enqueue(e));
  }

  lemma AppendFlatten(disk: Disk, files: seq<FileProgress>, clock: nat, e: Entry)
    requires files != [] && Increasing(files, clock)
    ensures Flatten(Grown(disk, files, e), Written(files)) == Flatten(disk, files) + [e]
  {
    var k := |files| - 1;
    var init := files[..k];
    assert files == init + [files[k]];
    assert Written(files) == init + [Written(files)[k]];
    FlattenAppend(disk, init, files[k]);
    FlattenAppend(Grown(disk, files, e), init, Written(files)[k]);
    GrownFrame(disk, files, clock, e);
  }

  lemma GrownFrame(disk: Disk, files: seq<FileProgress>, clock: nat, e: Entry)
    requires files != [] && Increasing(files, clock)
    ensures Flatten(Grown(disk, files, e), files[..|files| - 1]) == Flatten(disk, files[..|files| - 1])
  {
    forall fp | fp in files[..|files| - 1] ensures Content(Grown(disk, files, e), fp.file) == Content(disk, fp.file) {
      assert fp.file.stamp < files[|files| - 1].file.stamp;
    }
    FlattenFrame(disk, Grown(disk, files, e), files[..|files| - 1]);
  }

  lemma AppendFilesOk(disk: Disk, max: nat, clock: nat, node: Node, files: seq<FileProgress>, e: Entry)
    requires FilesOk(disk, max, node, files) && Increasing(files, clock) && e.target == node
    requires files != [] && files[|files| - 1].written < max
    ensures FilesOk(Grown(disk, files, e), max, node, Written(files))
  {
    var k := |files| - 1;
    var last := files[k];
    var disk' := disk[last.file := Content(disk, last.file) + [e]];
    var files' := files[k := last.(written := last.written + 1)];
    forall i | 0 <= i < |files'| ensures FileOk(disk', max, node, files'[i]) {
      assert FileOk(disk, max, node, files[i]);
      if i < k {
        assert files[i].file.stamp < last.file.stamp;
      }
    }
  }

  // ── Removing delivered files ──────────────────────────────────────────────

  ghost function Dropped(disk: Disk, files: seq<FileProgress>, t: Trace): Trace
    requires files != []
  {
    var removed := t.removed + Content(disk, files[0].file);
    t.(removed := removed, events := t.events + [Protocol.Trim(|removed|)])
  }

  /** A leading file may go when all of it was delivered; every removed entry was delivered. */
  lemma DropOk(disk: Disk, max: nat, clock: nat, node: Node, files: seq<FileProgress>, t: Trace)
    requires NodeOk(disk, max, clock, node, files, t)
    requires files != [] && files[0].consumed >= |Content(disk, files[0].file)|
    ensures NodeOk(disk - {files[0].file}, max, clock, node, files[1..], Dropped(disk, files, t))
    ensures var v := ViewOf(files, t);
            var v' := ViewOf(files[1..], Dropped(disk, files, t));
      v' == v.(base := v'.base) && v.base <= v'.base <= v.pos
  {
    var disk' := disk - {files[0].file};
    IncreasingTail(files, clock);
    assert FileOk(disk, max, node, files[0]);
    forall fp | fp in files[1..] ensures Content(disk', fp.file) == Content(disk, fp.file) {
      assert files[0].file.stamp < fp.file.stamp;
    }
    FlattenFrame(disk, disk', files[1..]);
    DropFilesOk(disk, disk', max, node, files);
    RecordMore(max, ViewOf(files, t), t.events, Protocol.Trim(|Dropped(disk, files, t).removed|));
  }

  lemma DropFilesOk(disk: Disk, disk': Disk, max: nat, node: Node, files: seq<FileProgress>)
    requires FilesOk(disk, max, node, files) && files != []
    requires forall fp | fp in files[1..] :: Content(disk', fp.file) == Content(disk, fp.file)
    ensures FilesOk(disk', max, node, files[1..])
    ensures |files| > 1 ==> files[1].consumed == 0
  {
    forall i | 0 <= i < |files[1..]| ensures FileOk(disk', max, node, files[1..][i]) && files[1..][i].consumed == 0 {
      assert FileOk(disk, max, node, files[i + 1]);
      assert files[1..][i] in files[1..];
    }
  }

  // ── Delivering ────────────────────────────────────────────────────────────

  function Advanced(files: seq<FileProgress>): seq<FileProgress>
    requires files != []
  {
    files[0 := files[0].(consumed := files[0].consumed + 1)]
  }

  /** The high-water mark after delivering the next entry. */
  ghost function Counted(files: seq<FileProgress>, t: Trace): Trace {
    var pos := ViewOf(files, t).pos;
    t.(high := Max(t.high, pos + 1), events := t.events + [Protocol.Deliver])
  }

  lemma AdvanceOk(disk: Disk, max: nat, clock: nat, node: Node, files: seq<FileProgress>, t: Trace)
    requires NodeOk(disk, max, clock, node, files, t)
    requires files != [] && files[0].consumed < |Content(disk, files[0].file)|
    ensures NodeOk(disk, max, clock, node, Advanced(files), Counted(files, t))
    ensures var pos := ViewOf(files, t).pos;
      pos < |t.log| && Content(disk, files[0].file)[files[0].consumed] == t.log[pos]
  {
    assert FileOk(disk, max, node, files[0]);
    FlattenProgress(disk, files, Advanced(files));
    IncreasingSame(files, Advanced(files), clock);
    var first := Content(disk, files[0].file);
    assert Flatten(disk, files)[files[0].consumed] == first[files[0].consumed];
    RecordMore(max, ViewOf(files, t), t.events, Protocol.Deliver);
    forall i | 0 <= i < |files| ensures FileOk(disk, max, node, Advanced(files)[i]) {
      assert FileOk(disk, max, node, files[i]);
    }
  }

  /** The worker carried out the next entry, but its answer did not arrive. */
  ghost function Unanswered(files: seq<FileProgress>, t: Trace): Trace {
    var pos := ViewOf(files, t).pos;
    t.(high := Max(t.high, pos + 1), events := t.events + [Protocol.Attempt])
  }

  lemma AttemptOk(disk: Disk, max: nat, clock: nat, node: Node, files: seq<FileProgress>, t: Trace)
    requires NodeOk(disk, max, clock, node, files, t)
    requires files != [] && files[0].consumed < |Content(disk, files[0].file)|
    ensures NodeOk(disk, max, clock, node, files, Unanswered(files, t))
  {
    AdvanceOk(disk, max, clock, node, files, t);
    RecordMore(max, ViewOf(files, t), t.events, Protocol.Attempt);
  }

  // ── Rebuilding after a restart ────────────────────────────────────────────

  /** The list a restart builds from an old one: empty or missing files are gone, progress is forgotten. */
  ghost function Reloaded(disk: Disk, files: seq<FileProgress>): seq<FileProgress> {
    if files == [] then []
    else if Content(disk, files[0].file) == [] then Reloaded(disk, files[1..])
    else [FileProgress(files[0].file, 0, |Content(disk, files[0].file)|)] + Reloaded(disk, files[1..])
  }

  lemma {:induction false} ReloadedFlatten(disk: Disk, files: seq<FileProgress>)
    ensures Flatten(disk, Reloaded(disk, files)) == Flatten(disk, files)
  {
    if files != [] {
      ReloadedFlatten(disk, files[1..]);
      var rest := Reloaded(disk, files[1..]);
      var first := FileProgress(files[0].file, 0, |Content(disk, files[0].file)|);
      assert ([first] + rest)[1..] == rest;
    }
  }

  /** What the rebuilt list holds: a fresh record of each non-empty file, and nothing else. */
  ghost predicate FreshRecords(disk: Disk, files: seq<FileProgress>, files': seq<FileProgress>) {
    && (forall fp | fp in files' :: fp == FileProgress(fp.file, 0, |Content(disk, fp.file)|) && Content(disk, fp.file) != [])
    && (forall fp | fp in files' :: Listed(files, fp.file))
    && (forall fp | fp in files && Content(disk, fp.file) != [] :: FileProgress(fp.file, 0, |Content(disk, fp.file)|) in files')
  }

  ghost predicate Listed(files: seq<FileProgress>, file: QueueFile) {
    exists fp :: fp in files && fp.file == file
  }

  lemma {:induction false} ReloadedRecords(disk: Disk, files: seq<FileProgress>)
    ensures FreshRecords(disk, files, Reloaded(disk, files))
  {
    if files != [] {
      var tail := files[1..];
      assert files == [files[0]] + tail;
      ReloadedRecords(disk, tail);
      forall fp | fp in Reloaded(disk, tail) ensures Listed(files, fp.file) {
        var o :| o in tail && o.file == fp.file;
        assert o in files;
      }
      assert Listed(files, files[0].file);
    }
  }

  lemma {:induction false} ReloadedIncreasing(disk: Disk, files: seq<FileProgress>, clock: nat)
    requires Increasing(files, clock)
    ensures Increasing(Reloaded(disk, files), clock)
  {
    if files != [] {
      IncreasingTail(files, clock);
      ReloadedIncreasing(disk, files[1..], clock);
      var rest := Reloaded(disk, files[1..]);
      ReloadedRecords(disk, files[1..]);
      forall i | 0 <= i < |rest| ensures files[0].file.stamp < rest[i].file.stamp {
        assert rest[i] in rest;
        var o :| o in files[1..] && o.file == rest[i].file;
      }
      if Content(disk, files[0].file) != [] {
        IncreasingCons(rest, clock, FileProgress(files[0].file, 0, |Content(disk, files[0].file)|));
      }
    }
  }

  ghost function Resumed(t: Trace): Trace {
    t.(events := t.events + [Protocol.Restart])
  }

  lemma ReloadOk(disk: Disk, max: nat, clock: nat, node: Node, files: seq<FileProgress>, t: Trace)
    requires NodeOk(disk, max, clock, node, files, t)
    ensures NodeOk(disk, max, clock, node, Reloaded(disk, files), Resumed(t))
    ensures ViewOf(Reloaded(disk, files), Resumed(t)) == Protocol.After(ViewOf(files, t), Protocol.Restart)
  {
    RecordMore(max, ViewOf(files, t), t.events, Protocol.Restart);
    var files' := Reloaded(disk, files);
    ReloadedFlatten(disk, files);
    ReloadedIncreasing(disk, files, clock);
    ReloadedRecords(disk, files);
    forall i | 0 <= i < |files'| ensures FileOk(disk, max, node, files'[i]) && files'[i].consumed == 0 {
      assert files'[i] in files';
      var o :| o in files && o.file == files'[i].file;
      var k :| 0 <= k < |files| && files[k] == o;
      assert FileOk(disk, max, node, files[k]);
    }
  }

  // ── Sorting the directory listing ─────────────────────────────────────────

  function InsertByStamp(f: QueueFile, s: seq<QueueFile>): seq<QueueFile> {
    if s == [] || f.stamp <= s[0].stamp then [f] + s else [s[0]] + InsertByStamp(f, s[1..])
  }

  function SortByStamp(s: seq<QueueFile>): seq<QueueFile> {
    if s == [] then [] else InsertByStamp(s[0], SortByStamp(s[1..]))
  }

  function Records(disk: Disk, s: seq<QueueFile>): seq<FileProgress> {
    if s == [] then [] else [FileProgress(s[0], 0, |Content(disk, s[0])|)] + Records(disk, s[1..])
  }

  ghost predicate Ascending(s: seq<QueueFile>) {
    s != [] ==> (forall f | f in s[1..] :: s[0].stamp < f.stamp) && Ascending(s[1..])
  }

  /** Distinct files of one node have distinct stamps. */
  ghost predicate Distinct(s: seq<QueueFile>, node: Node) {
    && (forall f | f in s :: f.node == node)
    && (forall i, j | 0 <= i < j < |s| :: s[i] != s[j])
  }

  lemma {:induction false} InsertAscends(f: QueueFile, s: seq<QueueFile>)
    requires Ascending(s) && forall g | g in s :: g.stamp != f.stamp
    ensures Ascending(InsertByStamp(f, s))
    ensures forall g :: g in InsertByStamp(f, s) <==> g == f || g in s
  {
    if s == [] || f.stamp <= s[0].stamp {
      assert ([f] + s)[1..] == s;
      if s != [] {
        assert s == [s[0]] + s[1..];
      }
    } else {
      InsertAscends(f, s[1..]);
      var rest := InsertByStamp(f, s[1..]);
      assert ([s[0]] + rest)[1..] == rest;
      assert s == [s[0]] + s[1..];
    }
  }

  lemma {:induction false} SortAscends(s: seq<QueueFile>, node: Node)
    requires Distinct(s, node)
    ensures Ascending(SortByStamp(s))
    ensures forall g :: g in SortByStamp(s) <==> g in s
  {
    if s != [] {
      var tail := s[1..];
      assert s == [s[0]] + tail;
      assert forall i | 0 <= i < |tail| :: tail[i] == s[i + 1];
      SortAscends(tail, node);
      forall g | g in SortByStamp(tail) ensures g.stamp != s[0].stamp {
        assert g in tail && g.node == s[0].node;
      }
      InsertAscends(s[0], SortByStamp(tail));
    }
  }

  /** An ascending list is determined by its elements. */
  lemma {:induction false} AscendingIsUnique(s: seq<QueueFile>, t: seq<QueueFile>)
    requires Ascending(s) && Ascending(t) && forall f :: f in s <==> f in t
    ensures s == t
  {
    assert s != [] ==> s[0] in t;
    assert t != [] ==> t[0] in s;
    if s != [] && t != [] {
      assert s == [s[0]] + s[1..] && t == [t[0]] + t[1..];
      assert s[0] == t[0];
      forall f ensures f in s[1..] <==> f in t[1..] {
        assert f in s <==> f in t;
      }
      AscendingIsUnique(s[1..], t[1..]);
    }
  }

  ghost function NonEmptyFiles(disk: Disk, files: seq<FileProgress>): seq<QueueFile> {
    if files == [] then []
    else if Content(disk, files[0].file) == [] then NonEmptyFiles(disk, files[1..])
    else [files[0].file] + NonEmptyFiles(disk, files[1..])
  }

  lemma {:induction false} NonEmptyFilesAscend(disk: Disk, files: seq<FileProgress>, clock: nat)
    requires Increasing(files, clock)
    ensures Ascending(NonEmptyFiles(disk, files))
    ensures forall f :: f in NonEmptyFiles(disk, files) <==> Listed(files, f) && Content(disk, f) != []
    ensures Records(disk, NonEmptyFiles(disk, files)) == Reloaded(disk, files)
  {
    if files != [] {
      var tail := files[1..];
      assert files == [files[0]] + tail;
      IncreasingTail(files, clock);
      NonEmptyFilesAscend(disk, tail, clock);
      var rest := NonEmptyFiles(disk, tail);
      assert ([files[0].file] + rest)[1..] == rest;
      forall f ensures Listed(files, f) <==> f == files[0].file || Listed(tail, f) {
        if Listed(tail, f) {
          var fp :| fp in tail && fp.file == f;
          assert fp in files;
        }
        assert files[0] in files;
      }
    }
  }

  /** Sorting the listing of a node's files gives back its queue order. */
  lemma SortedListing(disk: Disk, files: seq<FileProgress>, clock: nat, node: Node, listing: seq<QueueFile>)
    requires Increasing(files, clock) && Distinct(listing, node)
    requires forall f :: f in listing <==> Listed(files, f) && Content(disk, f) != []
    ensures Records(disk, SortByStamp(listing)) == Reloaded(disk, files)
  {
    SortAscends(listing, node);
    NonEmptyFilesAscend(disk, files, clock);
    AscendingIsUnique(SortByStamp(listing), NonEmptyFiles(disk, files));
  }

  // ── All workers' queues together ──────────────────────────────────────────

  type QueueState = map<Node, seq<FileProgress>>

  function FilesOf(state: QueueState, node: Node): seq<FileProgress> {
    if node in state then state[node] else []
  }

  ghost function TraceOf(traces: map<Node, Trace>, node: Node): Trace {
    if node in traces then traces[node] else Trace([], [], 0, [])
  }

  ghost predicate AllOk(disk: Disk, max: nat, clock: nat, state: QueueState, traces: map<Node, Trace>) {
    forall node {:trigger FilesOf(state, node)} :: NodeOk(disk, max, clock, node, FilesOf(state, node), TraceOf(traces, node))
  }

  /** The master's whole queue: directory, in-memory lists, and the history of each worker's queue. */
  datatype Cluster = Cluster(disk: Disk, max: nat, clock: nat, state: QueueState, traces: map<Node, Trace>)

  ghost function ViewIn(c: Cluster, node: Node): View {
    ViewOf(FilesOf(c.state, node), TraceOf(c.traces, node))
  }

  ghost predicate Consistent(c: Cluster) {
    match c
    case Cluster(disk, max, clock, state, traces) =>
      max >= 1 && AllOk(disk, max, clock, state, traces) && NoStray(disk, state)
  }

  /** Every file in the directory is on its node's list. */
  ghost predicate NoStray(disk: Disk, state: QueueState) {
    forall file | file in disk :: Listed(FilesOf(state, file.node), file)
  }

  /** The directory changed in files of one node only. */
  ghost predicate SameElsewhere(disk: Disk, disk': Disk, node: Node) {
    forall file: QueueFile | file.node != node :: (file in disk' <==> file in disk) && Content(disk', file) == Content(disk, file)
  }

  lemma UpdateOne(disk: Disk, disk': Disk, max: nat, clock: nat, clock': nat, state: QueueState,
                  traces: map<Node, Trace>, node: Node, files: seq<FileProgress>, t: Trace)
    requires AllOk(disk, max, clock, state, traces) && clock <= clock'
    requires NodeOk(disk', max, clock', node, files, t)
    requires SameElsewhere(disk, disk', node)
    ensures AllOk(disk', max, clock', state[node := files], traces[node := t])
  {
    var state', traces' := state[node := files], traces[node := t];
    forall n ensures NodeOk(disk', max, clock', n, FilesOf(state', n), TraceOf(traces', n)) {
      if n != node {
        assert NodeOk(disk, max, clock, n, FilesOf(state, n), TraceOf(traces, n));
        OtherNodeOk(disk, disk', max, clock, clock', node, n, FilesOf(state, n), TraceOf(traces, n));
        assert FilesOf(state', n) == FilesOf(state, n) && TraceOf(traces', n) == TraceOf(traces, n);
      } else {
        assert FilesOf(state', n) == files && TraceOf(traces', n) == t;
      }
    }
  }

  lemma OtherNodeOk(disk: Disk, disk': Disk, max: nat, clock: nat, clock': nat, node: Node, n: Node,
                    files: seq<FileProgress>, t: Trace)
    requires NodeOk(disk, max, clock, n, files, t) && clock <= clock'
    requires SameElsewhere(disk, disk', node) && n != node
    ensures NodeOk(disk', max, clock', n, files, t)
  {
    forall fp | fp in files ensures Content(disk', fp.file) == Content(disk, fp.file) {
      var i :| 0 <= i < |files| && files[i] == fp;
      assert FileOk(disk, max, n, files[i]);
    }
    NodeOkFrame(disk, disk', max, clock, clock', n, files, t);
  }

  /** No file can already carry a stamp that the clock has not reached. */
  lemma FreshFile(disk: Disk, max: nat, clock: nat, state: QueueState, traces: map<Node, Trace>, file: QueueFile)
    requires AllOk(disk, max, clock, state, traces) && NoStray(disk, state)
    requires clock <= file.stamp
    ensures file !in disk
  {
    assert NodeOk(disk, max, clock, file.node, FilesOf(state, file.node), TraceOf(traces, file.node));
  }

  /** One node's part changes; the result is again consistent. */
  lemma UpdateKeepsOwners(disk: Disk, disk': Disk, state: QueueState, node: Node, files: seq<FileProgress>)
    requires NoStray(disk, state) && SameElsewhere(disk, disk', node)
    requires forall file | file in disk' && file.node == node :: Listed(files, file)
    ensures NoStray(disk', state[node := files])
  {
    forall file | file in disk' ensures Listed(FilesOf(state[node := files], file.node), file) {
      if file.node != node {
        assert file in disk;
        assert Listed(FilesOf(state, file.node), file);
      }
    }
  }

  // ── What an enqueue leaves behind ─────────────────────────────────────────

  /** A failed append may leave the current file behind without the entry. */
  function AppendedDisk(disk: Disk, files: seq<FileProgress>, entry: Entry, outcome: Append): Disk
    requires files != []
  {
    match outcome
    case Appended => Grown(disk, files, entry)
    case LeftEmpty => disk[files[|files| - 1].file := Content(disk, files[|files| - 1].file)]
    case NotOpened => disk
  }

  function AppendedFiles(files: seq<FileProgress>, outcome: Append): seq<FileProgress>
    requires files != []
  {
    if outcome == Appended then Written(files) else files
  }

  ghost function AppendedTrace(t: Trace, entry: Entry, outcome: Append): Trace {
    if outcome == Appended then Logged(t, entry) else t
  }

  /** Rolling and writing keep every listed file listed, and list the file that was opened. */
  lemma EnqueueLists(files: seq<FileProgress>, max: nat, file: QueueFile, outcome: Append)
    ensures var rolled := Rolled(files, max, file);
            var files' := AppendedFiles(rolled, outcome);
      && (forall f :: Listed(files, f) ==> Listed(files', f))
      && Listed(files', rolled[|rolled| - 1].file)
  {
    var rolled := Rolled(files, max, file);
    var files' := AppendedFiles(rolled, outcome);
    assert files'[|rolled| - 1] in files';
    forall f | Listed(files, f) ensures Listed(files', f) {
      var fp :| fp in files && fp.file == f;
      var i :| 0 <= i < |files| && files[i] == fp;
      assert files'[i] in files' && files'[i].file == f;
    }
  }

  lemma EnqueueNodeOk(disk: Disk, max: nat, clock: nat, files: seq<FileProgress>, t: Trace,
                      file: QueueFile, entry: Entry, outcome: Append)
    requires NodeOk(disk, max, clock, entry.target, files, t) && max >= 1
    requires clock <= file.stamp && file.node == entry.target && file !in disk
    ensures var rolled := Rolled(files, max, file);
      NodeOk(AppendedDisk(disk, rolled, entry, outcome), max, file.stamp + 1, entry.target,
             AppendedFiles(rolled, outcome), AppendedTrace(t, entry, outcome))
  {
    var rolled := Rolled(files, max, file);
    RolledOk(disk, max, clock, entry.target, files, t, file);
    if outcome == Appended {
      AppendOk(disk, max, file.stamp + 1, entry.target, rolled, t, entry);
    } else {
      NodeOkFrame(disk, AppendedDisk(disk, rolled, entry, outcome), max, file.stamp + 1, file.stamp + 1,
                  entry.target, rolled, t);
    }
  }

  lemma EnqueueElsewhere(disk: Disk, max: nat, node: Node, files: seq<FileProgress>,
                         file: QueueFile, entry: Entry, outcome: Append)
    requires FilesOk(disk, max, node, files) && file.node == node
    ensures SameElsewhere(disk, AppendedDisk(disk, Rolled(files, max, file), entry, outcome), node)
  {
    var rolled := Rolled(files, max, file);
    assert rolled[|rolled| - 1].file.node == node by {
      if files != [] {
        assert FileOk(disk, max, node, files[|files| - 1]);
      }
    }
  }

  ghost function AfterEnqueue(c: Cluster, file: QueueFile, entry: Entry, outcome: Append): Cluster {
    var node := entry.target;
    var rolled := Rolled(FilesOf(c.state, node), c.max, file);
    Cluster(AppendedDisk(c.disk, rolled, entry, outcome), c.max, file.stamp + 1,
            c.state[node := AppendedFiles(rolled, outcome)],
            c.traces[node := AppendedTrace(TraceOf(c.traces, node), entry, outcome)])
  }

  lemma EnqueueAllOk(disk: Disk, max: nat, clock: nat, state: QueueState, traces: map<Node, Trace>,
                     file: QueueFile, entry: Entry, outcome: Append)
    requires AllOk(disk, max, clock, state, traces) && max >= 1
    requires clock <= file.stamp && file.node == entry.target && file !in disk
    ensures var node := entry.target;
            var rolled := Rolled(FilesOf(state, node), max, file);
      && AllOk(AppendedDisk(disk, rolled, entry, outcome), max, file.stamp + 1,
               state[node := AppendedFiles(rolled, outcome)],
               traces[node := AppendedTrace(TraceOf(traces, node), entry, outcome)])
      && SameElsewhere(disk, AppendedDisk(disk, rolled, entry, outcome), node)
  {
    var node := entry.target;
    var files, t := FilesOf(state, node), TraceOf(traces, node);
    var rolled := Rolled(files, max, file);
    assert NodeOk(disk, max, clock, node, files, t);
    EnqueueNodeOk(disk, max, clock, files, t, file, entry, outcome);
    EnqueueElsewhere(disk, max, node, files, file, entry, outcome);
    UpdateOne(disk, AppendedDisk(disk, rolled, entry, outcome), max, clock, file.stamp + 1, state, traces, node,
              AppendedFiles(rolled, outcome), AppendedTrace(t, entry, outcome));
  }

  lemma EnqueueNoStray(disk: Disk, max: nat, state: QueueState, file: QueueFile, entry: Entry, outcome: Append)
    requires NoStray(disk, state) && file.node == entry.target
    requires var rolled := Rolled(FilesOf(state, entry.target), max, file);
      SameElsewhere(disk, AppendedDisk(disk, rolled, entry, outcome), entry.target)
    ensures var node := entry.target;
            var rolled := Rolled(FilesOf(state, node), max, file);
      NoStray(AppendedDisk(disk, rolled, entry, outcome), state[node := AppendedFiles(rolled, outcome)])
  {
    var node := entry.target;
    var files := FilesOf(state, node);
    var rolled := Rolled(files, max, file);
    var disk', files' := AppendedDisk(disk, rolled, entry, outcome), AppendedFiles(rolled, outcome);
    EnqueueLists(files, max, file, outcome);
    forall f | f in disk' && f.node == node ensures Listed(files', f) {
      assert f in disk ==> Listed(FilesOf(state, f.node), f);
    }
    UpdateKeepsOwners(disk, disk', state, node, files');
  }

  lemma EnqueueOk(c: Cluster, file: QueueFile, entry: Entry, outcome: Append)
    requires Consistent(c) && c.clock <= file.stamp && file.node == entry.target
    ensures Consistent(AfterEnqueue(c, file, entry, outcome))
  {
    FreshFile(c.disk, c.max, c.clock, c.state, c.traces, file);
    EnqueueAllOk(c.disk, c.max, c.clock, c.state, c.traces, file, entry, outcome);
    EnqueueNoStray(c.disk, c.max, c.state, file, entry, outcome);
  }

  /** An enqueue grows one worker's log, and only when the append succeeded. */
  lemma EnqueueViews(c: Cluster, file: QueueFile, entry: Entry, outcome: Append, n: Node)
    requires c.max >= 1
    ensures var v := ViewIn(c, n);
      ViewIn(AfterEnqueue(c, file, entry, outcome), n)
        == if n == entry.target && outcome == Appended then Protocol.After(v, Protocol.Enqueue(entry)) else v
  {
  }

  // ── Cleaning up and preparing a delivery ──────────────────────────────────

  ghost function AfterDrop(c: Cluster, node: Node): Cluster
    requires FilesOf(c.state, node) != []
  {
    var files := FilesOf(c.state, node);
    c.(disk := c.disk - {files[0].file}, state := c.state[node := files[1..]],
       traces := c.traces[node := Dropped(c.disk, files, TraceOf(c.traces, node))])
  }

  ghost predicate Spent(c: Cluster, node: Node) {
    var files := FilesOf(c.state, node);
    files != [] && files[0].consumed >= |Content(c.disk, files[0].file)|
  }

  lemma DropAllOk(disk: Disk, max: nat, clock: nat, state: QueueState, traces: map<Node, Trace>, node: Node)
    requires AllOk(disk, max, clock, state, traces)
    requires var files := FilesOf(state, node); files != [] && files[0].consumed >= |Content(disk, files[0].file)|
    ensures var files, t := FilesOf(state, node), TraceOf(traces, node);
      && AllOk(disk - {files[0].file}, max, clock, state[node := files[1..]], traces[node := Dropped(disk, files, t)])
      && files[0].file.node == node
  {
    var files, t := FilesOf(state, node), TraceOf(traces, node);
    assert NodeOk(disk, max, clock, node, files, t);
    DropOk(disk, max, clock, node, files, t);
    assert FileOk(disk, max, node, files[0]);
    UpdateOne(disk, disk - {files[0].file}, max, clock, clock, state, traces, node, files[1..], Dropped(disk, files, t));
  }

  lemma DropWholeOk(c: Cluster, node: Node)
    requires Consistent(c) && Spent(c, node)
    ensures Consistent(AfterDrop(c, node))
  {
    var Cluster(disk, max, clock, state, traces) := c;
    DropAllOk(disk, max, clock, state, traces, node);
    DropNoStray(disk, state, node);
  }

  lemma DropNoStray(disk: Disk, state: QueueState, node: Node)
    requires NoStray(disk, state)
    requires FilesOf(state, node) != [] && FilesOf(state, node)[0].file.node == node
    ensures var files := FilesOf(state, node);
      NoStray(disk - {files[0].file}, state[node := files[1..]])
  {
    var files := FilesOf(state, node);
    DropLists(disk, state, node);
    UpdateKeepsOwners(disk, disk - {files[0].file}, state, node, files[1..]);
  }

  lemma DropLists(disk: Disk, state: QueueState, node: Node)
    requires NoStray(disk, state) && FilesOf(state, node) != []
    ensures var files := FilesOf(state, node);
      forall f | f in disk - {files[0].file} && f.node == node :: Listed(files[1..], f)
  {
    var files := FilesOf(state, node);
    assert files == [files[0]] + files[1..];
    forall f | f in disk - {files[0].file} && f.node == node ensures Listed(files[1..], f) {
      assert Listed(FilesOf(state, f.node), f);
      var fp :| fp in files && fp.file == f;
      assert fp in files[1..];
    }
  }

  lemma DropView(disk: Disk, max: nat, clock: nat, node: Node, files: seq<FileProgress>, t: Trace)
    requires NodeOk(disk, max, clock, node, files, t)
    requires files != [] && files[0].consumed >= |Content(disk, files[0].file)|
    ensures var v := ViewOf(files, t);
            var v' := ViewOf(files[1..], Dropped(disk, files, t));
      v' == v.(base := v'.base) && v.base <= v'.base <= v.pos
  {
    DropOk(disk, max, clock, node, files, t);
  }

  /** One protocol step of one worker, and none of any other. */
  ghost predicate OneStep(c: Cluster, c': Cluster, node: Node, e: Event) {
    forall n {:trigger ViewIn(c', n)} :: ViewIn(c', n) == if n == node then Protocol.After(ViewIn(c, n), e) else ViewIn(c, n)
  }

  /** Dropping a spent file moves the restart point, at most up to the next delivery, and nothing else. */
  lemma DropViews(c: Cluster, node: Node)
    requires Consistent(c) && Spent(c, node)
    ensures var trim := Protocol.Trim(ViewIn(AfterDrop(c, node), node).base);
      Protocol.Enabled(c.max, ViewIn(c, node), trim) && OneStep(c, AfterDrop(c, node), node, trim)
  {
    var Cluster(disk, max, clock, state, traces) := c;
    assert NodeOk(disk, max, clock, node, FilesOf(state, node), TraceOf(traces, node));
    DropView(disk, max, clock, node, FilesOf(state, node), TraceOf(traces, node));
  }

  /** What the first entry that is not delivered yet is, seen from the files. */
  lemma NextEntry(c: Cluster, node: Node)
    requires Consistent(c) && !Spent(c, node)
    ensures var files, v := FilesOf(c.state, node), ViewIn(c, node);
      if files == [] then v.pos == |v.log|
      else v.pos < |v.log| && Content(c.disk, files[0].file)[files[0].consumed] == v.log[v.pos]
  {
    var Cluster(disk, max, clock, state, traces) := c;
    var files, t := FilesOf(state, node), TraceOf(traces, node);
    assert NodeOk(disk, max, clock, node, files, t);
    if files != [] {
      AdvanceOk(disk, max, clock, node, files, t);
    }
  }

  // ── A successful delivery ─────────────────────────────────────────────────

  ghost function AfterDelivery(c: Cluster, node: Node): Cluster
    requires FilesOf(c.state, node) != []
  {
    var files := FilesOf(c.state, node);
    c.(state := c.state[node := Advanced(files)], traces := c.traces[node := Counted(files, TraceOf(c.traces, node))])
  }

  lemma DeliveryAllOk(disk: Disk, max: nat, clock: nat, state: QueueState, traces: map<Node, Trace>, node: Node)
    requires AllOk(disk, max, clock, state, traces)
    requires var files := FilesOf(state, node); files != [] && files[0].consumed < |Content(disk, files[0].file)|
    ensures var files, t := FilesOf(state, node), TraceOf(traces, node);
      AllOk(disk, max, clock, state[node := Advanced(files)], traces[node := Counted(files, t)])
  {
    var files, t := FilesOf(state, node), TraceOf(traces, node);
    assert NodeOk(disk, max, clock, node, files, t);
    AdvanceOk(disk, max, clock, node, files, t);
    UpdateOne(disk, disk, max, clock, clock, state, traces, node, Advanced(files), Counted(files, t));
  }

  lemma DeliveryOk(c: Cluster, node: Node)
    requires Consistent(c) && FilesOf(c.state, node) != [] && !Spent(c, node)
    ensures Consistent(AfterDelivery(c, node))
  {
    var Cluster(disk, max, clock, state, traces) := c;
    DeliveryAllOk(disk, max, clock, state, traces, node);
    AdvancedLists(FilesOf(state, node));
    AdvanceKeepsOwners(disk, state, node, Advanced(FilesOf(state, node)));
  }

  lemma AdvanceKeepsOwners(disk: Disk, state: QueueState, node: Node, files: seq<FileProgress>)
    requires NoStray(disk, state)
    requires forall f :: Listed(FilesOf(state, node), f) ==> Listed(files, f)
    ensures NoStray(disk, state[node := files])
  {
    forall f | f in disk && f.node == node ensures Listed(files, f) {
      assert Listed(FilesOf(state, f.node), f);
    }
    UpdateKeepsOwners(disk, disk, state, node, files);
  }

  /** The queue after an attempt without an answer: nothing changes but the history. */
  ghost function AfterAttempt(c: Cluster, node: Node): Cluster {
    c.(traces := c.traces[node := Unanswered(FilesOf(c.state, node), TraceOf(c.traces, node))])
  }

  lemma AttemptKeepsConsistent(c: Cluster, node: Node)
    requires Consistent(c) && FilesOf(c.state, node) != [] && !Spent(c, node)
    ensures Consistent(AfterAttempt(c, node))
  {
    var Cluster(disk, max, clock, state, traces) := c;
    var t := Unanswered(FilesOf(state, node), TraceOf(traces, node));
    assert NodeOk(disk, max, clock, node, FilesOf(state, node), TraceOf(traces, node));
    AttemptOk(disk, max, clock, node, FilesOf(state, node), TraceOf(traces, node));
    UpdateOne(disk, disk, max, clock, clock, state, traces, node, FilesOf(state, node), t);
    assert state[node := FilesOf(state, node)] == state;
  }

  /** An attempt without an answer is one attempt step of its worker: the position stays. */
  lemma AttemptViews(c: Cluster, node: Node)
    ensures OneStep(c, AfterAttempt(c, node), node, Protocol.Attempt)
  {
  }

  /** A delivery moves one worker's position by one and touches nothing else. */
  lemma DeliveryViews(c: Cluster, node: Node)
    requires FilesOf(c.state, node) != []
    ensures OneStep(c, AfterDelivery(c, node), node, Protocol.Deliver)
  {
  }

  lemma AdvancedLists(files: seq<FileProgress>)
    requires files != []
    ensures forall f :: Listed(files, f) ==> Listed(Advanced(files), f)
  {
    forall f | Listed(files, f) ensures Listed(Advanced(files), f) {
      var fp :| fp in files && fp.file == f;
      var i :| 0 <= i < |files| && files[i] == fp;
      assert Advanced(files)[i] in Advanced(files) && Advanced(files)[i].file == f;
    }
  }

  // ── A restart ─────────────────────────────────────────────────────────────

  /** The directory with the empty files already seen taken out. */
  function Kept(disk: Disk, pending: set<QueueFile>): Disk {
    map f | f in disk && (f in pending || disk[f] != []) :: disk[f]
  }

  /** A restart keeps the non-empty files and forgets how much of them was delivered. */
  ghost function AfterRestart(c: Cluster): Cluster {
    c.(disk := Kept(c.disk, {}),
       state := map n | n in c.state && Reloaded(c.disk, c.state[n]) != [] :: Reloaded(c.disk, c.state[n]),
       traces := map n | n in c.traces.Keys + c.state.Keys :: Resumed(TraceOf(c.traces, n)))
  }

  lemma RestartFiles(c: Cluster, n: Node)
    ensures FilesOf(AfterRestart(c).state, n) == Reloaded(c.disk, FilesOf(c.state, n))
  {
  }

  lemma {:induction false} ReloadedFrame(disk: Disk, disk': Disk, files: seq<FileProgress>)
    requires forall f :: Content(disk', f) == Content(disk, f)
    ensures Reloaded(disk', files) == Reloaded(disk, files)
  {
    if files != [] {
      ReloadedFrame(disk, disk', files[1..]);
    }
  }

  lemma ReloadedNodeOk(disk: Disk, max: nat, clock: nat, node: Node, files: seq<FileProgress>, t: Trace)
    requires NodeOk(disk, max, clock, node, files, t)
    ensures NodeOk(Kept(disk, {}), max, clock, node, Reloaded(disk, files), Resumed(t))
  {
    ReloadOk(disk, max, clock, node, files, t);
    NodeOkFrame(disk, Kept(disk, {}), max, clock, clock, node, Reloaded(disk, files), Resumed(t));
  }

  lemma RestartTraces(c: Cluster, n: Node)
    ensures TraceOf(AfterRestart(c).traces, n) ==
      if n in c.traces || n in c.state then Resumed(TraceOf(c.traces, n)) else Trace([], [], 0, [])
  {
  }

  lemma RestartNodeOk(c: Cluster, n: Node)
    requires AllOk(c.disk, c.max, c.clock, c.state, c.traces)
    ensures var c' := AfterRestart(c);
      NodeOk(c'.disk, c'.max, c'.clock, n, FilesOf(c'.state, n), TraceOf(c'.traces, n))
  {
    RestartFiles(c, n);
    RestartTraces(c, n);
    assert NodeOk(c.disk, c.max, c.clock, n, FilesOf(c.state, n), TraceOf(c.traces, n));
    if n in c.traces || n in c.state {
      ReloadedNodeOk(c.disk, c.max, c.clock, n, FilesOf(c.state, n), TraceOf(c.traces, n));
    }
  }

  lemma RestartNoStray(c: Cluster)
    requires Consistent(c)
    ensures NoStray(AfterRestart(c).disk, AfterRestart(c).state)
  {
    var c' := AfterRestart(c);
    forall f | f in c'.disk ensures Listed(FilesOf(c'.state, f.node), f) {
      var files := FilesOf(c.state, f.node);
      RestartFiles(c, f.node);
      ReloadedRecords(c.disk, files);
      assert Listed(files, f);
      var fp :| fp in files && fp.file == f;
      assert FileProgress(f, 0, |Content(c.disk, f)|) in Reloaded(c.disk, files);
    }
  }

  lemma RestartOk(c: Cluster)
    requires Consistent(c)
    ensures Consistent(AfterRestart(c))
  {
    var c' := AfterRestart(c);
    forall n ensures NodeOk(c'.disk, c'.max, c'.clock, n, FilesOf(c'.state, n), TraceOf(c'.traces, n)) {
      RestartNodeOk(c, n);
    }
    RestartNoStray(c);
  }

  /** The next delivery falls back to the restart point: the first entry of the oldest file. */
  lemma RestartViews(c: Cluster, n: Node)
    requires Consistent(c)
    ensures ViewIn(AfterRestart(c), n) == Protocol.After(ViewIn(c, n), Protocol.Restart)
  {
    RestartFiles(c, n);
    RestartTraces(c, n);
    assert NodeOk(c.disk, c.max, c.clock, n, FilesOf(c.state, n), TraceOf(c.traces, n));
    ReloadOk(c.disk, c.max, c.clock, n, FilesOf(c.state, n), TraceOf(c.traces, n));
  }

  function Group(groups: map<Node, seq<QueueFile>>, n: Node): seq<QueueFile> {
    if n in groups then groups[n] else []
  }

  /** The directory scan so far: non-empty files grouped by the target of their first entry. */
  ghost predicate Grouped(groups: map<Node, seq<QueueFile>>, disk: Disk, pending: set<QueueFile>) {
    && (forall n | n in groups :: groups[n] != [])
    && (forall n {:trigger Group(groups, n)} :: Distinct(Group(groups, n), n))
    && (forall n, f :: f in Group(groups, n) <==> f.node == n && f in disk && f !in pending && disk[f] != [])
  }

  function Classified(groups: map<Node, seq<QueueFile>>, disk: Disk, f: QueueFile): map<Node, seq<QueueFile>>
    requires f in disk
  {
    if disk[f] == [] then groups else groups[disk[f][0].target := Group(groups, disk[f][0].target) + [f]]
  }

  lemma GroupMore(groups: map<Node, seq<QueueFile>>, disk: Disk, pending: set<QueueFile>, f: QueueFile)
    requires Grouped(groups, disk, pending)
    requires f in pending && f in disk
    requires disk[f] != [] ==> disk[f][0].target == f.node
    ensures Grouped(Classified(groups, disk, f), disk, pending - {f})
  {
    if disk[f] != [] {
      var old_ := Group(groups, f.node);
      var groups' := Classified(groups, disk, f);
      assert Distinct(old_, f.node) && f !in old_;
      forall n ensures Distinct(Group(groups', n), n) {
        assert Distinct(Group(groups, n), n);
      }
      forall n, g ensures g in Group(groups', n) <==> g.node == n && g in disk && g !in pending - {f} && disk[g] != [] {
        assert g in Group(groups, n) <==> g.node == n && g in disk && g !in pending && disk[g] != [];
      }
    }
  }

  /** The first entry of a file tells whose file it is. */
  ghost predicate TargetsMatch(disk: Disk) {
    forall f | f in disk && disk[f] != [] :: disk[f][0].target == f.node
  }

  lemma TargetsOfFiles(c: Cluster)
    requires Consistent(c)
    ensures TargetsMatch(c.disk)
  {
    forall f | f in c.disk && c.disk[f] != [] ensures c.disk[f][0].target == f.node {
      var files := FilesOf(c.state, f.node);
      assert NodeOk(c.disk, c.max, c.clock, f.node, files, TraceOf(c.traces, f.node));
      assert Listed(files, f);
      var fp :| fp in files && fp.file == f;
      var i :| 0 <= i < |files| && files[i] == fp;
      assert FileOk(c.disk, c.max, f.node, files[i]);
      assert c.disk[f][0] in Content(c.disk, f);
    }
  }

  /** The scan's groups, sorted, are the lists described by `AfterRestart`. */
  lemma GroupsAreReloaded(c: Cluster, groups: map<Node, seq<QueueFile>>, n: Node)
    requires Consistent(c) && Grouped(groups, c.disk, {})
    ensures Records(c.disk, SortByStamp(Group(groups, n))) == Reloaded(c.disk, FilesOf(c.state, n))
  {
    var files := FilesOf(c.state, n);
    var listing := Group(groups, n);
    assert NodeOk(c.disk, c.max, c.clock, n, files, TraceOf(c.traces, n));
    forall f ensures f in listing <==> Listed(files, f) && Content(c.disk, f) != [] {
      ListedOnDisk(c, n, f);
    }
    SortedListing(c.disk, files, c.clock, n, listing);
  }

  lemma GroupsCoverState(c: Cluster, groups: map<Node, seq<QueueFile>>, n: Node)
    requires Consistent(c) && Grouped(groups, c.disk, {})
    ensures n in groups <==> n in AfterRestart(c).state
  {
    var listing := Group(groups, n);
    GroupsAreReloaded(c, groups, n);
    assert Distinct(listing, n);
    SortAscends(listing, n);
    if listing != [] {
      assert listing[0] in SortByStamp(listing);
    }
  }

  lemma {:induction false} RecordsFrame(disk: Disk, disk': Disk, s: seq<QueueFile>)
    requires forall f :: Content(disk', f) == Content(disk, f)
    ensures Records(disk', s) == Records(disk, s)
  {
    if s != [] {
      RecordsFrame(disk, disk', s[1..]);
    }
  }

  function Rebuilt(disk: Disk, groups: map<Node, seq<QueueFile>>): QueueState {
    map n | n in groups :: Records(disk, SortByStamp(groups[n]))
  }

  lemma RebuiltEntry(c: Cluster, groups: map<Node, seq<QueueFile>>, n: Node)
    requires Consistent(c) && Grouped(groups, c.disk, {})
    ensures n in Rebuilt(AfterRestart(c).disk, groups) <==> n in AfterRestart(c).state
    ensures n in groups ==> Rebuilt(AfterRestart(c).disk, groups)[n] == Reloaded(c.disk, FilesOf(c.state, n))
  {
    GroupsCoverState(c, groups, n);
    GroupsAreReloaded(c, groups, n);
    if n in groups {
      RecordsFrame(c.disk, AfterRestart(c).disk, SortByStamp(groups[n]));
    }
  }

  lemma RebuiltIsReloaded(c: Cluster, groups: map<Node, seq<QueueFile>>)
    requires Consistent(c) && Grouped(groups, c.disk, {})
    ensures Rebuilt(AfterRestart(c).disk, groups) == AfterRestart(c).state
  {
    var rebuilt, reloaded := Rebuilt(AfterRestart(c).disk, groups), AfterRestart(c).state;
    forall n ensures n in rebuilt <==> n in reloaded
             ensures n in rebuilt ==> rebuilt[n] == reloaded[n]
    {
      RebuiltEntry(c, groups, n);
    }
    assert rebuilt.Keys == reloaded.Keys;
  }

  lemma KeptMore(disk: Disk, pending: set<QueueFile>, f: QueueFile)
    requires f in pending && f in disk
    ensures Kept(disk, pending - {f}) == if disk[f] != [] then Kept(disk, pending) else Kept(disk, pending) - {f}
  {
  }

  lemma ListedOnDisk(c: Cluster, n: Node, f: QueueFile)
    requires Consistent(c)
    ensures f.node == n && f in c.disk && c.disk[f] != [] <==> Listed(FilesOf(c.state, n), f) && Content(c.disk, f) != []
  {
    var files := FilesOf(c.state, n);
    assert NodeOk(c.disk, c.max, c.clock, n, files, TraceOf(c.traces, n));
    if Listed(files, f) {
      var fp :| fp in files && fp.file == f;
      var i :| 0 <= i < |files| && files[i] == fp;
      assert FileOk(c.disk, c.max, n, files[i]);
    }
    if f.node == n && f in c.disk {
      assert Listed(FilesOf(c.state, f.node), f);
    }
  }

  lemma ScanRebuilds(c: Cluster, groups: map<Node, seq<QueueFile>>, kept: Disk)
    requires Consistent(c) && Grouped(groups, c.disk, {}) && kept == Kept(c.disk, {})
    ensures kept == AfterRestart(c).disk && Rebuilt(kept, groups) == AfterRestart(c).state
  {
    RebuiltIsReloaded(c, groups);
  }

  // ── What the invariant says to a caller ───────────────────────────────────

  /** The log is what was removed plus what is on disk, in file order; everything removed was
    * delivered; no file is longer than the limit. */
  lemma QueueSafety(c: Cluster, node: Node)
    requires Consistent(c)
    ensures var t := TraceOf(c.traces, node);
      t.log == t.removed + Flatten(c.disk, FilesOf(c.state, node)) && |t.removed| <= t.high <= |t.log|
    ensures forall f | f in c.disk :: |c.disk[f]| <= c.max && forall e | e in c.disk[f] :: e.target == f.node
  {
    assert NodeOk(c.disk, c.max, c.clock, node, FilesOf(c.state, node), TraceOf(c.traces, node));
    forall f | f in c.disk ensures |c.disk[f]| <= c.max && forall e | e in c.disk[f] :: e.target == f.node {
      FileIsBounded(c, f);
    }
  }

  lemma FileIsBounded(c: Cluster, f: QueueFile)
    requires Consistent(c) && f in c.disk
    ensures |c.disk[f]| <= c.max && forall e | e in c.disk[f] :: e.target == f.node
  {
    assert NodeOk(c.disk, c.max, c.clock, f.node, FilesOf(c.state, f.node), TraceOf(c.traces, f.node));
    assert Listed(FilesOf(c.state, f.node), f);
    ListedIsOk(c.disk, c.max, f.node, FilesOf(c.state, f.node), f);
  }

  lemma ListedIsOk(disk: Disk, max: nat, node: Node, files: seq<FileProgress>, f: QueueFile)
    requires FilesOk(disk, max, node, files) && Listed(files, f)
    ensures f.node == node && |Content(disk, f)| <= max && forall e | e in Content(disk, f) :: e.target == node
  {
    var fp :| fp in files && fp.file == f;
    var i :| 0 <= i < |files| && files[i] == fp;
    assert FileOk(disk, max, node, files[i]);
  }

  // ── The queue object ──────────────────────────────────────────────────────

  class Queue {
    const maxPerFile: nat
    var state: QueueState
    var disk: Disk
    ghost var clock: nat
    ghost var traces: map<Node, Trace>

    ghost function Whole(): Cluster
      reads this
    {
      Cluster(disk, maxPerFile, clock, state, traces)
    }

    ghost function Progress(node: Node): View
      reads this
    {
      ViewIn(Whole(), node)
    }

    ghost predicate Valid()
      reads this
    {
      Consistent(Whole())
    }

    constructor (max: nat)
      ensures Valid() && maxPerFile == (if max >= 1 then max else 1)
      ensures forall node :: Progress(node) == Protocol.View([], 0, 0, 0)
    {
      maxPerFile := if max >= 1 then max else 1;
      state, disk := map[], map[];
      clock, traces := 0, map[];
    }

    /** Append a request to the worker's current file, rolling to a fresh file when it is full. */
    method Enqueue(node: Node, request: Op, stamp: nat, outcome: Append)
      requires Valid() && clock <= stamp
      modifies this
      ensures Whole() == AfterEnqueue(old(Whole()), QueueFile(node, stamp), Entry(node, request), outcome) && Valid()
    {
      var entry := Entry(node, request);
      var file := QueueFile(node, stamp);
      ghost var before := Whole();
      var files := Rolled(FilesOf(state, node), maxPerFile, file);
      disk := AppendedDisk(disk, files, entry, outcome);
      state := state[node := AppendedFiles(files, outcome)];
      clock, traces := stamp + 1, traces[node := AppendedTrace(TraceOf(traces, node), entry, outcome)];
      assert Whole() == AfterEnqueue(before, file, entry, outcome);
      EnqueueOk(before, file, entry, outcome);
    }

    /** Drop leading files that are fully delivered or empty, then pick the next entry of the first file. */
    method PrepareNext(node: Node) returns (entry: Option<Entry>)
      requires Valid()
      modifies this
      ensures Valid() && !Spent(Whole(), node)
      ensures var v, v' := old(Progress(node)), Progress(node);
        Protocol.Enabled(maxPerFile, v, Protocol.Trim(v'.base)) && v' == Protocol.After(v, Protocol.Trim(v'.base))
      ensures var v := Progress(node);
        entry == if v.pos < |v.log| then Some(v.log[v.pos]) else None
      ensures entry.Some? ==> FilesOf(state, node) != []
      ensures forall n | n != node :: Progress(n) == old(Progress(n))
    {
      while FilesOf(state, node) != []
        invariant Valid()
        invariant var v, v' := old(Progress(node)), Progress(node);
          Protocol.Enabled(maxPerFile, v, Protocol.Trim(v'.base)) && v' == Protocol.After(v, Protocol.Trim(v'.base))
        invariant forall n | n != node :: Progress(n) == old(Progress(n))
        decreases |FilesOf(state, node)|
      {
        var files := FilesOf(state, node);
        if files[0].consumed < |Content(disk, files[0].file)| {
          break;
        }
        Drop(node);
      }
      NextEntry(Whole(), node);
      var files := FilesOf(state, node);
      if files == [] {
        return None;
      }
      return Some(Content(disk, files[0].file)[files[0].consumed]);
    }

    method Drop(node: Node)
      requires Valid() && Spent(Whole(), node)
      modifies this
      ensures Valid() && Whole() == AfterDrop(old(Whole()), node)
      ensures var trim := Protocol.Trim(Progress(node).base);
        Protocol.Enabled(maxPerFile, old(Progress(node)), trim) && OneStep(old(Whole()), Whole(), node, trim)
    {
      ghost var before := Whole();
      DropWholeOk(before, node);
      DropViews(before, node);
      var files := FilesOf(state, node);
      traces := traces[node := Dropped(disk, files, TraceOf(traces, node))];
      disk, state := disk - {files[0].file}, state[node := files[1..]];
      assert Whole() == AfterDrop(before, node);
    }

    /** The worker answered: the prepared entry counts as delivered. */
    method Acknowledge(node: Node)
      requires Valid() && FilesOf(state, node) != [] && !Spent(Whole(), node)
      modifies this
      ensures Whole() == AfterDelivery(old(Whole()), node) && Valid()
      ensures OneStep(old(Whole()), Whole(), node, Protocol.Deliver)
    {
      ghost var before := Whole();
      var files := FilesOf(state, node);
      traces := traces[node := Counted(files, TraceOf(traces, node))];
      state := state[node := Advanced(files)];
      assert Whole() == AfterDelivery(before, node);
      DeliveryOk(before, node);
      DeliveryViews(before, node);
    }

    /** The worker carried out the prepared entry, but no answer below 500 came back: it will be tried again. */
    ghost method LoseAnswer(node: Node)
      requires Valid() && FilesOf(state, node) != [] && !Spent(Whole(), node)
      modifies this`traces
      ensures Whole() == AfterAttempt(old(Whole()), node) && Valid()
      ensures OneStep(old(Whole()), Whole(), node, Protocol.Attempt)
    {
      ghost var before := Whole();
      traces := traces[node := Unanswered(FilesOf(state, node), TraceOf(traces, node))];
      assert Whole() == AfterAttempt(before, node);
      AttemptKeepsConsistent(before, node);
      AttemptViews(before, node);
    }

    /** One turn of the consumer for one worker: prepare, deliver, and count the entry only if it was answered. */
    method DeliverOnce(node: Node, answer: Answer) returns (entry: Option<Entry>)
      requires Valid()
      modifies this
      ensures Valid()
      ensures Protocol.Enabled(maxPerFile, old(Progress(node)), Protocol.Trim(Progress(node).base))
      ensures var v := Protocol.After(old(Progress(node)), Protocol.Trim(Progress(node).base));
        && entry == (if v.pos < |v.log| then Some(v.log[v.pos]) else None)
        && Progress(node) == (if entry.None? || answer == Unreached then v
                              else Protocol.After(v, if answer == Answered then Protocol.Deliver else Protocol.Attempt))
      ensures forall n | n != node :: Progress(n) == old(Progress(n))
    {
      entry := PrepareNext(node);
      if entry.Some? {
        if answer == Answered {
          Acknowledge(node);
        } else if answer == Lost {
          LoseAnswer(node);
        }
      }
    }

    /** Restart: the in-memory lists are gone and are rebuilt by scanning the directory. */
    method Restart()
      requires Valid()
      modifies this
      ensures Whole() == AfterRestart(old(Whole())) && Valid()
    {
      ghost var before := Whole();
      TargetsOfFiles(before);
      var groups, kept := ScanDirectory(disk);
      state := BuildLists(groups, kept);
      disk, traces := kept, AfterRestart(before).traces;
      assert Whole() == AfterRestart(before) by { ScanRebuilds(before, groups, kept); }
      RestartOk(before);
    }

    method BuildLists(groups: map<Node, seq<QueueFile>>, kept: Disk) returns (rebuilt: QueueState)
      ensures rebuilt == Rebuilt(kept, groups)
    {
      rebuilt := map[];
      var nodes := groups.Keys;
      while nodes != {}
        invariant nodes <= groups.Keys && rebuilt.Keys == groups.Keys - nodes
        invariant forall n | n in rebuilt :: rebuilt[n] == Records(kept, SortByStamp(groups[n]))
        decreases nodes
      {
        var n :| n in nodes;
        rebuilt := rebuilt[n := Records(kept, SortByStamp(groups[n]))];
        nodes := nodes - {n};
      }
    }

    /** Group the leftover files by target, dropping the empty ones. */
    static method ScanDirectory(disk: Disk) returns (groups: map<Node, seq<QueueFile>>, kept: Disk)
      requires TargetsMatch(disk)
      ensures Grouped(groups, disk, {}) && kept == Kept(disk, {})
    {
      groups, kept := map[], disk;
      var pending := disk.Keys;
      while pending != {}
        invariant pending <= disk.Keys && Grouped(groups, disk, pending)
        invariant kept == Kept(disk, pending)
        decreases pending
      {
        var f :| f in pending;
        GroupMore(groups, disk, pending, f);
        KeptMore(disk, pending, f);
        groups := Classified(groups, disk, f);
        kept := if disk[f] != [] then kept else kept - {f};
        pending := pending - {f};
      }
    }
  }
}
