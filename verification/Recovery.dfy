/** Recovery of a graph from its redo log.
  *
  * Every change of a record emits one log entry. A soft delete is logged like a hard one, so replay
  * removes records that the running graph keeps as deleted; what must agree is the live view.
  * Vertices and edges are two tables of the same kind; deleting a vertex first deletes its edges.
  */
module Recovery {
  import opened GraphModel
  import opened Numbers
  import opened Options
  import opened Sequences

  datatype EdgeBody = EdgeBody(data: EdgeData, source: nat, target: nat)
  {
    predicate Meets(v: nat) {
      source == v || target == v
    }
  }

  // ── One table ─────────────────────────────────────────────────────────────

  datatype Record<D> = Record(data: D, rank: nat, deleted: bool)

  datatype Table<D> = Table(records: map<nat, Record<D>>, next: nat)
  {
    /** The record of a live entity. */
    function Live(id: nat): Option<Record<D>> {
      if id in records && !records[id].deleted then Some(records[id]) else None
    }

    /** The next id to be given out exceeds every id in use. */
    ghost predicate NextIsFresh() {
      forall id | id in records :: id < next
    }
  }

  /** One change of one record, as a running graph makes it. */
  datatype Act<D> =
    | Create(id: nat, data: D)
    | Update(id: nat, data: D)
    | SetRank(id: nat, rank: nat)
    | SoftDelete(id: nat)
    | HardDelete(id: nat)
  {
    predicate IsDelete() {
      SoftDelete? || HardDelete?
    }
  }

  /** Its log entry. */
  datatype Entry<D> =
    | Created(id: nat, data: D)
    | Updated(id: nat, data: D)
    | MetaUpdated(id: nat, rank: nat)
    | Deleted(id: nat)

  function EntryOf<D>(act: Act<D>): Entry<D> {
    match act
    case Create(id, data) => Created(id, data)
    case Update(id, data) => Updated(id, data)
    case SetRank(id, rank) => MetaUpdated(id, rank)
    case SoftDelete(id) => Deleted(id)
    case HardDelete(id) => Deleted(id)
  }

  function Do<D>(t: Table<D>, act: Act<D>): Table<D>
    requires act.Create? || act.id in t.records
  {
    match act
    case Create(id, data) => Table(t.records[id := Record(data, 1, false)], Max(t.next, id + 1))
    case Update(id, data) => t.(records := t.records[id := Record(data, Bump(t.records[id].rank), false)])
    case SetRank(id, rank) => t.(records := t.records[id := t.records[id].(rank := rank)])
    case SoftDelete(id) => t.(records := t.records[id := t.records[id].(deleted := true)])
    case HardDelete(id) => t.(records := t.records - {id})
  }

  /** Replay of an entry; an update of a record that is not there is an error. */
  function Redo<D>(t: Table<D>, entry: Entry<D>): Option<Table<D>> {
    match entry
    case Created(id, data) => Some(Table(t.records[id := Record(data, 1, false)], id + 1))
    case Updated(id, data) =>
      if id !in t.records then None
      else Some(Table(t.records[id := Record(data, Bump(t.records[id].rank), false)], Max(t.next, id + 1)))
    case MetaUpdated(id, rank) =>
      if id !in t.records then Some(t) else Some(t.(records := t.records[id := t.records[id].(rank := rank)]))
    case Deleted(id) => Some(t.(records := t.records - {id}))
  }

  /** The ids whose delete is in the log and that were not created again since. */
  function GoneAfter<D>(gone: set<nat>, act: Act<D>): set<nat> {
    if act.Create? then gone - {act.id} else if act.IsDelete() then gone + {act.id} else gone
  }

  /** The replayed table holds the running table's records, except that gone ones are missing. */
  ghost predicate Tracks<D>(running: Table<D>, replayed: Table<D>, gone: set<nat>) {
    && (forall id | id in replayed.records ::
          id in running.records && id !in gone && replayed.records[id] == running.records[id])
    && (forall id | id in running.records :: id in replayed.records || (id in gone && running.records[id].deleted))
  }

  lemma SameLiveView<D>(running: Table<D>, replayed: Table<D>, gone: set<nat>)
    requires Tracks(running, replayed, gone)
    ensures forall id :: running.Live(id) == replayed.Live(id)
  {
    forall id ensures running.Live(id) == replayed.Live(id) {
      assert id in replayed.records ==> replayed.records[id] == running.records[id];
    }
  }

  /** Replaying one entry keeps the tables in step; it fails exactly on an update of a gone record. */
  lemma RedoTracks<D>(running: Table<D>, replayed: Table<D>, gone: set<nat>, act: Act<D>)
    requires Tracks(running, replayed, gone)
    requires act.Create? || act.id in running.records
    ensures Redo(replayed, EntryOf(act)).None? <==> act.Update? && act.id in gone
    ensures Redo(replayed, EntryOf(act)).Some? ==>
              Tracks(Do(running, act), Redo(replayed, EntryOf(act)).value, GoneAfter(gone, act))
  {
    if act.Update? {
      assert act.id in replayed.records <==> act.id !in gone;
    }
  }

  /** How far a replayed log takes the next id: to the last created id, or to a greater one updated after that. */
  function ReachAfter<D>(reach: Option<nat>, act: Act<D>): Option<nat> {
    match act
    case Create(id, _) => Some(id)
    case Update(id, _) => if reach.Some? then Some(Max(reach.value, id)) else None
    case _ => reach
  }

  ghost predicate Reaches<D>(replayed: Table<D>, reach: Option<nat>) {
    if reach.Some? then replayed.next == reach.value + 1 else replayed.NextIsFresh()
  }

  lemma RedoReaches<D>(replayed: Table<D>, reach: Option<nat>, act: Act<D>)
    requires Reaches(replayed, reach) && Redo(replayed, EntryOf(act)).Some?
    ensures Reaches(Redo(replayed, EntryOf(act)).value, ReachAfter(reach, act))
  {
  }

  /** The ids of the running table that the log leaves in place. */
  predicate Survives<D>(running: Table<D>, gone: set<nat>, id: nat) {
    id in running.records && id !in gone
  }

  /** Nothing was created, or no surviving id exceeds both the last created id and all ids updated after that create. */
  ghost predicate AllReached<D>(running: Table<D>, gone: set<nat>, reach: Option<nat>) {
    reach.Some? ==> forall id: nat | Survives(running, gone, id) :: id <= reach.value
  }

  lemma FreshIffReached<D>(running: Table<D>, replayed: Table<D>, gone: set<nat>, reach: Option<nat>)
    requires Tracks(running, replayed, gone) && Reaches(replayed, reach)
    ensures replayed.NextIsFresh() <==> AllReached(running, gone, reach)
  {
    forall id: nat ensures Survives(running, gone, id) <==> id in replayed.records {
    }
  }

  // ── The store ─────────────────────────────────────────────────────────────

  datatype Store = Store(vertices: Table<VertexData>, edges: Table<EdgeBody>)

  datatype StoreAct = OnVertex(v: Act<VertexData>) | OnEdge(e: Act<EdgeBody>)

  datatype StoreEntry = VertexEntry(v: Entry<VertexData>) | EdgeEntry(e: Entry<EdgeBody>)

  datatype Gone = Gone(vertices: set<nat>, edges: set<nat>)

  /** The adjacency index: the outgoing and the incoming edges of a vertex. */
  datatype EdgeIndex = EdgeIndex(outgoing: (Store, nat) -> seq<nat>, incoming: (Store, nat) -> seq<nat>)
  {
    /** The edges that a cascade deletes, in its order; a self-loop is listed twice. */
    function Listing(s: Store, v: nat): seq<nat> {
      outgoing(s, v) + incoming(s, v)
    }
  }

  /** Both lists are exact and free of repeats. */
  ghost predicate Faithful(index: EdgeIndex) {
    forall s, v :: Outgoing(s, v, index.outgoing(s, v)) && Incoming(s, v, index.incoming(s, v))
  }

  ghost predicate Outgoing(s: Store, v: nat, ids: seq<nat>) {
    NoRepeats(ids) && forall e :: e in ids <==> e in s.edges.records && s.edges.records[e].data.source == v
  }

  ghost predicate Incoming(s: Store, v: nat, ids: seq<nat>) {
    NoRepeats(ids) && forall e :: e in ids <==> e in s.edges.records && s.edges.records[e].data.target == v
  }

  lemma ListingIsExact(index: EdgeIndex, s: Store, v: nat)
    requires Faithful(index)
    ensures forall e :: e in index.Listing(s, v) <==> e in s.edges.records && s.edges.records[e].data.Meets(v)
  {
    assert Outgoing(s, v, index.outgoing(s, v)) && Incoming(s, v, index.incoming(s, v));
  }

  ghost predicate LoopAt(s: Store, v: nat) {
    exists e :: e in s.edges.records && s.edges.records[e].data.source == v == s.edges.records[e].data.target
  }

  lemma RepeatIsLoop(index: EdgeIndex, s: Store, v: nat, i: nat, j: nat)
    requires Faithful(index) && i < j < |index.Listing(s, v)| && index.Listing(s, v)[i] == index.Listing(s, v)[j]
    ensures LoopAt(s, v)
  {
    var out, inc := index.outgoing(s, v), index.incoming(s, v);
    assert Outgoing(s, v, out) && Incoming(s, v, inc);
    assert i < |out| && index.Listing(s, v)[i] == out[i];
    assert out[i] == inc[j - |out|];
    assert out[i] in out && out[i] in inc;
  }

  /** The listing repeats an edge exactly when the vertex has a self-loop. */
  lemma ListingRepeatsLoops(index: EdgeIndex, s: Store, v: nat)
    requires Faithful(index)
    ensures NoRepeats(index.Listing(s, v)) <==> !LoopAt(s, v)
  {
    var out, inc := index.outgoing(s, v), index.incoming(s, v);
    assert Outgoing(s, v, out) && Incoming(s, v, inc);
    if LoopAt(s, v) {
      var e :| e in s.edges.records && s.edges.records[e].data.source == v == s.edges.records[e].data.target;
      var i :| 0 <= i < |out| && out[i] == e;
      var j :| 0 <= j < |inc| && inc[j] == e;
      assert (out + inc)[i] == (out + inc)[|out| + j];
    }
    forall i, j | 0 <= i < j < |out + inc| && (out + inc)[i] == (out + inc)[j] ensures LoopAt(s, v) {
      RepeatIsLoop(index, s, v, i, j);
    }
  }

  /** When the running graph makes a change: a created id is not in use and any other is, and a vertex is deleted only after
    * its edges.
    */
  ghost predicate Possible(s: Store, gone: Gone, act: StoreAct) {
    match act
    case OnVertex(a) =>
      && (a.Create? <==> a.id !in s.vertices.records)
      && (a.IsDelete() ==> forall e | e in s.edges.records && s.edges.records[e].data.Meets(a.id) :: e in gone.edges)
    case OnEdge(a) =>
      a.Create? <==> a.id !in s.edges.records
  }

  function DoStore(s: Store, act: StoreAct): Store
    requires match act case OnVertex(a) => a.Create? || a.id in s.vertices.records
                       case OnEdge(a) => a.Create? || a.id in s.edges.records
  {
    match act
    case OnVertex(a) => s.(vertices := Do(s.vertices, a))
    case OnEdge(a) => s.(edges := Do(s.edges, a))
  }

  function StoreEntryOf(act: StoreAct): StoreEntry {
    match act
    case OnVertex(a) => VertexEntry(EntryOf(a))
    case OnEdge(a) => EdgeEntry(EntryOf(a))
  }

  function StoreGoneAfter(gone: Gone, act: StoreAct): Gone {
    match act
    case OnVertex(a) => gone.(vertices := GoneAfter(gone.vertices, a))
    case OnEdge(a) => gone.(edges := GoneAfter(gone.edges, a))
  }

  /** The update of a record whose delete is in the log. */
  predicate Late(gone: Gone, act: StoreAct) {
    match act
    case OnVertex(a) => a.Update? && a.id in gone.vertices
    case OnEdge(a) => a.Update? && a.id in gone.edges
  }

  /** Hard-delete listed edges one by one; an edge that is not there stops the loop. */
  function RemoveEdges(s: Store, ids: seq<nat>): (Store, bool)
    decreases |ids|
  {
    if ids == [] then (s, true)
    else if ids[0] !in s.edges.records then (s, false)
    else RemoveEdges(s.(edges := s.edges.(records := s.edges.records - {ids[0]})), ids[1..])
  }

  /** Replay of one entry, when these are the edges listed at a vertex to delete. A delete is a hard delete whose own failure
    * is ignored.
    */
  function RedoListed(s: Store, entry: StoreEntry, ids: seq<nat>): Option<Store> {
    match entry
    case EdgeEntry(e) =>
      var edges := Redo(s.edges, e);
      if edges == None then None else Some(s.(edges := edges.value))
    case VertexEntry(e) =>
      var (s', ok) := if e.Deleted? then RemoveEdges(s, ids) else (s, true);
      if !ok then Some(s')
      else
        var vertices := Redo(s'.vertices, e);
        if vertices == None then None else Some(s'.(vertices := vertices.value))
  }

  /** Replay of one entry on a graph whose index lists exactly its edges. It does as long as no create meets a record of its id. */
  function RedoStore(s: Store, entry: StoreEntry, index: EdgeIndex): Option<Store> {
    RedoListed(s, entry, if entry.VertexEntry? && entry.v.Deleted? then index.Listing(s, entry.v.id) else [])
  }

  ghost predicate StoreTracks(running: Store, replayed: Store, gone: Gone) {
    Tracks(running.vertices, replayed.vertices, gone.vertices) && Tracks(running.edges, replayed.edges, gone.edges)
  }

  lemma RedoStoreTracks(running: Store, replayed: Store, gone: Gone, act: StoreAct, index: EdgeIndex)
    requires StoreTracks(running, replayed, gone) && Possible(running, gone, act) && Faithful(index)
    ensures act.OnEdge? && act.e.Create? ==> act.e.id !in replayed.edges.records
    ensures RedoStore(replayed, StoreEntryOf(act), index).None? <==> Late(gone, act)
    ensures RedoStore(replayed, StoreEntryOf(act), index).Some? ==>
              StoreTracks(DoStore(running, act), RedoStore(replayed, StoreEntryOf(act), index).value,
                          StoreGoneAfter(gone, act))
  {
    match act
    case OnEdge(a) =>
      RedoTracks(running.edges, replayed.edges, gone.edges, a);
    case OnVertex(a) =>
      RedoTracks(running.vertices, replayed.vertices, gone.vertices, a);
      if a.IsDelete() {
        NothingLeftToCascade(running, replayed, gone, a.id, index);
      }
  }

  lemma NothingLeftToCascade(running: Store, replayed: Store, gone: Gone, v: nat, index: EdgeIndex)
    requires Tracks(running.edges, replayed.edges, gone.edges) && Faithful(index)
    requires forall e | e in running.edges.records && running.edges.records[e].data.Meets(v) :: e in gone.edges
    ensures index.Listing(replayed, v) == []
  {
    ListingIsExact(index, replayed, v);
    EmptyOrInhabited(index.Listing(replayed, v));
  }

  // ── Runs and their logs ───────────────────────────────────────────────────

  function Run(s: Store, acts: seq<StoreAct>): Store
    requires Defined(s, acts)
    decreases |acts|, 1
  {
    if acts == [] then s else DoStore(Run(s, acts[..|acts| - 1]), acts[|acts| - 1])
  }

  /** Every change is of a record that exists. */
  predicate Defined(s: Store, acts: seq<StoreAct>)
    decreases |acts|, 0
  {
    acts == [] || (
      && Defined(s, acts[..|acts| - 1])
      && match acts[|acts| - 1]
         case OnVertex(a) => a.Create? || a.id in Run(s, acts[..|acts| - 1]).vertices.records
         case OnEdge(a) => a.Create? || a.id in Run(s, acts[..|acts| - 1]).edges.records)
  }

  function GoneIn(acts: seq<StoreAct>): Gone {
    if acts == [] then Gone({}, {}) else StoreGoneAfter(GoneIn(acts[..|acts| - 1]), acts[|acts| - 1])
  }

  ghost predicate Legal(s: Store, acts: seq<StoreAct>)
    ensures Legal(s, acts) ==> Defined(s, acts)
  {
    acts == [] || (
      && Legal(s, acts[..|acts| - 1])
      && Possible(Run(s, acts[..|acts| - 1]), GoneIn(acts[..|acts| - 1]), acts[|acts| - 1]))
  }

  function LogOf(acts: seq<StoreAct>): (log: seq<StoreEntry>)
    ensures |log| == |acts|
  {
    if acts == [] then [] else LogOf(acts[..|acts| - 1]) + [StoreEntryOf(acts[|acts| - 1])]
  }

  /** Some update is of a record whose delete was logged before it. */
  predicate HasLate(acts: seq<StoreAct>) {
    acts != [] && (HasLate(acts[..|acts| - 1]) || Late(GoneIn(acts[..|acts| - 1]), acts[|acts| - 1]))
  }

  function Replay(s: Store, log: seq<StoreEntry>, index: EdgeIndex): Option<Store> {
    if log == [] then Some(s)
    else
      var before := Replay(s, log[..|log| - 1], index);
      if before == None then None else RedoStore(before.value, log[|log| - 1], index)
  }

  lemma Extends(s: Store, acts: seq<StoreAct>, act: StoreAct)
    requires Legal(s, acts) && Possible(Run(s, acts), GoneIn(acts), act)
    ensures Legal(s, acts + [act]) && Run(s, acts + [act]) == DoStore(Run(s, acts), act)
    ensures LogOf(acts + [act]) == LogOf(acts) + [StoreEntryOf(act)]
    ensures GoneIn(acts + [act]) == StoreGoneAfter(GoneIn(acts), act)
  {
    assert (acts + [act])[..|acts + [act]| - 1] == acts;
  }

  /** The graph opened on a snapshot has its records; ids go on from the greatest in use. */
  ghost predicate OpenedFrom(snapshot: Store, opened_: Store) {
    snapshot.vertices.records == opened_.vertices.records && snapshot.edges.records == opened_.edges.records
  }

  lemma {:induction false} ReplayTracks(snapshot: Store, opened_: Store, acts: seq<StoreAct>, index: EdgeIndex)
    requires OpenedFrom(snapshot, opened_) && Legal(snapshot, acts) && Faithful(index)
    ensures Replay(opened_, LogOf(acts), index).None? <==> HasLate(acts)
    ensures !HasLate(acts) ==>
              StoreTracks(Run(snapshot, acts), Replay(opened_, LogOf(acts), index).value, GoneIn(acts))
  {
    if acts != [] {
      var before, act := acts[..|acts| - 1], acts[|acts| - 1];
      ReplayTracks(snapshot, opened_, before, index);
      assert LogOf(acts)[..|acts| - 1] == LogOf(before);
      if !HasLate(before) {
        RedoStoreTracks(Run(snapshot, before), Replay(opened_, LogOf(before), index).value, GoneIn(before), act, index);
      }
    }
  }

  /** Main result: replaying the log of any run from the snapshot at its start rebuilds the same live
    * records, ranks included; start-up fails exactly when the run updated a record after its logged delete.
    */
  lemma RecoveryRebuildsLiveView(snapshot: Store, opened_: Store, acts: seq<StoreAct>, index: EdgeIndex)
    requires OpenedFrom(snapshot, opened_) && Legal(snapshot, acts) && Faithful(index)
    ensures Replay(opened_, LogOf(acts), index).None? <==> HasLate(acts)
    ensures !HasLate(acts) ==>
              var recovered := Replay(opened_, LogOf(acts), index).value;
              && (forall v :: recovered.vertices.Live(v) == Run(snapshot, acts).vertices.Live(v))
              && (forall e :: recovered.edges.Live(e) == Run(snapshot, acts).edges.Live(e))
  {
    ReplayTracks(snapshot, opened_, acts, index);
    if !HasLate(acts) {
      var recovered := Replay(opened_, LogOf(acts), index).value;
      SameLiveView(Run(snapshot, acts).vertices, recovered.vertices, GoneIn(acts).vertices);
      SameLiveView(Run(snapshot, acts).edges, recovered.edges, GoneIn(acts).edges);
    }
  }

  // ── Ids after recovery ────────────────────────────────────────────────────

  datatype Reach = Reach(vertices: Option<nat>, edges: Option<nat>)

  function StoreReachAfter(reach: Reach, act: StoreAct): Reach {
    match act
    case OnVertex(a) => reach.(vertices := ReachAfter(reach.vertices, a))
    case OnEdge(a) => reach.(edges := ReachAfter(reach.edges, a))
  }

  function ReachOf(acts: seq<StoreAct>): Reach {
    if acts == [] then Reach(None, None) else StoreReachAfter(ReachOf(acts[..|acts| - 1]), acts[|acts| - 1])
  }

  ghost predicate StoreReaches(replayed: Store, reach: Reach) {
    Reaches(replayed.vertices, reach.vertices) && Reaches(replayed.edges, reach.edges)
  }

  lemma ReachStep(running: Store, replayed: Store, gone: Gone, reach: Reach, act: StoreAct, index: EdgeIndex)
    requires StoreTracks(running, replayed, gone) && Possible(running, gone, act) && Faithful(index)
    requires StoreReaches(replayed, reach) && RedoStore(replayed, StoreEntryOf(act), index).Some?
    ensures StoreReaches(RedoStore(replayed, StoreEntryOf(act), index).value, StoreReachAfter(reach, act))
  {
    match act
    case OnEdge(a) =>
      RedoReaches(replayed.edges, reach.edges, a);
    case OnVertex(a) =>
      if a.IsDelete() {
        NothingLeftToCascade(running, replayed, gone, a.id, index);
      }
      RedoReaches(replayed.vertices, reach.vertices, a);
  }

  lemma {:induction false} ReplayReaches(snapshot: Store, opened_: Store, acts: seq<StoreAct>, index: EdgeIndex)
    requires OpenedFrom(snapshot, opened_) && Legal(snapshot, acts) && Faithful(index) && !HasLate(acts)
    requires opened_.vertices.NextIsFresh() && opened_.edges.NextIsFresh()
    ensures Replay(opened_, LogOf(acts), index).Some?
    ensures StoreReaches(Replay(opened_, LogOf(acts), index).value, ReachOf(acts))
  {
    ReplayTracks(snapshot, opened_, acts, index);
    if acts != [] {
      var before, act := acts[..|acts| - 1], acts[|acts| - 1];
      ReplayReaches(snapshot, opened_, before, index);
      ReplayTracks(snapshot, opened_, before, index);
      assert LogOf(acts)[..|acts| - 1] == LogOf(before);
      ReachStep(Run(snapshot, before), Replay(opened_, LogOf(before), index).value, GoneIn(before), ReachOf(before), act, index);
    }
  }

  /** For every run: after recovery the next id exceeds every id in use iff the run created nothing, or no id that the log
    * leaves in place exceeds both the last created id and every id updated after that create.
    */
  lemma RecoveredIdsAreFreshIff(snapshot: Store, opened_: Store, acts: seq<StoreAct>, index: EdgeIndex)
    requires OpenedFrom(snapshot, opened_) && Legal(snapshot, acts) && Faithful(index) && !HasLate(acts)
    requires opened_.vertices.NextIsFresh() && opened_.edges.NextIsFresh()
    ensures Replay(opened_, LogOf(acts), index).Some?
    ensures var recovered, running := Replay(opened_, LogOf(acts), index).value, Run(snapshot, acts);
            var reach, gone := ReachOf(acts), GoneIn(acts);
      && (recovered.vertices.NextIsFresh() <==> AllReached(running.vertices, gone.vertices, reach.vertices))
      && (recovered.edges.NextIsFresh() <==> AllReached(running.edges, gone.edges, reach.edges))
  {
    ReplayReaches(snapshot, opened_, acts, index);
    ReplayTracks(snapshot, opened_, acts, index);
    var recovered, running := Replay(opened_, LogOf(acts), index).value, Run(snapshot, acts);
    FreshIffReached(running.vertices, recovered.vertices, GoneIn(acts).vertices, ReachOf(acts).vertices);
    FreshIffReached(running.edges, recovered.edges, GoneIn(acts).edges, ReachOf(acts).edges);
  }

  /** Every create takes an id at or past the next one, as the running graph's own allocator does. */
  predicate InOrder(s: Store, acts: seq<StoreAct>)
    requires Defined(s, acts)
  {
    acts == [] || (
      var before := acts[..|acts| - 1];
      && InOrder(s, before)
      && match acts[|acts| - 1]
         case OnVertex(a) => a.Create? ==> a.id >= Run(s, before).vertices.next
         case OnEdge(a) => a.Create? ==> a.id >= Run(s, before).edges.next)
  }

  lemma RedoKeepsFresh<D>(running: Table<D>, replayed: Table<D>, gone: set<nat>, act: Act<D>)
    requires Tracks(running, replayed, gone) && running.NextIsFresh() && replayed.NextIsFresh()
    requires act.Create? || act.id in running.records
    requires act.Create? ==> act.id >= running.next
    ensures Do(running, act).NextIsFresh()
    ensures Redo(replayed, EntryOf(act)).Some? ==> Redo(replayed, EntryOf(act)).value.NextIsFresh()
  {
  }

  /** When ids are created in order, the next id after recovery exceeds every id in use. */
  lemma {:induction false} RecoveredIdsAreFresh(snapshot: Store, opened_: Store, acts: seq<StoreAct>, index: EdgeIndex)
    requires OpenedFrom(snapshot, opened_) && Legal(snapshot, acts) && Faithful(index)
    requires snapshot.vertices.NextIsFresh() && snapshot.edges.NextIsFresh()
    requires opened_.vertices.NextIsFresh() && opened_.edges.NextIsFresh()
    requires InOrder(snapshot, acts) && !HasLate(acts)
    ensures Run(snapshot, acts).vertices.NextIsFresh() && Run(snapshot, acts).edges.NextIsFresh()
    ensures Replay(opened_, LogOf(acts), index).Some?
    ensures var recovered := Replay(opened_, LogOf(acts), index).value;
            recovered.vertices.NextIsFresh() && recovered.edges.NextIsFresh()
  {
    if acts != [] {
      var before, act := acts[..|acts| - 1], acts[|acts| - 1];
      RecoveredIdsAreFresh(snapshot, opened_, before, index);
      ReplayTracks(snapshot, opened_, before, index);
      ReplayTracks(snapshot, opened_, acts, index);
      assert LogOf(acts)[..|acts| - 1] == LogOf(before);
      var running, replayed := Run(snapshot, before), Replay(opened_, LogOf(before), index).value;
      FreshStep(running, replayed, GoneIn(before), act, index);
    }
  }

  lemma FreshStep(running: Store, replayed: Store, gone: Gone, act: StoreAct, index: EdgeIndex)
    requires StoreTracks(running, replayed, gone) && Possible(running, gone, act) && Faithful(index)
    requires running.vertices.NextIsFresh() && running.edges.NextIsFresh()
    requires replayed.vertices.NextIsFresh() && replayed.edges.NextIsFresh()
    requires match act case OnVertex(a) => a.Create? ==> a.id >= running.vertices.next
                       case OnEdge(a) => a.Create? ==> a.id >= running.edges.next
    requires RedoStore(replayed, StoreEntryOf(act), index).Some?
    ensures DoStore(running, act).vertices.NextIsFresh() && DoStore(running, act).edges.NextIsFresh()
    ensures var redone := RedoStore(replayed, StoreEntryOf(act), index).value;
            redone.vertices.NextIsFresh() && redone.edges.NextIsFresh()
  {
    match act
    case OnEdge(a) =>
      RedoKeepsFresh(running.edges, replayed.edges, gone.edges, a);
    case OnVertex(a) =>
      RedoKeepsFresh(running.vertices, replayed.vertices, gone.vertices, a);
      if a.IsDelete() {
        NothingLeftToCascade(running, replayed, gone, a.id, index);
      }
  }

  /** Creates that arrive out of order, as `CreateVertexWithId` allows, leave a recovered allocator that
    * gives out an id in use.
    */
  lemma OutOfOrderCreatesReuseAnId(empty: Store, a: VertexData, b: VertexData, acts: seq<StoreAct>, index: EdgeIndex)
    requires empty == Store(Table(map[], 1), Table(map[], 1))
    requires acts == [OnVertex(Create(2, a)), OnVertex(Create(1, b))]
    ensures Legal(empty, acts) && Run(empty, acts).vertices.next == 3
    ensures Replay(empty, LogOf(acts), index).Some?
    ensures var recovered := Replay(empty, LogOf(acts), index).value;
            recovered.vertices.next == 2 && recovered.vertices.Live(2) == Some(Record(a, 1, false))
  {
    Extends(empty, [], acts[0]);
    Extends(empty, [acts[0]], acts[1]);
    assert [] + [acts[0]] == [acts[0]] && [acts[0]] + [acts[1]] == acts;
    ReplayOfTwo(empty, VertexEntry(Created(2, a)), VertexEntry(Created(1, b)), index);
  }

  lemma ReplayOfTwo(s: Store, first: StoreEntry, second: StoreEntry, index: EdgeIndex)
    ensures Replay(s, [first, second], index)
            == if RedoStore(s, first, index).None? then None else RedoStore(RedoStore(s, first, index).value, second, index)
  {
    assert [first, second][..1] == [first] && [first][..0] == [];
    assert Replay(s, [], index) == Some(s);
    assert Replay(s, [first], index) == RedoStore(s, first, index);
  }
}
