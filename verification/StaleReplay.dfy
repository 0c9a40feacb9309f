/** Replay on a data file that is ahead of its log.
  *
  * A start replays entries on a store that may show their changes already. An edge create that meets the edge's own record
  * writes a second one; the first record's adjacency entries stay listed to the end of the start, under the same edge id. A
  * vertex delete cascades over them too, and ends half way at an edge that is not there.
  */
module StaleReplay {
  import opened GraphModel
  import opened Numbers
  import opened Options
  import opened Recovery
  import opened Sequences

  // ── The graph during a start ──────────────────────────────────────────────

  /** `stale` holds what was left listed: by edge id, the body of the record behind the current one. */
  datatype Image = Image(store: Store, stale: map<nat, EdgeBody>)

  /** How often a record is listed at a vertex: once as its source and once as its target. */
  function Stands(body: EdgeBody, v: nat): nat {
    (if body.source == v then 1 else 0) + (if body.target == v then 1 else 0)
  }

  function Times(edges: map<nat, Record<EdgeBody>>, stale: map<nat, EdgeBody>, v: nat, e: nat): nat {
    (if e in edges then Stands(edges[e].data, v) else 0) + (if e in stale then Stands(stale[e], v) else 0)
  }

  /** The adjacency lists of a vertex, in any order. */
  ghost predicate Lists(edges: map<nat, Record<EdgeBody>>, stale: map<nat, EdgeBody>, v: nat, ids: seq<nat>) {
    forall e: nat :: multiset(ids)[e] == Times(edges, stale, v, e)
  }

  function StaleAfter(image: Image, entry: StoreEntry): map<nat, EdgeBody> {
    if entry.EdgeEntry? && entry.e.Created? && entry.e.id in image.store.edges.records then
      image.stale[entry.e.id := image.store.edges.records[entry.e.id].data]
    else
      image.stale
  }

  function RedoImage(image: Image, entry: StoreEntry, ids: seq<nat>): Option<Image> {
    var s := RedoListed(image.store, entry, ids);
    if s == None then None else Some(Image(s.value, StaleAfter(image, entry)))
  }

  function ReplayImage(image: Image, log: seq<StoreEntry>, ids: seq<seq<nat>>): Option<Image>
    requires |ids| == |log|
  {
    if log == [] then Some(image)
    else
      var before := ReplayImage(image, log[..|log| - 1], ids[..|log| - 1]);
      if before == None then None else RedoImage(before.value, log[|log| - 1], ids[|log| - 1])
  }

  /** At every vertex delete the listing is what the adjacency index then holds. */
  ghost predicate Listed(image: Image, log: seq<StoreEntry>, ids: seq<seq<nat>>)
    requires |ids| == |log|
  {
    log == [] || (
      var before := ReplayImage(image, log[..|log| - 1], ids[..|log| - 1]);
      && Listed(image, log[..|log| - 1], ids[..|log| - 1])
      && (before.Some? && log[|log| - 1].VertexEntry? && log[|log| - 1].v.Deleted? ==>
            Lists(before.value.store.edges.records, before.value.stale, log[|log| - 1].v.id, ids[|log| - 1])))
  }

  // ── One table ─────────────────────────────────────────────────────────────

  function BumpBy(rank: nat, n: nat): nat {
    if n == 0 then rank else Bump(BumpBy(rank, n - 1))
  }

  lemma {:induction false} BumpFirst(rank: nat, n: nat)
    ensures BumpBy(Bump(rank), n) == Bump(BumpBy(rank, n))
  {
    if n > 0 {
      BumpFirst(rank, n - 1);
    }
  }

  function By(leads: map<nat, nat>, id: nat): nat {
    if id in leads then leads[id] else 0
  }

  /** A record whose rank was raised too often. */
  function Ahead<D>(r: Record<D>, n: nat): Record<D> {
    r.(rank := BumpBy(r.rank, n))
  }

  /** How a replayed table differs from the running one: it lacks the lost ids; it keeps ids whose delete was not carried out,
    * shown as live or not; and it is ahead in some ranks.
    */
  datatype Marks = Marks(lost: set<nat>, kept: map<nat, bool>, leads: map<nat, nat>)
  {
    predicate Holds<D>(running: Table<D>, id: nat) {
      (id in running.records && id !in lost) || id in kept
    }
  }

  const NO_MARKS := Marks({}, map[], map[])

  ghost predicate FollowsAt<D>(running: Table<D>, replayed: Table<D>, m: Marks, id: nat) {
    && (id in replayed.records <==> m.Holds(running, id))
    && (id in replayed.records && id !in m.kept ==>
          replayed.records[id] == Ahead(running.records[id], By(m.leads, id)))
    && (id in m.kept ==> id !in m.lost && replayed.records[id].deleted == !m.kept[id])
    && (id in m.kept && id in running.records ==>
          running.records[id].deleted
          && replayed.records[id].(deleted := true) == Ahead(running.records[id], By(m.leads, id)))
  }

  ghost predicate Follows<D>(running: Table<D>, replayed: Table<D>, m: Marks) {
    forall id: nat :: FollowsAt(running, replayed, m, id)
  }

  /** An update raises both ranks and brings both records up; whatever sets the rank, creates or deletes ends a lead. */
  function MarksAfter<D>(m: Marks, act: Act<D>): Marks {
    match act
    case Create(id, _) => Marks(m.lost - {id}, m.kept - {id}, m.leads - {id})
    case Update(id, _) => m.(kept := m.kept - {id})
    case SetRank(id, _) => m.(leads := m.leads - {id})
    case _ => Marks(m.lost + {act.id}, m.kept - {act.id}, m.leads - {act.id})
  }

  /** A delete that the replay does not carry out. */
  function MarksKept<D>(running: Table<D>, m: Marks, id: nat): Marks {
    if !m.Holds(running, id) then m
    else m.(kept := m.kept[id := if id in m.kept then m.kept[id] else !running.records[id].deleted])
  }

  lemma RedoFollowsAt<D>(running: Table<D>, replayed: Table<D>, m: Marks, act: Act<D>, id: nat)
    requires FollowsAt(running, replayed, m, id) && FollowsAt(running, replayed, m, act.id)
    requires act.Create? || act.id in running.records
    requires Redo(replayed, EntryOf(act)).Some?
    ensures FollowsAt(Do(running, act), Redo(replayed, EntryOf(act)).value, MarksAfter(m, act), id)
  {
    if act.Update? {
      BumpFirst(running.records[act.id].rank, By(m.leads, act.id));
    }
  }

  lemma RedoFollows<D>(running: Table<D>, replayed: Table<D>, m: Marks, act: Act<D>)
    requires Follows(running, replayed, m) && (act.Create? || act.id in running.records)
    ensures Redo(replayed, EntryOf(act)).None? <==> act.Update? && act.id in m.lost
    ensures Redo(replayed, EntryOf(act)).Some? ==>
              Follows(Do(running, act), Redo(replayed, EntryOf(act)).value, MarksAfter(m, act))
  {
    assert FollowsAt(running, replayed, m, act.id);
    if Redo(replayed, EntryOf(act)).Some? {
      forall id: nat ensures FollowsAt(Do(running, act), Redo(replayed, EntryOf(act)).value, MarksAfter(m, act), id) {
        assert FollowsAt(running, replayed, m, id);
        RedoFollowsAt(running, replayed, m, act, id);
      }
    }
  }

  lemma KeptFollows<D>(running: Table<D>, replayed: Table<D>, m: Marks, act: Act<D>)
    requires Follows(running, replayed, m) && act.IsDelete() && act.id in running.records
    ensures Follows(Do(running, act), replayed, MarksKept(running, m, act.id))
  {
    assert FollowsAt(running, replayed, m, act.id);
    forall id: nat ensures FollowsAt(Do(running, act), replayed, MarksKept(running, m, act.id), id) {
      assert FollowsAt(running, replayed, m, id);
    }
  }

  lemma RemovedFollows<D>(running: Table<D>, replayed: Table<D>, replayed': Table<D>, m: Marks, ids: set<nat>)
    requires Follows(running, replayed, m) && m.kept == map[]
    requires replayed'.records == replayed.records - ids
    ensures Follows(running, replayed', m.(lost := m.lost + ids))
  {
    forall id: nat ensures FollowsAt(running, replayed', m.(lost := m.lost + ids), id) {
      assert FollowsAt(running, replayed, m, id);
    }
  }

  /** What a start shows of an entity, compared with the running graph. */
  lemma FollowsLive<D>(running: Table<D>, replayed: Table<D>, m: Marks, id: nat)
    requires Follows(running, replayed, m)
    ensures id !in m.kept && id !in m.lost ==>
              replayed.Live(id) == if running.Live(id).Some? then Some(Ahead(running.Live(id).value, By(m.leads, id))) else None
    ensures id in m.kept ==> running.Live(id).None? && (replayed.Live(id).Some? <==> m.kept[id])
    ensures id in m.lost ==> replayed.Live(id).None?
  {
    assert FollowsAt(running, replayed, m, id);
  }

  // ── The store ─────────────────────────────────────────────────────────────

  /** What the running graph does: a created id is not in use and any other is, an edge keeps its ends, and a vertex is
    * deleted when all its edges are.
    */
  ghost predicate Doable(s: Store, act: StoreAct) {
    match act
    case OnVertex(a) =>
      && (a.Create? <==> a.id !in s.vertices.records)
      && (a.IsDelete() ==> forall e | e in s.edges.records && s.edges.records[e].data.Meets(a.id) :: s.edges.records[e].deleted)
    case OnEdge(a) =>
      && (a.Create? <==> a.id !in s.edges.records)
      && (a.Update? ==> a.data.source == s.edges.records[a.id].data.source && a.data.target == s.edges.records[a.id].data.target)
  }

  datatype StoreMarks = StoreMarks(vertices: Marks, edges: Marks, stale: map<nat, EdgeBody>)
  {
    function Lost(): Gone {
      Gone(vertices.lost, edges.lost)
    }
  }

  /** Lost vertices are deleted ones; an edge may be lost while it is live. */
  ghost predicate StoreFollows(running: Store, image: Image, m: StoreMarks) {
    && Follows(running.vertices, image.store.vertices, m.vertices)
    && Follows(running.edges, image.store.edges, m.edges)
    && m.edges.kept == map[] && image.stale == m.stale
    && (forall v | v in running.vertices.records && v in m.vertices.lost :: running.vertices.records[v].deleted)
  }

  /** How many listed edges a cascade deletes: it ends at the first that is not there, or not there any more. */
  function CascadeReach(present: set<nat>, ids: seq<nat>): (k: nat)
    ensures k <= |ids|
    decreases |ids|
  {
    if ids == [] || ids[0] !in present then 0 else 1 + CascadeReach(present - {ids[0]}, ids[1..])
  }

  function Elements(ids: seq<nat>): set<nat> {
    set e | e in ids
  }

  lemma {:induction false} RemovesReach(s: Store, ids: seq<nat>)
    ensures var (s', ok) := RemoveEdges(s, ids);
            var k := CascadeReach(s.edges.records.Keys, ids);
      && s'.vertices == s.vertices && s'.edges.next == s.edges.next
      && s'.edges.records == s.edges.records - Elements(ids[..k])
      && (ok <==> k == |ids|)
    decreases |ids|
  {
    if ids != [] && ids[0] in s.edges.records {
      var next := s.(edges := s.edges.(records := s.edges.records - {ids[0]}));
      assert next.edges.records.Keys == s.edges.records.Keys - {ids[0]};
      RemovesReach(next, ids[1..]);
      var k := CascadeReach(next.edges.records.Keys, ids[1..]);
      assert ids[..k + 1] == [ids[0]] + ids[1..][..k];
      assert Elements(ids[..k + 1]) == {ids[0]} + Elements(ids[1..][..k]);
    }
  }

  /** The cascade deletes the whole list iff every edge in it is there and listed once. */
  lemma {:induction false} ReachesAllIff(present: set<nat>, ids: seq<nat>)
    ensures CascadeReach(present, ids) == |ids| <==> NoRepeats(ids) && forall e | e in ids :: e in present
    decreases |ids|
  {
    if ids != [] {
      assert ids == [ids[0]] + ids[1..];
      NoRepeatsCons(ids[0], ids[1..]);
      if ids[0] in present {
        ReachesAllIff(present - {ids[0]}, ids[1..]);
      }
    }
  }

  lemma {:induction false} ReachedArePresent(present: set<nat>, ids: seq<nat>)
    ensures forall e | e in ids[..CascadeReach(present, ids)] :: e in present
    decreases |ids|
  {
    if ids != [] && ids[0] in present {
      var k := CascadeReach(present - {ids[0]}, ids[1..]);
      ReachedArePresent(present - {ids[0]}, ids[1..]);
      assert ids[..k + 1] == [ids[0]] + ids[1..][..k];
    }
  }

  /** The edges that the replay has. */
  function Present(running: Store, m: StoreMarks): set<nat> {
    set e | e in running.edges.records && e !in m.edges.lost
  }

  function ReachIn(running: Store, m: StoreMarks, ids: seq<nat>): (k: nat)
    ensures k <= |ids|
  {
    CascadeReach(Present(running, m), ids)
  }

  function StoreMarksAfter(running: Store, m: StoreMarks, act: StoreAct, ids: seq<nat>): StoreMarks {
    match act
    case OnEdge(a) => m.(edges := MarksAfter(m.edges, a))
    case OnVertex(a) =>
      if !a.IsDelete() then m.(vertices := MarksAfter(m.vertices, a))
      else
        var k := ReachIn(running, m, ids);
        m.(edges := m.edges.(lost := m.edges.lost + Elements(ids[..k])),
           vertices := if k == |ids| then MarksAfter(m.vertices, a) else MarksKept(running.vertices, m.vertices, a.id))
  }

  lemma PresentIsReplayed(running: Store, image: Image, m: StoreMarks)
    requires StoreFollows(running, image, m)
    ensures image.store.edges.records.Keys == Present(running, m)
  {
    forall e ensures e in image.store.edges.records.Keys <==> e in Present(running, m) {
      assert FollowsAt(running.edges, image.store.edges, m.edges, e);
    }
  }

  /** Replaying one entry keeps the image in step; it fails iff the entry updates a record that the replay has lost. */
  lemma RedoStoreFollows(running: Store, image: Image, m: StoreMarks, act: StoreAct, ids: seq<nat>)
    requires StoreFollows(running, image, m) && Doable(running, act)
    ensures RedoImage(image, StoreEntryOf(act), ids).None? <==> Late(m.Lost(), act)
    ensures RedoImage(image, StoreEntryOf(act), ids).Some? ==>
              StoreFollows(DoStore(running, act), RedoImage(image, StoreEntryOf(act), ids).value,
                           StoreMarksAfter(running, m, act, ids))
  {
    match act
    case OnEdge(a) =>
      assert FollowsAt(running.edges, image.store.edges, m.edges, a.id);
      RedoFollows(running.edges, image.store.edges, m.edges, a);
    case OnVertex(a) =>
      RedoFollows(running.vertices, image.store.vertices, m.vertices, a);
      if a.IsDelete() {
        PresentIsReplayed(running, image, m);
        RemovesReach(image.store, ids);
        var (s, ok) := RemoveEdges(image.store, ids);
        RemovedFollows(running.edges, image.store.edges, s.edges, m.edges, Elements(ids[..ReachIn(running, m, ids)]));
        KeptFollows(running.vertices, image.store.vertices, m.vertices, a);
      }
  }

  // ── Runs ──────────────────────────────────────────────────────────────────

  ghost predicate Runs(s: Store, acts: seq<StoreAct>)
    ensures Runs(s, acts) ==> Defined(s, acts)
  {
    acts == [] || (Runs(s, acts[..|acts| - 1]) && Doable(Run(s, acts[..|acts| - 1]), acts[|acts| - 1]))
  }

  lemma RunsMore(s: Store, acts: seq<StoreAct>, act: StoreAct)
    requires Runs(s, acts) && Doable(Run(s, acts), act)
    ensures Runs(s, acts + [act]) && Run(s, acts + [act]) == DoStore(Run(s, acts), act)
    ensures LogOf(acts + [act]) == LogOf(acts) + [StoreEntryOf(act)]
  {
    assert (acts + [act])[..|acts + [act]| - 1] == acts;
  }

  lemma {:induction false} RunsPrefix(s: Store, acts: seq<StoreAct>, k: nat)
    requires Runs(s, acts) && k <= |acts|
    ensures Runs(s, acts[..k])
    decreases |acts|
  {
    if k == |acts| {
      assert acts[..k] == acts;
    } else {
      assert acts[..|acts| - 1][..k] == acts[..k];
      RunsPrefix(s, acts[..|acts| - 1], k);
    }
  }

  /** The run from its `k`-th state on, and its log. */
  lemma {:induction false} RunsSuffix(s: Store, acts: seq<StoreAct>, k: nat, mid: Store)
    requires Runs(s, acts) && k <= |acts| && Runs(s, acts[..k]) && mid == Run(s, acts[..k])
    ensures Runs(mid, acts[k..]) && Run(mid, acts[k..]) == Run(s, acts) && LogOf(acts)[k..] == LogOf(acts[k..])
    decreases |acts|
  {
    if k == |acts| {
      assert acts[..k] == acts && acts[k..] == [];
    } else {
      var init, act := acts[..|acts| - 1], acts[|acts| - 1];
      assert init[..k] == acts[..k] && acts[k..] == init[k..] + [act];
      RunsSuffix(s, init, k, mid);
      RunsMore(mid, init[k..], act);
      assert acts[k..][..|acts[k..]| - 1] == init[k..];
    }
  }

  /** The marks after a run that began with `m`. */
  function MarksIn(s: Store, m: StoreMarks, acts: seq<StoreAct>, ids: seq<seq<nat>>): StoreMarks
    requires Defined(s, acts) && |ids| == |acts|
  {
    if acts == [] then m
    else
      var before := acts[..|acts| - 1];
      StoreMarksAfter(Run(s, before), MarksIn(s, m, before, ids[..|acts| - 1]), acts[|acts| - 1], ids[|acts| - 1])
  }

  /** Some update is of a record that the replay has lost by then. */
  predicate HasLost(s: Store, m: StoreMarks, acts: seq<StoreAct>, ids: seq<seq<nat>>)
    requires Defined(s, acts) && |ids| == |acts|
  {
    acts != [] && (
      || HasLost(s, m, acts[..|acts| - 1], ids[..|acts| - 1])
      || Late(MarksIn(s, m, acts[..|acts| - 1], ids[..|acts| - 1]).Lost(), acts[|acts| - 1]))
  }

  /** Replay of a run on any image that follows its beginning. */
  lemma {:induction false} ReplayFollows(s: Store, image: Image, m: StoreMarks, acts: seq<StoreAct>, ids: seq<seq<nat>>)
    requires StoreFollows(s, image, m) && Runs(s, acts) && |ids| == |acts|
    ensures ReplayImage(image, LogOf(acts), ids).None? <==> HasLost(s, m, acts, ids)
    ensures !HasLost(s, m, acts, ids) ==>
              StoreFollows(Run(s, acts), ReplayImage(image, LogOf(acts), ids).value, MarksIn(s, m, acts, ids))
    decreases |acts|
  {
    if acts != [] {
      var before, act := acts[..|acts| - 1], acts[|acts| - 1];
      ReplayFollows(s, image, m, before, ids[..|acts| - 1]);
      assert LogOf(acts)[..|acts| - 1] == LogOf(before);
      if !HasLost(s, m, before, ids[..|acts| - 1]) {
        RedoStoreFollows(Run(s, before), ReplayImage(image, LogOf(before), ids[..|acts| - 1]).value,
                         MarksIn(s, m, before, ids[..|acts| - 1]), act, ids[|acts| - 1]);
      }
    }
  }

  // ── What a start shows ────────────────────────────────────────────────────

  predicate ShowsAt<D(==)>(running: Table<D>, replayed: Table<D>, leads: map<nat, nat>, id: nat) {
    replayed.Live(id) == if running.Live(id).Some? then Some(Ahead(running.Live(id).value, By(leads, id))) else None
  }

  /** The running graph's live records, up to the ranks that are ahead. */
  ghost predicate Shows(running: Store, image: Image, m: StoreMarks) {
    && (forall v: nat :: ShowsAt(running.vertices, image.store.vertices, m.vertices.leads, v))
    && (forall e: nat :: ShowsAt(running.edges, image.store.edges, m.edges.leads, e))
  }

  /** No vertex came back, and no live edge is lost. */
  ghost predicate Clean(running: Store, m: StoreMarks) {
    (forall v | v in m.vertices.kept :: !m.vertices.kept[v]) && (forall e | e in m.edges.lost :: running.edges.Live(e).None?)
  }

  lemma ShowsIffClean(running: Store, image: Image, m: StoreMarks)
    requires StoreFollows(running, image, m)
    ensures Shows(running, image, m) <==> Clean(running, m)
  {
    forall v: nat ensures ShowsAt(running.vertices, image.store.vertices, m.vertices.leads, v)
                          <==> (v in m.vertices.kept ==> !m.vertices.kept[v])
    {
      FollowsLive(running.vertices, image.store.vertices, m.vertices, v);
    }
    forall e: nat ensures ShowsAt(running.edges, image.store.edges, m.edges.leads, e)
                          <==> (e in m.edges.lost ==> running.edges.Live(e).None?)
    {
      FollowsLive(running.edges, image.store.edges, m.edges, e);
    }
  }

  predicate DeletesVertex(act: StoreAct) {
    act.OnVertex? && act.v.IsDelete()
  }

  /** A replayed vertex delete ends half way while the vertex is live, or deletes a live edge. */
  ghost predicate GoesWrong(running: Store, m: StoreMarks, act: StoreAct, ids: seq<nat>) {
    DeletesVertex(act) && (
      || (ReachIn(running, m, ids) < |ids| && running.vertices.Live(act.v.id).Some?)
      || exists e :: e in ids[..ReachIn(running, m, ids)] && running.edges.Live(e).Some?)
  }

  lemma LiveIsHeld(running: Store, image: Image, m: StoreMarks, v: nat)
    requires StoreFollows(running, image, m)
    ensures running.vertices.Live(v).Some? ==> v !in m.vertices.kept && m.vertices.Holds(running.vertices, v)
  {
    assert FollowsAt(running.vertices, image.store.vertices, m.vertices, v);
  }

  /** Only a vertex delete can spoil what a start shows, and it does exactly when it goes wrong. */
  lemma CleanAfterIff(running: Store, image: Image, m: StoreMarks, act: StoreAct, ids: seq<nat>)
    requires StoreFollows(running, image, m) && Doable(running, act) && Clean(running, m) && !Late(m.Lost(), act)
    ensures Clean(DoStore(running, act), StoreMarksAfter(running, m, act, ids)) <==> !GoesWrong(running, m, act, ids)
  {
    if DeletesVertex(act) {
      LiveIsHeld(running, image, m, act.v.id);
      DeleteCleanIff(running, m, act.v, ids);
    }
  }

  lemma DeleteCleanIff(running: Store, m: StoreMarks, a: Act<VertexData>, ids: seq<nat>)
    requires Clean(running, m) && a.IsDelete() && a.id in running.vertices.records
    requires running.vertices.Live(a.id).Some? ==> a.id !in m.vertices.kept && m.vertices.Holds(running.vertices, a.id)
    ensures Clean(DoStore(running, OnVertex(a)), StoreMarksAfter(running, m, OnVertex(a), ids))
            <==> !GoesWrong(running, m, OnVertex(a), ids)
  {
    var k := ReachIn(running, m, ids);
    var m' := StoreMarksAfter(running, m, OnVertex(a), ids);
    assert DoStore(running, OnVertex(a)).edges == running.edges;
    if e :| e in ids[..k] && running.edges.Live(e).Some? {
      assert e in m'.edges.lost;
    }
    if k < |ids| && running.vertices.Live(a.id).Some? {
      assert a.id in m'.vertices.kept && m'.vertices.kept[a.id];
    }
  }

  ghost predicate HasWrong(s: Store, m: StoreMarks, acts: seq<StoreAct>, ids: seq<seq<nat>>)
    requires Defined(s, acts) && |ids| == |acts|
  {
    acts != [] && (
      || HasWrong(s, m, acts[..|acts| - 1], ids[..|acts| - 1])
      || GoesWrong(Run(s, acts[..|acts| - 1]), MarksIn(s, m, acts[..|acts| - 1], ids[..|acts| - 1]),
                   acts[|acts| - 1], ids[|acts| - 1]))
  }

  /** Wherever the log ends, the start shows the running graph's live records up to the ranks that are ahead. */
  ghost predicate AlwaysShows(s: Store, image: Image, m: StoreMarks, acts: seq<StoreAct>, ids: seq<seq<nat>>)
    requires Defined(s, acts) && |ids| == |acts|
  {
    && (acts != [] ==> AlwaysShows(s, image, m, acts[..|acts| - 1], ids[..|acts| - 1]))
    && ReplayImage(image, LogOf(acts), ids).Some?
    && Shows(Run(s, acts), ReplayImage(image, LogOf(acts), ids).value, MarksIn(s, m, acts, ids))
  }

  ghost predicate AlwaysClean(s: Store, m: StoreMarks, acts: seq<StoreAct>, ids: seq<seq<nat>>)
    requires Defined(s, acts) && |ids| == |acts|
  {
    && (acts != [] ==> AlwaysClean(s, m, acts[..|acts| - 1], ids[..|acts| - 1]))
    && Clean(Run(s, acts), MarksIn(s, m, acts, ids))
  }

  lemma {:induction false} AlwaysShowsIffClean(s: Store, image: Image, m: StoreMarks, acts: seq<StoreAct>, ids: seq<seq<nat>>)
    requires StoreFollows(s, image, m) && Runs(s, acts) && |ids| == |acts| && !HasLost(s, m, acts, ids)
    ensures AlwaysShows(s, image, m, acts, ids) <==> AlwaysClean(s, m, acts, ids)
    decreases |acts|
  {
    ReplayFollows(s, image, m, acts, ids);
    ShowsIffClean(Run(s, acts), ReplayImage(image, LogOf(acts), ids).value, MarksIn(s, m, acts, ids));
    if acts != [] {
      AlwaysShowsIffClean(s, image, m, acts[..|acts| - 1], ids[..|acts| - 1]);
    }
  }

  lemma {:induction false} AlwaysCleanIff(s: Store, image: Image, m: StoreMarks, acts: seq<StoreAct>, ids: seq<seq<nat>>)
    requires StoreFollows(s, image, m) && Clean(s, m) && Runs(s, acts) && |ids| == |acts| && !HasLost(s, m, acts, ids)
    ensures AlwaysClean(s, m, acts, ids) <==> !HasWrong(s, m, acts, ids)
    decreases |acts|
  {
    if acts != [] {
      var before, idsBefore := acts[..|acts| - 1], ids[..|acts| - 1];
      AlwaysCleanIff(s, image, m, before, idsBefore);
      if AlwaysClean(s, m, before, idsBefore) {
        ReplayFollows(s, image, m, before, idsBefore);
        CleanAfterIff(Run(s, before), ReplayImage(image, LogOf(before), idsBefore).value, MarksIn(s, m, before, idsBefore),
                      acts[|acts| - 1], ids[|acts| - 1]);
      }
    }
  }

  /** What a vertex delete leaves: the vertex is shown iff its cascade ended half way and it was live, and the listed edges
    * up to there are gone.
    */
  lemma DeleteShows(running: Store, image: Image, m: StoreMarks, act: StoreAct, ids: seq<nat>)
    requires StoreFollows(running, image, m) && Doable(running, act) && DeletesVertex(act) && Clean(running, m)
    ensures DoStore(running, act).vertices.Live(act.v.id).None?
    ensures var image' := RedoImage(image, StoreEntryOf(act), ids); var k := ReachIn(running, m, ids);
      && image'.Some?
      && (image'.value.store.vertices.Live(act.v.id).Some? <==> k < |ids| && running.vertices.Live(act.v.id).Some?)
      && (forall e | e in ids[..k] :: image'.value.store.edges.Live(e).None?)
  {
    RedoStoreFollows(running, image, m, act, ids);
    LiveIsHeld(running, image, m, act.v.id);
    var after, image' := DoStore(running, act), RedoImage(image, StoreEntryOf(act), ids).value;
    var m' := StoreMarksAfter(running, m, act, ids);
    FollowsLive(after.vertices, image'.store.vertices, m'.vertices, act.v.id);
    forall e | e in ids[..ReachIn(running, m, ids)] ensures image'.store.edges.Live(e).None? {
      assert e in m'.edges.lost;
      FollowsLive(after.edges, image'.store.edges, m'.edges, e);
    }
  }

  // ── Which deletes go wrong ────────────────────────────────────────────────

  lemma {:induction false} CountsOnce(ids: seq<nat>)
    ensures NoRepeats(ids) <==> forall e: nat :: multiset(ids)[e] <= 1
    decreases |ids|
  {
    if ids != [] {
      assert ids == [ids[0]] + ids[1..];
      NoRepeatsCons(ids[0], ids[1..]);
      CountsOnce(ids[1..]);
      var rest := multiset(ids[1..]);
      assert multiset(ids) == multiset{ids[0]} + rest;
      assert forall e: nat :: multiset(ids)[e] == rest[e] + if e == ids[0] then 1 else 0;
      assert ids[0] in ids[1..] <==> rest[ids[0]] > 0;
    }
  }

  /** Listed at a vertex are the edges that the replay has there, and what was left listed there. */
  lemma ListedAre(running: Store, image: Image, m: StoreMarks, v: nat, ids: seq<nat>, e: nat)
    requires StoreFollows(running, image, m) && Lists(image.store.edges.records, image.stale, v, ids)
    ensures e in ids <==> (e in Present(running, m) && running.edges.records[e].data.Meets(v)) || (e in m.stale && m.stale[e].Meets(v))
    ensures multiset(ids)[e] == (if e in Present(running, m) then Stands(running.edges.records[e].data, v) else 0)
                                + (if e in m.stale then Stands(m.stale[e], v) else 0)
  {
    PresentIsReplayed(running, image, m);
    assert FollowsAt(running.edges, image.store.edges, m.edges, e);
    assert e in ids <==> multiset(ids)[e] > 0;
  }

  /** A self-loop of the vertex that the replay still has. */
  ghost predicate LoopLeft(running: Store, m: StoreMarks, v: nat) {
    exists e :: e in Present(running, m) && running.edges.records[e].data.source == v == running.edges.records[e].data.target
  }

  /** With nothing left listed a delete goes wrong iff the vertex is live and the replay has a self-loop of it, which was
    * deleted before the rotation.
    */
  lemma WrongIffLoopLeft(running: Store, image: Image, m: StoreMarks, act: StoreAct, ids: seq<nat>)
    requires StoreFollows(running, image, m) && Doable(running, act) && DeletesVertex(act) && m.stale == map[]
    requires Lists(image.store.edges.records, image.stale, act.v.id, ids)
    ensures GoesWrong(running, m, act, ids) <==> running.vertices.Live(act.v.id).Some? && LoopLeft(running, m, act.v.id)
  {
    var v := act.v.id;
    forall e: nat
      ensures e in ids ==> e in Present(running, m) && running.edges.Live(e).None?
      ensures multiset(ids)[e] > 1 <==>
                e in Present(running, m) && running.edges.records[e].data.source == v == running.edges.records[e].data.target
    {
      ListedAre(running, image, m, v, ids, e);
    }
    ReachesAllIff(Present(running, m), ids);
    CountsOnce(ids);
    PrefixIn(ids, ReachIn(running, m, ids));
  }

  lemma PrefixIn(ids: seq<nat>, k: nat)
    requires k <= |ids|
    ensures forall e | e in ids[..k] :: e in ids
  {
  }

  /** Every edge of the vertex was deleted in the log. */
  ghost predicate AllLost(running: Store, m: StoreMarks, v: nat) {
    forall e | e in running.edges.records && running.edges.records[e].data.Meets(v) :: e in m.edges.lost
  }

  /** An edge with something left listed is live, or its delete is in the log. */
  ghost predicate StaleAreLive(running: Store, m: StoreMarks) {
    forall e | e in m.stale && e in Present(running, m) :: !running.edges.records[e].deleted
  }

  /** When a whole cascade is in the log, a delete of a live vertex goes wrong iff an edge was left listed there. */
  lemma WrongIffStale(running: Store, image: Image, m: StoreMarks, act: StoreAct, ids: seq<nat>)
    requires StoreFollows(running, image, m) && DeletesVertex(act)
    requires AllLost(running, m, act.v.id) && StaleAreLive(running, m)
    requires Lists(image.store.edges.records, image.stale, act.v.id, ids)
    ensures running.vertices.Live(act.v.id).Some? ==>
              (GoesWrong(running, m, act, ids) <==> exists e :: e in m.stale && m.stale[e].Meets(act.v.id))
    ensures GoesWrong(running, m, act, ids) ==> exists e :: e in m.stale && m.stale[e].Meets(act.v.id)
  {
    var v, k := act.v.id, ReachIn(running, m, ids);
    forall e: nat ensures e in ids <==> e in m.stale && m.stale[e].Meets(v) {
      ListedAre(running, image, m, v, ids, e);
    }
    ReachesAllIff(Present(running, m), ids);
    PrefixIn(ids, k);
    if GoesWrong(running, m, act, ids) && k < |ids| {
      assert ids[k] in ids;
    }
    if e :| e in m.stale && m.stale[e].Meets(v) {
      if k == |ids| {
        assert ids[..k] == ids;
        assert e in ids[..k] && running.edges.Live(e).Some?;
      }
    }
  }

  /** With one edge left listed: a delete of an end point goes wrong iff the vertex or that edge is live. */
  lemma WrongIffEndLive(running: Store, image: Image, m: StoreMarks, act: StoreAct, ids: seq<nat>, e: nat, body: EdgeBody)
    requires StoreFollows(running, image, m) && DeletesVertex(act) && m.stale == map[e := body]
    requires AllLost(running, m, act.v.id) && StaleAreLive(running, m)
    requires Lists(image.store.edges.records, image.stale, act.v.id, ids)
    ensures GoesWrong(running, m, act, ids)
            <==> body.Meets(act.v.id) && (running.vertices.Live(act.v.id).Some? || e in Present(running, m))
  {
    var v, k := act.v.id, ReachIn(running, m, ids);
    WrongIffStale(running, image, m, act, ids);
    forall x: nat ensures x in ids <==> x == e && body.Meets(v) {
      ListedAre(running, image, m, v, ids, x);
    }
    if body.Meets(v) {
      assert e in m.stale;
      assert ids[0] == e by {
        assert e in ids && ids[0] in ids;
      }
      if e in Present(running, m) {
        assert k >= 1 && ids[..k][0] == e;
        assert e in ids[..k] && running.edges.Live(e).Some?;
      } else {
        assert k == 0;
      }
    }
  }
}
