/** A running graph: create, read, update and delete, each emitting its log entries, and the restart that
  * replays them.
  */
module LoggedGraph {
  import opened GraphModel
  import opened GraphRefinement
  import opened Numbers
  import opened Options
  import opened Recovery
  import opened RotationRecovery
  import opened Sequences
  import opened StaleReplay

  class Graph {
    const index: EdgeIndex
    var vertices: Table<VertexData>
    var edges: Table<EdgeBody>
    /** The redo log since it was last renewed. */
    var log: seq<StoreEntry>
    /** The snapshot at that moment, and every change made since. */
    ghost var start: Store
    ghost var acts: seq<StoreAct>

    function Now(): Store
      reads this
    {
      Store(vertices, edges)
    }

    ghost predicate Valid()
      reads this
    {
      && Faithful(index)
      && Legal(start, acts) && Runs(start, acts) && Run(start, acts) == Now() && log == LogOf(acts)
      && vertices.NextIsFresh() && edges.NextIsFresh()
    }

    constructor (index: EdgeIndex, snapshot: Store)
      requires Faithful(index) && snapshot.vertices.NextIsFresh() && snapshot.edges.NextIsFresh()
      ensures Valid() && this.index == index && Now() == snapshot == start && acts == [] && log == []
    {
      this.index := index;
      vertices, edges, log := snapshot.vertices, snapshot.edges, [];
      start, acts := snapshot, [];
    }

    /** Note a change that was just made. */
    ghost method Note(before: Store, act: StoreAct)
      requires Faithful(index) && Legal(start, acts) && Runs(start, acts) && Run(start, acts) == before
      requires Possible(before, GoneIn(acts), act) && Doable(before, act) && Now() == DoStore(before, act)
      requires log == LogOf(acts) + [StoreEntryOf(act)]
      requires before.vertices.NextIsFresh() && before.edges.NextIsFresh()
      modifies this`acts
      ensures Valid() && acts == old(acts) + [act]
      ensures GoneIn(acts) == StoreGoneAfter(GoneIn(old(acts)), act)
    {
      Extends(start, acts, act);
      RunsMore(start, acts, act);
      acts := acts + [act];
    }

    // ── Create and read ───────────────────────────────────────────────────────

    method CreateVertex(data: VertexData) returns (v: nat)
      requires Valid()
      modifies this
      ensures Valid() && start == old(start) && acts == old(acts) + [OnVertex(Create(v, data))]
      ensures v !in old(vertices).records && edges == old(edges)
      ensures vertices.records == old(vertices).records[v := Record(data, 1, false)]
      ensures Refines(old(Now()), Now(), Op.CreateVertex(v, data), true)
    {
      ghost var before := Now();
      v := vertices.next;
      vertices := Table(vertices.records[v := Record(data, 1, false)], v + 1);
      log := log + [VertexEntry(Created(v, data))];
      Note(before, OnVertex(Create(v, data)));
      CreateVertexRefines(before, Now(), v, data, true);
    }

    /** A create with an id given by a master; a taken id is an error. */
    method CreateVertexWithId(v: nat, data: VertexData) returns (ok: bool)
      requires Valid()
      modifies this
      ensures Valid() && start == old(start) && edges == old(edges)
      ensures ok == (v !in old(vertices).records)
      ensures !ok ==> Now() == old(Now()) && log == old(log) && acts == old(acts)
      ensures ok ==> acts == old(acts) + [OnVertex(Create(v, data))]
      ensures ok ==> vertices.records == old(vertices).records[v := Record(data, 1, false)]
      ensures Refines(old(Now()), Now(), Op.CreateVertex(v, data), ok)
    {
      ghost var before := Now();
      if v in vertices.records {
        CreateVertexRefines(before, before, v, data, false);
        return false;
      }
      vertices := vertices.(next := Max(vertices.next, v + 1));
      vertices := vertices.(records := vertices.records[v := Record(data, 1, false)]);
      log := log + [VertexEntry(Created(v, data))];
      Note(before, OnVertex(Create(v, data)));
      CreateVertexRefines(before, Now(), v, data, true);
      return true;
    }

    method CreateEdge(source: nat, target: nat, data: EdgeData) returns (e: nat)
      requires Valid()
      modifies this
      ensures Valid() && start == old(start) && acts == old(acts) + [OnEdge(Create(e, EdgeBody(data, source, target)))]
      ensures e !in old(edges).records && vertices == old(vertices)
      ensures edges.records == old(edges).records[e := Record(EdgeBody(data, source, target), 1, false)]
      ensures Refines(old(Now()), Now(), Op.CreateEdge(e, data, source, target), true)
    {
      ghost var before := Now();
      e := edges.next;
      var body := EdgeBody(data, source, target);
      edges := Table(edges.records[e := Record(body, 1, false)], e + 1);
      log := log + [EdgeEntry(Created(e, body))];
      Note(before, OnEdge(Create(e, body)));
      CreateEdgeRefines(before, Now(), e, body, true);
    }

    /** The same with an id given by a master; a taken id is an error. */
    method CreateEdgeWithId(e: nat, source: nat, target: nat, data: EdgeData) returns (ok: bool)
      requires Valid()
      modifies this
      ensures Valid() && start == old(start) && vertices == old(vertices)
      ensures ok == (e !in old(edges).records)
      ensures !ok ==> Now() == old(Now()) && log == old(log) && acts == old(acts)
      ensures ok ==> acts == old(acts) + [OnEdge(Create(e, EdgeBody(data, source, target)))]
      ensures Refines(old(Now()), Now(), Op.CreateEdge(e, data, source, target), ok)
    {
      ghost var before := Now();
      var body := EdgeBody(data, source, target);
      if e in edges.records {
        CreateEdgeRefines(before, before, e, body, false);
        return false;
      }
      edges := edges.(next := Max(edges.next, e + 1));
      edges := edges.(records := edges.records[e := Record(body, 1, false)]);
      log := log + [EdgeEntry(Created(e, body))];
      Note(before, OnEdge(Create(e, body)));
      CreateEdgeRefines(before, Now(), e, body, true);
      return true;
    }

    /** A read that finds a live vertex raises its rank. */
    method GetVertex(v: nat) returns (found: Option<VertexData>)
      requires Valid()
      modifies this
      ensures Valid() && start == old(start) && edges == old(edges)
      ensures found == if old(vertices).Live(v).Some? then Some(old(vertices).Live(v).value.data) else None
      ensures found.None? ==> Now() == old(Now()) && log == old(log) && acts == old(acts)
      ensures found.Some? ==> acts == old(acts) + [OnVertex(SetRank(v, Bump(old(vertices).records[v].rank)))]
      ensures Abs(Now()) == Abs(old(Now()))
    {
      if v !in vertices.records || vertices.records[v].deleted {
        return None;
      }
      ghost var before := Now();
      var record := vertices.records[v];
      var rank := Bump(record.rank);
      vertices := vertices.(records := vertices.records[v := record.(rank := rank)]);
      log := log + [VertexEntry(MetaUpdated(v, rank))];
      Note(before, OnVertex(SetRank(v, rank)));
      SetRankRefines(before, Now(), v, rank);
      return Some(record.data);
    }

    /** Set a vertex's rank. Nothing is logged when neither the rank nor the access time changes. */
    method UpdateVertexMeta(v: nat, newRank: Option<nat>, atimeChanges: bool) returns (ok: bool)
      requires Valid()
      modifies this
      ensures Valid() && start == old(start) && edges == old(edges)
      ensures ok == (v in old(vertices).records)
      ensures if ok then vertices.records == old(vertices).records[v := old(vertices).records[v].(rank := Or(newRank, old(vertices).records[v].rank))]
              else Now() == old(Now()) && acts == old(acts)
      ensures var changes := ok && (atimeChanges || vertices.records[v].rank != old(vertices).records[v].rank);
        acts == old(acts) + if changes then [OnVertex(SetRank(v, vertices.records[v].rank))] else []
      ensures Abs(Now()) == Abs(old(Now()))
    {
      if v !in vertices.records {
        return false;
      }
      var record := vertices.records[v];
      var rank := Or(newRank, record.rank);
      if rank == record.rank && !atimeChanges {
        assert vertices.records == vertices.records[v := record];
        return true;
      }
      ghost var before := Now();
      vertices := vertices.(records := vertices.records[v := record.(rank := rank)]);
      log := log + [VertexEntry(MetaUpdated(v, rank))];
      Note(before, OnVertex(SetRank(v, rank)));
      SetRankRefines(before, Now(), v, rank);
      return true;
    }

    // ── Update ────────────────────────────────────────────────────────────────

    /** An update also brings a soft-deleted vertex back. */
    method UpdateVertex(v: nat, patch: VertexPatch) returns (ok: bool)
      requires Valid()
      modifies this
      ensures Valid() && start == old(start) && edges == old(edges)
      ensures ok == (v in old(vertices).records)
      ensures !ok ==> Now() == old(Now()) && log == old(log) && acts == old(acts)
      ensures ok ==> acts == old(acts) + [OnVertex(Update(v, PatchVertex(old(vertices).records[v].data, patch)))]
      ensures Refines(old(Now()), Now(), Op.UpdateVertex(v, patch), ok)
    {
      ghost var before := Now();
      if v !in vertices.records {
        UpdateVertexRefines(before, before, v, patch, false);
        return false;
      }
      var record := vertices.records[v];
      var data := PatchVertex(record.data, patch);
      vertices := vertices.(records := vertices.records[v := Record(data, Bump(record.rank), false)]);
      log := log + [VertexEntry(Updated(v, data))];
      Note(before, OnVertex(Update(v, data)));
      UpdateVertexRefines(before, Now(), v, patch, true);
      return true;
    }

    /** An edge keeps its ends. */
    method UpdateEdge(e: nat, patch: EdgePatch) returns (ok: bool)
      requires Valid()
      modifies this
      ensures Valid() && start == old(start) && vertices == old(vertices)
      ensures ok == (e in old(edges).records)
      ensures !ok ==> Now() == old(Now()) && log == old(log) && acts == old(acts)
      ensures ok ==> var body := old(edges).records[e].data;
                     acts == old(acts) + [OnEdge(Update(e, body.(data := PatchEdge(body.data, patch))))]
      ensures Refines(old(Now()), Now(), Op.UpdateEdge(e, patch), ok)
    {
      ghost var before := Now();
      if e !in edges.records {
        UpdateEdgeRefines(before, before, e, patch, false);
        return false;
      }
      var record := edges.records[e];
      var body := record.data.(data := PatchEdge(record.data.data, patch));
      edges := edges.(records := edges.records[e := Record(body, Bump(record.rank), false)]);
      log := log + [EdgeEntry(Updated(e, body))];
      Note(before, OnEdge(Update(e, body)));
      UpdateEdgeRefines(before, Now(), e, patch, true);
      return true;
    }

    // ── Delete ────────────────────────────────────────────────────────────────

    method DeleteEdge(e: nat, hard: bool) returns (ok: bool)
      requires Valid()
      modifies this
      ensures Valid() && start == old(start) && vertices == old(vertices)
      ensures ok == (e in old(edges).records)
      ensures !ok ==> Now() == old(Now()) && log == old(log) && acts == old(acts)
      ensures ok ==> edges == Do(old(edges), DeleteAct(e, hard)) && acts == old(acts) + [OnEdge(DeleteAct(e, hard))]
      ensures ok ==> GoneIn(acts).edges == GoneIn(old(acts)).edges + {e}
      ensures Refines(old(Now()), Now(), Op.DeleteEdge(e, hard), ok)
    {
      ghost var before := Now();
      if e !in edges.records {
        DeleteEdgeRefines(before, before, e, hard, false);
        return false;
      }
      if hard {
        edges := edges.(records := edges.records - {e});
      } else {
        edges := edges.(records := edges.records[e := edges.records[e].(deleted := true)]);
      }
      log := log + [EdgeEntry(Deleted(e))];
      Note(before, OnEdge(DeleteAct(e, hard)));
      DeleteEdgeRefines(before, Now(), e, hard, true);
      return true;
    }

    /** One turn of a cascade. */
    method DeleteListedEdge(e: nat, hard: bool) returns (ok: bool)
      requires Valid()
      modifies this
      ensures Valid() && start == old(start) && vertices == old(vertices) && old(acts) <= acts
      ensures ok == (e in old(edges).records) && edges.next == old(edges).next
      ensures if !ok then edges == old(edges)
              else edges.records == if hard then old(edges).records - {e}
                                    else old(edges).records[e := old(edges).records[e].(deleted := true)]
      ensures ok ==> GoneIn(acts).edges == GoneIn(old(acts)).edges + {e}
    {
      ok := DeleteEdge(e, hard);
    }

    /** Delete the edges of a vertex one by one, the outgoing ones first, stopping at the first that is not there. Only a
      * hard delete of a self-loop, which is listed twice, stops.
      */
    method CascadeDeleteEdges(v: nat, hard: bool) returns (ok: bool)
      requires Valid()
      modifies this
      ensures Valid() && start == old(start) && vertices == old(vertices) && old(acts) <= acts
      ensures ok <==> !(hard && LoopAt(old(Now()), v))
      ensures ok ==> Abs(Now()).edges == if hard then WithoutEdgesOf(Abs(old(Now())).edges, v)
                                         else WithEdgesMarked(Abs(old(Now())).edges, v)
      ensures ok ==> forall e | e in edges.records && edges.records[e].data.Meets(v) ::
                       !hard && edges.records[e].deleted && e in GoneIn(acts).edges
      ensures OnlyEdgesOf(v, old(edges), edges)
    {
      ghost var before := Now();
      var ids := index.Listing(Now(), v);
      ListingIsExact(index, before, v);
      ListingRepeatsLoops(index, before, v);
      ghost var gone := GoneIn(acts).edges;
      for i := 0 to |ids|
        invariant Valid() && start == old(start) && vertices == old(vertices) && old(acts) <= acts
        invariant edges.next == old(edges).next && Cascaded(old(edges).records, edges.records, ids, i, hard)
        invariant GoneIn(acts).edges == gone && Within(ids, i, gone)
      {
        assert ids[i] in ids;
        ghost var now := edges.records;
        ok := DeleteListedEdge(ids[i], hard);
        if !ok {
          CascadeStuck(old(edges).records, now, ids, i, hard);
          CascadeOnly(v, old(edges), edges, ids, i, hard);
          return;
        }
        CascadeNext(old(edges).records, now, edges.records, ids, i, hard);
        WithinNext(ids, i, gone);
        gone := gone + {ids[i]};
      }
      CascadeOnly(v, old(edges), edges, ids, |ids|, hard);
      CascadeDone(before, Now(), v, ids, hard, gone);
      return true;
    }

    /** Delete a vertex after its edges. */
    method DeleteVertex(v: nat, hard: bool) returns (ok: bool)
      requires Valid()
      modifies this
      ensures Valid() && start == old(start) && old(acts) <= acts
      ensures OnlyEdgesOf(v, old(edges), edges)
      ensures if ok then v in old(vertices).records && vertices == Do(old(vertices), DeleteAct(v, hard))
              else vertices == old(vertices)
      ensures ok <==> v in old(vertices).records && !(hard && LoopAt(old(Now()), v))
      ensures Refines(old(Now()), Now(), Op.DeleteVertex(v, hard), ok)
      ensures ok ==> forall e | edges.Live(e).Some? :: !edges.Live(e).value.data.Meets(v)
    {
      ghost var first := Now();
      ok := CascadeDeleteEdges(v, hard);
      if !ok || v !in vertices.records {
        DeleteVertexRefines(first, Now(), v, hard, false);
        return false;
      }
      ghost var before := Now();
      if hard {
        vertices := vertices.(records := vertices.records - {v});
      } else {
        vertices := vertices.(records := vertices.records[v := vertices.records[v].(deleted := true)]);
      }
      log := log + [VertexEntry(Deleted(v))];
      Note(before, OnVertex(DeleteAct(v, hard)));
      DeleteVertexRefines(first, Now(), v, hard, true);
      return true;
    }

    // ── Restart ───────────────────────────────────────────────────────────────

    /** Open the snapshot again and replay the log on it; an error ends the start-up. */
    method Restart(opened_: Store) returns (recovered: Option<Store>)
      requires Valid() && OpenedFrom(start, opened_)
      ensures recovered == Replay(opened_, log, index)
      ensures recovered.None? <==> HasLate(acts)
      ensures recovered.Some? ==> forall v :: recovered.value.vertices.Live(v) == vertices.Live(v)
      ensures recovered.Some? ==> forall e :: recovered.value.edges.Live(e) == edges.Live(e)
      ensures recovered.Some? && opened_.vertices.NextIsFresh() && opened_.edges.NextIsFresh() ==>
                && (recovered.value.vertices.NextIsFresh() <==> AllReached(vertices, GoneIn(acts).vertices, ReachOf(acts).vertices))
                && (recovered.value.edges.NextIsFresh() <==> AllReached(edges, GoneIn(acts).edges, ReachOf(acts).edges))
    {
      RecoveryRebuildsLiveView(start, opened_, acts, index);
      if !HasLate(acts) && opened_.vertices.NextIsFresh() && opened_.edges.NextIsFresh() {
        RecoveredIdsAreFreshIff(start, opened_, acts, index);
      }
      recovered := ReplayLog(opened_, log, index);
    }

    /** The state after the first `k` changes. */
    ghost function StateAfter(k: nat): Store
      requires Valid() && k <= |acts|
      reads this
    {
      RunsPrefix(start, acts, k);
      Run(start, acts[..k])
    }

    /** Start from what a rotation left: the log begins with change `k`, and changes up to `k + n` are in the data file already.
      * `ids` gives what the adjacency index lists at each entry.
      */
    method RestartAfterRotation(k: nat, n: nat, opened_: Store, ids: seq<seq<nat>>)
      returns (recovered: Option<Image>, ghost s: Store, ghost first: seq<StoreAct>, ghost rest: seq<StoreAct>)
      requires Valid() && k + n <= |acts| && Pending(acts[k..k + n]) && OpenedFrom(StateAfter(k + n), opened_)
      requires |ids| == |acts| - k && Listed(Image(opened_, map[]), LogOf(acts[k..k + n]), ids[..n])
      ensures s == StateAfter(k) && first == acts[k..k + n] && rest == acts[k + n..]
      ensures Runs(s, first) && Runs(Run(s, first), rest) && Run(Run(s, first), rest) == Now()
      ensures |log| == |acts| && recovered == ReplayImage(Image(opened_, map[]), log[k..], ids)
      ensures var final := Run(s, first); var m := FirstMarks(final, first, ids[..n]);
        && (recovered.None? <==> HasLost(final, m, rest, ids[n..]))
        && (recovered.Some? ==> StoreFollows(Now(), recovered.value, MarksIn(final, m, rest, ids[n..])))
        && (recovered.Some? && !HasWrong(final, m, rest, ids[n..]) ==>
              Shows(Now(), recovered.value, MarksIn(final, m, rest, ids[n..])))
    {
      s, first, rest := StateAfter(k), acts[k..k + n], acts[k + n..];
      RunInParts(start, acts, k, n);
      RestartShows(s, opened_, first, rest, ids[..n], ids[n..], log[k..], ids);
      recovered := ReplayListed(Image(opened_, map[]), log[k..], ids);
    }
  }

  lemma RestartShows(s: Store, opened_: Store, first: seq<StoreAct>, rest: seq<StoreAct>, ids: seq<seq<nat>>, ids': seq<seq<nat>>,
                     log: seq<StoreEntry>, all: seq<seq<nat>>)
    requires Runs(s, first) && Pending(first) && OpenedFrom(Run(s, first), opened_) && |ids| == |first|
    requires Runs(Run(s, first), rest) && |ids'| == |rest| && Listed(Image(opened_, map[]), LogOf(first), ids)
    requires log == LogOf(first) + LogOf(rest) && all == ids + ids'
    ensures var final := Run(s, first); var m := FirstMarks(final, first, ids);
            var recovered := ReplayImage(Image(opened_, map[]), log, all);
      && (recovered.None? <==> HasLost(final, m, rest, ids'))
      && (recovered.Some? ==> StoreFollows(Run(final, rest), recovered.value, MarksIn(final, m, rest, ids')))
      && (recovered.Some? && !HasWrong(final, m, rest, ids') ==>
            Shows(Run(final, rest), recovered.value, MarksIn(final, m, rest, ids')))
  {
    RecoveryAfterRotation(s, opened_, first, rest, ids, ids');
    ReplayInParts(Image(opened_, map[]), LogOf(first), ids, LogOf(rest), ids');
  }

  /** A run cut into three, and the log of the last two parts. */
  lemma RunInParts(s: Store, acts: seq<StoreAct>, k: nat, n: nat)
    requires Runs(s, acts) && k + n <= |acts|
    ensures Runs(s, acts[..k]) && Runs(s, acts[..k + n])
    ensures var mid := Run(s, acts[..k]);
      && Runs(mid, acts[k..k + n]) && Run(mid, acts[k..k + n]) == Run(s, acts[..k + n])
      && Runs(Run(mid, acts[k..k + n]), acts[k + n..]) && Run(Run(mid, acts[k..k + n]), acts[k + n..]) == Run(s, acts)
      && LogOf(acts)[k..] == LogOf(acts[k..k + n]) + LogOf(acts[k + n..])
  {
    RunsPrefix(s, acts, k);
    RunsPrefix(s, acts, k + n);
    assert acts[..k + n][..k] == acts[..k] && acts[..k + n][k..] == acts[k..k + n];
    RunsSuffix(s, acts[..k + n], k, Run(s, acts[..k]));
    RunsSuffix(s, acts, k, Run(s, acts[..k]));
    assert acts[k..][..n] == acts[k..k + n] && acts[k..][n..] == acts[k + n..];
    RunInTwo(Run(s, acts[..k]), acts[k..], n);
  }

  lemma RunInTwo(s: Store, acts: seq<StoreAct>, n: nat)
    requires Runs(s, acts) && n <= |acts|
    ensures Runs(s, acts[..n]) && Runs(Run(s, acts[..n]), acts[n..]) && Run(Run(s, acts[..n]), acts[n..]) == Run(s, acts)
    ensures LogOf(acts) == LogOf(acts[..n]) + LogOf(acts[n..])
  {
    RunsPrefix(s, acts, n);
    RunsSuffix(s, acts, n, Run(s, acts[..n]));
    LogOfParts(acts, n);
  }

  lemma {:induction false} LogOfParts(acts: seq<StoreAct>, n: nat)
    requires n <= |acts|
    ensures LogOf(acts) == LogOf(acts[..n]) + LogOf(acts[n..])
    decreases |acts|
  {
    if n == |acts| {
      assert acts[..n] == acts && acts[n..] == [];
    } else {
      var init := acts[..|acts| - 1];
      LogOfParts(init, n);
      assert init[..n] == acts[..n] && acts[n..][..|acts[n..]| - 1] == init[n..];
    }
  }

  /** The same loop as `ReplayLog`, on a graph with adjacency lists. */
  method ReplayListed(image: Image, log: seq<StoreEntry>, ids: seq<seq<nat>>) returns (recovered: Option<Image>)
    requires |ids| == |log|
    ensures recovered == ReplayImage(image, log, ids)
  {
    recovered := Some(image);
    for i := 0 to |log|
      invariant recovered == ReplayImage(image, log[..i], ids[..i]) && recovered.Some?
    {
      assert log[..i + 1][..i] == log[..i] && ids[..i + 1][..i] == ids[..i];
      recovered := RedoImage(recovered.value, log[i], ids[i]);
      if recovered == None {
        ImageStops(image, log, ids, i + 1);
        return;
      }
    }
    assert log[..|log|] == log && ids[..|log|] == ids;
  }

  lemma {:induction false} ImageStops(image: Image, log: seq<StoreEntry>, ids: seq<seq<nat>>, i: nat)
    requires |ids| == |log| && i <= |log| && ReplayImage(image, log[..i], ids[..i]) == None
    ensures ReplayImage(image, log, ids) == None
    decreases |log|
  {
    if i == |log| {
      assert log[..i] == log && ids[..i] == ids;
    } else {
      assert log[..|log| - 1][..i] == log[..i] && ids[..|log| - 1][..i] == ids[..i];
      ImageStops(image, log[..|log| - 1], ids[..|log| - 1], i);
    }
  }

  /** Replay entry by entry, stopping at the first error. */
  method ReplayLog(opened_: Store, log: seq<StoreEntry>, index: EdgeIndex) returns (recovered: Option<Store>)
    ensures recovered == Replay(opened_, log, index)
  {
    recovered := Some(opened_);
    for i := 0 to |log|
      invariant recovered == Replay(opened_, log[..i], index) && recovered.Some?
    {
      assert log[..i + 1][..i] == log[..i];
      recovered := RedoStore(recovered.value, log[i], index);
      if recovered == None {
        ReplayStops(opened_, log, i + 1, index);
        return;
      }
    }
    assert log[..|log|] == log;
  }

  /** Only edges of `v` changed, and those that remain kept their ends. */
  ghost predicate OnlyEdgesOf(v: nat, before: Table<EdgeBody>, after: Table<EdgeBody>) {
    && after.next == before.next && after.records.Keys <= before.records.Keys
    && (forall e | e in after.records :: after.records[e].data == before.records[e].data)
    && (forall e | e in before.records && !before.records[e].data.Meets(v) ::
          e in after.records && after.records[e] == before.records[e])
  }

  /** The first `i` ids are in the set. */
  ghost predicate Within(ids: seq<nat>, i: nat, gone: set<nat>)
    requires i <= |ids|
  {
    forall j | 0 <= j < i :: ids[j] in gone
  }

  lemma WithinNext(ids: seq<nat>, i: nat, gone: set<nat>)
    requires i < |ids| && Within(ids, i, gone)
    ensures Within(ids, i + 1, gone + {ids[i]})
  {
  }

  /** The cascade has dealt with the first `i` listed edges. */
  ghost predicate Cascaded(was: EdgeRecords, now: EdgeRecords, ids: seq<nat>, i: nat, hard: bool)
    requires i <= |ids|
  {
    && now == (if hard then Left(was, ids[..i]) else Marked(was, ids[..i]))
    && (hard ==> NoRepeats(ids[..i]))
  }

  lemma CascadeNext(was: EdgeRecords, now: EdgeRecords, now': EdgeRecords, ids: seq<nat>, i: nat, hard: bool)
    requires i < |ids| && Cascaded(was, now, ids, i, hard) && ids[i] in now
    requires now' == if hard then now - {ids[i]} else now[ids[i] := now[ids[i]].(deleted := true)]
    ensures Cascaded(was, now', ids, i + 1, hard)
  {
    assert ids[..i + 1] == ids[..i] + [ids[i]];
    if hard {
      LeftNext(was, ids, i);
      NoRepeatsSnoc(ids[..i], ids[i]);
    } else {
      MarkedNext(was, ids, i);
    }
  }

  /** Only a repeated edge is not there any more, and only in a hard delete. */
  lemma CascadeStuck(was: EdgeRecords, now: EdgeRecords, ids: seq<nat>, i: nat, hard: bool)
    requires i < |ids| && Cascaded(was, now, ids, i, hard) && ids[i] in was && ids[i] !in now
    ensures hard && !NoRepeats(ids)
  {
    assert ids[i] in ids[..i];
  }

  lemma CascadeOnly(v: nat, before: Table<EdgeBody>, after: Table<EdgeBody>, ids: seq<nat>, i: nat, hard: bool)
    requires i <= |ids| && Cascaded(before.records, after.records, ids, i, hard) && after.next == before.next
    requires forall e | e in ids :: e in before.records && before.records[e].data.Meets(v)
    ensures OnlyEdgesOf(v, before, after)
  {
  }

  lemma CascadeDone(before: Store, after: Store, v: nat, ids: seq<nat>, hard: bool, gone: set<nat>)
    requires forall e :: e in ids <==> e in before.edges.records && before.edges.records[e].data.Meets(v)
    requires Cascaded(before.edges.records, after.edges.records, ids, |ids|, hard)
    requires Within(ids, |ids|, gone)
    ensures Abs(after).edges == if hard then WithoutEdgesOf(Abs(before).edges, v) else WithEdgesMarked(Abs(before).edges, v)
    ensures forall e | e in after.edges.records && after.edges.records[e].data.Meets(v) ::
              !hard && after.edges.records[e].deleted && e in gone
    ensures hard ==> NoRepeats(ids)
  {
    assert ids[..|ids|] == ids;
    CascadeShows(before, after, v, hard, ids);
  }

  lemma {:induction false} ReplayStops(s: Store, log: seq<StoreEntry>, i: nat, index: EdgeIndex)
    requires i <= |log| && Replay(s, log[..i], index) == None
    ensures Replay(s, log, index) == None
    decreases |log|
  {
    if i < |log| {
      assert log[..|log| - 1][..i] == log[..i];
      ReplayStops(s, log[..|log| - 1], i, index);
    } else {
      assert log[..i] == log;
    }
  }
}
