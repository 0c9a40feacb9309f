/** The in-memory indexes: ids, ranks and adjacency, kept in step with the records on disk.
  *
  * A record is known by a pointer, and an update moves it to a new one. The indexes hold the current
  * pointers and nothing else.
  */
module MemoryIndex {
  import opened Numbers
  import opened Options
  import opened Sequences

  datatype Ptr = Ptr(block: nat, chunk: nat)

  datatype Key = VertexKey(id: nat) | EdgeKey(id: nat)

  datatype Ends = Ends(source: nat, target: nat)

  /** What the indexes need of a record's header and payload. */
  datatype Record = Record(key: Key, ends: Option<Ends>, rank: nat, deleted: bool)

  /** One adjacency entry. */
  datatype Arc = Arc(edge: nat, far: nat, ptr: Ptr)

  // ── Maps to lists ─────────────────────────────────────────────────────────

  function At<T>(m: map<nat, seq<T>>, k: nat): seq<T> {
    if k in m then m[k] else []
  }

  function Push<T>(m: map<nat, seq<T>>, k: nat, x: T): map<nat, seq<T>> {
    m[k := At(m, k) + [x]]
  }

  /** Drop an element from a list, and the list when it is empty. */
  function Drop<T(==,!new)>(m: map<nat, seq<T>>, k: nat, x: T): map<nat, seq<T>> {
    if k !in m then m
    else
      var rest := Without(m[k], x);
      if rest == [] then m - {k} else m[k := rest]
  }

  /** The lists hold exactly the related pairs, each once. */
  ghost predicate Indexes<T(!new)>(m: map<nat, seq<T>>, related: (nat, T) -> bool) {
    && (forall k :: NoRepeats(At(m, k)))
    && (forall k, x :: x in At(m, k) <==> related(k, x))
  }

  lemma PushIndexes<T(!new)>(m: map<nat, seq<T>>, related: (nat, T) -> bool, related': (nat, T) -> bool, k: nat, x: T)
    requires Indexes(m, related) && !related(k, x)
    requires forall j, y :: related'(j, y) <==> related(j, y) || (j == k && y == x)
    ensures Indexes(Push(m, k, x), related')
  {
    NoRepeatsSnoc(At(m, k), x);
    var m' := Push(m, k, x);
    forall j, y ensures y in At(m', j) <==> related'(j, y) {
      assert y in At(m, j) <==> related(j, y);
    }
    forall j ensures NoRepeats(At(m', j)) {
      assert NoRepeats(At(m, j));
    }
  }

  lemma DropIndexes<T(!new)>(m: map<nat, seq<T>>, related: (nat, T) -> bool, related': (nat, T) -> bool, k: nat, x: T)
    requires Indexes(m, related)
    requires forall j, y :: related'(j, y) <==> related(j, y) && !(j == k && y == x)
    ensures Indexes(Drop(m, k, x), related')
  {
    assert NoRepeats(At(m, k));
    WithoutNoRepeats(At(m, k), x);
    var m' := Drop(m, k, x);
    assert At(m', k) == Without(At(m, k), x);
    forall j, y ensures y in At(m', j) <==> related'(j, y) {
      assert y in At(m, j) <==> related(j, y);
    }
    forall j ensures NoRepeats(At(m', j)) {
      assert NoRepeats(At(m, j));
    }
  }

  /** Equivalent relations are indexed by the same lists. */
  lemma SameIndexes<T(!new)>(m: map<nat, seq<T>>, related: (nat, T) -> bool, related': (nat, T) -> bool)
    requires Indexes(m, related) && forall k, x :: related'(k, x) <==> related(k, x)
    ensures Indexes(m, related')
  {
  }

  /** Keep all but one element of a list. */
  lemma FilterIndexes<T(!new)>(m: map<nat, seq<T>>, related: (nat, T) -> bool, related': (nat, T) -> bool,
                               k: nat, keep: T -> bool, x: T)
    requires Indexes(m, related) && k in m
    requires forall y | related(k, y) :: keep(y) <==> y != x
    requires forall j, y :: related'(j, y) <==> related(j, y) && !(j == k && y == x)
    ensures Indexes(m[k := Filter(m[k], keep)], related')
  {
    assert NoRepeats(At(m, k));
    FilterElements(m[k], keep);
    FilterNoRepeats(m[k], keep);
    var m' := m[k := Filter(m[k], keep)];
    forall j, y ensures y in At(m', j) <==> related'(j, y) {
      assert y in At(m, j) <==> related(j, y);
    }
    forall j ensures NoRepeats(At(m', j)) {
      assert NoRepeats(At(m, j));
    }
  }

  // ── What the indexes stand for ────────────────────────────────────────────

  type Records = map<Ptr, Record>

  /** A live record at its header's rank. */
  function Ranked(records: Records): (nat, Ptr) -> bool {
    (rank: nat, p: Ptr) => p in records && !records[p].deleted && records[p].rank == rank
  }

  /** An edge record leaving, or entering, a vertex. Deleted edges stay for time travel. */
  function Leaving(records: Records): (nat, Arc) -> bool {
    (v: nat, a: Arc) => a.ptr in records && records[a.ptr].key == EdgeKey(a.edge) && records[a.ptr].ends == Some(Ends(v, a.far))
  }

  function Entering(records: Records): (nat, Arc) -> bool {
    (v: nat, a: Arc) => a.ptr in records && records[a.ptr].key == EdgeKey(a.edge) && records[a.ptr].ends == Some(Ends(a.far, v))
  }

  /** Every record is found under its key, and only records are found. */
  ghost predicate IdsOk(ids: map<Key, Ptr>, records: Records) {
    && (forall k | k in ids :: ids[k] in records && records[ids[k]].key == k)
    && (forall p | p in records :: records[p].key in ids && ids[records[p].key] == p)
    && (forall p | p in records :: records[p].key.EdgeKey? == records[p].ends.Some?)
  }

  /** The two adjacency maps mirror each other: an edge record leaves its source and enters its target,
    * once each, under its current pointer.
    */
  lemma AdjacencyMirrors(ids: map<Key, Ptr>, records: Records, forward: map<nat, seq<Arc>>, backward: map<nat, seq<Arc>>,
                         e: nat, s: nat, t: nat, p: Ptr)
    requires IdsOk(ids, records) && Indexes(forward, Leaving(records)) && Indexes(backward, Entering(records))
    ensures Arc(e, t, p) in At(forward, s) <==> Arc(e, s, p) in At(backward, t)
    ensures Arc(e, t, p) in At(forward, s) ==> EdgeKey(e) in ids && ids[EdgeKey(e)] == p
    ensures multiset(At(forward, s))[Arc(e, t, p)] == multiset(At(backward, t))[Arc(e, s, p)]
  {
    assert Arc(e, t, p) in At(forward, s) <==> Leaving(records)(s, Arc(e, t, p));
    assert Arc(e, s, p) in At(backward, t) <==> Entering(records)(t, Arc(e, s, p));
    OnceEach(At(forward, s), Arc(e, t, p));
    OnceEach(At(backward, t), Arc(e, s, p));
  }

  lemma {:induction false} OnceEach<T>(s: seq<T>, x: T)
    requires NoRepeats(s)
    ensures multiset(s)[x] == if x in s then 1 else 0
  {
    if s != [] {
      assert s == [s[0]] + s[1..];
      NoRepeatsCons(s[0], s[1..]);
      OnceEach(s[1..], x);
    }
  }

  lemma IdsOfNew(ids: map<Key, Ptr>, records: Records, p: Ptr, record: Record)
    requires IdsOk(ids, records) && p !in records && record.key !in ids && record.key.EdgeKey? == record.ends.Some?
    ensures IdsOk(ids[record.key := p], records[p := record])
  {
  }

  lemma IdsOfRemoved(ids: map<Key, Ptr>, records: Records, p: Ptr)
    requires IdsOk(ids, records) && p in records
    ensures IdsOk(ids - {records[p].key}, records - {p})
  {
  }

  // ── The composite index ───────────────────────────────────────────────────

  class Index {
    var ids: map<Key, Ptr>
    var ranks: map<nat, seq<Ptr>>
    var forward: map<nat, seq<Arc>>
    var backward: map<nat, seq<Arc>>
    /** The records on disk. */
    ghost var records: Records

    ghost predicate Valid()
      reads this
    {
      && IdsOk(ids, records)
      && Indexes(ranks, Ranked(records))
      && Indexes(forward, Leaving(records))
      && Indexes(backward, Entering(records))
    }

    constructor ()
      ensures Valid() && records == map[]
    {
      ids, ranks, forward, backward := map[], map[], map[], map[];
      records := map[];
    }

    // ── Adjacency ───────────────────────────────────────────────────────────

    method AddEdge(e: nat, source: nat, target: nat, p: Ptr)
      modifies this`forward, this`backward
      ensures forward == Push(old(forward), source, Arc(e, target, p))
      ensures backward == Push(old(backward), target, Arc(e, source, p))
    {
      forward := Push(forward, source, Arc(e, target, p));
      backward := Push(backward, target, Arc(e, source, p));
    }

    /** Forget an edge record: entries are dropped by far end and pointer. */
    method RemoveEdge(source: nat, target: nat, p: Ptr)
      requires p in records && records[p].ends == Some(Ends(source, target))
      requires Indexes(forward, Leaving(records)) && Indexes(backward, Entering(records))
      requires records[p].key.EdgeKey?
      modifies this`forward, this`backward
      ensures Indexes(forward, Leaving(records - {p})) && Indexes(backward, Entering(records - {p}))
    {
      ghost var e := records[p].key.id;
      assert Leaving(records)(source, Arc(e, target, p)) && Entering(records)(target, Arc(e, source, p));
      assert Arc(e, target, p) in At(forward, source) && Arc(e, source, p) in At(backward, target);
      if source in forward {
        var keep := (a: Arc) => a.far != target || a.ptr != p;
        FilterIndexes(forward, Leaving(records), Leaving(records - {p}), source, keep, Arc(e, target, p));
        forward := forward[source := Filter(forward[source], keep)];
      }
      if target in backward {
        var keep := (a: Arc) => a.far != source || a.ptr != p;
        FilterIndexes(backward, Entering(records), Entering(records - {p}), target, keep, Arc(e, source, p));
        backward := backward[target := Filter(backward[target], keep)];
      }
    }

    // ── Operations on records ───────────────────────────────────────────────

    /** Index a vertex record just written. */
    method CreateVertex(v: nat, p: Ptr)
      requires Valid() && p !in records && VertexKey(v) !in ids
      modifies this
      ensures Valid() && records == old(records)[p := Record(VertexKey(v), None, 1, false)]
    {
      ghost var record := Record(VertexKey(v), None, 1, false);
      ghost var after := records[p := record];
      IdsOfNew(ids, records, p, record);
      ids := ids[VertexKey(v) := p];
      PushIndexes(ranks, Ranked(records), Ranked(after), 1, p);
      ranks := Push(ranks, 1, p);
      SameIndexes(forward, Leaving(records), Leaving(after));
      SameIndexes(backward, Entering(records), Entering(after));
      records := after;
    }

    /** Index an edge record just written. */
    method CreateEdge(e: nat, source: nat, target: nat, p: Ptr)
      requires Valid() && p !in records && EdgeKey(e) !in ids
      modifies this
      ensures Valid() && records == old(records)[p := Record(EdgeKey(e), Some(Ends(source, target)), 1, false)]
    {
      ghost var record := Record(EdgeKey(e), Some(Ends(source, target)), 1, false);
      ghost var after := records[p := record];
      IdsOfNew(ids, records, p, record);
      ids := ids[EdgeKey(e) := p];
      PushIndexes(ranks, Ranked(records), Ranked(after), 1, p);
      ranks := Push(ranks, 1, p);
      PushIndexes(forward, Leaving(records), Leaving(after), source, Arc(e, target, p));
      PushIndexes(backward, Entering(records), Entering(after), target, Arc(e, source, p));
      AddEdge(e, source, target, p);
      records := after;
    }

    /** Take a record out of its rank and list what replaces it. */
    method MoveRank(p: Ptr, rank: nat, q: Ptr, newRank: nat, ghost record: Record)
      requires p in records && records[p].rank == rank && (q == p || q !in records)
      requires record.rank == newRank && !record.deleted && Indexes(ranks, Ranked(records))
      modifies this`ranks
      ensures Indexes(ranks, Ranked((records - {p})[q := record]))
    {
      DropIndexes(ranks, Ranked(records), Ranked(records - {p}), rank, p);
      ranks := Drop(ranks, rank, p);
      PushIndexes(ranks, Ranked(records - {p}), Ranked((records - {p})[q := record]), newRank, q);
      ranks := Push(ranks, newRank, q);
    }

    /** Give an edge's adjacency entries a new pointer. */
    method MoveEdge(e: nat, ends: Ends, p: Ptr, q: Ptr, ghost record: Record)
      requires p in records && q !in records && records[p].key == EdgeKey(e) && records[p].ends == Some(ends)
      requires record.key == EdgeKey(e) && record.ends == Some(ends)
      requires Indexes(forward, Leaving(records)) && Indexes(backward, Entering(records))
      modifies this`forward, this`backward
      ensures Indexes(forward, Leaving((records - {p})[q := record]))
      ensures Indexes(backward, Entering((records - {p})[q := record]))
    {
      ghost var without, after := records - {p}, (records - {p})[q := record];
      RemoveEdge(ends.source, ends.target, p);
      PushIndexes(forward, Leaving(without), Leaving(after), ends.source, Arc(e, ends.target, q));
      PushIndexes(backward, Entering(without), Entering(after), ends.target, Arc(e, ends.source, q));
      AddEdge(e, ends.source, ends.target, q);
    }

    /** A read raises the rank of a live record. The header is read from the record. */
    method Touch(key: Key, rank: nat)
      requires Valid() && key in ids && !records[ids[key]].deleted && records[ids[key]].rank == rank
      modifies this`ranks, this`records
      ensures Valid()
      ensures records == old(records)[ids[key] := old(records)[ids[key]].(rank := Bump(rank))]
    {
      var p := ids[key];
      ghost var record := records[p].(rank := Bump(rank));
      ghost var after := records[p := record];
      MoveRank(p, rank, p, Bump(rank), record);
      assert (records - {p})[p := record] == after;
      SameIndexes(forward, Leaving(records), Leaving(after));
      SameIndexes(backward, Entering(records), Entering(after));
      records := after;
    }

    /** A vertex record moves to a new pointer; it is live again if it was deleted. */
    method UpdateVertex(v: nat, rank: nat, q: Ptr)
      requires Valid() && VertexKey(v) in ids && records[ids[VertexKey(v)]].rank == rank && q !in records
      modifies this
      ensures Valid() && var p := old(ids)[VertexKey(v)];
              records == (old(records) - {p})[q := Record(VertexKey(v), None, Bump(rank), false)]
    {
      var p := ids[VertexKey(v)];
      ghost var record := Record(VertexKey(v), None, Bump(rank), false);
      ghost var after := (records - {p})[q := record];
      IdsOfMoved(ids, records, p, q, record);
      ids := ids[VertexKey(v) := q];
      MoveRank(p, rank, q, Bump(rank), record);
      SameIndexes(forward, Leaving(records), Leaving(after));
      SameIndexes(backward, Entering(records), Entering(after));
      records := after;
    }

    /** The same for an edge, whose adjacency entries get the new pointer. */
    method UpdateEdge(e: nat, ends: Ends, rank: nat, q: Ptr)
      requires Valid() && EdgeKey(e) in ids && q !in records
      requires records[ids[EdgeKey(e)]].rank == rank && records[ids[EdgeKey(e)]].ends == Some(ends)
      modifies this
      ensures Valid() && var p := old(ids)[EdgeKey(e)];
              records == (old(records) - {p})[q := Record(EdgeKey(e), Some(ends), Bump(rank), false)]
    {
      var p := ids[EdgeKey(e)];
      ghost var record := Record(EdgeKey(e), Some(ends), Bump(rank), false);
      IdsOfMoved(ids, records, p, q, record);
      ids := ids[EdgeKey(e) := q];
      MoveRank(p, rank, q, Bump(rank), record);
      MoveEdge(e, ends, p, q, record);
      records := (records - {p})[q := record];
    }

    /** A soft delete leaves the rank index only. */
    method SoftDelete(key: Key, rank: nat)
      requires Valid() && key in ids && records[ids[key]].rank == rank
      modifies this`ranks, this`records
      ensures Valid() && records == old(records)[ids[key] := old(records)[ids[key]].(deleted := true)]
    {
      var p := ids[key];
      ghost var after := records[p := records[p].(deleted := true)];
      DropIndexes(ranks, Ranked(records), Ranked(after), rank, p);
      ranks := Drop(ranks, rank, p);
      SameIndexes(forward, Leaving(records), Leaving(after));
      SameIndexes(backward, Entering(records), Entering(after));
      records := after;
    }

    method HardDeleteVertex(v: nat, rank: nat)
      requires Valid() && VertexKey(v) in ids && records[ids[VertexKey(v)]].rank == rank
      modifies this
      ensures Valid() && records == old(records) - {old(ids)[VertexKey(v)]}
    {
      var p := ids[VertexKey(v)];
      ghost var after := records - {p};
      IdsOfRemoved(ids, records, p);
      ids := ids - {VertexKey(v)};
      DropIndexes(ranks, Ranked(records), Ranked(after), rank, p);
      ranks := Drop(ranks, rank, p);
      SameIndexes(forward, Leaving(records), Leaving(after));
      SameIndexes(backward, Entering(records), Entering(after));
      records := after;
    }

    method HardDeleteEdge(e: nat, ends: Ends, rank: nat)
      requires Valid() && EdgeKey(e) in ids
      requires records[ids[EdgeKey(e)]].rank == rank && records[ids[EdgeKey(e)]].ends == Some(ends)
      modifies this
      ensures Valid() && records == old(records) - {old(ids)[EdgeKey(e)]}
    {
      var p := ids[EdgeKey(e)];
      ghost var after := records - {p};
      RemoveEdge(ends.source, ends.target, p);
      IdsOfRemoved(ids, records, p);
      ids := ids - {EdgeKey(e)};
      DropIndexes(ranks, Ranked(records), Ranked(after), rank, p);
      ranks := Drop(ranks, rank, p);
      records := after;
    }

    /** A metadata edit moves a record between ranks without looking at its status, so it lists a deleted
      * record: the indexes stay right exactly when the record is live or its rank does not change.
      */
    method SetRank(key: Key, rank: nat, newRank: nat)
      requires Valid() && key in ids && records[ids[key]].rank == rank
      modifies this`ranks, this`records
      ensures records == old(records)[ids[key] := old(records)[ids[key]].(rank := newRank)]
      ensures Valid() <==> !records[ids[key]].deleted || newRank == rank
    {
      var p := ids[key];
      ghost var after := records[p := records[p].(rank := newRank)];
      SameIndexes(forward, Leaving(records), Leaving(after));
      SameIndexes(backward, Entering(records), Entering(after));
      if rank != newRank {
        ghost var record := records[p].(rank := newRank, deleted := false);
        MoveRank(p, rank, p, newRank, record);
        assert !records[p].deleted ==> (records - {p})[p := record] == after;
        assert records[p].deleted ==> !Ranked(after)(newRank, p);
        assert Ranked((records - {p})[p := record])(newRank, p);
      } else {
        assert after == records;
      }
      records := after;
    }
  }

  lemma IdsOfMoved(ids: map<Key, Ptr>, records: Records, p: Ptr, q: Ptr, record: Record)
    requires IdsOk(ids, records) && p in records && q !in records
    requires record.key == records[p].key && record.ends == records[p].ends
    ensures IdsOk(ids[record.key := q], (records - {p})[q := record])
  {
  }
}
