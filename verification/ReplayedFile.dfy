/** The data file under a replay: records at pointers, and the current pointer of every id.
  *
  * A create writes a new record whether or not the id has one. The record behind stays allocated and stays in the adjacency
  * index, which lists what is in the file; no later entry reaches it. The next start scans it again.
  */
module ReplayedFile {
  import opened GraphModel
  import opened Numbers
  import opened Options
  import opened Recovery
  import opened StaleReplay

  datatype Slot<D> = Slot(id: nat, record: Record<D>)

  /** Pointers are numbered in the order of the scan. */
  datatype File<D> = File(slots: map<nat, Slot<D>>, ids: map<nat, nat>)
  {
    ghost predicate Valid() {
      forall id | id in ids :: ids[id] in slots && slots[ids[id]].id == id
    }

    function Current(id: nat): Option<Record<D>> {
      if id in ids && ids[id] in slots then Some(slots[ids[id]].record) else None
    }

    /** No id leads to the record. */
    predicate Left(p: nat) {
      p in slots && !(slots[p].id in ids && ids[slots[p].id] == p)
    }
  }

  /** Replay of one entry; `q` is where a new record goes. */
  function RedoFile<D>(f: File<D>, entry: Entry<D>, q: nat): Option<File<D>> {
    match entry
    case Created(id, data) => Some(File(f.slots[q := Slot(id, Record(data, 1, false))], f.ids[id := q]))
    case Updated(id, data) =>
      if f.Current(id) == None then None
      else
        var record := Record(data, Bump(f.Current(id).value.rank), false);
        Some(File((f.slots - {f.ids[id]})[q := Slot(id, record)], f.ids[id := q]))
    case MetaUpdated(id, rank) =>
      if f.Current(id) == None then Some(f)
      else Some(f.(slots := f.slots[f.ids[id] := Slot(id, f.Current(id).value.(rank := rank))]))
    case Deleted(id) =>
      if f.Current(id) == None then Some(f) else Some(File(f.slots - {f.ids[id]}, f.ids - {id}))
  }

  function RecordIn<D>(t: Table<D>, id: nat): Option<Record<D>> {
    if id in t.records then Some(t.records[id]) else None
  }

  ghost predicate Views<D>(f: File<D>, t: Table<D>) {
    f.Valid() && forall id: nat :: f.Current(id) == RecordIn(t, id)
  }

  /** What is left over, by id. */
  ghost predicate LeftOver<D>(f: File<D>, left: map<nat, nat>) {
    && (forall p: nat | f.Left(p) :: f.slots[p].id in left && left[f.slots[p].id] == p)
    && (forall id | id in left :: f.Left(left[id]) && f.slots[left[id]].id == id)
  }

  function LeftAfter<D>(f: File<D>, entry: Entry<D>, left: map<nat, nat>): map<nat, nat> {
    if entry.Created? && entry.id in f.ids then left[entry.id := f.ids[entry.id]] else left
  }

  /** The file does what the table does, and a record that is left over stays there unchanged. */
  lemma RedoFileViews<D(!new)>(f: File<D>, t: Table<D>, entry: Entry<D>, q: nat)
    requires Views(f, t) && q !in f.slots
    ensures RedoFile(f, entry, q).None? <==> Redo(t, entry).None?
    ensures RedoFile(f, entry, q).Some? ==> Views(RedoFile(f, entry, q).value, Redo(t, entry).value)
  {
    assert f.Current(entry.id) == RecordIn(t, entry.id);
    if RedoFile(f, entry, q).Some? {
      var f', t' := RedoFile(f, entry, q).value, Redo(t, entry).value;
      forall id: nat ensures f'.Current(id) == RecordIn(t', id) {
        assert f.Current(id) == RecordIn(t, id);
      }
    }
  }

  lemma RedoFileLeaves<D>(f: File<D>, entry: Entry<D>, q: nat, left: map<nat, nat>)
    requires f.Valid() && q !in f.slots && LeftOver(f, left) && RedoFile(f, entry, q).Some?
    requires entry.Created? && entry.id in f.ids ==> entry.id !in left
    ensures LeftOver(RedoFile(f, entry, q).value, LeftAfter(f, entry, left))
    ensures forall id | id in left :: RedoFile(f, entry, q).value.slots[left[id]] == f.slots[left[id]]
  {
  }

  // ── The adjacency index ───────────────────────────────────────────────────

  /** How often the index lists an edge id at a vertex: once for every record of the id and end there. */
  function Listings(f: File<EdgeBody>, v: nat, e: nat): nat {
    |Leaving(f, v, e)| + |Entering(f, v, e)|
  }

  function Leaving(f: File<EdgeBody>, v: nat, e: nat): set<nat> {
    set p | p in f.slots && f.slots[p].id == e && f.slots[p].record.data.source == v
  }

  function Entering(f: File<EdgeBody>, v: nat, e: nat): set<nat> {
    set p | p in f.slots && f.slots[p].id == e && f.slots[p].record.data.target == v
  }

  /** The records that are left over are what an image keeps as stale. */
  ghost predicate Shapes(f: File<EdgeBody>, left: map<nat, nat>, image: Image) {
    && Views(f, image.store.edges) && LeftOver(f, left)
    && image.stale.Keys == left.Keys
    && forall e | e in left :: f.slots[left[e]].record.data == image.stale[e]
  }

  lemma RedoShapes(f: File<EdgeBody>, left: map<nat, nat>, image: Image, entry: Entry<EdgeBody>, q: nat, ids: seq<nat>)
    requires Shapes(f, left, image) && q !in f.slots
    requires entry.Created? && entry.id in image.store.edges.records ==> entry.id !in image.stale
    ensures RedoFile(f, entry, q).None? <==> RedoImage(image, EdgeEntry(entry), ids).None?
    ensures RedoFile(f, entry, q).Some? ==>
              Shapes(RedoFile(f, entry, q).value, LeftAfter(f, entry, left), RedoImage(image, EdgeEntry(entry), ids).value)
  {
    assert f.Current(entry.id) == RecordIn(image.store.edges, entry.id);
    RedoFileViews(f, image.store.edges, entry, q);
    if RedoFile(f, entry, q).Some? {
      RedoFileLeaves(f, entry, q, left);
    }
  }

  lemma AtMostTwo(all: set<nat>, here: bool, p: nat, there: bool, q: nat)
    requires p != q || !here || !there
    requires forall x :: x in all <==> (here && x == p) || (there && x == q)
    ensures |all| == (if here then 1 else 0) + (if there then 1 else 0)
  {
    var a, b: set<nat> := if here then {p} else {}, if there then {q} else {};
    assert all == a + b && a !! b;
  }

  /** So the index lists what an image says: the current edges and the stale ones. */
  lemma ListingsAreTimes(f: File<EdgeBody>, left: map<nat, nat>, image: Image, v: nat, e: nat)
    requires Shapes(f, left, image)
    ensures Listings(f, v, e) == Times(image.store.edges.records, image.stale, v, e)
  {
    assert f.Current(e) == RecordIn(image.store.edges, e);
    var here, p := e in f.ids, if e in f.ids then f.ids[e] else 0;
    var there, q := e in left, if e in left then left[e] else 0;
    forall x: nat ensures x in f.slots && f.slots[x].id == e <==> (here && x == p) || (there && x == q) {
      if x in f.slots && f.slots[x].id == e && !(here && x == p) {
        assert f.Left(x);
      }
    }
    assert there ==> f.Left(q);
    assert e in left.Keys <==> e in image.stale.Keys;
    AtMostTwo(Leaving(f, v, e), here && f.slots[p].record.data.source == v, p, there && f.slots[q].record.data.source == v, q);
    AtMostTwo(Entering(f, v, e), here && f.slots[p].record.data.target == v, p, there && f.slots[q].record.data.target == v, q);
  }

  // ── The next start ────────────────────────────────────────────────────────

  /** The scan gives every id its last record. */
  ghost predicate Scanned<D>(f: File<D>) {
    && f.Valid()
    && forall p | p in f.slots :: f.slots[p].id in f.ids && p <= f.ids[f.slots[p].id]
  }

  /** The next start shows the left over record of an id whose replayed record lies before it or was deleted, and otherwise the
    * replayed record.
    */
  lemma NextStart<D>(f: File<D>, left: map<nat, nat>, g: File<D>, id: nat)
    requires f.Valid() && LeftOver(f, left) && Scanned(g) && g.slots == f.slots
    ensures g.Current(id) == if id in left && (id !in f.ids || f.ids[id] < left[id]) then Some(f.slots[left[id]].record)
                             else f.Current(id)
  {
    if id in left {
      assert f.Left(left[id]);
    }
    if id in g.ids && !(id in f.ids && f.ids[id] == g.ids[id]) {
      assert f.Left(g.ids[id]);
    }
  }

  /** What a rotation wrote of a record that its first entry created: deleted afterwards, it is back after two starts. */
  lemma DeletedIsBack<D>(f: File<D>, entry: Entry<D>, q: nat, q': nat, g: File<D>)
    requires f.Valid() && LeftOver(f, map[]) && entry.Created? && entry.id in f.ids && q !in f.slots
    requires var f1 := RedoFile(f, entry, q).value;
      q' !in f1.slots && Scanned(g) && g.slots == RedoFile(f1, Deleted(entry.id), q').value.slots
    ensures var f2 := RedoFile(RedoFile(f, entry, q).value, Deleted(entry.id), q').value;
      f2.Current(entry.id) == None && g.Current(entry.id) == f.Current(entry.id)
  {
    var id := entry.id;
    var f1 := RedoFile(f, entry, q).value;
    RedoFileLeaves(f, entry, q, map[]);
    RedoFileLeaves(f1, Deleted(id), q', map[id := f.ids[id]]);
    NextStart(RedoFile(f1, Deleted(id), q').value, map[id := f.ids[id]], g, id);
  }
}
