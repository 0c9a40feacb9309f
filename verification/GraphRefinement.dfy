/** The records of a running graph, ranks and allocators set aside, are a state of the replicated model.
  *
  * Master and workers run the same code. Here its operations on records are shown to do what `GraphModel.Apply` says,
  * so what is proved about replication holds of the graph whose log recovery replays.
  */
module GraphRefinement {
  import opened GraphModel
  import opened Options
  import opened Recovery
  import opened Sequences

  function VertexOf(r: Record<VertexData>): Vertex {
    Vertex(r.data, r.deleted)
  }

  function EdgeOf(r: Record<EdgeBody>): Edge {
    Edge(r.data.data, r.data.source, r.data.target, r.deleted)
  }

  function Abs(s: Store): State {
    State(map v | v in s.vertices.records :: VertexOf(s.vertices.records[v]),
          map e | e in s.edges.records :: EdgeOf(s.edges.records[e]))
  }

  /** The call succeeds exactly when the model accepts the operation, and has its effect unless it stops half way. */
  ghost predicate Refines(s: Store, s': Store, op: Op, ok: bool) {
    && (ok <==> Accepted(Abs(s), op))
    && (!Aborts(Abs(s), op) ==> Abs(s') == Apply(Abs(s), op))
  }

  lemma CreateVertexRefines(s: Store, s': Store, v: nat, data: VertexData, ok: bool)
    requires ok == (v !in s.vertices.records) && s'.edges == s.edges
    requires s'.vertices.records == if ok then s.vertices.records[v := Record(data, 1, false)] else s.vertices.records
    ensures Refines(s, s', CreateVertex(v, data), ok)
  {
    assert Abs(s').vertices == Apply(Abs(s), CreateVertex(v, data)).vertices;
  }

  lemma CreateEdgeRefines(s: Store, s': Store, e: nat, body: EdgeBody, ok: bool)
    requires ok == (e !in s.edges.records) && s'.vertices == s.vertices
    requires s'.edges.records == if ok then s.edges.records[e := Record(body, 1, false)] else s.edges.records
    ensures Refines(s, s', CreateEdge(e, body.data, body.source, body.target), ok)
  {
    assert Abs(s').edges == Apply(Abs(s), CreateEdge(e, body.data, body.source, body.target)).edges;
  }

  lemma UpdateVertexRefines(s: Store, s': Store, v: nat, patch: VertexPatch, ok: bool)
    requires ok == (v in s.vertices.records) && s'.edges == s.edges
    requires s'.vertices == if ok then Do(s.vertices, Update(v, PatchVertex(s.vertices.records[v].data, patch))) else s.vertices
    ensures Refines(s, s', UpdateVertex(v, patch), ok)
  {
    assert Abs(s').vertices == Apply(Abs(s), UpdateVertex(v, patch)).vertices;
  }

  lemma UpdateEdgeRefines(s: Store, s': Store, e: nat, patch: EdgePatch, ok: bool)
    requires ok == (e in s.edges.records) && s'.vertices == s.vertices
    requires s'.edges == if ok then var body := s.edges.records[e].data;
                                    Do(s.edges, Update(e, body.(data := PatchEdge(body.data, patch))))
                         else s.edges
    ensures Refines(s, s', UpdateEdge(e, patch), ok)
  {
    assert Abs(s').edges == Apply(Abs(s), UpdateEdge(e, patch)).edges;
  }

  function DeleteAct<D>(id: nat, hard: bool): Act<D> {
    if hard then HardDelete(id) else SoftDelete(id)
  }

  lemma DeleteEdgeRefines(s: Store, s': Store, e: nat, hard: bool, ok: bool)
    requires ok == (e in s.edges.records) && s'.vertices == s.vertices
    requires s'.edges == if ok then Do(s.edges, DeleteAct(e, hard)) else s.edges
    ensures Refines(s, s', DeleteEdge(e, hard), ok)
  {
    assert Abs(s').edges == Apply(Abs(s), DeleteEdge(e, hard)).edges;
  }

  /** Ranks do not show. */
  lemma SetRankRefines(s: Store, s': Store, v: nat, rank: nat)
    requires v in s.vertices.records && s'.edges == s.edges
    requires s'.vertices.records == s.vertices.records[v := s.vertices.records[v].(rank := rank)]
    ensures Abs(s') == Abs(s)
  {
    assert Abs(s').vertices == Abs(s).vertices;
  }

  // ── The cascade ───────────────────────────────────────────────────────────

  type EdgeRecords = map<nat, Record<EdgeBody>>

  /** The records that are left when the listed edges are hard-deleted. */
  function Left(records: EdgeRecords, ids: seq<nat>): EdgeRecords {
    map e | e in records && e !in ids :: records[e]
  }

  /** The records when the listed edges are soft-deleted. */
  function Marked(records: EdgeRecords, ids: seq<nat>): EdgeRecords {
    map e | e in records :: if e in ids then records[e].(deleted := true) else records[e]
  }

  lemma LeftNext(records: EdgeRecords, ids: seq<nat>, i: nat)
    requires i < |ids|
    ensures Left(records, ids[..i + 1]) == Left(records, ids[..i]) - {ids[i]}
  {
    assert ids[..i + 1] == ids[..i] + [ids[i]];
  }

  lemma MarkedNext(records: EdgeRecords, ids: seq<nat>, i: nat)
    requires i < |ids| && ids[i] in records
    ensures var before := Marked(records, ids[..i]);
      Marked(records, ids[..i + 1]) == before[ids[i] := before[ids[i]].(deleted := true)]
  {
    assert ids[..i + 1] == ids[..i] + [ids[i]];
  }

  lemma LoopShows(s: Store, v: nat)
    ensures LoopAt(s, v) <==> HasLoop(Abs(s), v)
  {
    if LoopAt(s, v) {
      var e :| e in s.edges.records && s.edges.records[e].data.source == v == s.edges.records[e].data.target;
      assert Abs(s).edges[e].LoopAt(v);
    }
    if HasLoop(Abs(s), v) {
      var e :| e in Abs(s).edges && Abs(s).edges[e].LoopAt(v);
      assert s.edges.records[e].data.source == v;
    }
  }

  /** What a completed cascade leaves is the closed form of the model. */
  lemma CascadeShows(s: Store, s': Store, v: nat, hard: bool, ids: seq<nat>)
    requires forall e :: e in ids <==> e in s.edges.records && s.edges.records[e].data.Meets(v)
    requires s'.edges.records == if hard then Left(s.edges.records, ids) else Marked(s.edges.records, ids)
    ensures Abs(s').edges == if hard then WithoutEdgesOf(Abs(s).edges, v) else WithEdgesMarked(Abs(s).edges, v)
  {
  }

  lemma DeleteVertexRefines(s: Store, s': Store, v: nat, hard: bool, ok: bool)
    requires ok == (v in s.vertices.records && !(hard && LoopAt(s, v)))
    requires !(hard && LoopAt(s, v)) ==>
               && Abs(s').edges == (if hard then WithoutEdgesOf(Abs(s).edges, v) else WithEdgesMarked(Abs(s).edges, v))
               && s'.vertices == if ok then Do(s.vertices, DeleteAct(v, hard)) else s.vertices
    ensures Refines(s, s', DeleteVertex(v, hard), ok)
  {
    LoopShows(s, v);
    if !(hard && LoopAt(s, v)) {
      assert Abs(s').vertices == Apply(Abs(s), DeleteVertex(v, hard)).vertices;
    }
  }
}
