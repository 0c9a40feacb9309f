/** One vertex or one edge at a time.
  *
  * What an operation does to an entity depends on nothing but that entity, so a run of the log splits into one
  * run per vertex id and one per edge id, each over a cell that is present or absent.
  */
module EntityRuns {
  import opened GraphModel
  import opened Options

  function VertexIn(s: State, v: nat): Option<Vertex> {
    if v in s.vertices then Some(s.vertices[v]) else None
  }

  function EdgeIn(s: State, e: nat): Option<Edge> {
    if e in s.edges then Some(s.edges[e]) else None
  }

  function ActVertex(cell: Option<Vertex>, op: Op, v: nat): Option<Vertex> {
    match op
    case CreateVertex(u, data) =>
      if u == v && cell.None? then Some(Vertex(data, false)) else cell
    case UpdateVertex(u, patch) =>
      if u == v && cell.Some? then Some(Vertex(PatchVertex(cell.value.data, patch), false)) else cell
    case DeleteVertex(u, hard) =>
      if u != v || cell.None? then cell else if hard then None else Some(cell.value.(deleted := true))
    case _ => cell
  }

  function ActEdge(cell: Option<Edge>, op: Op, e: nat): Option<Edge> {
    match op
    case CreateEdge(f, data, source, target) =>
      if f == e && cell.None? then Some(Edge(data, source, target, false)) else cell
    case UpdateEdge(f, patch) =>
      if f == e && cell.Some? then Some(cell.value.(data := PatchEdge(cell.value.data, patch), deleted := false)) else cell
    case DeleteEdge(f, hard) =>
      if f != e || cell.None? then cell else if hard then None else Some(cell.value.(deleted := true))
    case DeleteVertex(u, hard) =>
      if cell.None? || !cell.value.Touches(u) then cell else if hard then None else Some(cell.value.(deleted := true))
    case _ => cell
  }

  function RunVertex(cell: Option<Vertex>, log: seq<Op>, i: nat, j: nat, v: nat): Option<Vertex>
    requires i <= j <= |log|
    decreases j - i
  {
    if i == j then cell else ActVertex(RunVertex(cell, log, i, j - 1, v), log[j - 1], v)
  }

  function RunEdge(cell: Option<Edge>, log: seq<Op>, i: nat, j: nat, e: nat): Option<Edge>
    requires i <= j <= |log|
    decreases j - i
  {
    if i == j then cell else ActEdge(RunEdge(cell, log, i, j - 1, e), log[j - 1], e)
  }

  lemma VertexOfApply(s: State, op: Op, v: nat)
    ensures VertexIn(Apply(s, op), v) == ActVertex(VertexIn(s, v), op, v)
  {
  }

  lemma EdgeOfApply(s: State, op: Op, e: nat)
    ensures EdgeIn(Apply(s, op), e) == ActEdge(EdgeIn(s, e), op, e)
  {
  }

  lemma {:induction false} VertexOfExec(log: seq<Op>, i: nat, j: nat, s: State, v: nat)
    requires i <= j <= |log|
    ensures VertexIn(Exec(log, i, j, s), v) == RunVertex(VertexIn(s, v), log, i, j, v)
    decreases j - i
  {
    if i < j {
      VertexOfExec(log, i, j - 1, s, v);
      VertexOfApply(Exec(log, i, j - 1, s), log[j - 1], v);
    }
  }

  lemma {:induction false} EdgeOfExec(log: seq<Op>, i: nat, j: nat, s: State, e: nat)
    requires i <= j <= |log|
    ensures EdgeIn(Exec(log, i, j, s), e) == RunEdge(EdgeIn(s, e), log, i, j, e)
    decreases j - i
  {
    if i < j {
      EdgeOfExec(log, i, j - 1, s, e);
      EdgeOfApply(Exec(log, i, j - 1, s), log[j - 1], e);
    }
  }

  lemma SameCells(s: State, t: State)
    requires forall v :: VertexIn(s, v) == VertexIn(t, v)
    requires forall e :: EdgeIn(s, e) == EdgeIn(t, e)
    ensures s == t
  {
    forall v ensures (v in s.vertices <==> v in t.vertices) && (v in s.vertices ==> s.vertices[v] == t.vertices[v]) {
      assert VertexIn(s, v) == VertexIn(t, v);
    }
    forall e ensures (e in s.edges <==> e in t.edges) && (e in s.edges ==> s.edges[e] == t.edges[e]) {
      assert EdgeIn(s, e) == EdgeIn(t, e);
    }
    assert s.vertices.Keys == t.vertices.Keys && s.edges.Keys == t.edges.Keys;
  }

  lemma {:induction false} RunVertexSplit(cell: Option<Vertex>, log: seq<Op>, i: nat, k: nat, j: nat, v: nat)
    requires i <= k <= j <= |log|
    ensures RunVertex(cell, log, i, j, v) == RunVertex(RunVertex(cell, log, i, k, v), log, k, j, v)
    decreases j - k
  {
    if k < j {
      RunVertexSplit(cell, log, i, k, j - 1, v);
    }
  }

  lemma {:induction false} RunEdgeSplit(cell: Option<Edge>, log: seq<Op>, i: nat, k: nat, j: nat, e: nat)
    requires i <= k <= j <= |log|
    ensures RunEdge(cell, log, i, j, e) == RunEdge(RunEdge(cell, log, i, k, e), log, k, j, e)
    decreases j - k
  {
    if k < j {
      RunEdgeSplit(cell, log, i, k, j - 1, e);
    }
  }

  // ── A run in which every operation is accepted ────────────────────────────

  predicate CreatesVertex(op: Op, v: nat) {
    op.CreateVertex? && op.v == v
  }

  predicate CreatesEdge(op: Op, e: nat) {
    op.CreateEdge? && op.e == e
  }

  predicate NamesEdge(op: Op, e: nat) {
    (op.UpdateEdge? || op.DeleteEdge?) && op.e == e
  }

  predicate NamesVertex(op: Op, v: nat) {
    (op.UpdateVertex? || op.DeleteVertex?) && op.v == v
  }

  /** Creates find the cell empty, updates and deletes find it full. */
  ghost predicate ValidForVertex(log: seq<Op>, first: Option<Vertex>, v: nat) {
    forall k | 0 <= k < |log| :: var cell := RunVertex(first, log, 0, k, v);
      (CreatesVertex(log[k], v) ==> cell.None?) && (NamesVertex(log[k], v) ==> cell.Some?)
  }

  ghost predicate ValidForEdge(log: seq<Op>, first: Option<Edge>, e: nat) {
    forall k | 0 <= k < |log| :: var cell := RunEdge(first, log, 0, k, e);
      (CreatesEdge(log[k], e) ==> cell.None?) && (NamesEdge(log[k], e) ==> cell.Some?)
  }

  predicate VertexCreated(log: seq<Op>, i: nat, j: nat, v: nat)
    requires i <= j <= |log|
    decreases j - i
  {
    i < j && (CreatesVertex(log[j - 1], v) || VertexCreated(log, i, j - 1, v))
  }

  predicate EdgeCreated(log: seq<Op>, i: nat, j: nat, e: nat)
    requires i <= j <= |log|
    decreases j - i
  {
    i < j && (CreatesEdge(log[j - 1], e) || EdgeCreated(log, i, j - 1, e))
  }

  /** From an empty cell on, a run that meets a create is the master's run from there. */
  lemma {:induction false} VertexFromNothing(log: seq<Op>, first: Option<Vertex>, i: nat, j: nat, v: nat)
    requires i <= j <= |log| && ValidForVertex(log, first, v)
    ensures RunVertex(None, log, i, j, v) == if VertexCreated(log, i, j, v) then RunVertex(first, log, 0, j, v) else None
    decreases j - i
  {
    if i < j {
      VertexFromNothing(log, first, i, j - 1, v);
    }
  }

  lemma {:induction false} EdgeFromNothing(log: seq<Op>, first: Option<Edge>, i: nat, j: nat, e: nat)
    requires i <= j <= |log| && ValidForEdge(log, first, e)
    ensures RunEdge(None, log, i, j, e) == if EdgeCreated(log, i, j, e) then RunEdge(first, log, 0, j, e) else None
    decreases j - i
  {
    if i < j {
      EdgeFromNothing(log, first, i, j - 1, e);
    }
  }

  // ── Repeating an operation that does not create ───────────────────────────

  predicate SameEnds(a: Edge, b: Edge) {
    a.source == b.source && a.target == b.target
  }

  /** Cells that `op` makes equal, whatever comes in between. */
  ghost predicate VertexAgree(op: Op, a: Option<Vertex>, b: Option<Vertex>, v: nat) {
    (a.Some? <==> b.Some?) && ActVertex(a, op, v) == ActVertex(b, op, v)
  }

  ghost predicate EdgeAgree(op: Op, a: Option<Edge>, b: Option<Edge>, e: nat) {
    && (a.Some? <==> b.Some?)
    && (a.Some? ==> SameEnds(a.value, b.value))
    && ActEdge(a, op, e) == ActEdge(b, op, e)
  }

  lemma VertexAgreeStep(op: Op, q: Op, a: Option<Vertex>, b: Option<Vertex>, v: nat)
    requires VertexAgree(op, a, b, v)
    ensures VertexAgree(op, ActVertex(a, q, v), ActVertex(b, q, v), v)
  {
  }

  lemma EdgeAgreeStep(op: Op, q: Op, a: Option<Edge>, b: Option<Edge>, e: nat)
    requires EdgeAgree(op, a, b, e)
    ensures EdgeAgree(op, ActEdge(a, q, e), ActEdge(b, q, e), e)
  {
  }

  lemma {:induction false} VertexAgreeRun(op: Op, a: Option<Vertex>, b: Option<Vertex>, log: seq<Op>, i: nat, j: nat, v: nat)
    requires i <= j <= |log| && VertexAgree(op, a, b, v)
    ensures VertexAgree(op, RunVertex(a, log, i, j, v), RunVertex(b, log, i, j, v), v)
    decreases j - i
  {
    if i < j {
      VertexAgreeRun(op, a, b, log, i, j - 1, v);
      VertexAgreeStep(op, log[j - 1], RunVertex(a, log, i, j - 1, v), RunVertex(b, log, i, j - 1, v), v);
    }
  }

  lemma {:induction false} EdgeAgreeRun(op: Op, a: Option<Edge>, b: Option<Edge>, log: seq<Op>, i: nat, j: nat, e: nat)
    requires i <= j <= |log| && EdgeAgree(op, a, b, e)
    ensures EdgeAgree(op, RunEdge(a, log, i, j, e), RunEdge(b, log, i, j, e), e)
    decreases j - i
  {
    if i < j {
      EdgeAgreeRun(op, a, b, log, i, j - 1, e);
      EdgeAgreeStep(op, log[j - 1], RunEdge(a, log, i, j - 1, e), RunEdge(b, log, i, j - 1, e), e);
    }
  }

  /** Without a create an edge keeps its end points until it is removed. */
  lemma {:induction false} EdgeKeepsEnds(edge: Edge, log: seq<Op>, i: nat, j: nat, e: nat)
    requires i <= j <= |log| && !EdgeCreated(log, i, j, e)
    ensures var cell := RunEdge(Some(edge), log, i, j, e); cell.Some? ==> SameEnds(cell.value, edge)
    decreases j - i
  {
    if i < j {
      EdgeKeepsEnds(edge, log, i, j - 1, e);
    }
  }

  lemma {:induction false} VertexCreatedSplit(log: seq<Op>, i: nat, k: nat, j: nat, v: nat)
    requires i <= k <= j <= |log|
    ensures VertexCreated(log, i, j, v) <==> VertexCreated(log, i, k, v) || VertexCreated(log, k, j, v)
    decreases j - k
  {
    if k < j {
      VertexCreatedSplit(log, i, k, j - 1, v);
    }
  }

  lemma {:induction false} EdgeCreatedSplit(log: seq<Op>, i: nat, k: nat, j: nat, e: nat)
    requires i <= k <= j <= |log|
    ensures EdgeCreated(log, i, j, e) <==> EdgeCreated(log, i, k, e) || EdgeCreated(log, k, j, e)
    decreases j - k
  {
    if k < j {
      EdgeCreatedSplit(log, i, k, j - 1, e);
    }
  }

  /** A vertex that would catch up from `i` still does when `log[pos]` is carried out first. */
  lemma VertexAbsorbs(log: seq<Op>, first: Option<Vertex>, i: nat, pos: nat, cell: Option<Vertex>, v: nat)
    requires i <= pos < |log| && ValidForVertex(log, first, v)
    requires RunVertex(cell, log, i, |log|, v) == RunVertex(first, log, 0, |log|, v)
    ensures RunVertex(ActVertex(cell, log[pos], v), log, i, |log|, v) == RunVertex(first, log, 0, |log|, v)
  {
    var op := log[pos];
    var cell' := ActVertex(cell, op, v);
    if cell'.None? && cell.Some? {
      VertexFromNothing(log, first, i, |log|, v);
      if !VertexCreated(log, i, |log|, v) {
        VertexGone(log, first, i, pos, cell, v);
      }
    } else if cell.None? && cell'.Some? {
      VertexCreateRepeats(log, first, i, pos, cell'.value, v);
    } else {
      VertexAgreeRun(op, cell', cell, log, i, pos, v);
      RunVertexSplit(cell', log, i, pos + 1, |log|, v);
      RunVertexSplit(cell, log, i, pos + 1, |log|, v);
    }
  }

  lemma VertexGone(log: seq<Op>, first: Option<Vertex>, i: nat, pos: nat, cell: Option<Vertex>, v: nat)
    requires i <= pos < |log| && ValidForVertex(log, first, v) && log[pos] == DeleteVertex(v, true)
    requires !VertexCreated(log, i, |log|, v)
    ensures RunVertex(cell, log, i, |log|, v) == None
  {
    assert RunVertex(cell, log, i, pos + 1, v) == None;
    RunVertexSplit(cell, log, i, pos + 1, |log|, v);
    VertexCreatedSplit(log, i, pos + 1, |log|, v);
    VertexFromNothing(log, first, pos + 1, |log|, v);
  }

  /** Before a create of it the master's vertex was absent or hard-deleted, so an early copy stays or goes as a whole. */
  lemma {:induction false} VertexBeforeCreate(log: seq<Op>, first: Option<Vertex>, i: nat, j: nat, vertex: Vertex, v: nat)
    requires i <= j <= |log| && ValidForVertex(log, first, v) && RunVertex(first, log, 0, j, v) == None
    ensures RunVertex(Some(vertex), log, i, j, v) in {None, Some(vertex)}
    decreases j - i
  {
    if i < j {
      var before := RunVertex(first, log, 0, j - 1, v);
      if before.None? {
        VertexBeforeCreate(log, first, i, j - 1, vertex, v);
        assert !NamesVertex(log[j - 1], v) && !CreatesVertex(log[j - 1], v);
      } else {
        assert log[j - 1] == DeleteVertex(v, true);
      }
    }
  }

  lemma VertexCreateRepeats(log: seq<Op>, first: Option<Vertex>, i: nat, pos: nat, vertex: Vertex, v: nat)
    requires i <= pos < |log| && ValidForVertex(log, first, v)
    requires log[pos] == CreateVertex(v, vertex.data) && !vertex.deleted
    ensures RunVertex(Some(vertex), log, i, |log|, v) == RunVertex(first, log, 0, |log|, v)
  {
    VertexBeforeCreate(log, first, i, pos, vertex, v);
    RunVertexSplit(Some(vertex), log, i, pos + 1, |log|, v);
    RunVertexSplit(first, log, 0, pos + 1, |log|, v);
  }

  /** An edge that would catch up from `i` still does when `log[pos]`, not its create, is carried out first. */
  lemma EdgeAbsorbs(log: seq<Op>, first: Option<Edge>, i: nat, pos: nat, cell: Option<Edge>, e: nat)
    requires i <= pos < |log| && ValidForEdge(log, first, e)
    requires CreatesEdge(log[pos], e) ==> cell.Some?
    requires RunEdge(cell, log, i, |log|, e) == RunEdge(first, log, 0, |log|, e)
    ensures RunEdge(ActEdge(cell, log[pos], e), log, i, |log|, e) == RunEdge(first, log, 0, |log|, e)
  {
    var op := log[pos];
    var cell' := ActEdge(cell, op, e);
    if cell'.None? && cell.Some? {
      EdgeFromNothing(log, first, i, |log|, e);
      if !EdgeCreated(log, i, |log|, e) {
        EdgeGone(log, first, i, pos, cell.value, e);
      }
    } else {
      EdgeAgreeRun(op, cell', cell, log, i, pos, e);
      RunEdgeSplit(cell', log, i, pos + 1, |log|, e);
      RunEdgeSplit(cell, log, i, pos + 1, |log|, e);
    }
  }

  lemma EdgeGone(log: seq<Op>, first: Option<Edge>, i: nat, pos: nat, edge: Edge, e: nat)
    requires i <= pos < |log| && ValidForEdge(log, first, e) && ActEdge(Some(edge), log[pos], e).None?
    requires !EdgeCreated(log, i, |log|, e)
    ensures RunEdge(Some(edge), log, i, |log|, e) == None
  {
    EdgeCreatedSplit(log, i, pos, |log|, e);
    EdgeCreatedSplit(log, i, pos + 1, |log|, e);
    EdgeKeepsEnds(edge, log, i, pos, e);
    assert RunEdge(Some(edge), log, i, pos + 1, e) == None;
    RunEdgeSplit(Some(edge), log, i, pos + 1, |log|, e);
    EdgeFromNothing(log, first, pos + 1, |log|, e);
  }
}
