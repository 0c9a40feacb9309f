/** Vertices, edges and the operations a master broadcasts to its workers.
  *
  * `Apply` says what a node does with an operation that carries its ids: an operation that cannot
  * be carried out is answered with an error and changes nothing, except that deleting a vertex
  * deletes its edges before it looks for the vertex itself.
  */
module GraphModel {
  import opened Options

  datatype Value = Text(text: string) | Integer(i: int) | Float(f: real) | Boolean(b: bool) | List(items: seq<Value>) | Null

  type Properties = map<string, Value>

  datatype VertexData = VertexData(name: string, labels: seq<string>, keywords: seq<string>, properties: Properties)

  datatype EdgeData = EdgeData(name: string, labels: seq<string>, keywords: seq<string>, strength: real, properties: Properties)

  /** The fields an update replaces; `None` leaves a field alone. */
  datatype VertexPatch = VertexPatch(name: Option<string>, labels: Option<seq<string>>,
                                     keywords: Option<seq<string>>, properties: Option<Properties>)

  datatype EdgePatch = EdgePatch(name: Option<string>, labels: Option<seq<string>>, keywords: Option<seq<string>>,
                                 strength: Option<real>, properties: Option<Properties>)

  /** A soft-deleted entity keeps its record. */
  datatype Vertex = Vertex(data: VertexData, deleted: bool)

  datatype Edge = Edge(data: EdgeData, source: nat, target: nat, deleted: bool)
  {
    predicate Touches(v: nat) {
      source == v || target == v
    }

    predicate LoopAt(v: nat) {
      source == v && target == v
    }
  }

  datatype State = State(vertices: map<nat, Vertex>, edges: map<nat, Edge>)

  datatype Op =
    | CreateVertex(v: nat, vdata: VertexData)
    | UpdateVertex(v: nat, vpatch: VertexPatch)
    | DeleteVertex(v: nat, hard: bool)
    | CreateEdge(e: nat, edata: EdgeData, source: nat, target: nat)
    | UpdateEdge(e: nat, epatch: EdgePatch)
    | DeleteEdge(e: nat, hard: bool)

  function Or<T>(patch: Option<T>, current: T): T {
    if patch.Some? then patch.value else current
  }

  function PatchVertex(d: VertexData, p: VertexPatch): VertexData {
    VertexData(Or(p.name, d.name), Or(p.labels, d.labels), Or(p.keywords, d.keywords), Or(p.properties, d.properties))
  }

  function PatchEdge(d: EdgeData, p: EdgePatch): EdgeData {
    EdgeData(Or(p.name, d.name), Or(p.labels, d.labels), Or(p.keywords, d.keywords),
             Or(p.strength, d.strength), Or(p.properties, d.properties))
  }

  ghost predicate HasLoop(s: State, v: nat) {
    exists e :: e in s.edges && s.edges[e].LoopAt(v)
  }

  /** A hard vertex delete lists its outgoing and then its incoming edges and deletes each of them;
    * a self-loop is listed twice, and the second attempt fails and stops the operation half way. That this is exactly when
    * the cascade stops, and that it otherwise leaves the closed forms below, is shown of its loop in `LoggedGraph`. */
  ghost predicate Aborts(s: State, op: Op) {
    op.DeleteVertex? && op.hard && HasLoop(s, op.v)
  }

  /** The edges of a vertex, all hard-deleted. */
  function WithoutEdgesOf(edges: map<nat, Edge>, v: nat): map<nat, Edge> {
    map e | e in edges && !edges[e].Touches(v) :: edges[e]
  }

  /** The edges of a vertex, all soft-deleted. */
  function WithEdgesMarked(edges: map<nat, Edge>, v: nat): map<nat, Edge> {
    map e | e in edges :: if edges[e].Touches(v) then edges[e].(deleted := true) else edges[e]
  }

  /** The state after an operation that does not abort. */
  function Apply(s: State, op: Op): State {
    match op
    case CreateVertex(v, data) =>
      if v in s.vertices then s else s.(vertices := s.vertices[v := Vertex(data, false)])
    case UpdateVertex(v, patch) =>
      if v !in s.vertices then s else s.(vertices := s.vertices[v := Vertex(PatchVertex(s.vertices[v].data, patch), false)])
    case DeleteVertex(v, hard) =>
      if hard then
        State(s.vertices - {v}, WithoutEdgesOf(s.edges, v))
      else
        State(if v in s.vertices then s.vertices[v := s.vertices[v].(deleted := true)] else s.vertices,
              WithEdgesMarked(s.edges, v))
    case CreateEdge(e, data, source, target) =>
      if e in s.edges then s else s.(edges := s.edges[e := Edge(data, source, target, false)])
    case UpdateEdge(e, patch) =>
      if e !in s.edges then s
      else s.(edges := s.edges[e := s.edges[e].(data := PatchEdge(s.edges[e].data, patch), deleted := false)])
    case DeleteEdge(e, hard) =>
      if e !in s.edges then s
      else if hard then s.(edges := s.edges - {e})
      else s.(edges := s.edges[e := s.edges[e].(deleted := true)])
  }

  /** The operation succeeds, so a master broadcasts it. */
  ghost predicate Accepted(s: State, op: Op) {
    match op
    case CreateVertex(v, _) => v !in s.vertices
    case UpdateVertex(v, _) => v in s.vertices
    case DeleteVertex(v, _) => v in s.vertices && !Aborts(s, op)
    case CreateEdge(e, _, _, _) => e !in s.edges
    case UpdateEdge(e, _) => e in s.edges
    case DeleteEdge(e, _) => e in s.edges
  }

  /** Run the operations `log[i..j]`. */
  function Exec(log: seq<Op>, i: nat, j: nat, s: State): State
    requires i <= j <= |log|
    decreases j - i
  {
    if i == j then s else Apply(Exec(log, i, j - 1, s), log[j - 1])
  }

  lemma {:induction false} ExecFirst(log: seq<Op>, i: nat, j: nat, s: State)
    requires i < j <= |log|
    ensures Exec(log, i, j, s) == Exec(log, i + 1, j, Apply(s, log[i]))
    decreases j - i
  {
    if i + 1 < j {
      ExecFirst(log, i, j - 1, s);
    } else {
      assert Exec(log, i, j - 1, s) == s;
    }
  }

  lemma {:induction false} ExecSplit(log: seq<Op>, i: nat, k: nat, j: nat, s: State)
    requires i <= k <= j <= |log|
    ensures Exec(log, i, j, s) == Exec(log, k, j, Exec(log, i, k, s))
    decreases j - k
  {
    if k < j {
      ExecSplit(log, i, k, j - 1, s);
    }
  }

  lemma {:induction false} ExecPrefix(log: seq<Op>, log': seq<Op>, i: nat, j: nat, s: State)
    requires i <= j <= |log| && log <= log'
    ensures Exec(log', i, j, s) == Exec(log, i, j, s)
    decreases j - i
  {
    if i < j {
      ExecPrefix(log, log', i, j - 1, s);
    }
  }
}
