/** Exactly when redelivery leaves a worker equal to its master, for a given file limit of the queue. */
module Convergence {
  import opened EntityRuns
  import opened GraphModel
  import opened Options
  import opened RepeatedCreates
  import opened Replication
  import opened Sequences
  import opened StaleReplay
  import opened WorkerReplay
  import Queue = BroadcastQueue
  import Protocol = QueueProtocol

  /** Every run of the queue that drains this log for the worker ends in the master's state without stopping half way. */
  ghost predicate QueueConverges(log: seq<Op>, start: State, limit: nat, node: Queue.Node) {
    forall c: Queue.Cluster | Reachable(limit, c) && Drained(c, node, log) :: Arrived(log, start, EventsOf(c, node))
  }

  /** So does every run of the protocol. */
  ghost predicate Converges(log: seq<Op>, start: State, limit: nat) {
    forall events: seq<Protocol.Event<Op>> | Drains(limit, events, log) :: Arrived(log, start, events)
  }

  ghost predicate WithinBorders(log: seq<Op>, limit: nat)
    requires limit >= 1
  {
    NoLateLoop(log, limit) && Borders(log, limit)
  }

  lemma BordersSuffice(log: seq<Op>, start: State, limit: nat)
    requires limit >= 1 && ValidLog(log, start) && WithinBorders(log, limit)
    ensures Converges(log, start, limit)
  {
    forall events: seq<Protocol.Event<Op>> | Drains(limit, events, log) ensures Arrived(log, start, events) {
      DrainedWorkerEqualsMaster(log, start, limit, events);
    }
  }

  /** The queue's runs are runs of the protocol. */
  lemma QueueConvergesToo(log: seq<Op>, start: State, limit: nat, node: Queue.Node)
    requires limit >= 1 && Converges(log, start, limit)
    ensures QueueConverges(log, start, limit, node)
  {
    forall c: Queue.Cluster | Reachable(limit, c) && Drained(c, node, log) ensures Arrived(log, start, EventsOf(c, node)) {
      ReachableIsConsistent(limit, c);
      EventsAreARun(c, node);
      assert Drains(limit, EventsOf(c, node), log);
    }
  }

  lemma BadRun(log: seq<Op>, start: State, limit: nat, node: Queue.Node, c: Queue.Cluster, w: State, broken: bool)
    requires Stage(limit, c, node, start, log, |log|, |log|, w, broken)
    requires broken || w != Exec(log, 0, |log|, start)
    ensures !QueueConverges(log, start, limit, node)
  {
    StageView(limit, c, node, start, log, |log|, |log|, w, broken);
    assert Reachable(limit, c) && Drained(c, node, log);
    assert !Arrived(log, start, EventsOf(c, node));
  }

  /** The master accepted the create of a loop on a vertex that an operation within the limit before it hard-deletes. */
  lemma LateLoopBreaks(log: seq<Op>, start: State, limit: nat, node: Queue.Node, k: nat, j: nat)
    requires k < j < |log| && j < k + limit && log[k].DeleteVertex? && log[k].hard
    requires log[j].CreateEdge? && Created(log[j]).LoopAt(log[k].v) && Accepted(Exec(log, 0, j, start), log[j])
    ensures !QueueConverges(log, start, limit, node)
  {
    var w := Exec(log, 0, j + 1, start);
    assert w.edges[log[j].e] == Created(log[j]);
    var c := Redelivers(limit, node, start, log, k, j + 1, w, true);
    BadRun(log, start, limit, node, c, Exec(log, k, |log|, w), true);
  }

  lemma BeyondBorderDiverges(log: seq<Op>, start: State, limit: nat, node: Queue.Node, c: nat)
    requires limit >= 1 && ValidLog(log, start) && c < |log| && log[c].CreateEdge? && !Border(log, c, limit)
    ensures !QueueConverges(log, start, limit, node)
  {
    var e := log[c].e;
    ValidForOneEdge(log, start, e);
    BorderIff(log, EdgeIn(start, e), c, limit);
    var i: nat :| i <= c < i + limit && !RepeatsWell(log, EdgeIn(start, e), c, i);
    RepeatEndsElsewhere(log, start, c, i);
    var w := Exec(log, 0, c + 1, start);
    var q := Redelivers(limit, node, start, log, i, c + 1, w, false);
    BadRun(log, start, limit, node, q, Exec(log, i, |log|, w), false);
  }

  lemma RepeatEndsElsewhere(log: seq<Op>, start: State, c: nat, i: nat)
    requires ValidLog(log, start) && i <= c < |log| && log[c].CreateEdge?
    requires !RepeatsWell(log, EdgeIn(start, log[c].e), c, i)
    ensures Exec(log, i, |log|, Exec(log, 0, c + 1, start)) != Exec(log, 0, |log|, start)
  {
    var e := log[c].e;
    ValidForOneEdge(log, start, e);
    MasterAfterCreate(log, EdgeIn(start, e), c);
    EdgeOfExec(log, 0, c + 1, start, e);
    EdgeOfExec(log, i, |log|, Exec(log, 0, c + 1, start), e);
    EdgeOfExec(log, 0, |log|, start, e);
  }

  lemma BordersAreNeeded(log: seq<Op>, start: State, limit: nat, node: Queue.Node)
    requires limit >= 1 && ValidLog(log, start) && !WithinBorders(log, limit)
    ensures !QueueConverges(log, start, limit, node)
  {
    if !NoLateLoop(log, limit) {
      var k, j :| 0 <= k < j < |log| && j < k + limit && log[k].DeleteVertex? && log[k].hard && log[j].CreateEdge?
                  && Created(log[j]).LoopAt(log[k].v);
      assert Accepted(Exec(log, 0, j, start), log[j]);
      LateLoopBreaks(log, start, limit, node, k, j);
    } else {
      var c :| 0 <= c < |log| && log[c].CreateEdge? && !Border(log, c, limit);
      BeyondBorderDiverges(log, start, limit, node, c);
    }
  }

  /** Main result, for every log of a master, every file limit and every worker: all runs of the queue that drain the log end
    * in the master's state without stopping half way iff no self-loop is created within the limit after a hard delete
    * of its vertex and every edge create is on the right side of its border. For all runs of the protocol it is the same.
    */
  lemma ConvergesIff(log: seq<Op>, start: State, limit: nat, node: Queue.Node)
    requires limit >= 1 && ValidLog(log, start)
    ensures QueueConverges(log, start, limit, node) <==> WithinBorders(log, limit)
    ensures Converges(log, start, limit) <==> WithinBorders(log, limit)
  {
    if WithinBorders(log, limit) {
      BordersSuffice(log, start, limit);
      QueueConvergesToo(log, start, limit, node);
    } else {
      BordersAreNeeded(log, start, limit, node);
      if Converges(log, start, limit) {
        QueueConvergesToo(log, start, limit, node);
      }
    }
  }

  // ── Edges that keep their end points ──────────────────────────────────────

  /** Every edge id keeps its end points. */
  ghost predicate FixedEnds(log: seq<Op>, start: State) {
    forall c | 0 <= c < |log| && log[c].CreateEdge? :: KeepsEnds(log, EdgeIn(start, log[c].e), log[c].e, Created(log[c]))
  }

  /** No edge is created when, within the limit, the last delete to hit its id is a soft delete of an end point, unless a
    * later operation updates or deletes the edge or deletes an end point.
    */
  predicate NoLateEdge(log: seq<Op>, limit: nat)
    requires limit >= 1
  {
    forall c | 0 <= c < |log| && log[c].CreateEdge? && LastIsSoft(log, Fallback(c, limit), c, log[c].e, Created(log[c])) ::
      Touched(log, c + 1, |log|, log[c].e, Created(log[c]))
  }

  lemma ConvergesIffWithFixedEnds(log: seq<Op>, start: State, limit: nat, node: Queue.Node)
    requires limit >= 1 && ValidLog(log, start) && FixedEnds(log, start)
    ensures QueueConverges(log, start, limit, node) <==> NoLateLoop(log, limit) && NoLateEdge(log, limit)
  {
    forall c | 0 <= c < |log| && log[c].CreateEdge?
      ensures Border(log, c, limit)
              <==> (LastIsSoft(log, Fallback(c, limit), c, log[c].e, Created(log[c])) ==>
                      Touched(log, c + 1, |log|, log[c].e, Created(log[c])))
    {
      ValidForOneEdge(log, start, log[c].e);
      BorderWithFixedEnds(log, EdgeIn(start, log[c].e), c, limit);
    }
    ConvergesIff(log, start, limit, node);
  }

  /** With one entry per file every log converges. */
  lemma SingleEntryFilesConverge(log: seq<Op>, start: State, node: Queue.Node)
    requires ValidLog(log, start)
    ensures QueueConverges(log, start, 1, node)
  {
    NothingFallsBack(log);
    ConvergesIff(log, start, 1, node);
  }

  lemma NothingFallsBack(log: seq<Op>)
    ensures WithinBorders(log, 1)
  {
    forall c | 0 <= c < |log| && log[c].CreateEdge? ensures Border(log, c, 1) {
      assert Over(log, c, c, log[c].e, Created(log[c])) == Effect(NO_PATCH, None);
    }
  }

  // ── Logs beyond the border ────────────────────────────────────────────────

  const NO_DATA := EdgeData("", [], [], 1.0, map[])
  const RENAME := EdgePatch(Some("late"), None, None, None, None)
  const PLAIN := VertexData("", [], [], map[])
  const NO_CHANGE := VertexPatch(None, None, None, None)

  lemma RunsOf(log: seq<Op>, start: State, s1: State, s2: State)
    requires |log| == 3 && s1 == Apply(start, log[0]) && s2 == Apply(s1, log[1])
    ensures Exec(log, 0, 0, start) == start && Exec(log, 0, 1, start) == s1 && Exec(log, 0, 2, start) == s2
  {
  }

  /** An edge id used again, with other end points, after a cascade removed the edge: with at least three entries in a file
    * the update of the first edge, carried out again, changes the second.
    */
  lemma ReusedEdgeIdDiverges(start: State, log: seq<Op>, limit: nat, node: Queue.Node)
    requires start == State(map[1 := Vertex(PLAIN, false)], map[5 := Edge(NO_DATA, 1, 2, false)]) && limit >= 1
    requires log == [UpdateEdge(5, RENAME), DeleteVertex(1, true), CreateEdge(5, NO_DATA, 3, 4)]
    ensures ValidLog(log, start)
    ensures QueueConverges(log, start, limit, node) <==> limit < 3
  {
    var s1 := Apply(start, log[0]);
    var s2 := Apply(s1, log[1]);
    assert s1.edges == map[5 := Edge(NO_DATA.(name := "late"), 1, 2, false)];
    assert s2 == State(map[], map[]);
    RunsOf(log, start, s1, s2);
    ReusedEdgeIdBorder(log, limit);
    assert Borders(log, limit) <==> Border(log, 2, limit);
    ConvergesIff(log, start, limit, node);
  }

  lemma ReusedEdgeIdBorder(log: seq<Op>, limit: nat)
    requires log == [UpdateEdge(5, RENAME), DeleteVertex(1, true), CreateEdge(5, NO_DATA, 3, 4)] && limit >= 1
    ensures Border(log, 2, limit) <==> limit < 3
    ensures NoLateLoop(log, limit)
  {
    var edge := Edge(NO_DATA, 3, 4, false);
    assert Created(log[2]) == edge;
    var from := Fallback(2, limit);
    assert from == if limit >= 3 then 0 else 3 - limit;
    assert HeadStart(log, from, 2, 5, edge) == from by {
      assert from <= 1 ==> HeadStart(log, from, 1, 5, edge) == from;
    }
    assert Over(log, 2, 2, 5, edge) == Over(log, 1, 1, 5, edge) == Over(log, 0, 0, 5, edge) == Effect(NO_PATCH, None);
    assert Over(log, 1, 2, 5, edge) == Effect(NO_PATCH, None);
    assert Over(log, 0, 1, 5, edge) == Effect(RENAME, Some(false));
    assert Over(log, 0, 2, 5, edge) == Effect(RENAME, Some(false));
    assert Do(Effect(RENAME, Some(false)), edge).data.name == "late";
    assert Over(log, 3, 3, 5, edge) == Effect(NO_PATCH, None);
    assert Do(Effect(NO_PATCH, None), edge) == edge;
  }

  /** An edge created on a vertex that was soft-deleted and brought back by an update. */
  lemma LateEdgeDiverges(start: State, log: seq<Op>, limit: nat, node: Queue.Node)
    requires start == State(map[1 := Vertex(PLAIN, false), 2 := Vertex(PLAIN, false)], map[]) && limit >= 1
    requires log == [DeleteVertex(1, false), UpdateVertex(1, NO_CHANGE), CreateEdge(5, NO_DATA, 1, 2)]
    ensures ValidLog(log, start) && FixedEnds(log, start)
    ensures QueueConverges(log, start, limit, node) <==> limit < 3
  {
    RunsOf(log, start, Apply(start, log[0]), Apply(Apply(start, log[0]), log[1]));
    var edge := Created(log[2]);
    var from := Fallback(2, limit);
    assert from == if limit >= 3 then 0 else 3 - limit;
    assert from == 0 ==> LastIsSoft(log, 0, 1, 5, edge) && LastIsSoft(log, 0, 2, 5, edge);
    assert from == 1 ==> !LastIsSoft(log, 1, 1, 5, edge) && !LastIsSoft(log, 1, 2, 5, edge);
    assert from == 2 ==> !LastIsSoft(log, 2, 2, 5, edge);
    assert !Touched(log, 3, 3, 5, edge);
    ConvergesIffWithFixedEnds(log, start, limit, node);
  }

  /** A self-loop created on a vertex that was hard-deleted before: with at least two entries in a file the second delivery of
    * the vertex delete can stop half way. Whether the worker then differs from its master is another matter, see below.
    */
  lemma LateLoopStops(start: State, log: seq<Op>, limit: nat, node: Queue.Node)
    requires start == State(map[], map[]) && limit >= 1
    requires log == [CreateVertex(1, PLAIN), DeleteVertex(1, true), CreateEdge(5, NO_DATA, 1, 1)]
    ensures ValidLog(log, start) && FixedEnds(log, start)
    ensures QueueConverges(log, start, limit, node) <==> limit < 2
  {
    RunsOf(log, start, Apply(start, log[0]), Apply(Apply(start, log[0]), log[1]));
    var edge := Created(log[2]);
    assert edge.LoopAt(log[1].v);
    assert forall from: nat | from <= 2 :: !LastIsSoft(log, from, 2, 5, edge);
    ConvergesIffWithFixedEnds(log, start, limit, node);
  }

  // ── After a delete that stopped half way ──────────────────────────────────

  /** The edges listed up to where the cascade stopped are gone, and the vertex stays. */
  ghost predicate StoppedHalfWay(s: State, v: nat, s': State) {
    HasLoop(s, v) && exists ids :: CascadeOf(s, v, ids) && s' == s.(edges := s.edges - Elements(ids[..CascadeReach(s.edges.Keys, ids)]))
  }

  /** Outgoing and then incoming edges, each list in any order. */
  ghost predicate CascadeOf(s: State, v: nat, ids: seq<nat>) {
    exists out, inc :: ids == out + inc && LeavingEdges(s, v, out) && EnteringEdges(s, v, inc)
  }

  ghost predicate LeavingEdges(s: State, v: nat, ids: seq<nat>) {
    NoRepeats(ids) && forall e :: e in ids <==> e in s.edges && s.edges[e].source == v
  }

  ghost predicate EnteringEdges(s: State, v: nat, ids: seq<nat>) {
    NoRepeats(ids) && forall e :: e in ids <==> e in s.edges && s.edges[e].target == v
  }

  lemma OnlyElement(ids: seq<nat>, e: nat)
    requires NoRepeats(ids) && forall x :: x in ids <==> x == e
    ensures ids == [e]
  {
    assert e in ids && ids == [ids[0]] + ids[1..];
    NoRepeatsCons(ids[0], ids[1..]);
    assert ids[0] in ids && forall x | x in ids[1..] :: x in ids;
    EmptyOrInhabited(ids[1..]);
  }

  /** A vertex whose only edge is a self-loop loses it to a delete that stops half way. */
  lemma OnlyLoopGoes(s: State, v: nat, e: nat, s': State)
    requires e in s.edges && s.edges[e].LoopAt(v) && (forall x | x in s.edges && s.edges[x].Touches(v) :: x == e)
    requires StoppedHalfWay(s, v, s')
    ensures s' == s.(edges := s.edges - {e})
  {
    var ids :| CascadeOf(s, v, ids) && s' == s.(edges := s.edges - Elements(ids[..CascadeReach(s.edges.Keys, ids)]));
    var out, inc :| ids == out + inc && LeavingEdges(s, v, out) && EnteringEdges(s, v, inc);
    OnlyElement(out, e);
    OnlyElement(inc, e);
    assert ids == [e, e] && ids[1..] == [e];
    assert CascadeReach(s.edges.Keys - {e}, [e]) == 0 && CascadeReach(s.edges.Keys, ids) == 1;
    assert Elements(ids[..1]) == {e};
  }

  /** The log of `LateLoopStops`, when the delete and the create are delivered again: the create makes the loop again. */
  lemma StoppedDeleteHeals(start: State, log: seq<Op>, stopped: State)
    requires start == State(map[], map[])
    requires log == [CreateVertex(1, PLAIN), DeleteVertex(1, true), CreateEdge(5, NO_DATA, 1, 1)]
    requires StoppedHalfWay(Exec(log, 0, 3, start), 1, stopped)
    ensures Exec(log, 2, 3, stopped) == Exec(log, 0, 3, start)
  {
    RunsOf(log, start, Apply(start, log[0]), Apply(Apply(start, log[0]), log[1]));
    var w := Exec(log, 0, 3, start);
    assert w.edges == map[5 := Edge(NO_DATA, 1, 1, false)];
    OnlyLoopGoes(w, 1, 5, stopped);
    assert Exec(log, 2, 2, stopped) == stopped;
  }

  /** A vertex renamed, hard-deleted, created again and linked to itself: delivered again from the first entry, the delete stops
    * half way, the vertex keeps the name that the repeated update gave it, and the repeated create is rejected.
    */
  lemma StoppedDeleteKeepsName(start: State, log: seq<Op>, stopped: State)
    requires start == State(map[1 := Vertex(PLAIN, false)], map[])
    requires log == [UpdateVertex(1, NO_CHANGE.(name := Some("late"))), DeleteVertex(1, true), CreateVertex(1, PLAIN),
                     CreateEdge(5, NO_DATA, 1, 1)]
    requires StoppedHalfWay(Apply(Exec(log, 0, 4, start), log[0]), 1, stopped)
    ensures ValidLog(log, start)
    ensures Exec(log, 0, 4, start).vertices == map[1 := Vertex(PLAIN, false)]
    ensures Exec(log, 2, 4, stopped).vertices == map[1 := Vertex(PLAIN.(name := "late"), false)]
  {
    var s1 := Apply(start, log[0]);
    var s2 := Apply(s1, log[1]);
    var s3 := Apply(s2, log[2]);
    assert Exec(log, 0, 0, start) == start && Exec(log, 0, 1, start) == s1 && Exec(log, 0, 2, start) == s2;
    assert Exec(log, 0, 3, start) == s3 && s3 == State(map[1 := Vertex(PLAIN, false)], map[]);
    var w := Apply(Exec(log, 0, 4, start), log[0]);
    assert w.edges == map[5 := Edge(NO_DATA, 1, 1, false)] && w.vertices == map[1 := Vertex(PLAIN.(name := "late"), false)];
    OnlyLoopGoes(w, 1, 5, stopped);
    assert Exec(log, 2, 2, stopped) == stopped && Exec(log, 2, 3, stopped) == stopped;
  }
}
