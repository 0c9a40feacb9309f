/** When at-least-once delivery leaves a worker equal to its master.
  *
  * Lost answers and restarts of the queue make a worker carry out operations more than once. Operations already
  * carried out may then fail, or touch entities that a later operation had already changed. For most
  * operations the result is the same all the same; the exceptions are edge creates that follow a delete of an end point
  * or another use of the id, and self-loops created on a vertex that was hard-deleted before.
  */
module WorkerReplay {
  import opened EntityRuns
  import opened GraphModel
  import opened Options
  import opened QueueProtocol
  import opened RepeatedCreates

  /** Every operation succeeded on the master, which broadcasts no other. */
  ghost predicate ValidLog(log: seq<Op>, start: State) {
    forall k | 0 <= k < |log| :: Accepted(Exec(log, 0, k, start), log[k])
  }

  /** The worker: it carries out what reaches it, whenever it does. */
  function Worker(start: State, events: seq<Event<Op>>): State {
    if events == [] then start
    else
      var init := events[..|events| - 1];
      var next, w := Run(View([], 0, 0, 0), init).Next(), Worker(start, init);
      if events[|events| - 1].ReachesWorker() && next.Some? then Apply(w, next.value) else w
  }

  /** No operation that reached the worker stopped half way. */
  ghost predicate NeverAborted(start: State, events: seq<Event<Op>>) {
    events == [] ||
      var init := events[..|events| - 1];
      var next, w := Run(View([], 0, 0, 0), init).Next(), Worker(start, init);
      NeverAborted(start, init) && (events[|events| - 1].ReachesWorker() && next.Some? ==> !Aborts(w, next.value))
  }

  // ── Repeating one operation ───────────────────────────────────────────────

  lemma ValidForOneVertex(log: seq<Op>, start: State, v: nat)
    requires ValidLog(log, start)
    ensures ValidForVertex(log, VertexIn(start, v), v)
  {
    forall k | 0 <= k < |log| ensures var cell := RunVertex(VertexIn(start, v), log, 0, k, v);
      (CreatesVertex(log[k], v) ==> cell.None?) && (NamesVertex(log[k], v) ==> cell.Some?)
    {
      VertexOfExec(log, 0, k, start, v);
      assert Accepted(Exec(log, 0, k, start), log[k]);
    }
  }

  lemma ValidForOneEdge(log: seq<Op>, start: State, e: nat)
    requires ValidLog(log, start)
    ensures ValidForEdge(log, EdgeIn(start, e), e)
  {
    forall k | 0 <= k < |log| ensures var cell := RunEdge(EdgeIn(start, e), log, 0, k, e);
      (CreatesEdge(log[k], e) ==> cell.None?) && (NamesEdge(log[k], e) ==> cell.Some?)
    {
      EdgeOfExec(log, 0, k, start, e);
      assert Accepted(Exec(log, 0, k, start), log[k]);
    }
  }

  /** Going on from `i` leads to the master's state. */
  ghost predicate EndsWell(log: seq<Op>, start: State, i: nat, w: State)
    requires i <= |log|
  {
    Exec(log, i, |log|, w) == Exec(log, 0, |log|, start)
  }

  lemma VertexOfAbsorbed(log: seq<Op>, start: State, i: nat, pos: nat, w: State, v: nat)
    requires ValidLog(log, start) && i <= pos < |log| && EndsWell(log, start, i, w)
    ensures VertexIn(Exec(log, i, |log|, Apply(w, log[pos])), v) == VertexIn(Exec(log, 0, |log|, start), v)
  {
    ValidForOneVertex(log, start, v);
    VertexOfExec(log, i, |log|, Apply(w, log[pos]), v);
    VertexOfExec(log, i, |log|, w, v);
    VertexOfExec(log, 0, |log|, start, v);
    VertexOfApply(w, log[pos], v);
    VertexAbsorbs(log, VertexIn(start, v), i, pos, VertexIn(w, v), v);
  }

  lemma EdgeOfAbsorbed(log: seq<Op>, start: State, i: nat, pos: nat, w: State, e: nat)
    requires ValidLog(log, start) && i <= pos < |log| && EndsWell(log, start, i, w)
    requires log[pos].CreateEdge? ==> RepeatsWell(log, EdgeIn(start, log[pos].e), pos, i)
    ensures EdgeIn(Exec(log, i, |log|, Apply(w, log[pos])), e) == EdgeIn(Exec(log, 0, |log|, start), e)
  {
    ValidForOneEdge(log, start, e);
    EdgeOfExec(log, i, |log|, Apply(w, log[pos]), e);
    EdgeOfExec(log, i, |log|, w, e);
    EdgeOfExec(log, 0, |log|, start, e);
    EdgeOfApply(w, log[pos], e);
    if !CreatesEdge(log[pos], e) || e in w.edges {
      EdgeAbsorbs(log, EdgeIn(start, e), i, pos, EdgeIn(w, e), e);
    }
  }

  /** The law behind convergence: an operation carried out ahead of its turn, at any earlier point of the log, leaves
    * no trace once its turn comes. Creates of edges need that they can be repeated from there.
    */
  lemma RepeatIsAbsorbed(log: seq<Op>, start: State, i: nat, pos: nat, w: State)
    requires ValidLog(log, start) && i <= pos < |log| && EndsWell(log, start, i, w)
    requires log[pos].CreateEdge? ==> RepeatsWell(log, EdgeIn(start, log[pos].e), pos, i)
    ensures EndsWell(log, start, i, Apply(w, log[pos]))
  {
    var s, t := Exec(log, i, |log|, Apply(w, log[pos])), Exec(log, 0, |log|, start);
    forall v ensures VertexIn(s, v) == VertexIn(t, v) {
      VertexOfAbsorbed(log, start, i, pos, w, v);
    }
    forall e ensures EdgeIn(s, e) == EdgeIn(t, e) {
      EdgeOfAbsorbed(log, start, i, pos, w, e);
    }
    SameCells(s, t);
  }

  // ── Every run ─────────────────────────────────────────────────────────────

  /** Every edge create is on the right side of its border. */
  predicate Borders(log: seq<Op>, limit: nat)
    requires limit >= 1
  {
    forall c | 0 <= c < |log| && log[c].CreateEdge? :: Border(log, c, limit)
  }

  /** From every point between the restart point and the next delivery, going on leads to the master's state. */
  ghost predicate CatchesUp(log: seq<Op>, start: State, base: nat, pos: nat, w: State)
    requires pos <= |log|
  {
    forall i: nat | base <= i <= pos :: EndsWell(log, start, i, w)
  }

  lemma RepeatCatchesUp(log: seq<Op>, start: State, limit: nat, base: nat, pos: nat, w: State)
    requires limit >= 1 && ValidLog(log, start) && Borders(log, limit)
    requires base <= pos < |log| && pos < base + limit && CatchesUp(log, start, base, pos, w)
    ensures CatchesUp(log, start, base, pos, Apply(w, log[pos])) && CatchesUp(log, start, base, pos + 1, Apply(w, log[pos]))
  {
    forall i: nat | base <= i <= pos ensures EndsWell(log, start, i, Apply(w, log[pos])) {
      assert EndsWell(log, start, i, w);
      if log[pos].CreateEdge? {
        ValidForOneEdge(log, start, log[pos].e);
        BorderIff(log, EdgeIn(start, log[pos].e), pos, limit);
      }
      RepeatIsAbsorbed(log, start, i, pos, w);
    }
    assert EndsWell(log, start, pos, w);
    ExecFirst(log, pos, |log|, w);
  }

  lemma CatchesUpWithin(log: seq<Op>, start: State, base: nat, pos: nat, base': nat, pos': nat, w: State)
    requires base <= base' && pos' <= pos <= |log| && CatchesUp(log, start, base, pos, w)
    ensures CatchesUp(log, start, base', pos', w)
  {
  }

  lemma EventCatchesUp(log: seq<Op>, start: State, limit: nat, v: View<Op>, w: State, e: Event<Op>)
    requires limit >= 1 && ValidLog(log, start) && Borders(log, limit)
    requires v.Ok(limit) && v.log <= log && Enabled(limit, v, e) && CatchesUp(log, start, v.base, v.pos, w)
    ensures var v' := After(v, e);
      v'.pos <= |log| && CatchesUp(log, start, v'.base, v'.pos, if e.ReachesWorker() then Apply(w, v.log[v.pos]) else w)
  {
    if e.ReachesWorker() {
      assert v.log[v.pos] == log[v.pos];
      RepeatCatchesUp(log, start, limit, v.base, v.pos, w);
    } else {
      CatchesUpWithin(log, start, v.base, v.pos, After(v, e).base, After(v, e).pos, w);
    }
  }

  /** Through every run the worker can catch up from every point to which a restart could fall back, then or later. */
  lemma {:induction false} WorkerCatchesUp(log: seq<Op>, start: State, limit: nat, events: seq<Event<Op>>)
    requires limit >= 1 && Possible(limit, View([], 0, 0, 0), events) && Run(View([], 0, 0, 0), events).log <= log
    requires ValidLog(log, start) && Borders(log, limit)
    ensures var v := Run(View([], 0, 0, 0), events);
      v.Ok(limit) && CatchesUp(log, start, v.base, v.pos, Worker(start, events))
  {
    RunKeepsOk(limit, events);
    if events != [] {
      var init, last := events[..|events| - 1], events[|events| - 1];
      RunKeepsOk(limit, init);
      WorkerCatchesUp(log, start, limit, init);
      EventCatchesUp(log, start, limit, Run(View([], 0, 0, 0), init), Worker(start, init), last);
    }
  }

  // ── Operations that stop half way ─────────────────────────────────────────

  /** No self-loop is created on a vertex within the limit after a hard delete of it. */
  predicate NoLateLoop(log: seq<Op>, limit: nat) {
    forall k, j | 0 <= k < j < |log| && j < k + limit && log[k].DeleteVertex? && log[k].hard && log[j].CreateEdge? ::
      !Created(log[j]).LoopAt(log[k].v)
  }

  ghost predicate EdgeFreed(log: seq<Op>, from: nat, to: nat, e: nat) {
    exists j :: from <= j < to && j < |log| && log[j] == DeleteEdge(e, true)
  }

  /** Vertices hard-deleted between the restart point and `pos` have no loop left. */
  ghost predicate Past(log: seq<Op>, base: nat, pos: nat, s: State) {
    forall k, e | base <= k < pos && k < |log| && log[k].DeleteVertex? && log[k].hard && e in s.edges ::
      !s.edges[e].LoopAt(log[k].v)
  }

  /** A self-loop is hard-deleted before any coming hard delete of its vertex. */
  ghost predicate Ahead(log: seq<Op>, pos: nat, s: State) {
    forall k, e | pos <= k < |log| && log[k].DeleteVertex? && log[k].hard && e in s.edges && s.edges[e].LoopAt(log[k].v) ::
      EdgeFreed(log, pos, k, e)
  }

  ghost predicate Good(log: seq<Op>, base: nat, pos: nat, s: State) {
    base <= pos && Past(log, base, pos, s) && Ahead(log, pos, s)
  }

  lemma GoodDoesNotAbort(log: seq<Op>, base: nat, pos: nat, s: State)
    requires pos < |log| && Good(log, base, pos, s)
    ensures !Aborts(s, log[pos])
  {
  }

  /** Moving the restart point on, or going back as far as it, keeps a state good. */
  lemma GoodWithin(log: seq<Op>, base: nat, pos: nat, base': nat, pos': nat, s: State)
    requires Good(log, base, pos, s) && base <= base' <= pos' <= pos <= |log|
    ensures Good(log, base', pos', s)
  {
    forall k, e | pos' <= k < |log| && log[k].DeleteVertex? && log[k].hard && e in s.edges && s.edges[e].LoopAt(log[k].v)
      ensures EdgeFreed(log, pos', k, e)
    {
      if k >= pos {
        assert EdgeFreed(log, pos, k, e);
        var j :| pos <= j < k && log[j] == DeleteEdge(e, true);
      }
    }
  }

  /** The master loses a self-loop by a hard delete of the edge or of its vertex. */
  lemma {:induction false} LoopLost(log: seq<Op>, start: State, i: nat, k: nat, e: nat, v: nat)
    requires i <= k <= |log| && e in Exec(log, 0, i, start).edges && Exec(log, 0, i, start).edges[e].LoopAt(v)
    requires e in Exec(log, 0, k, start).edges ==> !Exec(log, 0, k, start).edges[e].LoopAt(v)
    ensures EdgeFreed(log, i, k, e) || exists j :: i <= j < k && log[j] == DeleteVertex(v, true)
    decreases k - i
  {
    assert i < k;
    var s := Exec(log, 0, i, start);
    assert Exec(log, 0, i + 1, start) == Apply(s, log[i]);
    EdgeOfApply(s, log[i], e);
    if EdgeIn(Apply(s, log[i]), e).Some? {
      LoopLost(log, start, i + 1, k, e, v);
      if EdgeFreed(log, i + 1, k, e) {
        var j :| i + 1 <= j < k && log[j] == DeleteEdge(e, true);
      }
    }
  }

  /** A self-loop of the master is deleted on its own before its vertex is hard-deleted. */
  lemma {:induction false} LoopFreed(log: seq<Op>, start: State, i: nat, k: nat, e: nat)
    requires ValidLog(log, start) && i <= k < |log| && log[k].DeleteVertex? && log[k].hard
    requires e in Exec(log, 0, i, start).edges && Exec(log, 0, i, start).edges[e].LoopAt(log[k].v)
    ensures EdgeFreed(log, i, k, e)
    decreases k
  {
    assert Accepted(Exec(log, 0, k, start), log[k]);
    LoopLost(log, start, i, k, e, log[k].v);
    if !EdgeFreed(log, i, k, e) {
      var j :| i <= j < k && log[j] == DeleteVertex(log[k].v, true);
      LoopFreed(log, start, i, j, e);
    }
  }

  lemma StartIsGood(log: seq<Op>, start: State)
    requires ValidLog(log, start)
    ensures Good(log, 0, 0, start)
  {
    forall k, e | 0 <= k < |log| && log[k].DeleteVertex? && log[k].hard && e in start.edges && start.edges[e].LoopAt(log[k].v)
      ensures EdgeFreed(log, 0, k, e)
    {
      assert Exec(log, 0, 0, start) == start;
      LoopFreed(log, start, 0, k, e);
    }
  }

  lemma StepKeepsPast(log: seq<Op>, limit: nat, base: nat, pos: nat, s: State)
    requires NoLateLoop(log, limit) && pos < |log| && pos < base + limit && Past(log, base, pos, s)
    ensures Past(log, base, pos + 1, Apply(s, log[pos]))
  {
  }

  lemma StepKeepsAhead(log: seq<Op>, start: State, pos: nat, s: State)
    requires ValidLog(log, start) && pos < |log| && Ahead(log, pos, s)
    ensures Ahead(log, pos + 1, Apply(s, log[pos]))
  {
    var s' := Apply(s, log[pos]);
    forall k, e | pos + 1 <= k < |log| && log[k].DeleteVertex? && log[k].hard && e in s'.edges && s'.edges[e].LoopAt(log[k].v)
      ensures EdgeFreed(log, pos + 1, k, e)
    {
      if e in s.edges {
        StillFreed(log, pos, s, k, e);
      } else {
        NewLoopFreed(log, start, pos, s, k, e);
      }
    }
  }

  lemma StillFreed(log: seq<Op>, pos: nat, s: State, k: nat, e: nat)
    requires pos < k < |log| && log[k].DeleteVertex? && log[k].hard && Ahead(log, pos, s)
    requires e in s.edges && e in Apply(s, log[pos]).edges && Apply(s, log[pos]).edges[e].LoopAt(log[k].v)
    ensures EdgeFreed(log, pos + 1, k, e)
  {
    assert EdgeFreed(log, pos, k, e);
    var j :| pos <= j < k && log[j] == DeleteEdge(e, true);
    assert j > pos;
  }

  lemma NewLoopFreed(log: seq<Op>, start: State, pos: nat, s: State, k: nat, e: nat)
    requires ValidLog(log, start) && pos < k < |log| && log[k].DeleteVertex? && log[k].hard
    requires e !in s.edges && e in Apply(s, log[pos]).edges && Apply(s, log[pos]).edges[e].LoopAt(log[k].v)
    ensures EdgeFreed(log, pos + 1, k, e)
  {
    assert Accepted(Exec(log, 0, pos, start), log[pos]);
    assert Exec(log, 0, pos + 1, start) == Apply(Exec(log, 0, pos, start), log[pos]);
    LoopFreed(log, start, pos + 1, k, e);
  }

  lemma GoodStep(log: seq<Op>, start: State, limit: nat, base: nat, pos: nat, s: State)
    requires ValidLog(log, start) && NoLateLoop(log, limit)
    requires pos < |log| && pos < base + limit && Good(log, base, pos, s)
    ensures Good(log, base, pos + 1, Apply(s, log[pos]))
  {
    StepKeepsPast(log, limit, base, pos, s);
    StepKeepsAhead(log, start, pos, s);
  }

  lemma EventKeepsGood(log: seq<Op>, start: State, limit: nat, v: View<Op>, w: State, e: Event<Op>)
    requires ValidLog(log, start) && NoLateLoop(log, limit)
    requires v.Ok(limit) && v.log <= log && Enabled(limit, v, e) && Good(log, v.base, v.pos, w)
    ensures e.ReachesWorker() ==> !Aborts(w, v.log[v.pos])
    ensures Good(log, After(v, e).base, After(v, e).pos, if e.ReachesWorker() then Apply(w, v.log[v.pos]) else w)
  {
    if e.ReachesWorker() {
      assert v.log[v.pos] == log[v.pos];
      GoodDoesNotAbort(log, v.base, v.pos, w);
      GoodStep(log, start, limit, v.base, v.pos, w);
      GoodWithin(log, v.base, v.pos + 1, v.base, v.pos, Apply(w, log[v.pos]));
    } else {
      GoodWithin(log, v.base, v.pos, After(v, e).base, After(v, e).pos, w);
    }
  }

  lemma {:induction false} WorkerIsGood(log: seq<Op>, start: State, limit: nat, events: seq<Event<Op>>)
    requires Possible(limit, View([], 0, 0, 0), events) && Run(View([], 0, 0, 0), events).log <= log
    requires ValidLog(log, start) && NoLateLoop(log, limit)
    ensures var v := Run(View([], 0, 0, 0), events);
      v.Ok(limit) && Good(log, v.base, v.pos, Worker(start, events)) && NeverAborted(start, events)
  {
    RunKeepsOk(limit, events);
    if events == [] {
      StartIsGood(log, start);
    } else {
      var init, last := events[..|events| - 1], events[|events| - 1];
      RunKeepsOk(limit, init);
      WorkerIsGood(log, start, limit, init);
      EventKeepsGood(log, start, limit, Run(View([], 0, 0, 0), init), Worker(start, init), last);
    }
  }

  // ── Drained queues ────────────────────────────────────────────────────────

  /** A possible run that leaves nothing to deliver. */
  ghost predicate Drains(limit: nat, events: seq<Event<Op>>, log: seq<Op>) {
    Possible(limit, View([], 0, 0, 0), events) && var v := Run(View([], 0, 0, 0), events); v.log == log && v.pos == |log|
  }

  /** The worker has the master's vertices and edges, and no operation stopped half way. */
  ghost predicate Arrived(log: seq<Op>, start: State, events: seq<Event<Op>>) {
    Worker(start, events) == Exec(log, 0, |log|, start) && NeverAborted(start, events)
  }

  /** Whatever enqueues, lost answers, deliveries, file removals and restarts happened, once the queue is drained the
    * worker has arrived, for all logs that are within the limit's borders.
    */
  lemma DrainedWorkerEqualsMaster(log: seq<Op>, start: State, limit: nat, events: seq<Event<Op>>)
    requires limit >= 1 && Drains(limit, events, log)
    requires ValidLog(log, start) && NoLateLoop(log, limit) && Borders(log, limit)
    ensures Arrived(log, start, events)
  {
    WorkerCatchesUp(log, start, limit, events);
    WorkerIsGood(log, start, limit, events);
    assert EndsWell(log, start, |log|, Worker(start, events));
  }

  // ── Following one run ─────────────────────────────────────────────────────

  /** The run `events` leads here; `broken` if an operation is known to have stopped half way. */
  ghost predicate At(start: State, events: seq<Event<Op>>, log: seq<Op>, base: nat, pos: nat, w: State, broken: bool) {
    && Worker(start, events) == w
    && (broken ==> !NeverAborted(start, events))
    && var v := Run(View([], 0, 0, 0), events); v.log == log && v.base == base && v.pos == pos
  }

  lemma AtEnqueue(start: State, events: seq<Event<Op>>, log: seq<Op>, base: nat, pos: nat, w: State, broken: bool, op: Op)
    requires At(start, events, log, base, pos, w, broken)
    ensures At(start, events + [Enqueue(op)], log + [op], base, pos, w, broken)
  {
    assert (events + [Enqueue(op)])[..|events|] == events;
  }

  lemma AtDeliver(start: State, events: seq<Event<Op>>, log: seq<Op>, base: nat, pos: nat, w: State, broken: bool)
    requires At(start, events, log, base, pos, w, broken) && pos < |log|
    ensures At(start, events + [Deliver], log, base, pos + 1, Apply(w, log[pos]), broken || Aborts(w, log[pos]))
  {
    assert (events + [Deliver])[..|events|] == events;
  }

  lemma AtTrim(start: State, events: seq<Event<Op>>, log: seq<Op>, base: nat, pos: nat, w: State, broken: bool, point: nat)
    requires At(start, events, log, base, pos, w, broken)
    ensures At(start, events + [Trim(point)], log, point, pos, w, broken)
  {
    assert (events + [Trim(point)])[..|events|] == events;
  }

  lemma AtRestart(start: State, events: seq<Event<Op>>, log: seq<Op>, base: nat, pos: nat, w: State, broken: bool)
    requires At(start, events, log, base, pos, w, broken)
    ensures At(start, events + [Restart], log, base, base, w, broken)
  {
    assert (events + [Restart])[..|events|] == events;
  }
}
