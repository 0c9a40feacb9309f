/** The `traverse` step of the query engine: neuron-style spreading activation.
  *
  * The code is a FIFO relaxation loop that re-inserts a vertex whenever its score improves.
  * Its specification is a maximum over walks: a vertex ends with the best product of
  * decay and edge strength over all walks from a seed that are short enough and that
  * stay active at every hop. Scores are non-negative reals.
  */
module SpreadingActivation {
  import opened Options
  import opened ScoreRanking

  /** One adjacency entry: an edge id and the vertex at its far end. */
  datatype Arc = Arc(edge: nat, far: nat)

  /** The adjacency index and the edge strengths as the query sees them. */
  datatype Graph = Graph(forward: map<nat, seq<Arc>>, backward: map<nat, seq<Arc>>, strengths: map<nat, real>)
  {
    function OutEdges(v: nat): seq<Arc> {
      if v in forward then forward[v] else []
    }

    function InEdges(v: nat): seq<Arc> {
      if v in backward then backward[v] else []
    }

    function Edges(v: nat, outgoing: bool): seq<Arc> {
      if outgoing then OutEdges(v) else InEdges(v)
    }

    /** An edge whose payload cannot be read counts with strength 1. */
    function Strength(edge: nat): real {
      if edge in strengths then strengths[edge] else 1.0
    }

    ghost predicate NonNegative() {
      forall e | e in strengths :: strengths[e] >= 0.0
    }
  }

  datatype Params = Params(decay: real, activate: real, maxDepth: nat, minScore: real)

  // ── Specification: walks and their scores ─────────────────────────────────

  /** A walk from a seed; each hop crosses an edge in either direction. */
  datatype Walk = Start(seed: nat) | Hop(prev: Walk, arc: Arc, outgoing: bool)
  {
    function End(): nat {
      match this
      case Start(v) => v
      case Hop(_, a, _) => a.far
    }

    function Hops(): nat {
      match this
      case Start(_) => 0
      case Hop(w, _, _) => w.Hops() + 1
    }
  }

  function Spread(g: Graph, p: Params, score: real, edge: nat): real {
    score * p.decay * g.Strength(edge)
  }

  function Score(g: Graph, p: Params, w: Walk): real {
    match w
    case Start(_) => 1.0
    case Hop(prev, arc, _) => Spread(g, p, Score(g, p, prev), arc.edge)
  }

  /** The walk starts at a seed, follows edges of the graph, and no hop falls below `activate`. */
  ghost predicate Active(g: Graph, p: Params, seeds: seq<nat>, w: Walk) {
    match w
    case Start(v) => v in seeds
    case Hop(prev, arc, outgoing) =>
      && Active(g, p, seeds, prev)
      && arc in g.Edges(prev.End(), outgoing)
      && Score(g, p, w) >= p.activate
  }

  ghost predicate WalkTo(g: Graph, p: Params, seeds: seq<nat>, w: Walk, v: nat) {
    Active(g, p, seeds, w) && w.Hops() <= p.maxDepth && w.End() == v
  }

  /** `best` is the maximum score over the walks to `v`, and 0 if there is none with a positive score. */
  ghost predicate IsBest(g: Graph, p: Params, seeds: seq<nat>, v: nat, best: real) {
    && best >= 0.0
    && (forall w :: WalkTo(g, p, seeds, w, v) ==> Score(g, p, w) <= best)
    && (best > 0.0 ==> exists w :: WalkTo(g, p, seeds, w, v) && Score(g, p, w) == best)
  }

  /** An edge is crossed when an active walk that still has depth left can take it and stay active. */
  ghost predicate Crossable(g: Graph, p: Params, seeds: seq<nat>, e: Crossing) {
    exists w, arc, outgoing ::
      && Active(g, p, seeds, w) && w.Hops() < p.maxDepth && Score(g, p, w) > 0.0
      && arc in g.Edges(w.End(), outgoing)
      && Spread(g, p, Score(g, p, w), arc.edge) >= p.activate
      && e == CrossingOf(w.End(), arc, outgoing)
  }

  lemma BestIsUnique(g: Graph, p: Params, seeds: seq<nat>, v: nat, a: real, b: real)
    requires IsBest(g, p, seeds, v, a) && IsBest(g, p, seeds, v, b)
    ensures a == b
  {
  }

  // ── The loop's local state ────────────────────────────────────────────────

  datatype Entry = Entry(v: nat, score: real, depth: nat)

  /** (source, target, edge id) of an edge crossed by the search. */
  datatype Crossing = Crossing(source: nat, target: nat, edge: nat)

  function CrossingOf(cur: nat, arc: Arc, outgoing: bool): Crossing {
    if outgoing then Crossing(cur, arc.far, arc.edge) else Crossing(arc.far, cur, arc.edge)
  }

  datatype State = State(
    visited: map<nat, real>,
    results: seq<Scored>,
    frontier: seq<Entry>,
    crossed: seq<Crossing>,
    outCache: map<nat, seq<Arc>>,
    inCache: map<nat, seq<Arc>>)

  function ScoreAt(visited: map<nat, real>, v: nat): real {
    if v in visited then visited[v] else 0.0
  }

  function Cached(cache: map<nat, seq<Arc>>, v: nat): seq<Arc> {
    if v in cache then cache[v] else []
  }

  /** Copy the adjacency of `v` out of the index; empty lists are not stored. */
  function Collect(g: Graph, v: nat, st: State): State {
    st.(outCache := if g.OutEdges(v) != [] then st.outCache[v := g.OutEdges(v)] else st.outCache,
        inCache := if g.InEdges(v) != [] then st.inCache[v := g.InEdges(v)] else st.inCache)
  }

  /** Spread the popped entry `cur` over one adjacency entry. */
  function Relax(g: Graph, p: Params, st: State, cur: Entry, arc: Arc, outgoing: bool): State {
    var score := Spread(g, p, cur.score, arc.edge);
    if score < p.activate then
      st
    else
      var prev := ScoreAt(st.visited, arc.far);
      var st := st.(crossed := st.crossed + [CrossingOf(cur.v, arc, outgoing)],
                    visited := st.visited[arc.far := prev]);
      if score <= prev then
        st
      else
        var st := st.(visited := st.visited[arc.far := score],
                      results := if score >= p.minScore then st.results + [(arc.far, score)] else st.results,
                      frontier := st.frontier + [Entry(arc.far, score, cur.depth + 1)]);
        if arc.far !in st.outCache then Collect(g, arc.far, st) else st
  }

  function Fold<S>(step: (S, nat) -> S, s: S, k: nat): S {
    if k == 0 then s else step(Fold(step, s, k - 1), k - 1)
  }

  function Relaxing(g: Graph, p: Params, cur: Entry, arcs: seq<Arc>, outgoing: bool): (State, nat) -> State {
    (st: State, i: nat) => if i < |arcs| then Relax(g, p, st, cur, arcs[i], outgoing) else st
  }

  /** Spread `cur` over one of its two cached adjacency lists. */
  function Spreading(g: Graph, p: Params, st: State, cur: Entry, outgoing: bool): State {
    var arcs := Cached(if outgoing then st.outCache else st.inCache, cur.v);
    Fold(Relaxing(g, p, cur, arcs, outgoing), st, |arcs|)
  }

  /** One turn of the loop on the queue entry `idx`: first the outgoing edges, then the incoming ones. */
  function AfterTurn(g: Graph, p: Params, st: State, idx: nat): State
    requires idx < |st.frontier|
  {
    var cur := st.frontier[idx];
    if cur.depth >= p.maxDepth then st else Spreading(g, p, Spreading(g, p, st, cur, true), cur, false)
  }

  function Seeded(g: Graph, st: State, v: nat): State {
    Collect(g, v, st.(visited := st.visited[v := 1.0],
                      results := st.results + [(v, 1.0)],
                      frontier := st.frontier + [Entry(v, 1.0, 0)]))
  }

  function AfterSeeds(g: Graph, seeds: seq<nat>): State {
    if seeds == [] then State(map[], [], [], [], map[], map[])
    else Seeded(g, AfterSeeds(g, seeds[..|seeds| - 1]), seeds[|seeds| - 1])
  }

  /** The states of the loop up to queue index `idx`. */
  ghost predicate Steps(g: Graph, p: Params, seeds: seq<nat>, run: seq<State>, idx: nat) {
    && |run| == idx + 1 && run[0] == AfterSeeds(g, seeds)
    && forall i | 0 <= i < idx :: i < |run[i].frontier| && run[i + 1] == AfterTurn(g, p, run[i], i)
  }

  /** The states of the whole loop, which ends when the queue is exhausted. */
  ghost predicate IsRun(g: Graph, p: Params, seeds: seq<nat>, run: seq<State>) {
    |run| > 0 && Steps(g, p, seeds, run, |run| - 1) && |run[|run| - 1].frontier| == |run| - 1
  }

  // ── Invariants of the loop ────────────────────────────────────────────────

  /** The local adjacency copies agree with the index wherever the search will look. */
  ghost predicate CacheInv(g: Graph, st: State) {
    && (forall v | v in st.outCache :: st.outCache[v] == g.OutEdges(v) && Cached(st.inCache, v) == g.InEdges(v))
    && (forall v | v in st.inCache :: st.inCache[v] == g.InEdges(v))
    && (forall e | e in st.frontier :: Cached(st.outCache, e.v) == g.OutEdges(e.v) && Cached(st.inCache, e.v) == g.InEdges(e.v))
  }

  ghost predicate WalkOf(g: Graph, p: Params, seeds: seq<nat>, e: Entry, w: Walk) {
    Active(g, p, seeds, w) && w.Hops() == e.depth && w.End() == e.v && Score(g, p, w) == e.score
  }

  ghost predicate EntryInv(g: Graph, p: Params, seeds: seq<nat>, e: Entry) {
    e.score > 0.0 && e.depth <= p.maxDepth && exists w :: WalkOf(g, p, seeds, e, w)
  }

  ghost predicate ScoreInv(g: Graph, p: Params, seeds: seq<nat>, st: State) {
    && (forall e | e in st.frontier :: EntryInv(g, p, seeds, e))
    && (forall e | e in st.frontier :: e.score <= ScoreAt(st.visited, e.v))
    && (forall v | v in st.visited :: st.visited[v] >= 0.0 && (st.visited[v] > 0.0 ==> Attained(st, v)))
    && (forall v | v in seeds :: Entry(v, 1.0, 0) in st.frontier)
  }

  /** Some queue entry carries the recorded score of `v`. */
  ghost predicate Attained(st: State, v: nat) {
    exists e :: e in st.frontier && e.v == v && e.score == ScoreAt(st.visited, v)
  }

  ghost predicate ResultInv(p: Params, seeds: seq<nat>, st: State) {
    && (forall r | r in st.results :: 0.0 < r.1 <= ScoreAt(st.visited, r.0))
    && (forall r | r in st.results :: r.1 >= p.minScore || (r.0 in seeds && r.1 == 1.0))
    && (forall v | v in seeds :: (v, 1.0) in st.results)
    && (forall v | v in st.visited && st.visited[v] > 0.0 && st.visited[v] >= p.minScore :: (v, st.visited[v]) in st.results)
  }

  ghost predicate Inv(g: Graph, p: Params, seeds: seq<nat>, st: State) {
    CacheInv(g, st) && ScoreInv(g, p, seeds, st) && ResultInv(p, seeds, st) && CrossedInv(g, p, seeds, st)
    && Recorded(g, p, seeds, st.results)
  }

  /** A score that the search records for a vertex it comes to: it belongs to an active walk and reaches the minimum. */
  ghost predicate Recordable(g: Graph, p: Params, seeds: seq<nat>, r: Scored) {
    r.1 > 0.0 && r.1 >= p.minScore && exists w :: WalkTo(g, p, seeds, w, r.0) && w.Hop? && Score(g, p, w) == r.1
  }

  /** What the list of results holds: the seeds with score 1, then recorded scores that rise for every vertex. */
  ghost predicate Recorded(g: Graph, p: Params, seeds: seq<nat>, results: seq<Scored>) {
    && StartsWithSeeds(results, seeds)
    && (forall i | |seeds| <= i < |results| :: Recordable(g, p, seeds, results[i]))
    && Rising(results, |seeds|)
  }

  ghost predicate CrossedInv(g: Graph, p: Params, seeds: seq<nat>, st: State) {
    forall c | c in st.crossed :: Crossable(g, p, seeds, c)
  }

  /** What spreading `e` over `arc` must have left behind, now and for the rest of the run. */
  ghost predicate Spreaded(g: Graph, p: Params, st: State, e: Entry, arc: Arc, outgoing: bool) {
    var score := Spread(g, p, e.score, arc.edge);
    score >= p.activate ==>
      && CrossingOf(e.v, arc, outgoing) in st.crossed
      && (score > 0.0 ==> Covered(st, arc.far, score, e.depth + 1))
  }

  ghost predicate Covers(st: State, f: Entry, v: nat, score: real, depth: nat) {
    f in st.frontier && f.v == v && f.score >= score && f.depth <= depth
  }

  ghost predicate Covered(st: State, v: nat, score: real, depth: nat) {
    exists f :: Covers(st, f, v, score, depth)
  }

  ghost predicate Processed(g: Graph, p: Params, st: State, e: Entry) {
    e.depth < p.maxDepth ==>
      forall arc, outgoing | arc in g.Edges(e.v, outgoing) :: Spreaded(g, p, st, e, arc, outgoing)
  }

  /** `later` extends `st`: nothing recorded is lost. */
  ghost predicate Extends(st: State, later: State) {
    && st.frontier <= later.frontier
    && (forall c | c in st.crossed :: c in later.crossed)
  }

  /** The queue order: entries before `levelEnd` have depth at most `depth`, the rest one more. */
  ghost predicate Layered(p: Params, st: State, idx: nat, depth: nat, levelEnd: nat) {
    && idx <= levelEnd <= |st.frontier|
    && depth <= p.maxDepth
    && (forall i | 0 <= i < levelEnd :: st.frontier[i].depth <= depth)
    && (forall i | idx <= i < levelEnd :: st.frontier[i].depth == depth)
    && (forall i | levelEnd <= i < |st.frontier| :: st.frontier[i].depth == depth + 1 <= p.maxDepth)
  }

  // ── One relaxation keeps the invariants ───────────────────────────────────

  /** The outcome of a relaxation that improved its far end. */
  ghost predicate Pushed(p: Params, st: State, st': State, e: Entry, c: Crossing) {
    && e.score > ScoreAt(st.visited, e.v)
    && st'.visited == st.visited[e.v := e.score]
    && st'.frontier == st.frontier + [e]
    && st'.results == (if e.score >= p.minScore then st.results + [(e.v, e.score)] else st.results)
    && st'.crossed == st.crossed + [c]
  }

  /** The outcome of a relaxation whose far end already had a score at least as good. */
  ghost predicate Kept(st: State, st': State, v: nat, c: Crossing) {
    && st'.visited == st.visited[v := ScoreAt(st.visited, v)]
    && st'.frontier == st.frontier
    && st'.results == st.results
    && st'.crossed == st.crossed + [c]
  }

  lemma RelaxOutcome(g: Graph, p: Params, st: State, cur: Entry, arc: Arc, outgoing: bool)
    ensures var st' := Relax(g, p, st, cur, arc, outgoing);
            var score := Spread(g, p, cur.score, arc.edge);
            var c := CrossingOf(cur.v, arc, outgoing);
            if score < p.activate then st' == st
            else if score > ScoreAt(st.visited, arc.far) then Pushed(p, st, st', Entry(arc.far, score, cur.depth + 1), c)
            else Kept(st, st', arc.far, c)
  {
  }

  lemma CollectKeepsCache(g: Graph, v: nat, st: State)
    requires CacheInv(g, st)
    ensures CacheInv(g, Collect(g, v, st))
    ensures var st' := Collect(g, v, st);
      Cached(st'.outCache, v) == g.OutEdges(v) && Cached(st'.inCache, v) == g.InEdges(v)
  {
  }

  /** The queue may take in any vertex whose adjacency is already copied. */
  lemma PushKeepsCache(g: Graph, st: State, st': State, e: Entry)
    requires CacheInv(g, st)
    requires st'.frontier == st.frontier + [e] || st'.frontier == st.frontier
    requires st'.outCache == st.outCache && st'.inCache == st.inCache
    requires Cached(st.outCache, e.v) == g.OutEdges(e.v) && Cached(st.inCache, e.v) == g.InEdges(e.v)
    ensures CacheInv(g, st')
  {
  }

  lemma RelaxKeepsCache(g: Graph, p: Params, st: State, cur: Entry, arc: Arc, outgoing: bool)
    requires CacheInv(g, st)
    ensures CacheInv(g, Relax(g, p, st, cur, arc, outgoing))
  {
    var score := Spread(g, p, cur.score, arc.edge);
    if score >= p.activate && score > ScoreAt(st.visited, arc.far) {
      var collected := if arc.far !in st.outCache then Collect(g, arc.far, st) else st;
      CollectKeepsCache(g, arc.far, st);
      PushKeepsCache(g, collected, Relax(g, p, st, cur, arc, outgoing), Entry(arc.far, score, cur.depth + 1));
    }
  }

  lemma PushKeepsScores(g: Graph, p: Params, seeds: seq<nat>, st: State, st': State, e: Entry, c: Crossing)
    requires ScoreInv(g, p, seeds, st) && EntryInv(g, p, seeds, e) && Pushed(p, st, st', e, c)
    ensures ScoreInv(g, p, seeds, st')
  {
    assert e in st'.frontier;
    forall v | v in st'.visited && st'.visited[v] > 0.0 ensures Attained(st', v) {
      if v != e.v {
        var f :| f in st.frontier && f.v == v && f.score == ScoreAt(st.visited, v);
        assert f in st'.frontier;
      }
    }
  }

  lemma KeepKeepsScores(g: Graph, p: Params, seeds: seq<nat>, st: State, st': State, v: nat, c: Crossing)
    requires ScoreInv(g, p, seeds, st) && Kept(st, st', v, c)
    ensures ScoreInv(g, p, seeds, st')
  {
    forall u | u in st'.visited && st'.visited[u] > 0.0 ensures Attained(st', u) {
      assert Attained(st, u);
    }
  }

  lemma PushKeepsResults(p: Params, seeds: seq<nat>, st: State, st': State, e: Entry, c: Crossing)
    requires ResultInv(p, seeds, st) && Pushed(p, st, st', e, c) && e.score > 0.0
    ensures ResultInv(p, seeds, st')
  {
    if e.score >= p.minScore {
      assert (e.v, e.score) in st'.results;
    }
  }

  lemma PushKeepsRecord(g: Graph, p: Params, seeds: seq<nat>, st: State, st': State, e: Entry, c: Crossing)
    requires Recorded(g, p, seeds, st.results) && ResultInv(p, seeds, st) && Pushed(p, st, st', e, c)
    requires EntryInv(g, p, seeds, e) && e.depth > 0
    ensures Recorded(g, p, seeds, st'.results)
  {
    if e.score >= p.minScore {
      var w :| WalkOf(g, p, seeds, e, w);
      assert WalkTo(g, p, seeds, w, e.v) && w.Hop?;
      assert Recordable(g, p, seeds, (e.v, e.score));
      forall i | 0 <= i < |st.results| && st.results[i].0 == e.v ensures st.results[i].1 < e.score {
        assert st.results[i] in st.results;
      }
    }
  }

  lemma RelaxKeepsRecord(g: Graph, p: Params, seeds: seq<nat>, st: State, cur: Entry, arc: Arc, outgoing: bool)
    requires Recorded(g, p, seeds, st.results) && ResultInv(p, seeds, st) && ScoreInv(g, p, seeds, st)
    requires cur in st.frontier && cur.depth < p.maxDepth
    requires arc in g.Edges(cur.v, outgoing)
    ensures Recorded(g, p, seeds, Relax(g, p, st, cur, arc, outgoing).results)
  {
    var score := Spread(g, p, cur.score, arc.edge);
    RelaxOutcome(g, p, st, cur, arc, outgoing);
    if score >= p.activate && score > ScoreAt(st.visited, arc.far) {
      PushedEntry(g, p, seeds, cur, arc, outgoing);
      PushKeepsRecord(g, p, seeds, st, Relax(g, p, st, cur, arc, outgoing), Entry(arc.far, score, cur.depth + 1),
                      CrossingOf(cur.v, arc, outgoing));
    }
  }

  /** The entry pushed by a relaxation stands for a real walk: the old one and one hop more. */
  lemma PushedEntry(g: Graph, p: Params, seeds: seq<nat>, cur: Entry, arc: Arc, outgoing: bool)
    requires EntryInv(g, p, seeds, cur) && cur.depth < p.maxDepth
    requires arc in g.Edges(cur.v, outgoing)
    ensures var score := Spread(g, p, cur.score, arc.edge);
      score >= p.activate && score > 0.0 ==> EntryInv(g, p, seeds, Entry(arc.far, score, cur.depth + 1))
  {
    var score := Spread(g, p, cur.score, arc.edge);
    if score >= p.activate && score > 0.0 {
      var w :| WalkOf(g, p, seeds, cur, w);
      assert WalkOf(g, p, seeds, Entry(arc.far, score, cur.depth + 1), Hop(w, arc, outgoing));
    }
  }

  lemma EntryCrosses(g: Graph, p: Params, seeds: seq<nat>, cur: Entry, arc: Arc, outgoing: bool)
    requires EntryInv(g, p, seeds, cur) && cur.depth < p.maxDepth
    requires arc in g.Edges(cur.v, outgoing)
    requires Spread(g, p, cur.score, arc.edge) >= p.activate
    ensures Crossable(g, p, seeds, CrossingOf(cur.v, arc, outgoing))
  {
    var w :| WalkOf(g, p, seeds, cur, w);
    assert arc in g.Edges(w.End(), outgoing);
  }

  lemma RelaxKeepsScores(g: Graph, p: Params, seeds: seq<nat>, st: State, cur: Entry, arc: Arc, outgoing: bool)
    requires ScoreInv(g, p, seeds, st) && ResultInv(p, seeds, st)
    requires cur in st.frontier && cur.depth < p.maxDepth
    requires arc in g.Edges(cur.v, outgoing)
    ensures ScoreInv(g, p, seeds, Relax(g, p, st, cur, arc, outgoing))
    ensures ResultInv(p, seeds, Relax(g, p, st, cur, arc, outgoing))
  {
    var st' := Relax(g, p, st, cur, arc, outgoing);
    var score := Spread(g, p, cur.score, arc.edge);
    var c := CrossingOf(cur.v, arc, outgoing);
    var e := Entry(arc.far, score, cur.depth + 1);
    RelaxOutcome(g, p, st, cur, arc, outgoing);
    if score < p.activate {
    } else if score > ScoreAt(st.visited, arc.far) {
      PushedEntry(g, p, seeds, cur, arc, outgoing);
      PushKeepsScores(g, p, seeds, st, st', e, c);
      PushKeepsResults(p, seeds, st, st', e, c);
    } else {
      KeepKeepsScores(g, p, seeds, st, st', arc.far, c);
    }
  }

  lemma RelaxKeepsCrossed(g: Graph, p: Params, seeds: seq<nat>, st: State, cur: Entry, arc: Arc, outgoing: bool)
    requires EntryInv(g, p, seeds, cur) && CrossedInv(g, p, seeds, st)
    requires cur.depth < p.maxDepth
    requires arc in g.Edges(cur.v, outgoing)
    ensures CrossedInv(g, p, seeds, Relax(g, p, st, cur, arc, outgoing))
    ensures Extends(st, Relax(g, p, st, cur, arc, outgoing))
  {
    RelaxOutcome(g, p, st, cur, arc, outgoing);
    if Spread(g, p, cur.score, arc.edge) >= p.activate {
      EntryCrosses(g, p, seeds, cur, arc, outgoing);
    }
  }

  /** After relaxing an arc, its far end is covered: by the new entry or by an earlier, better one. */
  lemma RelaxSpreads(g: Graph, p: Params, seeds: seq<nat>, st: State, cur: Entry, arc: Arc, outgoing: bool)
    requires ScoreInv(g, p, seeds, st)
    requires forall e | e in st.frontier :: e.depth <= cur.depth + 1
    ensures Spreaded(g, p, Relax(g, p, st, cur, arc, outgoing), cur, arc, outgoing)
  {
    var st' := Relax(g, p, st, cur, arc, outgoing);
    var score := Spread(g, p, cur.score, arc.edge);
    RelaxOutcome(g, p, st, cur, arc, outgoing);
    if score >= p.activate && score > 0.0 {
      if score > ScoreAt(st.visited, arc.far) {
        assert Covers(st', Entry(arc.far, score, cur.depth + 1), arc.far, score, cur.depth + 1);
      } else {
        assert Attained(st, arc.far);
        var e :| e in st.frontier && e.v == arc.far && e.score == ScoreAt(st.visited, arc.far);
        assert Covers(st', e, arc.far, score, cur.depth + 1);
      }
    }
  }

  lemma RelaxKeepsLayers(g: Graph, p: Params, st: State, cur: Entry, arc: Arc, outgoing: bool, idx: nat, levelEnd: nat)
    requires Layered(p, st, idx, cur.depth, levelEnd) && cur.depth < p.maxDepth
    ensures Layered(p, Relax(g, p, st, cur, arc, outgoing), idx, cur.depth, levelEnd)
  {
    RelaxOutcome(g, p, st, cur, arc, outgoing);
  }

  lemma SpreadedPersists(g: Graph, p: Params, st: State, later: State, e: Entry, arc: Arc, outgoing: bool)
    requires Spreaded(g, p, st, e, arc, outgoing) && Extends(st, later)
    ensures Spreaded(g, p, later, e, arc, outgoing)
  {
    var score := Spread(g, p, e.score, arc.edge);
    if score >= p.activate && score > 0.0 {
      var f :| Covers(st, f, arc.far, score, e.depth + 1);
      assert Covers(later, f, arc.far, score, e.depth + 1);
    }
  }

  lemma ProcessedPersists(g: Graph, p: Params, st: State, later: State, e: Entry)
    requires Processed(g, p, st, e) && Extends(st, later)
    ensures Processed(g, p, later, e)
  {
    if e.depth < p.maxDepth {
      forall arc, outgoing | arc in g.Edges(e.v, outgoing) ensures Spreaded(g, p, later, e, arc, outgoing) {
        SpreadedPersists(g, p, st, later, e, arc, outgoing);
      }
    }
  }

  /** All of the above for one arc. */
  lemma RelaxKeepsInv(g: Graph, p: Params, seeds: seq<nat>, st: State, cur: Entry, arc: Arc, outgoing: bool,
                      idx: nat, levelEnd: nat)
    requires Inv(g, p, seeds, st)
    requires cur in st.frontier && cur.depth < p.maxDepth
    requires Layered(p, st, idx, cur.depth, levelEnd)
    requires arc in g.Edges(cur.v, outgoing)
    ensures var st' := Relax(g, p, st, cur, arc, outgoing);
      && Inv(g, p, seeds, st') && Extends(st, st') && Spreaded(g, p, st', cur, arc, outgoing)
      && Layered(p, st', idx, cur.depth, levelEnd)
  {
    RelaxKeepsCache(g, p, st, cur, arc, outgoing);
    RelaxKeepsScores(g, p, seeds, st, cur, arc, outgoing);
    RelaxKeepsRecord(g, p, seeds, st, cur, arc, outgoing);
    RelaxKeepsCrossed(g, p, seeds, st, cur, arc, outgoing);
    LayeredDepths(p, st, cur.depth, idx, levelEnd);
    RelaxSpreads(g, p, seeds, st, cur, arc, outgoing);
    RelaxKeepsLayers(g, p, st, cur, arc, outgoing, idx, levelEnd);
  }

  lemma LayeredDepths(p: Params, st: State, depth: nat, idx: nat, levelEnd: nat)
    requires Layered(p, st, idx, depth, levelEnd)
    ensures forall e | e in st.frontier :: e.depth <= depth + 1
  {
  }

  // ── Why a fully processed queue is the answer ─────────────────────────────

  lemma SpreadMonotone(g: Graph, p: Params, a: real, b: real, edge: nat)
    requires g.NonNegative() && p.decay >= 0.0 && a <= b
    ensures Spread(g, p, a, edge) <= Spread(g, p, b, edge)
  {
    var s := g.Strength(edge);
    assert (b - a) * p.decay >= 0.0;
    assert ((b - a) * p.decay) * s >= 0.0;
  }

  lemma SpreadPositive(g: Graph, p: Params, a: real, edge: nat)
    requires g.NonNegative() && p.decay >= 0.0 && a <= 0.0
    ensures Spread(g, p, a, edge) <= 0.0
  {
    SpreadMonotone(g, p, a, 0.0, edge);
  }

  /** Every active walk with a positive score is dominated by a queue entry at its end. */
  lemma {:induction false} WalkIsCovered(g: Graph, p: Params, seeds: seq<nat>, st: State, w: Walk) returns (f: Entry)
    requires g.NonNegative() && p.decay >= 0.0
    requires ScoreInv(g, p, seeds, st)
    requires forall e | e in st.frontier :: Processed(g, p, st, e)
    requires Active(g, p, seeds, w) && w.Hops() <= p.maxDepth && Score(g, p, w) > 0.0
    ensures Covers(st, f, w.End(), Score(g, p, w), w.Hops())
  {
    match w
    case Start(v) =>
      f := Entry(v, 1.0, 0);
    case Hop(prev, arc, outgoing) =>
      if Score(g, p, prev) <= 0.0 {
        SpreadPositive(g, p, Score(g, p, prev), arc.edge);
      }
      var e := WalkIsCovered(g, p, seeds, st, prev);
      SpreadMonotone(g, p, Score(g, p, prev), e.score, arc.edge);
      assert Processed(g, p, st, e);
      assert arc in g.Edges(e.v, outgoing);
      assert Spreaded(g, p, st, e, arc, outgoing);
      f :| Covers(st, f, arc.far, Spread(g, p, e.score, arc.edge), e.depth + 1);
  }

  lemma ProcessedIsBest(g: Graph, p: Params, seeds: seq<nat>, st: State, v: nat)
    requires g.NonNegative() && p.decay >= 0.0
    requires ScoreInv(g, p, seeds, st)
    requires forall e | e in st.frontier :: Processed(g, p, st, e)
    ensures IsBest(g, p, seeds, v, ScoreAt(st.visited, v))
  {
    forall w | WalkTo(g, p, seeds, w, v) ensures Score(g, p, w) <= ScoreAt(st.visited, v) {
      if Score(g, p, w) > 0.0 {
        var f := WalkIsCovered(g, p, seeds, st, w);
      }
    }
    if ScoreAt(st.visited, v) > 0.0 {
      assert Attained(st, v);
      var e :| e in st.frontier && e.v == v && e.score == ScoreAt(st.visited, v);
      var w :| WalkOf(g, p, seeds, e, w);
      assert WalkTo(g, p, seeds, w, v);
    }
  }

  lemma ProcessedCrossesAll(g: Graph, p: Params, seeds: seq<nat>, st: State, c: Crossing)
    requires g.NonNegative() && p.decay >= 0.0
    requires ScoreInv(g, p, seeds, st)
    requires forall e | e in st.frontier :: Processed(g, p, st, e)
    requires Crossable(g, p, seeds, c)
    ensures c in st.crossed
  {
    var w, arc, outgoing :|
      && Active(g, p, seeds, w) && w.Hops() < p.maxDepth && Score(g, p, w) > 0.0
      && arc in g.Edges(w.End(), outgoing)
      && Spread(g, p, Score(g, p, w), arc.edge) >= p.activate
      && c == CrossingOf(w.End(), arc, outgoing);
    var e := WalkIsCovered(g, p, seeds, st, w);
    SpreadMonotone(g, p, Score(g, p, w), e.score, arc.edge);
    assert Processed(g, p, st, e);
    assert arc in g.Edges(e.v, outgoing);
    assert Spreaded(g, p, st, e, arc, outgoing);
  }

  // ── The step itself ───────────────────────────────────────────────────────

  lemma EntryWithMoreSeeds(g: Graph, p: Params, fewer: seq<nat>, more: seq<nat>, e: Entry)
    requires forall v | v in fewer :: v in more
    requires EntryInv(g, p, fewer, e)
    ensures EntryInv(g, p, more, e)
  {
    var w :| WalkOf(g, p, fewer, e, w);
    ActiveWithMoreSeeds(g, p, fewer, more, w);
    assert WalkOf(g, p, more, e, w);
  }

  lemma SeedEntry(g: Graph, p: Params, seeds: seq<nat>, v: nat)
    requires v in seeds
    ensures EntryInv(g, p, seeds, Entry(v, 1.0, 0))
  {
    assert WalkOf(g, p, seeds, Entry(v, 1.0, 0), Start(v));
  }

  lemma SeededKeepsScores(g: Graph, p: Params, seeds: seq<nat>, st: State, v: nat)
    requires ScoreInv(g, p, seeds, st)
    requires forall u | u in st.visited :: st.visited[u] == 1.0
    ensures ScoreInv(g, p, seeds + [v], Seeded(g, st, v))
  {
    var st' := Seeded(g, st, v);
    var first := Entry(v, 1.0, 0);
    assert st'.frontier == st.frontier + [first];
    assert first in st'.frontier;
    SeedEntry(g, p, seeds + [v], v);
    forall e | e in st.frontier ensures EntryInv(g, p, seeds + [v], e) {
      EntryWithMoreSeeds(g, p, seeds, seeds + [v], e);
    }
    forall u | u in st'.visited ensures Attained(st', u) {
      if u != v {
        assert Attained(st, u);
        var e :| e in st.frontier && e.v == u && e.score == ScoreAt(st.visited, u);
        assert e in st'.frontier;
      }
    }
  }

  lemma SeededKeepsResults(g: Graph, p: Params, seeds: seq<nat>, st: State, v: nat)
    requires ResultInv(p, seeds, st)
    requires forall u | u in st.visited :: st.visited[u] == 1.0
    ensures ResultInv(p, seeds + [v], Seeded(g, st, v))
  {
    var st' := Seeded(g, st, v);
    assert st'.results == st.results + [(v, 1.0)];
    assert (v, 1.0) in st'.results;
  }

  lemma SeededKeepsCache(g: Graph, st: State, v: nat)
    requires CacheInv(g, st)
    ensures CacheInv(g, Seeded(g, st, v))
  {
    CollectKeepsCache(g, v, st);
    PushKeepsCache(g, Collect(g, v, st), Seeded(g, st, v), Entry(v, 1.0, 0));
  }

  function SeedItems(seeds: seq<nat>): seq<Scored> {
    seq(|seeds|, i requires 0 <= i < |seeds| => (seeds[i], 1.0))
  }

  ghost predicate SeedInv(g: Graph, p: Params, seeds: seq<nat>, st: State) {
    && CacheInv(g, st) && ScoreInv(g, p, seeds, st) && ResultInv(p, seeds, st)
    && st.crossed == [] && st.results == SeedItems(seeds)
    && (forall e | e in st.frontier :: e.depth == 0)
    && (forall v | v in st.visited :: st.visited[v] == 1.0)
  }

  lemma SeedItemsSnoc(seeds: seq<nat>, v: nat)
    ensures SeedItems(seeds + [v]) == SeedItems(seeds) + [(v, 1.0)]
  {
  }

  lemma SeededKeepsInv(g: Graph, p: Params, seeds: seq<nat>, st: State, v: nat, st': State)
    requires SeedInv(g, p, seeds, st) && st' == Seeded(g, st, v)
    ensures SeedInv(g, p, seeds + [v], st')
  {
    SeededKeepsScores(g, p, seeds, st, v);
    SeededKeepsResults(g, p, seeds, st, v);
    SeededKeepsCache(g, st, v);
    SeedItemsSnoc(seeds, v);
    assert st'.frontier == st.frontier + [Entry(v, 1.0, 0)];
  }

  lemma {:induction false} SeedsKeepInv(g: Graph, p: Params, seeds: seq<nat>)
    ensures SeedInv(g, p, seeds, AfterSeeds(g, seeds))
  {
    if seeds == [] {
      assert SeedItems(seeds) == [];
    } else {
      var init, v := seeds[..|seeds| - 1], seeds[|seeds| - 1];
      assert seeds == init + [v];
      SeedsKeepInv(g, p, init);
      SeededKeepsInv(g, p, init, AfterSeeds(g, init), v, AfterSeeds(g, seeds));
    }
  }

  /** The queue begins with the seeds, all of depth 0. */
  lemma SeedsAreLayered(g: Graph, p: Params, seeds: seq<nat>, st: State)
    requires SeedInv(g, p, seeds, st)
    ensures Inv(g, p, seeds, st) && Layered(p, st, 0, 0, |st.frontier|)
  {
  }

  /** The seeds enter with score 1 and their adjacency is copied out of the index. */
  method Begin(g: Graph, seeds: seq<nat>) returns (st: State)
    ensures st == AfterSeeds(g, seeds)
  {
    st := State(map[], [], [], [], map[], map[]);
    for i := 0 to |seeds|
      invariant st == AfterSeeds(g, seeds[..i])
    {
      assert seeds[..i + 1][..i] == seeds[..i];
      st := Seeded(g, st, seeds[i]);
    }
    assert seeds[..|seeds|] == seeds;
  }

  lemma {:induction false} ActiveWithMoreSeeds(g: Graph, p: Params, fewer: seq<nat>, more: seq<nat>, w: Walk)
    requires forall v | v in fewer :: v in more
    requires Active(g, p, fewer, w)
    ensures Active(g, p, more, w)
  {
    if w.Hop? {
      ActiveWithMoreSeeds(g, p, fewer, more, w.prev);
    }
  }

  ghost predicate SpreadedUpTo(g: Graph, p: Params, st: State, cur: Entry, arcs: seq<Arc>, i: nat, outgoing: bool) {
    forall k | 0 <= k < i && k < |arcs| :: Spreaded(g, p, st, cur, arcs[k], outgoing)
  }

  lemma SpreadedUpToNext(g: Graph, p: Params, st: State, later: State, cur: Entry, arcs: seq<Arc>, i: nat, outgoing: bool)
    requires i < |arcs| && SpreadedUpTo(g, p, st, cur, arcs, i, outgoing) && Extends(st, later)
    requires Spreaded(g, p, later, cur, arcs[i], outgoing)
    ensures SpreadedUpTo(g, p, later, cur, arcs, i + 1, outgoing)
  {
    forall k | 0 <= k < i ensures Spreaded(g, p, later, cur, arcs[k], outgoing) {
      SpreadedPersists(g, p, st, later, cur, arcs[k], outgoing);
    }
  }

  /** What holds while `cur` is spread over the first `i` entries of a list. */
  ghost predicate SpreadInv(g: Graph, p: Params, seeds: seq<nat>, before: State, cur: Entry, outgoing: bool,
                            idx: nat, levelEnd: nat, st: State, i: nat)
  {
    && Inv(g, p, seeds, st) && Extends(before, st)
    && Layered(p, st, idx, cur.depth, levelEnd)
    && SpreadedUpTo(g, p, st, cur, g.Edges(cur.v, outgoing), i, outgoing)
  }

  lemma SpreadStep(g: Graph, p: Params, seeds: seq<nat>, before: State, cur: Entry, outgoing: bool,
                   idx: nat, levelEnd: nat, st: State, i: nat)
    requires SpreadInv(g, p, seeds, before, cur, outgoing, idx, levelEnd, st, i)
    requires cur in before.frontier && cur.depth < p.maxDepth && i < |g.Edges(cur.v, outgoing)|
    ensures SpreadInv(g, p, seeds, before, cur, outgoing, idx, levelEnd,
                      Relax(g, p, st, cur, g.Edges(cur.v, outgoing)[i], outgoing), i + 1)
  {
    var arcs := g.Edges(cur.v, outgoing);
    assert arcs[i] in g.Edges(cur.v, outgoing);
    RelaxKeepsInv(g, p, seeds, st, cur, arcs[i], outgoing, idx, levelEnd);
    SpreadedUpToNext(g, p, st, Relax(g, p, st, cur, arcs[i], outgoing), cur, arcs, i, outgoing);
  }

  lemma {:induction false} FoldKeeps<S(!new)>(step: (S, nat) -> S, s: S, k: nat, inv: (S, nat) -> bool)
    requires inv(s, 0)
    requires forall x, i: nat | i < k && inv(x, i) :: inv(step(x, i), i + 1)
    ensures inv(Fold(step, s, k), k)
  {
    if k > 0 {
      FoldKeeps(step, s, k - 1, inv);
    }
  }

  ghost function SpreadInvOf(g: Graph, p: Params, seeds: seq<nat>, before: State, cur: Entry, outgoing: bool,
                             idx: nat, levelEnd: nat): (State, nat) -> bool
  {
    (st: State, i: nat) => SpreadInv(g, p, seeds, before, cur, outgoing, idx, levelEnd, st, i)
  }

  lemma RelaxingKeeps(g: Graph, p: Params, seeds: seq<nat>, before: State, cur: Entry, outgoing: bool, idx: nat, levelEnd: nat)
    requires cur in before.frontier && cur.depth < p.maxDepth
    ensures var inv := SpreadInvOf(g, p, seeds, before, cur, outgoing, idx, levelEnd);
            var arcs := g.Edges(cur.v, outgoing);
            var step := Relaxing(g, p, cur, arcs, outgoing);
      forall st: State, i: nat | i < |arcs| && inv(st, i) :: inv(step(st, i), i + 1)
  {
    var inv := SpreadInvOf(g, p, seeds, before, cur, outgoing, idx, levelEnd);
    var arcs := g.Edges(cur.v, outgoing);
    var step := Relaxing(g, p, cur, arcs, outgoing);
    forall st: State, i: nat | i < |arcs| && inv(st, i) ensures inv(step(st, i), i + 1) {
      SpreadStep(g, p, seeds, before, cur, outgoing, idx, levelEnd, st, i);
    }
  }

  lemma SpreadingKeeps(g: Graph, p: Params, seeds: seq<nat>, before: State, cur: Entry, outgoing: bool, idx: nat, levelEnd: nat)
    requires Inv(g, p, seeds, before)
    requires cur in before.frontier && cur.depth < p.maxDepth
    requires Layered(p, before, idx, cur.depth, levelEnd)
    ensures SpreadInvOf(g, p, seeds, before, cur, outgoing, idx, levelEnd)
              (Spreading(g, p, before, cur, outgoing), |g.Edges(cur.v, outgoing)|)
  {
    var arcs := Cached(if outgoing then before.outCache else before.inCache, cur.v);
    assert arcs == g.Edges(cur.v, outgoing);
    var inv := SpreadInvOf(g, p, seeds, before, cur, outgoing, idx, levelEnd);
    RelaxingKeeps(g, p, seeds, before, cur, outgoing, idx, levelEnd);
    assert inv(before, 0);
    FoldKeeps(Relaxing(g, p, cur, arcs, outgoing), before, |arcs|, inv);
  }

  /** Spread one popped entry over one of its two cached adjacency lists. */
  method SpreadOver(g: Graph, p: Params, before: State, cur: Entry, outgoing: bool) returns (st: State)
    ensures st == Spreading(g, p, before, cur, outgoing)
  {
    st := before;
    var arcs := Cached(if outgoing then st.outCache else st.inCache, cur.v);
    for i := 0 to |arcs|
      invariant st == Fold(Relaxing(g, p, cur, arcs, outgoing), before, i)
    {
      st := Relax(g, p, st, cur, arcs[i], outgoing);
    }
  }

  lemma BothListsMakeProcessed(g: Graph, p: Params, mid: State, st: State, cur: Entry)
    requires SpreadedUpTo(g, p, mid, cur, g.OutEdges(cur.v), |g.OutEdges(cur.v)|, true) && Extends(mid, st)
    requires SpreadedUpTo(g, p, st, cur, g.InEdges(cur.v), |g.InEdges(cur.v)|, false)
    ensures Processed(g, p, st, cur)
  {
    forall arc, outgoing | arc in g.Edges(cur.v, outgoing) ensures Spreaded(g, p, st, cur, arc, outgoing) {
      if outgoing {
        assert Spreaded(g, p, mid, cur, arc, true);
        SpreadedPersists(g, p, mid, st, cur, arc, true);
      }
    }
  }

  lemma TurnKeeps(g: Graph, p: Params, seeds: seq<nat>, before: State, idx: nat, depth: nat, levelEnd: nat, st: State)
    requires Inv(g, p, seeds, before)
    requires Layered(p, before, idx, depth, levelEnd) && idx < levelEnd
    requires st == AfterTurn(g, p, before, idx)
    ensures Inv(g, p, seeds, st) && Extends(before, st) && Layered(p, st, idx, depth, levelEnd)
    ensures Processed(g, p, st, before.frontier[idx])
  {
    var cur := before.frontier[idx];
    if cur.depth < p.maxDepth {
      var mid := Spreading(g, p, before, cur, true);
      SpreadingKeeps(g, p, seeds, before, cur, true, idx, levelEnd);
      BothSpreadings(g, p, seeds, before, mid, cur, idx, levelEnd);
    }
  }

  lemma BothSpreadings(g: Graph, p: Params, seeds: seq<nat>, before: State, mid: State, cur: Entry, idx: nat, levelEnd: nat)
    requires SpreadInv(g, p, seeds, before, cur, true, idx, levelEnd, mid, |g.OutEdges(cur.v)|)
    requires cur in before.frontier && cur.depth < p.maxDepth
    ensures var st := Spreading(g, p, mid, cur, false);
      && Inv(g, p, seeds, st) && Extends(before, st) && Layered(p, st, idx, cur.depth, levelEnd) && Processed(g, p, st, cur)
  {
    SpreadingKeeps(g, p, seeds, mid, cur, false, idx, levelEnd);
    BothListsMakeProcessed(g, p, mid, Spreading(g, p, mid, cur, false), cur);
  }

  /** One turn of the loop: pop the next entry and spread it over both adjacency lists. */
  method Turn(g: Graph, p: Params, before: State, idx: nat) returns (st: State)
    requires idx < |before.frontier|
    ensures st == AfterTurn(g, p, before, idx)
  {
    var cur := before.frontier[idx];
    st := before;
    if cur.depth < p.maxDepth {
      st := SpreadOver(g, p, st, cur, true);
      st := SpreadOver(g, p, st, cur, false);
    }
  }

  ghost predicate ProcessedUpTo(g: Graph, p: Params, st: State, idx: nat) {
    idx <= |st.frontier| && forall i | 0 <= i < idx :: Processed(g, p, st, st.frontier[i])
  }

  lemma ProcessedUpToNext(g: Graph, p: Params, st: State, later: State, idx: nat)
    requires ProcessedUpTo(g, p, st, idx) && Extends(st, later)
    requires idx < |st.frontier| && Processed(g, p, later, st.frontier[idx])
    ensures ProcessedUpTo(g, p, later, idx + 1)
  {
    forall i | 0 <= i < idx ensures Processed(g, p, later, later.frontier[i]) {
      ProcessedPersists(g, p, st, later, st.frontier[i]);
    }
  }

  lemma SpreadingKeepsLayers(g: Graph, p: Params, before: State, cur: Entry, outgoing: bool, idx: nat, levelEnd: nat)
    requires Layered(p, before, idx, cur.depth, levelEnd) && cur.depth < p.maxDepth
    ensures Layered(p, Spreading(g, p, before, cur, outgoing), idx, cur.depth, levelEnd)
  {
    var arcs := Cached(if outgoing then before.outCache else before.inCache, cur.v);
    var step := Relaxing(g, p, cur, arcs, outgoing);
    var inv := (st: State, i: nat) => Layered(p, st, idx, cur.depth, levelEnd);
    forall st: State, i: nat | i < |arcs| && inv(st, i) ensures inv(step(st, i), i + 1) {
      RelaxKeepsLayers(g, p, st, cur, arcs[i], outgoing, idx, levelEnd);
    }
    FoldKeeps(step, before, |arcs|, inv);
  }

  lemma TurnKeepsLayers(g: Graph, p: Params, st: State, idx: nat, depth: nat, levelEnd: nat)
    requires Layered(p, st, idx, depth, levelEnd) && idx < levelEnd
    ensures Layered(p, AfterTurn(g, p, st, idx), idx, depth, levelEnd)
  {
    var cur := st.frontier[idx];
    if cur.depth < p.maxDepth {
      SpreadingKeepsLayers(g, p, st, cur, true, idx, levelEnd);
      SpreadingKeepsLayers(g, p, Spreading(g, p, st, cur, true), cur, false, idx, levelEnd);
    }
  }

  lemma StepsNext(g: Graph, p: Params, seeds: seq<nat>, run: seq<State>, idx: nat, next: State)
    requires Steps(g, p, seeds, run, idx) && idx < |run[idx].frontier| && next == AfterTurn(g, p, run[idx], idx)
    ensures Steps(g, p, seeds, run + [next], idx + 1)
  {
  }

  /** The relaxation loop. It terminates because the queue is layered by depth. */
  method Loop(g: Graph, p: Params, seeds: seq<nat>) returns (st: State, ghost run: seq<State>)
    ensures IsRun(g, p, seeds, run) && run[|run| - 1] == st
  {
    st := Begin(g, seeds);
    run := [st];
    var idx := 0;
    ghost var depth: nat, levelEnd: nat := 0, |st.frontier|;
    SeedsKeepInv(g, p, seeds);
    while idx < |st.frontier|
      invariant Steps(g, p, seeds, run, idx) && run[idx] == st
      invariant Layered(p, st, idx, depth, levelEnd)
      decreases p.maxDepth - depth, levelEnd - idx
    {
      if idx == levelEnd {
        depth, levelEnd := depth + 1, |st.frontier|;
      }
      TurnKeepsLayers(g, p, st, idx, depth, levelEnd);
      var next := Turn(g, p, st, idx);
      StepsNext(g, p, seeds, run, idx, next);
      st, idx, run := next, idx + 1, run + [next];
    }
  }

  /** Every state of the loop keeps the invariants, and all entries popped so far are processed. */
  lemma {:induction false} RunKeeps(g: Graph, p: Params, seeds: seq<nat>, run: seq<State>, idx: nat) returns (depth: nat, levelEnd: nat)
    requires Steps(g, p, seeds, run, idx)
    ensures Inv(g, p, seeds, run[idx]) && Layered(p, run[idx], idx, depth, levelEnd) && ProcessedUpTo(g, p, run[idx], idx)
    decreases idx
  {
    if idx == 0 {
      SeedsKeepInv(g, p, seeds);
      SeedsAreLayered(g, p, seeds, run[0]);
      depth, levelEnd := 0, |run[0].frontier|;
    } else {
      depth, levelEnd := RunKeeps(g, p, seeds, run[..idx], idx - 1);
      var st, next := run[idx - 1], run[idx];
      assert run[idx - 1 + 1] == AfterTurn(g, p, st, idx - 1);
      depth, levelEnd := RunStep(g, p, seeds, st, idx - 1, depth, levelEnd, next);
    }
  }

  lemma RunStep(g: Graph, p: Params, seeds: seq<nat>, st: State, idx: nat, depth: nat, levelEnd: nat, next: State)
    returns (depth': nat, levelEnd': nat)
    requires Inv(g, p, seeds, st) && Layered(p, st, idx, depth, levelEnd) && ProcessedUpTo(g, p, st, idx)
    requires idx < |st.frontier| && next == AfterTurn(g, p, st, idx)
    ensures Inv(g, p, seeds, next) && Layered(p, next, idx + 1, depth', levelEnd') && ProcessedUpTo(g, p, next, idx + 1)
  {
    depth', levelEnd' := depth, levelEnd;
    if idx == levelEnd {
      depth', levelEnd' := depth + 1, |st.frontier|;
    }
    TurnKeeps(g, p, seeds, st, idx, depth', levelEnd', next);
    ProcessedUpToNext(g, p, st, next, idx);
  }

  /** Spreading activation from the seeds. */
  method Activate(g: Graph, p: Params, seeds: seq<nat>) returns (st: State, ghost run: seq<State>)
    requires g.NonNegative() && p.decay >= 0.0
    ensures forall v :: IsBest(g, p, seeds, v, ScoreAt(st.visited, v))
    ensures forall c :: c in st.crossed <==> Crossable(g, p, seeds, c)
    ensures ResultInv(p, seeds, st) && Recorded(g, p, seeds, st.results)
    ensures IsRun(g, p, seeds, run) && run[|run| - 1] == st
  {
    st, run := Loop(g, p, seeds);
    ghost var depth, levelEnd := RunKeeps(g, p, seeds, run, |run| - 1);
    AnswerIsBest(g, p, seeds, st);
  }

  lemma AnswerIsBest(g: Graph, p: Params, seeds: seq<nat>, st: State)
    requires g.NonNegative() && p.decay >= 0.0
    requires Inv(g, p, seeds, st) && ProcessedUpTo(g, p, st, |st.frontier|)
    ensures forall v :: IsBest(g, p, seeds, v, ScoreAt(st.visited, v))
    ensures forall c :: c in st.crossed <==> Crossable(g, p, seeds, c)
  {
    forall v ensures IsBest(g, p, seeds, v, ScoreAt(st.visited, v)) {
      ProcessedIsBest(g, p, seeds, st, v);
    }
    forall c | Crossable(g, p, seeds, c) ensures c in st.crossed {
      ProcessedCrossesAll(g, p, seeds, st, c);
    }
  }
}
