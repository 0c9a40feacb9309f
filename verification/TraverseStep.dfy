/** The `traverse` step around the activation loop: seeds from what is piped in, the ranked vertices, the reported edges.
  *
  * The code calls its last step on the results a dedup, but it compares neighbours only. Whether a vertex is
  * listed twice depends on the seeds and on the scores.
  */
module TraverseStep {
  import opened BreadthFirst
  import opened Options
  import opened ScoreRanking
  import opened SpreadingActivation

  // ── Ranking the results ───────────────────────────────────────────────────

  /** What the ranked list says about a vertex, in terms of its best score. */
  function RankedScore(p: Params, seeds: seq<nat>, v: nat, best: real): Option<real> {
    if best > 0.0 && best >= p.minScore then Some(best)
    else if v in seeds then Some(1.0)
    else None
  }

  lemma RankedFirst(p: Params, seeds: seq<nat>, st: State, v: nat)
    requires ResultInv(p, seeds, st)
    ensures FirstScore(Ranked(st.results), v) == RankedScore(p, seeds, v, ScoreAt(st.visited, v))
  {
    var sorted := SortDescending(st.results);
    SortIsSortedPermutation(st.results);
    forall x ensures x in sorted <==> x in st.results {
      assert x in sorted <==> x in multiset(sorted);
    }
    DedupKeepsFirst(sorted, v);
    var best := ScoreAt(st.visited, v);
    if best > 0.0 && best >= p.minScore {
      FirstIsGreatest(sorted, v, best);
    } else if v in seeds {
      FirstIsGreatest(sorted, v, 1.0);
    } else {
      FirstNoneWhenAbsent(sorted, v);
    }
  }

  // ── The whole step ────────────────────────────────────────────────────────

  /** An edge is reported when it was crossed and both its ends reach the minimum score. */
  ghost predicate Reported(g: Graph, p: Params, seeds: seq<nat>, c: Crossing) {
    && Crossable(g, p, seeds, c)
    && (exists best :: IsBest(g, p, seeds, c.source, best) && best >= p.minScore)
    && (exists best :: IsBest(g, p, seeds, c.target, best) && best >= p.minScore)
  }

  /** A score that the step may list for a vertex. */
  ghost predicate Listable(g: Graph, p: Params, seeds: seq<nat>, r: Scored) {
    (r.0 in seeds && r.1 == 1.0) || Recordable(g, p, seeds, r)
  }

  /** No score of a vertex lies between two scores of another one. */
  ghost predicate NoInterleaving(g: Graph, p: Params, seeds: seq<nat>) {
    forall x, y, z | Listable(g, p, seeds, x) && Listable(g, p, seeds, y) && Listable(g, p, seeds, z)
                     && x.0 == z.0 && y.0 != x.0 && z.1 < x.1 ::
      !(z.1 <= y.1 <= x.1)
  }

  lemma RecordedIsListable(g: Graph, p: Params, seeds: seq<nat>, results: seq<Scored>)
    requires Recorded(g, p, seeds, results)
    ensures forall x | x in results :: Listable(g, p, seeds, x)
  {
    forall x | x in results ensures Listable(g, p, seeds, x) {
      var i :| 0 <= i < |results| && results[i] == x;
      assert i < |seeds| ==> seeds[i] in seeds;
    }
  }

  lemma SeparateScores(g: Graph, p: Params, seeds: seq<nat>, results: seq<Scored>)
    requires Recorded(g, p, seeds, results) && NoInterleaving(g, p, seeds)
    ensures Separate(results)
  {
    RecordedIsListable(g, p, seeds, results);
  }

  lemma NothingRecordable(g: Graph, p: Params, seeds: seq<nat>, x: Scored)
    requires p.maxDepth == 0
    ensures !Recordable(g, p, seeds, x)
  {
    forall w: Walk | w.Hop? ensures !WalkTo(g, p, seeds, w, x.0) {
      assert w.Hops() == w.prev.Hops() + 1;
    }
  }

  /** Without depth every score is 1. */
  lemma ShallowNeverInterleaves(g: Graph, p: Params, seeds: seq<nat>)
    requires p.maxDepth == 0
    ensures NoInterleaving(g, p, seeds)
  {
    forall x, y, z | Listable(g, p, seeds, x) && Listable(g, p, seeds, y) && Listable(g, p, seeds, z)
      ensures x.1 == z.1
    {
      NothingRecordable(g, p, seeds, x);
      NothingRecordable(g, p, seeds, z);
    }
  }

  // ── Edges of equal strength ───────────────────────────────────────────────

  /** Every hop multiplies the score by the same factor, at most 1. */
  ghost predicate Uniform(g: Graph, p: Params, q: real) {
    0.0 <= q <= 1.0 && forall v, outgoing, arc | arc in g.Edges(v, outgoing) :: p.decay * g.Strength(arc.edge) == q
  }

  function Pow(q: real, n: nat): real {
    if n == 0 then 1.0 else q * Pow(q, n - 1)
  }

  lemma ProductFalls(q: real, x: real)
    requires 0.0 <= q <= 1.0 && x >= 0.0
    ensures 0.0 <= q * x <= x
  {
    var rest := 1.0 - q;
    assert rest * x >= 0.0 && q * x >= 0.0;
    assert q * x + rest * x == (q + rest) * x;
  }

  lemma PowStep(q: real, n: nat)
    requires 0.0 <= q <= 1.0 && Pow(q, n) >= 0.0
    ensures 0.0 <= Pow(q, n + 1) <= Pow(q, n)
  {
    ProductFalls(q, Pow(q, n));
  }

  lemma {:induction false} PowNonNegative(q: real, n: nat)
    requires 0.0 <= q <= 1.0
    ensures Pow(q, n) >= 0.0
  {
    if n > 0 {
      PowNonNegative(q, n - 1);
      PowStep(q, n - 1);
    }
  }

  lemma {:induction false} PowFalls(q: real, a: nat, b: nat)
    requires 0.0 <= q <= 1.0 && a <= b
    ensures Pow(q, b) <= Pow(q, a)
    decreases b
  {
    if a < b {
      PowFalls(q, a, b - 1);
      PowNonNegative(q, b - 1);
      PowStep(q, b - 1);
    }
  }

  /** Scores depend on the depth alone, and a vertex that has a score gets no other. */
  ghost predicate UniformInv(q: real, seeds: seq<nat>, st: State) {
    && (forall e | e in st.frontier :: e.score == Pow(q, e.depth))
    && (forall i, j | 0 <= i < j < |st.results| && |seeds| <= j :: st.results[i].0 != st.results[j].0)
  }

  lemma UniformSpread(g: Graph, p: Params, q: real, cur: Entry, arc: Arc, outgoing: bool)
    requires Uniform(g, p, q) && arc in g.Edges(cur.v, outgoing) && cur.score == Pow(q, cur.depth)
    ensures Spread(g, p, cur.score, arc.edge) == Pow(q, cur.depth + 1)
  {
    var s := g.Strength(arc.edge);
    assert cur.score * p.decay * s == cur.score * (p.decay * s);
  }

  /** A breadth-first queue comes to every vertex by a shortest walk first, so later walks do not improve its score. */
  lemma NoSecondScore(g: Graph, p: Params, seeds: seq<nat>, q: real, st: State, v: nat, depth: nat)
    requires 0.0 <= q <= 1.0 && ScoreInv(g, p, seeds, st) && UniformInv(q, seeds, st)
    requires v in st.visited && st.visited[v] > 0.0
    requires forall e | e in st.frontier :: e.depth <= depth
    ensures Pow(q, depth) <= ScoreAt(st.visited, v)
  {
    assert Attained(st, v);
    var e :| e in st.frontier && e.v == v && e.score == ScoreAt(st.visited, v);
    PowFalls(q, e.depth, depth);
  }

  lemma RelaxKeepsUniform(g: Graph, p: Params, seeds: seq<nat>, q: real, st: State, cur: Entry, arc: Arc, outgoing: bool,
                          idx: nat, levelEnd: nat)
    requires Uniform(g, p, q) && UniformInv(q, seeds, st)
    requires ScoreInv(g, p, seeds, st) && ResultInv(p, seeds, st)
    requires cur in st.frontier && Layered(p, st, idx, cur.depth, levelEnd) && arc in g.Edges(cur.v, outgoing)
    ensures UniformInv(q, seeds, Relax(g, p, st, cur, arc, outgoing))
  {
    var score := Spread(g, p, cur.score, arc.edge);
    UniformSpread(g, p, q, cur, arc, outgoing);
    RelaxOutcome(g, p, st, cur, arc, outgoing);
    LayeredDepths(p, st, cur.depth, idx, levelEnd);
    if score >= p.activate && score > ScoreAt(st.visited, arc.far) {
      if ScoreAt(st.visited, arc.far) > 0.0 {
        NoSecondScore(g, p, seeds, q, st, arc.far, cur.depth + 1);
      }
      forall i | 0 <= i < |st.results| ensures st.results[i].0 != arc.far {
        assert st.results[i] in st.results;
      }
    }
  }

  ghost function UniformInvOf(g: Graph, p: Params, seeds: seq<nat>, q: real, before: State, cur: Entry, outgoing: bool,
                              idx: nat, levelEnd: nat): (State, nat) -> bool
  {
    (st: State, i: nat) =>
      SpreadInvOf(g, p, seeds, before, cur, outgoing, idx, levelEnd)(st, i) && UniformInv(q, seeds, st)
  }

  lemma SpreadStepOf(g: Graph, p: Params, seeds: seq<nat>, before: State, cur: Entry, outgoing: bool,
                     idx: nat, levelEnd: nat, st: State, i: nat, st': State)
    requires SpreadInvOf(g, p, seeds, before, cur, outgoing, idx, levelEnd)(st, i)
    requires cur in before.frontier && cur.depth < p.maxDepth && i < |g.Edges(cur.v, outgoing)|
    requires st' == Relax(g, p, st, cur, g.Edges(cur.v, outgoing)[i], outgoing)
    ensures SpreadInvOf(g, p, seeds, before, cur, outgoing, idx, levelEnd)(st', i + 1)
  {
    SpreadStep(g, p, seeds, before, cur, outgoing, idx, levelEnd, st, i);
  }

  lemma UniformStepOf(g: Graph, p: Params, seeds: seq<nat>, q: real, before: State, cur: Entry, outgoing: bool,
                      idx: nat, levelEnd: nat, st: State, i: nat, st': State)
    requires SpreadInvOf(g, p, seeds, before, cur, outgoing, idx, levelEnd)(st, i) && UniformInv(q, seeds, st)
    requires Uniform(g, p, q) && cur in before.frontier && i < |g.Edges(cur.v, outgoing)|
    requires st' == Relax(g, p, st, cur, g.Edges(cur.v, outgoing)[i], outgoing)
    ensures UniformInv(q, seeds, st')
  {
    RelaxKeepsUniform(g, p, seeds, q, st, cur, g.Edges(cur.v, outgoing)[i], outgoing, idx, levelEnd);
  }

  lemma RelaxStepUniform(g: Graph, p: Params, seeds: seq<nat>, q: real, before: State, cur: Entry, outgoing: bool,
                         idx: nat, levelEnd: nat, st: State, i: nat, st': State)
    requires UniformInvOf(g, p, seeds, q, before, cur, outgoing, idx, levelEnd)(st, i)
    requires Uniform(g, p, q) && cur in before.frontier && cur.depth < p.maxDepth && i < |g.Edges(cur.v, outgoing)|
    requires st' == Relax(g, p, st, cur, g.Edges(cur.v, outgoing)[i], outgoing)
    ensures UniformInvOf(g, p, seeds, q, before, cur, outgoing, idx, levelEnd)(st', i + 1)
  {
    assert SpreadInvOf(g, p, seeds, before, cur, outgoing, idx, levelEnd)(st, i);
    SpreadStepOf(g, p, seeds, before, cur, outgoing, idx, levelEnd, st, i, st');
    UniformStepOf(g, p, seeds, q, before, cur, outgoing, idx, levelEnd, st, i, st');
  }

  lemma RelaxingKeepsUniform(g: Graph, p: Params, seeds: seq<nat>, q: real, before: State, cur: Entry, outgoing: bool,
                             idx: nat, levelEnd: nat)
    requires Uniform(g, p, q) && cur in before.frontier && cur.depth < p.maxDepth
    ensures var inv := UniformInvOf(g, p, seeds, q, before, cur, outgoing, idx, levelEnd);
            var arcs := g.Edges(cur.v, outgoing);
            var step := Relaxing(g, p, cur, arcs, outgoing);
      forall st: State, i: nat | i < |arcs| && inv(st, i) :: inv(step(st, i), i + 1)
  {
    var inv := UniformInvOf(g, p, seeds, q, before, cur, outgoing, idx, levelEnd);
    var arcs := g.Edges(cur.v, outgoing);
    var step := Relaxing(g, p, cur, arcs, outgoing);
    forall st: State, i: nat | i < |arcs| && inv(st, i) ensures inv(step(st, i), i + 1) {
      RelaxStepUniform(g, p, seeds, q, before, cur, outgoing, idx, levelEnd, st, i, step(st, i));
    }
  }

  lemma SpreadingKeepsUniform(g: Graph, p: Params, seeds: seq<nat>, q: real, before: State, cur: Entry, outgoing: bool,
                              idx: nat, levelEnd: nat)
    requires Uniform(g, p, q) && UniformInv(q, seeds, before) && Inv(g, p, seeds, before)
    requires cur in before.frontier && cur.depth < p.maxDepth && Layered(p, before, idx, cur.depth, levelEnd)
    ensures UniformInv(q, seeds, Spreading(g, p, before, cur, outgoing))
  {
    var arcs := Cached(if outgoing then before.outCache else before.inCache, cur.v);
    assert arcs == g.Edges(cur.v, outgoing);
    var inv := UniformInvOf(g, p, seeds, q, before, cur, outgoing, idx, levelEnd);
    RelaxingKeepsUniform(g, p, seeds, q, before, cur, outgoing, idx, levelEnd);
    assert SpreadInv(g, p, seeds, before, cur, outgoing, idx, levelEnd, before, 0);
    assert SpreadInvOf(g, p, seeds, before, cur, outgoing, idx, levelEnd)(before, 0);
    assert inv(before, 0);
    FoldKeeps(Relaxing(g, p, cur, arcs, outgoing), before, |arcs|, inv);
  }

  lemma TurnKeepsUniform(g: Graph, p: Params, seeds: seq<nat>, q: real, before: State, idx: nat, depth: nat, levelEnd: nat)
    requires Uniform(g, p, q) && UniformInv(q, seeds, before) && Inv(g, p, seeds, before)
    requires Layered(p, before, idx, depth, levelEnd) && idx < levelEnd
    ensures UniformInv(q, seeds, AfterTurn(g, p, before, idx))
  {
    var cur := before.frontier[idx];
    if cur.depth < p.maxDepth {
      var mid := Spreading(g, p, before, cur, true);
      SpreadingKeeps(g, p, seeds, before, cur, true, idx, levelEnd);
      SpreadingKeepsUniform(g, p, seeds, q, before, cur, true, idx, levelEnd);
      SpreadingKeepsUniform(g, p, seeds, q, mid, cur, false, idx, levelEnd);
    }
  }

  lemma {:induction false} SeedsAreUniform(g: Graph, q: real, seeds: seq<nat>)
    ensures forall e | e in AfterSeeds(g, seeds).frontier :: e.score == 1.0 && e.depth == 0
    ensures |AfterSeeds(g, seeds).results| == |seeds|
  {
    if seeds != [] {
      SeedsAreUniform(g, q, seeds[..|seeds| - 1]);
    }
  }

  lemma {:induction false} RunKeepsUniform(g: Graph, p: Params, seeds: seq<nat>, q: real, run: seq<State>, idx: nat)
    requires Uniform(g, p, q) && Steps(g, p, seeds, run, idx)
    ensures UniformInv(q, seeds, run[idx])
    decreases idx
  {
    if idx == 0 {
      SeedsAreUniform(g, q, seeds);
    } else {
      RunKeepsUniform(g, p, seeds, q, run[..idx], idx - 1);
      var depth, levelEnd := RunKeeps(g, p, seeds, run[..idx], idx - 1);
      var st := run[idx - 1];
      assert run[idx - 1 + 1] == AfterTurn(g, p, st, idx - 1);
      if idx - 1 == levelEnd {
        depth, levelEnd := depth + 1, |st.frontier|;
      }
      TurnKeepsUniform(g, p, seeds, q, st, idx - 1, depth, levelEnd);
    }
  }

  lemma SingleScoresAreSeparate(results: seq<Scored>, seeds: seq<nat>)
    requires StartsWithSeeds(results, seeds)
    requires forall i, j | 0 <= i < j < |results| && |seeds| <= j :: results[i].0 != results[j].0
    ensures Separate(results)
  {
    forall x, z | x in results && z in results && x.0 == z.0 ensures x.1 == z.1 {
      var i :| 0 <= i < |results| && results[i] == x;
      var j :| 0 <= j < |results| && results[j] == z;
    }
  }

  lemma UniformListsEachOnceIff(g: Graph, p: Params, seeds: seq<nat>, q: real, run: seq<State>)
    requires Uniform(g, p, q) && IsRun(g, p, seeds, run) && Recorded(g, p, seeds, run[|run| - 1].results)
    ensures EachOnce(Ranked(run[|run| - 1].results)) <==> Together(seeds)
  {
    var results := run[|run| - 1].results;
    RunKeepsUniform(g, p, seeds, q, run, |run| - 1);
    SingleScoresAreSeparate(results, seeds);
    EachOnceWhen(results, seeds);
  }

  /** The step lists each vertex once only if equal seeds stand together. That suffices when the depth limit is 0, and
    * otherwise when no score of a vertex lies between two scores of another one.
    */
  lemma ListsEachOnceWhen(g: Graph, p: Params, seeds: seq<nat>, results: seq<Scored>)
    requires Recorded(g, p, seeds, results)
    ensures EachOnce(Ranked(results)) ==> Together(seeds)
    ensures Together(seeds) && NoInterleaving(g, p, seeds) ==> EachOnce(Ranked(results))
    ensures p.maxDepth == 0 ==> (EachOnce(Ranked(results)) <==> Together(seeds))
  {
    EachOnceWhen(results, seeds);
    if p.maxDepth == 0 {
      ShallowNeverInterleaves(g, p, seeds);
    }
    if NoInterleaving(g, p, seeds) {
      SeparateScores(g, p, seeds, results);
    }
  }

  /** What is piped into the step; counts are ignored. */
  datatype Item = VertexItem(id: nat) | EdgeItem(source: nat, target: nat) | OtherItem

  /** A vertex is a seed; an edge makes its source and its target seeds. */
  function SeedsOf(input: seq<Item>): seq<nat> {
    if input == [] then []
    else SeedsOf(input[..|input| - 1]) + SeedsOfItem(input[|input| - 1])
  }

  function SeedsOfItem(item: Item): seq<nat> {
    match item
    case VertexItem(id) => [id]
    case EdgeItem(source, target) => [source, target]
    case OtherItem => []
  }

  method CollectSeeds(input: seq<Item>) returns (seeds: seq<nat>)
    ensures seeds == SeedsOf(input)
  {
    seeds := [];
    for i := 0 to |input|
      invariant seeds == SeedsOf(input[..i])
    {
      assert input[..i + 1][..i] == input[..i];
      match input[i] {
        case VertexItem(id) => seeds := seeds + [id];
        case EdgeItem(source, target) => seeds := seeds + [source] + [target];
        case OtherItem =>
      }
    }
    assert input[..|input|] == input;
  }

  // ── Records that are there ────────────────────────────────────────────────

  /** The items whose vertex has a record that can be read. */
  function WithRecords(s: seq<Scored>, live: set<nat>): seq<Scored> {
    if s == [] then []
    else WithRecords(s[..|s| - 1], live) + if s[|s| - 1].0 in live then [s[|s| - 1]] else []
  }

  method ReadVertices(ranked: seq<Scored>, live: set<nat>) returns (listed: seq<Scored>)
    ensures listed == WithRecords(ranked, live)
  {
    listed := [];
    for i := 0 to |ranked|
      invariant listed == WithRecords(ranked[..i], live)
    {
      assert ranked[..i + 1][..i] == ranked[..i];
      if ranked[i].0 in live {
        listed := listed + [ranked[i]];
      }
    }
    assert ranked[..|ranked|] == ranked;
  }

  lemma FirstOfSnoc(s: seq<Scored>, x: Scored, v: nat)
    ensures FirstScore(s + [x], v) == if FirstScore(s, v).Some? then FirstScore(s, v) else if x.0 == v then Some(x.1) else None
  {
    if s != [] {
      assert (s + [x])[1..] == s[1..] + [x];
    } else {
      assert s + [x] == [x];
    }
  }

  /** A listed vertex keeps its first item, and no repeat arises. */
  lemma {:induction false} WithRecordsKeeps(s: seq<Scored>, live: set<nat>, v: nat)
    ensures FirstScore(WithRecords(s, live), v) == if v in live then FirstScore(s, v) else None
    ensures forall x | x in WithRecords(s, live) :: x in s && x.0 in live
    ensures EachOnce(s) ==> EachOnce(WithRecords(s, live))
    decreases |s|
  {
    if s != [] {
      var init, x := s[..|s| - 1], s[|s| - 1];
      assert s == init + [x];
      WithRecordsKeeps(init, live, v);
      assert WithRecords(s, live) == if x.0 in live then WithRecords(init, live) + [x] else WithRecords(init, live);
      FirstOfSnoc(init, x, v);
      FirstOfSnoc(WithRecords(init, live), x, v);
      SnocOnce(init, x, WithRecords(init, live));
    }
  }

  lemma {:induction false} AllHaveRecords(s: seq<Scored>, live: set<nat>)
    requires forall x | x in s :: x.0 in live
    ensures WithRecords(s, live) == s
    decreases |s|
  {
    if s != [] {
      assert s == s[..|s| - 1] + [s[|s| - 1]];
      AllHaveRecords(s[..|s| - 1], live);
    }
  }

  lemma SnocOnce(s: seq<Scored>, x: Scored, kept: seq<Scored>)
    requires forall y | y in kept :: y in s
    ensures EachOnce(s + [x]) && EachOnce(kept) ==> EachOnce(kept + [x])
    ensures EachOnce(s + [x]) ==> EachOnce(s)
  {
    var t := s + [x];
    assert forall i | 0 <= i < |s| :: s[i] == t[i];
    if EachOnce(t) && EachOnce(kept) {
      forall i | 0 <= i < |kept| ensures kept[i].0 != x.0 {
        assert kept[i] in s;
        var j :| 0 <= j < |s| && s[j] == kept[i];
        assert t[j].0 != t[|s|].0;
      }
    }
  }

  /** The whole step. `recorded` is the list of results in the order in which the loop records them, `ranked` what the sort and
    * the dedup leave of it, and `listed` what has a record that can be read.
    */
  method Traverse(g: Graph, p: Params, input: seq<Item>, liveVertices: set<nat>, liveEdges: set<nat>)
    returns (visited: map<nat, real>, ranked: seq<Scored>, listed: seq<Scored>, edges: set<Crossing>,
             ghost seeds: seq<nat>, ghost recorded: seq<Scored>, ghost run: seq<State>)
    requires g.NonNegative() && p.decay >= 0.0
    ensures seeds == SeedsOf(input)
    ensures forall v :: IsBest(g, p, seeds, v, ScoreAt(visited, v))
    ensures forall v :: FirstScore(ranked, v) == RankedScore(p, seeds, v, ScoreAt(visited, v))
    ensures Descending(ranked) && forall x | x in ranked :: Listable(g, p, seeds, x)
    ensures recorded == Maxima(g, p, seeds) && (EachOnce(ranked) <==> NothingBetween(Maxima(g, p, seeds)))
    ensures EachOnce(ranked) ==> Together(seeds)
    ensures Together(seeds) && NoInterleaving(g, p, seeds) ==> EachOnce(ranked)
    ensures p.maxDepth == 0 || (exists q :: Uniform(g, p, q)) ==> (EachOnce(ranked) <==> Together(seeds))
    ensures listed == WithRecords(ranked, liveVertices) && (EachOnce(ranked) ==> EachOnce(listed))
    ensures forall v :: FirstScore(listed, v)
                        == if v in liveVertices then RankedScore(p, seeds, v, ScoreAt(visited, v)) else None
    ensures forall c :: c in edges <==> Reported(g, p, seeds, c) && c.edge in liveEdges
    ensures IsRun(g, p, seeds, run) && recorded == run[|run| - 1].results
    ensures Recorded(g, p, seeds, recorded) && ranked == Ranked(recorded)
  {
    var collected := CollectSeeds(input);
    seeds := collected;
    var st;
    st, run := Activate(g, p, collected);
    visited, recorded := st.visited, st.results;
    ranked := Ranked(st.results);
    forall v ensures FirstScore(ranked, v) == RankedScore(p, seeds, v, ScoreAt(visited, v)) {
      RankedFirst(p, seeds, st, v);
    }
    ListsWhat(g, p, seeds, run);
    listed := ReadVertices(ranked, liveVertices);
    forall v ensures FirstScore(listed, v) == if v in liveVertices then FirstScore(ranked, v) else None {
      WithRecordsKeeps(ranked, liveVertices, v);
    }
    WithRecordsKeeps(ranked, liveVertices, 0);
    edges := ReportedEdges(g, p, seeds, st, liveEdges);
  }

  /** What the sort and the dedup make of the recorded results. */
  lemma ListsWhat(g: Graph, p: Params, seeds: seq<nat>, run: seq<State>)
    requires g.NonNegative() && p.decay >= 0.0 && IsRun(g, p, seeds, run)
    requires Recorded(g, p, seeds, run[|run| - 1].results)
    ensures var recorded, ranked := run[|run| - 1].results, Ranked(run[|run| - 1].results);
      && Descending(ranked) && (forall x | x in ranked :: Listable(g, p, seeds, x))
      && recorded == Maxima(g, p, seeds) && (EachOnce(ranked) <==> NothingBetween(Maxima(g, p, seeds)))
      && (EachOnce(ranked) ==> Together(seeds))
      && (Together(seeds) && NoInterleaving(g, p, seeds) ==> EachOnce(ranked))
      && (p.maxDepth == 0 || (exists q :: Uniform(g, p, q)) ==> (EachOnce(ranked) <==> Together(seeds)))
  {
    var recorded := run[|run| - 1].results;
    RankedDescends(recorded);
    RecordedIsListable(g, p, seeds, recorded);
    RecordsAreMaxima(g, p, seeds, run);
    ListsEachOnceIff(g, p, seeds, run);
    ListsEachOnceWhen(g, p, seeds, recorded);
    forall q | Uniform(g, p, q) ensures EachOnce(Ranked(recorded)) <==> Together(seeds) {
      UniformListsEachOnceIff(g, p, seeds, q, run);
    }
  }

  method ReportedEdges(g: Graph, p: Params, ghost seeds: seq<nat>, st: State, live: set<nat>) returns (edges: set<Crossing>)
    requires forall v :: IsBest(g, p, seeds, v, ScoreAt(st.visited, v))
    requires forall c :: c in st.crossed <==> Crossable(g, p, seeds, c)
    ensures forall c :: c in edges <==> Reported(g, p, seeds, c) && c.edge in live
  {
    edges := set c | c in st.crossed && c.edge in live
      && ScoreAt(st.visited, c.source) >= p.minScore && ScoreAt(st.visited, c.target) >= p.minScore;
    forall c ensures c in edges <==> Reported(g, p, seeds, c) && c.edge in live {
      ReportedIff(g, p, seeds, st, c);
    }
  }

  lemma ReportedIff(g: Graph, p: Params, seeds: seq<nat>, st: State, c: Crossing)
    requires forall v :: IsBest(g, p, seeds, v, ScoreAt(st.visited, v))
    requires c in st.crossed <==> Crossable(g, p, seeds, c)
    ensures Reported(g, p, seeds, c) <==>
      c in st.crossed && ScoreAt(st.visited, c.source) >= p.minScore && ScoreAt(st.visited, c.target) >= p.minScore
  {
    forall v, best | IsBest(g, p, seeds, v, best) ensures best == ScoreAt(st.visited, v) {
      BestIsUnique(g, p, seeds, v, best, ScoreAt(st.visited, v));
    }
  }

  // ── Vertices listed twice ─────────────────────────────────────────────────

  /** Whatever the graph and the parameters: equal seeds that do not stand together leave a vertex listed twice. */
  method TraverseSeedsApart(g: Graph, p: Params, input: seq<Item>, liveVertices: set<nat>) returns (listed: seq<Scored>)
    requires g.NonNegative() && p.decay >= 0.0 && !Together(SeedsOf(input))
    requires forall x | x in Maxima(g, p, SeedsOf(input)) :: x.0 in liveVertices
    ensures !EachOnce(listed)
  {
    ghost var visited, edges, seeds, recorded, run;
    var ranked;
    visited, ranked, listed, edges, seeds, recorded, run := Traverse(g, p, input, liveVertices, {});
    RankedDescends(recorded);
    AllHaveRecords(ranked, liveVertices);
  }

  /** Two edges of one vertex piped into the step give such seeds. */
  lemma EdgesOfOneVertexAreApart(u: nat, v: nat, w: nat)
    requires u != v
    ensures SeedsOf([EdgeItem(u, v), EdgeItem(u, w)]) == [u, v, u, w]
    ensures !Together([u, v, u, w])
  {
    var input := [EdgeItem(u, v), EdgeItem(u, w)];
    assert input[..1] == [EdgeItem(u, v)] && input[..1][..0] == [];
    assert SeedsOf(input[..1]) == [u, v];
    var seeds := [u, v, u, w];
    assert seeds[0] == seeds[2] != seeds[1];
  }

  /** Two seeds, 1 and 5, and three edges: 5→2 improves what 1→2 gave vertex 2, and 1→4 lies between. */
  function LateGraph(): Graph {
    Graph(map[1 := [Arc(10, 2), Arc(11, 4)], 5 := [Arc(12, 2)]],
          map[2 := [Arc(10, 1), Arc(12, 5)], 4 := [Arc(11, 1)]],
          map[10 := 0.1, 11 := 0.3, 12 := 0.5])
  }

  const LATE_PARAMS := Params(1.0, 0.0, 1, 0.0)

  lemma LateSeeds(st: State)
    requires st == AfterSeeds(LateGraph(), [1, 5])
    ensures st.results == [(1, 1.0), (5, 1.0)] && st.visited == map[1 := 1.0, 5 := 1.0]
    ensures st.frontier == [Entry(1, 1.0, 0), Entry(5, 1.0, 0)]
    ensures Cached(st.outCache, 1) == [Arc(10, 2), Arc(11, 4)] && Cached(st.outCache, 5) == [Arc(12, 2)]
    ensures 1 !in st.inCache && 5 !in st.inCache
  {
    var g := LateGraph();
    assert [1, 5][..1] == [1] && [1][..0] == [];
    var s0 := AfterSeeds(g, []);
    var s1 := Seeded(g, s0, 1);
    assert AfterSeeds(g, [1]) == s1;
    assert AfterSeeds(g, [1, 5]) == Seeded(g, s1, 5);
  }

  /** A relaxation that improves its far end changes nothing else. */
  lemma RelaxImproves(g: Graph, p: Params, st: State, cur: Entry, arc: Arc, outgoing: bool, st': State)
    requires st' == Relax(g, p, st, cur, arc, outgoing)
    requires var score := Spread(g, p, cur.score, arc.edge);
      score >= p.activate && score >= p.minScore && score > ScoreAt(st.visited, arc.far)
    ensures var score := Spread(g, p, cur.score, arc.edge);
      && st'.results == st.results + [(arc.far, score)]
      && st'.visited == st.visited[arc.far := score]
      && st'.frontier == st.frontier + [Entry(arc.far, score, cur.depth + 1)]
    ensures forall v | v != arc.far ::
      Cached(st'.outCache, v) == Cached(st.outCache, v) && Cached(st'.inCache, v) == Cached(st.inCache, v)
  {
  }

  lemma LateFirstTurn(st: State, next: State)
    requires st == AfterSeeds(LateGraph(), [1, 5]) && |st.frontier| > 0 && next == AfterTurn(LateGraph(), LATE_PARAMS, st, 0)
    ensures next.results == [(1, 1.0), (5, 1.0), (2, 0.1), (4, 0.3)]
    ensures next.visited == map[1 := 1.0, 5 := 1.0, 2 := 0.1, 4 := 0.3]
    ensures next.frontier == [Entry(1, 1.0, 0), Entry(5, 1.0, 0), Entry(2, 0.1, 1), Entry(4, 0.3, 1)]
    ensures Cached(next.outCache, 5) == [Arc(12, 2)] && Cached(next.inCache, 5) == []
  {
    var g, p, cur := LateGraph(), LATE_PARAMS, Entry(1, 1.0, 0);
    LateSeeds(st);
    var step := Relaxing(g, p, cur, [Arc(10, 2), Arc(11, 4)], true);
    var s1 := step(st, 0);
    var s2 := step(s1, 1);
    assert Fold(step, st, 0) == st && Fold(step, st, 1) == s1 && Fold(step, st, 2) == s2;
    RelaxImproves(g, p, st, cur, Arc(10, 2), true, s1);
    RelaxImproves(g, p, s1, cur, Arc(11, 4), true, s2);
    assert Spreading(g, p, st, cur, true) == s2;
    assert Cached(s2.inCache, 1) == [];
    assert Spreading(g, p, s2, cur, false) == s2;
  }

  lemma LateSecondTurn(st: State, next: State)
    requires st.results == [(1, 1.0), (5, 1.0), (2, 0.1), (4, 0.3)]
    requires st.visited == map[1 := 1.0, 5 := 1.0, 2 := 0.1, 4 := 0.3]
    requires st.frontier == [Entry(1, 1.0, 0), Entry(5, 1.0, 0), Entry(2, 0.1, 1), Entry(4, 0.3, 1)]
    requires Cached(st.outCache, 5) == [Arc(12, 2)] && Cached(st.inCache, 5) == []
    requires next == AfterTurn(LateGraph(), LATE_PARAMS, st, 1)
    ensures next.results == [(1, 1.0), (5, 1.0), (2, 0.1), (4, 0.3), (2, 0.5)]
    ensures next.frontier == [Entry(1, 1.0, 0), Entry(5, 1.0, 0), Entry(2, 0.1, 1), Entry(4, 0.3, 1), Entry(2, 0.5, 1)]
  {
    var g, p, cur := LateGraph(), LATE_PARAMS, Entry(5, 1.0, 0);
    var step := Relaxing(g, p, cur, [Arc(12, 2)], true);
    var s1 := step(st, 0);
    assert Fold(step, st, 0) == st && Fold(step, st, 1) == s1;
    RelaxImproves(g, p, st, cur, Arc(12, 2), true, s1);
    assert Spreading(g, p, st, cur, true) == s1;
    assert Spreading(g, p, s1, cur, false) == s1;
  }

  /** Every run on this input records vertex 2 twice, with 4 between the two scores. */
  lemma LateRun(run: seq<State>)
    requires IsRun(LateGraph(), LATE_PARAMS, [1, 5], run)
    ensures run[|run| - 1].results == [(1, 1.0), (5, 1.0), (2, 0.1), (4, 0.3), (2, 0.5)]
  {
    var g, p := LateGraph(), LATE_PARAMS;
    LateSeeds(run[0]);
    assert |run| > 1;
    assert run[0 + 1] == AfterTurn(g, p, run[0], 0);
    LateFirstTurn(run[0], run[1]);
    assert |run| > 2;
    assert run[1 + 1] == AfterTurn(g, p, run[1], 1);
    LateSecondTurn(run[1], run[2]);
    LateTail(run, |run| - 1);
  }

  /** The later entries are as deep as the limit, so nothing happens any more. */
  lemma {:induction false} LateTail(run: seq<State>, k: nat)
    requires IsRun(LateGraph(), LATE_PARAMS, [1, 5], run) && 2 <= k < |run|
    requires forall e | e in run[2].frontier[2..] :: e.depth == 1
    ensures run[k] == run[2]
  {
    if k > 2 {
      LateTail(run, k - 1);
      assert run[k - 1 + 1] == AfterTurn(LateGraph(), LATE_PARAMS, run[k - 1], k - 1);
      assert run[2].frontier[k - 1] == run[2].frontier[2..][k - 3];
    }
  }

  lemma LateSorted(a: Scored, b: Scored, c: Scored, d: Scored, e: Scored)
    requires a == (1, 1.0) && b == (5, 1.0) && c == (2, 0.1) && d == (4, 0.3) && e == (2, 0.5)
    ensures SortDescending([a, b, c, d, e]) == [a, b, e, d, c]
  {
    assert SortDescending([e]) == [e];
    SortCons(d, [e]);
    InsertCons(d, e, []);
    SortCons(c, [d, e]);
    InsertCons(c, e, [d]);
    InsertCons(c, d, []);
    SortCons(b, [c, d, e]);
    InsertCons(b, e, [d, c]);
    SortCons(a, [b, c, d, e]);
    InsertCons(a, b, [e, d, c]);
  }

  lemma LateRanking(results: seq<Scored>)
    requires results == [(1, 1.0), (5, 1.0), (2, 0.1), (4, 0.3), (2, 0.5)]
    ensures !EachOnce(Ranked(results))
  {
    LateSorted((1, 1.0), (5, 1.0), (2, 0.1), (4, 0.3), (2, 0.5));
    var sorted := SortDescending(results);
    assert sorted[2].0 == sorted[4].0 && sorted[3].0 != sorted[2].0;
    assert !Grouped(sorted);
    DedupUniqueIffGrouped(sorted);
  }

  lemma LateListed(results: seq<Scored>, live: set<nat>, listed: seq<Scored>)
    requires results == [(1, 1.0), (5, 1.0), (2, 0.1), (4, 0.3), (2, 0.5)] && live == {1, 2, 4, 5}
    requires listed == WithRecords(Ranked(results), live)
    ensures !EachOnce(listed)
  {
    LateRanking(results);
    RankedDescends(results);
    AllHaveRecords(Ranked(results), live);
  }

  /** What the step lists, and the run of its loop. */
  method ListedVertices(g: Graph, p: Params, input: seq<Item>, liveVertices: set<nat>)
    returns (listed: seq<Scored>, ghost run: seq<State>)
    requires g.NonNegative() && p.decay >= 0.0
    ensures IsRun(g, p, SeedsOf(input), run)
    ensures listed == WithRecords(Ranked(run[|run| - 1].results), liveVertices)
  {
    ghost var seeds, recorded;
    var visited, ranked, edges;
    visited, ranked, listed, edges, seeds, recorded, run := Traverse(g, p, input, liveVertices, {});
  }

  /** A vertex that improves late is listed twice although every seed is distinct. */
  method LateImprovementRepeatsVertex() returns (listed: seq<Scored>)
    ensures !EachOnce(listed)
  {
    ghost var run;
    listed, run := ListedVertices(LateGraph(), LATE_PARAMS, [VertexItem(1), VertexItem(5)], {1, 2, 4, 5});
    TwoVertexSeeds(1, 5);
    LateRun(run);
    LateListed(run[|run| - 1].results, {1, 2, 4, 5}, listed);
  }

  lemma TwoVertexSeeds(u: nat, v: nat)
    ensures SeedsOf([VertexItem(u), VertexItem(v)]) == [u, v]
  {
    var input := [VertexItem(u), VertexItem(v)];
    assert input[..1] == [VertexItem(u)] && input[..1][..0] == [];
    assert SeedsOf(input[..1]) == [u];
  }
}
