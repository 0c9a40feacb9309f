/** What the relaxation loop records, without the loop.
  *
  * The loop goes on only from scores that improve a vertex. The simple form goes on from every active walk: it lists all of
  * them breadth first, and the recorded scores are the running maxima of that list, vertex by vertex.
  */
module BreadthFirst {
  import opened ScoreRanking
  import opened Sequences
  import opened SpreadingActivation

  // ── All active walks, breadth first ───────────────────────────────────────

  function HopOver(g: Graph, p: Params, e: Entry, arc: Arc): Entry {
    Entry(arc.far, Spread(g, p, e.score, arc.edge), e.depth + 1)
  }

  function ActiveOnly(p: Params, hop: Entry): seq<Entry> {
    if hop.score >= p.activate then [hop] else []
  }

  /** The active continuations of a walk over the given edges. */
  function HopsOver(g: Graph, p: Params, e: Entry, arcs: seq<Arc>): seq<Entry> {
    Flatten(arc => ActiveOnly(p, HopOver(g, p, e, arc)), arcs)
  }

  /** Its continuations within the depth limit, outgoing edges first. */
  function Hops(g: Graph, p: Params, e: Entry): seq<Entry> {
    if e.depth >= p.maxDepth then [] else HopsOver(g, p, e, g.OutEdges(e.v)) + HopsOver(g, p, e, g.InEdges(e.v))
  }

  function HopsIn(g: Graph, p: Params): Entry -> seq<Entry> {
    e => Hops(g, p, e)
  }

  function AllHops(g: Graph, p: Params, es: seq<Entry>): seq<Entry> {
    Flatten(HopsIn(g, p), es)
  }

  function SeedEntries(seeds: seq<nat>): seq<Entry> {
    seq(|seeds|, i requires 0 <= i < |seeds| => Entry(seeds[i], 1.0, 0))
  }

  /** What is at least one and at most `hops` steps beyond the first entries, breadth first. */
  function Beyond(next: Entry -> seq<Entry>, first: seq<Entry>, hops: nat): seq<Entry> {
    if hops == 0 then [] else Flatten(next, first + Beyond(next, first, hops - 1))
  }

  /** The active walks of at least one and at most `hops` hops, breadth first, as ends, scores and lengths. */
  function WalksBeyondSeeds(g: Graph, p: Params, seeds: seq<nat>, hops: nat): seq<Entry> {
    Beyond(HopsIn(g, p), SeedEntries(seeds), hops)
  }

  function Walks(g: Graph, p: Params, seeds: seq<nat>, hops: nat): seq<Entry> {
    SeedEntries(seeds) + WalksBeyondSeeds(g, p, seeds, hops)
  }

  // ── Running maxima ────────────────────────────────────────────────────────

  /** The best score of every vertex after a list of walks. */
  function Best(best: map<nat, real>, es: seq<Entry>): map<nat, real> {
    if es == [] then best
    else
      var before, e := Best(best, es[..|es| - 1]), es[|es| - 1];
      if e.score > ScoreAt(before, e.v) then before[e.v := e.score] else before
  }

  /** The walks that improve their end. */
  function Improving(best: map<nat, real>, es: seq<Entry>): seq<Entry> {
    if es == [] then []
    else
      var before, e := Best(best, es[..|es| - 1]), es[|es| - 1];
      Improving(best, es[..|es| - 1]) + if e.score > ScoreAt(before, e.v) then [e] else []
  }

  /** The scores of at least the minimum. */
  function Items(p: Params, es: seq<Entry>): seq<Scored> {
    if es == [] then []
    else
      var e := es[|es| - 1];
      Items(p, es[..|es| - 1]) + if e.score >= p.minScore then [(e.v, e.score)] else []
  }

  function SeedScores(seeds: seq<nat>): map<nat, real> {
    map v | v in seeds :: 1.0
  }

  /** What the step records: the seeds, then the running maxima of the active walks within the depth limit. */
  function Maxima(g: Graph, p: Params, seeds: seq<nat>): seq<Scored> {
    SeedItems(seeds) + Items(p, Improving(SeedScores(seeds), WalksBeyondSeeds(g, p, seeds, p.maxDepth)))
  }

  // ── Lists in two parts ────────────────────────────────────────────────────

  lemma HopsOfConcat(g: Graph, p: Params, a: seq<Entry>, b: seq<Entry>)
    ensures AllHops(g, p, a + b) == AllHops(g, p, a) + AllHops(g, p, b)
  {
    FlattenConcat(HopsIn(g, p), a, b);
  }

  lemma {:induction false} MaximaOfConcat(best: map<nat, real>, a: seq<Entry>, b: seq<Entry>)
    ensures Best(best, a + b) == Best(Best(best, a), b)
    ensures Improving(best, a + b) == Improving(best, a) + Improving(Best(best, a), b)
    decreases |b|
  {
    if b == [] {
      assert a + b == a;
    } else {
      assert (a + b)[..|a + b| - 1] == a + b[..|b| - 1];
      MaximaOfConcat(best, a, b[..|b| - 1]);
    }
  }

  lemma {:induction false} ItemsOfConcat(p: Params, a: seq<Entry>, b: seq<Entry>)
    ensures Items(p, a + b) == Items(p, a) + Items(p, b)
    decreases |b|
  {
    if b == [] {
      assert a + b == a;
    } else {
      assert (a + b)[..|a + b| - 1] == a + b[..|b| - 1];
      ItemsOfConcat(p, a, b[..|b| - 1]);
    }
  }

  /** A vertex with score 0 and one without a score are the same to the search. */
  ghost predicate SameScores(a: map<nat, real>, b: map<nat, real>) {
    forall v :: ScoreAt(a, v) == ScoreAt(b, v)
  }

  lemma {:induction false} SameMaxima(a: map<nat, real>, b: map<nat, real>, es: seq<Entry>)
    requires SameScores(a, b)
    ensures SameScores(Best(a, es), Best(b, es)) && Improving(a, es) == Improving(b, es)
    decreases |es|
  {
    if es != [] {
      var init, e := es[..|es| - 1], es[|es| - 1];
      SameMaxima(a, b, init);
      SameUpdate(Best(a, init), Best(b, init), e);
    }
  }

  lemma SameUpdate(a: map<nat, real>, b: map<nat, real>, e: Entry)
    requires SameScores(a, b)
    ensures SameScores(a[e.v := e.score], b[e.v := e.score])
  {
    var a', b' := a[e.v := e.score], b[e.v := e.score];
    forall v ensures ScoreAt(a', v) == ScoreAt(b', v) {
      assert ScoreAt(a, v) == ScoreAt(b, v);
    }
  }

  // ── Walks that improve nothing can be dropped ─────────────────────────────

  lemma {:induction false} BestTops(best: map<nat, real>, es: seq<Entry>)
    ensures forall v :: ScoreAt(best, v) >= 0.0 ==> ScoreAt(Best(best, es), v) >= ScoreAt(best, v)
    ensures forall e | e in es :: e.score <= ScoreAt(Best(best, es), e.v)
    decreases |es|
  {
    if es != [] {
      var init := es[..|es| - 1];
      BestTops(best, init);
      assert es == init + [es[|es| - 1]];
    }
  }

  /** No walk of the list tops the best scores. */
  ghost predicate Topped(best: map<nat, real>, es: seq<Entry>) {
    forall e | e in es :: e.score <= ScoreAt(best, e.v)
  }

  lemma {:induction false} ToppedAddNothing(best: map<nat, real>, es: seq<Entry>)
    requires Topped(best, es)
    ensures Best(best, es) == best && Improving(best, es) == []
    decreases |es|
  {
    if es != [] {
      var init := es[..|es| - 1];
      assert es == init + [es[|es| - 1]];
      ToppedAddNothing(best, init);
    }
  }

  ghost predicate NonNegative(best: map<nat, real>) {
    forall v | v in best :: best[v] >= 0.0
  }

  /** Going on from the best score of a vertex tops nothing any more. */
  ghost predicate Closed(g: Graph, p: Params, best: map<nat, real>, next: map<nat, real>) {
    forall v, outgoing, arc | arc in g.Edges(v, outgoing) ::
      var score := Spread(g, p, ScoreAt(best, v), arc.edge);
      score >= p.activate ==> score <= ScoreAt(next, arc.far)
  }

  lemma HopsOverAre(g: Graph, p: Params, e: Entry, arcs: seq<Arc>, h: Entry)
    ensures h in HopsOver(g, p, e, arcs) <==> h.score >= p.activate && exists arc :: arc in arcs && h == HopOver(g, p, e, arc)
  {
    FlattenHolds(arc => ActiveOnly(p, HopOver(g, p, e, arc)), arcs, h);
  }

  lemma HopsAre(g: Graph, p: Params, e: Entry, h: Entry)
    ensures h in Hops(g, p, e) <==>
      && e.depth < p.maxDepth && h.score >= p.activate
      && exists arc, outgoing :: arc in g.Edges(e.v, outgoing) && h == HopOver(g, p, e, arc)
  {
    HopsOverAre(g, p, e, g.OutEdges(e.v), h);
    HopsOverAre(g, p, e, g.InEdges(e.v), h);
    assert forall arc :: arc in g.Edges(e.v, true) <==> arc in g.OutEdges(e.v);
    assert forall arc :: arc in g.Edges(e.v, false) <==> arc in g.InEdges(e.v);
  }

  lemma ClosedTops(g: Graph, p: Params, best: map<nat, real>, next: map<nat, real>, e: Entry)
    requires g.NonNegative() && p.decay >= 0.0
    requires Closed(g, p, best, next) && e.score <= ScoreAt(best, e.v)
    ensures Topped(next, Hops(g, p, e))
  {
    forall h | h in Hops(g, p, e) ensures h.score <= ScoreAt(next, h.v) {
      HopsAre(g, p, e, h);
      var arc, outgoing :| arc in g.Edges(e.v, outgoing) && h == HopOver(g, p, e, arc);
      SpreadMonotone(g, p, e.score, ScoreAt(best, e.v), arc.edge);
    }
  }

  /** Going on from an improving walk keeps everything closed. */
  lemma HopsClose(g: Graph, p: Params, best: map<nat, real>, next: map<nat, real>, e: Entry)
    requires Closed(g, p, best, next) && NonNegative(next) && e.depth < p.maxDepth
    ensures Closed(g, p, best[e.v := e.score], Best(next, Hops(g, p, e)))
  {
    var next' := Best(next, Hops(g, p, e));
    BestTops(next, Hops(g, p, e));
    forall v, outgoing, arc | arc in g.Edges(v, outgoing)
      ensures var score := Spread(g, p, ScoreAt(best[e.v := e.score], v), arc.edge);
        score >= p.activate ==> score <= ScoreAt(next', arc.far)
    {
      if v == e.v {
        HopsAre(g, p, e, HopOver(g, p, e, arc));
      } else {
        assert ScoreAt(best[e.v := e.score], v) == ScoreAt(best, v);
      }
    }
  }

  lemma {:induction false} BestNonNegative(best: map<nat, real>, es: seq<Entry>)
    requires NonNegative(best)
    ensures NonNegative(Best(best, es))
    decreases |es|
  {
    if es != [] {
      BestNonNegative(best, es[..|es| - 1]);
    }
  }

  lemma MaximaNext(g: Graph, p: Params, next: map<nat, real>, init: seq<Entry>, e: Entry)
    ensures var before := Best(next, AllHops(g, p, init));
      && Best(next, AllHops(g, p, init + [e])) == Best(before, Hops(g, p, e))
      && Improving(next, AllHops(g, p, init + [e])) == Improving(next, AllHops(g, p, init)) + Improving(before, Hops(g, p, e))
  {
    assert (init + [e])[..|init + [e]| - 1] == init;
    MaximaOfConcat(next, AllHops(g, p, init), Hops(g, p, e));
  }

  ghost predicate AllShallow(p: Params, es: seq<Entry>) {
    forall e | e in es :: e.depth < p.maxDepth
  }

  /** The maxima of what follows a list are those of what follows a part of it. */
  ghost predicate SameNext(g: Graph, p: Params, next: map<nat, real>, es: seq<Entry>, kept: seq<Entry>) {
    && Best(next, AllHops(g, p, es)) == Best(next, AllHops(g, p, kept))
    && Improving(next, AllHops(g, p, es)) == Improving(next, AllHops(g, p, kept))
  }

  lemma KeepOne(g: Graph, p: Params, best: map<nat, real>, next: map<nat, real>, es: seq<Entry>, kept: seq<Entry>, e: Entry)
    requires NonNegative(next) && SameNext(g, p, next, es, kept) && e.depth < p.maxDepth
    requires Closed(g, p, best, Best(next, AllHops(g, p, es)))
    ensures SameNext(g, p, next, es + [e], kept + [e])
    ensures Closed(g, p, best[e.v := e.score], Best(next, AllHops(g, p, es + [e])))
  {
    MaximaNext(g, p, next, es, e);
    MaximaNext(g, p, next, kept, e);
    BestNonNegative(next, AllHops(g, p, es));
    HopsClose(g, p, best, Best(next, AllHops(g, p, es)), e);
  }

  lemma DropOne(g: Graph, p: Params, best: map<nat, real>, next: map<nat, real>, es: seq<Entry>, kept: seq<Entry>, e: Entry)
    requires g.NonNegative() && p.decay >= 0.0 && SameNext(g, p, next, es, kept)
    requires Closed(g, p, best, Best(next, AllHops(g, p, es))) && e.score <= ScoreAt(best, e.v)
    ensures SameNext(g, p, next, es + [e], kept)
    ensures Closed(g, p, best, Best(next, AllHops(g, p, es + [e])))
  {
    var reached := Best(next, AllHops(g, p, es));
    MaximaNext(g, p, next, es, e);
    ClosedTops(g, p, best, reached, e);
    ToppedAddNothing(reached, Hops(g, p, e));
  }

  lemma PruneOne(g: Graph, p: Params, best: map<nat, real>, next: map<nat, real>, es: seq<Entry>, kept: seq<Entry>, e: Entry,
                 es': seq<Entry>, kept': seq<Entry>, best': map<nat, real>)
    requires g.NonNegative() && p.decay >= 0.0 && NonNegative(next) && SameNext(g, p, next, es, kept) && e.depth < p.maxDepth
    requires Closed(g, p, best, Best(next, AllHops(g, p, es))) && es' == es + [e]
    requires kept' == kept + if e.score > ScoreAt(best, e.v) then [e] else []
    requires best' == if e.score > ScoreAt(best, e.v) then best[e.v := e.score] else best
    ensures SameNext(g, p, next, es', kept') && Closed(g, p, best', Best(next, AllHops(g, p, es')))
  {
    if e.score > ScoreAt(best, e.v) {
      KeepOne(g, p, best, next, es, kept, e);
    } else {
      assert kept' == kept;
      DropOne(g, p, best, next, es, kept, e);
    }
  }

  /** Going on from the improving walks only gives the same maxima as going on from all of them. */
  lemma {:induction false} Prune(g: Graph, p: Params, best: map<nat, real>, next: map<nat, real>, es: seq<Entry>)
    requires g.NonNegative() && p.decay >= 0.0 && NonNegative(next) && Closed(g, p, best, next) && AllShallow(p, es)
    ensures SameNext(g, p, next, es, Improving(best, es))
    ensures Closed(g, p, Best(best, es), Best(next, AllHops(g, p, es)))
    decreases |es|
  {
    if es != [] {
      var init, e := es[..|es| - 1], es[|es| - 1];
      assert es == init + [e];
      Prune(g, p, best, next, init);
      PruneOne(g, p, Best(best, init), next, init, Improving(best, init), e, es, Improving(best, es), Best(best, es));
    }
  }

  // ── The list of walks ─────────────────────────────────────────────────────

  lemma AllHopsAre(g: Graph, p: Params, es: seq<Entry>, h: Entry)
    ensures h in AllHops(g, p, es) <==> exists e :: e in es && h in Hops(g, p, e)
  {
    FlattenHolds(HopsIn(g, p), es, h);
  }

  lemma HopsDepth(g: Graph, p: Params, e: Entry, h: Entry)
    requires h in Hops(g, p, e)
    ensures h.depth == e.depth + 1 <= p.maxDepth
  {
    HopsAre(g, p, e, h);
  }

  ghost predicate AllAt(es: seq<Entry>, depth: nat) {
    forall e | e in es :: e.depth == depth
  }

  lemma AllHopsDepth(g: Graph, p: Params, es: seq<Entry>, depth: nat)
    requires AllAt(es, depth)
    ensures AllAt(AllHops(g, p, es), depth + 1)
    ensures depth >= p.maxDepth ==> AllHops(g, p, es) == []
  {
    forall h | h in AllHops(g, p, es) ensures h.depth == depth + 1 <= p.maxDepth {
      AllHopsAre(g, p, es, h);
      var e :| e in es && h in Hops(g, p, e);
      HopsDepth(g, p, e, h);
    }
    EmptyOrInhabited(AllHops(g, p, es));
  }

  ghost predicate AllWithin(es: seq<Entry>, depth: nat) {
    forall e | e in es :: e.depth <= depth
  }

  ghost predicate Deepens(next: Entry -> seq<Entry>) {
    forall e, h | h in next(e) :: h.depth == e.depth + 1
  }

  lemma FlattenDepth(next: Entry -> seq<Entry>, es: seq<Entry>, depth: nat)
    requires Deepens(next) && AllAt(es, depth)
    ensures AllAt(Flatten(next, es), depth + 1)
  {
    forall h | h in Flatten(next, es) ensures h.depth == depth + 1 {
      FlattenHolds(next, es, h);
    }
  }

  /** One hop more appends the walks of that length. */
  ghost predicate NextLevel(next: Entry -> seq<Entry>, first: seq<Entry>, walks: seq<Entry>, level: seq<Entry>, depth: nat) {
    Flatten(next, first + walks) == walks + level && AllAt(level, depth + 1) && AllWithin(walks, depth)
  }

  lemma LevelAfter(next: Entry -> seq<Entry>, first: seq<Entry>, walks: seq<Entry>, level: seq<Entry>, depth: nat)
    requires Deepens(next) && NextLevel(next, first, walks, level, depth)
    ensures NextLevel(next, first, walks + level, Flatten(next, level), depth + 1)
  {
    assert first + (walks + level) == (first + walks) + level;
    FlattenConcat(next, first + walks, level);
    FlattenDepth(next, level, depth + 1);
  }

  lemma {:induction false} Levels(next: Entry -> seq<Entry>, first: seq<Entry>, hops: nat) returns (level: seq<Entry>)
    requires Deepens(next) && AllAt(first, 0)
    ensures NextLevel(next, first, Beyond(next, first, hops), level, hops)
  {
    if hops == 0 {
      assert first + [] == first;
      FlattenDepth(next, first, 0);
      level := Flatten(next, first);
    } else {
      var last := Levels(next, first, hops - 1);
      LevelAfter(next, first, Beyond(next, first, hops - 1), last, hops - 1);
      level := Flatten(next, last);
    }
  }

  lemma LevelsOf(g: Graph, p: Params, seeds: seq<nat>, hops: nat) returns (level: seq<Entry>)
    ensures WalksBeyondSeeds(g, p, seeds, hops + 1) == WalksBeyondSeeds(g, p, seeds, hops) + level
    ensures AllAt(level, hops + 1) && AllWithin(WalksBeyondSeeds(g, p, seeds, hops), hops)
  {
    var next := HopsIn(g, p);
    forall e, h | h in next(e) ensures h.depth == e.depth + 1 {
      HopsDepth(g, p, e, h);
    }
    level := Levels(next, SeedEntries(seeds), hops);
  }

  lemma WalkGoesOn(g: Graph, p: Params, seeds: seq<nat>, f: Entry, prev: Walk, e: Entry) returns (w: Walk)
    requires WalkOf(g, p, seeds, f, prev) && e in Hops(g, p, f)
    ensures WalkOf(g, p, seeds, e, w) && w.Hops() == prev.Hops() + 1
  {
    HopsAre(g, p, f, e);
    var arc, outgoing :| arc in g.Edges(f.v, outgoing) && e == HopOver(g, p, f, arc);
    w := Hop(prev, arc, outgoing);
  }

  function EntryOf(g: Graph, p: Params, w: Walk): Entry {
    Entry(w.End(), Score(g, p, w), w.Hops())
  }

  ghost predicate Sound(g: Graph, p: Params, seeds: seq<nat>, walks: seq<Entry>, hops: nat) {
    forall e | e in walks :: exists w :: WalkOf(g, p, seeds, e, w) && w.Hops() <= hops
  }

  ghost predicate Complete(g: Graph, p: Params, seeds: seq<nat>, walks: seq<Entry>, hops: nat) {
    forall w: Walk | Active(g, p, seeds, w) && w.Hops() <= hops :: EntryOf(g, p, w) in walks
  }

  lemma SoundNext(g: Graph, p: Params, seeds: seq<nat>, walks: seq<Entry>, hops: nat)
    requires Sound(g, p, seeds, walks, hops)
    ensures Sound(g, p, seeds, SeedEntries(seeds) + AllHops(g, p, walks), hops + 1)
  {
    forall e | e in SeedEntries(seeds) + AllHops(g, p, walks) ensures exists w :: WalkOf(g, p, seeds, e, w) && w.Hops() <= hops + 1 {
      if e in SeedEntries(seeds) {
        assert WalkOf(g, p, seeds, e, Start(e.v));
      } else {
        AllHopsAre(g, p, walks, e);
        var f :| f in walks && e in Hops(g, p, f);
        var prev :| WalkOf(g, p, seeds, f, prev) && prev.Hops() <= hops;
        var w := WalkGoesOn(g, p, seeds, f, prev, e);
      }
    }
  }

  lemma SeedsListed(g: Graph, p: Params, seeds: seq<nat>, v: nat)
    requires v in seeds
    ensures EntryOf(g, p, Start(v)) in SeedEntries(seeds)
  {
    var i :| 0 <= i < |seeds| && seeds[i] == v;
    assert SeedEntries(seeds)[i] == EntryOf(g, p, Start(v));
  }

  lemma CompleteNext(g: Graph, p: Params, seeds: seq<nat>, walks: seq<Entry>, hops: nat)
    requires Complete(g, p, seeds, walks, hops) && hops < p.maxDepth
    ensures Complete(g, p, seeds, SeedEntries(seeds) + AllHops(g, p, walks), hops + 1)
  {
    forall w: Walk | Active(g, p, seeds, w) && w.Hops() <= hops + 1
      ensures EntryOf(g, p, w) in SeedEntries(seeds) + AllHops(g, p, walks)
    {
      match w
      case Start(v) => SeedsListed(g, p, seeds, v);
      case Hop(prev, arc, outgoing) =>
        HopsAre(g, p, EntryOf(g, p, prev), EntryOf(g, p, w));
        assert EntryOf(g, p, w) == HopOver(g, p, EntryOf(g, p, prev), arc);
        AllHopsAre(g, p, walks, EntryOf(g, p, w));
    }
  }

  ghost predicate ListsActive(g: Graph, p: Params, seeds: seq<nat>, walks: seq<Entry>, hops: nat) {
    Sound(g, p, seeds, walks, hops) && Complete(g, p, seeds, walks, hops)
  }

  lemma FirstWalks(g: Graph, p: Params, seeds: seq<nat>)
    ensures ListsActive(g, p, seeds, SeedEntries(seeds), 0)
  {
    forall e | e in SeedEntries(seeds) ensures exists w :: WalkOf(g, p, seeds, e, w) && w.Hops() <= 0 {
      assert WalkOf(g, p, seeds, e, Start(e.v));
    }
    forall w: Walk | Active(g, p, seeds, w) && w.Hops() <= 0 ensures EntryOf(g, p, w) in SeedEntries(seeds) {
      SeedsListed(g, p, seeds, w.seed);
    }
  }

  lemma NextWalks(g: Graph, p: Params, seeds: seq<nat>, walks: seq<Entry>, hops: nat, walks': seq<Entry>)
    requires ListsActive(g, p, seeds, walks, hops) && hops < p.maxDepth
    requires walks' == SeedEntries(seeds) + AllHops(g, p, walks)
    ensures ListsActive(g, p, seeds, walks', hops + 1)
  {
    SoundNext(g, p, seeds, walks, hops);
    CompleteNext(g, p, seeds, walks, hops);
  }

  lemma {:induction false} BeyondKeeps(next: Entry -> seq<Entry>, first: seq<Entry>, hops: nat, inv: (seq<Entry>, nat) -> bool)
    requires inv(first, 0)
    requires forall walks, k: nat | k < hops && inv(walks, k) :: inv(first + Flatten(next, walks), k + 1)
    ensures inv(first + Beyond(next, first, hops), hops)
  {
    if hops == 0 {
      assert first + [] == first;
    } else {
      BeyondKeeps(next, first, hops - 1, inv);
    }
  }

  /** The list holds exactly the active walks of at most the given length. */
  lemma WalksAreActive(g: Graph, p: Params, seeds: seq<nat>, hops: nat)
    requires hops <= p.maxDepth
    ensures ListsActive(g, p, seeds, Walks(g, p, seeds, hops), hops)
  {
    var inv := (walks: seq<Entry>, k: nat) => ListsActive(g, p, seeds, walks, k);
    FirstWalks(g, p, seeds);
    forall walks: seq<Entry>, k: nat | k < hops && inv(walks, k) ensures inv(SeedEntries(seeds) + Flatten(HopsIn(g, p), walks), k + 1) {
      NextWalks(g, p, seeds, walks, k, SeedEntries(seeds) + AllHops(g, p, walks));
    }
    BeyondKeeps(HopsIn(g, p), SeedEntries(seeds), hops, inv);
  }

  // ── The loop follows the list ─────────────────────────────────────────────

  /** `st'` took in the improving ones of these walks. */
  ghost predicate Grown(p: Params, st: State, st': State, hops: seq<Entry>) {
    && st'.frontier == st.frontier + Improving(st.visited, hops)
    && SameScores(st'.visited, Best(st.visited, hops))
    && st'.results == st.results + Items(p, Improving(st.visited, hops))
  }

  lemma GrownNothing(p: Params, st: State)
    ensures Grown(p, st, st, [])
  {
  }

  lemma GrownTwice(p: Params, st: State, a: seq<Entry>, mid: State, b: seq<Entry>, st': State)
    requires Grown(p, st, mid, a) && Grown(p, mid, st', b)
    ensures Grown(p, st, st', a + b)
  {
    var first, second := Improving(st.visited, a), Improving(mid.visited, b);
    MaximaOfConcat(st.visited, a, b);
    SameMaxima(mid.visited, Best(st.visited, a), b);
    ItemsOfConcat(p, first, second);
    GrownParts(p, st, mid, st', first, second);
  }

  lemma GrownParts(p: Params, st: State, mid: State, st': State, first: seq<Entry>, second: seq<Entry>)
    requires mid.frontier == st.frontier + first && st'.frontier == mid.frontier + second
    requires mid.results == st.results + Items(p, first) && st'.results == mid.results + Items(p, second)
    requires Items(p, first + second) == Items(p, first) + Items(p, second)
    ensures st'.frontier == st.frontier + (first + second) && st'.results == st.results + Items(p, first + second)
  {
  }

  lemma OneHop(p: Params, best: map<nat, real>, hop: Entry)
    ensures Best(best, [hop]) == if hop.score > ScoreAt(best, hop.v) then best[hop.v := hop.score] else best
    ensures Improving(best, [hop]) == if hop.score > ScoreAt(best, hop.v) then [hop] else []
    ensures Items(p, [hop]) == if hop.score >= p.minScore then [(hop.v, hop.score)] else []
  {
    assert [hop][..0] == [];
  }

  lemma PushGrows(p: Params, st: State, st': State, hop: Entry, c: Crossing)
    requires Pushed(p, st, st', hop, c) && hop.score > ScoreAt(st.visited, hop.v)
    ensures Grown(p, st, st', [hop])
  {
    OneHop(p, st.visited, hop);
  }

  lemma KeepGrows(p: Params, st: State, st': State, hop: Entry, c: Crossing)
    requires Kept(st, st', hop.v, c) && hop.score <= ScoreAt(st.visited, hop.v)
    ensures Grown(p, st, st', [hop])
  {
    OneHop(p, st.visited, hop);
  }

  lemma RelaxGrows(g: Graph, p: Params, st: State, cur: Entry, arc: Arc, outgoing: bool)
    ensures Grown(p, st, Relax(g, p, st, cur, arc, outgoing), ActiveOnly(p, HopOver(g, p, cur, arc)))
  {
    var hop, c, st' := HopOver(g, p, cur, arc), CrossingOf(cur.v, arc, outgoing), Relax(g, p, st, cur, arc, outgoing);
    RelaxOutcome(g, p, st, cur, arc, outgoing);
    if hop.score < p.activate {
      GrownNothing(p, st);
    } else if hop.score > ScoreAt(st.visited, hop.v) {
      PushGrows(p, st, st', hop, c);
    } else {
      KeepGrows(p, st, st', hop, c);
    }
  }

  lemma {:induction false} FoldGrows(g: Graph, p: Params, st: State, cur: Entry, arcs: seq<Arc>, outgoing: bool, k: nat)
    requires k <= |arcs|
    ensures Grown(p, st, Fold(Relaxing(g, p, cur, arcs, outgoing), st, k), HopsOver(g, p, cur, arcs[..k]))
  {
    var step := Relaxing(g, p, cur, arcs, outgoing);
    if k == 0 {
      GrownNothing(p, st);
    } else {
      FoldGrows(g, p, st, cur, arcs, outgoing, k - 1);
      var mid, hops := Fold(step, st, k - 1), HopsOver(g, p, cur, arcs[..k - 1]);
      assert arcs[..k][..k - 1] == arcs[..k - 1];
      RelaxGrows(g, p, mid, cur, arcs[k - 1], outgoing);
      GrownTwice(p, st, hops, mid, ActiveOnly(p, HopOver(g, p, cur, arcs[k - 1])), Fold(step, st, k));
    }
  }

  lemma SpreadingGrows(g: Graph, p: Params, st: State, cur: Entry, outgoing: bool)
    requires Cached(if outgoing then st.outCache else st.inCache, cur.v) == g.Edges(cur.v, outgoing)
    ensures Grown(p, st, Spreading(g, p, st, cur, outgoing), HopsOver(g, p, cur, g.Edges(cur.v, outgoing)))
  {
    var arcs := g.Edges(cur.v, outgoing);
    FoldGrows(g, p, st, cur, arcs, outgoing, |arcs|);
    assert arcs[..|arcs|] == arcs;
  }

  lemma SpreadingCaches(g: Graph, p: Params, seeds: seq<nat>, st: State, cur: Entry, idx: nat, levelEnd: nat)
    requires Inv(g, p, seeds, st) && Layered(p, st, idx, cur.depth, levelEnd) && cur in st.frontier && cur.depth < p.maxDepth
    ensures var mid := Spreading(g, p, st, cur, true); CacheInv(g, mid) && cur in mid.frontier
  {
    SpreadingKeeps(g, p, seeds, st, cur, true, idx, levelEnd);
    assert SpreadInv(g, p, seeds, st, cur, true, idx, levelEnd, Spreading(g, p, st, cur, true), |g.OutEdges(cur.v)|);
  }

  lemma TurnGrows(g: Graph, p: Params, seeds: seq<nat>, st: State, idx: nat, depth: nat, levelEnd: nat)
    requires Inv(g, p, seeds, st) && Layered(p, st, idx, depth, levelEnd) && idx < levelEnd
    ensures Grown(p, st, AfterTurn(g, p, st, idx), Hops(g, p, st.frontier[idx]))
  {
    var cur := st.frontier[idx];
    if cur.depth < p.maxDepth {
      SpreadingCaches(g, p, seeds, st, cur, idx, levelEnd);
      BothGrow(g, p, st, Spreading(g, p, st, cur, true), cur);
    } else {
      GrownNothing(p, st);
    }
  }

  lemma BothGrow(g: Graph, p: Params, st: State, mid: State, cur: Entry)
    requires CacheInv(g, st) && CacheInv(g, mid) && cur in st.frontier && cur in mid.frontier && cur.depth < p.maxDepth
    requires mid == Spreading(g, p, st, cur, true)
    ensures Grown(p, st, Spreading(g, p, mid, cur, false), Hops(g, p, cur))
  {
    SpreadingGrows(g, p, st, cur, true);
    SpreadingGrows(g, p, mid, cur, false);
    GrownTwice(p, st, HopsOver(g, p, cur, g.OutEdges(cur.v)), mid, HopsOver(g, p, cur, g.InEdges(cur.v)),
               Spreading(g, p, mid, cur, false));
  }

  lemma TurnAt(g: Graph, p: Params, seeds: seq<nat>, run: seq<State>, i: nat)
    requires IsRun(g, p, seeds, run) && i < |run| - 1
    ensures i < |run[i].frontier| && Grown(p, run[i], run[i + 1], Hops(g, p, run[i].frontier[i]))
  {
    assert run[i + 1] == AfterTurn(g, p, run[i], i);
    var depth, levelEnd := RunKeeps(g, p, seeds, run[..i + 1], i);
    if i == levelEnd {
      depth, levelEnd := depth + 1, |run[i].frontier|;
    }
    TurnGrows(g, p, seeds, run[i], i, depth, levelEnd);
  }

  /** The walks that the first turns go on from. */
  lemma {:induction false} RunGrows(g: Graph, p: Params, seeds: seq<nat>, run: seq<State>, i: nat)
    requires IsRun(g, p, seeds, run) && i < |run|
    ensures i <= |run[i].frontier| && Grown(p, run[0], run[i], AllHops(g, p, run[i].frontier[..i]))
    decreases i
  {
    if i == 0 {
      GrownNothing(p, run[0]);
    } else {
      RunGrows(g, p, seeds, run, i - 1);
      TurnAt(g, p, seeds, run, i - 1);
      GrownOnce(g, p, run[0], run[i - 1], run[i], i - 1);
    }
  }

  lemma GrownOnce(g: Graph, p: Params, first: State, st: State, st': State, i: nat)
    requires i < |st.frontier| && Grown(p, first, st, AllHops(g, p, st.frontier[..i]))
    requires Grown(p, st, st', Hops(g, p, st.frontier[i]))
    ensures i + 1 <= |st'.frontier| && Grown(p, first, st', AllHops(g, p, st'.frontier[..i + 1]))
  {
    GrownTwice(p, first, AllHops(g, p, st.frontier[..i]), st, Hops(g, p, st.frontier[i]), st');
    var done := st'.frontier[..i + 1];
    assert done[..|done| - 1] == st.frontier[..i] && done[|done| - 1] == st.frontier[i];
  }

  lemma {:induction false} FrontierStays(g: Graph, p: Params, seeds: seq<nat>, run: seq<State>, i: nat)
    requires IsRun(g, p, seeds, run) && i < |run|
    ensures run[i].frontier <= run[|run| - 1].frontier
    decreases |run| - i
  {
    if i < |run| - 1 {
      TurnAt(g, p, seeds, run, i);
      FrontierStays(g, p, seeds, run, i + 1);
    }
  }

  lemma {:induction false} SeedsBegin(g: Graph, seeds: seq<nat>)
    ensures var st := AfterSeeds(g, seeds);
      st.frontier == SeedEntries(seeds) && st.visited == SeedScores(seeds) && st.results == SeedItems(seeds)
    decreases |seeds|
  {
    if seeds != [] {
      var init, v := seeds[..|seeds| - 1], seeds[|seeds| - 1];
      assert seeds == init + [v];
      SeedsBegin(g, init);
      SeedItemsSnoc(init, v);
      assert SeedEntries(seeds) == SeedEntries(init) + [Entry(v, 1.0, 0)];
      assert SeedScores(seeds) == SeedScores(init)[v := 1.0];
    }
  }

  // ── The loop's queue is the list of improving walks ───────────────────────

  /** The queue up to entries of the given length. */
  function Queue(g: Graph, p: Params, seeds: seq<nat>, hops: nat): seq<Entry> {
    SeedEntries(seeds) + Improving(SeedScores(seeds), WalksBeyondSeeds(g, p, seeds, hops))
  }

  lemma SeedsClose(g: Graph, p: Params, seeds: seq<nat>)
    requires p.maxDepth > 0
    ensures var next := Best(SeedScores(seeds), AllHops(g, p, SeedEntries(seeds)));
      NonNegative(next) && Closed(g, p, SeedScores(seeds), next)
  {
    var best, hops := SeedScores(seeds), AllHops(g, p, SeedEntries(seeds));
    var next := Best(best, hops);
    BestNonNegative(best, hops);
    BestTops(best, hops);
    forall v, outgoing, arc | arc in g.Edges(v, outgoing)
      ensures var score := Spread(g, p, ScoreAt(best, v), arc.edge); score >= p.activate ==> score <= ScoreAt(next, arc.far)
    {
      if v in seeds {
        var i :| 0 <= i < |seeds| && seeds[i] == v;
        var e := Entry(v, 1.0, 0);
        assert SeedEntries(seeds)[i] == e;
        HopsAre(g, p, e, HopOver(g, p, e, arc));
        AllHopsAre(g, p, SeedEntries(seeds), HopOver(g, p, e, arc));
      }
    }
  }

  lemma QueueBegins(g: Graph, p: Params, seeds: seq<nat>)
    ensures Queue(g, p, seeds, 0) == SeedEntries(seeds)
  {
  }

  /** What the loop makes of a queue. */
  function Continued(g: Graph, p: Params, seeds: seq<nat>, queue: seq<Entry>): seq<Entry> {
    SeedEntries(seeds) + Improving(SeedScores(seeds), AllHops(g, p, queue))
  }

  /** Going on from the queue gives the maxima of all walks that are one hop longer. */
  lemma QueueSuffices(g: Graph, p: Params, seeds: seq<nat>, hops: nat)
    requires g.NonNegative() && p.decay >= 0.0 && hops < p.maxDepth
    ensures Improving(SeedScores(seeds), AllHops(g, p, Queue(g, p, seeds, hops)))
            == Improving(SeedScores(seeds), WalksBeyondSeeds(g, p, seeds, hops + 1))
  {
    var walks := WalksBeyondSeeds(g, p, seeds, hops);
    SeedsClose(g, p, seeds);
    var level := LevelsOf(g, p, seeds, hops);
    PruneBeyond(g, p, SeedScores(seeds), SeedEntries(seeds), walks);
  }

  lemma PruneBeyond(g: Graph, p: Params, best: map<nat, real>, s: seq<Entry>, walks: seq<Entry>)
    requires g.NonNegative() && p.decay >= 0.0 && AllShallow(p, walks)
    requires var next := Best(best, AllHops(g, p, s)); NonNegative(next) && Closed(g, p, best, next)
    ensures Improving(best, AllHops(g, p, s + Improving(best, walks))) == Improving(best, AllHops(g, p, s + walks))
  {
    Prune(g, p, best, Best(best, AllHops(g, p, s)), walks);
    HopsOfConcat(g, p, s, walks);
    HopsOfConcat(g, p, s, Improving(best, walks));
    MaximaOfConcat(best, AllHops(g, p, s), AllHops(g, p, walks));
    MaximaOfConcat(best, AllHops(g, p, s), AllHops(g, p, Improving(best, walks)));
  }

  lemma {:induction false} ImprovingAt(best: map<nat, real>, es: seq<Entry>, depth: nat)
    requires AllAt(es, depth)
    ensures AllAt(Improving(best, es), depth)
    decreases |es|
  {
    if es != [] {
      var init := es[..|es| - 1];
      assert es == init + [es[|es| - 1]];
      ImprovingAt(best, init, depth);
    }
  }

  lemma QueueLevel(best: map<nat, real>, s: seq<Entry>, walks: seq<Entry>, level: seq<Entry>, depth: nat)
    returns (deepest: seq<Entry>)
    requires AllAt(level, depth)
    ensures s + Improving(best, walks + level) == s + Improving(best, walks) + deepest && AllAt(deepest, depth)
  {
    MaximaOfConcat(best, walks, level);
    deepest := Improving(Best(best, walks), level);
    ImprovingAt(Best(best, walks), level, depth);
  }

  lemma NotGoneOn(g: Graph, p: Params, queue: seq<Entry>, deepest: seq<Entry>)
    requires AllAt(deepest, p.maxDepth)
    ensures AllHops(g, p, queue + deepest) == AllHops(g, p, queue)
  {
    HopsOfConcat(g, p, queue, deepest);
    AllHopsDepth(g, p, deepest, p.maxDepth);
  }

  /** What goes on from the queue is what it took in, as the deepest entries are not gone on from. */
  ghost predicate Ends(g: Graph, p: Params, seeds: seq<nat>, queue: seq<Entry>, walks: seq<Entry>) {
    Improving(SeedScores(seeds), AllHops(g, p, queue)) == Improving(SeedScores(seeds), walks)
  }

  lemma LastLevel(g: Graph, p: Params, seeds: seq<nat>, hops: nat)
    requires g.NonNegative() && p.decay >= 0.0 && hops + 1 == p.maxDepth
    ensures Ends(g, p, seeds, Queue(g, p, seeds, hops + 1), WalksBeyondSeeds(g, p, seeds, hops + 1))
  {
    var level := LevelsOf(g, p, seeds, hops);
    var deepest := QueueLevel(SeedScores(seeds), SeedEntries(seeds), WalksBeyondSeeds(g, p, seeds, hops), level, p.maxDepth);
    NotGoneOn(g, p, Queue(g, p, seeds, hops), deepest);
    QueueSuffices(g, p, seeds, hops);
  }

  lemma NoLevel(g: Graph, p: Params, seeds: seq<nat>)
    requires p.maxDepth == 0
    ensures Ends(g, p, seeds, Queue(g, p, seeds, 0), WalksBeyondSeeds(g, p, seeds, 0))
  {
    QueueBegins(g, p, seeds);
    AllHopsDepth(g, p, SeedEntries(seeds), 0);
  }

  lemma QueueEnds(g: Graph, p: Params, seeds: seq<nat>) returns (queue: seq<Entry>, walks: seq<Entry>)
    requires g.NonNegative() && p.decay >= 0.0
    ensures queue == Queue(g, p, seeds, p.maxDepth) && walks == WalksBeyondSeeds(g, p, seeds, p.maxDepth)
    ensures Ends(g, p, seeds, queue, walks) && queue == SeedEntries(seeds) + Improving(SeedScores(seeds), walks)
  {
    queue, walks := Queue(g, p, seeds, p.maxDepth), WalksBeyondSeeds(g, p, seeds, p.maxDepth);
    if p.maxDepth == 0 {
      NoLevel(g, p, seeds);
    } else {
      LastLevel(g, p, seeds, p.maxDepth - 1);
    }
  }

  lemma FilledOn(g: Graph, p: Params, seeds: seq<nat>, frontier: seq<Entry>, queue: seq<Entry>)
    requires frontier == Continued(g, p, seeds, frontier) && queue <= frontier
    ensures Continued(g, p, seeds, queue) <= frontier
  {
    var rest := frontier[|queue|..];
    assert frontier == queue + rest;
    HopsOfConcat(g, p, queue, rest);
    MaximaOfConcat(SeedScores(seeds), AllHops(g, p, queue), AllHops(g, p, rest));
  }

  /** The queue goes on from everything at its beginning. */
  ghost predicate GoesOn(g: Graph, p: Params, seeds: seq<nat>, frontier: seq<Entry>) {
    && SeedEntries(seeds) <= frontier
    && forall queue: seq<Entry> | queue <= frontier :: Continued(g, p, seeds, queue) <= frontier
  }

  lemma FilledGoesOn(g: Graph, p: Params, seeds: seq<nat>, frontier: seq<Entry>)
    requires frontier == Continued(g, p, seeds, frontier)
    ensures GoesOn(g, p, seeds, frontier)
  {
    forall queue: seq<Entry> | queue <= frontier ensures Continued(g, p, seeds, queue) <= frontier {
      FilledOn(g, p, seeds, frontier, queue);
    }
  }

  lemma QueueNext(g: Graph, p: Params, seeds: seq<nat>, hops: nat)
    requires g.NonNegative() && p.decay >= 0.0 && hops < p.maxDepth
    ensures Queue(g, p, seeds, hops + 1) == Continued(g, p, seeds, Queue(g, p, seeds, hops))
  {
    QueueSuffices(g, p, seeds, hops);
  }

  /** The frontier begins with the queue after the given hops. */
  ghost predicate Filled(g: Graph, p: Params, seeds: seq<nat>, frontier: seq<Entry>, hops: nat) {
    Queue(g, p, seeds, hops) <= frontier
  }

  lemma FilledFirst(g: Graph, p: Params, seeds: seq<nat>, frontier: seq<Entry>)
    requires GoesOn(g, p, seeds, frontier)
    ensures Filled(g, p, seeds, frontier, 0)
  {
    QueueBegins(g, p, seeds);
  }

  lemma FilledNext(g: Graph, p: Params, seeds: seq<nat>, frontier: seq<Entry>, hops: nat)
    requires g.NonNegative() && p.decay >= 0.0 && hops < p.maxDepth && GoesOn(g, p, seeds, frontier)
    requires Filled(g, p, seeds, frontier, hops)
    ensures Filled(g, p, seeds, frontier, hops + 1)
  {
    QueueNext(g, p, seeds, hops);
  }

  lemma {:induction false} QueueIsFilled(g: Graph, p: Params, seeds: seq<nat>, frontier: seq<Entry>, hops: nat)
    requires g.NonNegative() && p.decay >= 0.0 && hops <= p.maxDepth && GoesOn(g, p, seeds, frontier)
    ensures Filled(g, p, seeds, frontier, hops)
    decreases hops
  {
    if hops == 0 {
      FilledFirst(g, p, seeds, frontier);
    } else {
      QueueIsFilled(g, p, seeds, frontier, hops - 1);
      FilledNext(g, p, seeds, frontier, hops - 1);
    }
  }

  lemma RunStops(g: Graph, p: Params, seeds: seq<nat>, run: seq<State>, queue: seq<Entry>, walks: seq<Entry>)
    requires IsRun(g, p, seeds, run) && queue <= run[|run| - 1].frontier
    requires Ends(g, p, seeds, queue, walks) && queue == SeedEntries(seeds) + Improving(SeedScores(seeds), walks)
    ensures run[|run| - 1].frontier == queue
  {
    var n := |queue|;
    SeedsBegin(g, seeds);
    RunGrows(g, p, seeds, run, n);
    FrontierStays(g, p, seeds, run, n);
    assert run[n].frontier[..n] == queue;
    assert |run[n].frontier| == n;
    assert n == |run| - 1;
  }

  /** The queue of a finished run holds the seeds and the improving walks, and nothing else. */
  lemma RunRecords(g: Graph, p: Params, seeds: seq<nat>, run: seq<State>, walks: seq<Entry>)
    requires g.NonNegative() && p.decay >= 0.0 && IsRun(g, p, seeds, run)
    requires walks == WalksBeyondSeeds(g, p, seeds, p.maxDepth)
    ensures run[|run| - 1].results == SeedItems(seeds) + Items(p, Improving(SeedScores(seeds), walks))
  {
    var last := |run| - 1;
    var frontier := run[last].frontier;
    SeedsBegin(g, seeds);
    RunGrows(g, p, seeds, run, last);
    assert frontier[..last] == frontier;
    FilledGoesOn(g, p, seeds, frontier);
    QueueIsFilled(g, p, seeds, frontier, p.maxDepth);
    var queue, same := QueueEnds(g, p, seeds);
    RunStops(g, p, seeds, run, queue, walks);
    ResultsOf(p, seeds, run[0], run[last], AllHops(g, p, queue), walks);
  }

  lemma ResultsOf(p: Params, seeds: seq<nat>, first: State, st: State, hops: seq<Entry>, walks: seq<Entry>)
    requires Grown(p, first, st, hops) && first.results == SeedItems(seeds) && first.visited == SeedScores(seeds)
    requires Improving(SeedScores(seeds), hops) == Improving(SeedScores(seeds), walks)
    ensures st.results == SeedItems(seeds) + Items(p, Improving(SeedScores(seeds), walks))
  {
  }

  /** Main result: the loop records exactly the running maxima of all active walks within the depth limit, breadth first. */
  lemma RecordsAreMaxima(g: Graph, p: Params, seeds: seq<nat>, run: seq<State>)
    requires g.NonNegative() && p.decay >= 0.0 && IsRun(g, p, seeds, run)
    ensures run[|run| - 1].results == Maxima(g, p, seeds)
  {
    RunRecords(g, p, seeds, run, WalksBeyondSeeds(g, p, seeds, p.maxDepth));
  }

  /** The step lists each vertex once iff among the running maxima of the active walks nothing is ranked between two
    * scores of one vertex.
    */
  lemma ListsEachOnceIff(g: Graph, p: Params, seeds: seq<nat>, run: seq<State>)
    requires g.NonNegative() && p.decay >= 0.0 && IsRun(g, p, seeds, run)
    ensures EachOnce(Ranked(run[|run| - 1].results)) <==> NothingBetween(Maxima(g, p, seeds))
  {
    RecordsAreMaxima(g, p, seeds, run);
    EachOnceIff(Maxima(g, p, seeds));
  }
}
