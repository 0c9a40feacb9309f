/** The `out` step: a depth-limited search that takes frontier entries from the end of a vector,
  * so it runs depth first although its depth counter suits a breadth-first search.
  *
  * A vertex first reached along a long path keeps that depth for good. The search is therefore
  * sound for every depth limit, but complete on every graph only for limits up to 2.
  */
module OutSearch {
  import opened Sets

  type Adjacency = map<nat, seq<nat>>

  function Successors(adj: Adjacency, v: nat): seq<nat> {
    if v in adj then adj[v] else []
  }

  /** `v` can be reached from `s` along at most `n` directed edges. */
  ghost predicate Within(adj: Adjacency, s: nat, v: nat, n: nat)
    decreases n
  {
    v == s || (n > 0 && exists u :: Within(adj, s, u, n - 1) && v in Successors(adj, u))
  }

  ghost predicate Reachable(adj: Adjacency, s: nat, v: nat) {
    exists n: nat :: Within(adj, s, v, n)
  }

  lemma {:induction false} WithinMore(adj: Adjacency, s: nat, v: nat, m: nat, n: nat)
    requires Within(adj, s, v, m) && m <= n
    ensures Within(adj, s, v, n)
    decreases m
  {
    if v != s {
      var u :| Within(adj, s, u, m - 1) && v in Successors(adj, u);
      WithinMore(adj, s, u, m - 1, n - 1);
    }
  }

  // ── The search ────────────────────────────────────────────────────────────

  /** A frontier entry: a vertex and the depth at which it was first seen. */
  type Entry = (nat, nat)

  datatype State = State(visited: set<nat>, found: seq<nat>, frontier: seq<Entry>)

  /** Record the unseen targets, in order, at the given depth. */
  function Discover(st: State, targets: seq<nat>, depth: nat): State
    decreases |targets|
  {
    if targets == [] then
      st
    else if targets[0] in st.visited then
      Discover(st, targets[1..], depth)
    else
      Discover(State(st.visited + {targets[0]}, st.found + [targets[0]], st.frontier + [(targets[0], depth)]),
               targets[1..], depth)
  }

  /** Pop the last entry and expand it unless it is at the depth limit. */
  function Step(adj: Adjacency, maxDepth: nat, st: State): State
    requires st.frontier != []
  {
    var last := |st.frontier| - 1;
    var (v, depth) := st.frontier[last];
    var rest := st.(frontier := st.frontier[..last]);
    if depth >= maxDepth then rest else Discover(rest, Successors(adj, v), depth + 1)
  }

  /** All vertices the search can ever see; it bounds the number of steps. */
  ghost predicate Bounds(adj: Adjacency, universe: set<nat>, st: State) {
    && st.visited <= universe
    && forall v, t | v in adj && t in adj[v] :: t in universe
  }

  ghost function Universe(adj: Adjacency, start: nat): set<nat> {
    {start} + set v, t | v in adj && t in adj[v] :: t
  }

  ghost function Elements(s: seq<nat>): set<nat> {
    set x | x in s
  }

  function Explore(adj: Adjacency, maxDepth: nat, ghost universe: set<nat>, st: State): State
    requires Bounds(adj, universe, st)
    decreases |universe| - |st.visited|, |st.frontier|
  {
    if st.frontier == [] then
      st
    else
      StepProgress(adj, maxDepth, universe, st);
      Explore(adj, maxDepth, universe, Step(adj, maxDepth, st))
  }

  function Initial(start: nat): State {
    State({start}, [], [(start, 0)])
  }

  function Found(adj: Adjacency, start: nat, maxDepth: nat): seq<nat> {
    Explore(adj, maxDepth, Universe(adj, start), Initial(start)).found
  }

  // ── What one expansion does ───────────────────────────────────────────────

  lemma {:induction false} DiscoverVisits(st: State, targets: seq<nat>, depth: nat)
    ensures Discover(st, targets, depth).visited == st.visited + Elements(targets)
    ensures |Discover(st, targets, depth).frontier| - |st.frontier| == |Discover(st, targets, depth).visited| - |st.visited|
    decreases |targets|
  {
    if targets != [] {
      assert targets == [targets[0]] + targets[1..];
      if targets[0] in st.visited {
        DiscoverVisits(st, targets[1..], depth);
      } else {
        DiscoverVisits(State(st.visited + {targets[0]}, st.found + [targets[0]], st.frontier + [(targets[0], depth)]),
                       targets[1..], depth);
      }
    }
  }

  /** Old entries stay in front; each new one stands for a target not seen before. */
  lemma {:induction false} DiscoverPushes(st: State, targets: seq<nat>, depth: nat)
    ensures var st' := Discover(st, targets, depth);
      && (forall e | e in st.frontier :: e in st'.frontier)
      && (forall e | e in st'.frontier :: e in st.frontier || (e.1 == depth && e.0 in targets))
      && (forall t | t in targets && t !in st.visited :: (t, depth) in st'.frontier)
    decreases |targets|
  {
    if targets != [] {
      assert targets == [targets[0]] + targets[1..];
      if targets[0] in st.visited {
        DiscoverPushes(st, targets[1..], depth);
      } else {
        var st1 := State(st.visited + {targets[0]}, st.found + [targets[0]], st.frontier + [(targets[0], depth)]);
        assert (targets[0], depth) in st1.frontier;
        DiscoverPushes(st1, targets[1..], depth);
      }
    }
  }

  /** The visited set is the start plus the vertices found, each found once. */
  ghost predicate Coherent(start: nat, st: State) {
    && st.visited == {start} + Elements(st.found)
    && start !in st.found
    && |st.visited| == |st.found| + 1
    && forall i, j | 0 <= i < j < |st.found| :: st.found[i] != st.found[j]
  }

  lemma {:induction false} DiscoverCoherent(start: nat, st: State, targets: seq<nat>, depth: nat)
    requires Coherent(start, st)
    ensures Coherent(start, Discover(st, targets, depth))
    decreases |targets|
  {
    if targets != [] {
      if targets[0] in st.visited {
        DiscoverCoherent(start, st, targets[1..], depth);
      } else {
        var st1 := State(st.visited + {targets[0]}, st.found + [targets[0]], st.frontier + [(targets[0], depth)]);
        assert st1.found[|st.found|] == targets[0];
        assert forall v :: v in st1.found <==> v in st.found || v == targets[0];
        assert Elements(st1.found) == Elements(st.found) + {targets[0]};
        DiscoverCoherent(start, st1, targets[1..], depth);
      }
    }
  }

  lemma StepProgress(adj: Adjacency, maxDepth: nat, universe: set<nat>, st: State)
    requires st.frontier != [] && Bounds(adj, universe, st)
    ensures Bounds(adj, universe, Step(adj, maxDepth, st))
    ensures var st' := Step(adj, maxDepth, st);
      |st.visited| <= |st'.visited| <= |universe|
      && (|st'.visited| == |st.visited| ==> |st'.frontier| < |st.frontier|)
  {
    var last := |st.frontier| - 1;
    var (v, depth) := st.frontier[last];
    var rest := st.(frontier := st.frontier[..last]);
    DiscoverVisits(rest, Successors(adj, v), depth + 1);
    var st' := Step(adj, maxDepth, st);
    SubsetSize(st'.visited, universe);
    SubsetSize(st.visited, st'.visited);
  }

  // ── Invariant of the search ───────────────────────────────────────────────

  ghost predicate Sound(adj: Adjacency, start: nat, maxDepth: nat, st: State) {
    && (forall v | v in st.visited :: Within(adj, start, v, maxDepth))
    && (forall e | e in st.frontier ::
          e.0 in st.visited && e.1 <= maxDepth && e.1 < |st.visited| && Within(adj, start, e.0, e.1))
  }

  ghost predicate Waiting(st: State, v: nat) {
    exists d :: (v, d) in st.frontier
  }

  ghost predicate Expanded(adj: Adjacency, st: State, v: nat) {
    forall t | t in Successors(adj, v) :: t in st.visited
  }

  /** Unless the depth limit may have cut the search, every visited vertex is expanded or waiting. */
  ghost predicate Closing(adj: Adjacency, maxDepth: nat, st: State) {
    maxDepth < |st.visited| || forall v | v in st.visited :: Waiting(st, v) || Expanded(adj, st, v)
  }

  /** The successors of the start enter at depth 1 and are expanded from there. */
  ghost predicate NearFirst(adj: Adjacency, start: nat, maxDepth: nat, st: State) {
    maxDepth >= 1 ==>
      || st == Initial(start)
      || forall v | v in Successors(adj, start) ::
           v in st.visited && (v == start || (v, 1) in st.frontier || maxDepth < 2 || Expanded(adj, st, v))
  }

  ghost predicate Inv(adj: Adjacency, start: nat, maxDepth: nat, st: State) {
    && Coherent(start, st)
    && Sound(adj, start, maxDepth, st)
    && Closing(adj, maxDepth, st)
    && NearFirst(adj, start, maxDepth, st)
  }

  lemma InitialInv(adj: Adjacency, start: nat, maxDepth: nat)
    ensures Inv(adj, start, maxDepth, Initial(start))
  {
    assert (start, 0) in Initial(start).frontier;
  }

  lemma StepCoherent(adj: Adjacency, start: nat, maxDepth: nat, st: State)
    requires st.frontier != [] && Coherent(start, st)
    ensures Coherent(start, Step(adj, maxDepth, st))
  {
    var (v, depth) := st.frontier[|st.frontier| - 1];
    DiscoverCoherent(start, st.(frontier := st.frontier[..|st.frontier| - 1]), Successors(adj, v), depth + 1);
  }

  lemma StepSound(adj: Adjacency, start: nat, maxDepth: nat, st: State)
    requires st.frontier != [] && Sound(adj, start, maxDepth, st)
    ensures Sound(adj, start, maxDepth, Step(adj, maxDepth, st))
  {
    var st' := Step(adj, maxDepth, st);
    var (v, depth) := st.frontier[|st.frontier| - 1];
    assert (v, depth) in st.frontier;
    StepEffect(adj, maxDepth, st);
    StepDeepens(adj, maxDepth, st);
    SoundAfter(adj, start, maxDepth, st, st', v, depth);
  }

  /** A successor of a vertex in reach is in reach one edge further. */
  lemma OneMore(adj: Adjacency, start: nat, v: nat, t: nat, depth: nat, maxDepth: nat)
    requires Within(adj, start, v, depth) && t in Successors(adj, v) && depth < maxDepth
    ensures Within(adj, start, t, depth + 1) && Within(adj, start, t, maxDepth)
  {
    assert Within(adj, start, t, depth + 1);
    WithinMore(adj, start, t, depth + 1, maxDepth);
  }

  lemma SoundAfter(adj: Adjacency, start: nat, maxDepth: nat, st: State, st': State, v: nat, depth: nat)
    requires Sound(adj, start, maxDepth, st) && (v, depth) in st.frontier
    requires st.visited <= st'.visited && |st.visited| <= |st'.visited|
    requires forall u | u in st'.visited && u !in st.visited :: (u, depth + 1) in st'.frontier && u in Successors(adj, v)
    requires forall e | e in st'.frontier :: e in st.frontier || (e.1 == depth + 1 && e.0 in st'.visited && depth < maxDepth)
    requires forall e | e in st'.frontier && e !in st.frontier :: e.0 in Successors(adj, v) && |st.visited| < |st'.visited|
    ensures Sound(adj, start, maxDepth, st')
  {
    forall u | u in st'.visited ensures Within(adj, start, u, maxDepth) {
      if u !in st.visited {
        assert (u, depth + 1) !in st.frontier;
        OneMore(adj, start, v, u, depth, maxDepth);
      }
    }
    forall e | e in st'.frontier
      ensures e.0 in st'.visited && e.1 <= maxDepth && e.1 < |st'.visited| && Within(adj, start, e.0, e.1)
    {
      if e !in st.frontier {
        OneMore(adj, start, v, e.0, depth, maxDepth);
      }
    }
  }

  /** New entries are one deeper, and then the visited set has grown as well. */
  lemma StepDeepens(adj: Adjacency, maxDepth: nat, st: State)
    requires st.frontier != []
    ensures var st' := Step(adj, maxDepth, st);
            var (v, depth) := st.frontier[|st.frontier| - 1];
      && |st.visited| <= |st'.visited|
      && forall e | e in st'.frontier && e !in st.frontier ::
           e.1 == depth + 1 && e.0 in Successors(adj, v) && |st.visited| < |st'.visited|
  {
    var last := |st.frontier| - 1;
    var (v, depth) := st.frontier[last];
    var rest := st.(frontier := st.frontier[..last]);
    var targets := Successors(adj, v);
    var st' := Step(adj, maxDepth, st);
    if depth < maxDepth {
      DiscoverVisits(rest, targets, depth + 1);
      DiscoverPushes(rest, targets, depth + 1);
      SubsetSize(st.visited, st'.visited);
      if |st.visited| == |st'.visited| {
        SubsetEqual(st.visited, st'.visited);
        DiscoverNothing(rest, targets, depth + 1);
      }
    }
  }

  lemma {:induction false} DiscoverNothing(st: State, targets: seq<nat>, depth: nat)
    requires forall t | t in targets :: t in st.visited
    ensures Discover(st, targets, depth) == st
  {
    if targets != [] {
      DiscoverNothing(st, targets[1..], depth);
    }
  }

  lemma StillWaiting(st: State, st': State, popped: Entry, u: nat)
    requires Waiting(st, u) && u != popped.0
    requires forall e | e in st.frontier && e != popped :: e in st'.frontier
    ensures Waiting(st', u)
  {
    var d :| (u, d) in st.frontier;
    assert (u, d) in st'.frontier;
  }

  /** What a step does, without its recursion: everything but the popped entry stays. */
  lemma StepEffect(adj: Adjacency, maxDepth: nat, st: State)
    requires st.frontier != []
    ensures var st' := Step(adj, maxDepth, st);
            var (v, depth) := st.frontier[|st.frontier| - 1];
      && st.visited <= st'.visited
      && (forall e | e in st.frontier && e != (v, depth) :: e in st'.frontier)
      && (forall u | u in st'.visited && u !in st.visited :: (u, depth + 1) in st'.frontier && u in Successors(adj, v))
      && (forall e | e in st'.frontier :: e in st.frontier || (e.1 == depth + 1 && e.0 in st'.visited && depth < maxDepth))
      && (depth < maxDepth ==> Expanded(adj, st', v))
  {
    var last := |st.frontier| - 1;
    var (v, depth) := st.frontier[last];
    var rest := st.(frontier := st.frontier[..last]);
    assert st.frontier == rest.frontier + [(v, depth)];
    DiscoverVisits(rest, Successors(adj, v), depth + 1);
    DiscoverPushes(rest, Successors(adj, v), depth + 1);
  }

  lemma StepClosing(adj: Adjacency, start: nat, maxDepth: nat, st: State)
    requires st.frontier != [] && Sound(adj, start, maxDepth, st) && Closing(adj, maxDepth, st)
    ensures Closing(adj, maxDepth, Step(adj, maxDepth, st))
  {
    var popped := st.frontier[|st.frontier| - 1];
    var st' := Step(adj, maxDepth, st);
    assert popped in st.frontier;
    StepEffect(adj, maxDepth, st);
    SubsetSize(st.visited, st'.visited);
    if maxDepth >= |st'.visited| {
      forall u | u in st'.visited ensures Waiting(st', u) || Expanded(adj, st', u) {
        if u != popped.0 && u in st.visited {
          if Waiting(st, u) {
            StillWaiting(st, st', popped, u);
          }
        }
      }
    }
  }

  lemma StepNearFirst(adj: Adjacency, start: nat, maxDepth: nat, st: State)
    requires st.frontier != [] && NearFirst(adj, start, maxDepth, st)
    ensures NearFirst(adj, start, maxDepth, Step(adj, maxDepth, st))
  {
    StepEffect(adj, maxDepth, st);
    if st == Initial(start) {
      assert st.frontier[..0] == [];
      DiscoverPushes(st.(frontier := []), Successors(adj, start), 1);
    }
  }

  lemma {:induction false} ExploreKeepsInv(adj: Adjacency, start: nat, maxDepth: nat, universe: set<nat>, st: State)
    requires Bounds(adj, universe, st) && Inv(adj, start, maxDepth, st)
    ensures Inv(adj, start, maxDepth, Explore(adj, maxDepth, universe, st))
    ensures Explore(adj, maxDepth, universe, st).frontier == []
    decreases |universe| - |st.visited|, |st.frontier|
  {
    if st.frontier != [] {
      StepCoherent(adj, start, maxDepth, st);
      StepSound(adj, start, maxDepth, st);
      StepClosing(adj, start, maxDepth, st);
      StepNearFirst(adj, start, maxDepth, st);
      StepProgress(adj, maxDepth, universe, st);
      ExploreKeepsInv(adj, start, maxDepth, universe, Step(adj, maxDepth, st));
    }
  }

  lemma SearchEnds(adj: Adjacency, start: nat, maxDepth: nat) returns (st: State)
    ensures st.found == Found(adj, start, maxDepth) && st.frontier == []
    ensures Inv(adj, start, maxDepth, st)
  {
    InitialInv(adj, start, maxDepth);
    ExploreKeepsInv(adj, start, maxDepth, Universe(adj, start), Initial(start));
    st := Explore(adj, maxDepth, Universe(adj, start), Initial(start));
  }

  // ── Main results ──────────────────────────────────────────────────────────

  /** Sound: only vertices within the depth limit, each once, never the start. */
  lemma FoundIsSound(adj: Adjacency, start: nat, maxDepth: nat)
    ensures var found := Found(adj, start, maxDepth);
      && start !in found
      && (forall v | v in found :: Within(adj, start, v, maxDepth))
      && (forall i, j | 0 <= i < j < |found| :: found[i] != found[j])
  {
    var st := SearchEnds(adj, start, maxDepth);
    assert Coherent(start, st) && Sound(adj, start, maxDepth, st);
  }

  /** Vertices within two edges are never missed. */
  lemma FoundIsCompleteNear(adj: Adjacency, start: nat, maxDepth: nat, v: nat)
    requires v != start && Within(adj, start, v, if maxDepth < 2 then maxDepth else 2)
    ensures v in Found(adj, start, maxDepth)
  {
    var st := SearchEnds(adj, start, maxDepth);
    var n := if maxDepth < 2 then maxDepth else 2;
    var u :| Within(adj, start, u, n - 1) && v in Successors(adj, u);
    if u != start {
      assert n == 2;
      var s :| Within(adj, start, s, 0) && u in Successors(adj, s);
      assert Expanded(adj, st, u);
    }
    assert v in st.visited;
  }

  /** A result shorter than the depth limit is the whole reachable set. */
  lemma ShortResultIsComplete(adj: Adjacency, start: nat, maxDepth: nat, v: nat)
    requires |Found(adj, start, maxDepth)| < maxDepth
    requires v != start && Reachable(adj, start, v)
    ensures v in Found(adj, start, maxDepth)
  {
    var st := SearchEnds(adj, start, maxDepth);
    var n: nat :| Within(adj, start, v, n);
    ClosedContains(adj, start, st, v, n);
  }

  lemma {:induction false} ClosedContains(adj: Adjacency, start: nat, st: State, v: nat, n: nat)
    requires start in st.visited && Within(adj, start, v, n)
    requires forall u | u in st.visited :: Expanded(adj, st, u)
    ensures v in st.visited
    decreases n
  {
    if v != start {
      var u :| Within(adj, start, u, n - 1) && v in Successors(adj, u);
      ClosedContains(adj, start, st, u, n - 1);
    }
  }

  /** A depth limit of at least the number of reachable vertices (the start included) finds them all. */
  lemma DeepLimitIsComplete(adj: Adjacency, start: nat, maxDepth: nat, reachable: set<nat>, v: nat)
    requires forall u :: u in reachable <==> Reachable(adj, start, u)
    requires maxDepth >= |reachable|
    requires v in reachable && v != start
    ensures v in Found(adj, start, maxDepth)
  {
    var st := SearchEnds(adj, start, maxDepth);
    forall u | u in st.visited ensures u in reachable {
      assert Within(adj, start, u, maxDepth);
    }
    SubsetSize(st.visited, reachable);
    ShortResultIsComplete(adj, start, maxDepth, v);
  }

  // ── Depth limits above 2 can miss vertices ────────────────────────────────

  /** The search with this limit returns everything within the limit, on every graph. */
  ghost predicate CompleteForAll(maxDepth: nat) {
    forall adj: Adjacency, start: nat, v: nat :: Returns(adj, start, v, maxDepth)
  }

  ghost predicate Returns(adj: Adjacency, start: nat, v: nat, maxDepth: nat) {
    v != start && Within(adj, start, v, maxDepth) ==> v in Found(adj, start, maxDepth)
  }

  function Chain(n: nat): (chain: Adjacency)
    ensures forall i :: i in chain <==> 0 <= i < n
    ensures forall i | 0 <= i < n :: chain[i] == [i + 1]
  {
    if n == 0 then map[] else Chain(n - 1)[n - 1 := [n]]
  }

  /** A chain 0 -> ... -> c with c = k - 3, then a short and a long way to the same vertex:
    * c -> a -> d -> e and c -> b -> x -> d. The long way is taken first. */
  function Trap(k: nat): Adjacency
    requires k >= 3
  {
    Chain(k - 3)
    + map[k - 3 := [k - 2, k - 1], k - 2 := [k + 1], k - 1 := [k], k := [k + 1], k + 1 := [k + 2]]
  }

  lemma {:induction false} TrapChainReach(k: nat, i: nat)
    requires 3 <= k && i <= k - 3
    ensures Within(Trap(k), 0, i, i)
  {
    if i > 0 {
      TrapChainReach(k, i - 1);
      assert i in Successors(Trap(k), i - 1);
    }
  }

  lemma WithinNext(adj: Adjacency, s: nat, u: nat, v: nat, n: nat)
    requires Within(adj, s, u, n) && v in Successors(adj, u)
    ensures Within(adj, s, v, n + 1)
  {
  }

  lemma TrapEndIsNear(k: nat)
    requires 3 <= k
    ensures Within(Trap(k), 0, k + 2, k)
  {
    var g := Trap(k);
    TrapChainReach(k, k - 3);
    WithinNext(g, 0, k - 3, k - 2, k - 3);
    WithinNext(g, 0, k - 2, k + 1, k - 2);
    WithinNext(g, 0, k + 1, k + 2, k - 1);
  }

  /** The state of the search after walking the first `i` edges of the chain. */
  ghost predicate OnChain(st: State, i: nat) {
    && st.frontier == [(i, i)]
    && (forall v | v in st.visited :: v <= i)
    && (forall v | v in st.found :: v <= i)
  }

  lemma DiscoverOne(st: State, t: nat, depth: nat)
    requires t !in st.visited
    ensures Discover(st, [t], depth) == State(st.visited + {t}, st.found + [t], st.frontier + [(t, depth)])
  {
    assert [t][1..] == [];
  }

  lemma TrapChainStep(k: nat, st: State, i: nat)
    requires 3 <= k && i < k - 3 && OnChain(st, i)
    ensures OnChain(Step(Trap(k), k, st), i + 1)
  {
    assert st.frontier[..0] == [];
    assert Successors(Trap(k), i) == [i + 1];
    DiscoverOne(st.(frontier := []), i + 1, i + 1);
  }

  lemma TrapForkStep(k: nat, st: State)
    requires 3 <= k && OnChain(st, k - 3)
    ensures var st' := Step(Trap(k), k, st);
      && st'.frontier == [(k - 2, k - 2), (k - 1, k - 2)]
      && (forall v | v in st'.visited :: v <= k - 1)
      && (forall v | v in st'.found :: v <= k - 1)
  {
    assert st.frontier[..0] == [];
    assert Successors(Trap(k), k - 3) == [k - 2, k - 1];
    TrapFork(st.(frontier := []), k);
  }

  lemma {:induction false} TrapChain(k: nat, universe: set<nat>, st: State, i: nat)
    requires 3 <= k && i <= k - 3 && OnChain(st, i)
    requires Bounds(Trap(k), universe, st)
    ensures k + 2 !in Explore(Trap(k), k, universe, st).found
    decreases k - i
  {
    StepProgress(Trap(k), k, universe, st);
    if i < k - 3 {
      TrapChainStep(k, st, i);
      TrapChain(k, universe, Step(Trap(k), k, st), i + 1);
    } else {
      TrapForkStep(k, st);
      TrapEnd(k, universe, Step(Trap(k), k, st));
    }
  }

  lemma TrapFork(rest: State, k: nat)
    requires 3 <= k && rest.frontier == []
    requires k - 2 !in rest.visited && k - 1 !in rest.visited
    ensures Discover(rest, [k - 2, k - 1], k - 2)
         == State(rest.visited + {k - 2, k - 1}, rest.found + [k - 2, k - 1], [(k - 2, k - 2), (k - 1, k - 2)])
  {
    var one := State(rest.visited + {k - 2}, rest.found + [k - 2], [(k - 2, k - 2)]);
    assert rest.frontier + [(k - 2, k - 2)] == one.frontier;
    assert [k - 2, k - 1][1..] == [k - 1];
    assert Discover(rest, [k - 2, k - 1], k - 2) == Discover(one, [k - 1], k - 2);
    DiscoverOne(one, k - 1, k - 2);
    assert one.visited + {k - 1} == rest.visited + {k - 2, k - 1};
    assert one.found + [k - 1] == rest.found + [k - 2, k - 1];
  }

  /** From the fork on: b, x and d are taken first, d sits at the limit, and a then finds d already seen. */
  lemma TrapEnd(k: nat, universe: set<nat>, st: State)
    requires 3 <= k && Bounds(Trap(k), universe, st)
    requires st.frontier == [(k - 2, k - 2), (k - 1, k - 2)]
    requires forall v | v in st.visited :: v <= k - 1
    requires forall v | v in st.found :: v <= k - 1
    ensures k + 2 !in Explore(Trap(k), k, universe, st).found
  {
    var g := Trap(k);
    var a := (k - 2, k - 2);
    StepProgress(g, k, universe, st);
    assert st.frontier[..1] == [a];
    DiscoverOne(st.(frontier := [a]), k, k - 1);
    var st1 := Step(g, k, st);
    assert st1 == State(st.visited + {k}, st.found + [k], [a, (k, k - 1)]);
    StepProgress(g, k, universe, st1);
    assert st1.frontier[..1] == [a];
    DiscoverOne(st1.(frontier := [a]), k + 1, k);
    var st2 := Step(g, k, st1);
    assert st2 == State(st1.visited + {k + 1}, st1.found + [k + 1], [a, (k + 1, k)]);
    TrapCut(k, universe, st2);
  }

  lemma TrapCut(k: nat, universe: set<nat>, st: State)
    requires 3 <= k && Bounds(Trap(k), universe, st)
    requires st.frontier == [(k - 2, k - 2), (k + 1, k)]
    requires k + 1 in st.visited && k + 2 !in st.found
    ensures k + 2 !in Explore(Trap(k), k, universe, st).found
  {
    var g := Trap(k);
    StepProgress(g, k, universe, st);
    var st1 := Step(g, k, st);
    assert st1 == st.(frontier := [(k - 2, k - 2)]);
    StepProgress(g, k, universe, st1);
    DiscoverNothing(st.(frontier := []), [k + 1], k - 1);
    var st2 := Step(g, k, st1);
    assert st1.frontier[..0] == [];
    assert st2 == st.(frontier := []);
    calc {
      Explore(g, k, universe, st);
      Explore(g, k, universe, st1);
      Explore(g, k, universe, st2);
      st2;
    }
  }

  /** Exactly the depth limits 0, 1 and 2 are complete on every graph. */
  lemma CompleteIffShallow(maxDepth: nat)
    ensures CompleteForAll(maxDepth) <==> maxDepth <= 2
  {
    if maxDepth <= 2 {
      forall adj: Adjacency, start: nat, v: nat ensures Returns(adj, start, v, maxDepth) {
        if v != start && Within(adj, start, v, maxDepth) {
          FoundIsCompleteNear(adj, start, maxDepth, v);
        }
      }
      assert CompleteForAll(maxDepth);
    } else {
      TrapEndIsNear(maxDepth);
      assert OnChain(Initial(0), 0);
      TrapChain(maxDepth, Universe(Trap(maxDepth), 0), Initial(0), 0);
      assert !Returns(Trap(maxDepth), 0, maxDepth + 2, maxDepth);
      assert !CompleteForAll(maxDepth);
    }
  }

  // ── The step as written: a loop over the input vertices and a loop over the frontier ──

  /** Targets of all inputs in turn; each input has its own visited set. */
  function AllFound(adj: Adjacency, input: seq<nat>, maxDepth: nat): seq<nat> {
    if input == [] then [] else AllFound(adj, input[..|input| - 1], maxDepth) + Found(adj, input[|input| - 1], maxDepth)
  }

  method SearchFrom(adj: Adjacency, start: nat, maxDepth: nat) returns (found: seq<nat>)
    ensures found == Found(adj, start, maxDepth)
  {
    var visited := {start};
    var frontier: seq<Entry> := [(start, 0)];
    found := [];
    ghost var universe := Universe(adj, start);
    while frontier != []
      invariant Bounds(adj, universe, State(visited, found, frontier))
      invariant Explore(adj, maxDepth, universe, State(visited, found, frontier)).found == Found(adj, start, maxDepth)
      decreases |universe| - |visited|, |frontier|
    {
      ghost var st := State(visited, found, frontier);
      StepProgress(adj, maxDepth, universe, st);
      var last := |frontier| - 1;
      var (v, depth) := frontier[last];
      frontier := frontier[..last];
      if depth < maxDepth {
        visited, found, frontier := DiscoverEach(visited, found, frontier, Successors(adj, v), depth + 1);
      }
      assert State(visited, found, frontier) == Step(adj, maxDepth, st);
    }
  }

  /** The inner loop: note and push every target not seen before. */
  method DiscoverEach(visited0: set<nat>, found0: seq<nat>, frontier0: seq<Entry>, targets: seq<nat>, depth: nat)
    returns (visited: set<nat>, found: seq<nat>, frontier: seq<Entry>)
    ensures State(visited, found, frontier) == Discover(State(visited0, found0, frontier0), targets, depth)
  {
    visited, found, frontier := visited0, found0, frontier0;
    ghost var all := Discover(State(visited, found, frontier), targets, depth);
    for i := 0 to |targets|
      invariant Discover(State(visited, found, frontier), targets[i..], depth) == all
    {
      var t := targets[i];
      assert targets[i..][0] == t && targets[i..][1..] == targets[i + 1..];
      if t !in visited {
        visited := visited + {t};
        found := found + [t];
        frontier := frontier + [(t, depth)];
      }
    }
  }

  method StepOut(adj: Adjacency, input: seq<nat>, maxDepth: nat) returns (targets: seq<nat>)
    ensures targets == AllFound(adj, input, maxDepth)
  {
    targets := [];
    for i := 0 to |input|
      invariant targets == AllFound(adj, input[..i], maxDepth)
    {
      var found := SearchFrom(adj, input[i], maxDepth);
      assert input[..i + 1][..i] == input[..i];
      targets := targets + found;
    }
    assert input[..|input|] == input;
  }
}
