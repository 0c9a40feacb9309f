/** Ranking a list of results: a stable descending sort and a dedup that compares neighbours only. */
module ScoreRanking {
  import opened Options

  /** A vertex with a score. */
  type Scored = (nat, real)

  /** Stable insertion into a list sorted by descending score: `x` was recorded before all of `s`. */
  function Insert(x: Scored, s: seq<Scored>): seq<Scored> {
    if s == [] || x.1 >= s[0].1 then [x] + s else [s[0]] + Insert(x, s[1..])
  }

  function SortDescending(s: seq<Scored>): seq<Scored> {
    if s == [] then [] else Insert(s[0], SortDescending(s[1..]))
  }

  /** Drops an item when the item kept just before it has the same vertex, as `dedup_by_key` does. */
  function Dedup(s: seq<Scored>): seq<Scored>
    decreases |s|
  {
    if |s| <= 1 then s
    else if s[0].0 == s[1].0 then Dedup([s[0]] + s[2..])
    else [s[0]] + Dedup(s[1..])
  }

  function Ranked(s: seq<Scored>): seq<Scored> {
    Dedup(SortDescending(s))
  }

  /** The score of the first item for `v`. */
  function FirstScore(s: seq<Scored>, v: nat): Option<real> {
    if s == [] then None else if s[0].0 == v then Some(s[0].1) else FirstScore(s[1..], v)
  }

  ghost predicate Descending(s: seq<Scored>) {
    s != [] ==> (forall y | y in s[1..] :: s[0].1 >= y.1) && Descending(s[1..])
  }

  lemma {:induction false} InsertKeepsItems(x: Scored, s: seq<Scored>)
    ensures multiset(Insert(x, s)) == multiset{x} + multiset(s)
  {
    if s == [] || x.1 >= s[0].1 {
    } else {
      InsertKeepsItems(x, s[1..]);
      assert s == [s[0]] + s[1..];
    }
  }

  lemma {:induction false} InsertKeepsOrder(x: Scored, s: seq<Scored>)
    requires Descending(s)
    ensures Descending(Insert(x, s))
  {
    if s == [] || x.1 >= s[0].1 {
      assert ([x] + s)[1..] == s;
      if s != [] {
        assert s == [s[0]] + s[1..];
      }
    } else {
      var rest := Insert(x, s[1..]);
      InsertKeepsOrder(x, s[1..]);
      InsertKeepsItems(x, s[1..]);
      assert ([s[0]] + rest)[1..] == rest;
      forall y | y in rest ensures s[0].1 >= y.1 {
        assert y in multiset(rest);
        assert y == x || y in multiset(s[1..]);
      }
    }
  }

  lemma {:induction false} SortIsSortedPermutation(s: seq<Scored>)
    ensures Descending(SortDescending(s))
    ensures multiset(SortDescending(s)) == multiset(s)
  {
    if s != [] {
      SortIsSortedPermutation(s[1..]);
      InsertKeepsOrder(s[0], SortDescending(s[1..]));
      InsertKeepsItems(s[0], SortDescending(s[1..]));
      assert s == [s[0]] + s[1..];
    }
  }

  /** Adjacent duplicates go, but never the first item of a vertex. */
  lemma {:induction false} DedupKeepsFirst(s: seq<Scored>, v: nat)
    ensures FirstScore(Dedup(s), v) == FirstScore(s, v)
    decreases |s|
  {
    if |s| <= 1 {
    } else if s[0].0 == s[1].0 {
      var t := [s[0]] + s[2..];
      DedupKeepsFirst(t, v);
      assert t[1..] == s[1..][1..];
    } else {
      DedupKeepsFirst(s[1..], v);
    }
  }

  lemma {:induction false} FirstIsGreatest(s: seq<Scored>, v: nat, best: real)
    requires Descending(s) && (v, best) in s
    requires forall x | x in s && x.0 == v :: x.1 <= best
    ensures FirstScore(s, v) == Some(best)
  {
    assert s == [s[0]] + s[1..];
    if s[0].0 != v {
      FirstIsGreatest(s[1..], v, best);
    }
  }

  lemma {:induction false} FirstNoneWhenAbsent(s: seq<Scored>, v: nat)
    requires forall x | x in s :: x.0 != v
    ensures FirstScore(s, v) == None
  {
    if s != [] {
      FirstNoneWhenAbsent(s[1..], v);
    }
  }

  ghost predicate EachOnce(s: seq<Scored>) {
    forall i, j | 0 <= i < j < |s| :: s[i].0 != s[j].0
  }

  /** The items of each vertex stand together. */
  ghost predicate Grouped(s: seq<Scored>) {
    forall i, j, k | 0 <= i < j < k < |s| && s[i].0 == s[k].0 :: s[j].0 == s[i].0
  }

  lemma {:induction false} DedupKeepsIds(s: seq<Scored>, v: nat)
    ensures (exists x :: x in Dedup(s) && x.0 == v) <==> (exists x :: x in s && x.0 == v)
    decreases |s|
  {
    if |s| <= 1 {
    } else if s[0].0 == s[1].0 {
      var t := [s[0]] + s[2..];
      DedupKeepsIds(t, v);
      assert s == [s[0], s[1]] + s[2..];
      if x :| x in s && x.0 == v {
        if x == s[1] {
          assert s[0] in t;
        } else {
          assert x in t;
        }
      }
    } else {
      DedupKeepsIds(s[1..], v);
      assert s == [s[0]] + s[1..];
      var d := Dedup(s[1..]);
      assert Dedup(s) == [s[0]] + d;
      if x :| x in s && x.0 == v {
        if x != s[0] {
          assert x in s[1..];
          var y :| y in d && y.0 == v;
          assert y in Dedup(s);
        } else {
          assert x in Dedup(s);
        }
      }
    }
  }

  lemma GroupedTail(s: seq<Scored>)
    requires |s| >= 2 && s[0].0 != s[1].0
    ensures Grouped(s) <==> Grouped(s[1..]) && forall k | 1 <= k < |s| :: s[k].0 != s[0].0
  {
    var t := s[1..];
    assert forall i | 0 <= i < |t| :: t[i] == s[i + 1];
    assert forall i | 1 <= i < |s| :: s[i] == t[i - 1];
    if Grouped(t) && forall k | 1 <= k < |s| :: s[k].0 != s[0].0 {
      forall i, j, k | 0 <= i < j < k < |s| && s[i].0 == s[k].0 ensures s[j].0 == s[i].0 {
        assert i > 0;
        assert t[j - 1].0 == t[i - 1].0;
      }
    }
  }

  lemma GroupedDrop(s: seq<Scored>)
    requires |s| >= 2 && s[0].0 == s[1].0
    ensures Grouped(s) <==> Grouped([s[0]] + s[2..])
  {
    var t := [s[0]] + s[2..];
    assert forall i | 1 <= i < |t| :: t[i] == s[i + 1];
    assert forall i | 2 <= i < |s| :: s[i] == t[i - 1];
    if Grouped(s) {
      forall i, j, k | 0 <= i < j < k < |t| && t[i].0 == t[k].0 ensures t[j].0 == t[i].0 {
        var i' := if i == 0 then 0 else i + 1;
        assert s[i'].0 == s[k + 1].0;
        assert s[j + 1].0 == s[i'].0;
      }
    }
    if Grouped(t) {
      forall i, j, k | 0 <= i < j < k < |s| && s[i].0 == s[k].0 ensures s[j].0 == s[i].0 {
        if j >= 2 {
          var i' := if i <= 1 then 0 else i - 1;
          assert t[i'].0 == t[k - 1].0;
          assert t[j - 1].0 == t[i'].0;
        }
      }
    }
  }

  lemma EachOnceCons(x: Scored, d: seq<Scored>)
    ensures EachOnce([x] + d) <==> EachOnce(d) && forall k | 0 <= k < |d| :: d[k].0 != x.0
  {
    var t := [x] + d;
    if EachOnce(t) {
      forall i, j | 0 <= i < j < |d| ensures d[i].0 != d[j].0 {
        assert t[i + 1].0 != t[j + 1].0;
      }
      forall k | 0 <= k < |d| ensures d[k].0 != x.0 {
        assert t[0].0 != t[k + 1].0;
      }
    }
  }

  ghost predicate NoneOf(s: seq<Scored>, v: nat) {
    forall k | 0 <= k < |s| :: s[k].0 != v
  }

  lemma NoneOfDedup(s: seq<Scored>, v: nat)
    ensures NoneOf(Dedup(s), v) <==> NoneOf(s, v)
  {
    DedupKeepsIds(s, v);
    assert NoneOf(s, v) <==> !exists x :: x in s && x.0 == v;
    assert NoneOf(Dedup(s), v) <==> !exists x :: x in Dedup(s) && x.0 == v;
  }

  lemma GroupedCons(s: seq<Scored>)
    requires |s| >= 2 && s[0].0 != s[1].0
    ensures Grouped(s) <==> Grouped(s[1..]) && NoneOf(s[1..], s[0].0)
  {
    GroupedTail(s);
    assert forall k | 1 <= k < |s| :: s[k] == s[1..][k - 1];
  }

  /** "Dedup" removes every repeat exactly when each vertex's items were already adjacent. */
  lemma {:induction false} DedupUniqueIffGrouped(s: seq<Scored>)
    ensures EachOnce(Dedup(s)) <==> Grouped(s)
    decreases |s|
  {
    if |s| <= 1 {
    } else if s[0].0 == s[1].0 {
      DedupUniqueIffGrouped([s[0]] + s[2..]);
      GroupedDrop(s);
    } else {
      DedupUniqueIffGrouped(s[1..]);
      GroupedCons(s);
      NoneOfDedup(s[1..], s[0].0);
      EachOnceCons(s[0], Dedup(s[1..]));
    }
  }

  // ── Order and items of the deduplicated list ──────────────────────────────

  lemma {:induction false} DedupItems(s: seq<Scored>, x: Scored)
    requires x in Dedup(s)
    ensures x in s
    decreases |s|
  {
    if |s| <= 1 {
    } else if s[0].0 == s[1].0 {
      DedupItems([s[0]] + s[2..], x);
      assert s == [s[0], s[1]] + s[2..];
    } else {
      assert s == [s[0]] + s[1..];
      if x != s[0] {
        DedupItems(s[1..], x);
      }
    }
  }

  lemma {:induction false} DedupDescends(s: seq<Scored>)
    requires Descending(s)
    ensures Descending(Dedup(s))
    decreases |s|
  {
    if |s| <= 1 {
    } else if s[0].0 == s[1].0 {
      var t := [s[0]] + s[2..];
      assert t[1..] == s[2..] && s[1..][1..] == s[2..];
      assert s[1..] == [s[1]] + s[2..];
      DedupDescends(t);
    } else {
      var d := Dedup(s[1..]);
      DedupDescends(s[1..]);
      assert ([s[0]] + d)[1..] == d;
      forall y | y in d ensures s[0].1 >= y.1 {
        DedupItems(s[1..], y);
      }
    }
  }

  lemma RankedDescends(s: seq<Scored>)
    ensures Descending(Ranked(s))
    ensures forall x | x in Ranked(s) :: x in s
  {
    var sorted := SortDescending(s);
    SortIsSortedPermutation(s);
    DedupDescends(sorted);
    forall x | x in Ranked(s) ensures x in s {
      DedupItems(sorted, x);
      assert x in multiset(sorted);
    }
  }

  // ── The order of the sorted list ──────────────────────────────────────────

  /** Item `i` is ranked before item `j`: it has the higher score, or the same one and was recorded earlier. */
  predicate Before(s: seq<Scored>, i: nat, j: nat)
    requires i < |s| && j < |s|
  {
    s[i].1 > s[j].1 || (s[i].1 == s[j].1 && i < j)
  }

  /** `at` lists all indices of `s` from the first ranked to the last. */
  ghost predicate IsOrder(s: seq<Scored>, at: seq<nat>) {
    && |at| == |s|
    && (forall m | 0 <= m < |at| :: at[m] < |s|)
    && (forall i: nat | i < |s| :: i in at)
    && (forall m, n | 0 <= m < n < |at| :: Before(s, at[m], at[n]))
  }

  /** The items of `s` in that order. */
  ghost predicate Lists(sorted: seq<Scored>, s: seq<Scored>, at: seq<nat>) {
    |sorted| == |at| && forall m | 0 <= m < |at| :: at[m] < |s| && sorted[m] == s[at[m]]
  }

  /** `x` belongs at `q` of the sorted list. */
  ghost predicate Fits(x: Scored, sorted: seq<Scored>, q: nat) {
    q <= |sorted| && (forall k | 0 <= k < q :: sorted[k].1 > x.1) && (q < |sorted| ==> x.1 >= sorted[q].1)
  }

  /** An item goes in front of all items with scores that are no higher. */
  lemma {:induction false} InsertPlace(x: Scored, s: seq<Scored>) returns (q: nat)
    ensures Fits(x, s, q) && Insert(x, s) == s[..q] + [x] + s[q..]
  {
    if s == [] || x.1 >= s[0].1 {
      q := 0;
    } else {
      q := InsertPlace(x, s[1..]);
      assert s == [s[0]] + s[1..];
      q := q + 1;
    }
  }

  /** The order of `[x] + t` when `x` is ranked at `q` of the order of `t`. */
  function WithFirstAt(rest: seq<nat>, q: nat): seq<nat>
    requires q <= |rest|
  {
    seq(|rest| + 1, m requires 0 <= m <= |rest| => if m < q then rest[m] + 1 else if m == q then 0 else rest[m - 1] + 1)
  }

  lemma OrderCons(x: Scored, t: seq<Scored>, rest: seq<nat>, sorted: seq<Scored>, q: nat)
    requires IsOrder(t, rest) && Lists(sorted, t, rest) && Fits(x, sorted, q)
    ensures IsOrder([x] + t, WithFirstAt(rest, q))
  {
    var s, at := [x] + t, WithFirstAt(rest, q);
    forall m | 0 <= m < |at| ensures at[m] < |s| {
      assert 0 < m ==> rest[m - 1] < |t|;
    }
    forall m, n | 0 <= m < n < |at| ensures Before(s, at[m], at[n]) {
      OrderedCons(x, t, rest, sorted, q, m, n);
    }
    forall i: nat | i < |s| ensures i in at {
      IndexCons(t, rest, q, i);
    }
  }

  lemma IndexCons(t: seq<Scored>, rest: seq<nat>, q: nat, i: nat)
    requires IsOrder(t, rest) && q <= |rest| && i <= |t|
    ensures i in WithFirstAt(rest, q)
  {
    var at := WithFirstAt(rest, q);
    if i == 0 {
      assert at[q] == 0;
    } else {
      var i': nat := i - 1;
      assert i' in rest;
      var m :| 0 <= m < |rest| && rest[m] == i';
      assert at[if m < q then m else m + 1] == i;
    }
  }

  lemma OrderedCons(x: Scored, t: seq<Scored>, rest: seq<nat>, sorted: seq<Scored>, q: nat, m: nat, n: nat)
    requires IsOrder(t, rest) && Lists(sorted, t, rest) && Fits(x, sorted, q) && m < n <= |t|
    ensures var at := WithFirstAt(rest, q); at[m] <= |t| && at[n] <= |t| && Before([x] + t, at[m], at[n])
  {
    if n == q {
      assert sorted[m] == t[rest[m]];
    } else {
      var n' := if n < q then n else n - 1;
      assert sorted[n'] == t[rest[n']];
      if m == q {
        assert sorted[q] == t[rest[q]];
        assert q < n' ==> Before(t, rest[q], rest[n']);
      } else {
        var m' := if m < q then m else m - 1;
        assert Before(t, rest[m'], rest[n']);
      }
    }
  }

  lemma ListsCons(x: Scored, t: seq<Scored>, rest: seq<nat>, sorted: seq<Scored>, q: nat)
    requires Lists(sorted, t, rest) && q <= |rest|
    ensures Lists(sorted[..q] + [x] + sorted[q..], [x] + t, WithFirstAt(rest, q))
  {
    forall m | 0 <= m <= |rest| ensures var at := WithFirstAt(rest, q);
        at[m] <= |t| && (sorted[..q] + [x] + sorted[q..])[m] == ([x] + t)[at[m]]
    {
      assert m != q ==> sorted[if m < q then m else m - 1] == t[rest[if m < q then m else m - 1]];
    }
  }

  /** The sort is stable: the sorted list reads the input from the first ranked item to the last. */
  lemma {:induction false} SortOrder(s: seq<Scored>) returns (at: seq<nat>)
    ensures IsOrder(s, at) && Lists(SortDescending(s), s, at)
  {
    if s == [] {
      at := [];
    } else {
      var rest := SortOrder(s[1..]);
      var q := InsertPlace(s[0], SortDescending(s[1..]));
      assert s == [s[0]] + s[1..];
      OrderCons(s[0], s[1..], rest, SortDescending(s[1..]), q);
      ListsCons(s[0], s[1..], rest, SortDescending(s[1..]), q);
      at := WithFirstAt(rest, q);
    }
  }

  /** No item of another vertex is ranked between two items of one vertex. */
  ghost predicate NothingBetween(s: seq<Scored>) {
    forall i: nat, j: nat, k: nat | i < |s| && j < |s| && k < |s| && Before(s, i, j) && Before(s, j, k) && s[i].0 == s[k].0 ::
      s[j].0 == s[i].0
  }

  lemma PlacesOf(s: seq<Scored>, at: seq<nat>, i: nat, j: nat) returns (m: nat, n: nat)
    requires IsOrder(s, at) && i < |s| && j < |s| && Before(s, i, j)
    ensures m < n < |at| && at[m] == i && at[n] == j
  {
    assert i in at && j in at;
    m :| m < |at| && at[m] == i;
    n :| n < |at| && at[n] == j;
  }

  lemma GroupedIff(s: seq<Scored>)
    ensures Grouped(SortDescending(s)) <==> NothingBetween(s)
  {
    var at := SortOrder(s);
    var sorted := SortDescending(s);
    if NothingBetween(s) {
      forall i, j, k | 0 <= i < j < k < |sorted| && sorted[i].0 == sorted[k].0 ensures sorted[j].0 == sorted[i].0 {
        assert Before(s, at[i], at[j]) && Before(s, at[j], at[k]);
      }
    }
    if Grouped(sorted) {
      forall i: nat, j: nat, k: nat | i < |s| && j < |s| && k < |s| && Before(s, i, j) && Before(s, j, k) && s[i].0 == s[k].0
        ensures s[j].0 == s[i].0
      {
        var m, n := PlacesOf(s, at, i, j);
        var n', o := PlacesOf(s, at, j, k);
        assert n == n';
      }
    }
  }

  /** The ranked list names each vertex once iff no item of another vertex is ranked between two of its items. */
  lemma EachOnceIff(s: seq<Scored>)
    ensures EachOnce(Ranked(s)) <==> NothingBetween(s)
  {
    DedupUniqueIffGrouped(SortDescending(s));
    GroupedIff(s);
  }

  lemma SortCons(x: Scored, s: seq<Scored>)
    ensures SortDescending([x] + s) == Insert(x, SortDescending(s))
  {
    assert ([x] + s)[1..] == s;
  }

  lemma InsertCons(x: Scored, y: Scored, s: seq<Scored>)
    ensures Insert(x, [y] + s) == if x.1 >= y.1 then [x] + ([y] + s) else [y] + Insert(x, s)
  {
    assert ([y] + s)[1..] == s;
  }

  // ── Which results leave a vertex listed twice ─────────────────────────────

  /** Equal ids stand together. */
  ghost predicate Together(ids: seq<nat>) {
    forall i, j, k | 0 <= i < j < k < |ids| && ids[i] == ids[k] :: ids[j] == ids[i]
  }

  ghost predicate StartsWithSeeds(results: seq<Scored>, seeds: seq<nat>) {
    |seeds| <= |results| && forall i | 0 <= i < |seeds| :: results[i] == (seeds[i], 1.0)
  }

  /** From index `n` on every item tops all earlier items of its vertex. */
  ghost predicate Rising(results: seq<Scored>, n: nat) {
    forall i, j | 0 <= i < j < |results| && n <= j && results[i].0 == results[j].0 :: results[i].1 < results[j].1
  }

  /** No score lies between two scores of another vertex. */
  ghost predicate Separate(results: seq<Scored>) {
    forall x, y, z | x in results && y in results && z in results && x.0 == z.0 && y.0 != x.0 && z.1 < x.1 ::
      !(z.1 <= y.1 <= x.1)
  }

  lemma NothingBetweenSeeds(results: seq<Scored>, seeds: seq<nat>)
    requires StartsWithSeeds(results, seeds) && NothingBetween(results)
    ensures Together(seeds)
  {
    forall i, j, k | 0 <= i < j < k < |seeds| && seeds[i] == seeds[k] ensures seeds[j] == seeds[i] {
      assert Before(results, i, j) && Before(results, j, k);
    }
  }

  /** An item between two items of one vertex has a score between theirs, or all three are equal seeds. */
  lemma SeparateMeansNothingBetween(results: seq<Scored>, seeds: seq<nat>)
    requires StartsWithSeeds(results, seeds) && Rising(results, |seeds|) && Together(seeds) && Separate(results)
    ensures NothingBetween(results)
  {
    forall i: nat, j: nat, k: nat | i < |results| && j < |results| && k < |results|
        && Before(results, i, j) && Before(results, j, k) && results[i].0 == results[k].0
      ensures results[j].0 == results[i].0
    {
      if results[i].1 == results[k].1 {
        assert i < j < k < |seeds|;
      } else {
        assert results[i] in results && results[j] in results && results[k] in results;
      }
    }
  }

  /** The ranked list names each vertex once only if equal seeds stand together, and if so whenever no score
    * lies between two scores of another vertex.
    */
  lemma EachOnceWhen(results: seq<Scored>, seeds: seq<nat>)
    requires StartsWithSeeds(results, seeds) && Rising(results, |seeds|)
    ensures EachOnce(Ranked(results)) ==> Together(seeds)
    ensures Together(seeds) && Separate(results) ==> EachOnce(Ranked(results))
  {
    EachOnceIff(results);
    if NothingBetween(results) {
      NothingBetweenSeeds(results, seeds);
    }
    if Together(seeds) && Separate(results) {
      SeparateMeansNothingBetween(results, seeds);
    }
  }
}
