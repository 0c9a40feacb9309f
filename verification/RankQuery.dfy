/** The rank index's query for the best-ranked records. */
module RankQuery {
  import opened MemoryIndex
  import opened Options
  import opened Sequences

  /** A pointer and the rank it is listed at. */
  datatype Rated = Rated(rank: nat, ptr: Ptr)

  lemma {:induction false} GreatestExists(ks: set<nat>) returns (m: nat)
    requires ks != {}
    ensures m in ks && forall k | k in ks :: k <= m
  {
    m :| m in ks;
    var rest := ks - {m};
    if rest != {} {
      var other := GreatestExists(rest);
      if other > m {
        m := other;
      }
    }
    assert forall k | k in ks :: k == m || k in rest || k in ks;
    forall k | k in ks ensures k <= m {
      if k !in rest {
      }
    }
  }

  function Greatest(ks: set<nat>): (m: nat)
    requires ks != {}
    ensures m in ks && forall k | k in ks :: k <= m
  {
    assert exists m :: m in ks && forall k | k in ks :: k <= m by {
      var m := GreatestExists(ks);
    }
    var m :| m in ks && forall k | k in ks :: k <= m;
    m
  }

  /** The order in which the B-tree is walked backwards. */
  function Descending(ks: set<nat>): (r: seq<nat>)
    ensures forall k :: k in r <==> k in ks
    ensures forall i, j | 0 <= i < j < |r| :: r[i] > r[j]
    decreases |ks|
  {
    if ks == {} then []
    else
      var m := Greatest(ks);
      [m] + Descending(ks - {m})
  }

  function RatedAt(rank: nat, ptrs: seq<Ptr>): (r: seq<Rated>)
    ensures |r| == |ptrs|
  {
    seq(|ptrs|, i requires 0 <= i < |ptrs| => Rated(rank, ptrs[i]))
  }

  /** Everything listed at ranks `keys` that are at least `least`, in that order. */
  function Listing(m: map<nat, seq<Ptr>>, keys: seq<nat>, least: nat): seq<Rated> {
    if keys == [] then []
    else
      var last := keys[|keys| - 1];
      Listing(m, keys[..|keys| - 1], least) + if last >= least then RatedAt(last, At(m, last)) else []
  }

  function Ptrs(listing: seq<Rated>): (r: seq<Ptr>)
    ensures |r| == |listing|
  {
    seq(|listing|, i requires 0 <= i < |listing| => listing[i].ptr)
  }

  function Prefix<T>(s: seq<T>, limit: nat): seq<T> {
    if |s| <= limit then s else s[..limit]
  }

  /** Up to `limit` pointers of the highest ranks, walking the ranks downwards. */
  method TopPointers(ranks: map<nat, seq<Ptr>>, limit: nat, minRank: Option<nat>) returns (result: seq<Ptr>)
    ensures result == Prefix(Ptrs(Listing(ranks, Descending(ranks.Keys), Or(minRank, 0))), limit)
  {
    if limit == 0 {
      return [];
    }
    result := CollectPointers(ranks, Descending(ranks.Keys), limit, minRank);
  }

  function Or(minRank: Option<nat>, default_: nat): nat {
    if minRank.Some? then minRank.value else default_
  }

  method CollectPointers(ranks: map<nat, seq<Ptr>>, keys: seq<nat>, limit: nat, minRank: Option<nat>)
    returns (result: seq<Ptr>)
    requires forall k | k in keys :: k in ranks
    ensures result == Prefix(Ptrs(Listing(ranks, keys, Or(minRank, 0))), limit)
  {
    result := [];
    ghost var least := Or(minRank, 0);
    for i := 0 to |keys|
      invariant result == Ptrs(Listing(ranks, keys[..i], least)) && |result| <= limit
    {
      ListingNext(ranks, keys, i, least);
      var full;
      result, full := TakePointers(result, ranks[keys[i]], minRank == None || keys[i] >= minRank.value, limit);
      if full {
        ListingGrows(ranks, keys, i + 1, least);
        FullIsPrefix(result, Ptrs(Listing(ranks, keys[..i + 1], least)), Ptrs(Listing(ranks, keys, least)), limit);
        return;
      }
    }
    assert keys[..|keys|] == keys;
  }

  lemma FullIsPrefix<T>(result: seq<T>, some: seq<T>, all: seq<T>, limit: nat)
    requires result <= some <= all && |result| == limit
    ensures result == Prefix(all, limit)
  {
  }

  /** The inner loop: take the wanted pointers of one rank, stopping when one more would exceed the limit. */
  method TakePointers(taken: seq<Ptr>, ptrs: seq<Ptr>, wanted: bool, limit: nat) returns (result: seq<Ptr>, full: bool)
    requires |taken| <= limit
    ensures |result| <= limit
    ensures !full ==> result == taken + if wanted then ptrs else []
    ensures full ==> |result| == limit && result <= taken + if wanted then ptrs else []
  {
    result, full := taken, false;
    for j := 0 to |ptrs|
      invariant result == taken + (if wanted then ptrs[..j] else []) && |result| <= limit
    {
      if |result| >= limit {
        return result, true;
      }
      if wanted {
        result := result + [ptrs[j]];
      }
    }
    assert ptrs[..|ptrs|] == ptrs;
  }

  lemma ListingNext(m: map<nat, seq<Ptr>>, keys: seq<nat>, i: nat, least: nat)
    requires i < |keys|
    ensures Ptrs(Listing(m, keys[..i + 1], least))
            == Ptrs(Listing(m, keys[..i], least)) + if keys[i] >= least then At(m, keys[i]) else []
  {
    assert keys[..i + 1][..i] == keys[..i];
  }

  lemma {:induction false} ListingGrows(m: map<nat, seq<Ptr>>, keys: seq<nat>, i: nat, least: nat)
    requires i <= |keys|
    ensures Ptrs(Listing(m, keys[..i], least)) <= Ptrs(Listing(m, keys, least))
    decreases |keys| - i
  {
    if i < |keys| {
      ListingNext(m, keys, i, least);
      ListingGrows(m, keys, i + 1, least);
    } else {
      assert keys[..i] == keys;
    }
  }

  // ── What the listing is ───────────────────────────────────────────────────

  ghost predicate ByRank(listing: seq<Rated>) {
    forall i, j | 0 <= i < j < |listing| :: listing[i].rank >= listing[j].rank
  }

  lemma {:induction false} ListingHoldsThePairs(m: map<nat, seq<Ptr>>, related: (nat, Ptr) -> bool, keys: seq<nat>, least: nat)
    requires Indexes(m, related)
    requires forall i, j | 0 <= i < j < |keys| :: keys[i] > keys[j]
    ensures ByRank(Listing(m, keys, least)) && NoRepeats(Listing(m, keys, least))
    ensures forall r: nat, p: Ptr :: Rated(r, p) in Listing(m, keys, least) <==> r in keys && r >= least && related(r, p)
  {
    if keys != [] {
      var n := |keys| - 1;
      var front, last := Listing(m, keys[..n], least), keys[n];
      ListingHoldsThePairs(m, related, keys[..n], least);
      assert keys == keys[..n] + [last];
      var tail := RatedAt(last, At(m, last));
      RatedAtHolds(m, related, last);
      forall x | x in front ensures x.rank > last {
        assert Rated(x.rank, x.ptr) in front;
      }
      JoinByRank(front, tail, last);
    }
  }

  lemma RatedAtHolds(m: map<nat, seq<Ptr>>, related: (nat, Ptr) -> bool, rank: nat)
    requires Indexes(m, related)
    ensures NoRepeats(RatedAt(rank, At(m, rank)))
    ensures forall r: nat, p: Ptr :: Rated(r, p) in RatedAt(rank, At(m, rank)) <==> r == rank && related(r, p)
  {
    var ptrs := At(m, rank);
    var tail := RatedAt(rank, ptrs);
    assert NoRepeats(ptrs);
    forall r: nat, p: Ptr ensures Rated(r, p) in tail <==> r == rank && related(r, p) {
      assert p in ptrs <==> related(rank, p);
      if p in ptrs {
        var i :| 0 <= i < |ptrs| && ptrs[i] == p;
        assert tail[i] == Rated(rank, p);
      }
    }
  }

  lemma JoinByRank(front: seq<Rated>, tail: seq<Rated>, rank: nat)
    requires ByRank(front) && NoRepeats(front) && NoRepeats(tail)
    requires forall x | x in front :: x.rank > rank
    requires forall x | x in tail :: x.rank == rank
    ensures ByRank(front + tail) && NoRepeats(front + tail)
  {
    var all := front + tail;
    forall i, j | 0 <= i < j < |all| ensures all[i].rank >= all[j].rank && all[i] != all[j] {
      if i < |front| {
        assert all[i] in front;
        if j >= |front| {
          assert all[j] == tail[j - |front|];
          assert all[j] in tail;
        }
      } else {
        assert all[i] == tail[i - |front|] && all[j] == tail[j - |front|];
        assert all[i] in tail && all[j] in tail;
      }
    }
  }

  lemma PrefixOutranks(all: seq<Rated>, limit: nat, x: Rated, y: Rated)
    requires ByRank(all) && x in Prefix(all, limit) && y in all && y !in Prefix(all, limit)
    ensures x.rank >= y.rank
  {
    var top := Prefix(all, limit);
    var i :| 0 <= i < |top| && top[i] == x;
    var j :| 0 <= j < |all| && all[j] == y;
    assert all[i] == x;
    if j < |top| {
      assert top[j] == y;
    }
  }

  /** The listing holds the live records at or above the minimum rank, once each, by falling rank. */
  lemma ListingIsRanked(ranks: map<nat, seq<Ptr>>, records: Records, least: nat)
    requires Indexes(ranks, Ranked(records))
    ensures var all := Listing(ranks, Descending(ranks.Keys), least);
            && ByRank(all) && NoRepeats(all)
            && forall r: nat, p: Ptr :: Rated(r, p) in all <==> r >= least && Ranked(records)(r, p)
  {
    var keys := Descending(ranks.Keys);
    ListingHoldsThePairs(ranks, Ranked(records), keys, least);
    forall r: nat, p: Ptr | Ranked(records)(r, p) ensures r in keys {
      assert p in At(ranks, r);
    }
  }

  /** Main result: the query returns the first `limit` of them; none it leaves out outranks one it returns. */
  lemma TopAreHighest(ranks: map<nat, seq<Ptr>>, records: Records, limit: nat, least: nat)
    requires Indexes(ranks, Ranked(records))
    ensures var all := Listing(ranks, Descending(ranks.Keys), least);
            && Prefix(Ptrs(all), limit) == Ptrs(Prefix(all, limit))
            && forall x, y | x in Prefix(all, limit) && y in all && y !in Prefix(all, limit) :: x.rank >= y.rank
  {
    var all := Listing(ranks, Descending(ranks.Keys), least);
    ListingIsRanked(ranks, records, least);
    forall x, y | x in Prefix(all, limit) && y in all && y !in Prefix(all, limit) ensures x.rank >= y.rank {
      PrefixOutranks(all, limit, x, y);
    }
  }
}
