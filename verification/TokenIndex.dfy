/** The token map: tokens in lexicographic order, each with its pointers, and prefix search over them. */
module TokenIndex {
  import opened MemoryIndex

  datatype TokenEntry = TokenEntry(token: string, ptrs: seq<Ptr>)

  // ── Lexicographic order ───────────────────────────────────────────────────

  predicate AtMost(a: string, b: string) {
    a == [] || (b != [] && (a[0] < b[0] || (a[0] == b[0] && AtMost(a[1..], b[1..]))))
  }

  lemma {:induction false} AtMostTransitive(a: string, b: string, c: string)
    requires AtMost(a, b) && AtMost(b, c)
    ensures AtMost(a, c)
  {
    if a != [] && a[0] == b[0] && b[0] == c[0] {
      AtMostTransitive(a[1..], b[1..], c[1..]);
    }
  }

  lemma {:induction false} AtMostTotal(a: string, b: string)
    ensures AtMost(a, b) || AtMost(b, a)
    ensures AtMost(a, b) && AtMost(b, a) ==> a == b
  {
    if a != [] && b != [] && a[0] == b[0] {
      AtMostTotal(a[1..], b[1..]);
      assert a == [a[0]] + a[1..] && b == [b[0]] + b[1..];
    }
  }

  predicate StartsWith(s: string, prefix: string) {
    prefix <= s
  }

  /** The keys with a prefix form an interval of the order that begins at the prefix. */
  lemma {:induction false} PrefixKeysAreAnInterval(prefix: string, a: string, b: string)
    ensures StartsWith(a, prefix) ==> AtMost(prefix, a)
    ensures AtMost(prefix, a) && AtMost(a, b) && StartsWith(b, prefix) ==> StartsWith(a, prefix)
  {
    if prefix != [] && a != [] {
      if b != [] {
        PrefixKeysAreAnInterval(prefix[1..], a[1..], b[1..]);
        assert StartsWith(b, prefix) ==> StartsWith(b[1..], prefix[1..]);
      } else {
        PrefixKeysAreAnInterval(prefix[1..], a[1..], []);
      }
      assert StartsWith(a, prefix) ==> StartsWith(a[1..], prefix[1..]);
      assert a == [a[0]] + a[1..] && prefix == [prefix[0]] + prefix[1..];
      assert a[0] == prefix[0] && StartsWith(a[1..], prefix[1..]) ==> StartsWith(a, prefix);
    }
  }

  // ── The map ───────────────────────────────────────────────────────────────

  /** Strictly ascending keys. */
  ghost predicate Ascending(entries: seq<TokenEntry>) {
    forall i, j | 0 <= i < j < |entries| :: AtMost(entries[i].token, entries[j].token) && entries[i].token != entries[j].token
  }

  /** The entries whose token has the prefix, in order. */
  function Matching(entries: seq<TokenEntry>, prefix: string): seq<TokenEntry> {
    if entries == [] then []
    else if StartsWith(entries[0].token, prefix) then [entries[0]] + Matching(entries[1..], prefix)
    else Matching(entries[1..], prefix)
  }

  class TokenMap {
    var entries: seq<TokenEntry>

    ghost predicate Valid()
      reads this
    {
      Ascending(entries)
    }

    constructor ()
      ensures Valid() && entries == []
    {
      entries := [];
    }

    /** Index of the first key at or after `token`. */
    method LowerBound(token: string) returns (i: nat)
      requires Valid()
      ensures i <= |entries|
      ensures forall j | 0 <= j < i :: !AtMost(token, entries[j].token)
      ensures forall j | i <= j < |entries| :: AtMost(token, entries[j].token)
    {
      i := 0;
      while i < |entries| && !AtMost(token, entries[i].token)
        invariant i <= |entries|
        invariant forall j | 0 <= j < i :: !AtMost(token, entries[j].token)
      {
        i := i + 1;
      }
      forall j | i <= j < |entries| ensures AtMost(token, entries[j].token) {
        if i < j {
          AtMostTransitive(token, entries[i].token, entries[j].token);
        }
      }
    }

    /** Scan from the first key at or after the prefix to the first key without it. */
    method SearchPrefix(prefix: string) returns (results: seq<TokenEntry>)
      requires Valid()
      ensures results == Matching(entries, prefix)
    {
      var start := LowerBound(prefix);
      forall j | 0 <= j < start ensures !StartsWith(entries[j].token, prefix) {
        PrefixKeysAreAnInterval(prefix, entries[j].token, entries[j].token);
      }
      NoneMatch(entries, prefix, start);
      results := [];
      var i := start;
      while i < |entries|
        invariant start <= i <= |entries|
        invariant Matching(entries, prefix) == results + Matching(entries[i..], prefix)
      {
        assert entries[i..][1..] == entries[i + 1..];
        if !StartsWith(entries[i].token, prefix) {
          NothingAfterGap(entries, prefix, i);
          return;
        }
        results := results + [entries[i]];
        i := i + 1;
      }
    }
  }

  lemma {:induction false} NoneMatch(entries: seq<TokenEntry>, prefix: string, n: nat)
    requires n <= |entries| && forall j | 0 <= j < n :: !StartsWith(entries[j].token, prefix)
    ensures Matching(entries, prefix) == Matching(entries[n..], prefix)
  {
    if n > 0 {
      NoneMatch(entries[1..], prefix, n - 1);
      assert entries[1..][n - 1..] == entries[n..];
    } else {
      assert entries[0..] == entries;
    }
  }

  /** Past the first key at or after the prefix that lacks it, no key has it. */
  lemma NothingAfterGap(entries: seq<TokenEntry>, prefix: string, i: nat)
    requires Ascending(entries) && i < |entries|
    requires AtMost(prefix, entries[i].token) && !StartsWith(entries[i].token, prefix)
    ensures Matching(entries[i..], prefix) == []
  {
    var rest := entries[i..];
    forall j | 0 <= j < |rest| ensures !StartsWith(rest[j].token, prefix) {
      assert rest[j] == entries[i + j];
      AtMostTotal(entries[i].token, entries[i].token);
      PrefixKeysAreAnInterval(prefix, entries[i].token, rest[j].token);
    }
    NoneMatch(rest, prefix, |rest|);
  }
}
