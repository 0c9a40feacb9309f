/** The references of full-text tokens: segments on disk, split at a payload limit, and a per-thread buffer
  * that postpones additions to tokens that already exist.
  */
module TokenRefs {
  import opened Options

  datatype Hit = Hit(attribute: string, position: nat)

  datatype TokenRef = TokenRef(refType: nat, refId: nat, frequency: nat, hits: seq<Hit>)

  datatype Pending = Pending(token: string, refType: nat, refId: nat, hits: seq<Hit>)

  const MAX_TOKEN_PAYLOAD := 14000
  /** The largest payload a record can hold: 255 chunks of 64 bytes less the header. */
  const MAX_RECORD_PAYLOAD := 16320 - 64

  /** Frequencies are 16 bits wide. */
  function MakeRef(refType: nat, refId: nat, hits: seq<Hit>): TokenRef {
    TokenRef(refType, refId, |hits| % 0x1_0000, hits)
  }

  function RefOf(p: Pending): TokenRef {
    MakeRef(p.refType, p.refId, p.hits)
  }

  function RefsOf(pending: seq<Pending>): (r: seq<TokenRef>)
    ensures |r| == |pending|
  {
    seq(|pending|, i requires 0 <= i < |pending| => RefOf(pending[i]))
  }

  type Segment = seq<TokenRef>

  // ── What is held ──────────────────────────────────────────────────────────

  function InSegments(segments: seq<Segment>): multiset<TokenRef> {
    if segments == [] then multiset{} else multiset(segments[0]) + InSegments(segments[1..])
  }

  function Segments(tokens: map<string, seq<Segment>>, t: string): seq<Segment> {
    if t in tokens then tokens[t] else []
  }

  /** The references for one token among pending or to be added ones. */
  function Among(pending: seq<Pending>, t: string): multiset<TokenRef> {
    if pending == [] then multiset{}
    else For(pending[0], t) + Among(pending[1..], t)
  }

  lemma {:induction false} InSegmentsSnoc(segments: seq<Segment>, last: Segment)
    ensures InSegments(segments + [last]) == InSegments(segments) + multiset(last)
  {
    if segments == [] {
      assert segments + [last] == [last];
    } else {
      InSegmentsSnoc(segments[1..], last);
      assert (segments + [last])[1..] == segments[1..] + [last];
    }
  }

  lemma RewriteFirst(segments: seq<Segment>, refs: Segment)
    requires segments != []
    ensures InSegments(segments[1..] + [segments[0] + refs]) == InSegments(segments) + multiset(refs)
  {
    InSegmentsSnoc(segments[1..], segments[0] + refs);
  }

  lemma OneSegment(refs: Segment)
    ensures InSegments([refs]) == multiset(refs)
  {
    assert [refs][1..] == [];
  }

  lemma {:induction false} AmongSnoc(pending: seq<Pending>, p: Pending, t: string)
    ensures Among(pending + [p], t) == Among(pending, t) + For(p, t)
  {
    if pending == [] {
      assert pending + [p] == [p];
    } else {
      AmongSnoc(pending[1..], p, t);
      assert (pending + [p])[1..] == pending[1..] + [p];
    }
  }

  function For(p: Pending, t: string): multiset<TokenRef> {
    if p.token == t then multiset{RefOf(p)} else multiset{}
  }

  lemma AmongNext(pending: seq<Pending>, i: nat, t: string)
    requires i < |pending|
    ensures Among(pending[..i + 1], t) == Among(pending[..i], t) + For(pending[i], t)
  {
    assert pending[..i + 1] == pending[..i] + [pending[i]];
    AmongSnoc(pending[..i], pending[i], t);
  }

  lemma {:induction false} AmongNone(pending: seq<Pending>, t: string)
    requires forall p | p in pending :: p.token != t
    ensures Among(pending, t) == multiset{}
  {
    if pending != [] {
      AmongNone(pending[1..], t);
    }
  }

  lemma SumRight<T>(a: multiset<T>, b: multiset<T>, c: multiset<T>)
    ensures (a + b) + c == a + (b + c)
  {
  }

  /** What is said of a store is said of one token, which the store's code knows nothing of: it is any token. */
  class TokenStore {
    ghost const anyToken: string
    /** The length of a serialized segment. */
    const size: (string, Segment) -> nat
    var tokens: map<string, seq<Segment>>
    var buffer: Option<seq<Pending>>

    /** A token in the index has a segment. */
    ghost predicate Valid()
      reads this
    {
      forall t | t in tokens :: tokens[t] != []
    }

    function Buffered(): seq<Pending>
      reads this
    {
      if buffer.Some? then buffer.value else []
    }

    ghost function Stored(): multiset<TokenRef>
      reads this
    {
      InSegments(Segments(tokens, anyToken))
    }

    /** Everything known of the token: stored and pending. */
    ghost function Held(): multiset<TokenRef>
      reads this
    {
      Stored() + Among(Buffered(), anyToken)
    }

    constructor (size: (string, Segment) -> nat, ghost anyToken: string)
      ensures Valid() && this.size == size && this.anyToken == anyToken && buffer == None && tokens == map[]
    {
      this.size, this.anyToken := size, anyToken;
      tokens, buffer := map[], None;
    }

    /** Write one reference at once: into the first segment, or into a new one when that grows too large.
      * A rewritten segment moves to the end of the list.
      */
    method AddImmediate(p: Pending) returns (outcome: Outcome)
      requires Valid()
      modifies this`tokens
      ensures Valid()
      ensures outcome == Failed ==> tokens == old(tokens)
      ensures outcome == Done ==> Stored() == old(Stored()) + For(p, anyToken)
    {
      var token, ref := p.token, RefOf(p);
      assert multiset([ref]) == multiset{ref};
      if token in tokens {
        var segments := tokens[token];
        var grown := segments[0] + [ref];
        if size(token, grown) > MAX_TOKEN_PAYLOAD {
          if size(token, [ref]) > MAX_RECORD_PAYLOAD {
            return Failed;
          }
          InSegmentsSnoc(segments, [ref]);
          tokens := tokens[token := segments + [[ref]]];
        } else {
          RewriteFirst(segments, [ref]);
          tokens := tokens[token := segments[1..] + [grown]];
        }
      } else {
        if size(token, [ref]) > MAX_RECORD_PAYLOAD {
          return Failed;
        }
        tokens := tokens[token := [[ref]]];
        OneSegment([ref]);
      }
      return Done;
    }

    /** Append several references to a token in one write, or one by one when that would be too large. */
    method AddBatch(token: string, pending: seq<Pending>) returns (outcome: Outcome)
      requires Valid() && forall p | p in pending :: p.token == token
      modifies this`tokens
      ensures Valid()
      ensures outcome == Done ==> Stored() == old(Stored()) + Among(pending, anyToken)
    {
      var refs := RefsOf(pending);
      if token == anyToken {
        AmongAll(pending, token);
      } else {
        AmongNone(pending, anyToken);
      }
      if token !in tokens {
        if size(token, refs) > MAX_RECORD_PAYLOAD {
          return Failed;
        }
        tokens := tokens[token := [refs]];
        OneSegment(refs);
        return Done;
      }
      var segments := tokens[token];
      var grown := segments[0] + refs;
      if size(token, grown) > MAX_TOKEN_PAYLOAD {
        outcome := AddEach(pending);
        return;
      }
      RewriteFirst(segments, refs);
      tokens := tokens[token := segments[1..] + [grown]];
      return Done;
    }

    method AddEach(pending: seq<Pending>) returns (outcome: Outcome)
      requires Valid()
      modifies this`tokens
      ensures Valid()
      ensures outcome == Done ==> Stored() == old(Stored()) + Among(pending, anyToken)
    {
      for i := 0 to |pending|
        invariant Valid() && Stored() == old(Stored()) + Among(pending[..i], anyToken)
      {
        AmongNext(pending, i, anyToken);
        outcome := AddImmediate(pending[i]);
        if outcome == Failed {
          return;
        }
      }
      assert pending[..|pending|] == pending;
      return Done;
    }

    method StartBatch()
      modifies this`buffer
      ensures buffer == if old(buffer).Some? then old(buffer) else Some([])
    {
      if buffer == None {
        buffer := Some([]);
      }
    }

    /** Add a reference: buffered when batching and the token exists, written at once otherwise. */
    method Add(p: Pending) returns (outcome: Outcome)
      requires Valid()
      modifies this
      ensures Valid() && buffer.Some? == old(buffer.Some?)
      ensures Held() == old(Held()) + if outcome == Done then For(p, anyToken) else multiset{}
    {
      if buffer.Some? && p.token in tokens {
        AmongSnoc(buffer.value, p, anyToken);
        buffer := Some(buffer.value + [p]);
        return Done;
      }
      outcome := AddImmediate(p);
    }

    /** Write out the buffer, one write per token. The buffer is emptied first. */
    method FlushBatch() returns (outcome: Outcome)
      requires Valid()
      modifies this
      ensures Valid() && buffer == if old(buffer).Some? then Some([]) else None
      ensures outcome == Done ==> Held() == old(Held())
    {
      var pending := Buffered();
      buffer := if buffer.Some? then Some([]) else None;
      if pending == [] {
        return Done;
      }
      var grouped := Group(pending, anyToken);
      outcome := WriteGroups(grouped);
    }

    method WriteGroups(grouped: map<string, seq<Pending>>) returns (outcome: Outcome)
      requires Valid() && Uniform(grouped)
      modifies this`tokens
      ensures Valid()
      ensures outcome == Done ==> Stored() == old(Stored()) + Among(GroupOf(grouped, anyToken), anyToken)
    {
      var rest := grouped.Keys;
      while rest != {}
        invariant Valid() && rest <= grouped.Keys
        invariant Stored() == old(Stored()) + if anyToken in rest then multiset{} else Among(GroupOf(grouped, anyToken), anyToken)
        decreases |rest|
      {
        var t :| t in rest;
        if t != anyToken {
          AmongNone(grouped[t], anyToken);
        }
        outcome := AddBatch(t, grouped[t]);
        if outcome == Failed {
          return;
        }
        rest := rest - {t};
      }
      return Done;
    }

    method EndBatch() returns (outcome: Outcome)
      requires Valid()
      modifies this
      ensures Valid() && buffer == None
      ensures outcome == Done ==> Stored() == old(Held())
    {
      outcome := FlushBatch();
      buffer := None;
    }

    /** Main result: adding references one by one, or batched and then flushed, stores the same multiset. */
    method AddAll(refs: seq<Pending>, batched: bool) returns (outcome: Outcome)
      requires Valid() && buffer == None
      modifies this
      ensures Valid() && buffer == None
      ensures outcome == Done ==> Stored() == old(Stored()) + Among(refs, anyToken)
    {
      if batched {
        StartBatch();
      }
      outcome := AddEachNow(refs);
      if outcome == Done {
        outcome := EndBatch();
      } else {
        buffer := None;
      }
    }

    method AddEachNow(refs: seq<Pending>) returns (outcome: Outcome)
      requires Valid()
      modifies this
      ensures Valid() && buffer.Some? == old(buffer.Some?)
      ensures outcome == Done ==> Held() == old(Held()) + Among(refs, anyToken)
    {
      ghost var held := Held();
      for i := 0 to |refs|
        invariant Valid() && buffer.Some? == old(buffer.Some?)
        invariant Held() == held + Among(refs[..i], anyToken)
      {
        AmongNext(refs, i, anyToken);
        SumRight(held, Among(refs[..i], anyToken), For(refs[i], anyToken));
        outcome := Add(refs[i]);
        if outcome == Failed {
          return;
        }
      }
      assert refs[..|refs|] == refs;
      return Done;
    }
  }

  lemma {:induction false} AmongAll(pending: seq<Pending>, token: string)
    requires forall p | p in pending :: p.token == token
    ensures Among(pending, token) == multiset(RefsOf(pending))
  {
    if pending != [] {
      AmongAll(pending[1..], token);
      assert RefsOf(pending) == [RefOf(pending[0])] + RefsOf(pending[1..]);
    }
  }

  function GroupOf(grouped: map<string, seq<Pending>>, t: string): seq<Pending> {
    if t in grouped then grouped[t] else []
  }

  /** A group holds references for its own token only. */
  ghost predicate Uniform(grouped: map<string, seq<Pending>>) {
    forall t, p | t in grouped && p in grouped[t] :: p.token == t
  }

  function PushGroup(grouped: map<string, seq<Pending>>, p: Pending): map<string, seq<Pending>> {
    grouped[p.token := GroupOf(grouped, p.token) + [p]]
  }

  lemma PushGroupAdds(grouped: map<string, seq<Pending>>, p: Pending, t: string)
    requires Uniform(grouped)
    ensures Among(GroupOf(PushGroup(grouped, p), t), t) == Among(GroupOf(grouped, t), t) + For(p, t)
    ensures Uniform(PushGroup(grouped, p))
  {
    AmongSnoc(GroupOf(grouped, p.token), p, t);
  }

  /** Group pending references by token, keeping their order. */
  method Group(pending: seq<Pending>, ghost t: string) returns (grouped: map<string, seq<Pending>>)
    ensures Among(GroupOf(grouped, t), t) == Among(pending, t) && Uniform(grouped)
  {
    grouped := map[];
    for i := 0 to |pending|
      invariant Among(GroupOf(grouped, t), t) == Among(pending[..i], t) && Uniform(grouped)
    {
      AmongNext(pending, i, t);
      PushGroupAdds(grouped, pending[i], t);
      grouped := PushGroup(grouped, pending[i]);
    }
    assert pending[..|pending|] == pending;
  }
}
